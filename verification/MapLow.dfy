/**
 The red-black tree of map_low.c on the heap: nodes that link each other, and a
 ghost tree that every operation keeps in step with the links.
 */
module MapLow {
  import opened Trees
  import opened InsertSteps
  import opened EraseSteps
  import opened Unlink

  /** The links of t are stored in its nodes, and the root of t has parent `up`. */
  ghost predicate Holds(t: Tree, up: Node?)
    reads Nodes(t)
  {
    match t
    case Leaf => true
    case Fork(l, n, red, r) =>
      n.parent == up && n.red == red && n.left == RootOf(l) && n.right == RootOf(r) && Holds(l, n) && Holds(r, n)
  }

  lemma Open(t: Tree, up: Node?)
    requires Distinct(t) && Holds(t, up)
    ensures t.Leaf? ==> Nodes(t) == {}
    ensures t.Fork? ==>
              && t.node.parent == up && t.node.red == t.red
              && t.node.left == RootOf(t.left) && t.node.right == RootOf(t.right)
              && Holds(t.left, t.node) && Holds(t.right, t.node)
              && Distinct(t.left) && Distinct(t.right)
              && Nodes(t) == Nodes(t.left) + {t.node} + Nodes(t.right)
              && Nodes(t.left) !! {t.node} !! Nodes(t.right)
  {
  }

  lemma Close(t: Tree, up: Node?)
    requires t.Fork? ==>
               && t.node.parent == up && t.node.red == t.red
               && t.node.left == RootOf(t.left) && t.node.right == RootOf(t.right)
               && Holds(t.left, t.node) && Holds(t.right, t.node)
    ensures Holds(t, up)
  {
  }

  lemma RootIn(t: Tree)
    ensures Opt(RootOf(t)) <= Nodes(t)
  {
  }

  lemma UpIn(c: Ctx)
    ensures Opt(UpOf(c)) <= CNodes(c)
  {
  }

  class Root {
    var root: Node?
    ghost var nodes: set<Node>
    ghost var tree: Tree

    /** EAF_MAP_LOW_INITIALIZER. */
    constructor ()
      ensures Valid() && nodes == {} && Inorder(tree) == []
    {
      root := null;
      nodes, tree := {}, Leaf;
    }

    ghost predicate Valid()
      reads this, nodes
    {
      At(Top, tree) && IsRedBlack(tree)
    }

    /** The links of c are stored in its nodes, and the hole of c holds the pointer `at`. */
    ghost predicate CHolds(c: Ctx, at: Node?)
      reads this`root, CNodes(c)
    {
      match c
      case Top => root == at
      case InLeft(n, red, s, up) =>
        && n.parent == UpOf(up) && n.red == red && n.left == at && n.right == RootOf(s)
        && Holds(s, n) && CHolds(up, n)
      case InRight(s, n, red, up) =>
        && n.parent == UpOf(up) && n.red == red && n.left == RootOf(s) && n.right == at
        && Holds(s, n) && CHolds(up, n)
    }

    lemma OpenCtx(c: Ctx, at: Node?)
      requires CDistinct(c) && CHolds(c, at)
      ensures c.Top? ==> root == at && CNodes(c) == {}
      ensures !c.Top? ==>
                && c.node.parent == UpOf(c.up) && c.node.red == c.red
                && c.node.left == (if c.InLeft? then at else RootOf(c.left))
                && c.node.right == (if c.InLeft? then RootOf(c.right) else at)
                && Holds(Sibling(c), c.node) && CHolds(c.up, c.node)
                && Distinct(Sibling(c)) && CDistinct(c.up)
                && CNodes(c) == CNodes(c.up) + {c.node} + Nodes(Sibling(c))
                && Nodes(Sibling(c)) !! {c.node} !! CNodes(c.up)
    {
    }

    lemma CloseCtx(c: Ctx, at: Node?)
      requires !c.Top?
      requires c.node.parent == UpOf(c.up) && c.node.red == c.red
      requires c.node.left == (if c.InLeft? then at else RootOf(c.left))
      requires c.node.right == (if c.InLeft? then RootOf(c.right) else at)
      requires Holds(Sibling(c), c.node) && CHolds(c.up, c.node)
      ensures CHolds(c, at)
    {
    }

    /** The heap holds exactly the tree t in the context c. */
    ghost predicate At(c: Ctx, t: Tree)
      reads this`root, this`nodes, nodes
    {
      && Nodes(t) + CNodes(c) == nodes && Apart(c, t)
      && Holds(t, UpOf(c)) && CHolds(c, RootOf(t))
    }

    /** What the heap holds next to the hole. */
    lemma Around(c: Ctx, t: Tree)
      requires At(c, t)
      ensures Apart(c, t)
      ensures c.Top? ==> root == RootOf(t)
      ensures t.Fork? ==>
                && t.node in nodes && t.node.parent == UpOf(c) && t.node.red == t.red
                && t.node.left == RootOf(t.left) && t.node.right == RootOf(t.right)
      ensures !c.Top? ==>
                && c.node in nodes && c.node.parent == UpOf(c.up) && c.node.red == c.red
                && c.node.left == (if c.InLeft? then RootOf(t) else RootOf(c.left))
                && c.node.right == (if c.InLeft? then RootOf(c.right) else RootOf(t))
                && (RootOf(t) == RootOf(Sibling(c)) ==> t.Leaf? && Sibling(c).Leaf?)
                && (Sibling(c).Fork? ==> Sibling(c).node in nodes && Sibling(c).node.red == Sibling(c).red)
    {
    }

    lemma SiblingAround(c: Ctx, t: Tree)
      requires !c.Top? && At(c, t) && Sibling(c).Fork?
      ensures var s := Sibling(c);
              && s.node.left == RootOf(s.left) && s.node.right == RootOf(s.right)
              && (s.left.Fork? ==> s.left.node in nodes && s.left.node.red == s.left.red)
              && (s.right.Fork? ==> s.right.node in nodes && s.right.node.red == s.right.red)
    {
      hide Holds, CHolds, Nodes, CNodes, Distinct, CDistinct, Apart;
      var s := Sibling(c);
      GoAcross(c, t);
      OpenAt(Across(c, t), s);
      OpenApart(Across(c, t), s);
      Open(s, c.node);
      Open(s.left, s.node);
      Open(s.right, s.node);
    }

    lemma Up(c: Ctx, t: Tree)
      requires !c.Top? && At(c, t)
      ensures At(c.up, Join(c, t))
    {
      Ascend(c, t);
    }

    lemma {:induction false} UpToTop(c: Ctx, t: Tree)
      requires At(c, t)
      ensures At(Top, Plug(c, t))
      decreases c
    {
      if !c.Top? {
        Up(c, t);
        UpToTop(c.up, Join(c, t));
      }
    }

    /** rb_set_parent on the root of a subtree that is being moved. */
    method SetParent(rb: Node, p: Node?, ghost t: Tree, ghost up: Node?)
      requires t.Fork? && rb == t.node && Distinct(t) && Holds(t, up) && Nodes(t) <= nodes
      modifies rb`parent
      ensures Holds(t, p)
    {
      hide Holds, Nodes, Distinct;
      Open(t, up);
      rb.parent := p;
      Close(t, p);
    }

    /** rb_set_parent_color on the root of a subtree that is being moved. */
    method SetParentColor(rb: Node, p: Node?, red: bool, ghost t: Tree, ghost up: Node?)
      requires t.Fork? && rb == t.node && Distinct(t) && Holds(t, up) && Nodes(t) <= nodes
      modifies rb`parent, rb`red
      ensures Holds(Paint(t, red), p) && Nodes(Paint(t, red)) == Nodes(t)
    {
      hide Holds, Nodes, Distinct;
      Open(t, up);
      rb.parent := p;
      rb.red := red;
      PaintNodes(t, red);
      Close(Paint(t, red), p);
    }

    method ChangeChild(old_node: Node, new_node: Node?, parent: Node?, ghost c: Ctx)
      requires CNodes(c) <= nodes && old_node !in CNodes(c)
      requires CDistinct(c) && CHolds(c, old_node) && parent == UpOf(c)
      modifies Opt(parent)`left, Opt(parent)`right, this`root
      ensures CHolds(c, new_node)
    {
      assert c.InRight? ==> RootOf(c.left) != old_node;
      if parent != null {
        if parent.left == old_node {
          parent.left := new_node;
        } else {
          parent.right := new_node;
        }
      } else {
        root := new_node;
      }
    }

    method RotateSetParents(old_node: Node, new_node: Node, red: bool, ghost c: Ctx)
      requires CNodes(c) <= nodes && {old_node} !! {new_node} !! CNodes(c)
      requires CDistinct(c) && CHolds(c, old_node) && old_node.parent == UpOf(c)
      modifies {old_node, new_node}`parent, {old_node, new_node}`red
      modifies Opt(UpOf(c))`left, Opt(UpOf(c))`right, this`root
      ensures CHolds(c, new_node)
      ensures new_node.parent == UpOf(c) && new_node.red == old(old_node.red)
      ensures old_node.parent == new_node && old_node.red == red
    {
      hide CHolds, Holds, CDistinct;
      var parent := old_node.parent;
      new_node.parent := old_node.parent;
      new_node.red := old_node.red;
      old_node.parent := new_node;
      old_node.red := red;
      ChangeChild(old_node, new_node, parent, c);
    }

    /** Case 2 of the left half: node is the right child of parent. */
    method InsertCase2Left(node: Node, parent: Node, ghost s: Tree, ghost l: Tree, ghost r: Tree)
      requires {node} !! {parent} !! Nodes(s) !! Nodes(l) !! Nodes(r)
      requires {node, parent} + Nodes(s) + Nodes(l) + Nodes(r) <= nodes
      requires parent.left == RootOf(s) && node.left == RootOf(l) && node.right == RootOf(r)
      requires Distinct(l) && Holds(s, parent) && Holds(l, node) && Holds(r, node) && !Red(l)
      modifies {node, parent}`left, {node, parent}`right, parent`parent, parent`red
      modifies Opt(RootOf(l))`parent, Opt(RootOf(l))`red
      ensures node.left == parent && node.right == old(node.right)
      ensures Holds(Fork(s, parent, true, l), node) && Holds(r, node)
    {
      hide Holds, Nodes, Distinct;
      RootIn(l);
      var tmp := node.left;
      parent.right := tmp;
      node.left := parent;
      if tmp != null {
        SetParentColor(tmp, parent, false, l, node);
      }
      parent.parent := node;
      parent.red := true;
      ForkNodes(s, parent, true, l);
      Close(Fork(s, parent, true, l), node);
    }

    /** Case 3 of the left half: node is the root of a. */
    method InsertCase3Left(parent: Node, gparent: Node, ghost c: Ctx,
                           ghost a: Tree, ghost b: Tree, ghost u: Tree, ghost up: Node?)
      requires {parent} !! {gparent} !! Nodes(a) !! Nodes(b) !! Nodes(u) !! CNodes(c)
      requires {parent, gparent} + Nodes(a) + Nodes(b) + Nodes(u) + CNodes(c) <= nodes
      requires parent.left == RootOf(a) && parent.right == RootOf(b)
      requires gparent.right == RootOf(u) && gparent.parent == UpOf(c) && !gparent.red
      requires Distinct(b) && Holds(a, parent) && Holds(b, up) && Holds(u, gparent) && !Red(b)
      requires CDistinct(c) && CHolds(c, gparent)
      modifies this`root, Opt(UpOf(c))`left, Opt(UpOf(c))`right
      modifies {parent, gparent}`left, {parent, gparent}`right, {parent, gparent}`parent, {parent, gparent}`red
      modifies Opt(RootOf(b))`parent, Opt(RootOf(b))`red
      ensures Holds(Fork(a, parent, false, Fork(b, gparent, true, u)), UpOf(c))
      ensures CHolds(c, parent)
    {
      hide Holds, CHolds, Nodes, CNodes, Distinct, CDistinct;
      UpIn(c);
      RootIn(b);
      var tmp := parent.right;
      gparent.left := tmp;
      parent.right := gparent;
      if tmp != null {
        SetParentColor(tmp, gparent, false, b, up);
      }
      assert CHolds(c, gparent);
      assert Holds(a, parent) && Holds(u, gparent);
      RotateSetParents(gparent, parent, true, c);
      Close(Fork(b, gparent, true, u), parent);
      Close(Fork(a, parent, false, Fork(b, gparent, true, u)), UpOf(c));
    }

    /** Case 2 of the right half: node is the left child of parent. */
    method InsertCase2Right(node: Node, parent: Node, ghost s: Tree, ghost l: Tree, ghost r: Tree)
      requires {node} !! {parent} !! Nodes(s) !! Nodes(l) !! Nodes(r)
      requires {node, parent} + Nodes(s) + Nodes(l) + Nodes(r) <= nodes
      requires parent.right == RootOf(s) && node.right == RootOf(l) && node.left == RootOf(r)
      requires Distinct(l) && Holds(s, parent) && Holds(l, node) && Holds(r, node) && !Red(l)
      modifies {node, parent}`right, {node, parent}`left, parent`parent, parent`red
      modifies Opt(RootOf(l))`parent, Opt(RootOf(l))`red
      ensures node.right == parent && node.left == old(node.left)
      ensures Holds(Fork(l, parent, true, s), node) && Holds(r, node)
    {
      hide Holds, Nodes, Distinct;
      RootIn(l);
      var tmp := node.right;
      parent.left := tmp;
      node.right := parent;
      if tmp != null {
        SetParentColor(tmp, parent, false, l, node);
      }
      parent.parent := node;
      parent.red := true;
      ForkNodes(l, parent, true, s);
      Close(Fork(l, parent, true, s), node);
    }

    /** Case 3 of the right half: node is the root of a. */
    method InsertCase3Right(parent: Node, gparent: Node, ghost c: Ctx,
                           ghost a: Tree, ghost b: Tree, ghost u: Tree, ghost up: Node?)
      requires {parent} !! {gparent} !! Nodes(a) !! Nodes(b) !! Nodes(u) !! CNodes(c)
      requires {parent, gparent} + Nodes(a) + Nodes(b) + Nodes(u) + CNodes(c) <= nodes
      requires parent.right == RootOf(a) && parent.left == RootOf(b)
      requires gparent.left == RootOf(u) && gparent.parent == UpOf(c) && !gparent.red
      requires Distinct(b) && Holds(a, parent) && Holds(b, up) && Holds(u, gparent) && !Red(b)
      requires CDistinct(c) && CHolds(c, gparent)
      modifies this`root, Opt(UpOf(c))`right, Opt(UpOf(c))`left
      modifies {parent, gparent}`right, {parent, gparent}`left, {parent, gparent}`parent, {parent, gparent}`red
      modifies Opt(RootOf(b))`parent, Opt(RootOf(b))`red
      ensures Holds(Fork(Fork(u, gparent, true, b), parent, false, a), UpOf(c))
      ensures CHolds(c, parent)
    {
      hide Holds, CHolds, Nodes, CNodes, Distinct, CDistinct;
      UpIn(c);
      RootIn(b);
      var tmp := parent.left;
      gparent.right := tmp;
      parent.left := gparent;
      if tmp != null {
        SetParentColor(tmp, gparent, false, b, up);
      }
      assert CHolds(c, gparent);
      assert Holds(a, parent) && Holds(u, gparent);
      RotateSetParents(gparent, parent, true, c);
      Close(Fork(u, gparent, true, b), parent);
      Close(Fork(Fork(u, gparent, true, b), parent, false, a), UpOf(c));
    }

    /** The inverse of Up. */
    lemma Down(c: Ctx, t: Tree)
      requires !c.Top? && At(c.up, Join(c, t))
      ensures At(c, t)
    {
      Descend(c, t);
      assert Holds(Join(c, t), UpOf(c.up));
    }

    /** Moves the hole over to the sibling. */
    lemma GoAcross(c: Ctx, t: Tree)
      requires !c.Top? && At(c, t)
      ensures At(Across(c, t), Sibling(c))
    {
      hide At;
      Up(c, t);
      Down(Across(c, t), Sibling(c));
    }

    /** rb_set_parent_color where the parent stays the same. */
    method RepaintAt(rb: Node, p: Node?, red: bool, ghost c: Ctx, ghost t: Tree)
      requires At(c, t) && t.Fork? && rb == t.node && p == UpOf(c)
      modifies rb`parent, rb`red
      ensures At(c, Paint(t, red))
    {
      hide Holds, CHolds, Nodes, CNodes, Distinct, CDistinct, Apart;
      Painted(c, t, red);
      OpenApart(c, t);
      Open(t, UpOf(c));
      rb.parent := p;
      rb.red := red;
      Close(Paint(t, red), p);
    }

    /** Case 1, which is the same code in both halves. */
    method InsertCase1(parent: Node, gparent: Node, uncle: Node, ghost c: Ctx, ghost t: Tree, ghost k: int)
      requires At(c, t) && AlmostRedBlack(c, t, k) && CRed(c) && !c.up.Top? && Red(Sibling(c.up))
      requires parent == c.node && gparent == c.up.node && uncle == Sibling(c.up).node
      modifies nodes`parent, nodes`red
      ensures At(c.up.up, Flip(c, t)) && AlmostRedBlack(c.up.up, Flip(c, t), k + 1)
      ensures Inorder(Plug(c.up.up, Flip(c, t))) == Inorder(Plug(c, t))
    {
      hide At, AlmostRedBlack, Apart, Inorder, Plug;
      Around(c, t);
      FlipOk(c, t, k);
      FlipPlace(c, t);
      Up(c, t);
      ghost var p := Join(c, t);
      GoAcross(c.up, p);
      ghost var u, cu := Sibling(c.up), Across(c.up, p);
      Around(cu, u);
      RepaintAt(uncle, gparent, false, cu, u);
      GoAcross(cu, Paint(u, false));
      ghost var cp := Across(cu, Paint(u, false));
      Around(cp, p);
      RepaintAt(parent, gparent, false, cp, p);
      Up(cp, Paint(p, false));
      ghost var g := Join(cp, Paint(p, false));
      Around(c.up.up, g);
      RepaintAt(gparent, gparent.parent, true, c.up.up, g);
    }

    lemma OpenAt(c: Ctx, t: Tree)
      requires At(c, t)
      ensures Nodes(t) + CNodes(c) == nodes && Apart(c, t) && Holds(t, UpOf(c)) && CHolds(c, RootOf(t))
    {
    }

    /** Cases 2 and 3 of the left half. */
    method InsertRestructureLeft(node: Node, parent0: Node, gparent: Node, ghost c: Ctx, ghost t: Tree, ghost k: int)
      requires At(c, t) && Red(t) && AlmostRedBlack(c, t, k) && CRed(c) && c.up.InLeft? && !Red(c.up.right)
      requires node == t.node && parent0 == c.node && gparent == c.up.node
      modifies this`root, nodes`left, nodes`right, nodes`parent, nodes`red
      ensures At(c.up.up, Restructure(c, t)) && RedBlackAt(c.up.up, Restructure(c, t), k + 1)
      ensures Inorder(Plug(c.up.up, Restructure(c, t))) == Inorder(Plug(c, t))
    {
      hide Holds, CHolds, Nodes, CNodes, Distinct, CDistinct, Apart, Inorder, Plug, AlmostRedBlack, RedBlackAt;
      InsertColors(c, t, k);
      RestructureOk(c, t, k);
      ghost var s, u, c2 := Sibling(c), c.up.right, c.up.up;
      RestructurePlace(c, t);
      Up(c, t);
      Up(c.up, Join(c, t));
      ghost var p := Join(c, t);
      ghost var x := Join(c.up, p);
      OpenApart(c2, x);
      Open(x, UpOf(c2));
      Open(p, gparent);
      Open(t, parent0);
      UpIn(c2);
      RootIn(s);
      RootIn(t.left);
      RootIn(t.right);
      var parent := parent0;
      var tmp := parent.right;
      if node == tmp {
        ForkNodes(s, parent, true, t.left);
        InsertCase2Left(node, parent, s, t.left, t.right);
        parent := node;
        InsertCase3Left(parent, gparent, c2, Fork(s, parent0, true, t.left), t.right, u, node);
      } else {
        InsertCase3Left(parent, gparent, c2, t, s, u, parent);
      }
    }

    /** Cases 2 and 3 of the right half. */
    method InsertRestructureRight(node: Node, parent0: Node, gparent: Node, ghost c: Ctx, ghost t: Tree, ghost k: int)
      requires At(c, t) && Red(t) && AlmostRedBlack(c, t, k) && CRed(c) && c.up.InRight? && !Red(c.up.left)
      requires node == t.node && parent0 == c.node && gparent == c.up.node
      modifies this`root, nodes`right, nodes`left, nodes`parent, nodes`red
      ensures At(c.up.up, Restructure(c, t)) && RedBlackAt(c.up.up, Restructure(c, t), k + 1)
      ensures Inorder(Plug(c.up.up, Restructure(c, t))) == Inorder(Plug(c, t))
    {
      hide Holds, CHolds, Nodes, CNodes, Distinct, CDistinct, Apart, Inorder, Plug, AlmostRedBlack, RedBlackAt;
      InsertColors(c, t, k);
      RestructureOk(c, t, k);
      ghost var s, u, c2 := Sibling(c), c.up.left, c.up.up;
      RestructurePlace(c, t);
      Up(c, t);
      Up(c.up, Join(c, t));
      ghost var p := Join(c, t);
      ghost var x := Join(c.up, p);
      OpenApart(c2, x);
      Open(x, UpOf(c2));
      Open(p, gparent);
      Open(t, parent0);
      UpIn(c2);
      RootIn(s);
      RootIn(t.right);
      RootIn(t.left);
      var parent := parent0;
      var tmp := parent.left;
      if node == tmp {
        ForkNodes(t.right, parent, true, s);
        InsertCase2Right(node, parent, s, t.right, t.left);
        parent := node;
        InsertCase3Right(parent, gparent, c2, Fork(t.right, parent0, true, s), t.left, u, node);
      } else {
        InsertCase3Right(parent, gparent, c2, t, s, u, parent);
      }
    }

    method InsertColor(node0: Node, ghost c0: Ctx, ghost t0: Tree, ghost k0: int)
      requires At(c0, t0) && t0.Fork? && node0 == t0.node && t0.red && AlmostRedBlack(c0, t0, k0)
      modifies this`root, this`tree, nodes`left, nodes`right, nodes`parent, nodes`red
      ensures Valid() && Inorder(tree) == Inorder(Plug(c0, t0))
    {
      hide At, AlmostRedBlack, RedBlackAt, NoRedRed, CNoRedRed, HasBh, CHasBh, Apart, Inorder, Plug, Nodes, CNodes;
      var node, parent := node0, node0.parent;
      ghost var c, t, k := c0, t0, k0;
      Around(c, t);
      while true
        invariant At(c, t) && t.Fork? && node == t.node && parent == UpOf(c)
        invariant AlmostRedBlack(c, t, k) && Inorder(Plug(c, t)) == Inorder(Plug(c0, t0))
        invariant Red(t)
        decreases c
      {
        Around(c, t);
        if parent == null {
          RootPainted(t, k);
          RepaintAt(node, null, false, c, t);
          t, k := Paint(t, false), k + 1;
          break;
        } else if !parent.red {
          BlackParent(c, t, k);
          break;
        }
        Up(c, t);
        Around(c.up, Join(c, t));
        InsertColors(c, t, k);
        var gparent := parent.parent;
        var tmp := gparent.right;
        if parent != tmp {
          if tmp != null && tmp.red {
            InsertCase1(parent, gparent, tmp, c, t, k);
            c, t, k := c.up.up, Flip(c, t), k + 1;
            node := gparent;
            Around(c, t);
            parent := node.parent;
            continue;
          }
          InsertRestructureLeft(node, parent, gparent, c, t, k);
          c, t, k := c.up.up, Restructure(c, t), k + 1;
          break;
        } else {
          tmp := gparent.left;
          if tmp != null && tmp.red {
            InsertCase1(parent, gparent, tmp, c, t, k);
            c, t, k := c.up.up, Flip(c, t), k + 1;
            node := gparent;
            Around(c, t);
            parent := node.parent;
            continue;
          }
          InsertRestructureRight(node, parent, gparent, c, t, k);
          c, t, k := c.up.up, Restructure(c, t), k + 1;
          break;
        }
      }
      UpToTop(c, t);
      PlugRedBlack(c, t, k);
      tree := Plug(c, t);
    }

    /** Case 1 of the left half: left rotation at parent. */
    method EraseCase1Left(parent: Node, sibling: Node, ghost c: Ctx, ghost t: Tree, ghost k: int)
      requires At(c, t) && Deficit(c, t, k) && c.InLeft? && Red(c.right)
      requires parent == c.node && sibling == c.right.node
      modifies this`root, nodes`left, nodes`right, nodes`parent, nodes`red
      ensures At(RedSibling(c), t) && Deficit(RedSibling(c), t, k)
      ensures Inorder(Plug(RedSibling(c), t)) == Inorder(Plug(c, t))
    {
      hide Holds, CHolds, Nodes, CNodes, Distinct, CDistinct, Apart, Inorder, Plug, Deficit;
      SiblingExists(c, t, k);
      RedSiblingOk(c, t, k);
      RedSiblingPlace(c, t);
      ghost var s, d := c.right, RedSibling(c);
      OpenApart(c, t);
      OpenCtx(c, RootOf(t));
      Open(s, parent);
      RootIn(s.left);
      RootIn(t);
      UpIn(c.up);
      var tmp1 := sibling.left;
      parent.right := tmp1;
      sibling.left := parent;
      SetParentColor(tmp1, parent, false, s.left, sibling);
      assert CHolds(c.up, parent);
      assert Holds(t, parent) && Holds(s.right, sibling);
      RotateSetParents(parent, sibling, true, c.up);
      CloseCtx(d.up, parent);
      CloseCtx(d, RootOf(t));
    }

    /** Case 3 of the left half: right rotation at sibling. The parent links of sibling and its red child go stale. */
    method EraseCase3Left(parent: Node, sibling: Node, tmp2: Node, ghost a: Tree, ghost b: Tree, ghost r: Tree)
      requires {parent} !! {sibling} !! {tmp2} !! Nodes(a) !! Nodes(b) !! Nodes(r)
      requires {parent, sibling, tmp2} + Nodes(a) + Nodes(b) + Nodes(r) <= nodes
      requires tmp2.left == RootOf(a) && tmp2.right == RootOf(b) && sibling.right == RootOf(r)
      requires sibling.parent == parent && !sibling.red
      requires Distinct(b) && Holds(a, tmp2) && Holds(b, tmp2) && Holds(r, sibling) && !Red(b)
      modifies parent`right, sibling`left, tmp2`right
      modifies Opt(RootOf(b))`parent, Opt(RootOf(b))`red
      ensures parent.right == tmp2 && tmp2.right == sibling
      ensures Holds(a, tmp2) && Holds(Fork(b, sibling, false, r), parent)
    {
      hide Holds, Nodes, Distinct;
      RootIn(b);
      var tmp1 := tmp2.right;
      sibling.left := tmp1;
      tmp2.right := sibling;
      parent.right := tmp2;
      if tmp1 != null {
        SetParentColor(tmp1, sibling, false, b, tmp2);
      }
      Close(Fork(b, sibling, false, r), parent);
    }

    /** Case 4 of the left half: left rotation at parent and color flips; tmp1 is the root of r. */
    method EraseCase4Left(parent: Node, sibling: Node, tmp1: Node, ghost c: Ctx,
                          ghost t: Tree, ghost l: Tree, ghost r: Tree, ghost up: Node?)
      requires {parent} !! {sibling} !! Nodes(t) !! Nodes(l) !! Nodes(r) !! CNodes(c)
      requires {parent, sibling} + Nodes(t) + Nodes(l) + Nodes(r) + CNodes(c) <= nodes
      requires parent.left == RootOf(t) && sibling.left == RootOf(l) && sibling.right == tmp1 == RootOf(r)
      requires parent.parent == UpOf(c)
      requires Distinct(l) && Distinct(r) && Holds(t, parent) && Holds(l, sibling) && Holds(r, up)
      requires CDistinct(c) && CHolds(c, parent)
      modifies this`root, Opt(UpOf(c))`left, Opt(UpOf(c))`right
      modifies {parent, sibling}`left, {parent, sibling}`right, {parent, sibling}`parent, {parent, sibling}`red
      modifies Opt(RootOf(l))`parent, {tmp1}`parent, {tmp1}`red
      ensures Holds(Fork(Fork(t, parent, false, l), sibling, old(parent.red), Paint(r, false)), UpOf(c))
      ensures CHolds(c, sibling)
    {
      hide Holds, CHolds, Nodes, CNodes, Distinct, CDistinct;
      ghost var red := parent.red;
      UpIn(c);
      RootIn(l);
      RootIn(r);
      var tmp2 := sibling.left;
      parent.right := tmp2;
      sibling.left := parent;
      SetParentColor(tmp1, sibling, false, r, up);
      if tmp2 != null {
        SetParent(tmp2, parent, l, sibling);
      }
      assert CHolds(c, parent);
      assert Holds(t, parent);
      RotateSetParents(parent, sibling, false, c);
      Close(Fork(t, parent, false, l), sibling);
      Close(Fork(Fork(t, parent, false, l), sibling, red, Paint(r, false)), UpOf(c));
    }

    /** Cases 3 and 4 of the left half: the outer nephew is black or missing, the inner one tmp2 is red. */
    method EraseCases34Left(parent: Node, sibling: Node, tmp2: Node, ghost c: Ctx, ghost t: Tree, ghost k: int)
      requires At(c, t) && Deficit(c, t, k) && c.InLeft? && c.right.Fork? && !c.right.red
      requires Red(c.right.left) && !Red(c.right.right)
      requires parent == c.node && sibling == c.right.node && tmp2 == c.right.left.node
      modifies this`root, nodes`left, nodes`right, nodes`parent, nodes`red
      ensures At(c.up, Borrow(c, t)) && RedBlackAt(c.up, Borrow(c, t), if c.red then k + 1 else k + 2)
      ensures Inorder(Plug(c.up, Borrow(c, t))) == Inorder(Plug(c, t))
    {
      hide Holds, CHolds, Nodes, CNodes, Distinct, CDistinct, Apart, Inorder, Plug, Deficit, RedBlackAt;
      BorrowColors(c, t, k);
      BorrowOk(c, t, k);
      BorrowPlace(c, t);
      ghost var s, q := c.right, c.right.left;
      OpenApart(c, t);
      OpenCtx(c, RootOf(t));
      Open(s, parent);
      Open(q, sibling);
      RootIn(q.left);
      RootIn(q.right);
      UpIn(c.up);
      EraseCase3Left(parent, sibling, tmp2, q.left, q.right, s.right);
      ForkNodes(q.right, sibling, false, s.right);
      EraseCase4Left(parent, tmp2, sibling, c.up, t, q.left, Fork(q.right, sibling, false, s.right), parent);
    }

    /** Case 4 of the left half alone: the outer nephew tmp1 is red. */
    method EraseCase4OnlyLeft(parent: Node, sibling: Node, tmp1: Node, ghost c: Ctx, ghost t: Tree, ghost k: int)
      requires At(c, t) && Deficit(c, t, k) && c.InLeft? && c.right.Fork? && !c.right.red
      requires Red(c.right.right)
      requires parent == c.node && sibling == c.right.node && tmp1 == c.right.right.node
      modifies this`root, nodes`left, nodes`right, nodes`parent, nodes`red
      ensures At(c.up, Borrow(c, t)) && RedBlackAt(c.up, Borrow(c, t), if c.red then k + 1 else k + 2)
      ensures Inorder(Plug(c.up, Borrow(c, t))) == Inorder(Plug(c, t))
    {
      hide Holds, CHolds, Nodes, CNodes, Distinct, CDistinct, Apart, Inorder, Plug, Deficit, RedBlackAt;
      BorrowOk(c, t, k);
      BorrowPlace(c, t);
      ghost var s := c.right;
      OpenApart(c, t);
      OpenCtx(c, RootOf(t));
      Open(s, parent);
      RootIn(s.left);
      RootIn(s.right);
      UpIn(c.up);
      EraseCase4Left(parent, sibling, tmp1, c.up, t, s.left, s.right, sibling);
    }

    /** Case 1 of the right half: right rotation at parent. */
    method EraseCase1Right(parent: Node, sibling: Node, ghost c: Ctx, ghost t: Tree, ghost k: int)
      requires At(c, t) && Deficit(c, t, k) && c.InRight? && Red(c.left)
      requires parent == c.node && sibling == c.left.node
      modifies this`root, nodes`right, nodes`left, nodes`parent, nodes`red
      ensures At(RedSibling(c), t) && Deficit(RedSibling(c), t, k)
      ensures Inorder(Plug(RedSibling(c), t)) == Inorder(Plug(c, t))
    {
      hide Holds, CHolds, Nodes, CNodes, Distinct, CDistinct, Apart, Inorder, Plug, Deficit;
      SiblingExists(c, t, k);
      RedSiblingOk(c, t, k);
      RedSiblingPlace(c, t);
      ghost var s, d := c.left, RedSibling(c);
      OpenApart(c, t);
      OpenCtx(c, RootOf(t));
      Open(s, parent);
      RootIn(s.right);
      RootIn(t);
      UpIn(c.up);
      var tmp1 := sibling.right;
      parent.left := tmp1;
      sibling.right := parent;
      SetParentColor(tmp1, parent, false, s.right, sibling);
      assert CHolds(c.up, parent);
      assert Holds(t, parent) && Holds(s.left, sibling);
      RotateSetParents(parent, sibling, true, c.up);
      CloseCtx(d.up, parent);
      CloseCtx(d, RootOf(t));
    }

    /** Case 3 of the right half: left rotation at sibling. The parent links of sibling and its red child go stale. */
    method EraseCase3Right(parent: Node, sibling: Node, tmp2: Node, ghost a: Tree, ghost b: Tree, ghost r: Tree)
      requires {parent} !! {sibling} !! {tmp2} !! Nodes(a) !! Nodes(b) !! Nodes(r)
      requires {parent, sibling, tmp2} + Nodes(a) + Nodes(b) + Nodes(r) <= nodes
      requires tmp2.right == RootOf(a) && tmp2.left == RootOf(b) && sibling.left == RootOf(r)
      requires sibling.parent == parent && !sibling.red
      requires Distinct(b) && Holds(a, tmp2) && Holds(b, tmp2) && Holds(r, sibling) && !Red(b)
      modifies parent`left, sibling`right, tmp2`left
      modifies Opt(RootOf(b))`parent, Opt(RootOf(b))`red
      ensures parent.left == tmp2 && tmp2.left == sibling
      ensures Holds(a, tmp2) && Holds(Fork(r, sibling, false, b), parent)
    {
      hide Holds, Nodes, Distinct;
      RootIn(b);
      var tmp1 := tmp2.left;
      sibling.right := tmp1;
      tmp2.left := sibling;
      parent.left := tmp2;
      if tmp1 != null {
        SetParentColor(tmp1, sibling, false, b, tmp2);
      }
      Close(Fork(r, sibling, false, b), parent);
    }

    /** Case 4 of the right half: right rotation at parent and color flips; tmp1 is the root of r. */
    method EraseCase4Right(parent: Node, sibling: Node, tmp1: Node, ghost c: Ctx,
                          ghost t: Tree, ghost l: Tree, ghost r: Tree, ghost up: Node?)
      requires {parent} !! {sibling} !! Nodes(t) !! Nodes(l) !! Nodes(r) !! CNodes(c)
      requires {parent, sibling} + Nodes(t) + Nodes(l) + Nodes(r) + CNodes(c) <= nodes
      requires parent.right == RootOf(t) && sibling.right == RootOf(l) && sibling.left == tmp1 == RootOf(r)
      requires parent.parent == UpOf(c)
      requires Distinct(l) && Distinct(r) && Holds(t, parent) && Holds(l, sibling) && Holds(r, up)
      requires CDistinct(c) && CHolds(c, parent)
      modifies this`root, Opt(UpOf(c))`right, Opt(UpOf(c))`left
      modifies {parent, sibling}`right, {parent, sibling}`left, {parent, sibling}`parent, {parent, sibling}`red
      modifies Opt(RootOf(l))`parent, {tmp1}`parent, {tmp1}`red
      ensures Holds(Fork(Paint(r, false), sibling, old(parent.red), Fork(l, parent, false, t)), UpOf(c))
      ensures CHolds(c, sibling)
    {
      hide Holds, CHolds, Nodes, CNodes, Distinct, CDistinct;
      ghost var red := parent.red;
      UpIn(c);
      RootIn(l);
      RootIn(r);
      var tmp2 := sibling.right;
      parent.left := tmp2;
      sibling.right := parent;
      SetParentColor(tmp1, sibling, false, r, up);
      if tmp2 != null {
        SetParent(tmp2, parent, l, sibling);
      }
      assert CHolds(c, parent);
      assert Holds(t, parent);
      RotateSetParents(parent, sibling, false, c);
      Close(Fork(l, parent, false, t), sibling);
      Close(Fork(Paint(r, false), sibling, red, Fork(l, parent, false, t)), UpOf(c));
    }

    /** Cases 3 and 4 of the right half: the outer nephew is black or missing, the inner one tmp2 is red. */
    method EraseCases34Right(parent: Node, sibling: Node, tmp2: Node, ghost c: Ctx, ghost t: Tree, ghost k: int)
      requires At(c, t) && Deficit(c, t, k) && c.InRight? && c.left.Fork? && !c.left.red
      requires Red(c.left.right) && !Red(c.left.left)
      requires parent == c.node && sibling == c.left.node && tmp2 == c.left.right.node
      modifies this`root, nodes`right, nodes`left, nodes`parent, nodes`red
      ensures At(c.up, Borrow(c, t)) && RedBlackAt(c.up, Borrow(c, t), if c.red then k + 1 else k + 2)
      ensures Inorder(Plug(c.up, Borrow(c, t))) == Inorder(Plug(c, t))
    {
      hide Holds, CHolds, Nodes, CNodes, Distinct, CDistinct, Apart, Inorder, Plug, Deficit, RedBlackAt;
      BorrowColors(c, t, k);
      BorrowOk(c, t, k);
      BorrowPlace(c, t);
      ghost var s, q := c.left, c.left.right;
      OpenApart(c, t);
      OpenCtx(c, RootOf(t));
      Open(s, parent);
      Open(q, sibling);
      RootIn(q.right);
      RootIn(q.left);
      UpIn(c.up);
      EraseCase3Right(parent, sibling, tmp2, q.right, q.left, s.left);
      ForkNodes(s.left, sibling, false, q.left);
      EraseCase4Right(parent, tmp2, sibling, c.up, t, q.right, Fork(s.left, sibling, false, q.left), parent);
    }

    /** Case 4 of the right half alone: the outer nephew tmp1 is red. */
    method EraseCase4OnlyRight(parent: Node, sibling: Node, tmp1: Node, ghost c: Ctx, ghost t: Tree, ghost k: int)
      requires At(c, t) && Deficit(c, t, k) && c.InRight? && c.left.Fork? && !c.left.red
      requires Red(c.left.left)
      requires parent == c.node && sibling == c.left.node && tmp1 == c.left.left.node
      modifies this`root, nodes`right, nodes`left, nodes`parent, nodes`red
      ensures At(c.up, Borrow(c, t)) && RedBlackAt(c.up, Borrow(c, t), if c.red then k + 1 else k + 2)
      ensures Inorder(Plug(c.up, Borrow(c, t))) == Inorder(Plug(c, t))
    {
      hide Holds, CHolds, Nodes, CNodes, Distinct, CDistinct, Apart, Inorder, Plug, Deficit, RedBlackAt;
      BorrowOk(c, t, k);
      BorrowPlace(c, t);
      ghost var s := c.left;
      OpenApart(c, t);
      OpenCtx(c, RootOf(t));
      Open(s, parent);
      RootIn(s.right);
      RootIn(s.left);
      UpIn(c.up);
      EraseCase4Right(parent, sibling, tmp1, c.up, t, s.right, s.left, sibling);
    }

    /** Case 2, which is the same code in both halves; reports whether the deficit has moved up to parent. */
    method EraseCase2(parent: Node, sibling: Node, ghost c: Ctx, ghost t: Tree, ghost k: int) returns (up: bool)
      requires At(c, t) && Deficit(c, t, k) && !c.Top? && Sibling(c).Fork? && !Red(Sibling(c))
      requires !Red(Sibling(c).left) && !Red(Sibling(c).right)
      requires parent == c.node && sibling == Sibling(c).node
      modifies nodes`parent, nodes`red
      ensures up <==> !c.red
      ensures At(c.up, Paint(Recolor(c, t), false))
      ensures Inorder(Plug(c.up, Paint(Recolor(c, t), false))) == Inorder(Plug(c, t))
      ensures if up && !c.up.Top? then Deficit(c.up, Paint(Recolor(c, t), false), k + 1)
              else RedBlackAt(c.up, Paint(Recolor(c, t), false), k + 1)
    {
      hide At, Deficit, RedBlackAt, Apart, Inorder, Plug;
      Around(c, t);
      RecolorOk(c, t, k);
      RecolorPlace(c, t, false);
      GoAcross(c, t);
      ghost var s, d := Sibling(c), Across(c, t);
      RepaintAt(sibling, parent, true, d, s);
      Up(d, Paint(s, true));
      Around(d, Paint(s, true));
      if parent.red {
        RepaintAt(parent, parent.parent, false, c.up, Recolor(c, t));
        up := false;
      } else {
        up := true;
      }
    }

    method EraseColor(parent0: Node, ghost c0: Ctx, ghost t0: Tree, ghost k0: int)
      requires At(c0, t0) && Deficit(c0, t0, k0) && t0.Leaf? && !c0.Top? && parent0 == c0.node
      modifies this`root, this`tree, nodes`left, nodes`right, nodes`parent, nodes`red
      ensures Valid() && Inorder(tree) == Inorder(Plug(c0, t0))
    {
      hide At, Deficit, RedBlackAt, Apart, Inorder, Plug, Nodes, CNodes;
      var node: Node?, parent := null, parent0;
      ghost var c, t, k := c0, t0, k0;
      while true
        invariant At(c, t) && Deficit(c, t, k) && Inorder(Plug(c, t)) == Inorder(Plug(c0, t0))
        invariant !c.Top? && node == RootOf(t) && parent == c.node
        decreases c
      {
        Around(c, t);
        SiblingExists(c, t, k);
        var sibling := parent.right;
        if node != sibling {
          if sibling.red {
            RedSiblingOk(c, t, k);
            EraseCase1Left(parent, sibling, c, t, k);
            c := RedSibling(c);
            Around(c, t);
            SiblingExists(c, t, k);
            sibling := parent.right;
          }
          SiblingAround(c, t);
          var tmp1 := sibling.right;
          if tmp1 == null || !tmp1.red {
            var tmp2 := sibling.left;
            if tmp2 == null || !tmp2.red {
              var up := EraseCase2(parent, sibling, c, t, k);
              c, t, k := c.up, Paint(Recolor(c, t), false), k + 1;
              Around(c, t);
              if up {
                node := parent;
                parent := node.parent;
                if parent != null {
                  continue;
                }
              }
              break;
            }
            EraseCases34Left(parent, sibling, tmp2, c, t, k);
          } else {
            EraseCase4OnlyLeft(parent, sibling, tmp1, c, t, k);
          }
          c, t, k := c.up, Borrow(c, t), if c.red then k + 1 else k + 2;
          break;
        } else {
          sibling := parent.left;
          if sibling.red {
            RedSiblingOk(c, t, k);
            EraseCase1Right(parent, sibling, c, t, k);
            c := RedSibling(c);
            Around(c, t);
            SiblingExists(c, t, k);
            sibling := parent.left;
          }
          SiblingAround(c, t);
          var tmp1 := sibling.left;
          if tmp1 == null || !tmp1.red {
            var tmp2 := sibling.right;
            if tmp2 == null || !tmp2.red {
              var up := EraseCase2(parent, sibling, c, t, k);
              c, t, k := c.up, Paint(Recolor(c, t), false), k + 1;
              Around(c, t);
              if up {
                node := parent;
                parent := node.parent;
                if parent != null {
                  continue;
                }
              }
              break;
            }
            EraseCases34Right(parent, sibling, tmp2, c, t, k);
          } else {
            EraseCase4OnlyRight(parent, sibling, tmp1, c, t, k);
          }
          c, t, k := c.up, Borrow(c, t), if c.red then k + 1 else k + 2;
          break;
        }
      }
      UpToTop(c, t);
      PlugRedBlack(c, t, k);
      tree := Plug(c, t);
    }

    // ---------- Unlinking ----------

    lemma {:induction false} UpOver(path: Ctx, base: Ctx, t: Tree)
      requires At(Over(path, base), t)
      ensures At(base, Plug(path, t))
      decreases path
    {
      hide At;
      if !path.Top? {
        Up(Over(path, base), t);
        UpOver(path.up, base, Join(path, t));
      }
    }

    lemma {:induction false} DownOver(path: Ctx, base: Ctx, t: Tree)
      requires At(base, Plug(path, t))
      ensures At(Over(path, base), t)
      decreases path
    {
      hide At;
      if !path.Top? {
        DownOver(path.up, base, Join(path, t));
        Down(Over(path, base), t);
      }
    }

    /** Case 1: a node without a left or without a right child; ch is the other child. */
    method UnlinkCase1(node: Node, child: Node?, ghost ch: Tree, ghost c: Ctx, ghost t: Tree, ghost k: int)
      returns (rebalance: Node?, ghost t': Tree)
      requires At(c, t) && RedBlackAt(c, t, k) && t.Fork? && node == t.node && child == RootOf(ch)
      requires (t.left.Leaf? && ch == t.right) || (t.right.Leaf? && ch == t.left)
      modifies this`root, this`nodes, nodes`left, nodes`right, nodes`parent, nodes`red
      ensures nodes == old(nodes) - {node}
      ensures At(c, t') && t' == Paint(ch, false)
      ensures rebalance == null ==> RedBlackAt(c, t', if ch.Leaf? then 0 else k)
      ensures rebalance != null ==> t'.Leaf? && Deficit(c, t', 0) && !c.Top? && rebalance == c.node
    {
      hide Holds, CHolds, Nodes, CNodes, Distinct, CDistinct, Apart, Deficit, RedBlackAt;
      t' := Paint(ch, false);
      SpliceOk(c, t, ch, k);
      SplicePlace(c, t, ch, false);
      OpenApart(c, t);
      Open(t, UpOf(c));
      UpIn(c);
      RootIn(ch);
      OpenDistinct(if ch == t.right then t.left else t.right);
      var parent, red := node.parent, node.red;
      ChangeChild(node, child, parent, c);
      if child != null {
        SetParentColor(child, parent, red, ch, node);
        rebalance := null;
      } else {
        Close(ch, UpOf(c));
        rebalance := if red then null else parent;
      }
      nodes := nodes - {node};
    }

    /** The common tail of cases 2 and 3: the successor takes over the left child, the parent and the color of node. */
    method TakePlace(node: Node, successor: Node, ghost c: Ctx, ghost l: Tree)
      requires CNodes(c) + Nodes(l) <= nodes && {node} !! {successor} !! Nodes(l) !! CNodes(c)
      requires CDistinct(c) && CHolds(c, node) && node.parent == UpOf(c)
      requires l.Fork? && Distinct(l) && Holds(l, node) && node.left == RootOf(l)
      modifies this`root, Opt(UpOf(c))`left, Opt(UpOf(c))`right, l.node`parent
      modifies successor`left, successor`parent, successor`red
      ensures CHolds(c, successor) && Holds(l, successor)
      ensures successor.left == RootOf(l) && successor.parent == UpOf(c) && successor.red == node.red
    {
      hide Holds, CHolds, Nodes, CNodes, Distinct, CDistinct;
      RootIn(l);
      UpIn(c);
      var tmp := node.left;
      successor.left := tmp;
      SetParent(tmp, successor, l, node);
      tmp := node.parent;
      ChangeChild(node, successor, tmp, c);
      successor.parent := node.parent;
      successor.red := node.red;
    }

    /** Case 2: the right child r of node has no left child. */
    method UnlinkCase2(node: Node, successor: Node, ghost c: Ctx, ghost t: Tree, ghost k: int)
      returns (rebalance: Node?, ghost c': Ctx, ghost t': Tree, ghost k': int)
      requires At(c, t) && RedBlackAt(c, t, k) && t.Fork? && node == t.node && t.left.Fork?
      requires t.right.Fork? && t.right.left.Leaf? && successor == t.right.node
      modifies this`root, this`nodes, nodes`left, nodes`right, nodes`parent, nodes`red
      ensures nodes == old(nodes) - {node}
      ensures At(c', t')
      ensures Inorder(Plug(c', t')) == CBefore(c) + Inorder(t.left) + Inorder(t.right) + CAfter(c)
      ensures rebalance == null ==> RedBlackAt(c', t', k')
      ensures rebalance != null ==> t'.Leaf? && Deficit(c', t', k') && !c'.Top? && rebalance == c'.node
    {
      hide Holds, CHolds, Nodes, CNodes, Distinct, CDistinct, Apart, Inorder, Deficit, RedBlackAt, CBefore, CAfter;
      ghost var l, r, ch := t.left, t.right, t.right.right;
      ghost var b := InRight(l, node, t.red, c);
      StepDown(b, r, k);
      ghost var j := if t.red then k else k - 1;
      SpliceOk(b, r, ch, j);
      OpenApart(c, t);
      Open(t, UpOf(c));
      Open(r, node);
      LeftmostFirst(Top, successor, r.red, ch, false);
      SuccessorOrder(c, l, successor, t.red, r, Paint(ch, false));
      RenameOk(Top, l, node, successor, t.red, c, Paint(ch, false), if ch.Leaf? then 0 else j);
      OpenDistinct(r.left);
      RootIn(l);
      RootIn(ch);
      UpIn(c);
      var child2, red2 := successor.right, successor.red;
      TakePlace(node, successor, c, l);
      if child2 != null {
        SetParentColor(child2, successor, false, ch, successor);
        rebalance := null;
      } else {
        Close(ch, successor);
        rebalance := if red2 then null else successor;
      }
      t' := Paint(ch, false);
      c' := InRight(l, successor, t.red, c);
      k' := if ch.Leaf? then 0 else j;
      nodes := nodes - {node};
      PaintNodes(ch, false);
      CloseApart(c, l, successor, t.red, t');
      Close(Fork(l, successor, t.red, t'), UpOf(c));
      Down(c', t');
    }

    /** Takes the leftmost node s of a right subtree out of the tree; it hangs to the left of parent. */
    method DetachSuccessor(successor: Node, parent: Node, child2: Node?, ghost c: Ctx, ghost t: Tree)
      requires At(c, t) && c.InLeft? && parent == c.node
      requires t.Fork? && t.left.Leaf? && successor == t.node && child2 == RootOf(t.right)
      modifies this`nodes, parent`left, Opt(child2)`parent, Opt(child2)`red
      ensures nodes == old(nodes) - {successor}
      ensures At(c, Paint(t.right, false))
    {
      hide Holds, CHolds, Nodes, CNodes, Distinct, CDistinct, Apart;
      ghost var ch := t.right;
      SplicePlace(c, t, ch, false);
      OpenApart(c, t);
      OpenCtx(c, successor);
      Open(t, parent);
      RootIn(ch);
      parent.left := child2;
      if child2 != null {
        // the C code makes this assignment last; it writes to no other node
        SetParentColor(child2, parent, false, ch, successor);
      } else {
        Close(ch, parent);
      }
      CloseCtx(c, child2);
      nodes := nodes - {successor};
    }

    /** Puts a node from outside the tree in the place of node, which has two children. */
    method ReplaceNode(node: Node, successor: Node, child: Node,
                       ghost c: Ctx, ghost l: Tree, ghost r: Tree, ghost red: bool)
      requires At(c, Fork(l, node, red, r)) && successor !in nodes
      requires l.Fork? && r.Fork? && child == r.node
      modifies this`root, this`nodes, nodes`left, nodes`right, nodes`parent
      modifies successor`left, successor`right, successor`parent, successor`red
      ensures nodes == old(nodes) - {node} + {successor}
      ensures At(c, Fork(l, successor, red, r))
    {
      hide Holds, CHolds, Nodes, CNodes, Distinct, CDistinct, Apart;
      OpenApart(c, Fork(l, node, red, r));
      Open(Fork(l, node, red, r), UpOf(c));
      RootIn(l);
      RootIn(r);
      UpIn(c);
      successor.right := child;
      SetParent(child, successor, r, node);
      TakePlace(node, successor, c, l);
      CloseApart(c, l, successor, red, r);
      Close(Fork(l, successor, red, r), UpOf(c));
      nodes := nodes - {node} + {successor};
    }

    /** The do-while loop of case 3. */
    method WalkToSuccessor(node: Node, child: Node, ghost c: Ctx, ghost t: Tree, ghost k: int)
      returns (parent: Node, successor: Node, ghost path: Ctx, ghost st: Tree, ghost j: int)
      requires At(c, t) && RedBlackAt(c, t, k) && t.Fork? && node == t.node
      requires t.right.Fork? && t.right.left.Fork? && child == t.right.node
      ensures LeftPath(path) && path.InLeft? && parent == path.node && Plug(path, st) == t.right
      ensures var d := Over(path, InRight(t.left, node, t.red, c)); At(d, st) && RedBlackAt(d, st, j)
      ensures st.Fork? && st.left.Leaf? && successor == st.node
    {
      hide At, RedBlackAt, Plug, Over;
      ghost var b := InRight(t.left, node, t.red, c);
      path, st, j := Top, t.right, if t.red then k else k - 1;
      FirstStep(c, t, k);
      Down(b, t.right);
      Around(b, t.right);
      parent, successor := child, child;
      var tmp := child.left;
      while true
        invariant At(Over(path, b), st) && RedBlackAt(Over(path, b), st, j)
        invariant LeftPath(path) && Plug(path, st) == t.right
        invariant st.Fork? && successor == st.node && tmp == RootOf(st.left) && tmp != null
        decreases st
      {
        WalkLeft(path, b, st, j);
        path, j := InLeft(st.node, st.red, st.right, path), if st.red then j else j - 1;
        st := st.left;
        Down(Over(path, b), st);
        Around(Over(path, b), st);
        parent := successor;
        successor := tmp;
        tmp := tmp.left;
        if tmp == null {
          break;
        }
      }
    }

    /** Case 3: the successor is further down to the left. */
    method UnlinkCase3(node: Node, child: Node, ghost c: Ctx, ghost t: Tree, ghost k: int)
      returns (rebalance: Node?, ghost c': Ctx, ghost t': Tree, ghost k': int)
      requires At(c, t) && RedBlackAt(c, t, k) && t.Fork? && node == t.node && t.left.Fork?
      requires t.right.Fork? && t.right.left.Fork? && child == t.right.node
      modifies this`root, this`nodes, nodes`left, nodes`right, nodes`parent, nodes`red
      ensures nodes == old(nodes) - {node}
      ensures At(c', t')
      ensures Inorder(Plug(c', t')) == CBefore(c) + Inorder(t.left) + Inorder(t.right) + CAfter(c)
      ensures rebalance == null ==> RedBlackAt(c', t', k')
      ensures rebalance != null ==> t'.Leaf? && Deficit(c', t', k') && !c'.Top? && rebalance == c'.node
    {
      hide At, Apart, Inorder, Deficit, RedBlackAt, CBefore, CAfter, Plug, Over;
      ghost var path, st, j;
      var parent, successor;
      parent, successor, path, st, j := WalkToSuccessor(node, child, c, t, k);
      ghost var l, ch := t.left, Paint(st.right, false);
      ghost var b, b' := InRight(l, node, t.red, c), InRight(l, successor, t.red, c);
      ghost var r := Plug(path, ch);
      Around(Over(path, b), st);
      SpliceOk(Over(path, b), st, st.right, j);
      LeftmostFirst(path, successor, st.red, st.right, false);
      SuccessorOrder(c, l, successor, t.red, t.right, r);
      PlugRoot(path, st, ch);
      RenameOk(path, l, node, successor, t.red, c, ch, if ch.Leaf? then 0 else j);
      OverFacts(path, l, node, successor, t.red, c, ch);
      RightIn(Over(path, b), st);
      var child2, red2 := successor.right, successor.red;
      DetachSuccessor(successor, parent, child2, Over(path, b), st);
      UpOver(path, b, ch);
      Around(b, r);
      Up(b, r);
      ReplaceNode(node, successor, child, c, l, r, t.red);
      Down(b', r);
      DownOver(path, b', ch);
      rebalance := if child2 != null || red2 then null else parent;
      c', t', k' := Over(path, b'), ch, if ch.Leaf? then 0 else j;
    }

    lemma RightIn(c: Ctx, t: Tree)
      requires At(c, t) && t.Fork?
      ensures Opt(RootOf(t.right)) <= nodes
    {
    }

    /** __rb_erase_augmented: the node at which to start rebalancing, or null if there is no need to. */
    method EraseAugmented(node: Node, ghost c: Ctx, ghost t: Tree, ghost k: int)
      returns (rebalance: Node?, ghost c': Ctx, ghost t': Tree, ghost k': int)
      requires At(c, t) && RedBlackAt(c, t, k) && t.Fork? && node == t.node
      modifies this`root, this`nodes, nodes`left, nodes`right, nodes`parent, nodes`red
      ensures nodes == old(nodes) - {node}
      ensures At(c', t')
      ensures Inorder(Plug(c', t')) == CBefore(c) + Inorder(t.left) + Inorder(t.right) + CAfter(c)
      ensures rebalance == null ==> RedBlackAt(c', t', k')
      ensures rebalance != null ==> t'.Leaf? && Deficit(c', t', k') && !c'.Top? && rebalance == c'.node
    {
      hide At, Deficit, RedBlackAt, CBefore, CAfter, Plug;
      Around(c, t);
      var child, tmp := node.right, node.left;
      if tmp == null {
        OneChildOrder(c, t, t.right, false);
        rebalance, t' := UnlinkCase1(node, child, t.right, c, t, k);
        c', k' := c, if t'.Leaf? then 0 else k;
      } else if child == null {
        OneChildOrder(c, t, t.left, false);
        rebalance, t' := UnlinkCase1(node, tmp, t.left, c, t, k);
        c', k' := c, if t'.Leaf? then 0 else k;
      } else {
        Down(InRight(t.left, node, t.red, c), t.right);
        Around(InRight(t.left, node, t.red, c), t.right);
        if child.left == null {
          rebalance, c', t', k' := UnlinkCase2(node, child, c, t, k);
        } else {
          rebalance, c', t', k' := UnlinkCase3(node, child, c, t, k);
        }
      }
    }

    /** eaf_map_low_erase; `at` is the place of node in the order. */
    method Erase(node: Node) returns (ghost at: nat)
      requires Valid() && node in nodes
      modifies this`root, this`nodes, this`tree, nodes`left, nodes`right, nodes`parent, nodes`red
      ensures Valid() && nodes == old(nodes) - {node}
      ensures at < |old(Inorder(tree))| && old(Inorder(tree))[at] == node
      ensures Inorder(tree) == old(Inorder(tree)[..at] + Inorder(tree)[at + 1..])
    {
      hide At, Deficit, RedBlackAt, CBefore, CAfter, Plug, Inorder, IsRedBlack, Nodes;
      WholeTree(tree);
      TreeNodes();
      ghost var c, t, k := Locate(Top, tree, BlackHeight(tree), node);
      ghost var s, u := CBefore(c) + Inorder(t.left), Inorder(t.right) + CAfter(c);
      LocatedOrder(c, t);
      var rebalance;
      ghost var c', t', k';
      rebalance, c', t', k' := EraseAugmented(node, c, t, k);
      if rebalance != null {
        EraseColor(rebalance, c', t', k');
      } else {
        UpToTop(c', t');
        PlugRedBlack(c', t', k');
        tree := Plug(c', t');
      }
      at := |s|;
      assert Inorder(tree) == s + u;
    }

    lemma TreeNodes()
      requires At(Top, tree)
      ensures nodes == Nodes(tree)
    {
    }

    /** Every node of the tree is the root of some subtree of it. */
    lemma Locate(c: Ctx, t: Tree, k: int, node: Node) returns (c': Ctx, t': Tree, k': int)
      requires At(c, t) && RedBlackAt(c, t, k) && node in Nodes(t)
      ensures At(c', t') && RedBlackAt(c', t', k') && t'.Fork? && t'.node == node
      ensures Plug(c', t') == Plug(c, t)
      decreases t
    {
      if node == t.node {
        return c, t, k;
      }
      if node in Nodes(t.left) {
        var d := InLeft(t.node, t.red, t.right, c);
        StepDown(d, t.left, k);
        Down(d, t.left);
        c', t', k' := Locate(d, t.left, if t.red then k else k - 1, node);
      } else {
        var d := InRight(t.left, t.node, t.red, c);
        StepDown(d, t.right, k);
        Down(d, t.right);
        c', t', k' := Locate(d, t.right, if t.red then k else k - 1, node);
      }
    }

    // ---------- Linking and walking ----------

    /** eaf_map_low_link_node; the link slot is the one to the left or right of parent, or the root. */
    method LinkNode(node: Node, parent: Node?, leftSlot: bool, ghost c: Ctx)
      requires At(c, Leaf) && node !in nodes
      requires parent == UpOf(c) && (c.InLeft? ==> leftSlot) && (c.InRight? ==> !leftSlot)
      modifies this`root, this`nodes, node, nodes`left, nodes`right
      ensures nodes == old(nodes) + {node}
      ensures At(c, Fork(Leaf, node, true, Leaf))
    {
      hide Holds, CHolds, Nodes, CNodes, Distinct, CDistinct, Apart;
      OpenApart(c, Leaf);
      OpenDistinct(Leaf);
      OpenCtx(c, null);
      node.parent := parent;
      node.red := true;
      node.left, node.right := null, null;
      if parent == null {
        root := node;
      } else if leftSlot {
        parent.left := node;
      } else {
        parent.right := node;
      }
      nodes := nodes + {node};
      CloseApart(c, Leaf, node, true, Leaf);
      assert CNodes(c) == nodes - {node};
      if c.Top? {
        CloseTop(node);
      } else {
        CloseCtx(c, node);
      }
      Close(Leaf, node);
      Close(Fork(Leaf, node, true, Leaf), parent);
    }

    lemma CloseTop(at: Node?)
      requires root == at
      ensures CHolds(Top, at)
    {
    }

    method First() returns (n: Node?)
      requires Valid()
      ensures n == if Inorder(tree) == [] then null else Inorder(tree)[0]
    {
      hide At, IsRedBlack, Plug, Inorder, CBefore, CAfter;
      WholeTree(tree);
      Around(Top, tree);
      n := root;
      EmptyOrder();
      if n == null {
        return;
      }
      ghost var c, t := Top, tree;
      UpOrder(c);
      while n.left != null
        invariant At(c, t) && Plug(c, t) == tree && CBefore(c) == [] && t.Fork? && n == t.node
        decreases t
      {
        Around(c, t);
        LeftOrder(c, t);
        Down(InLeft(t.node, t.red, t.right, c), t.left);
        c, t := InLeft(t.node, t.red, t.right, c), t.left;
        n := n.left;
        Around(c, t);
      }
      Around(c, t);
      LeftOrder(c, t);
    }

    method Last() returns (n: Node?)
      requires Valid()
      ensures n == if Inorder(tree) == [] then null else Inorder(tree)[|Inorder(tree)| - 1]
    {
      hide At, IsRedBlack, Plug, Inorder, CBefore, CAfter;
      WholeTree(tree);
      Around(Top, tree);
      n := root;
      EmptyOrder();
      if n == null {
        return;
      }
      ghost var c, t := Top, tree;
      UpOrder(c);
      while n.right != null
        invariant At(c, t) && Plug(c, t) == tree && CAfter(c) == [] && t.Fork? && n == t.node
        decreases t
      {
        Around(c, t);
        RightOrder(c, t);
        Down(InRight(t.left, t.node, t.red, c), t.right);
        c, t := InRight(t.left, t.node, t.red, c), t.right;
        n := n.right;
        Around(c, t);
      }
      Around(c, t);
      RightOrder(c, t);
    }

    /** RB_EMPTY_NODE: the mark of a node that is known not to be linked. */
    predicate EmptyNode(n: Node)
      reads n
    {
      n.parent == n && n.red
    }

    method Next(node0: Node, ghost i: nat) returns (r: Node?)
      requires Valid()
      requires EmptyNode(node0) || (i < |Inorder(tree)| && Inorder(tree)[i] == node0)
      ensures !old(EmptyNode(node0)) ==> r == if i + 1 < |Inorder(tree)| then Inorder(tree)[i + 1] else null
      ensures old(EmptyNode(node0)) ==> r == null
    {
      hide At, IsRedBlack, Plug, Inorder, CBefore, CAfter, RedBlackAt, Apart;
      if EmptyNode(node0) {
        return null;
      }
      var node := node0;
      ghost var c, t := Find(node, i);
      Around(c, t);
      RightOrder(c, t);
      if node.right != null {
        Down(InRight(t.left, t.node, t.red, c), t.right);
        c, t := InRight(t.left, t.node, t.red, c), t.right;
        node := node.right;
        Around(c, t);
        while node.left != null
          invariant At(c, t) && Plug(c, t) == tree && |CBefore(c)| == i + 1 && t.Fork? && node == t.node
          decreases t
        {
          Around(c, t);
          LeftOrder(c, t);
          Down(InLeft(t.node, t.red, t.right, c), t.left);
          c, t := InLeft(t.node, t.red, t.right, c), t.left;
          node := node.left;
          Around(c, t);
        }
        Around(c, t);
        LeftOrder(c, t);
        return node;
      }
      ghost var after := CAfter(c);
      while node.parent != null && node == node.parent.right
        invariant At(c, t) && t.Fork? && node == t.node && CAfter(c) == after
        decreases c
      {
        Around(c, t);
        UpOrder(c);
        Up(c, t);
        node := node.parent;
        c, t := c.up, Join(c, t);
      }
      Around(c, t);
      UpOrder(c);
      r := node.parent;
    }

    method Prev(node0: Node, ghost i: nat) returns (r: Node?)
      requires Valid()
      requires EmptyNode(node0) || (i < |Inorder(tree)| && Inorder(tree)[i] == node0)
      ensures !old(EmptyNode(node0)) ==> r == if i > 0 then Inorder(tree)[i - 1] else null
      ensures old(EmptyNode(node0)) ==> r == null
    {
      hide At, IsRedBlack, Plug, Inorder, CBefore, CAfter, RedBlackAt, Apart;
      if EmptyNode(node0) {
        return null;
      }
      var node := node0;
      ghost var c, t := Find(node, i);
      Around(c, t);
      LeftOrder(c, t);
      ghost var s := Inorder(tree);
      if node.left != null {
        Down(InLeft(t.node, t.red, t.right, c), t.left);
        c, t := InLeft(t.node, t.red, t.right, c), t.left;
        node := node.left;
        Around(c, t);
        while node.right != null
          invariant At(c, t) && Plug(c, t) == tree && |CAfter(c)| == |s| - i && t.Fork? && node == t.node
          decreases t
        {
          Around(c, t);
          RightOrder(c, t);
          Down(InRight(t.left, t.node, t.red, c), t.right);
          c, t := InRight(t.left, t.node, t.red, c), t.right;
          node := node.right;
          Around(c, t);
        }
        Around(c, t);
        RightOrder(c, t);
        return node;
      }
      ghost var before := CBefore(c);
      while node.parent != null && node == node.parent.left
        invariant At(c, t) && t.Fork? && node == t.node && CBefore(c) == before
        decreases c
      {
        Around(c, t);
        UpOrder(c);
        Up(c, t);
        node := node.parent;
        c, t := c.up, Join(c, t);
      }
      Around(c, t);
      UpOrder(c);
      r := node.parent;
    }

    lemma EmptyOrder()
      requires At(Top, tree)
      ensures root == null <==> Inorder(tree) == []
    {
    }

    lemma NoNodes()
      requires At(Top, tree) && Inorder(tree) == []
      ensures nodes == {}
    {
    }

    /** A linked node does not carry the mark. */
    lemma NotEmptyNode(node: Node, i: nat)
      requires Valid() && i < |Inorder(tree)| && Inorder(tree)[i] == node
      ensures !EmptyNode(node)
    {
      hide At, IsRedBlack, Plug, Inorder, CBefore, CAfter, CNodes;
      var c, t := Find(node, i);
      Around(c, t);
      UpIn(c);
      assert node !in CNodes(c);
    }

    /** The node at place i of the order, in its context. */
    lemma Find(node: Node, i: nat) returns (c: Ctx, t: Tree)
      requires Valid() && i < |Inorder(tree)| && Inorder(tree)[i] == node
      ensures At(c, t) && Plug(c, t) == tree && t.Fork? && t.node == node
      ensures |CBefore(c)| + |Inorder(t.left)| == i
    {
      hide At, IsRedBlack, Plug, Inorder, CBefore, CAfter, Nodes, Distinct, RedBlackAt;
      WholeTree(tree);
      TreeNodes();
      InorderHas(tree, node);
      assert Distinct(tree) by { OpenAt(Top, tree); OpenApart(Top, tree); }
      InorderDistinct(tree);
      var k;
      c, t, k := Locate(Top, tree, BlackHeight(tree), node);
      LocatedOrder(c, t);
      var j := |CBefore(c) + Inorder(t.left)|;
      assert Inorder(tree)[j] == node;
    }
  }
}
