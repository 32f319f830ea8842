/**
 The inductive view of a red-black tree: a tree of node references, a one-hole
 context (the way from a subtree up to the root), and the red-black conditions
 on both. Nothing here reads the heap.
 */
module Trees {

  /** eaf_map_low_node_t, with the packed parent/color word split into two fields. */
  class Node {
    var left: Node?
    var right: Node?
    var parent: Node?
    var red: bool

    constructor ()
    {
    }
  }

  datatype Tree = Leaf | Fork(left: Tree, node: Node, red: bool, right: Tree)

  /** The surroundings of a subtree: it hangs to the left or right of `node`, or is the whole tree. */
  datatype Ctx =
    | Top
    | InLeft(node: Node, red: bool, right: Tree, up: Ctx)
    | InRight(left: Tree, node: Node, red: bool, up: Ctx)

  ghost function Plug(c: Ctx, t: Tree): Tree
  {
    match c
    case Top => t
    case InLeft(n, red, r, up) => Plug(up, Fork(t, n, red, r))
    case InRight(l, n, red, up) => Plug(up, Fork(l, n, red, t))
  }

  ghost function Opt(n: Node?): set<Node>
  {
    if n == null then {} else {n}
  }

  ghost function RootOf(t: Tree): Node?
  {
    if t.Leaf? then null else t.node
  }

  ghost function UpOf(c: Ctx): Node?
  {
    if c.Top? then null else c.node
  }

  ghost function Nodes(t: Tree): set<Node>
  {
    match t
    case Leaf => {}
    case Fork(l, n, _, r) => Nodes(l) + {n} + Nodes(r)
  }

  ghost function CNodes(c: Ctx): set<Node>
  {
    match c
    case Top => {}
    case InLeft(n, _, r, up) => CNodes(up) + {n} + Nodes(r)
    case InRight(l, n, _, up) => CNodes(up) + {n} + Nodes(l)
  }

  /** No node occurs twice. */
  ghost predicate Distinct(t: Tree)
  {
    match t
    case Leaf => true
    case Fork(l, n, _, r) => Distinct(l) && Distinct(r) && Nodes(l) !! {n} !! Nodes(r)
  }

  ghost predicate CDistinct(c: Ctx)
  {
    match c
    case Top => true
    case InLeft(n, _, s, up) => CDistinct(up) && Distinct(s) && Nodes(s) !! {n} !! CNodes(up)
    case InRight(s, n, _, up) => CDistinct(up) && Distinct(s) && Nodes(s) !! {n} !! CNodes(up)
  }

  ghost function Inorder(t: Tree): seq<Node>
  {
    match t
    case Leaf => []
    case Fork(l, n, _, r) => Inorder(l) + [n] + Inorder(r)
  }

  ghost predicate Red(t: Tree)
  {
    t.Fork? && t.red
  }

  ghost predicate CRed(c: Ctx)
  {
    !c.Top? && c.red
  }

  /** No red node has a red child. */
  ghost predicate NoRedRed(t: Tree)
  {
    match t
    case Leaf => true
    case Fork(l, _, red, r) => NoRedRed(l) && NoRedRed(r) && (red ==> !Red(l) && !Red(r))
  }

  /** Every path from the root of t down to a leaf passes k black nodes. */
  ghost predicate HasBh(t: Tree, k: int)
  {
    match t
    case Leaf => k == 0
    case Fork(l, _, red, r) => var j := if red then k else k - 1; HasBh(l, j) && HasBh(r, j)
  }

  /** The black height of a tree that has one, read off its left spine. */
  ghost function BlackHeight(t: Tree): nat
  {
    match t
    case Leaf => 0
    case Fork(l, _, red, _) => BlackHeight(l) + if red then 0 else 1
  }

  /** The red-black conditions listed at the head of map_low.c. */
  ghost predicate IsRedBlack(t: Tree)
  {
    !Red(t) && NoRedRed(t) && HasBh(t, BlackHeight(t))
  }

  /** c is free of red-red edges, its top node is black, provided that the hole gets a suitable root. */
  ghost predicate CNoRedRed(c: Ctx)
  {
    match c
    case Top => true
    case InLeft(_, red, s, up) => NoRedRed(s) && CNoRedRed(up) && (red ==> !Red(s) && !up.Top? && !CRed(up))
    case InRight(s, _, red, up) => NoRedRed(s) && CNoRedRed(up) && (red ==> !Red(s) && !up.Top? && !CRed(up))
  }

  /** Filling the hole of c with a subtree of black height k balances the whole tree. */
  ghost predicate CHasBh(c: Ctx, k: int)
  {
    match c
    case Top => true
    case InLeft(_, red, s, up) => HasBh(s, k) && CHasBh(up, if red then k else k + 1)
    case InRight(s, _, red, up) => HasBh(s, k) && CHasBh(up, if red then k else k + 1)
  }

  ghost predicate RedBlackAt(c: Ctx, t: Tree, k: int)
  {
    NoRedRed(t) && HasBh(t, k) && CNoRedRed(c) && CHasBh(c, k) && (Red(t) ==> !c.Top? && !CRed(c))
  }

  /** t may fill the hole of c: no node occurs in both. */
  ghost predicate Apart(c: Ctx, t: Tree)
  {
    Distinct(t) && CDistinct(c) && Nodes(t) !! CNodes(c)
  }

  ghost function Paint(t: Tree, red: bool): Tree
  {
    if t.Leaf? then t else t.(red := red)
  }

  /** The subtree that hangs beside the hole. */
  ghost function Sibling(c: Ctx): Tree
    requires !c.Top?
  {
    if c.InLeft? then c.right else c.left
  }

  // ---------- Facts about plugging ----------

  lemma {:induction false} PlugInorder(c: Ctx, t: Tree, u: Tree)
    requires Inorder(t) == Inorder(u)
    ensures Inorder(Plug(c, t)) == Inorder(Plug(c, u))
  {
    match c
    case Top =>
    case InLeft(n, red, r, up) => PlugInorder(up, Fork(t, n, red, r), Fork(u, n, red, r));
    case InRight(l, n, red, up) => PlugInorder(up, Fork(l, n, red, t), Fork(l, n, red, u));
  }

  lemma {:induction false} BlackHeightIs(t: Tree, k: int)
    requires HasBh(t, k)
    ensures k == BlackHeight(t)
  {
    if t.Fork? {
      BlackHeightIs(t.left, if t.red then k else k - 1);
    }
  }

  /** A balanced, well-colored subtree in a context that accepts it makes a red-black tree. */
  lemma {:induction false} PlugRedBlack(c: Ctx, t: Tree, k: int)
    requires RedBlackAt(c, t, k)
    ensures IsRedBlack(Plug(c, t))
  {
    match c
    case Top => BlackHeightIs(t, k);
    case InLeft(n, red, s, up) => PlugRedBlack(up, Fork(t, n, red, s), if red then k else k + 1);
    case InRight(s, n, red, up) => PlugRedBlack(up, Fork(s, n, red, t), if red then k else k + 1);
  }

  lemma ForkNodes(l: Tree, n: Node, red: bool, r: Tree)
    ensures Nodes(Fork(l, n, red, r)) == Nodes(l) + {n} + Nodes(r)
    ensures Distinct(l) && Distinct(r) && Nodes(l) !! {n} !! Nodes(r) ==> Distinct(Fork(l, n, red, r))
  {
  }

  lemma PaintNodes(t: Tree, red: bool)
    ensures Nodes(Paint(t, red)) == Nodes(t) && (Distinct(t) ==> Distinct(Paint(t, red)))
  {
  }

  lemma CloseApart(c: Ctx, l: Tree, n: Node, red: bool, r: Tree)
    requires Distinct(l) && Distinct(r) && CDistinct(c)
    requires Nodes(l) !! {n} !! Nodes(r) !! CNodes(c)
    ensures Apart(c, Fork(l, n, red, r)) && Nodes(Fork(l, n, red, r)) == Nodes(l) + {n} + Nodes(r)
  {
  }

  lemma OpenDistinct(t: Tree)
    requires Distinct(t)
    ensures t.Leaf? ==> Nodes(t) == {}
    ensures t.Fork? ==>
              && Distinct(t.left) && Distinct(t.right)
              && Nodes(t) == Nodes(t.left) + {t.node} + Nodes(t.right)
              && Nodes(t.left) !! {t.node} !! Nodes(t.right)
  {
  }

  lemma OpenApart(c: Ctx, t: Tree)
    requires Apart(c, t)
    ensures Distinct(t) && CDistinct(c) && Nodes(t) !! CNodes(c)
  {
  }

  ghost predicate SamePlace(c: Ctx, t: Tree, c': Ctx, t': Tree)
  {
    && Apart(c', t') && Nodes(t') + CNodes(c') == Nodes(t) + CNodes(c)
    && Inorder(Plug(c', t')) == Inorder(Plug(c, t))
  }

  /** One step up: the subtree rooted at the node that t hangs on. */
  ghost function Join(c: Ctx, t: Tree): Tree
    requires !c.Top?
  {
    if c.InLeft? then Fork(t, c.node, c.red, c.right) else Fork(c.left, c.node, c.red, t)
  }

  /** The surroundings of the sibling. */
  ghost function Across(c: Ctx, t: Tree): Ctx
    requires !c.Top?
  {
    if c.InLeft? then InRight(t, c.node, c.red, c.up) else InLeft(c.node, c.red, t, c.up)
  }

  lemma Painted(c: Ctx, t: Tree, red: bool)
    requires Apart(c, t)
    ensures Apart(c, Paint(t, red)) && Nodes(Paint(t, red)) == Nodes(t)
  {
  }

  lemma Descend(c: Ctx, t: Tree)
    requires !c.Top? && Apart(c.up, Join(c, t))
    ensures SamePlace(c.up, Join(c, t), c, t)
  {
  }

  lemma Ascend(c: Ctx, t: Tree)
    requires !c.Top? && Apart(c, t)
    ensures SamePlace(c, t, c.up, Join(c, t))
  {
  }

  /** u has the nodes of t, each once and in the same order; colors may differ. */
  ghost predicate Alike(t: Tree, u: Tree)
  {
    Nodes(u) == Nodes(t) && Inorder(u) == Inorder(t) && (Distinct(t) ==> Distinct(u))
  }

  lemma Rearrange(c: Ctx, t: Tree, u: Tree)
    requires Apart(c, t) && Alike(t, u)
    ensures SamePlace(c, t, c, u)
  {
    PlugInorder(c, t, u);
  }

  /** A rotation, either way round and under any recoloring. */
  lemma Rotated(a: Tree, p: Node, b: Tree, g: Node, u: Tree, i: bool, j: bool, i': bool, j': bool)
    ensures Alike(Fork(Fork(a, p, i, b), g, j, u), Fork(a, p, i', Fork(b, g, j', u)))
    ensures Alike(Fork(a, p, i', Fork(b, g, j', u)), Fork(Fork(a, p, i, b), g, j, u))
  {
    var l, r := Fork(a, p, i, b), Fork(b, g, j', u);
    assert Nodes(l) == Nodes(a) + {p} + Nodes(b) && Nodes(r) == Nodes(b) + {g} + Nodes(u);
    assert Inorder(l) + [g] + Inorder(u) == Inorder(a) + [p] + Inorder(r);
    assert Distinct(Fork(l, g, j, u)) <==> Distinct(Fork(a, p, i', r));
  }

  lemma AlikeIn(t: Tree, u: Tree, n: Node, s: Tree, i: bool, j: bool)
    requires Alike(t, u)
    ensures Alike(Fork(t, n, i, s), Fork(u, n, j, s))
    ensures Alike(Fork(s, n, i, t), Fork(s, n, j, u))
  {
  }

  /** A double rotation brings the inner grandchild n to the top. */
  lemma DoubleRotated(s: Tree, p: Node, l: Tree, n: Node, r: Tree, g: Node, u: Tree,
                      i: bool, j: bool, k: bool, i': bool, j': bool, k': bool)
    ensures Alike(Fork(Fork(s, p, i, Fork(l, n, k, r)), g, j, u), Fork(Fork(s, p, i', l), n, k', Fork(r, g, j', u)))
    ensures Alike(Fork(s, p, i, Fork(Fork(l, n, k, r), g, j, u)), Fork(Fork(s, p, i', l), n, k', Fork(r, g, j', u)))
  {
    Rotated(s, p, l, n, r, i', k', i, k);
    AlikeIn(Fork(s, p, i, Fork(l, n, k, r)), Fork(Fork(s, p, i', l), n, k', r), g, u, j, j');
    Rotated(Fork(s, p, i', l), n, r, g, u, k', j', k', j');
    Rotated(l, n, r, g, u, k, j, k', j');
    AlikeIn(Fork(Fork(l, n, k, r), g, j, u), Fork(l, n, k', Fork(r, g, j', u)), p, s, i, i');
    Rotated(s, p, l, n, Fork(r, g, j', u), i', k', i', k');
  }

  lemma AlikePainted(t: Tree, red: bool)
    ensures Alike(t, Paint(t, red))
  {
  }

  lemma AlikeTrans(t: Tree, u: Tree, v: Tree)
    requires Alike(t, u) && Alike(u, v)
    ensures Alike(t, v)
  {
  }

  lemma WholeTree(t: Tree)
    requires IsRedBlack(t)
    ensures RedBlackAt(Top, t, BlackHeight(t)) && Plug(Top, t) == t
  {
  }
}
