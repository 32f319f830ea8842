/**
 Taking a node out of the tree before any rebalancing: the successor walk of
 __rb_erase_augmented, and what is left to repair afterwards.
 */
module Unlink {
  import opened Trees
  import opened EraseSteps

  /** The context `path` continued by `base`. */
  ghost function Over(path: Ctx, base: Ctx): Ctx
  {
    match path
    case Top => base
    case InLeft(n, red, s, up) => InLeft(n, red, s, Over(up, base))
    case InRight(s, n, red, up) => InRight(s, n, red, Over(up, base))
  }

  /** The way down from a subtree to its leftmost node. */
  ghost predicate LeftPath(path: Ctx)
  {
    path.Top? || (path.InLeft? && LeftPath(path.up))
  }

  ghost function CBefore(c: Ctx): seq<Node>
  {
    match c
    case Top => []
    case InLeft(_, _, _, up) => CBefore(up)
    case InRight(s, n, _, up) => CBefore(up) + Inorder(s) + [n]
  }

  ghost function CAfter(c: Ctx): seq<Node>
  {
    match c
    case Top => []
    case InLeft(n, _, s, up) => [n] + Inorder(s) + CAfter(up)
    case InRight(_, _, _, up) => CAfter(up)
  }

  lemma Regroup<T>(a: seq<T>, b: seq<T>, c: seq<T>, d: seq<T>, e: seq<T>)
    ensures a + (b + c + d) + e == a + b + (c + d + e)
    ensures a + (b + c + d) + e == (a + b + c) + d + e
  {
  }

  lemma RegroupRight<T>(a: seq<T>, b: seq<T>, c: seq<T>, d: seq<T>, e: seq<T>)
    ensures a + (b + c + d) + e == a + b + (c + d) + e
  {
  }

  lemma {:induction false} PlugSplit(c: Ctx, t: Tree)
    ensures Inorder(Plug(c, t)) == CBefore(c) + Inorder(t) + CAfter(c)
  {
    match c
    case Top =>
    case InLeft(n, red, s, up) =>
      PlugSplit(up, Fork(t, n, red, s));
      Regroup(CBefore(up), Inorder(t), [n], Inorder(s), CAfter(up));
    case InRight(s, n, red, up) =>
      PlugSplit(up, Fork(s, n, red, t));
      Regroup(CBefore(up), Inorder(s), [n], Inorder(t), CAfter(up));
  }

  lemma {:induction false} LeftPathBefore(path: Ctx)
    requires LeftPath(path)
    ensures CBefore(path) == []
  {
    if !path.Top? {
      LeftPathBefore(path.up);
    }
  }

  /** The leftmost node s of a subtree comes first, and taking it out leaves the rest. */
  lemma LeftmostFirst(path: Ctx, s: Node, red: bool, ch: Tree, paint: bool)
    requires LeftPath(path)
    ensures Inorder(Plug(path, Fork(Leaf, s, red, ch))) == [s] + Inorder(Plug(path, Paint(ch, paint)))
  {
    LeftPathBefore(path);
    PlugSplit(path, Fork(Leaf, s, red, ch));
    PlugSplit(path, Paint(ch, paint));
  }

  lemma {:induction false} PlugOver(path: Ctx, base: Ctx, t: Tree)
    ensures Plug(Over(path, base), t) == Plug(base, Plug(path, t))
  {
    if !path.Top? {
      PlugOver(path.up, base, Join(path, t));
    }
  }

  /** Colors and black heights do not depend on which node carries them. */
  lemma {:induction false} RenameBase(path: Ctx, l: Tree, n: Node, s: Node, red: bool, c: Ctx, k: int)
    requires CNoRedRed(Over(path, InRight(l, n, red, c))) && CHasBh(Over(path, InRight(l, n, red, c)), k)
    ensures CNoRedRed(Over(path, InRight(l, s, red, c))) && CHasBh(Over(path, InRight(l, s, red, c)), k)
    ensures CRed(Over(path, InRight(l, s, red, c))) == CRed(Over(path, InRight(l, n, red, c)))
    ensures !Over(path, InRight(l, s, red, c)).Top?
  {
    if !path.Top? {
      RenameBase(path.up, l, n, s, red, c, if path.red then k else k + 1);
    }
  }

  lemma StepDown(c: Ctx, t: Tree, k: int)
    requires !c.Top? && RedBlackAt(c.up, Join(c, t), k)
    ensures RedBlackAt(c, t, if c.red then k else k - 1)
  {
  }

  /** A node with at most one child: the child is red and the node black, or there is no child. */
  lemma SpliceOk(c: Ctx, t: Tree, ch: Tree, k: int)
    requires RedBlackAt(c, t, k) && t.Fork?
    requires (t.left.Leaf? && ch == t.right) || (t.right.Leaf? && ch == t.left)
    ensures ch.Fork? ==> Red(ch) && !t.red && RedBlackAt(c, Paint(ch, false), k)
    ensures ch.Leaf? && (t.red || c.Top?) ==> RedBlackAt(c, Leaf, 0)
    ensures ch.Leaf? && !t.red && !c.Top? ==> Deficit(c, Leaf, 0)
  {
    var j := if t.red then k else k - 1;
    assert HasBh(t.left, j) && HasBh(t.right, j) && NoRedRed(t.left) && NoRedRed(t.right);
    assert j == 0;
    if ch.Fork? {
      BlackHeightIs(ch.left, if ch.red then 0 else -1);
    }
  }

  /** Putting the child of a node in the place of the node. */
  lemma SplicePlace(c: Ctx, t: Tree, ch: Tree, red: bool)
    requires Apart(c, t) && t.Fork?
    requires (t.left.Leaf? && ch == t.right) || (t.right.Leaf? && ch == t.left)
    ensures Apart(c, Paint(ch, red))
    ensures Nodes(Paint(ch, red)) + CNodes(c) == Nodes(t) + CNodes(c) - {t.node}
  {
    hide Distinct, CDistinct, Nodes, CNodes;
    OpenDistinct(t);
    OpenDistinct(if ch == t.right then t.left else t.right);
    PaintNodes(ch, red);
  }

  lemma RenameOk(path: Ctx, l: Tree, n: Node, s: Node, red: bool, c: Ctx, t: Tree, k: int)
    ensures var (b, d) := (Over(path, InRight(l, n, red, c)), Over(path, InRight(l, s, red, c)));
            && !d.Top?
            && (RedBlackAt(b, t, k) ==> RedBlackAt(d, t, k))
            && (Deficit(b, t, k) ==> Deficit(d, t, k))
  {
    var b := Over(path, InRight(l, n, red, c));
    if CNoRedRed(b) && CHasBh(b, k) {
      RenameBase(path, l, n, s, red, c, k);
    }
    if CNoRedRed(b) && CHasBh(b, k + 1) {
      RenameBase(path, l, n, s, red, c, k + 1);
    }
    OverTop(path, InRight(l, s, red, c));
  }

  lemma OverTop(path: Ctx, base: Ctx)
    requires !base.Top?
    ensures !Over(path, base).Top?
  {
  }

  /** With the successor s in the place of its node, and gone from r, only the node is missing. */
  lemma SuccessorOrder(c: Ctx, l: Tree, s: Node, red: bool, r: Tree, r': Tree)
    requires Inorder(r) == [s] + Inorder(r')
    ensures Inorder(Plug(c, Fork(l, s, red, r'))) == CBefore(c) + Inorder(l) + Inorder(r) + CAfter(c)
  {
    PlugSplit(c, Fork(l, s, red, r'));
    RegroupRight(CBefore(c), Inorder(l), [s], Inorder(r'), CAfter(c));
  }

  lemma {:induction false} PlugRoot(path: Ctx, t: Tree, u: Tree)
    requires !path.Top?
    ensures Plug(path, t).Fork? && Plug(path, u).Fork? && Plug(path, t).node == Plug(path, u).node
  {
    if !path.up.Top? {
      PlugRoot(path.up, Join(path, t), Join(path, u));
    }
  }

  /** The first step of the walk to the successor: to the right child. */
  lemma FirstStep(c: Ctx, t: Tree, k: int)
    requires RedBlackAt(c, t, k) && t.Fork?
    ensures var b := InRight(t.left, t.node, t.red, c);
            && RedBlackAt(b, t.right, if t.red then k else k - 1)
            && Join(b, t.right) == t && Over(Top, b) == b && Plug(Top, t.right) == t.right && LeftPath(Top)
  {
    StepDown(InRight(t.left, t.node, t.red, c), t.right, k);
  }

  /** Every further step: to the left child. */
  lemma WalkLeft(path: Ctx, b: Ctx, t: Tree, k: int)
    requires t.Fork? && LeftPath(path)
    ensures var p := InLeft(t.node, t.red, t.right, path);
            && LeftPath(p) && Plug(p, t.left) == Plug(path, t)
            && Over(p, b) == InLeft(t.node, t.red, t.right, Over(path, b)) && Join(Over(p, b), t.left) == t
            && (RedBlackAt(Over(path, b), t, k) ==> RedBlackAt(Over(p, b), t.left, if t.red then k else k - 1))
  {
    var p := InLeft(t.node, t.red, t.right, path);
    if RedBlackAt(Over(path, b), t, k) {
      StepDown(Over(p, b), t.left, k);
    }
  }

  /** Above the hole of a continued context there is the same node, whatever the base. */
  lemma OverFacts(path: Ctx, l: Tree, n: Node, s: Node, red: bool, c: Ctx, t: Tree)
    requires !path.Top?
    ensures Over(path, InRight(l, n, red, c)).node == path.node == Over(path, InRight(l, s, red, c)).node
    ensures path.InLeft? ==> Over(path, InRight(l, n, red, c)).InLeft?
    ensures Plug(Over(path, InRight(l, s, red, c)), t) == Plug(c, Fork(l, s, red, Plug(path, t)))
  {
    PlugOver(path, InRight(l, s, red, c), t);
  }

  lemma OneChildOrder(c: Ctx, t: Tree, ch: Tree, red: bool)
    requires t.Fork? && ((t.left.Leaf? && ch == t.right) || (t.right.Leaf? && ch == t.left))
    ensures Inorder(Plug(c, Paint(ch, red))) == CBefore(c) + Inorder(t.left) + Inorder(t.right) + CAfter(c)
  {
    PlugSplit(c, Paint(ch, red));
    assert Inorder(Paint(ch, red)) == Inorder(ch) && Inorder(Leaf) == [];
    assert CBefore(c) + [] == CBefore(c);
    RegroupRight(CBefore(c), [], [], Inorder(ch), CAfter(c));
  }

  lemma LocatedOrder(c: Ctx, t: Tree)
    requires t.Fork?
    ensures Inorder(Plug(c, t)) == (CBefore(c) + Inorder(t.left)) + [t.node] + (Inorder(t.right) + CAfter(c))
  {
    PlugSplit(c, t);
    Regroup(CBefore(c), Inorder(t.left), [t.node], Inorder(t.right), CAfter(c));
  }

  lemma LeftOrder(c: Ctx, t: Tree)
    requires t.Fork?
    ensures var d := InLeft(t.node, t.red, t.right, c);
            && Plug(d, t.left) == Plug(c, t) && Join(d, t.left) == t
            && CBefore(d) == CBefore(c) && CAfter(d) == [t.node] + Inorder(t.right) + CAfter(c)
    ensures Inorder(Plug(c, t)) == (CBefore(c) + Inorder(t.left)) + [t.node] + (Inorder(t.right) + CAfter(c))
    ensures t.left.Leaf? ==> Inorder(t.left) == []
  {
    LocatedOrder(c, t);
  }

  lemma RightOrder(c: Ctx, t: Tree)
    requires t.Fork?
    ensures var d := InRight(t.left, t.node, t.red, c);
            && Plug(d, t.right) == Plug(c, t) && Join(d, t.right) == t
            && CBefore(d) == CBefore(c) + Inorder(t.left) + [t.node] && CAfter(d) == CAfter(c)
    ensures Inorder(Plug(c, t)) == (CBefore(c) + Inorder(t.left)) + [t.node] + (Inorder(t.right) + CAfter(c))
    ensures t.right.Leaf? ==> Inorder(t.right) == []
  {
    LocatedOrder(c, t);
  }

  /** What comes next to the hole of c in the order, read off the last link. */
  lemma UpOrder(c: Ctx)
    ensures c.Top? ==> CBefore(c) == [] && CAfter(c) == []
    ensures c.InLeft? ==> CBefore(c) == CBefore(c.up) && CAfter(c) != [] && CAfter(c)[0] == c.node
    ensures c.InRight? ==> CAfter(c) == CAfter(c.up) && CBefore(c) != [] && CBefore(c)[|CBefore(c)| - 1] == c.node
  {
  }

  lemma {:induction false} InorderHas(t: Tree, n: Node)
    ensures n in Nodes(t) <==> n in Inorder(t)
  {
    if t.Fork? {
      InorderHas(t.left, n);
      InorderHas(t.right, n);
    }
  }

  lemma {:induction false} InorderDistinct(t: Tree)
    requires Distinct(t)
    ensures forall i, j :: 0 <= i < j < |Inorder(t)| ==> Inorder(t)[i] != Inorder(t)[j]
  {
    if t.Fork? {
      InorderDistinct(t.left);
      InorderDistinct(t.right);
      InorderHas(t.left, t.node);
      InorderHas(t.right, t.node);
      forall x | x in Inorder(t.left)
        ensures x !in Inorder(t.right)
      {
        InorderHas(t.left, x);
        InorderHas(t.right, x);
        assert x in Nodes(t.left) + {t.node};
      }
      Joined(Inorder(t.left), t.node, Inorder(t.right));
    }
  }

  lemma Joined<T>(a: seq<T>, n: T, b: seq<T>)
    requires n !in a && n !in b && forall x :: x in a ==> x !in b
    requires forall i, j :: 0 <= i < j < |a| ==> a[i] != a[j]
    requires forall i, j :: 0 <= i < j < |b| ==> b[i] != b[j]
    ensures forall i, j :: 0 <= i < j < |a + [n] + b| ==> (a + [n] + b)[i] != (a + [n] + b)[j]
  {
    var s := a + [n] + b;
    forall i, j | 0 <= i < j < |s|
      ensures s[i] != s[j]
    {
      assert i < |a| ==> s[i] in a;
      assert j > |a| ==> s[j] in b;
    }
  }

  lemma InorderIs(t: Tree)
    requires t.Fork?
    ensures Inorder(t) == Inorder(t.left) + [t.node] + Inorder(t.right)
  {
  }
}
