/**
 The two steps of the insertion fix-up loop of map_low.c, as functions on a
 subtree in its context, and what they preserve.
 */
module InsertSteps {
  import opened Trees

  /**
   The whole tree is red-black, but for the possibility that the root of t is red
   and t is the whole tree or hangs below a red node.
   */
  ghost predicate AlmostRedBlack(c: Ctx, t: Tree, k: int)
  {
    Red(t) && NoRedRed(t) && HasBh(t, k) && CNoRedRed(c) && CHasBh(c, k)
  }

  /** Case 1: parent and uncle turn black, grandparent turns red. */
  ghost function Flip(c: Ctx, t: Tree): Tree
    requires !c.Top? && !c.up.Top?
  {
    var p := if c.InLeft? then Fork(t, c.node, false, c.right) else Fork(c.left, c.node, false, t);
    if c.up.InLeft? then Fork(p, c.up.node, true, Paint(c.up.right, false))
    else Fork(Paint(c.up.left, false), c.up.node, true, p)
  }

  /** Cases 2 and 3: one or two rotations. */
  ghost function Restructure(c: Ctx, t: Tree): Tree
    requires !c.Top? && !c.up.Top? && t.Fork?
  {
    var p, g, n := c.node, c.up.node, t.node;
    match (c.up, c)
    case (InLeft(_, _, u, _), InLeft(_, _, s, _)) =>
      Fork(t, p, false, Fork(s, g, true, u))
    case (InLeft(_, _, u, _), InRight(s, _, _, _)) =>
      Fork(Fork(s, p, true, t.left), n, false, Fork(t.right, g, true, u))
    case (InRight(u, _, _, _), InRight(s, _, _, _)) =>
      Fork(Fork(u, g, true, s), p, false, t)
    case (InRight(u, _, _, _), InLeft(_, _, s, _)) =>
      Fork(Fork(u, g, true, t.left), n, false, Fork(t.right, p, true, s))
  }

  lemma FlipPlace(c: Ctx, t: Tree)
    requires !c.Top? && !c.up.Top? && Apart(c, t)
    ensures SamePlace(c, t, c.up.up, Flip(c, t))
  {
    hide Apart, Plug;
    Ascend(c, t);
    Ascend(c.up, Join(c, t));
    var x := Join(c.up, Join(c, t));
    var f := Flip(c, t);
    assert Alike(x.left, f.left) && Alike(x.right, f.right);
    Rearrange(c.up.up, x, Flip(c, t));
  }

  lemma FlipOk(c: Ctx, t: Tree, k: int)
    requires AlmostRedBlack(c, t, k) && CRed(c)
    ensures !c.up.Top? && !CRed(c.up)
    ensures Red(Sibling(c.up)) ==> AlmostRedBlack(c.up.up, Flip(c, t), k + 1)
  {
    assert CNoRedRed(c.up) && CHasBh(c.up, k);
  }

  lemma RestructurePlace(c: Ctx, t: Tree)
    requires !c.Top? && !c.up.Top? && Apart(c, t) && t.Fork?
    ensures SamePlace(c, t, c.up.up, Restructure(c, t))
  {
    hide Apart, Alike, Nodes, CNodes, Distinct, CDistinct, Inorder, Plug;
    Ascend(c, t);
    Ascend(c.up, Join(c, t));
    var x := Join(c.up, Join(c, t));
    var g := c.up;
    match (g, c) {
      case (InLeft(_, _, u, _), InLeft(_, _, s, _)) => Rotated(t, c.node, s, g.node, u, c.red, g.red, false, true);
      case (InLeft(_, _, u, _), InRight(s, _, _, _)) =>
        DoubleRotated(s, c.node, t.left, t.node, t.right, g.node, u, c.red, g.red, t.red, true, true, false);
      case (InRight(u, _, _, _), InRight(s, _, _, _)) => Rotated(u, g.node, s, c.node, t, true, false, g.red, c.red);
      case (InRight(u, _, _, _), InLeft(_, _, s, _)) =>
        DoubleRotated(u, g.node, t.left, t.node, t.right, c.node, s, g.red, c.red, t.red, true, true, false);
    }
    Rearrange(c.up.up, x, Restructure(c, t));
  }

  lemma RestructureOk(c: Ctx, t: Tree, k: int)
    requires AlmostRedBlack(c, t, k) && CRed(c)
    ensures !c.up.Top? && !CRed(c.up)
    ensures !Red(Sibling(c.up)) ==> RedBlackAt(c.up.up, Restructure(c, t), k + 1)
  {
    assert CNoRedRed(c.up) && CHasBh(c.up, k);
  }

  lemma RootPainted(t: Tree, k: int)
    requires AlmostRedBlack(Top, t, k)
    ensures RedBlackAt(Top, Paint(t, false), k + 1) && Inorder(Plug(Top, Paint(t, false))) == Inorder(Plug(Top, t))
  {
  }

  lemma BlackParent(c: Ctx, t: Tree, k: int)
    requires AlmostRedBlack(c, t, k) && !c.Top? && !c.red
    ensures RedBlackAt(c, t, k)
  {
  }

  lemma InsertColors(c: Ctx, t: Tree, k: int)
    requires AlmostRedBlack(c, t, k) && CRed(c)
    ensures Red(t) && !c.up.Top? && !c.up.red && !Red(Sibling(c)) && !Red(t.left) && !Red(t.right)
  {
  }
}
