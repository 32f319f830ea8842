/**
 The steps of the removal fix-up loop of map_low.c, as functions on a subtree
 in its context, and what they preserve.
 */
module EraseSteps {
  import opened Trees

  /**
   The loop invariant stated in ____rb_erase_color: the subtree t is one black
   node short of what its surroundings c ask for, and all else is in order.
   */
  ghost predicate Deficit(c: Ctx, t: Tree, k: int)
  {
    !c.Top? && !Red(t) && NoRedRed(t) && HasBh(t, k) && CNoRedRed(c) && CHasBh(c, k + 1)
  }

  /** Case 1: rotation at the parent, which turns red; its old color goes to the sibling. */
  ghost function RedSibling(c: Ctx): Ctx
    requires !c.Top? && Sibling(c).Fork?
  {
    var s := Sibling(c);
    if c.InLeft? then InLeft(c.node, true, s.left, InLeft(s.node, c.red, s.right, c.up))
    else InRight(s.right, c.node, true, InRight(s.left, s.node, c.red, c.up))
  }

  /** Case 2: the sibling turns red, the deficit moves up to the parent. */
  ghost function Recolor(c: Ctx, t: Tree): Tree
    requires !c.Top?
  {
    var s := Paint(Sibling(c), true);
    if c.InLeft? then Fork(t, c.node, c.red, s) else Fork(s, c.node, c.red, t)
  }

  /** Case 4, alone or after case 3: the outer or else the inner child of the sibling makes up for the deficit. */
  ghost function Borrow(c: Ctx, t: Tree): Tree
    requires !c.Top? && Sibling(c).Fork? && (Red(Sibling(c).left) || Red(Sibling(c).right))
  {
    var p, s := c.node, Sibling(c);
    if c.InLeft? then
      if Red(s.right) then Fork(Fork(t, p, false, s.left), s.node, c.red, Paint(s.right, false))
      else Fork(Fork(t, p, false, s.left.left), s.left.node, c.red, Fork(s.left.right, s.node, false, s.right))
    else
      if Red(s.left) then Fork(Paint(s.left, false), s.node, c.red, Fork(s.right, p, false, t))
      else Fork(Fork(s.left, s.node, false, s.right.left), s.right.node, c.red, Fork(s.right.right, p, false, t))
  }

  /** The sibling can be dereferenced, and so can the inner nephew when the sibling is red. */
  lemma SiblingExists(c: Ctx, t: Tree, k: int)
    requires Deficit(c, t, k)
    ensures Sibling(c).Fork?
    ensures Red(Sibling(c)) ==>
              && !c.red && Sibling(c).left.Fork? && Sibling(c).right.Fork?
              && !Red(Sibling(c).left) && !Red(Sibling(c).right)
  {
    BlackHeightIs(t, k);
    var s := Sibling(c);
    assert HasBh(s, k + 1) && NoRedRed(s);
    if Red(s) {
      assert HasBh(s.left, k + 1) && HasBh(s.right, k + 1);
    }
  }

  lemma RedSiblingOk(c: Ctx, t: Tree, k: int)
    requires Deficit(c, t, k) && Red(Sibling(c))
    ensures Sibling(c).Fork? && Deficit(RedSibling(c), t, k) && CRed(RedSibling(c)) && !Red(Sibling(RedSibling(c)))
  {
  }

  lemma RedSiblingPlace(c: Ctx, t: Tree)
    requires !c.Top? && Sibling(c).Fork? && Apart(c, t)
    ensures SamePlace(c, t, RedSibling(c), t)
  {
    hide Apart, Alike, Nodes, CNodes, Distinct, CDistinct, Inorder, Plug;
    var s, d := Sibling(c), RedSibling(c);
    Ascend(c, t);
    if c.InLeft? {
      Rotated(t, c.node, s.left, s.node, s.right, true, c.red, c.red, s.red);
    } else {
      Rotated(s.left, s.node, s.right, c.node, t, s.red, c.red, c.red, true);
    }
    Rearrange(c.up, Join(c, t), Join(d.up, Join(d, t)));
    Descend(d.up, Join(d, t));
    Descend(d, t);
  }

  lemma RecolorOk(c: Ctx, t: Tree, k: int)
    requires Deficit(c, t, k) && Sibling(c).Fork? && !Red(Sibling(c))
    requires !Red(Sibling(c).left) && !Red(Sibling(c).right)
    ensures c.red || c.up.Top? ==> RedBlackAt(c.up, Paint(Recolor(c, t), false), k + 1)
    ensures !c.red && !c.up.Top? ==> Deficit(c.up, Paint(Recolor(c, t), false), k + 1)
  {
  }

  lemma RecolorPlace(c: Ctx, t: Tree, red: bool)
    requires !c.Top? && Apart(c, t)
    ensures SamePlace(c, t, c.up, Paint(Recolor(c, t), red))
  {
    hide Apart, Plug, Nodes, CNodes, Distinct, CDistinct, Inorder;
    Ascend(c, t);
    var s, p := Sibling(c), c.node;
    AlikePainted(s, true);
    AlikeIn(s, Paint(s, true), p, t, c.red, red);
    Rearrange(c.up, Join(c, t), Paint(Recolor(c, t), red));
  }

  lemma BorrowColors(c: Ctx, t: Tree, k: int)
    requires Deficit(c, t, k) && Sibling(c).Fork?
    ensures var s := Sibling(c);
            && (Red(s.left) ==> !Red(s.left.left) && !Red(s.left.right))
            && (Red(s.right) ==> !Red(s.right.left) && !Red(s.right.right))
  {
    var s := Sibling(c);
    assert NoRedRed(s) && NoRedRed(s.left) && NoRedRed(s.right);
  }

  lemma BorrowShape(c: Ctx, t: Tree, k: int)
    requires Deficit(c, t, k) && Sibling(c).Fork? && !Red(Sibling(c)) && (Red(Sibling(c).left) || Red(Sibling(c).right))
    ensures NoRedRed(Borrow(c, t)) && HasBh(Borrow(c, t), if c.red then k + 1 else k + 2)
  {
    var s, b := Sibling(c), Borrow(c, t);
    assert HasBh(s, k + 1) && NoRedRed(s) && HasBh(s.left, k) && HasBh(s.right, k);
    assert NoRedRed(s.left) && NoRedRed(s.right);
    assert HasBh(b.left, k + 1) && HasBh(b.right, k + 1);
    assert NoRedRed(b.left) && NoRedRed(b.right);
  }

  lemma BorrowOk(c: Ctx, t: Tree, k: int)
    requires Deficit(c, t, k) && Sibling(c).Fork? && !Red(Sibling(c)) && (Red(Sibling(c).left) || Red(Sibling(c).right))
    ensures RedBlackAt(c.up, Borrow(c, t), if c.red then k + 1 else k + 2)
  {
    var s := Sibling(c);
    assert HasBh(s, k + 1) && NoRedRed(s) && HasBh(s.left, k) && HasBh(s.right, k);
    assert NoRedRed(s.left) && NoRedRed(s.right);
    assert HasBh(Join(c, t).left, if c.InLeft? then k else k + 1);
    assert CNoRedRed(c.up) && CHasBh(c.up, if c.red then k + 1 else k + 2);
    BorrowShape(c, t, k);
  }

  lemma BorrowPlace(c: Ctx, t: Tree)
    requires !c.Top? && Sibling(c).Fork? && (Red(Sibling(c).left) || Red(Sibling(c).right)) && Apart(c, t)
    ensures SamePlace(c, t, c.up, Borrow(c, t))
  {
    hide Apart, Plug, Nodes, CNodes, Distinct, CDistinct, Inorder, Alike;
    Ascend(c, t);
    var s, p := Sibling(c), c.node;
    var l, r := s.left, s.right;
    if c.InLeft? {
      if Red(r) {
        AlikePainted(r, false);
        AlikeIn(r, Paint(r, false), s.node, l, s.red, s.red);
        AlikeIn(s, Fork(l, s.node, s.red, Paint(r, false)), p, t, c.red, c.red);
        Rotated(t, p, l, s.node, Paint(r, false), false, c.red, c.red, s.red);
        AlikeTrans(Join(c, t), Fork(t, p, c.red, Fork(l, s.node, s.red, Paint(r, false))), Borrow(c, t));
      } else {
        DoubleRotated(t, p, l.left, l.node, l.right, s.node, r, c.red, s.red, l.red, false, false, c.red);
      }
    } else {
      if Red(l) {
        AlikePainted(l, false);
        AlikeIn(l, Paint(l, false), s.node, r, s.red, s.red);
        AlikeIn(s, Fork(Paint(l, false), s.node, s.red, r), p, t, c.red, c.red);
        Rotated(Paint(l, false), s.node, r, p, t, s.red, c.red, c.red, false);
        AlikeTrans(Join(c, t), Fork(Fork(Paint(l, false), s.node, s.red, r), p, c.red, t), Borrow(c, t));
      } else {
        DoubleRotated(l, s.node, r.left, r.node, r.right, p, t, s.red, c.red, r.red, false, false, c.red);
      }
    }
    Rearrange(c.up, Join(c, t), Borrow(c, t));
  }
}
