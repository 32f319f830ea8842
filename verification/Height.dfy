/**
 The O(log n) guarantee stated at the head of map_low.c.
 */
module Height {
  import opened Trees

  function Pow2(e: nat): (p: nat)
    ensures p > 0
  {
    if e == 0 then 1 else 2 * Pow2(e - 1)
  }

  /** The binary logarithm, rounded down. */
  function Log2(n: nat): nat
    requires n > 0
  {
    if n == 1 then 0 else 1 + Log2(n / 2)
  }

  lemma {:induction false} Log2Bounds(b: nat, n: nat)
    requires Pow2(b) <= n
    ensures b <= Log2(n)
    decreases n
  {
    if b > 0 {
      Log2Bounds(b - 1, n / 2);
    }
  }

  ghost function Max(a: nat, b: nat): nat
  {
    if a < b then b else a
  }

  /** The number of nodes on the longest path down. */
  ghost function Depth(t: Tree): nat
  {
    match t
    case Leaf => 0
    case Fork(l, _, _, r) => 1 + Max(Depth(l), Depth(r))
  }

  lemma {:induction false} SubtreeBounds(t: Tree, k: nat)
    requires HasBh(t, k) && NoRedRed(t)
    ensures Pow2(k) <= |Inorder(t)| + 1
    ensures Depth(t) <= 2 * k + if Red(t) then 1 else 0
  {
    if t.Fork? {
      var j := if t.red then k else k - 1;
      BlackHeightIs(t.left, j);
      SubtreeBounds(t.left, j);
      SubtreeBounds(t.right, j);
    }
  }

  /** Black height b: at least 2^b - 1 nodes, and at most 2b of them on any path. */
  lemma LogBound(t: Tree)
    requires IsRedBlack(t)
    ensures Pow2(BlackHeight(t)) - 1 <= |Inorder(t)|
    ensures Depth(t) <= 2 * BlackHeight(t)
    ensures Depth(t) <= 2 * Log2(|Inorder(t)| + 1)
  {
    SubtreeBounds(t, BlackHeight(t));
    Log2Bounds(BlackHeight(t), |Inorder(t)| + 1);
  }
}
