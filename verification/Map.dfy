/**
 eaf_map: an ordered map over intrusive nodes. A comparator that looks at the
 record around a node is modelled by a key per linked node and a comparator on
 keys.
 */
module Map {
  import opened Trees
  import opened InsertSteps
  import opened Unlink
  import opened Height
  import opened MapLow
  import opened Errno
  import opened Wrappers

  /** A total preorder, given by the sign of a comparison. */
  ghost predicate TotalOrder<K(!new)>(cmp: (K, K) -> int)
  {
    && (forall a, b :: cmp(a, b) < 0 <==> cmp(b, a) > 0)
    && (forall a, b, c :: cmp(a, b) <= 0 && cmp(b, c) <= 0 ==> cmp(a, c) <= 0)
  }

  lemma Compare<K(!new)>(cmp: (K, K) -> int, a: K, b: K, c: K)
    requires TotalOrder(cmp)
    ensures cmp(a, b) < 0 <==> cmp(b, a) > 0
    ensures cmp(a, a) == 0
    ensures cmp(a, b) < 0 && cmp(b, c) <= 0 ==> cmp(a, c) < 0
    ensures cmp(a, b) <= 0 && cmp(b, c) < 0 ==> cmp(a, c) < 0
    ensures cmp(a, b) > 0 && cmp(b, c) >= 0 ==> cmp(a, c) > 0
    ensures cmp(a, b) >= 0 && cmp(b, c) > 0 ==> cmp(a, c) > 0
  {
    assert cmp(c, a) <= 0 && cmp(a, b) <= 0 ==> cmp(c, b) <= 0;
    assert cmp(b, c) <= 0 && cmp(c, a) <= 0 ==> cmp(b, a) <= 0;
    assert cmp(a, c) <= 0 && cmp(c, b) <= 0 ==> cmp(a, b) <= 0;
    assert cmp(b, a) <= 0 && cmp(a, c) <= 0 ==> cmp(b, c) <= 0;
  }

  /** s lists nodes in strictly ascending order of their keys. */
  ghost predicate Sorted<K>(s: seq<Node>, keys: map<Node, K>, cmp: (K, K) -> int)
  {
    && (forall i :: 0 <= i < |s| ==> s[i] in keys)
    && (forall i, j :: 0 <= i < j < |s| ==> cmp(keys[s[i]], keys[s[j]]) < 0)
  }

  /** key is above everything before place lo and below everything from place hi on. */
  ghost predicate Between<K>(s: seq<Node>, keys: map<Node, K>, cmp: (K, K) -> int, key: K, lo: nat, hi: nat)
  {
    && lo <= hi <= |s|
    && (forall i :: 0 <= i < lo ==> s[i] in keys && cmp(key, keys[s[i]]) > 0)
    && (forall i :: hi <= i < |s| ==> s[i] in keys && cmp(key, keys[s[i]]) < 0)
  }

  lemma Narrow<K(!new)>(s: seq<Node>, keys: map<Node, K>, cmp: (K, K) -> int, key: K, lo: nat, hi: nat, i: nat)
    requires TotalOrder(cmp) && Sorted(s, keys, cmp) && Between(s, keys, cmp, key, lo, hi) && lo <= i < hi
    ensures cmp(key, keys[s[i]]) < 0 ==> Between(s, keys, cmp, key, lo, i)
    ensures cmp(key, keys[s[i]]) > 0 ==> Between(s, keys, cmp, key, i + 1, hi)
    ensures cmp(key, keys[s[i]]) == 0 ==> Between(s, keys, cmp, key, i, i + 1)
  {
    hide TotalOrder;
    forall j | 0 <= j < |s|
      ensures j < i && cmp(key, keys[s[i]]) >= 0 ==> cmp(key, keys[s[j]]) > 0
      ensures j > i && cmp(key, keys[s[i]]) <= 0 ==> cmp(key, keys[s[j]]) < 0
    {
      Compare(cmp, key, keys[s[i]], keys[s[j]]);
      Compare(cmp, keys[s[j]], keys[s[i]], key);
    }
  }

  /** There is only one sorted listing of a given set of nodes. */
  lemma {:induction false} SortedUnique<K(!new)>(s: seq<Node>, u: seq<Node>, keys: map<Node, K>, cmp: (K, K) -> int)
    requires TotalOrder(cmp) && Sorted(s, keys, cmp) && Sorted(u, keys, cmp)
    requires forall n :: n in s <==> n in u
    ensures s == u
    decreases |s|
  {
    hide TotalOrder;
    assert |s| > 0 ==> s[0] in u;
    assert |u| > 0 ==> u[0] in s;
    if |s| > 0 {
      var i, j :| 0 <= i < |u| && u[i] == s[0] && 0 <= j < |s| && s[j] == u[0];
      Compare(cmp, keys[s[0]], keys[u[0]], keys[s[0]]);
      assert i == 0 && j == 0;
      forall n
        ensures n in s[1..] <==> n in u[1..]
      {
        TailHas(s, n, keys, cmp);
        TailHas(u, n, keys, cmp);
      }
      SortedUnique(s[1..], u[1..], keys, cmp);
    }
  }

  lemma TailHas<K(!new)>(s: seq<Node>, n: Node, keys: map<Node, K>, cmp: (K, K) -> int)
    requires TotalOrder(cmp) && Sorted(s, keys, cmp) && s != []
    ensures n in s[1..] <==> n in s && n != s[0]
  {
    Compare(cmp, keys[s[0]], keys[s[0]], keys[s[0]]);
    assert s == [s[0]] + s[1..];
  }

  /** The most comparisons a search may still make from a subtree t of black height k. */
  ghost function Bound(t: Tree, k: int): int
  {
    2 * k + if Red(t) then 1 else 0
  }

  lemma Shorter(c: Ctx, t: Tree, k: int)
    requires RedBlackAt(c, t, k) && t.Fork?
    ensures var j := if t.red then k else k - 1;
            0 <= Bound(t.left, j) < Bound(t, k) && 0 <= Bound(t.right, j) < Bound(t, k)
  {
    BlackHeightIs(t.left, if t.red then k else k - 1);
  }

  /** A red leaf may be put where the search has stopped. */
  lemma NewLeaf(c: Ctx, node: Node, k: int)
    requires RedBlackAt(c, Leaf, k)
    ensures AlmostRedBlack(c, Fork(Leaf, node, true, Leaf), k)
    ensures Inorder(Plug(c, Leaf)) == CBefore(c) + CAfter(c)
    ensures Inorder(Plug(c, Fork(Leaf, node, true, Leaf))) == CBefore(c) + [node] + CAfter(c)
  {
    PlugSplit(c, Leaf);
    PlugSplit(c, Fork(Leaf, node, true, Leaf));
    assert CBefore(c) + [] + CAfter(c) == CBefore(c) + CAfter(c);
    assert Inorder(Fork(Leaf, node, true, Leaf)) == [node];
  }

  lemma SortedInsert<K(!new)>(s: seq<Node>, u: seq<Node>, node: Node, key: K, keys: map<Node, K>, cmp: (K, K) -> int)
    requires TotalOrder(cmp) && Sorted(s + u, keys, cmp) && node !in keys
    requires Between(s + u, keys, cmp, key, |s|, |s|)
    ensures Sorted(s + [node] + u, keys[node := key], cmp)
  {
    hide TotalOrder;
    var w, m := s + [node] + u, keys[node := key];
    forall i, j | 0 <= i < j < |w|
      ensures w[i] in m && w[j] in m && cmp(m[w[i]], m[w[j]]) < 0
    {
      assert i < |s| ==> w[i] == (s + u)[i];
      assert i > |s| ==> w[i] == (s + u)[i - 1];
      assert j < |s| ==> w[j] == (s + u)[j];
      assert j > |s| ==> w[j] == (s + u)[j - 1];
      if i < |s| {
        Compare(cmp, m[w[i]], key, key);
      }
    }
    assert forall i :: 0 <= i < |w| ==> w[i] == node || (exists j :: 0 <= j < |s + u| && (s + u)[j] == w[i]) by {
      forall i | 0 <= i < |w| && i != |s|
        ensures exists j :: 0 <= j < |s + u| && (s + u)[j] == w[i]
      {
        assert w[i] == (s + u)[if i < |s| then i else i - 1];
      }
    }
  }

  lemma SortedRemove<K>(s: seq<Node>, node: Node, u: seq<Node>, keys: map<Node, K>, cmp: (K, K) -> int)
    requires Sorted(s + [node] + u, keys, cmp) && node !in s && node !in u
    ensures Sorted(s + u, keys - {node}, cmp)
  {
    var w := s + [node] + u;
    forall i | 0 <= i < |s + u|
      ensures (s + u)[i] == w[if i < |s| then i else i + 1] && (s + u)[i] in keys - {node}
    {
    }
  }

  /** The subtree of a node without a left child has at most two nodes, and so has that of one without a right child. */
  lemma Thin(t: Tree, k: int)
    requires HasBh(t, k) && NoRedRed(t) && t.Fork? && (t.left.Leaf? || t.right.Leaf?)
    ensures |Inorder(t)| <= 2
  {
    var j := if t.red then k else k - 1;
    assert HasBh(t.left, j) && HasBh(t.right, j);
    BlackHeightIs(t.left, j);
    BlackHeightIs(t.right, j);
    NoBlack(t.left);
    NoBlack(t.right);
  }

  lemma NoBlack(t: Tree)
    requires HasBh(t, 0) && NoRedRed(t)
    ensures |Inorder(t)| <= 1
  {
    NotBlack(t);
    if t.Fork? {
      NotBlack(t.left);
      NotBlack(t.right);
      assert Inorder(Leaf) == [];
    }
  }

  lemma NotBlack(t: Tree)
    requires HasBh(t, 0)
    ensures t.Leaf? || (t.red && HasBh(t.left, 0) && HasBh(t.right, 0))
  {
    if t.Fork? {
      BlackHeightIs(t.left, if t.red then 0 else -1);
    }
  }

  lemma SixDeep(t: Tree)
    requires IsRedBlack(t) && |Inorder(t)| >= 6
    ensures t.Fork? && ((t.right.Fork? && t.right.left.Fork?) || (t.left.Fork? && t.left.right.Fork?))
  {
    var j := BlackHeight(t) - if t.red then 0 else 1;
    if t.Fork? {
      assert |Inorder(t)| == |Inorder(t.left)| + 1 + |Inorder(t.right)|;
      if t.right.Fork? && t.right.left.Leaf? {
        Thin(t.right, j);
      }
      if t.left.Fork? && t.left.right.Leaf? {
        Thin(t.left, j);
      }
    }
  }

  /** eaf_map_t. */
  class Map<K(!new)> {
    const low: Root
    const cmp: (K, K) -> int
    var size: nat
    var keys: map<Node, K>

    constructor (cmp: (K, K) -> int)
      requires TotalOrder(cmp)
      ensures Valid() && this.cmp == cmp && keys == map[] && fresh(low) && low.nodes == {}
    {
      this.low := new Root();
      this.cmp := cmp;
      size, keys := 0, map[];
    }

    ghost function Order(): seq<Node>
      reads low
    {
      Inorder(low.tree)
    }

    ghost predicate Valid()
      reads this, low, low.nodes
    {
      && TotalOrder(cmp) && low.Valid()
      && keys.Keys == low.nodes && size == |Order()| && Sorted(Order(), keys, cmp)
    }

    /** A search has come down to the subtree t. */
    ghost predicate Visiting(c: Ctx, t: Tree, k: int)
      reads low, low.nodes
    {
      && low.At(c, t) && Plug(c, t) == low.tree && RedBlackAt(c, t, k)
      && |CBefore(c)| + |Inorder(t)| + |CAfter(c)| == |Order()|
    }

    /** A search for key has come down to the subtree t. */
    ghost predicate Searching(key: K, c: Ctx, t: Tree, k: int)
      reads this, low, low.nodes
    {
      Visiting(c, t, k) && Between(Order(), keys, cmp, key, |CBefore(c)|, |CBefore(c)| + |Inorder(t)|)
    }

    lemma Begins()
      requires Valid()
      ensures Visiting(Top, low.tree, BlackHeight(low.tree)) && low.root == RootOf(low.tree) && !Red(low.tree)
      ensures BlackHeight(low.tree) <= Log2(size + 1)
      ensures CBefore(Top) == CAfter(Top) == []
    {
      hide low.At, TotalOrder, Sorted;
      WholeTree(low.tree);
      low.Around(Top, low.tree);
      UpOrder(Top);
      LogBound(low.tree);
      Log2Bounds(BlackHeight(low.tree), size + 1);
    }

    lemma Start(key: K)
      requires Valid()
      ensures Searching(key, Top, low.tree, BlackHeight(low.tree)) && low.root == RootOf(low.tree) && !Red(low.tree)
      ensures BlackHeight(low.tree) <= Log2(size + 1)
    {
      hide Visiting, TotalOrder, Sorted;
      Begins();
    }

    /** The children of t may be visited next. */
    lemma Visit(c: Ctx, t: Tree, k: int)
      requires Valid() && Visiting(c, t, k) && t.Fork?
      ensures t.node in low.nodes && t.node in keys && low.nodes == keys.Keys
      ensures t.node.left == RootOf(t.left) && t.node.right == RootOf(t.right)
      ensures var (l, r) := (InLeft(t.node, t.red, t.right, c), InRight(t.left, t.node, t.red, c));
              && Visiting(l, t.left, if t.red then k else k - 1) && Visiting(r, t.right, if t.red then k else k - 1)
              && |CBefore(l)| == |CBefore(c)| && |CBefore(r)| == |CBefore(c)| + |Inorder(t.left)| + 1
              && |Inorder(t)| == |Inorder(t.left)| + 1 + |Inorder(t.right)|
      ensures var j := if t.red then k else k - 1;
              0 <= Bound(t.left, j) < Bound(t, k) && 0 <= Bound(t.right, j) < Bound(t, k)
      ensures Order() == (CBefore(c) + Inorder(t.left)) + [t.node] + (Inorder(t.right) + CAfter(c))
    {
      hide low.At, IsRedBlack, Plug, Inorder, CBefore, CAfter, TotalOrder, Sorted, RedBlackAt;
      var l, r := InLeft(t.node, t.red, t.right, c), InRight(t.left, t.node, t.red, c);
      low.Around(c, t);
      LeftOrder(c, t);
      RightOrder(c, t);
      low.Down(l, t.left);
      low.Down(r, t.right);
      StepDown(l, t.left, k);
      StepDown(r, t.right, k);
      Shorter(c, t, k);
      InorderIs(t);
    }

    lemma Descend(key: K, c: Ctx, t: Tree, k: int)
      requires Valid() && Searching(key, c, t, k) && t.Fork?
      ensures t.node in low.nodes && t.node in keys && low.nodes == keys.Keys
      ensures t.node.left == RootOf(t.left) && t.node.right == RootOf(t.right)
      ensures var (r, j) := (cmp(key, keys[t.node]), if t.red then k else k - 1);
              && (r < 0 ==> Searching(key, InLeft(t.node, t.red, t.right, c), t.left, j))
              && (r > 0 ==> Searching(key, InRight(t.left, t.node, t.red, c), t.right, j))
              && (r == 0 ==> Between(Order(), keys, cmp, key,
                                     |CBefore(c)| + |Inorder(t.left)|, |CBefore(c)| + |Inorder(t.left)| + 1))
              && 0 <= Bound(t.left, j) < Bound(t, k) && 0 <= Bound(t.right, j) < Bound(t, k)
      ensures Order() == (CBefore(c) + Inorder(t.left)) + [t.node] + (Inorder(t.right) + CAfter(c))
    {
      hide Visiting, IsRedBlack, Plug, Inorder, CBefore, CAfter, TotalOrder, Between, Sorted, RedBlackAt, Bound;
      Visit(c, t, k);
      assert Order()[|CBefore(c) + Inorder(t.left)|] == t.node;
      Narrow(Order(), keys, cmp, key, |CBefore(c)|, |CBefore(c)| + |Inorder(t)|, |CBefore(c)| + |Inorder(t.left)|);
    }

    /**
     The loop of eaf_map_find. The comparator is applied to the record of the
     search, which need not be one that the order of the map knows; if it is
     one, with this key, the search is complete.
     */
    method FindWith(probe: K -> int, ghost key: Option<K>) returns (r: Node?, ghost cmps: nat)
      requires Valid() && (key.Some? ==> forall k :: probe(k) == cmp(key.value, k))
      ensures r != null ==> r in keys && probe(keys[r]) == 0
      ensures r == null && key.Some? ==> forall n :: n in keys ==> probe(keys[n]) != 0
      ensures cmps <= 2 * Log2(size + 1)
    {
      hide low.At, Visiting, IsRedBlack, TotalOrder, Sorted, Between, Plug, Inorder, CBefore, CAfter, RedBlackAt;
      Begins();
      var node := low.root;
      ghost var c, t, k := Top, low.tree, BlackHeight(low.tree);
      if key.Some? {
        Start(key.value);
      }
      cmps := 0;
      while node != null
        invariant Visiting(c, t, k) && node == RootOf(t) && (key.Some? ==> Searching(key.value, c, t, k))
        invariant cmps + Bound(t, k) <= 2 * BlackHeight(low.tree) && 0 <= Bound(t, k)
        decreases t
      {
        Visit(c, t, k);
        if key.Some? {
          Descend(key.value, c, t, k);
        }
        var result := probe(keys[node]);
        cmps := cmps + 1;
        if result < 0 {
          node := node.left;
          c, t, k := InLeft(t.node, t.red, t.right, c), t.left, if t.red then k else k - 1;
        } else if result > 0 {
          node := node.right;
          c, t, k := InRight(t.left, t.node, t.red, c), t.right, if t.red then k else k - 1;
        } else {
          return node, cmps;
        }
      }
      if key.Some? {
        Absent(key.value, c, k);
      }
      r := null;
    }

    /** eaf_map_find, with a key that the order knows. */
    method Find(key: K) returns (r: Node?, ghost cmps: nat)
      requires Valid()
      ensures r == null ==> forall n :: n in keys ==> cmp(key, keys[n]) != 0
      ensures r != null ==> r in keys && cmp(key, keys[r]) == 0
      ensures cmps <= 2 * Log2(size + 1)
    {
      var order := cmp;
      r, cmps := FindWith(k => order(key, k), Some(key));
    }

    lemma Absent(key: K, c: Ctx, k: int)
      requires Valid() && Searching(key, c, Leaf, k)
      ensures forall n :: n in keys ==> cmp(key, keys[n]) != 0
    {
      forall n | n in keys
        ensures cmp(key, keys[n]) != 0
      {
        InOrder(n);
      }
    }

    lemma InOrder(n: Node)
      requires Valid()
      ensures n in keys <==> n in Order()
    {
      low.TreeNodes();
      InorderHas(low.tree, n);
    }

    /** The search loop of eaf_map_insert: the link slot for key, or a node that has it already. */
    method FindSlot(key: K)
      returns (found: Node?, parent: Node?, leftSlot: bool, ghost c: Ctx, ghost k: int, ghost cmps: nat)
      requires Valid()
      ensures cmps <= 2 * Log2(size + 1)
      ensures found != null ==> found in keys && cmp(key, keys[found]) == 0
      ensures found == null ==>
                && Searching(key, c, Leaf, k) && parent == UpOf(c)
                && (c.InLeft? ==> leftSlot) && (c.InRight? ==> !leftSlot)
    {
      hide low.At, TotalOrder, Sorted, Between, Plug, Inorder, CBefore, CAfter, RedBlackAt, IsRedBlack;
      Start(key);
      found, parent, leftSlot := null, null, false;
      var new_node := low.root;
      ghost var t := low.tree;
      c, k, cmps := Top, BlackHeight(low.tree), 0;
      while new_node != null
        invariant Searching(key, c, t, k) && new_node == RootOf(t)
        invariant cmps + Bound(t, k) <= 2 * BlackHeight(low.tree) && 0 <= Bound(t, k)
        invariant parent == UpOf(c) && (c.InLeft? ==> leftSlot) && (c.InRight? ==> !leftSlot)
        decreases t
      {
        Descend(key, c, t, k);
        var result := cmp(key, keys[new_node]);
        cmps := cmps + 1;
        parent := new_node;
        if result < 0 {
          new_node, leftSlot := new_node.left, true;
          c, t, k := InLeft(t.node, t.red, t.right, c), t.left, if t.red then k else k - 1;
        } else if result > 0 {
          new_node, leftSlot := new_node.right, false;
          c, t, k := InRight(t.left, t.node, t.red, c), t.right, if t.red then k else k - 1;
        } else {
          found := new_node;
          return;
        }
      }
    }

    method Insert(node: Node, key: K) returns (ret: int, ghost at: nat, ghost cmps: nat)
      requires Valid() && node !in keys
      modifies this`size, this`keys, low, low.nodes, node
      ensures Valid() && low.nodes == keys.Keys
      ensures cmps <= 2 * Log2(old(size) + 1)
      ensures ret == SUCCESS || ret == DUPLICATE
      ensures ret == DUPLICATE <==> exists n :: n in old(keys) && cmp(key, old(keys)[n]) == 0
      ensures ret == DUPLICATE ==> keys == old(keys) && Order() == old(Order())
      ensures ret == SUCCESS ==>
                && keys == old(keys)[node := key]
                && at <= |old(Order())| && Order() == old(Order()[..at]) + [node] + old(Order()[at..])
    {
      hide low.At, TotalOrder, Sorted, Between, Plug, Inorder, CBefore, CAfter, RedBlackAt, AlmostRedBlack, IsRedBlack;
      at := 0;
      var found, parent, leftSlot;
      ghost var c, k;
      found, parent, leftSlot, c, k, cmps := FindSlot(key);
      if found != null {
        return DUPLICATE, 0, cmps;
      }
      Absent(key, c, k);
      NewLeaf(c, node, k);
      InorderLeaf();
      SortedInsert(CBefore(c), CAfter(c), node, key, keys, cmp);
      at := |CBefore(c)|;
      size := size + 1;
      keys := keys[node := key];
      low.LinkNode(node, parent, leftSlot, c);
      low.InsertColor(node, c, Fork(Leaf, node, true, Leaf), k);
      ret := SUCCESS;
    }

    method Erase(node: Node) returns (ghost at: nat)
      requires Valid() && node in keys
      modifies this`size, this`keys, low, low.nodes
      ensures Valid() && low.nodes == keys.Keys
      ensures keys == old(keys) - {node}
      ensures at < |old(Order())| && old(Order())[at] == node
      ensures Order() == old(Order()[..at] + Order()[at + 1..])
    {
      hide low.At, TotalOrder, Sorted, IsRedBlack, Inorder;
      ghost var s := Order();
      InOrder(node);
      OrderDistinct();
      size := size - 1;
      keys := keys - {node};
      at := low.Erase(node);
      assert s == s[..at] + [node] + s[at + 1..];
      SortedRemove(s[..at], node, s[at + 1..], old(keys), cmp);
    }

    lemma OrderDistinct()
      requires Valid()
      ensures forall i, j :: 0 <= i < j < |Order()| ==> Order()[i] != Order()[j]
    {
      hide TotalOrder;
      forall i, j | 0 <= i < j < |Order()|
        ensures Order()[i] != Order()[j]
      {
        var k := keys[Order()[i]];
        Compare(cmp, k, k, k);
      }
    }

    lemma InorderLeaf()
      ensures Inorder(Leaf) == []
    {
    }

    method FindLower(key: K) returns (r: Node?)
      requires Valid()
      ensures r == null ==> forall n :: n in keys ==> cmp(keys[n], key) > 0
      ensures r != null ==> r in keys && cmp(keys[r], key) <= 0
      ensures r != null ==> forall n :: n in keys && cmp(keys[n], key) <= 0 ==> cmp(keys[n], keys[r]) <= 0
      ensures IsLeastNotBelow(key, r) <==> keys == map[] || exists n :: n in keys && cmp(keys[n], key) == 0
    {
      hide low.At, TotalOrder, Sorted, Between, Plug, Inorder, CBefore, CAfter, RedBlackAt;
      Start(key);
      var lower_node, node := null, low.root;
      ghost var c, t, k := Top, low.tree, BlackHeight(low.tree);
      UpOrder(Top);
      while node != null
        invariant Searching(key, c, t, k) && node == RootOf(t)
        invariant lower_node == if CBefore(c) == [] then null else CBefore(c)[|CBefore(c)| - 1]
        decreases t
      {
        Descend(key, c, t, k);
        LeftOrder(c, t);
        RightOrder(c, t);
        var result := cmp(key, keys[node]);
        if result < 0 {
          node := node.left;
          c, t, k := InLeft(t.node, t.red, t.right, c), t.left, if t.red then k else k - 1;
        } else if result > 0 {
          lower_node := node;
          node := node.right;
          c, t, k := InRight(t.left, t.node, t.red, c), t.right, if t.red then k else k - 1;
        } else {
          ghost var i := |CBefore(c) + Inorder(t.left)|;
          assert Order()[i] == node;
          LowerIs(key, i, i + 1);
          LowerPromise(key, node);
          return node;
        }
      }
      PlugSplit(c, Leaf);
      InorderLeaf();
      LowerIs(key, |CBefore(c)|, |CBefore(c)|);
      r := lower_node;
      LowerPromise(key, r);
    }

    /** What the documentation promises of eaf_map_find_lower: the first node that is not less than the key. */
    ghost predicate IsLeastNotBelow(key: K, r: Node?)
      reads this
    {
      if r == null then forall n :: n in keys ==> cmp(keys[n], key) < 0
      else
        && r in keys && cmp(keys[r], key) >= 0
        && forall n :: n in keys && cmp(keys[n], key) >= 0 ==> cmp(keys[r], keys[n]) <= 0
    }

    /**
     The greatest node not above the key is the promised one when it has the key,
     and when there is no node at all.
     */
    lemma LowerPromise(key: K, r: Node?)
      requires Valid()
      requires r == null ==> forall n :: n in keys ==> cmp(keys[n], key) > 0
      requires r != null ==> r in keys && cmp(keys[r], key) <= 0
      requires r != null ==> forall n :: n in keys && cmp(keys[n], key) <= 0 ==> cmp(keys[n], keys[r]) <= 0
      ensures IsLeastNotBelow(key, r) <==> keys == map[] || exists n :: n in keys && cmp(keys[n], key) == 0
    {
      hide TotalOrder;
      if r != null {
        forall n | n in keys
          ensures cmp(keys[n], key) == 0 ==> cmp(keys[r], key) == 0
          ensures cmp(keys[r], key) == 0 && cmp(keys[n], key) >= 0 ==> cmp(keys[r], keys[n]) <= 0
        {
          Compare(cmp, keys[n], keys[r], key);
          Compare(cmp, keys[r], key, keys[n]);
          Compare(cmp, key, keys[n], keys[r]);
          Compare(cmp, keys[r], keys[n], key);
        }
      } else if keys != map[] {
        var n :| n in keys;
      }
    }

    /** The node before place hi is the greatest one not above key, when at most one node, at lo, is equal to key. */
    lemma LowerIs(key: K, lo: nat, hi: nat)
      requires Valid() && Between(Order(), keys, cmp, key, lo, hi) && lo <= hi <= lo + 1
      requires lo < hi ==> cmp(key, keys[Order()[lo]]) == 0
      ensures forall n :: n in keys ==> (cmp(keys[n], key) <= 0 <==> exists i :: 0 <= i < hi && Order()[i] == n)
      ensures hi > 0 ==> Order()[hi - 1] in keys && cmp(keys[Order()[hi - 1]], key) <= 0
      ensures hi > 0 ==> forall n :: n in keys && cmp(keys[n], key) <= 0 ==> cmp(keys[n], keys[Order()[hi - 1]]) <= 0
    {
      hide TotalOrder;
      if hi > 0 {
        Compare(cmp, key, keys[Order()[hi - 1]], key);
        Compare(cmp, keys[Order()[hi - 1]], key, key);
      }
      forall n | n in keys
        ensures cmp(keys[n], key) <= 0 <==> exists i :: 0 <= i < hi && Order()[i] == n
        ensures hi > 0 && cmp(keys[n], key) <= 0 ==> cmp(keys[n], keys[Order()[hi - 1]]) <= 0
      {
        InOrder(n);
        var j :| 0 <= j < |Order()| && Order()[j] == n;
        Compare(cmp, key, keys[n], key);
        Compare(cmp, keys[n], key, key);
        if hi > 0 {
          Compare(cmp, keys[n], keys[Order()[hi - 1]], key);
        }
      }
    }

    ghost predicate Above(key: K, n: Node)
      reads this
    {
      n in keys && cmp(keys[n], key) > 0
    }

    ghost predicate IsLeastAbove(key: K, r: Node?)
      reads this
    {
      if r == null then forall n :: n in keys ==> !Above(key, n)
      else Above(key, r) && forall n :: n in keys && Above(key, n) ==> cmp(keys[r], keys[n]) <= 0
    }

    /**
     When some node has the key, the search stops there, at t below c. The
     result is then the least node above the key exactly when t has no right
     subtree, or no node on the way down was above the key and the right child
     has no left child.
     */
    method FindUpper(key: K) returns (r: Node?, ghost c: Ctx, ghost t: Tree)
      requires Valid()
      ensures r == null ==> forall n :: n in keys ==> !Above(key, n)
      ensures r != null ==> Above(key, r)
      ensures (forall n :: n in keys ==> cmp(key, keys[n]) != 0) <==> t.Leaf?
      ensures t.Leaf? ==> IsLeastAbove(key, r)
      ensures t.Fork? ==>
                && low.At(c, t) && Plug(c, t) == low.tree && t.node in keys && cmp(key, keys[t.node]) == 0
                && (IsLeastAbove(key, r) <==> t.right.Leaf? || (CAfter(c) == [] && t.right.left.Leaf?))
    {
      hide low.At, TotalOrder, Sorted, Between, Plug, Inorder, CBefore, CAfter, RedBlackAt, IsLeastAbove, Above;
      Start(key);
      var upper_node, node := null, low.root;
      ghost var k;
      c, t, k := Top, low.tree, BlackHeight(low.tree);
      UpOrder(Top);
      while node != null
        invariant Searching(key, c, t, k) && node == RootOf(t)
        invariant upper_node == if CAfter(c) == [] then null else CAfter(c)[0]
        decreases t
      {
        Descend(key, c, t, k);
        LeftOrder(c, t);
        RightOrder(c, t);
        var result := cmp(key, keys[node]);
        if result < 0 {
          upper_node := node;
          node := node.left;
          c, t, k := InLeft(t.node, t.red, t.right, c), t.left, if t.red then k else k - 1;
        } else if result > 0 {
          node := node.right;
          c, t, k := InRight(t.left, t.node, t.red, c), t.right, if t.red then k else k - 1;
        } else {
          ghost var i := |CBefore(c)| + |Inorder(t.left)|;
          assert Order()[i] == node;
          UpperIs(key, i, i + 1);
          RightmostFacts(c, t);
          assert CAfter(c) != [] ==> Order()[i + 1 + |Inorder(t.right)|] == CAfter(c)[0];
          assert t.right.Fork? ==> Order()[i + 1 + |Inorder(t.right.left)|] == t.right.node;
          if upper_node == null {
            upper_node := node.right;
          }
          return upper_node, c, t;
        }
      }
      PlugSplit(c, Leaf);
      InorderLeaf();
      UpperIs(key, |CBefore(c)|, |CBefore(c)|);
      assert CAfter(c) != [] ==> Order()[|CBefore(c)|] == CAfter(c)[0];
      Absent(key, c, k);
      r := upper_node;
    }

    /**
     eaf_map_find_upper is documented to return the first node greater than the
     key. In a map of six nodes or more it does not for some key that is linked.
     */
    method MissUpper() returns (key: K, r: Node?)
      requires Valid() && size >= 6
      ensures (exists n :: n in keys && keys[n] == key) && !IsLeastAbove(key, r)
    {
      hide Visiting, low.At, TotalOrder, Sorted, Plug, Inorder, CBefore, CAfter, IsRedBlack, IsLeastAbove;
      SixNodes();
      var root := low.root;
      var atRoot := root.right != null && root.right.left != null;
      var n := if atRoot then root else root.left;
      key := keys[n];
      ghost var c, t;
      r, c, t := FindUpper(key);
      Self(n);
      NodeOf(n, t.node);
      Beside(c, t);
      if !atRoot {
        low.Around(c, t);
        UpAfter(c);
      }
    }

    /** A node with the key of n is n. */
    lemma NodeOf(n: Node, m: Node)
      requires Valid() && n in keys && m in keys && cmp(keys[n], keys[m]) == 0
      ensures m == n
    {
      hide TotalOrder;
      InOrder(n);
      InOrder(m);
      var i, j :| 0 <= i < |Order()| && Order()[i] == n && 0 <= j < |Order()| && Order()[j] == m;
      Compare(cmp, keys[n], keys[m], keys[n]);
      Compare(cmp, keys[m], keys[n], keys[m]);
    }

    lemma Self(n: Node)
      requires Valid() && n in keys
      ensures cmp(keys[n], keys[n]) == 0
    {
      Compare(cmp, keys[n], keys[n], keys[n]);
    }

    /** The links to the right of t. */
    lemma Beside(c: Ctx, t: Tree)
      requires low.At(c, t) && t.Fork?
      ensures t.node.right == RootOf(t.right)
      ensures t.right.Fork? ==> t.right.node in low.nodes && t.right.node.left == RootOf(t.right.left)
    {
      hide low.At;
      low.Around(c, t);
      low.Down(InRight(t.left, t.node, t.red, c), t.right);
      low.Around(InRight(t.left, t.node, t.red, c), t.right);
    }

    static lemma UpAfter(c: Ctx)
      requires c.InLeft?
      ensures CAfter(c) != []
    {
    }

    /** In a map of six nodes, the right child of the root has a left one, or the left child a right one. */
    lemma SixNodes()
      requires Valid() && size >= 6
      ensures low.root != null && low.root in keys
      ensures var (l, r) := (low.root.left, low.root.right);
              || (r != null && r.left != null)
              || (l != null && l in keys && l.right != null && l.parent == low.root && l != r)
    {
      hide low.At, TotalOrder, Sorted;
      var t := low.tree;
      Begins();
      Visit(Top, t, BlackHeight(t));
      SixDeep(t);
      low.Around(Top, t);
      Beside(Top, t);
      if t.left.Fork? {
        low.Down(InLeft(t.node, t.red, t.right, Top), t.left);
        low.Around(InLeft(t.node, t.red, t.right, Top), t.left);
        InOrder(t.left.node);
      }
    }

    lemma RightmostFacts(c: Ctx, t: Tree)
      requires t.Fork?
      ensures t.right.Leaf? <==> Inorder(t.right) == []
      ensures t.right.Fork? ==> (t.right.left.Leaf? <==> Inorder(t.right.left) == [])
      ensures t.right.Fork? ==> Inorder(t.right) == Inorder(t.right.left) + [t.right.node] + Inorder(t.right.right)
    {
    }

    /** The nodes above key are those from place hi on, when at most one node, at lo, is equal to key. */
    lemma UpperIs(key: K, lo: nat, hi: nat)
      requires Valid() && Between(Order(), keys, cmp, key, lo, hi) && lo <= hi <= lo + 1
      requires lo < hi ==> cmp(key, keys[Order()[lo]]) == 0
      ensures hi == |Order()| ==> (forall n :: n in keys ==> !Above(key, n)) && IsLeastAbove(key, null)
      ensures forall j :: hi <= j < |Order()| ==> Above(key, Order()[j]) && (IsLeastAbove(key, Order()[j]) <==> j == hi)
      ensures hi < |Order()| ==> !IsLeastAbove(key, null)
    {
      hide TotalOrder;
      forall n | n in keys && Above(key, n)
        ensures exists i :: hi <= i < |Order()| && Order()[i] == n
      {
        InOrder(n);
        var j :| 0 <= j < |Order()| && Order()[j] == n;
        Compare(cmp, key, keys[n], key);
        Compare(cmp, keys[n], key, key);
      }
      forall j | hi <= j < |Order()|
        ensures Above(key, Order()[j]) && (IsLeastAbove(key, Order()[j]) <==> j == hi)
      {
        var s := Order();
        Compare(cmp, key, keys[s[j]], key);
        Compare(cmp, key, keys[s[hi]], key);
        Compare(cmp, keys[s[hi]], keys[s[j]], key);
        Compare(cmp, keys[s[hi]], keys[s[hi]], key);
      }
      assert hi < |Order()| ==> Order()[hi] in keys && Above(key, Order()[hi]);
    }

    /** eaf_map_begin, the first node in the order. */
    method Begin() returns (r: Node?)
      requires Valid()
      ensures r == if Order() == [] then null else Order()[0]
      ensures r != null ==> r in keys
    {
      hide low.At, TotalOrder, Sorted, IsRedBlack, Inorder;
      r := low.First();
      if r != null {
        InOrder(r);
      }
    }

    /** eaf_map_end, the last node in the order. */
    method End() returns (r: Node?)
      requires Valid()
      ensures r == if Order() == [] then null else Order()[|Order()| - 1]
    {
      hide low.At, TotalOrder, Sorted, IsRedBlack, Inorder;
      r := low.Last();
    }

    /** eaf_map_next: the node after the one at place i, or null after the last. */
    method Next(node: Node, ghost i: nat) returns (r: Node?)
      requires Valid() && i < |Order()| && Order()[i] == node
      ensures r == if i + 1 < |Order()| then Order()[i + 1] else null
      ensures r != null ==> r in keys && r != node
    {
      hide low.At, TotalOrder, Sorted, IsRedBlack, Inorder;
      low.NotEmptyNode(node, i);
      r := low.Next(node, i);
      OrderDistinct();
      if r != null {
        InOrder(r);
      }
    }

    /** eaf_map_prev: the node before the one at place i, or null before the first. */
    method Prev(node: Node, ghost i: nat) returns (r: Node?)
      requires Valid() && i < |Order()| && Order()[i] == node
      ensures r == if i > 0 then Order()[i - 1] else null
    {
      hide low.At, TotalOrder, Sorted, IsRedBlack, Inorder;
      low.NotEmptyNode(node, i);
      r := low.Prev(node, i);
    }

    /** eaf_map_erase, for the first node. */
    method EraseFirst(node: Node)
      requires Valid() && Order() != [] && Order()[0] == node && node in keys
      modifies this`size, this`keys, low, low.nodes
      ensures Valid() && low.nodes == keys.Keys && keys == old(keys) - {node} && Order() == old(Order()[1..])
    {
      hide Valid, low.Valid, Order;
      Inside();
      ghost var s := Order();
      ghost var at := Erase(node);
      assert at == 0 && s[..0] + s[1..] == s[1..];
    }

    /** The loop with which the watchdog empties its maps: keep the next node, then erase the current one. */
    method Drain() returns (ghost visited: seq<Node>)
      requires Valid()
      modifies this`size, this`keys, low, low.nodes
      ensures Valid() && keys == map[] && size == 0
      ensures visited == old(Order())
    {
      hide Valid, low.Valid, Order;
      Inside();
      var node := Begin();
      visited := [];
      while node != null
        invariant Valid() && low.nodes == keys.Keys && keys.Keys <= old(keys).Keys
        invariant node == if Order() == [] then null else Order()[0]
        invariant node != null ==> node in keys
        invariant visited + Order() == old(Order())
        decreases |Order()|
      {
        var tmp: Node := node;
        Shift(visited, Order(), old(Order()));
        node := Next(node, 0);
        EraseFirst(tmp);
        visited := visited + [tmp];
      }
      Inside();
    }

    static lemma Shift(s: seq<Node>, u: seq<Node>, w: seq<Node>)
      requires s + u == w && u != []
      ensures (s + [u[0]]) + u[1..] == w
    {
    }

    lemma FirstLeast(n: Node)
      requires Valid() && n in keys
      ensures Order() != [] && Order()[0] in keys && cmp(keys[Order()[0]], keys[n]) <= 0
    {
      InOrder(n);
      Compare(cmp, keys[n], keys[n], keys[n]);
    }

    lemma Inside()
      requires Valid()
      ensures low.Valid() && low.nodes == keys.Keys && size == |Order()| && Order() == Inorder(low.tree)
      ensures Order() == [] ==> keys == map[]
      ensures forall i, j :: 0 <= i < j < |Order()| ==> Order()[i] != Order()[j]
    {
      OrderDistinct();
      if Order() == [] {
        low.NoNodes();
      }
    }
  }

  function CompareInt(a: int, b: int): int
  {
    if a == b then 0 else if a < b then -1 else 1
  }

  /**
   find_lower in a map that links one node, with key 1: asked for 2 it returns
   that node, and nothing is not less than 2.
   */
  method LowerMisses() returns (m: Map<int>, r: Node?)
    ensures m.Valid() && r != null && m.keys == map[r := 1] && m.cmp == CompareInt && !m.IsLeastNotBelow(2, r)
  {
    hide Map.Valid, Map.Order, TotalOrder;
    var n;
    m, n := OneKey();
    r := m.FindLower(2);
    OneBelow(m, n);
  }

  method OneKey() returns (m: Map<int>, n: Node)
    ensures m.Valid() && m.keys == map[n := 1] && m.cmp == CompareInt
  {
    hide Map.Valid, Map.Order, TotalOrder;
    IntOrder();
    m := new Map(CompareInt);
    n := new Node();
    var ret;
    ghost var at, cmps;
    ret, at, cmps := m.Insert(n, 1);
  }

  lemma OneBelow(m: Map<int>, n: Node)
    requires m.keys == map[n := 1] && m.cmp == CompareInt
    ensures n in m.keys && m.cmp(m.keys[n], 2) < 0 && !m.IsLeastNotBelow(2, n)
  {
  }

  lemma IntOrder()
    ensures TotalOrder(CompareInt)
  {
  }

  lemma Single(n: Node)
    ensures var t := Fork(Leaf, n, false, Leaf);
            Nodes(t) == {n} && Distinct(t) && Inorder(t) == [n] && NoRedRed(t) && HasBh(t, 1) && BlackHeight(t) == 1
  {
    assert Inorder(Leaf) == [];
  }

  /**
   find_upper is documented to return the first element greater than the key.
   In this red-black tree the search for the key of n2 stops at a node where
   the condition of FindUpper fails: it returns n4, although n3 comes first.
   */
  lemma UpperMissesSuccessor(n1: Node, n2: Node, n3: Node, n4: Node, n5: Node)
    requires n1 != n2 && n1 != n3 && n1 != n4 && n1 != n5
    requires n2 != n3 && n2 != n4 && n2 != n5 && n3 != n4 && n3 != n5 && n4 != n5
    ensures var t := Fork(Fork(Leaf, n1, false, Leaf), n2, true, Fork(Leaf, n3, false, Leaf));
            var c := InLeft(n4, false, Fork(Leaf, n5, false, Leaf), Top);
            && IsRedBlack(Plug(c, t)) && Apart(c, t) && Inorder(Plug(c, t)) == [n1, n2, n3, n4, n5]
            && CAfter(c) == [n4, n5] && !t.right.Leaf?
  {
    var l, r := Fork(Leaf, n1, false, Leaf), Fork(Leaf, n3, false, Leaf);
    var u, t := Fork(Leaf, n5, false, Leaf), Fork(l, n2, true, r);
    Single(n1);
    Single(n3);
    Single(n5);
    assert NoRedRed(t);
    assert HasBh(t, 1) && BlackHeight(t) == 1;
    assert Inorder(t) == [n1, n2, n3];
    var x := Fork(t, n4, false, u);
    assert HasBh(x, 2) && BlackHeight(x) == 2;
  }
}
