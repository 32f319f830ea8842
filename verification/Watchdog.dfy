/**
 The three indexes of powerpack watchdog.c. A record waits in the idle map
 until its heartbeat is due, then in two busy maps until the response comes,
 and is dropped when its heartbeat cannot be sent.
 */
module Watchdog {
  import opened Trees
  import opened Errno
  import opened Clock
  import opened Wrappers
  import M = Map

  /** An entry of the watch list. */
  datatype Watch = Watch(sid: Uint32, interval: Uint32, timeout: Uint32, jitter: Uint32)

  /**
   eaf_watchdog_record_t: its two map nodes, its times, its error count; token
   and watch list entry have its index.
   */
  datatype Record = Record(stack: Node, table: Node, begin: Time, end: Time, cerrc: nat, watch: Watch)

  datatype BeginKey = BeginKey(begin: Time, sid: Uint32)

  datatype EndKey = EndKey(end: Time, rec: nat)

  function CompareBegin(a: BeginKey, b: BeginKey): int
  {
    if Compare(a.begin, b.begin) != 0 then Compare(a.begin, b.begin) else M.CompareInt(a.sid, b.sid)
  }

  function CompareEnd(a: EndKey, b: EndKey): int
  {
    if Compare(a.end, b.end) != 0 then Compare(a.end, b.end) else M.CompareInt(a.rec, b.rec)
  }

  const TWO_31 := 0x8000_0000

  type Int32 = x: int | -TWO_31 <= x < TWO_31

  /** The tokens that are given out: the places of the watch list, which an int counts. */
  type Token = x: int | 0 <= x < TWO_31

  /** A subtraction of 32-bit integers, which may wrap. */
  function Minus(a: Int32, b: Int32): Int32
  {
    if a - b < -TWO_31 then a - b + TWO_32 else if a - b >= TWO_31 then a - b - TWO_32 else a - b
  }

  function CompareToken(a: Token, b: Token): int
  {
    Minus(a, b)
  }

  /** The comparators are total orders on the keys that are linked, and equal only on equal keys. */
  lemma Orders()
    ensures M.TotalOrder(CompareBegin) && M.TotalOrder(CompareEnd) && M.TotalOrder(CompareToken)
    ensures forall a, b :: CompareBegin(a, b) == 0 <==> a == b
    ensures forall a, b :: CompareEnd(a, b) == 0 <==> a == b
    ensures forall a, b :: CompareToken(a, b) == 0 <==> a == b
    ensures forall a, b ::
              CompareBegin(a, b) < 0 <==> Earlier(a.begin, b.begin) || (a.begin == b.begin && a.sid < b.sid)
    ensures forall a, b :: CompareEnd(a, b) < 0 <==> Earlier(a.end, b.end) || (a.end == b.end && a.rec < b.rec)
    ensures forall a, b :: CompareToken(a, b) < 0 <==> a < b
  {
  }

  /** The order of two clocks, by their fields. */
  predicate Earlier(a: Time, b: Time)
  {
    a.sec < b.sec || (a.sec == b.sec && a.nsec < b.nsec)
  }

  /**
   On all tokens that a message may carry the subtraction tells equal tokens,
   but its sign is that of their order only when it does not wrap.
   */
  lemma TokenSign(a: Int32, b: Int32)
    ensures Minus(a, b) == 0 <==> a == b
    ensures (Minus(a, b) < 0 <==> a < b) <==> -TWO_31 <= a - b < TWO_31
  {
  }

  /** With such tokens it is not even transitive. */
  lemma TokenCycle()
    ensures var a, b, c := -TWO_31, -1, TWO_31 - 1; Minus(a, b) < 0 && Minus(b, c) < 0 && Minus(c, a) < 0
  {
  }

  // ---------- Which record is where ----------

  /**
   The records and the keys under which the three maps link their nodes. owner
   stands for EAF_CONTAINER_OF: it leads from the nodes of a record to its index.
   */
  datatype Index = Index(records: seq<Record>, owner: map<Node, nat>,
                         idle: map<Node, BeginKey>, busy: map<Node, EndKey>, table: map<Node, int>)

  function BeginOf(r: Record): BeginKey
  {
    BeginKey(r.begin, r.watch.sid)
  }

  predicate IsIdle(x: Index, i: nat)
    requires i < |x.records|
  {
    var r := x.records[i];
    r.stack in x.idle && x.idle[r.stack] == BeginOf(r) && r.stack !in x.busy && r.table !in x.table
  }

  predicate IsBusy(x: Index, i: nat)
    requires i < |x.records|
  {
    var r := x.records[i];
    && r.stack !in x.idle && r.end.Normalised()
    && r.stack in x.busy && x.busy[r.stack] == EndKey(r.end, i)
    && r.table in x.table && x.table[r.table] == i
  }

  predicate IsDropped(x: Index, i: nat)
    requires i < |x.records|
  {
    var r := x.records[i];
    r.stack !in x.idle && r.stack !in x.busy && r.table !in x.table
  }

  ghost predicate OwnedBy(records: seq<Record>, owner: map<Node, nat>)
  {
    && (forall i :: 0 <= i < |records| ==>
          && records[i].stack in owner && owner[records[i].stack] == i
          && records[i].table in owner && owner[records[i].table] == i
          && records[i].stack != records[i].table)
    && (forall n :: n in owner ==> owner[n] < |records|)
  }

  ghost predicate Owned(x: Index)
  {
    OwnedBy(x.records, x.owner)
  }

  ghost predicate Placed(x: Index)
  {
    forall i :: 0 <= i < |x.records| ==> IsIdle(x, i) || IsBusy(x, i) || IsDropped(x, i)
  }

  /** The maps link the right nodes of the records only. */
  ghost predicate Closed(x: Index)
  {
    && (forall n :: n in x.idle ==> n in x.owner && x.owner[n] < |x.records| && n == x.records[x.owner[n]].stack)
    && (forall n :: n in x.busy ==> n in x.owner && x.owner[n] < |x.records| && n == x.records[x.owner[n]].stack)
    && (forall n :: n in x.table ==> n in x.owner && x.owner[n] < |x.records| && n == x.records[x.owner[n]].table)
  }

  ghost predicate DistinctSids(records: seq<Record>)
  {
    forall i, j :: 0 <= i < j < |records| ==> records[i].watch.sid != records[j].watch.sid
  }

  /**
   Every record is idle, busy or dropped, the maps hold nothing else, and the
   keys under which it is linked are current.
   */
  ghost predicate Agree(x: Index)
  {
    Owned(x) && Placed(x) && Closed(x) && DistinctSids(x.records)
  }

  /** The map changes at n at most. */
  ghost predicate Only<V>(m: map<Node, V>, m': map<Node, V>, n: Node)
  {
    forall x: Node :: x in m.Keys + m'.Keys && x != n ==> x in m && x in m' && m[x] == m'[x]
  }

  /** Record i and its links are the same in x and y. */
  predicate Unmoved(x: Index, y: Index, i: nat)
    requires i < |x.records| && i < |y.records|
  {
    var r := x.records[i];
    && y.records[i] == r
    && (r.stack in x.idle <==> r.stack in y.idle) && (r.stack in x.idle ==> x.idle[r.stack] == y.idle[r.stack])
    && (r.stack in x.busy <==> r.stack in y.busy) && (r.stack in x.busy ==> x.busy[r.stack] == y.busy[r.stack])
    && (r.table in x.table <==> r.table in y.table) && (r.table in x.table ==> x.table[r.table] == y.table[r.table])
  }

  /** From x to y the record i moves, and nothing else. */
  ghost predicate Moves(x: Index, y: Index, i: nat)
  {
    && i < |x.records| == |y.records| && y.owner == x.owner && y.records == x.records[i := y.records[i]]
    && y.records[i].stack == x.records[i].stack && y.records[i].table == x.records[i].table
    && y.records[i].watch == x.records[i].watch
    && Only(x.idle, y.idle, x.records[i].stack) && Only(x.busy, y.busy, x.records[i].stack)
    && Only(x.table, y.table, x.records[i].table)
  }

  lemma Elsewhere(x: Index, y: Index, i: nat, j: nat)
    requires Owned(x) && Moves(x, y, i) && j < |x.records| && i != j
    ensures Unmoved(x, y, j)
  {
    assert x.records[j].stack != x.records[i].stack && x.records[j].table != x.records[i].table;
  }

  lemma OwnedAfter(x: Index, y: Index, i: nat)
    requires Owned(x) && DistinctSids(x.records) && Moves(x, y, i)
    ensures Owned(y) && DistinctSids(y.records)
  {
  }

  lemma ClosedAfter(x: Index, y: Index, i: nat)
    requires Owned(x) && Closed(x) && Moves(x, y, i)
    ensures Closed(y)
  {
  }

  lemma StaysPut(x: Index, y: Index, i: nat)
    requires i < |x.records| == |y.records| && Unmoved(x, y, i)
    ensures IsIdle(x, i) <==> IsIdle(y, i)
    ensures IsBusy(x, i) <==> IsBusy(y, i)
    ensures IsDropped(x, i) <==> IsDropped(y, i)
  {
  }

  /** When one record moves to a proper place, the others stay where they are, and the indexes agree again. */
  lemma OneMoves(x: Index, y: Index, i: nat)
    requires Agree(x) && Moves(x, y, i) && (IsIdle(y, i) || IsBusy(y, i) || IsDropped(y, i))
    ensures Agree(y)
  {
    hide IsIdle, IsBusy, IsDropped, Closed, DistinctSids, Owned, Unmoved;
    OwnedAfter(x, y, i);
    ClosedAfter(x, y, i);
    forall j | 0 <= j < |y.records|
      ensures IsIdle(y, j) || IsBusy(y, j) || IsDropped(y, j)
    {
      if j != i {
        Elsewhere(x, y, i, j);
        StaysPut(x, y, j);
      }
    }
  }

  /** The nodes of a record are its own, and of the right kind for each map. */
  lemma AgreeNodes(x: Index, i: nat)
    requires Agree(x) && i < |x.records|
    ensures var r := x.records[i];
            && r.stack in x.owner && x.owner[r.stack] == i && r.table in x.owner && x.owner[r.table] == i
            && r.stack != r.table
            && r.stack !in x.table && r.table !in x.idle && r.table !in x.busy
    ensures x.idle.Keys <= x.owner.Keys && x.busy.Keys <= x.owner.Keys && x.table.Keys <= x.owner.Keys
  {
  }

  lemma CompareSame()
    ensures forall a, b :: Compare(a, b) == 0 <==> a == b
  {
  }

  /** Neither key of a dropped record is taken in the busy maps. */
  lemma BusyKeysFree(x: Index, i: nat)
    requires Agree(x) && i < |x.records| && IsDropped(x, i)
    ensures forall n :: n in x.busy ==> CompareEnd(EndKey(x.records[i].end, i), x.busy[n]) != 0
    ensures forall n :: n in x.table ==> i != x.table[n]
  {
    hide Owned, DistinctSids, Compare;
    CompareSame();
    forall n | n in x.busy
      ensures CompareEnd(EndKey(x.records[i].end, i), x.busy[n]) != 0
    {
      assert IsBusy(x, x.owner[n]);
    }
    forall n | n in x.table
      ensures i != x.table[n]
    {
      assert IsBusy(x, x.owner[n]);
    }
  }

  /** The key of a dropped record is not taken in the idle map, because no other record watches its service. */
  lemma IdleKeyFree(x: Index, i: nat)
    requires Agree(x) && i < |x.records| && IsDropped(x, i)
    ensures forall n :: n in x.idle ==> CompareBegin(BeginOf(x.records[i]), x.idle[n]) != 0
  {
    hide Owned, Compare;
    CompareSame();
    forall n | n in x.idle
      ensures CompareBegin(BeginOf(x.records[i]), x.idle[n]) != 0
    {
      assert IsIdle(x, x.owner[n]);
    }
  }

  lemma EmptyAgrees()
    ensures Agree(Index([], map[], map[], map[], map[]))
  {
  }

  /** The index after the idle record i, now r, has left the idle map. */
  function OutOfIdle(x: Index, i: nat, r: Record): Index
    requires i < |x.records|
  {
    x.(records := x.records[i := r], idle := x.idle - {r.stack})
  }

  function IntoBusy(x: Index, i: nat): Index
    requires i < |x.records|
  {
    var r := x.records[i];
    x.(busy := x.busy[r.stack := EndKey(r.end, i)], table := x.table[r.table := i])
  }

  function OutOfBusy(x: Index, i: nat, r: Record): Index
    requires i < |x.records|
  {
    x.(records := x.records[i := r], busy := x.busy - {r.stack}, table := x.table - {r.table})
  }

  function IntoIdle(x: Index, i: nat): Index
    requires i < |x.records|
  {
    x.(idle := x.idle[x.records[i].stack := BeginOf(x.records[i])])
  }

  predicate SameNodes(r: Record, r': Record)
  {
    r'.stack == r.stack && r'.table == r.table && r'.watch == r.watch
  }

  /** A due heartbeat may be dropped or sent, and both busy maps would take it. */
  lemma SendAgrees(x: Index, i: nat, r: Record)
    requires Agree(x) && i < |x.records| && x.records[i].stack in x.idle && SameNodes(x.records[i], r)
             && r.end.Normalised()
    ensures var y := OutOfIdle(x, i, r);
            && Agree(y) && IsDropped(y, i)
            && (forall n :: n in y.busy ==> CompareEnd(EndKey(r.end, i), y.busy[n]) != 0)
            && (forall n :: n in y.table ==> i != y.table[n])
            && Agree(IntoBusy(y, i)) && IsBusy(IntoBusy(y, i), i)
            && Moves(x, y, i) && Moves(x, IntoBusy(y, i), i)
  {
    hide Owned, Closed, DistinctSids;
    var y := OutOfIdle(x, i, r);
    assert IsIdle(x, i);
    OneMoves(x, y, i);
    BusyKeysFree(y, i);
    OneMoves(x, IntoBusy(y, i), i);
  }

  /** An answered heartbeat leaves both busy maps, and the idle map would take it. */
  lemma AnswerAgrees(x: Index, i: nat, r: Record)
    requires Agree(x) && i < |x.records| && x.records[i].table in x.table && SameNodes(x.records[i], r)
    ensures IsBusy(x, i)
    ensures var y := OutOfBusy(x, i, r);
            && Agree(y) && IsDropped(y, i)
            && (forall n :: n in y.idle ==> CompareBegin(BeginOf(r), y.idle[n]) != 0)
            && Agree(IntoIdle(y, i)) && IsIdle(IntoIdle(y, i), i)
            && Moves(x, IntoIdle(y, i), i)
  {
    hide Owned, Closed, DistinctSids;
    var y := OutOfBusy(x, i, r);
    assert IsBusy(x, i);
    OneMoves(x, y, i);
    IdleKeyFree(y, i);
    OneMoves(x, IntoIdle(y, i), i);
  }

  // ---------- The service ----------

  class Watchdog {
    const idle: M.Map<BeginKey>
    const busy: M.Map<EndKey>
    const table: M.Map<Token>
    var active: bool
    var records: seq<Record>
    var owner: map<Node, nat>

    constructor ()
      ensures Linked() && Agree(View()) && !active && records == [] && idle.keys == map[] && busy.keys == map[]
              && table.keys == map[]
    {
      hide M.Map.Valid, M.Map.Order, Agree, M.TotalOrder, CompareBegin, CompareEnd, CompareToken;
      Orders();
      idle := new M.Map(CompareBegin);
      busy := new M.Map(CompareEnd);
      table := new M.Map<Token>(CompareToken);
      active, records, owner := false, [], map[];
      new;
      assert View() == Index([], map[], map[], map[], map[]);
      EmptyAgrees();
    }

    /** The three maps are valid, and no two of them share anything. */
    ghost predicate Linked()
      reads idle, idle.low, idle.low.nodes, busy, busy.low, busy.low.nodes, table, table.low, table.low.nodes
    {
      && idle.Valid() && busy.Valid() && table.Valid()
      && idle.cmp == CompareBegin && busy.cmp == CompareEnd && table.cmp == CompareToken
      && Separate()
    }

    ghost predicate Separate()
      reads idle, idle.low, busy, busy.low, table, table.low
    {
      && (idle as object) != busy && (idle as object) != table && (busy as object) != table
      && idle.low != busy.low && idle.low != table.low && busy.low != table.low
      && idle.low.nodes !! busy.low.nodes && idle.low.nodes !! table.low.nodes && busy.low.nodes !! table.low.nodes
      && idle.low.nodes == idle.keys.Keys && busy.low.nodes == busy.keys.Keys && table.low.nodes == table.keys.Keys
    }

    function View(): Index
      reads this`records, this`owner, idle, busy, table
    {
      Index(records, owner, idle.keys, busy.keys, table.keys)
    }

    ghost predicate Valid()
      reads this`records, this`owner, idle, idle.low, idle.low.nodes, busy, busy.low, busy.low.nodes, table,
            table.low, table.low.nodes
    {
      Linked() && Agree(View()) && |records| <= TWO_31
    }

    /** eaf_map_erase on the idle map, for its first node. */
    method EraseIdle(n: Node)
      requires Linked() && idle.Order() != [] && idle.Order()[0] == n && n in idle.keys
      modifies idle, idle.low, idle.low.nodes
      ensures Linked() && idle.keys == old(idle.keys) - {n}
      ensures idle.Order() == old(idle.Order()[1..])
    {
      hide idle.Valid, idle.Order;
      idle.EraseFirst(n);
    }

    /** eaf_map_insert into the idle map. */
    method TryIdle(n: Node, key: BeginKey) returns (done: bool)
      requires Linked() && n !in idle.keys && n !in busy.keys && n !in table.keys
      modifies idle, idle.low, idle.low.nodes, n
      ensures Linked() && done == forall m :: m in old(idle.keys) ==> CompareBegin(key, old(idle.keys)[m]) != 0
      ensures idle.keys == if done then old(idle.keys)[n := key] else old(idle.keys)
    {
      hide idle.Valid, idle.Order;
      var ret;
      ghost var at, cmps;
      ret, at, cmps := idle.Insert(n, key);
      done := ret == SUCCESS;
    }

    /** eaf_map_insert into the busy map, where the key is free. */
    method LinkStack(n: Node, key: EndKey)
      requires Linked() && n !in idle.keys && n !in busy.keys && n !in table.keys
      requires forall m :: m in busy.keys ==> CompareEnd(key, busy.keys[m]) != 0
      modifies busy, busy.low, busy.low.nodes, n
      ensures Linked() && busy.keys == old(busy.keys)[n := key]
    {
      hide idle.Valid, idle.Order;
      var ret;
      ghost var at, cmps;
      ret, at, cmps := busy.Insert(n, key);
      assert ret == SUCCESS;
    }

    /** eaf_map_insert into the map of tokens, where the token is free. */
    method LinkTable(n: Node, token: Token)
      requires Linked() && n !in idle.keys && n !in busy.keys && n !in table.keys
      requires forall m :: m in table.keys ==> token != table.keys[m]
      modifies table, table.low, table.low.nodes, n
      ensures Linked() && table.keys == old(table.keys)[n := token]
    {
      hide idle.Valid, idle.Order;
      var ret;
      ghost var at, cmps;
      ret, at, cmps := table.Insert(n, token);
      assert ret == SUCCESS;
    }

    /** eaf_map_erase on both busy maps. */
    method EraseBusy(n: Node, m: Node)
      requires Linked() && n in busy.keys && m in table.keys
      modifies busy, busy.low, busy.low.nodes, table, table.low, table.low.nodes
      ensures Linked() && busy.keys == old(busy.keys) - {n} && table.keys == old(table.keys) - {m}
    {
      hide idle.Valid, idle.Order;
      ghost var at := table.Erase(m);
      at := busy.Erase(n);
    }

    lemma LinkedNodes()
      requires Linked()
      ensures Separate() && idle.Valid() && busy.Valid() && table.Valid() && table.cmp == CompareToken
    {
      hide idle.Valid;
    }

    method EndOf(now: Time, timeout: Uint32) returns (end: Time)
      ensures end == Wrapped(now.Total() + timeout * 1_000_000)
    {
      hide Wrapped, Fits;
      var dif := new Clock(0, 0);
      var ret := AddClockMsec(dif, timeout);
      SmallFits(timeout);
      var begin := new Clock(now.sec, now.nsec);
      var sum := new Clock(0, 0);
      ret := AddClockExt(sum, begin, dif, true);
      end := sum.Value();
    }

    /**
     The heartbeat of record i, the first in the idle map, is sent; whether the
     send succeeds is not determined here.
     */
    method Send(i: nat, now: Time) returns (ok: bool)
      requires Valid() && i < |records| && idle.Order() != [] && records[i].stack == idle.Order()[0]
               && records[i].stack in idle.keys
      modifies this`records, idle, idle.low, busy, busy.low, table, table.low, owner.Keys
      ensures Valid() && idle.Order() == old(idle.Order()[1..])
      ensures var y := OutOfIdle(old(View()), i, Sent(old(records)[i], now));
              View() == if ok then IntoBusy(y, i) else y
      ensures Awaits(old(records)[i], records[i], now) && records == old(records)[i := records[i]]
      ensures var r := records[i];
              && idle.keys == old(idle.keys) - {r.stack}
              && busy.keys == (if ok then old(busy.keys)[r.stack := EndKey(r.end, i)] else old(busy.keys))
              && table.keys == (if ok then old(table.keys)[r.table := i] else old(table.keys))
    {
      hide idle.Valid, idle.Order, Linked, Agree, OutOfIdle, IntoBusy, Sent;
      SentAwaits(records[i], now);
      SentIndex(View(), i, Sent(records[i], now));
      ok := SendRecord(i, now);
    }

    method SendRecord(i: nat, now: Time) returns (ok: bool)
      requires Valid() && i < |records| && idle.Order() != [] && records[i].stack == idle.Order()[0]
               && records[i].stack in idle.keys
      modifies this`records, idle, idle.low, busy, busy.low, table, table.low, owner.Keys
      ensures Valid() && idle.Order() == old(idle.Order()[1..])
      ensures var y := OutOfIdle(old(View()), i, Sent(old(records)[i], now));
              View() == if ok then IntoBusy(y, i) else y
    {
      hide idle.Valid, idle.Order, Linked, Agree, IsIdle, IsBusy, IsDropped, Moves, Wrapped, CompareEnd, CompareToken;
      var r := records[i];
      LinkedNodes();
      AgreeNodes(View(), i);
      SendAgrees(View(), i, Sent(r, now));
      DroppedNodes(OutOfIdle(View(), i, Sent(r, now)), i);
      EraseIdle(r.stack);
      var end := EndOf(now, r.watch.timeout);
      records := records[i := Sent(r, now)];
      ok := *;
      if ok {
        LinkStack(r.stack, EndKey(end, i));
        LinkTable(r.table, i);
      }
    }

    lemma DroppedNodes(x: Index, i: nat)
      requires i < |x.records| && IsDropped(x, i)
      ensures x.records[i].stack !in x.idle && x.records[i].stack !in x.busy && x.records[i].table !in x.table
    {
    }

    /**
     _watchdog_check_idle. The heartbeats that are due are sent, in the order
     of their times, and no others; sent lists their nodes.
     */
    method CheckIdle(now: Time) returns (ghost sent: seq<Node>)
      requires Valid()
      modifies this`records, idle, idle.low, busy, busy.low, table, table.low, owner.Keys
      ensures Valid() && |records| == |old(records)|
      ensures forall i :: 0 <= i < |records| ==> !Due(View(), i, now) && After(old(View()), View(), i, now)
      ensures old(idle.Order()) == sent + idle.Order()
      ensures forall i :: 0 <= i < |records| ==> (Due(old(View()), i, now) <==> old(records)[i].stack in sent)
      ensures M.Sorted(sent, old(idle.keys), CompareBegin)
      ensures forall i :: 0 <= i < |records| ==>
                if old(records)[i].stack in sent then Awaits(old(records)[i], records[i], now)
                else Unmoved(old(View()), View(), i)
    {
      hide idle.Valid, idle.Order, Linked, Agree, After, Compare, Due, Sending, M.Sorted;
      LinkedNodes();
      ghost var x0, s0 := View(), idle.Order();
      IdleOrder();
      StartSending(now);
      var it := idle.Begin();
      sent := [];
      while it != null
        invariant Valid() && owner == x0.owner && Sending(x0, s0, sent, now)
        invariant it == if idle.Order() == [] then null else idle.Order()[0]
        invariant it != null ==> it in idle.keys
        decreases |idle.Order()|
      {
        LinkedNodes();
        IdleNode(View(), it);
        if Compare(now, records[owner[it]].begin) < 0 {
          NoneDue(owner[it], now);
          break;
        }
        var tmp: Node := it;
        it := idle.Next(it, 0);
        SendDue(tmp, now, x0, s0, sent);
        sent := sent + [tmp];
      }
      if it == null {
        NothingDue(now);
      }
      DueWereSent(x0, s0, sent, now);
    }

    /** Since x0, with idle records in the order s0, the records in sent were due and have been sent or dropped. */
    ghost predicate Sending(x0: Index, s0: seq<Node>, sent: seq<Node>, now: Time)
      reads this`records, this`owner, idle, idle.low, busy, table
    {
      && |records| == |x0.records| && owner == x0.owner && s0 == sent + idle.Order() && AllDue(x0, sent, now)
      && forall i :: 0 <= i < |records| ==> After(x0, View(), i, now)
    }

    lemma StartSending(now: Time)
      ensures Sending(View(), idle.Order(), [], now)
    {
      hide After, idle.Order;
      forall i | 0 <= i < |records|
        ensures After(View(), View(), i, now)
      {
        Stayed(View(), i, now);
      }
    }

    /** The loop body of _watchdog_check_idle, for the first idle record. */
    method SendDue(n: Node, now: Time, ghost x0: Index, ghost s0: seq<Node>, ghost sent: seq<Node>)
      requires Valid() && Sending(x0, s0, sent, now) && idle.Order() != [] && idle.Order()[0] == n && n in idle.keys
      requires n in owner && owner[n] < |records| && records[owner[n]].stack == n
               && Compare(now, records[owner[n]].begin) >= 0
      modifies this`records, idle, idle.low, busy, busy.low, table, table.low, owner.Keys
      ensures Valid() && owner == old(owner) && Sending(x0, s0, sent + [n], now)
      ensures idle.Order() == old(idle.Order()[1..]) && (idle.Order() != [] ==> idle.Order()[0] in idle.keys)
    {
      hide idle.Valid, idle.Order, Linked, Agree, After, Wrapped, IsBusy, IsIdle, IsDropped, Unmoved, Compare, AllDue;
      ghost var x := View();
      SentIsDue(x0, x, sent, owner[n], now);
      M.Map<BeginKey>.Shift(sent, idle.Order(), s0);
      var ok := Send(owner[n], now);
      forall j | 0 <= j < |records|
        ensures After(x0, View(), j, now)
      {
        AfterSend(x0, x, owner[n], j, now, ok);
      }
      IdleOrder();
    }

    lemma IdleOrder()
      requires Linked()
      ensures forall n :: n in idle.keys <==> n in idle.Order()
      ensures M.Sorted(idle.Order(), idle.keys, CompareBegin)
    {
      hide M.Sorted, idle.Order;
      forall n
        ensures n in idle.keys <==> n in idle.Order()
      {
        idle.InOrder(n);
      }
    }

    /** When no idle record is due any more, the sent ones are those that were due, in order. */
    lemma DueWereSent(x0: Index, s0: seq<Node>, sent: seq<Node>, now: Time)
      requires Linked() && Agree(x0) && Sending(x0, s0, sent, now) && (forall n :: n in x0.idle ==> n in s0)
      requires M.Sorted(s0, x0.idle, CompareBegin) && forall i :: 0 <= i < |records| ==> !Due(View(), i, now)
      ensures s0 == sent + idle.Order() && M.Sorted(sent, x0.idle, CompareBegin) && |records| == |x0.records|
      ensures forall i :: 0 <= i < |records| ==> After(x0, View(), i, now)
      ensures forall i :: 0 <= i < |records| ==> (Due(x0, i, now) <==> x0.records[i].stack in sent)
      ensures forall i :: 0 <= i < |records| ==>
                if x0.records[i].stack in sent then Awaits(x0.records[i], records[i], now)
                else Unmoved(x0, View(), i)
    {
      hide Compare, CompareBegin, Linked, Agree, idle.Order;
      IdleOrder();
      assert forall k :: 0 <= k < |sent| ==> sent[k] == s0[k];
      forall i | 0 <= i < |records|
        ensures Due(x0, i, now) <==> x0.records[i].stack in sent
        ensures if Due(x0, i, now) then Awaits(x0.records[i], records[i], now) else Unmoved(x0, View(), i)
      {
        AfterEither(x0, View(), i, now);
        AgreeNodes(x0, i);
        StillIdle(x0, View(), i, now);
      }
    }

    /** The first idle record is not due, so none is. */
    lemma NoneDue(i: nat, now: Time)
      requires Valid() && i < |records| && idle.Order() != [] && idle.Order()[0] == records[i].stack
      requires Compare(now, records[i].begin) < 0
      ensures forall j :: 0 <= j < |records| ==> !Due(View(), j, now)
    {
      hide idle.Valid, idle.Order, Compare;
      CompareChain();
      forall j | 0 <= j < |records|
        ensures !Due(View(), j, now)
      {
        if records[j].stack in idle.keys {
          idle.FirstLeast(records[j].stack);
          assert IsIdle(View(), j) && IsIdle(View(), i);
        }
      }
    }

    lemma NothingDue(now: Time)
      requires Valid() && idle.Order() == []
      ensures forall j :: 0 <= j < |records| ==> !Due(View(), j, now)
    {
      hide idle.Valid, idle.Order, Agree;
      idle.Inside();
    }

    /** _watchdog_find_record_by_token. */
    method FindByToken(token: Int32) returns (found: bool, i: nat)
      requires Valid()
      ensures found <==> 0 <= token < |records| && records[token].table in table.keys
      ensures found ==> i == token
    {
      hide idle.Valid, idle.Order, Linked, Agree;
      LinkedNodes();
      ghost var key: Option<Token> := if token >= 0 then Some(token) else None;
      var node;
      ghost var cmps;
      node, cmps := table.FindWith((k: Token) => Minus(token, k), key);
      TokenNode(View(), token, node);
      found := node != null;
      i := if found then owner[node] else 0;
    }

    /**
     _watchdog_on_heartbeat_rsp. The source asserts that the record is found: it
     is, exactly when the token is the one of an outstanding heartbeat, and the
     program ends otherwise.
     */
    method OnHeartbeatRsp(token: Int32, now: Time) returns (found: bool, reported: bool)
      requires Valid()
      modifies this`records, idle, idle.low, busy, busy.low, table, table.low, owner.Keys
      ensures Valid() && (found <==> 0 <= token < |old(records)| && old(records)[token].table in old(table.keys))
      ensures !found ==> View() == old(View()) && !reported
      ensures found ==>
                && |records| == |old(records)| && IsBusy(old(View()), token) && IsIdle(View(), token)
                && View() == IntoIdle(OutOfBusy(old(View()), token, Answered(old(records)[token], now)), token)
                && reported == (records[token].cerrc > records[token].watch.jitter)
      ensures found ==>
                var r := records[token];
                && Rests(old(records)[token], r, now) && records == old(records)[token := r]
                && idle.keys == old(idle.keys)[r.stack := BeginKey(r.begin, r.watch.sid)]
                && busy.keys == old(busy.keys) - {r.stack} && table.keys == old(table.keys) - {r.table}
    {
      hide idle.Valid, idle.Order, Linked, Agree, IsIdle, IsBusy, OutOfBusy, IntoIdle, Answered, Rests;
      var i;
      found, i := FindByToken(token);
      reported := false;
      if found {
        BusyAt(View(), i);
        AnsweredRests(records[i], now);
        AnsweredIndex(View(), i, Answered(records[i], now));
        reported := Answer(i, now);
      }
    }

    /** The rest of it, for the record that is found. */
    method Answer(i: nat, now: Time) returns (reported: bool)
      requires Valid() && i < |records| && IsBusy(View(), i)
      modifies this`records, idle, idle.low, busy, busy.low, table, table.low, owner.Keys
      ensures Valid() && |records| == |old(records)| && IsIdle(View(), i)
      ensures View() == IntoIdle(OutOfBusy(old(View()), i, Answered(old(records)[i], now)), i)
      ensures reported == (records[i].cerrc > records[i].watch.jitter)
    {
      hide idle.Valid, idle.Order, Linked, Agree, IsIdle, IsBusy, IsDropped, Moves, Restart, CompareBegin, Compare;
      LinkedNodes();
      var r := records[i];
      ghost var y := OutOfBusy(View(), i, Answered(r, now));
      AgreeNodes(View(), i);
      BusyNodes(View(), i);
      AnswerAgrees(View(), i, Answered(r, now));
      DroppedNodes(y, i);
      EraseBusy(r.stack, r.table);
      var cerrc := if Compare(now, r.end) > 0 then r.cerrc + 1 else 0;
      reported := cerrc > r.watch.jitter;
      var begin := Restarted(now, r.watch.interval);
      records := records[i := r.(begin := begin, cerrc := cerrc)];
      assert View() == y;
      var done := TryIdle(r.stack, BeginOf(records[i]));
      assert done;
    }

    /** The time of the next heartbeat; an addition that overflows leaves the time as it is. */
    method Restarted(now: Time, interval: Uint32) returns (begin: Time)
      ensures begin == Restart(now, interval)
    {
      hide Wrapped, Fits;
      var clock := new Clock(now.sec, now.nsec);
      var ret := AddClockMsec(clock, interval);
      begin := clock.Value();
    }

    /**
     _watchdog_check_busy. Its loop looks at the busy records whose end has
     passed, in order, but compares that end with itself and a delay added, so
     it reports no service: right exactly when no record is late.
     */
    method CheckBusy(now: Time) returns (reports: seq<nat>, ghost looked: seq<Node>)
      requires Valid()
      ensures reports == []
      ensures (forall i :: i in reports <==> i in LateRecords(View(), now)) <==> LateRecords(View(), now) == {}
      ensures looked <= busy.Order()
      ensures forall i :: 0 <= i < |records| ==> (records[i].stack in looked <==> Ended(View(), i, now))
      ensures now.Normalised() ==> forall i :: i in LateRecords(View(), now) ==> records[i].stack in looked
    {
      hide idle.Valid, idle.Order, Linked, Agree, Wrapped, Fits, Compare, IsBusy, LateRecords, Ended, AllEnded;
      LinkedNodes();
      busy.Inside();
      var it := busy.Begin();
      ghost var at := 0;
      reports, looked := [], [];
      NoneEnded(View(), now);
      while it != null
        invariant at <= |busy.Order()| && it == if at < |busy.Order()| then busy.Order()[at] else null
        invariant it != null ==> it in busy.keys
        invariant reports == [] && looked == busy.Order()[..at] && AllEnded(View(), looked, now)
        decreases |busy.Order()| - at
      {
        BusyNode(View(), it);
        var i := owner[it];
        var r := records[i];
        if Compare(now, r.end) < 0 {
          break;
        }
        var over := PastGrace(r);
        if over {
          reports := reports + [i];
        }
        MoreEnded(View(), looked, it, now);
        looked := looked + [it];
        it := busy.Next(it, at);
        at := at + 1;
      }
      AllLooked(at, now);
      NoneLate(View(), now);
    }

    /** The comparison that decides on a report. */
    method PastGrace(r: Record) returns (over: bool)
      requires r.end.Normalised()
      ensures !over
    {
      hide Wrapped, Fits, Compare;
      var cmp := new Clock(r.end.sec, r.end.nsec);
      var ret := AddClockMsec(cmp, r.watch.timeout * r.watch.jitter % TWO_32);
      NotEarlier(r.end, r.watch.timeout * r.watch.jitter % TWO_32, cmp.Value());
      over := Compare(r.end, cmp.Value()) > 0;
    }

    /**
     The busy nodes are in the order of their ends, so the ones before the first
     whose end is to come are all that ended.
     */
    lemma AllLooked(at: nat, now: Time)
      requires Valid() && at <= |busy.Order()| && AllEnded(View(), busy.Order()[..at], now)
      requires at < |busy.Order()| ==>
                 busy.Order()[at] in busy.keys && Compare(now, busy.keys[busy.Order()[at]].end) < 0
      ensures forall i :: 0 <= i < |records| ==> (records[i].stack in busy.Order()[..at] <==> Ended(View(), i, now))
    {
      hide Agree, Compare;
      CompareChain();
      var s := busy.Order();
      forall i | 0 <= i < |records|
        ensures records[i].stack in s[..at] <==> Ended(View(), i, now)
      {
        var n := records[i].stack;
        BusyStack(View(), i);
        busy.InOrder(n);
        if n in busy.keys {
          var k :| 0 <= k < |s| && s[k] == n;
          assert k > at ==> CompareEnd(busy.keys[s[at]], busy.keys[s[k]]) < 0;
        }
      }
    }

    /** The records of the watch list, with their nodes. */
    method Allocate(list: seq<Watch>)
      modifies this`records, this`owner
      ensures OwnedBy(records, owner) && |records| == |list| && fresh(owner.Keys)
      ensures forall i :: 0 <= i < |list| ==> Fresh(records[i], list[i])
    {
      hide OwnedBy;
      OwnedNone();
      records, owner := [], map[];
      for i := 0 to |list|
        invariant OwnedBy(records, owner) && |records| == i && fresh(owner.Keys)
        invariant forall j :: 0 <= j < i ==> Fresh(records[j], list[j])
      {
        var stack := new Node();
        var node := new Node();
        var r := Record(stack, node, Time(0, 0), Time(0, 0), 0, list[i]);
        OwnedMore(records, owner, r);
        records := records + [r];
        owner := owner[stack := i][node := i];
      }
    }

    /**
     eaf_watchdog_init; registered is the result of eaf_register. It fails with
     a duplicate of its own when it is active, or when two entries of the list
     watch the same service. After an exit that has left tokens behind, they
     are still linked, and the indexes do not agree.
     */
    method Init(list: seq<Watch>, registered: int) returns (ret: int)
      requires Linked() && |list| < TWO_31 && (!active ==> idle.keys == map[] && busy.keys == map[])
      modifies this`records, this`owner, this`active, idle, idle.low, idle.low.nodes
      ensures old(active) ==>
                && ret == DUPLICATE && active && records == old(records) && owner == old(owner)
                && idle.keys == old(idle.keys)
      ensures !old(active) ==> ret == if DistinctWatches(list) then registered else DUPLICATE
      ensures Linked() && (!old(active) ==> (Agree(View()) <==> table.keys == map[]))
      ensures !old(active) ==> (active <==> DistinctWatches(list) && registered == SUCCESS)
      ensures !old(active) && active ==>
                && |records| == |list|
                && forall i :: 0 <= i < |list| ==> IsIdle(View(), i) && Fresh(records[i], list[i])
      ensures !old(active) && !active ==> records == [] && idle.keys == map[]
    {
      hide idle.Valid, idle.Order, Linked, Agree, Filled, DistinctWatches, IsIdle, CompareBegin;
      if active {
        return DUPLICATE;
      }
      LinkedNodes();
      Allocate(list);
      FilledNone(View0());
      LinkedNodes();
      var done := Fill(list);
      LinkedNodes();
      if !done {
        Abort();
        return DUPLICATE;
      }
      FilledAgrees(View0(), list);
      if registered != SUCCESS {
        Abort();
        return registered;
      }
      active := true;
      ret := registered;
      Leftover(View());
    }

    /** The loop of eaf_watchdog_init that links the records, up to one whose key is taken. */
    method Fill(list: seq<Watch>) returns (done: bool)
      requires Linked() && Filled(View0(), 0) && |records| == |list| && owner.Keys !! table.keys.Keys
      requires forall j :: 0 <= j < |list| ==> Fresh(records[j], list[j])
      modifies idle, idle.low, idle.low.nodes, owner.Keys
      ensures Linked() && idle.low.nodes <= owner.Keys
      ensures if done then Filled(View0(), |list|) else !DistinctWatches(list)
    {
      hide idle.Valid, idle.Order, Linked, Agree, Filled, DistinctWatches, IsIdle, CompareBegin;
      LinkedNodes();
      FilledNodes(View0(), 0);
      for i := 0 to |list|
        invariant Linked() && Filled(View0(), i) && idle.low.nodes <= owner.Keys
      {
        LinkedNodes();
        ghost var x := View0();
        FilledNext(x, i);
        done := TryIdle(records[i].stack, BeginOf(records[i]));
        LinkedNodes();
        if !done {
          FilledTaken(x, list, i);
          return;
        }
        FilledMore(x, list, i);
        FilledNodes(View0(), i + 1);
      }
      done := true;
    }

    /** The index without the tokens that an earlier exit has left. */
    ghost function View0(): Index
      reads this`records, this`owner, idle, busy, table
    {
      View().(table := map[])
    }

    method DrainIdle()
      requires Linked()
      modifies idle, idle.low, idle.low.nodes
      ensures Linked() && idle.keys == map[]
    {
      hide idle.Valid, idle.Order;
      ghost var visited := idle.Drain();
      idle.Inside();
    }

    /** The end of an initialization that fails. */
    method Abort()
      requires Linked() && busy.keys == map[]
      modifies this`records, this`owner, idle, idle.low, idle.low.nodes
      ensures Linked() && records == [] && idle.keys == map[] && (Agree(View()) <==> table.keys == map[])
    {
      hide Linked, Agree;
      DrainIdle();
      records, owner := [], map[];
      EmptyAgrees();
      assert View0() == Index([], map[], map[], map[], map[]);
      Leftover(View());
    }

    method DrainBusy()
      requires Linked()
      modifies busy, busy.low, busy.low.nodes
      ensures Linked() && busy.keys == map[]
    {
      hide idle.Valid, idle.Order;
      ghost var visited := busy.Drain();
      busy.Inside();
    }

    /**
     eaf_watchdog_exit. It drains the idle and the busy map, but not the map of
     tokens: the indexes agree afterwards exactly when no heartbeat was
     outstanding. The source also frees the records, and with them the nodes
     that the map of tokens still links; here those nodes stay.
     */
    method Exit()
      requires Linked()
      modifies this, idle, idle.low, idle.low.nodes, busy, busy.low, busy.low.nodes
      ensures Linked() && !active && table.keys == old(table.keys)
      ensures !old(active) ==> View() == old(View())
      ensures old(active) ==> records == [] && idle.keys == map[] && busy.keys == map[]
      ensures old(active) ==> (Agree(View()) <==> table.keys == map[])
    {
      hide idle.Valid, idle.Order, Linked, Agree;
      if !active {
        return;
      }
      LinkedNodes();
      DrainIdle();
      DrainBusy();
      LinkedNodes();
      records, owner, active := [], map[], false;
      EmptyAgrees();
      assert View0() == Index([], map[], map[], map[], map[]);
      Leftover(View());
    }
  }

  /** Nodes of no record in the map of tokens are all that keeps an index from agreeing. */
  lemma Leftover(x: Index)
    requires Agree(x.(table := map[])) && forall n :: n in x.table ==> n !in x.owner
    ensures Agree(x) <==> x.table == map[]
    ensures forall i :: 0 <= i < |x.records| && IsIdle(x.(table := map[]), i) ==> IsIdle(x, i)
  {
    var y := x.(table := map[]);
    if x.table == map[] {
      assert x == y;
    } else {
      var n :| n in x.table;
    }
    forall i | 0 <= i < |x.records|
      ensures IsIdle(y, i) ==> IsIdle(x, i)
    {
      assert x.records[i].table in x.owner;
    }
  }

  ghost predicate DistinctWatches(list: seq<Watch>)
  {
    forall i, j :: 0 <= i < j < |list| ==> list[i].sid != list[j].sid
  }

  /** A record as it is before its first heartbeat. */
  predicate Fresh(r: Record, w: Watch)
  {
    r.begin == Time(0, 0) && r.end == Time(0, 0) && r.cerrc == 0 && r.watch == w
  }

  /** The first n records are idle, and nothing else is linked. */
  ghost predicate Filled(x: Index, n: nat)
  {
    && Owned(x) && Closed(x) && x.busy == map[] && x.table == map[] && n <= |x.records|
    && (forall i :: 0 <= i < n ==> IsIdle(x, i))
    && (forall i :: n <= i < |x.records| ==> IsDropped(x, i))
    && DistinctSids(x.records[..n])
  }

  lemma OwnedNone()
    ensures OwnedBy([], map[])
  {
  }

  lemma OwnedMore(records: seq<Record>, owner: map<Node, nat>, r: Record)
    requires OwnedBy(records, owner) && r.stack !in owner && r.table !in owner && r.stack != r.table
    ensures OwnedBy(records + [r], owner[r.stack := |records|][r.table := |records|])
  {
  }

  lemma FilledNone(x: Index)
    requires Owned(x) && x.idle == map[] && x.busy == map[] && x.table == map[]
    ensures Filled(x, 0)
  {
  }

  lemma FilledNodes(x: Index, i: nat)
    requires Filled(x, i)
    ensures x.idle.Keys <= x.owner.Keys
  {
  }

  /** The next record is not linked. */
  lemma FilledNext(x: Index, i: nat)
    requires Filled(x, i) && i < |x.records|
    ensures x.records[i].stack !in x.idle && x.records[i].stack in x.owner && x.busy == map[] && x.table == map[]
  {
    assert IsDropped(x, i);
  }

  /** Its key is taken: an earlier one watches the same service. */
  lemma FilledTaken(x: Index, list: seq<Watch>, i: nat)
    requires Filled(x, i) && i < |x.records| == |list| && forall j :: 0 <= j < |list| ==> Fresh(x.records[j], list[j])
    requires !forall n :: n in x.idle ==> CompareBegin(BeginOf(x.records[i]), x.idle[n]) != 0
    ensures !DistinctWatches(list)
  {
    hide Compare, Owned;
    CompareSame();
    var n :| n in x.idle && CompareBegin(BeginOf(x.records[i]), x.idle[n]) == 0;
    var j := x.owner[n];
    assert !IsDropped(x, j);
    assert j < i && IsIdle(x, j);
    assert list[j].sid == list[i].sid;
  }

  /** Its key is free, and it is linked. */
  lemma FilledMore(x: Index, list: seq<Watch>, i: nat)
    requires Filled(x, i) && i < |x.records| == |list| && forall j :: 0 <= j < |list| ==> Fresh(x.records[j], list[j])
    requires forall n :: n in x.idle ==> CompareBegin(BeginOf(x.records[i]), x.idle[n]) != 0
    ensures Filled(IntoIdle(x, i), i + 1)
  {
    hide Compare, DistinctSids, Owned, Closed;
    CompareSame();
    var y := IntoIdle(x, i);
    assert IsDropped(x, i);
    assert forall j :: 0 <= j <= i ==> Fresh(x.records[j], list[j]) && x.records[j].begin == Time(0, 0);
    FilledSids(x, i);
    forall j | 0 <= j < |y.records|
      ensures if j < i + 1 then IsIdle(y, j) else IsDropped(y, j)
    {
      if j != i {
        FilledOthers(x, i, j);
      }
      assert j < i ==> IsIdle(x, j);
      assert j > i ==> IsDropped(x, j);
    }
    assert Closed(y) && Owned(y) by {
      FilledClosed(x, i);
    }
  }

  lemma FilledOthers(x: Index, i: nat, j: nat)
    requires Owned(x) && i < |x.records| && j < |x.records| && i != j
    ensures x.records[j].stack != x.records[i].stack
  {
  }

  lemma FilledClosed(x: Index, i: nat)
    requires Owned(x) && Closed(x) && i < |x.records|
    ensures Closed(IntoIdle(x, i)) && Owned(IntoIdle(x, i))
  {
  }

  lemma FilledSids(x: Index, i: nat)
    requires Filled(x, i) && i < |x.records| && (forall j :: 0 <= j <= i ==> x.records[j].begin == Time(0, 0))
    requires forall n :: n in x.idle ==> CompareBegin(BeginOf(x.records[i]), x.idle[n]) != 0
    ensures DistinctSids(x.records[..i + 1])
  {
    hide Owned, Closed;
    forall j | 0 <= j < i
      ensures x.records[j].watch.sid != x.records[i].watch.sid
    {
      assert IsIdle(x, j);
      assert CompareBegin(BeginOf(x.records[i]), x.idle[x.records[j].stack]) != 0;
    }
    assert forall j :: 0 <= j < i ==> x.records[..i][j] == x.records[j];
  }

  lemma FilledAgrees(x: Index, list: seq<Watch>)
    requires Filled(x, |x.records|) && |list| == |x.records|
    requires forall j :: 0 <= j < |list| ==> Fresh(x.records[j], list[j])
    ensures Agree(x) && DistinctWatches(list) && forall i :: 0 <= i < |list| ==> IsIdle(x, i)
  {
    assert x.records[..|x.records|] == x.records;
    forall i, j | 0 <= i < j < |list|
      ensures list[i].sid != list[j].sid
    {
      assert x.records[i].watch == list[i] && x.records[j].watch == list[j];
    }
  }

  /** The record as it is when its heartbeat is sent: the answer is expected timeout milliseconds from now. */
  function Sent(r: Record, now: Time): Record
  {
    r.(begin := now, end := Wrapped(now.Total() + r.watch.timeout * 1_000_000))
  }

  /** What a send changes, with the record as it is then. */
  lemma SentIndex(x: Index, i: nat, r: Record)
    requires i < |x.records| && r.stack == x.records[i].stack && r.table == x.records[i].table
    ensures var (y, z) := (OutOfIdle(x, i, r), IntoBusy(OutOfIdle(x, i, r), i));
            && y == x.(records := x.records[i := r], idle := x.idle - {r.stack})
            && z == y.(busy := x.busy[r.stack := EndKey(r.end, i)], table := x.table[r.table := i])
  {
  }

  /** What an answer changes. */
  lemma AnsweredIndex(x: Index, i: nat, r: Record)
    requires i < |x.records|
    ensures IntoIdle(OutOfBusy(x, i, r), i)
            == x.(records := x.records[i := r], idle := x.idle[r.stack := BeginKey(r.begin, r.watch.sid)],
                  busy := x.busy - {r.stack}, table := x.table - {r.table})
  {
  }

  /** The record r, now r', has been sent: its answer is expected one timeout from now, cut to 64 bits of seconds. */
  predicate Awaits(r: Record, r': Record, now: Time)
  {
    && r'.begin == now && r'.end.Normalised()
    && r'.end.Total() == (now.Total() + r.watch.timeout * 1_000_000) % (TWO_64 * NSEC_IN_SEC)
    && r'.cerrc == r.cerrc && r'.watch == r.watch && r'.stack == r.stack && r'.table == r.table
  }

  lemma SentAwaits(r: Record, now: Time)
    ensures Awaits(r, Sent(r, now), now)
  {
  }

  /**
   The record r, now r', has been answered: the next heartbeat is due one
   interval from now, or now if that does not fit, and an answer after the
   expected time is counted.
   */
  predicate Rests(r: Record, r': Record, now: Time)
  {
    var due := now.Total() + r.watch.interval * 1_000_000;
    && (if due / NSEC_IN_SEC < TWO_64 then r'.begin.Normalised() && r'.begin.Total() == due else r'.begin == now)
    && r'.cerrc == (if Earlier(r.end, now) then r.cerrc + 1 else 0)
    && r'.end == r.end && r'.watch == r.watch && r'.stack == r.stack && r'.table == r.table
  }

  lemma AnsweredRests(r: Record, now: Time)
    ensures Rests(r, Answered(r, now), now)
  {
    hide Wrapped;
    CompareOrder(r.end, now, now);
  }

  /** The time from which the next heartbeat is due. */
  function Restart(now: Time, interval: Uint32): Time
  {
    if Fits(now.Total() + interval * 1_000_000) then Wrapped(now.Total() + interval * 1_000_000) else now
  }

  /** The record after its heartbeat has been answered: late answers in a row are counted. */
  function Answered(r: Record, now: Time): Record
  {
    r.(begin := Restart(now, r.watch.interval), cerrc := if Compare(now, r.end) > 0 then r.cerrc + 1 else 0)
  }

  /** Record i is idle and its heartbeat is due. */
  predicate Due(x: Index, i: nat, now: Time)
    requires i < |x.records|
  {
    x.records[i].stack in x.idle && Compare(now, x.records[i].begin) >= 0
  }

  /** From x to y record i stayed put, or was due and has been sent, or dropped because it could not be sent. */
  predicate After(x: Index, y: Index, i: nat, now: Time)
    requires i < |x.records| && i < |y.records|
  {
    || Unmoved(x, y, i)
    || (Due(x, i, now) && y.records[i] == Sent(x.records[i], now) && (IsBusy(y, i) || IsDropped(y, i)))
  }

  lemma CompareChain()
    ensures forall a, b, c :: Compare(a, b) < 0 && Compare(b, c) <= 0 ==> Compare(a, c) < 0
  {
  }

  lemma Stayed(x: Index, i: nat, now: Time)
    requires i < |x.records|
    ensures After(x, x, i, now)
  {
  }

  /** The nodes of s belong to records that were due. */
  ghost predicate AllDue(x: Index, s: seq<Node>, now: Time)
  {
    forall n :: n in s ==>
      n in x.owner && x.owner[n] < |x.records| && x.records[x.owner[n]].stack == n && Due(x, x.owner[n], now)
  }

  /** A record that is idle and due has been so from the beginning. */
  lemma SentIsDue(x0: Index, x: Index, sent: seq<Node>, i: nat, now: Time)
    requires Agree(x) && i < |x0.records| && i < |x.records| && After(x0, x, i, now) && Due(x, i, now)
    requires AllDue(x0, sent, now) && x.owner == x0.owner
    ensures AllDue(x0, sent + [x.records[i].stack], now)
  {
    hide Compare;
    assert IsIdle(x, i);
  }

  lemma AfterEither(x0: Index, x: Index, i: nat, now: Time)
    requires i < |x0.records| == |x.records| && After(x0, x, i, now) && !Due(x, i, now)
    ensures if Due(x0, i, now) then Awaits(x0.records[i], x.records[i], now) else Unmoved(x0, x, i)
  {
    hide Compare, Awaits, Sent;
    SentAwaits(x0.records[i], now);
  }

  lemma StillIdle(x0: Index, x: Index, i: nat, now: Time)
    requires i < |x0.records| == |x.records| && After(x0, x, i, now) && !Due(x, i, now)
    ensures Due(x0, i, now) ==> x0.records[i].stack in x0.idle && x0.records[i].stack !in x.idle
  {
    hide Compare;
  }

  lemma IdleNode(x: Index, n: Node)
    requires Agree(x) && n in x.idle
    ensures n in x.owner && x.owner[n] < |x.records| && x.records[x.owner[n]].stack == n
  {
  }

  lemma BusyNode(x: Index, n: Node)
    requires Agree(x) && n in x.busy
    ensures n in x.owner && x.owner[n] < |x.records| && x.records[x.owner[n]].end.Normalised()
    ensures x.busy[n].end == x.records[x.owner[n]].end
  {
    assert IsBusy(x, x.owner[n]);
  }

  lemma BusyStack(x: Index, i: nat)
    requires Agree(x) && i < |x.records|
    ensures IsBusy(x, i) <==> x.records[i].stack in x.busy
    ensures x.records[i].stack in x.busy ==> x.busy[x.records[i].stack].end == x.records[i].end
  {
  }

  /** Record i is busy and its answer has been due. */
  predicate Ended(x: Index, i: nat, now: Time)
    requires i < |x.records|
  {
    IsBusy(x, i) && Compare(now, x.records[i].end) >= 0
  }

  predicate AllEnded(x: Index, s: seq<Node>, now: Time)
  {
    forall n :: n in s ==> n in x.busy && Compare(now, x.busy[n].end) >= 0
  }

  lemma NoneEnded(x: Index, now: Time)
    ensures AllEnded(x, [], now)
  {
  }

  lemma MoreEnded(x: Index, s: seq<Node>, n: Node, now: Time)
    requires AllEnded(x, s, now) && n in x.busy && Compare(now, x.busy[n].end) >= 0
    ensures AllEnded(x, s + [n], now)
  {
  }

  /** A busy record is late when its answer is overdue by more than timeout * jitter milliseconds. */
  predicate Late(x: Index, i: nat, now: Time)
    requires i < |x.records|
  {
    var r := x.records[i];
    IsBusy(x, i) && now.Total() > r.end.Total() + r.watch.timeout * r.watch.jitter * 1_000_000
  }

  function LateRecords(x: Index, now: Time): set<nat>
  {
    set i: nat | i < |x.records| && Late(x, i, now)
  }

  lemma NoneLate(x: Index, now: Time)
    requires Agree(x)
    ensures (forall i :: i !in LateRecords(x, now)) <==> LateRecords(x, now) == {}
    ensures now.Normalised() ==> forall i :: i in LateRecords(x, now) ==> i < |x.records| && Ended(x, i, now)
  {
    forall i | i in LateRecords(x, now) && now.Normalised()
      ensures Ended(x, i, now)
    {
      CompareTotal(now, x.records[i].end);
    }
  }

  /** One heartbeat is outstanding: expected at one second, with two seconds of grace. */
  function Outstanding(stack: Node, table: Node): Index
  {
    var r := Record(stack, table, Time(0, 0), Time(1, 0), 0, Watch(7, 1000, 1000, 2));
    Index([r], map[stack := 0][table := 0], map[], map[stack := EndKey(r.end, 0)], map[table := 0])
  }

  /** At four seconds it is late, which CheckBusy does not report; and an exit leaves its token behind. */
  lemma LateGoesUnreported(stack: Node, table: Node)
    requires stack != table
    ensures var x := Outstanding(stack, table);
            && Agree(x) && LateRecords(x, Time(4, 0)) == {0} && LateRecords(x, Time(3, 0)) == {}
            && !Agree(Index([], map[], map[], map[], x.table))
  {
    assert IsBusy(Outstanding(stack, table), 0);
    assert table in Outstanding(stack, table).table;
  }

  lemma BusyAt(x: Index, i: nat)
    requires Agree(x) && i < |x.records| && x.records[i].table in x.table
    ensures IsBusy(x, i)
  {
  }

  lemma BusyNodes(x: Index, i: nat)
    requires i < |x.records| && IsBusy(x, i)
    ensures x.records[i].stack in x.busy && x.records[i].table in x.table
  {
  }

  /** The search for a token finds the record with that index, if its heartbeat is outstanding. */
  lemma TokenNode(x: Index, token: int, node: Node?)
    requires Agree(x)
    requires node == null && token >= 0 ==> forall n :: n in x.table ==> token != x.table[n]
    requires node != null ==> node in x.table && token == x.table[node]
    ensures node != null <==> 0 <= token < |x.records| && x.records[token].table in x.table
    ensures node != null ==> node in x.owner && x.owner[node] == token
  {
    if 0 <= token < |x.records| && x.records[token].table in x.table {
      assert IsBusy(x, token);
    }
    if node != null {
      assert IsBusy(x, x.owner[node]);
    }
  }

  lemma NotEarlier(end: Time, msec: Uint32, later: Time)
    requires end.Normalised()
    requires later == if Fits(end.Total() + msec * 1_000_000) then Wrapped(end.Total() + msec * 1_000_000) else end
    ensures Compare(end, later) <= 0
  {
    CompareTotal(end, later);
  }

  /** Record i of x is due, and moves; what became of record j since x0 still holds. */
  lemma AfterSend(x0: Index, x: Index, i: nat, j: nat, now: Time, ok: bool)
    requires Agree(x) && j < |x0.records| == |x.records| && i < |x.records| && Due(x, i, now)
    requires After(x0, x, i, now) && After(x0, x, j, now)
    ensures var y := OutOfIdle(x, i, Sent(x.records[i], now));
            After(x0, if ok then IntoBusy(y, i) else y, j, now)
  {
    hide Agree, Compare, Wrapped;
    var y := OutOfIdle(x, i, Sent(x.records[i], now));
    var z := if ok then IntoBusy(y, i) else y;
    SendAgrees(x, i, Sent(x.records[i], now));
    if j != i {
      Others(x, z, i, j);
    }
  }

  lemma Others(x: Index, y: Index, i: nat, j: nat)
    requires Agree(x) && Moves(x, y, i) && j < |x.records| && i != j
    ensures Unmoved(x, y, j)
    ensures IsBusy(x, j) <==> IsBusy(y, j)
    ensures IsDropped(x, j) <==> IsDropped(y, j)
  {
    Elsewhere(x, y, i, j);
    StaysPut(x, y, j);
  }

  lemma SmallFits(msec: Uint32)
    ensures Fits(msec * 1_000_000) && Wrapped(msec * 1_000_000).Total() == msec * 1_000_000
  {
  }
}
