/** The order in which the busy services are served: that in which they became busy. */
module SchedOrder {
  import opened NodeLists
  import opened Scheduler
  import opened SchedLists
  import opened SchedRuns
  import opened SchedEffects

  /** x comes before y in the list. */
  ghost predicate Before(list: seq<nat>, x: nat, y: nat)
  {
    exists p, q :: 0 <= p < q < |list| && list[p] == x && list[q] == y
  }

  /** The others keep their order, and i leaves the list, stays where it is, or goes to its end. */
  ghost predicate KeepsOrder(list: seq<nat>, list': seq<nat>, i: nat)
  {
    && (forall x, y :: x != i && y != i ==> (Before(list, x, y) <==> Before(list', x, y)))
    && (list' == list || i !in list' || (list' != [] && list'[|list'| - 1] == i))
  }

  lemma BeforeTail(list: seq<nat>, x: nat, y: nat)
    requires list != []
    ensures Before(list, x, y) <==> (x == list[0] && y in list[1..]) || Before(list[1..], x, y)
  {
    if Before(list, x, y) {
      var p, q :| 0 <= p < q < |list| && list[p] == x && list[q] == y;
      assert list[q] == list[1..][q - 1];
      if p > 0 {
        assert list[p] == list[1..][p - 1];
      }
    }
    if x == list[0] && y in list[1..] {
      var q :| 0 <= q < |list[1..]| && list[1..][q] == y;
      assert list[q + 1] == y;
    }
    if Before(list[1..], x, y) {
      var p, q :| 0 <= p < q < |list[1..]| && list[1..][p] == x && list[1..][q] == y;
      assert list[p + 1] == x && list[q + 1] == y;
    }
  }

  lemma {:induction false} EraseBefore(list: seq<nat>, i: nat, x: nat, y: nat)
    requires NoDup(list) && x != i && y != i
    ensures Before(Erase(list, i), x, y) <==> Before(list, x, y)
  {
    hide Before, NoDup;
    if list == [] {
      return;
    }
    BeforeTail(list, x, y);
    if list[0] != i {
      NoDupTail(list);
      var rest := Erase(list[1..], i);
      EraseBefore(list[1..], i, x, y);
      EraseOne(list[1..], i);
      assert ([list[0]] + rest)[1..] == rest;
      BeforeTail([list[0]] + rest, x, y);
    }
  }

  lemma NoDupTail(list: seq<nat>)
    requires NoDup(list) && list != []
    ensures NoDup(list[1..])
  {
  }

  lemma AppendBefore(list: seq<nat>, i: nat, x: nat, y: nat)
    requires y != i
    ensures Before(list + [i], x, y) <==> Before(list, x, y)
  {
    var longer := list + [i];
    if Before(longer, x, y) {
      var p, q :| 0 <= p < q < |longer| && longer[p] == x && longer[q] == y;
      assert list[p] == x && list[q] == y;
    }
    if Before(list, x, y) {
      var p, q :| 0 <= p < q < |list| && list[p] == x && list[q] == y;
      assert longer[p] == x && longer[q] == y;
    }
  }

  lemma SetStateOrder(g: Group, i: nat, st: SvcState)
    requires i < |g.svcs| && Lists(g)
    ensures KeepsOrder(g.busy, SetState(g, i, st).busy, i)
    ensures var list := SetState(g, i, st).busy; i in list ==> list != [] && list[|list| - 1] == i
  {
    hide Before, NoDup;
    EraseOne(g.busy, i);
    var rest := if InBusyList(g.svcs[i].state) then Erase(g.busy, i) else g.busy;
    forall x, y | x != i && y != i
      ensures Before(g.busy, x, y) <==> Before(rest, x, y)
      ensures Before(rest + [i], x, y) <==> Before(rest, x, y)
    {
      EraseBefore(g.busy, i, x, y);
      AppendBefore(rest, i, x, y);
    }
  }

  /** Two changes of the same service. */
  lemma TwiceOrder(a: seq<nat>, b: seq<nat>, c: seq<nat>, i: nat)
    requires KeepsOrder(a, b, i) && KeepsOrder(b, c, i) && (i in c ==> c != [] && c[|c| - 1] == i)
    ensures KeepsOrder(a, c, i)
  {
    hide Before;
  }

  lemma SameOrder(list: seq<nat>, i: nat)
    ensures KeepsOrder(list, list, i)
  {
  }

  lemma ApplyOrder(g: Group, c: Change, i: nat)
    requires InGroup(g, c) && Lists(g) && !c.Fix? && (!c.Keep? ==> c.i == i)
    ensures KeepsOrder(g.busy, Apply(g, c).busy, i)
  {
    hide KeepsOrder, SetState, Lists;
    SameOrder(g.busy, i);
    match c
    case Keep =>
    case Edit(_, _) =>
    case To(_, st) => SetStateOrder(g, i, st);
    case Init(_) => InitOrder(g, i);
    case Exit(_) => SetStateOrder(g, i, Exit0);
    case Accept(_, _) =>
      SetStateOrder(g, i, Init1);
      SetStateOrder(g, i, Busy);
  }

  lemma InitOrder(g: Group, i: nat)
    requires i < |g.svcs| && Lists(g)
    ensures KeepsOrder(g.busy, FinishInit(g, i).busy, i)
  {
    hide KeepsOrder, SetState, Lists;
    SetStateLists(g, i, Idle);
    SetStateOrder(g, i, Idle);
    SetStateOrder(SetState(g, i, Idle), i, Busy);
    TwiceOrder(g.busy, SetState(g, i, Idle).busy, SetState(SetState(g, i, Idle), i, Busy).busy, i);
  }

  /**
   A step, but the one that fixes the states for loading, concerns one service:
   all others keep their order in busy_list, and it leaves the list, keeps its
   place, or goes to the end.
   */
  lemma BusyInOrder(ss: seq<State>, as_: seq<Action>, k: nat) returns (i: nat)
    requires Run(ss, as_) && k < |as_|
    requires !exists t :: ThreadAt(ss, as_, k, t, LoadFix)
    ensures k + 1 < |ss| && Others(ss[k], ss[k + 1], i)
    ensures KeepsOrder(ss[k].group.busy, ss[k + 1].group.busy, i)
  {
    hide Run, Sound, KeepsOrder, Others, Lists, Apply, ThreadAt;
    RunStep(ss, as_, k);
    RunSound(ss, as_, k);
    InSound(ss[k]);
    var s := ss[k];
    match as_[k]
    case WorkerStep(choice) => i := WorkOrder(s, choice);
    case ThreadStep(t, op) =>
      if op == Continue {
        IsAt(ss, as_, k, t);
      }
      i := CallOrder(s, t, op);
  }

  lemma IsAt(ss: seq<State>, as_: seq<Action>, k: nat, t: nat)
    requires k < |as_| && k < |ss| && t < |ss[k].threads| && as_[k] == ThreadStep(t, Continue)
    ensures ThreadAt(ss, as_, k, t, ss[k].threads[t].pc)
  {
  }

  lemma WorkOrder(s: State, choice: bool) returns (i: nat)
    requires WorkerEnabled(s, choice) && Lists(s.group)
    ensures Others(s, WorkerNext(s, choice), i)
    ensures KeepsOrder(s.group.busy, WorkerNext(s, choice).group.busy, i)
  {
    hide KeepsOrder, Lists, Apply, WorkerPc, WorkerRefs, WorkerReady, Changed;
    var c := WorkerChange(s, choice);
    var target := Target(s.worker, |s.group.svcs|);
    i := if target.Some? then target.value else 0;
    assert !c.Fix? && (!c.Keep? ==> c.i == i);
    ApplyOrder(s.group, c, i);
    WorkTouches(s, choice);
    OneTouched(s, WorkerNext(s, choice), c, i);
  }

  /** A change of service i leaves the others as they are. */
  lemma OneTouched(s: State, u: State, c: Change, i: nat)
    requires !c.Fix? && (!c.Keep? ==> c.i == i) && |u.group.svcs| == |s.group.svcs|
    requires forall j :: 0 <= j < |s.group.svcs| ==> u.group.svcs[j] == Changed(s.group.svcs[j], j, c)
    ensures Others(s, u, i)
  {
  }

  lemma CallOrder(s: State, t: nat, op: Op) returns (i: nat)
    requires ThreadEnabled(s, t, op) && Lists(s.group)
    requires t < |s.threads| && (op == Continue ==> s.threads[t].pc != LoadFix)
    ensures Others(s, ThreadNext(s, t, op), i)
    ensures KeepsOrder(s.group.busy, ThreadNext(s, t, op).group.busy, i)
  {
    hide KeepsOrder, Lists, Apply, PcNext, PcRefs, MayCall, Changed;
    i := 0;
    if op == Continue {
      var c := PcChange(s.group, s.threads[t].pc);
      i := if c.Keep? then 0 else c.i;
      ApplyOrder(s.group, c, i);
      PcTouches(s, t);
      OneTouched(s, PcStep(s, t), c, i);
    } else {
      SameOrder(s.group.busy, i);
    }
  }
}
