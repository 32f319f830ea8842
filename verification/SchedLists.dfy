/** Every service is in exactly the list that its state dictates, and each change of the group touches one service. */
module SchedLists {
  import opened NodeLists
  import opened Scheduler

  /** busy_list and wait_list hold each service once, in the one that its state asks for. */
  ghost predicate Lists(g: Group)
  {
    && NoDup(g.busy) && NoDup(g.wait)
    && (forall i :: i in g.busy <==> 0 <= i < |g.svcs| && InBusyList(g.svcs[i].state))
    && (forall i :: i in g.wait <==> 0 <= i < |g.svcs| && !InBusyList(g.svcs[i].state))
  }

  lemma SetStateLists(g: Group, i: nat, st: SvcState)
    requires i < |g.svcs| && Lists(g)
    ensures Lists(SetState(g, i, st))
  {
    hide Erase;
    EraseOne(g.busy, i);
    EraseOne(g.wait, i);
  }

  lemma WithSvcLists(g: Group, i: nat, v: Svc)
    requires i < |g.svcs| && v.state == g.svcs[i].state && Lists(g)
    ensures Lists(WithSvc(g, i, v))
  {
  }

  lemma {:induction false} FixStatesLists(g: Group, j: nat)
    requires j <= |g.svcs| && Lists(g)
    ensures Lists(FixStates(g, j))
    decreases |g.svcs| - j
  {
    if j < |g.svcs| {
      SetStateLists(g, j, LoadState(g.svcs[j]));
      FixStatesLists(SetState(g, j, LoadState(g.svcs[j])), j + 1);
    }
  }

  /** An edit of a service leaves its state alone. */
  predicate Proper(g: Group, c: Change)
  {
    InGroup(g, c) && (c.Edit? ==> c.v.state == g.svcs[c.i].state)
  }

  lemma ApplyLists(g: Group, c: Change)
    requires Proper(g, c) && Lists(g)
    ensures Lists(Apply(g, c))
  {
    hide Lists, SetState;
    match c
    case Keep =>
    case Edit(i, v) => WithSvcLists(g, i, v);
    case To(i, st) => SetStateLists(g, i, st);
    case Init(i) =>
      SetStateLists(g, i, Idle);
      SetStateLists(SetState(g, i, Idle), i, Busy);
    case Exit(i) =>
      SetStateLists(g, i, Exit0);
      var r := SetState(g, i, Exit0);
      WithSvcLists(r, i, Exiting(r.svcs[i]));
    case Accept(i, rec) =>
      SetStateLists(g, i, Init1);
      SetStateLists(g, i, Busy);
      var st := g.svcs[i].state;
      var r := if st == Init2 then SetState(g, i, Init1) else if st == Idle then SetState(g, i, Busy) else g;
      WithSvcLists(r, i, Appended(r.svcs[i], rec));
    case Fix => FixStatesLists(g, 0);
  }

  lemma ListsStep(s: State, a: Action)
    requires Enabled(s, a) && Lists(s.group)
    ensures Lists(Next(s, a).group)
  {
    hide Lists, Apply, WorkerPc, PcNext, WorkerReady, MayCall;
    match a
    case WorkerStep(choice) =>
      ApplyLists(s.group, WorkerChange(s, choice));
    case ThreadStep(t, op) =>
      if op == Continue {
        ApplyLists(s.group, PcChange(s.group, s.threads[t].pc));
      }
  }

  // ---------- One service at a time ----------

  function AcceptState(st: SvcState): SvcState
  {
    if st == Init2 then Init1 else if st == Idle then Busy else st
  }

  /** What the change c makes of service j, now v. */
  function Changed(v: Svc, j: nat, c: Change): Svc
  {
    match c
    case Keep => v
    case Edit(i, v') => if i == j then v' else v
    case To(i, st) => if i == j then InState(v, st) else v
    case Init(i) => if i == j then InState(v, if v.queue == [] then Idle else Busy) else v
    case Exit(i) => if i == j then Exiting(InState(v, Exit0)) else v
    case Accept(i, rec) => if i == j then Appended(InState(v, AcceptState(v.state)), rec) else v
    case Fix => InState(v, LoadState(v))
  }

  lemma {:induction false} FixTouches(g: Group, k: nat, j: nat)
    requires k <= |g.svcs| && j < |g.svcs|
    ensures FixStates(g, k).svcs[j] == if j < k then g.svcs[j] else Changed(g.svcs[j], j, Fix)
    decreases |g.svcs| - k
  {
    hide SetState, InState;
    if k < |g.svcs| {
      FixTouches(SetState(g, k, LoadState(g.svcs[k])), k + 1, j);
    }
  }

  lemma ApplySize(g: Group, c: Change)
    requires InGroup(g, c)
    ensures |Apply(g, c).svcs| == |g.svcs|
  {
  }

  /** A change does to each service what that service and the change alone determine. */
  lemma Touches(g: Group, c: Change, j: nat)
    requires InGroup(g, c) && j < |g.svcs|
    ensures j < |Apply(g, c).svcs| && Apply(g, c).svcs[j] == Changed(g.svcs[j], j, c)
  {
    hide SetState;
    if c == Fix {
      FixTouches(g, 0, j);
    }
  }
}
