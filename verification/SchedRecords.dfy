/** Every record is accepted at most once, by one service, and so destroyed at most once. */
module SchedRecords {
  import opened Scheduler
  import opened SchedLists
  import opened SchedRefs
  import opened Wrappers

  ghost predicate Below(svcs: seq<Svc>, next: nat)
  {
    forall j, k :: 0 <= j < |svcs| && 0 <= k < |svcs[j].accepted| ==> svcs[j].accepted[k].id < next
  }

  ghost predicate Accepted(svcs: seq<Svc>, id: nat)
  {
    exists j, k :: 0 <= j < |svcs| && 0 <= k < |svcs[j].accepted| && svcs[j].accepted[k].id == id
  }

  /** No two places in the histories of the services hold the same record. */
  ghost predicate Once(svcs: seq<Svc>)
  {
    forall j, k, j', k' |
      && 0 <= j < |svcs| && 0 <= k < |svcs[j].accepted|
      && 0 <= j' < |svcs| && 0 <= k' < |svcs[j'].accepted|
      && svcs[j].accepted[k].id == svcs[j'].accepted[k'].id
      :: j == j' && k == k'
  }

  /** The records of calls under way are new, and each belongs to one call. */
  ghost predicate Flights(threads: seq<Thread>, svcs: seq<Svc>, next: nat)
  {
    && (forall t :: 0 <= t < |threads| && Flying(threads[t].pc).Some? ==>
          Flying(threads[t].pc).value.id < next && !Accepted(svcs, Flying(threads[t].pc).value.id))
    && (forall t, u :: 0 <= t < u < |threads| && Flying(threads[t].pc).Some? && Flying(threads[u].pc).Some? ==>
          Flying(threads[t].pc).value.id != Flying(threads[u].pc).value.id)
  }

  ghost predicate Records(s: State)
  {
    Below(s.group.svcs, s.next) && Once(s.group.svcs) && Flights(s.threads, s.group.svcs, s.next)
  }

  ghost predicate SameAccepted(svcs: seq<Svc>, svcs': seq<Svc>)
  {
    |svcs'| == |svcs| && forall j :: 0 <= j < |svcs| ==> svcs'[j].accepted == svcs[j].accepted
  }

  lemma SameRecords(svcs: seq<Svc>, svcs': seq<Svc>, next: nat)
    requires SameAccepted(svcs, svcs')
    ensures Below(svcs, next) ==> Below(svcs', next)
    ensures Once(svcs) ==> Once(svcs')
    ensures forall id :: Accepted(svcs', id) <==> Accepted(svcs, id)
  {
    forall id | Accepted(svcs, id)
      ensures Accepted(svcs', id)
    {
      var j, k :| 0 <= j < |svcs| && 0 <= k < |svcs[j].accepted| && svcs[j].accepted[k].id == id;
      assert svcs'[j].accepted[k].id == id;
    }
  }

  /** A new record joins the history of service i. */
  lemma JoinRecords(svcs: seq<Svc>, svcs': seq<Svc>, i: nat, rec: Rec, next: nat)
    requires i < |svcs| == |svcs'| && Below(svcs, next) && Once(svcs) && rec.id < next && !Accepted(svcs, rec.id)
    requires forall j :: 0 <= j < |svcs| ==> svcs'[j].accepted == svcs[j].accepted + (if j == i then [rec] else [])
    ensures Below(svcs', next) && Once(svcs')
    ensures forall id :: Accepted(svcs', id) ==> id == rec.id || Accepted(svcs, id)
  {
    assert forall j, k :: 0 <= j < |svcs| && 0 <= k < |svcs[j].accepted| ==> svcs[j].accepted[k].id != rec.id;
    assert forall j, k :: 0 <= j < |svcs| && 0 <= k < |svcs'[j].accepted| ==>
        svcs'[j].accepted[k] == if k < |svcs[j].accepted| then svcs[j].accepted[k] else rec;
  }

  lemma WorkerAccepts(s: State, choice: bool)
    requires WorkerEnabled(s, choice)
    ensures SameAccepted(s.group.svcs, WorkerNext(s, choice).group.svcs)
  {
    hide Apply, WorkerPc, WorkerReady, Counted, Destroys, TargetChange, Target;
    var c := WorkerChange(s, choice);
    ApplySize(s.group, c);
    forall j | 0 <= j < |s.group.svcs|
      ensures Apply(s.group, c).svcs[j].accepted == s.group.svcs[j].accepted
    {
      Touches(s.group, c, j);
      var i := Target(s.worker, |s.group.svcs|);
      if i.Some? {
        TargetAccepts(s.group.svcs[i.value], i.value, s.worker, choice);
      }
    }
  }

  lemma TargetAccepts(v: Svc, i: nat, w: Worker, choice: bool)
    ensures var c := TargetChange(v, i, w, choice);
            !c.Accept? && !c.Fix? && (c.Edit? ==> c.i == i && c.v.accepted == v.accepted)
  {
  }

  lemma PcAccepts(g: Group, pc: Pc)
    requires PcTarget(pc).Some? ==> PcTarget(pc).value < |g.svcs|
    ensures var c := PcChange(g, pc);
            var svcs' := Apply(g, c).svcs;
            && |svcs'| == |g.svcs|
            && (forall j :: 0 <= j < |g.svcs| ==>
                  svcs'[j].accepted == g.svcs[j].accepted + (if c.Accept? && j == c.i then [c.rec] else []))
            && (c.Accept? ==> Flying(pc) == Some(c.rec) && c.i < |g.svcs|)
  {
    hide Apply;
    var c := PcChange(g, pc);
    ApplySize(g, c);
    forall j | 0 <= j < |g.svcs|
      ensures Apply(g, c).svcs[j].accepted == g.svcs[j].accepted + (if c.Accept? && j == c.i then [c.rec] else [])
    {
      Touches(g, c, j);
    }
  }

  lemma NextIsNew(svcs: seq<Svc>, next: nat)
    requires Below(svcs, next)
    ensures Below(svcs, next + 1) && !Accepted(svcs, next)
  {
  }

  /** One call moves on: what it carries is new, or is what it carried before. */
  lemma FlightsAfter(threads: seq<Thread>, t: nat, th: Thread, svcs: seq<Svc>, svcs': seq<Svc>, next: nat, next': nat)
    requires t < |threads| && Flights(threads, svcs, next) && next <= next'
    requires forall id :: Accepted(svcs', id) ==>
               Accepted(svcs, id) || (Flying(threads[t].pc).Some? && Flying(threads[t].pc).value.id == id)
    requires Flying(th.pc).Some? ==>
               || (Flying(th.pc) == Flying(threads[t].pc) && !Accepted(svcs', Flying(th.pc).value.id))
               || (Flying(th.pc).value.id == next < next' && !Accepted(svcs', next))
    ensures Flights(threads[t := th], svcs', next')
  {
    hide Accepted, Flying;
  }

  lemma PcRecords(s: State, t: nat)
    requires ThreadEnabled(s, t, Continue) && Records(s)
    ensures Records(PcStep(s, t))
  {
    hide Apply, PcChange, PcRefs, Below, Once, Accepted, Flights, MayCall, Counted;
    var pc := s.threads[t].pc;
    var u := PcStep(s, t);
    var c := PcChange(s.group, pc);
    PcAccepts(s.group, pc);
    NextIsNew(s.group.svcs, s.next);
    if Flying(pc).Some? {
      FlyingAt(s, t);
    }
    if c.Accept? {
      JoinRecords(s.group.svcs, u.group.svcs, c.i, c.rec, s.next);
    } else {
      SameRecords(s.group.svcs, u.group.svcs, s.next);
      SameRecords(s.group.svcs, u.group.svcs, s.next + 1);
    }
    PcFlying(s, t);
    FlightsAfter(s.threads, t, u.threads[t], s.group.svcs, u.group.svcs, s.next, u.next);
  }

  lemma FlyingAt(s: State, t: nat)
    requires t < |s.threads| && Flights(s.threads, s.group.svcs, s.next) && Flying(s.threads[t].pc).Some?
    ensures var rec := Flying(s.threads[t].pc).value; rec.id < s.next && !Accepted(s.group.svcs, rec.id)
  {
  }

  lemma PcFlying(s: State, t: nat)
    requires ThreadEnabled(s, t, Continue)
    ensures var pc := s.threads[t].pc;
            var f := Flying(PcNext(s.group, pc, s.ctx, s.next));
            && (PcChange(s.group, pc).Accept? ==> f == None)
            && (pc.SendAddRef? ==> f.Some? && f.value.id == s.next)
            && (f.Some? && !pc.SendAddRef? ==> f == Flying(pc))
  {
    hide MayCall, Counted;
  }

  lemma RecordsStep(s: State, a: Action)
    requires Enabled(s, a) && Records(s)
    ensures Records(Next(s, a))
  {
    hide Below, Once, Accepted, PcStep, WorkerPc, WorkerSafe, WorkerReady, Apply, ThreadSafe;
    match a {
      case WorkerStep(choice) =>
        WorkerAccepts(s, choice);
        SameRecords(s.group.svcs, WorkerNext(s, choice).group.svcs, s.next);
      case ThreadStep(t, op) =>
        if op == Continue {
          PcRecords(s, t);
        } else {
          FlightsAfter(s.threads, t, ThreadNext(s, t, op).threads[t], s.group.svcs, s.group.svcs, s.next, s.next);
        }
    }
  }
}
