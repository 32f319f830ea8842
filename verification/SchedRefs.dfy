/**
 Reference conservation: the count of a message is the number of handles that
 user code holds plus the number of records that point to it, so a message is
 destroyed exactly when the last of them goes, and nothing that is still
 pointed to is missing.
 */
module SchedRefs {
  import opened Messages
  import opened Scheduler
  import opened SchedLists
  import opened SchedService
  import opened SchedCore
  import opened Wrappers

  // ---------- Counting ----------

  function Is(rec: Option<Rec>, m: nat): nat
  {
    if rec.Some? && rec.value.msg == m then 1 else 0
  }

  function InQueue(queue: seq<Rec>, m: nat): nat
  {
    if queue == [] then 0 else Is(Some(queue[0]), m) + InQueue(queue[1..], m)
  }

  /** The records of a service that point to m. */
  function InSvc(v: Svc, m: nat): nat
  {
    Is(v.cur, m) + InQueue(v.queue, m)
  }

  function InSvcs(svcs: seq<Svc>, m: nat): nat
  {
    if svcs == [] then 0 else InSvc(svcs[0], m) + InSvcs(svcs[1..], m)
  }

  /** The record that the worker destroys next, and that is in no service any more. */
  function Dropped(w: Worker): Option<Rec>
  {
    if w.TearHold? then Some(w.rec) else None
  }

  /** The record of a call that has taken its reference and has not pushed it yet, or has to take it back. */
  function Flying(pc: Pc): Option<Rec>
  {
    match pc
    case SendPush(_, rec) => Some(rec)
    case SendRevert(rec) => Some(rec)
    case _ => None
  }

  /** The handles of a thread's user code and the record of its call that point to m. */
  function InThread(th: Thread, m: nat): nat
  {
    th.held[m] + Is(Flying(th.pc), m)
  }

  function InThreads(threads: seq<Thread>, m: nat): nat
  {
    if threads == [] then 0 else InThread(threads[0], m) + InThreads(threads[1..], m)
  }

  /** Everything that points to m. */
  function Pointers(s: State, m: nat): nat
  {
    InThreads(s.threads, m) + InSvcs(s.group.svcs, m) + Is(Dropped(s.worker), m)
  }

  /** The reference counts are exact, and a message exists as long as its count is not zero. */
  ghost predicate Conserved(s: State)
  {
    && (forall m :: CountOf(s.refs, m) == Pointers(s, m))
    && (forall m :: m in s.refs ==> s.refs[m] > 0)
  }

  /** The user code of a thread keeps its handle while the library uses it. */
  predicate Keeps(th: Thread)
  {
    match th.pc
    case SendCheck(_, m, _) => m in th.held
    case SendCapacity(_, m, _) => m in th.held
    case SendAddRef(_, m, _) => m in th.held
    case _ => true
  }

  ghost predicate AllKeep(threads: seq<Thread>)
  {
    forall t :: 0 <= t < |threads| ==> Keeps(threads[t])
  }

  // ---------- Sums ----------

  lemma {:induction false} QueueAppend(queue: seq<Rec>, rec: Rec, m: nat)
    ensures InQueue(queue + [rec], m) == InQueue(queue, m) + Is(Some(rec), m)
  {
    if queue == [] {
      assert queue + [rec] == [rec];
    } else {
      assert (queue + [rec])[1..] == queue[1..] + [rec];
      QueueAppend(queue[1..], rec, m);
    }
  }

  /** One service changes. */
  lemma {:induction false} SvcsUpdate(svcs: seq<Svc>, svcs': seq<Svc>, i: nat, m: nat)
    requires i < |svcs| == |svcs'|
    requires forall j :: 0 <= j < |svcs| && j != i ==> InSvc(svcs'[j], m) == InSvc(svcs[j], m)
    ensures InSvcs(svcs', m) + InSvc(svcs[i], m) == InSvcs(svcs, m) + InSvc(svcs'[i], m)
  {
    if i > 0 {
      SvcsUpdate(svcs[1..], svcs'[1..], i - 1, m);
    } else {
      SvcsSame(svcs[1..], svcs'[1..], m);
    }
  }

  lemma {:induction false} SvcsSame(svcs: seq<Svc>, svcs': seq<Svc>, m: nat)
    requires |svcs| == |svcs'|
    requires forall j :: 0 <= j < |svcs| ==> InSvc(svcs'[j], m) == InSvc(svcs[j], m)
    ensures InSvcs(svcs', m) == InSvcs(svcs, m)
  {
    if svcs != [] {
      SvcsSame(svcs[1..], svcs'[1..], m);
    }
  }

  lemma {:induction false} SvcsHas(svcs: seq<Svc>, i: nat, m: nat)
    requires i < |svcs|
    ensures InSvcs(svcs, m) >= InSvc(svcs[i], m)
  {
    if i > 0 {
      SvcsHas(svcs[1..], i - 1, m);
    }
  }

  lemma {:induction false} ThreadsUpdate(threads: seq<Thread>, t: nat, th: Thread, m: nat)
    requires t < |threads|
    ensures InThreads(threads[t := th], m) + InThread(threads[t], m) == InThreads(threads, m) + InThread(th, m)
  {
    if t > 0 {
      assert threads[t := th][1..] == threads[1..][t - 1 := th];
      ThreadsUpdate(threads[1..], t - 1, th, m);
    } else {
      assert threads[t := th][1..] == threads[1..];
    }
  }

  lemma {:induction false} ThreadsHas(threads: seq<Thread>, t: nat, m: nat)
    requires t < |threads|
    ensures InThreads(threads, m) >= InThread(threads[t], m)
  {
    if t > 0 {
      ThreadsHas(threads[1..], t - 1, m);
    }
  }

  // ---------- Steps ----------

  /** The records of a service and the one the worker holds lose the destroyed one, and no other. */
  lemma TargetPointers(v: Svc, i: nat, w: Worker, choice: bool, n: nat, m: nat)
    requires Target(w, n) == Some(i) && i < n
    ensures InSvc(Changed(v, i, TargetChange(v, i, w, choice)), m) + Is(Dropped(TargetPc(v, i, w, choice)), m)
            + Is(Destroys(v, w, choice), m)
            == InSvc(v, m) + Is(Dropped(w), m)
  {
  }

  lemma FreeDropped(w: Worker, ctx: CtxState, busy: seq<nat>, n: nat)
    requires Target(w, n) == None
    ensures Dropped(FreePc(w, ctx, busy, n)) == Dropped(w) == None
  {
  }

  lemma WorkerPointers(s: State, choice: bool, m: nat)
    requires WorkerEnabled(s, choice)
    ensures var u := WorkerNext(s, choice);
            CountOf(u.refs, m) - Pointers(u, m) == CountOf(s.refs, m) - Pointers(s, m)
  {
    hide InSvc, InThreads, CountOf, Dropped, Is, Apply, Changed, TargetChange, TargetPc, FreePc, Destroys, DecRef,
         Target, WorkerReady, Counted;
    var c := WorkerChange(s, choice);
    var svcs := s.group.svcs;
    var u := WorkerNext(s, choice);
    var i := Target(s.worker, |svcs|);
    ApplySize(s.group, c);
    if i == None {
      FreeDropped(s.worker, s.ctx, s.group.busy, |svcs|);
      assert Apply(s.group, Keep) == s.group by {
        KeepGroup(s.group);
      }
    } else {
      var v := svcs[i.value];
      TargetOnly(v, i.value, s.worker, choice);
      forall j | 0 <= j < |svcs| && j != i.value
        ensures u.group.svcs[j] == svcs[j]
      {
        Touches(s.group, c, j);
        ElseKept(svcs[j], j, c);
      }
      SvcsUpdate(svcs, u.group.svcs, i.value, m);
      Touches(s.group, c, i.value);
      TargetPointers(v, i.value, s.worker, choice, |svcs|, m);
      var d := Destroys(v, s.worker, choice);
      IsCount(s, d, m);
    }
  }

  lemma IsCount(s: State, d: Option<Rec>, m: nat)
    requires Counted(s.refs, d)
    ensures CountOf(if d.Some? then DecRef(s.refs, d.value.msg) else s.refs, m) == CountOf(s.refs, m) - Is(d, m)
  {
    if d.Some? {
      DecCount(s.refs, d.value.msg, m);
    }
  }

  lemma KeepGroup(g: Group)
    ensures Apply(g, Keep) == g
  {
  }

  /** The group takes over the record that it accepts, and no other change concerns a message. */
  lemma PcPointers(g: Group, pc: Pc, m: nat)
    requires PcTarget(pc).Some? ==> PcTarget(pc).value < |g.svcs|
    ensures InSvcs(Apply(g, PcChange(g, pc)).svcs, m)
            == InSvcs(g.svcs, m) + (if PcChange(g, pc).Accept? then Is(Flying(pc), m) else 0)
  {
    hide Apply, InSvcs, Is, InState, AcceptState, LoadState;
    var c := PcChange(g, pc);
    var svcs' := Apply(g, c).svcs;
    ApplySize(g, c);
    forall j | 0 <= j < |g.svcs|
      ensures InSvc(svcs'[j], m) == InSvc(g.svcs[j], m) + (if c.Accept? && c.i == j then Is(Flying(pc), m) else 0)
    {
      Touches(g, c, j);
      ChangedCount(g.svcs[j], j, c, m);
    }
    if c.Accept? {
      SvcsUpdate(g.svcs, svcs', c.i, m);
    } else {
      SvcsSame(g.svcs, svcs', m);
    }
  }

  lemma ChangedCount(v: Svc, j: nat, c: Change, m: nat)
    requires !c.Edit?
    ensures InSvc(Changed(v, j, c), m) == InSvc(v, m) + (if c.Accept? && c.i == j then Is(Some(c.rec), m) else 0)
  {
    if c.Accept? {
      QueueAppend(v.queue, c.rec, m);
    }
  }

  /** The record in flight moves on to the group, or gains or loses its reference with the count. */
  lemma PcCounts(s: State, t: nat, m: nat)
    requires ThreadEnabled(s, t, Continue)
    ensures var pc := s.threads[t].pc;
            CountOf(PcRefs(pc, s.refs), m) - CountOf(s.refs, m)
            == Is(Flying(PcNext(s.group, pc, s.ctx, s.next)), m) - Is(Flying(pc), m)
               + (if PcChange(s.group, pc).Accept? then Is(Flying(pc), m) else 0)
  {
    hide MayCall, Resumable;
    var pc := s.threads[t].pc;
    if pc.SendAddRef? {
      IncCount(s.refs, pc.msg, m);
    } else if pc.SendRevert? {
      DecCount(s.refs, pc.rec.msg, m);
    }
  }

  lemma PcStepPointers(s: State, t: nat, m: nat)
    requires ThreadEnabled(s, t, Continue)
    ensures var u := PcStep(s, t);
            CountOf(u.refs, m) - Pointers(u, m) == CountOf(s.refs, m) - Pointers(s, m)
  {
    hide Apply, InSvcs, InThreads, CountOf, Is, Flying, PcChange, PcNext, PcRefs, MayCall, Dropped;
    var u := PcStep(s, t);
    ThreadsUpdate(s.threads, t, u.threads[t], m);
    PcPointers(s.group, s.threads[t].pc, m);
    PcCounts(s, t, m);
  }

  /** Outside the library, the user code takes and drops handles. */
  lemma CallPointers(s: State, t: nat, op: Op, m: nat)
    requires ThreadEnabled(s, t, op) && op != Continue
    ensures var u := ThreadNext(s, t, op);
            CountOf(u.refs, m) - Pointers(u, m) == CountOf(s.refs, m) - Pointers(s, m)
  {
    hide InSvcs, InThreads, CountOf, IncRef, DecRef, Dropped;
    var u := ThreadNext(s, t, op);
    ThreadsUpdate(s.threads, t, u.threads[t], m);
    match op {
      case Create(r) =>
        assert CountOf(s.refs[r := 1], m) == CountOf(s.refs, m) + (if r == m then 1 else 0) by {
          NewCount(s.refs, r, m);
        }
      case AddRef(r) =>
        IncCount(s.refs, r, m);
      case DropRef(r) =>
        DecCount(s.refs, r, m);
      case TakeCurrent =>
        IncCount(s.refs, Running(s).value.cur.value.msg, m);
      case _ =>
    }
  }

  lemma RefsPositive(s: State, a: Action)
    requires Enabled(s, a) && (forall m :: m in s.refs ==> s.refs[m] > 0)
    ensures var u := Next(s, a); forall m :: m in u.refs ==> u.refs[m] > 0
  {
    hide Apply, WorkerPc, WorkerChange, PcNext, PcChange, WorkerReady, MayCall, Destroys, Target;
  }

  lemma StepPointers(s: State, a: Action, m: nat)
    requires Enabled(s, a)
    ensures CountOf(Next(s, a).refs, m) - Pointers(Next(s, a), m) == CountOf(s.refs, m) - Pointers(s, m)
  {
    hide CountOf, Pointers, WorkerEnabled, ThreadEnabled, WorkerNext, PcStep;
    match a
    case WorkerStep(choice) => WorkerPointers(s, choice, m);
    case ThreadStep(t, op) =>
      if op == Continue {
        PcStepPointers(s, t, m);
      } else {
        CallPointers(s, t, op, m);
      }
  }

  lemma ConservedStep(s: State, a: Action)
    requires Enabled(s, a) && Conserved(s)
    ensures Conserved(Next(s, a))
  {
    hide CountOf, Pointers, Enabled, Next;
    RefsPositive(s, a);
    forall m: nat
      ensures CountOf(Next(s, a).refs, m) == Pointers(Next(s, a), m)
    {
      StepPointers(s, a, m);
    }
  }

  lemma KeepsPc(th: Thread, g: Group, ctx: CtxState, next: nat)
    requires Keeps(th) && (PcTarget(th.pc).Some? ==> PcTarget(th.pc).value < |g.svcs|)
    ensures Keeps(th.(pc := PcNext(g, th.pc, ctx, next)))
  {
  }

  lemma KeepsCall(s: State, t: nat, op: Op)
    requires ThreadEnabled(s, t, op) && op != Continue && Keeps(s.threads[t])
    ensures Keeps(ThreadNext(s, t, op).threads[t])
  {
    hide ThreadSafe;
  }

  lemma KeepsStep(s: State, a: Action)
    requires Enabled(s, a) && AllKeep(s.threads)
    ensures AllKeep(Next(s, a).threads)
  {
    hide Keeps, Apply, WorkerPc, WorkerChange, WorkerReady, WorkerSafe, WorkerRefs, PcRefs, PcChange, PcNext, MayCall;
    match a {
      case WorkerStep(_) =>
      case ThreadStep(t, op) =>
        if op == Continue {
          KeepsPc(s.threads[t], s.group, s.ctx, s.next);
        } else {
          KeepsCall(s, t, op);
        }
    }
  }

  // ---------- Nothing that is used is missing ----------

  lemma PointedExists(s: State, m: nat)
    requires Conserved(s) && Pointers(s, m) > 0
    ensures m in s.refs && s.refs[m] > 0
  {
    assert CountOf(s.refs, m) == Pointers(s, m);
  }

  /** The worker never destroys, and never follows, a record whose message is gone. */
  lemma WorkerIsSafe(s: State, choice: bool)
    requires Grounded(s) && Conserved(s)
    ensures WorkerSafe(s, choice)
  {
    hide Lists, AllAimed, Carrying, Conserved, InThreads, InSvcs, Target;
    var i := Target(s.worker, |s.group.svcs|);
    if i.Some? {
      var v := s.group.svcs[i.value];
      var d := Destroys(v, s.worker, choice);
      if d.Some? {
        SvcsHas(s.group.svcs, i.value, d.value.msg);
        PointedExists(s, d.value.msg);
      }
    }
  }

  /** A thread never uses a message that is gone, nor a service that does not exist. */
  lemma ThreadIsSafe(s: State, t: nat, op: Op)
    requires Grounded(s) && Conserved(s) && AllKeep(s.threads) && ThreadReady(s, t, op)
    ensures ThreadSafe(s, t, op)
  {
    hide Lists, Conserved, InThreads, InSvcs, Aimed, Carrying;
    var th := s.threads[t];
    match op {
      case Continue =>
        AimedAt(s, t);
        match th.pc {
          case SendAddRef(_, m, _) =>
            ThreadsHas(s.threads, t, m);
            PointedExists(s, m);
          case SendRevert(rec) =>
            ThreadsHas(s.threads, t, rec.msg);
            PointedExists(s, rec.msg);
          case _ =>
        }
      case AddRef(m) =>
        ThreadsHas(s.threads, t, m);
        PointedExists(s, m);
      case DropRef(m) =>
        ThreadsHas(s.threads, t, m);
        PointedExists(s, m);
      case TakeCurrent =>
        var i := s.worker.i;
        HandlerCurrent(s);
        SvcsHas(s.group.svcs, i, s.group.svcs[i].cur.value.msg);
        PointedExists(s, s.group.svcs[i].cur.value.msg);
      case _ =>
    }
  }

  lemma AimedAt(s: State, t: nat)
    requires AllAimed(s.group, s.threads) && t < |s.threads|
    ensures PcTarget(s.threads[t].pc).Some? ==> PcTarget(s.threads[t].pc).value < |s.group.svcs|
  {
  }

  lemma HandlerCurrent(s: State)
    requires Grounded(s) && s.worker.Handler?
    ensures s.worker.i < |s.group.svcs| && s.group.svcs[s.worker.i].cur.Some?
  {
    hide Lists, AllAimed;
    assert Carries(s.group.svcs[s.worker.i], s.worker);
  }
}
