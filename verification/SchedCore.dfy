/** The invariants of phases, lists and services together, over every step. */
module SchedCore {
  import opened NodeLists
  import opened Scheduler
  import opened SchedLists
  import opened SchedPhase
  import opened SchedService
  import opened Wrappers

  ghost predicate Services(g: Group, w: Worker, loaded: bool)
  {
    forall j :: 0 <= j < |g.svcs| ==> SvcOk(g.svcs[j], j, w, loaded)
  }

  ghost predicate AllAimed(g: Group, threads: seq<Thread>)
  {
    forall t :: 0 <= t < |threads| ==> Aimed(g, threads[t].pc)
  }

  /** The worker is at a service that exists. */
  predicate InRange(w: Worker, n: nat)
  {
    Target(w, n).Some? ==> Target(w, n).value < n
  }

  ghost predicate Core(s: State)
  {
    && Phase(s) && Lists(s.group) && Services(s.group, s.worker, s.loaded)
    && AllAimed(s.group, s.threads) && InRange(s.worker, |s.group.svcs|)
  }

  /** The step of the worker and service j. */
  lemma WorkerService(s: State, choice: bool, j: nat)
    requires WorkerEnabled(s, choice) && Core(s) && j < |s.group.svcs|
    ensures SvcOk(Changed(s.group.svcs[j], j, WorkerChange(s, choice)), j, WorkerPc(s, choice), s.loaded)
  {
    hide Lists, Phase, AllAimed, SvcOk, Changed, TargetChange, TargetPc, FreePc, WorkerReady, Target;
    var n := |s.group.svcs|;
    var v := s.group.svcs[j];
    var i := Target(s.worker, n);
    if i == None {
      FreeSvcOk(s, j);
      assert Changed(v, j, Keep) == v by {
        ElseKept(v, j, Keep);
      }
    } else if !s.loaded {
      CleanUntouched(s, choice, j);
    } else if j == i.value {
      TargetSvcOk(v, j, s.worker, choice, n);
    } else {
      OtherSvcOk(v, j, s.group.svcs[i.value], i.value, s.worker, choice, n);
      TargetOnly(s.group.svcs[i.value], i.value, s.worker, choice);
      ElseKept(v, j, WorkerChange(s, choice));
    }
  }

  lemma ElseKept(v: Svc, j: nat, c: Change)
    requires !c.Keep? ==> !c.Fix? && c.i != j
    ensures Changed(v, j, c) == v
  {
  }

  lemma TargetOnly(v: Svc, i: nat, w: Worker, choice: bool)
    ensures var c := TargetChange(v, i, w, choice); !c.Keep? ==> !c.Fix? && c.i == i
  {
  }

  /** Cleaning up a group that was never loaded changes nothing. */
  lemma CleanUntouched(s: State, choice: bool, j: nat)
    requires WorkerSafe(s, choice) && Core(s) && j < |s.group.svcs| && !s.loaded
             && Target(s.worker, |s.group.svcs|).Some?
    ensures SvcOk(Changed(s.group.svcs[j], j, WorkerChange(s, choice)), j, WorkerPc(s, choice), false)
  {
    hide Lists, Pcs, AllAimed;
    assert s.worker.Clean?;
  }

  lemma WorkerServices(s: State, choice: bool)
    requires WorkerEnabled(s, choice) && Core(s)
    ensures var u := WorkerNext(s, choice); Services(u.group, u.worker, u.loaded)
  {
    hide SvcOk, Core, Apply, Changed, WorkerChange, WorkerPc, WorkerReady;
    var u := WorkerNext(s, choice);
    var c := WorkerChange(s, choice);
    forall j | 0 <= j < |u.group.svcs|
      ensures SvcOk(u.group.svcs[j], j, u.worker, u.loaded)
    {
      ApplySize(s.group, c);
      Touches(s.group, c, j);
      WorkerService(s, choice, j);
    }
  }

  lemma ThreadServices(s: State, t: nat, op: Op)
    requires ThreadEnabled(s, t, op) && Core(s)
    ensures var u := ThreadNext(s, t, op); Services(u.group, u.worker, u.loaded)
  {
    hide SvcOk, Lists, Apply, Changed, PcChange, PcNext;
    var u := ThreadNext(s, t, op);
    if op == Continue {
      var pc := s.threads[t].pc;
      var c := PcChange(s.group, pc);
      PcAt(s, t);
      forall j | 0 <= j < |u.group.svcs|
        ensures SvcOk(u.group.svcs[j], j, u.worker, u.loaded)
      {
        ApplySize(s.group, c);
        Touches(s.group, c, j);
        ThreadSvcOk(s, pc, j);
      }
    }
  }

  lemma TargetRange(v: Svc, i: nat, w: Worker, choice: bool, n: nat)
    requires Target(w, n) == Some(i) && i < n
    ensures InRange(TargetPc(v, i, w, choice), n)
  {
  }

  lemma FreeRange(w: Worker, ctx: CtxState, busy: seq<nat>, n: nat)
    requires Target(w, n) == None && (busy != [] ==> busy[0] < n)
    ensures InRange(FreePc(w, ctx, busy, n), n)
  {
  }

  lemma RangeStep(s: State, choice: bool)
    requires WorkerEnabled(s, choice) && Lists(s.group)
    ensures InRange(WorkerPc(s, choice), |s.group.svcs|)
  {
    hide NoDup, WorkerReady, Target, TargetPc, FreePc;
    var n := |s.group.svcs|;
    var i := Target(s.worker, n);
    assert s.group.busy != [] ==> s.group.busy[0] in s.group.busy;
    if i.Some? {
      TargetRange(s.group.svcs[i.value], i.value, s.worker, choice, n);
    } else {
      FreeRange(s.worker, s.ctx, s.group.busy, n);
    }
  }

  /** Registration is not undone. */
  lemma EntryKept(g: Group, c: Change, j: nat)
    requires InGroup(g, c) && j < |g.svcs| && (c.Edit? ==> c.v.hasEntry == g.svcs[c.i].hasEntry)
    ensures |Apply(g, c).svcs| == |g.svcs| && Apply(g, c).svcs[j].hasEntry == g.svcs[j].hasEntry
  {
    hide Apply;
    ApplySize(g, c);
    Touches(g, c, j);
  }

  lemma AimedStep(g: Group, c: Change, pc: Pc)
    requires InGroup(g, c) && Aimed(g, pc) && (c.Edit? ==> c.v.hasEntry == g.svcs[c.i].hasEntry)
    ensures Aimed(Apply(g, c), pc)
  {
    hide Apply;
    ApplySize(g, c);
    if PcTarget(pc).Some? {
      EntryKept(g, c, PcTarget(pc).value);
    }
  }

  lemma TargetEntry(v: Svc, i: nat, w: Worker, choice: bool)
    ensures var c := TargetChange(v, i, w, choice);
            c.Edit? ==> c.v.hasEntry == v.hasEntry && c.v.state == v.state && c.i == i
  {
  }

  lemma WorkerAimed(s: State, choice: bool)
    requires WorkerEnabled(s, choice) && AllAimed(s.group, s.threads)
    ensures var u := WorkerNext(s, choice); AllAimed(u.group, u.threads)
  {
    hide Apply, Aimed, WorkerPc, TargetChange, WorkerReady, Target;
    var c := WorkerChange(s, choice);
    var i := Target(s.worker, |s.group.svcs|);
    if i.Some? {
      TargetEntry(s.group.svcs[i.value], i.value, s.worker, choice);
    }
    forall t | 0 <= t < |s.threads|
      ensures Aimed(Apply(s.group, c), s.threads[t].pc)
    {
      AimedStep(s.group, c, s.threads[t].pc);
    }
  }

  /** A thread goes on from pc; where it aims then, a service is registered. */
  lemma NextAimed(s: State, t: nat)
    requires ThreadEnabled(s, t, Continue) && Aimed(s.group, s.threads[t].pc)
    ensures Aimed(s.group, PcNext(s.group, s.threads[t].pc, s.ctx, s.next))
  {
    hide ThreadReady, Counted;
  }

  lemma ThreadAimed(s: State, t: nat, op: Op)
    requires ThreadEnabled(s, t, op) && AllAimed(s.group, s.threads)
    ensures var u := ThreadNext(s, t, op); AllAimed(u.group, u.threads)
  {
    hide Apply, Aimed, PcChange, PcNext, MayCall;
    var u := ThreadNext(s, t, op);
    if op == Continue {
      var c := PcChange(s.group, s.threads[t].pc);
      NextAimed(s, t);
      NoEdit(s.group, s.threads[t].pc);
      AimedStep(s.group, c, u.threads[t].pc);
      forall x | 0 <= x < |s.threads| && x != t
        ensures Aimed(u.group, u.threads[x].pc)
      {
        AimedStep(s.group, c, s.threads[x].pc);
      }
    } else {
      CallAims(s, t, op);
    }
  }

  lemma NoEdit(g: Group, pc: Pc)
    requires PcTarget(pc).Some? ==> PcTarget(pc).value < |g.svcs|
    ensures !PcChange(g, pc).Edit?
  {
  }

  lemma CallAims(s: State, t: nat, op: Op)
    requires ThreadEnabled(s, t, op) && op != Continue && Aimed(s.group, s.threads[t].pc)
    ensures Aimed(s.group, ThreadNext(s, t, op).threads[t].pc)
  {
    hide MayCall, Counted;
  }

  // ---------- What needs no phases ----------

  /** Whether there is a current record while the worker is at the service; nobody else changes that. */
  predicate Carries(v: Svc, w: Worker)
  {
    && (w.HookBefore? || w.Handler? || w.SetYield? || w.Finish? ==> v.cur.Some?)
    && (w.TearQueue? || w.TearHold? || w.TearDone? ==> v.cur == None)
  }

  ghost predicate Carrying(g: Group, w: Worker)
  {
    forall j :: 0 <= j < |g.svcs| && At(w) == Some(j) ==> Carries(g.svcs[j], w)
  }

  /** Lists, and where worker and threads are, whatever calls of eaf_load do. */
  ghost predicate Grounded(s: State)
  {
    Lists(s.group) && AllAimed(s.group, s.threads) && InRange(s.worker, |s.group.svcs|) && Carrying(s.group, s.worker)
  }

  lemma TargetCarries(v: Svc, i: nat, w: Worker, choice: bool, n: nat)
    requires Target(w, n) == Some(i) && i < n && (At(w) == Some(i) ==> Carries(v, w))
    ensures var w' := TargetPc(v, i, w, choice);
            && (At(w').Some? ==> At(w') == Some(i))
            && (At(w') == Some(i) ==> Carries(Changed(v, i, TargetChange(v, i, w, choice)), w'))
  {
  }

  lemma FreeCarries(w: Worker, ctx: CtxState, busy: seq<nat>, n: nat, v: Svc)
    requires Target(w, n) == None
    ensures At(FreePc(w, ctx, busy, n)).Some? ==> Carries(v, FreePc(w, ctx, busy, n))
  {
  }

  lemma WorkerCarries(s: State, choice: bool)
    requires WorkerEnabled(s, choice) && Carrying(s.group, s.worker)
    ensures var u := WorkerNext(s, choice); Carrying(u.group, u.worker)
  {
    hide Apply, Changed, TargetChange, TargetPc, FreePc, WorkerReady, Target, At, Carries, WorkerRefs;
    var u := WorkerNext(s, choice);
    var n := |s.group.svcs|;
    var i := Target(s.worker, n);
    ApplySize(s.group, WorkerChange(s, choice));
    forall j | 0 <= j < n && At(u.worker) == Some(j)
      ensures Carries(u.group.svcs[j], u.worker)
    {
      Touches(s.group, WorkerChange(s, choice), j);
      if i.Some? {
        TargetCarries(s.group.svcs[i.value], i.value, s.worker, choice, n);
      } else {
        FreeCarries(s.worker, s.ctx, s.group.busy, n, u.group.svcs[j]);
      }
    }
  }

  lemma ThreadCarries(s: State, t: nat, op: Op)
    requires ThreadEnabled(s, t, op) && Carrying(s.group, s.worker)
    ensures var u := ThreadNext(s, t, op); Carrying(u.group, u.worker)
  {
    hide Apply, PcChange, PcNext, MayCall, At, PcRefs;
    var u := ThreadNext(s, t, op);
    ThreadSize(s, t, op);
    if op == Continue {
      var c := PcChange(s.group, s.threads[t].pc);
      NoEdit(s.group, s.threads[t].pc);
      forall j | 0 <= j < |s.group.svcs| && At(s.worker) == Some(j)
        ensures Carries(u.group.svcs[j], s.worker)
      {
        Touches(s.group, c, j);
      }
    }
  }

  /** Every step of every interleaving keeps that. */
  lemma GroundedStep(s: State, a: Action)
    requires Enabled(s, a) && Grounded(s)
    ensures Grounded(Next(s, a))
  {
    hide Lists, AllAimed, Carrying, Apply, WorkerPc, WorkerChange, PcNext, PcChange, InRange, WorkerReady, WorkerSafe,
         MayCall, ThreadSafe;
    ListsStep(s, a);
    match a {
      case WorkerStep(choice) =>
        WorkerAimed(s, choice);
        WorkerCarries(s, choice);
        RangeStep(s, choice);
        ApplySize(s.group, WorkerChange(s, choice));
      case ThreadStep(t, op) =>
        ThreadAimed(s, t, op);
        ThreadCarries(s, t, op);
        ThreadSize(s, t, op);
    }
  }

  /** Core is an invariant: it holds at the start and every step of every interleaving keeps it. */
  lemma CoreStep(s: State, a: Action)
    requires Enabled(s, a) && LoadsOnce(s, a) && Core(s)
    ensures Core(Next(s, a))
  {
    hide Services, Lists, Phase, AllAimed, Apply, WorkerPc, WorkerChange, PcNext, PcChange, InRange, WorkerReady,
         WorkerSafe, MayCall, ThreadSafe;
    ListsStep(s, a);
    match a {
      case WorkerStep(choice) =>
        WorkerPhase(s, choice);
        WorkerServices(s, choice);
        WorkerAimed(s, choice);
        RangeStep(s, choice);
        ApplySize(s.group, WorkerChange(s, choice));
      case ThreadStep(t, op) =>
        ThreadPhase(s, t, op);
        ThreadServices(s, t, op);
        ThreadAimed(s, t, op);
        ThreadSize(s, t, op);
    }
  }

  lemma ThreadSize(s: State, t: nat, op: Op)
    requires ThreadEnabled(s, t, op)
    ensures var u := ThreadNext(s, t, op); |u.group.svcs| == |s.group.svcs| && u.worker == s.worker
  {
    hide Apply, MayCall, PcNext;
    if op == Continue {
      ApplySize(s.group, PcChange(s.group, s.threads[t].pc));
    }
  }

  lemma {:induction false} RangeHas(k: nat, n: nat)
    requires k <= n
    ensures NoDup(Range(k, n))
    ensures forall i :: i in Range(k, n) <==> k <= i < n
    decreases n - k
  {
    if k < n {
      RangeHas(k + 1, n);
      var rest := Range(k + 1, n);
      assert Range(k, n) == [k] + rest;
      assert forall j :: 0 <= j < |rest| ==> rest[j] in rest;
    }
  }

  lemma InitialCore(s: State)
    requires Initial(s)
    ensures Core(s) && Grounded(s)
  {
    RangeHas(0, |s.group.svcs|);
  }
}
