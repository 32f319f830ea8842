/**
 The worker by itself: with no other thread moving and every handler run to its
 end, it comes to rest, and then everything that it can do has been done.
 */
module SchedProgress {
  import opened NodeLists
  import opened Scheduler
  import opened SchedLists
  import opened SchedPhase
  import opened SchedService
  import opened SchedCore
  import opened SchedWake
  import opened SchedFlow
  import opened SchedRefs
  import opened SchedRuns
  import opened SchedEffects
  import opened SchedLoads
  import opened Wrappers

  /** The worker waits: for a post, for its own thread in a call, for the last caller before cleanup, or for nothing. */
  predicate Rests(s: State)
  {
    || ((s.worker.PendStart? || s.worker.Pend?) && s.sem == 0)
    || (InUserCode(s.worker) && (|s.threads| == 0 || s.threads[0].pc != Outside))
    || (s.worker.Done? && exists t :: 0 <= t < |s.threads| && s.threads[t].pc != Outside)
    || s.worker.Cleaned?
  }

  // ---------- How much is left to do ----------

  function Weight(v: Svc): nat
  {
    |v.queue| + if v.cur.Some? then 1 else 0
  }

  /** The records that are queued or in progress. */
  function Load(svcs: seq<Svc>): nat
  {
    if svcs == [] then 0 else Weight(svcs[0]) + Load(svcs[1..])
  }

  lemma {:induction false} LoadUpdate(svcs: seq<Svc>, i: nat, v: Svc)
    requires i < |svcs|
    ensures Load(svcs[i := v]) == Load(svcs) - Weight(svcs[i]) + Weight(v)
  {
    hide Weight;
    if i > 0 {
      assert svcs[i := v][1..] == svcs[1..][i - 1 := v];
      LoadUpdate(svcs[1..], i - 1, v);
    } else {
      assert svcs[i := v][1..] == svcs[1..];
    }
  }

  lemma {:induction false} LoadAt(svcs: seq<Svc>, i: nat)
    requires i < |svcs|
    ensures Load(svcs) >= Weight(svcs[i])
  {
    if i > 0 {
      LoadAt(svcs[1..], i - 1);
    }
  }

  /** The stages of the worker, from the wait for loading to the end of cleanup. */
  function Stage(w: Worker): nat
  {
    match w
    case WaitStart => 7
    case PendStart => 7
    case CheckBusy => 7
    case InitNecessary(_, _) => 6
    case Ready(_) => 6
    case OnInit(_, for_) => if for_.Necessary? then 6 else if for_.mode == CtxBusy then 5 else 3
    case TearCheck => 4
    case Tear(_) => 4
    case TearOnExit(_) => 4
    case TearCurrent(_) => 4
    case TearQueue(_) => 4
    case TearHold(_, _) => 4
    case TearDone(_) => 4
    case ExitFrom(_) => 2
    case OnExit(_) => 2
    case Done => 1
    case Clean(_) => 1
    case Cleaned => 0
    case _ => if LoopMode(w) == Some(CtxBusy) then 5 else 3
  }

  function Left(n: nat, i: nat): nat
  {
    if i < n then n - i else 0
  }

  /** What is left of a stage, in a group of n services with b busy ones, r records, and m posts to take. */
  function Steps(w: Worker, n: nat, b: nat, r: nat, m: nat): nat
  {
    match w
    case WaitStart => 2 * m + 2
    case PendStart => 2 * m + 1
    case CheckBusy => 0
    case InitNecessary(i, _) => 2 * Left(n, i) + 1
    case OnInit(i, for_) => if for_.Necessary? then 2 * Left(n, i) else 12 * (r + b + m) + 7
    case Ready(_) => 0
    case Loop(_) => 12 * (r + b + m) + 11
    case First(_) => 12 * (r + b + m) + 10
    case Pend(_) => 12 * (r + b + m) + 9
    case TryPend(_, _) => 12 * (r + b + m) + 9
    case Handle(_, _) => 12 * (r + b + m) + 8
    case Dispatch(_, _) => 12 * (r + b + m) + 6
    case HookBefore(_, _) => 12 * (r + b + m) + 5
    case Handler(_, _) => 12 * (r + b + m) + 4
    case SetYield(_, _) => 12 * (r + b + m) + 2
    case YieldHook(_, _) => 12 * (r + b + m) + 12
    case Finish(_, _) => 12 * (r + b + m) + 3
    case TearCheck => 10 * n + 3 * r + 20
    case Tear(i) => 10 * Left(n, i) + 3 * r + 9
    case TearOnExit(i) => 10 * Left(n, i) + 3 * r + 8
    case TearCurrent(i) => 10 * Left(n, i) + 3 * r + 7
    case TearQueue(i) => 10 * Left(n, i) + 3 * r + 6
    case TearHold(i, _) => 10 * Left(n, i) + 3 * r + 8
    case TearDone(i) => 10 * Left(n, i) + 3 * r + 5
    case ExitFrom(k) => 2 * k + 1
    case OnExit(i) => 2 * i + 2
    case Done => 2 * r + n + 2
    case Clean(i) => 2 * r + Left(n, i) + 1
    case Cleaned => 0
  }

  function StepsOf(s: State): nat
  {
    Steps(s.worker, |s.group.svcs|, |s.group.busy|, Load(s.group.svcs), s.sem)
  }

  /** From s to u less is left to do. */
  predicate Less(s: State, u: State)
  {
    Stage(u.worker) < Stage(s.worker) || (Stage(u.worker) == Stage(s.worker) && StepsOf(u) < StepsOf(s))
  }

  // ---------- Every step of the worker leaves less to do ----------

  lemma EraseLength(list: seq<nat>, i: nat)
    ensures |Erase(list, i)| == if i in list then |list| - 1 else |list|
  {
  }

  lemma SetStateBusy(g: Group, i: nat, st: SvcState)
    requires i < |g.svcs| && Lists(g)
    ensures |SetState(g, i, st).busy|
            == |g.busy| - (if InBusyList(g.svcs[i].state) then 1 else 0) + (if InBusyList(st) then 1 else 0)
  {
    EraseLength(g.busy, i);
  }

  lemma InitBusy(g: Group, i: nat)
    requires i < |g.svcs| && Lists(g) && g.svcs[i].state == Init1
    ensures |FinishInit(g, i).busy| <= |g.busy|
  {
    hide Lists, SetState;
    SetStateLists(g, i, Idle);
    SetStateBusy(g, i, Idle);
    SetStateBusy(SetState(g, i, Idle), i, Busy);
    StateSet(g, i);
  }

  lemma StateSet(g: Group, i: nat)
    requires i < |g.svcs|
    ensures |SetState(g, i, Idle).svcs| == |g.svcs| && SetState(g, i, Idle).svcs[i].state == Idle
  {
  }

  /** The records after a step of the worker, which concerns its target alone. */
  lemma LoadAfter(s: State, choice: bool)
    requires WorkerEnabled(s, choice)
    ensures |WorkerNext(s, choice).group.svcs| == |s.group.svcs|
    ensures var i := Target(s.worker, |s.group.svcs|);
            var svcs := WorkerNext(s, choice).group.svcs;
            if i.Some? then i.value < |s.group.svcs|
                            && Load(svcs) == Load(s.group.svcs) - Weight(s.group.svcs[i.value]) + Weight(svcs[i.value])
            else svcs == s.group.svcs
  {
    hide Apply, WorkerPc, WorkerRefs, WorkerReady, TargetChange, Target, Changed, Weight, Load;
    WorkTouches(s, choice);
    var i := Target(s.worker, |s.group.svcs|);
    var svcs := WorkerNext(s, choice).group.svcs;
    forall j | 0 <= j < |s.group.svcs|
      ensures i == None || j != i.value ==> svcs[j] == s.group.svcs[j]
    {
      ElseKept(s.group.svcs[j], j, Keep);
      if i.Some? && j != i.value {
        TargetOnly(s.group.svcs[i.value], i.value, s.worker, choice);
        ElseKept(s.group.svcs[j], j, WorkerChange(s, choice));
      }
    }
    if i.Some? {
      assert svcs == s.group.svcs[i.value := svcs[i.value]];
      LoadUpdate(s.group.svcs, i.value, svcs[i.value]);
    }
  }

  /** A step that has no target. */
  lemma FreeLess(s: State)
    requires WorkerEnabled(s, false) && Target(s.worker, |s.group.svcs|) == None && ModeOk(s.worker)
    ensures Less(s, WorkerNext(s, false))
  {
    hide Load, Apply;
    LoadAfter(s, false);
    KeepGroup(s.group);
  }

  /** A step of the first round, or of the last one. */
  lemma RoundLess(s: State)
    requires WorkerEnabled(s, false) && Target(s.worker, |s.group.svcs|).Some? && Grounded(s)
    requires LoopMode(s.worker) == None
             && (s.worker.InitNecessary? || s.worker.OnInit? || s.worker.ExitFrom? || s.worker.OnExit?)
    ensures Less(s, WorkerNext(s, false))
  {
    hide Load, Apply, Lists, AllAimed, Carrying, WorkerRefs;
    LoadAfter(s, false);
    WorkTouches(s, false);
    LoadAt(s.group.svcs, Target(s.worker, |s.group.svcs|).value);
  }

  /** A step of the teardown. */
  lemma TearLess(s: State)
    requires WorkerEnabled(s, false) && Target(s.worker, |s.group.svcs|).Some? && Grounded(s)
    requires s.worker.Tear? || s.worker.TearOnExit? || s.worker.TearCurrent? || s.worker.TearQueue?
             || s.worker.TearHold?
             || s.worker.TearDone?
    ensures Less(s, WorkerNext(s, false))
  {
    hide Load, Apply, Lists, AllAimed, Carrying, WorkerRefs;
    LoadAfter(s, false);
    WorkTouches(s, false);
    LoadAt(s.group.svcs, Target(s.worker, |s.group.svcs|).value);
  }

  /** A step of cleanup. */
  lemma CleanLess(s: State)
    requires WorkerEnabled(s, false) && Target(s.worker, |s.group.svcs|).Some? && Grounded(s)
    requires s.worker.Clean?
    ensures Less(s, WorkerNext(s, false))
  {
    hide Load, Apply, Lists, AllAimed, Carrying, WorkerRefs;
    LoadAfter(s, false);
    WorkTouches(s, false);
    LoadAt(s.group.svcs, Target(s.worker, |s.group.svcs|).value);
  }

  /** The step of the event loop at service i keeps the records or finishes one, and keeps busy_list or shortens it. */
  lemma ServingBusy(s: State)
    requires WorkerEnabled(s, false) && Target(s.worker, |s.group.svcs|).Some? && Lists(s.group)
    requires LoopMode(s.worker).Some? && Held(s.group.svcs[s.worker.i], s.worker) && s.worker.i < |s.group.svcs|
    requires s.worker.YieldHook? || Target(s.worker, |s.group.svcs|).value == s.worker.i
    ensures var b := |WorkerNext(s, false).group.busy|;
            && b <= |s.group.busy|
            && (s.worker.SetYield? ==> b < |s.group.busy|)
            && (s.worker.Dispatch? && s.group.svcs[s.worker.i].cur == None && s.group.svcs[s.worker.i].queue == [] ==>
                  b < |s.group.busy|)
  {
    hide Lists, SetState, FinishInit, WorkerRefs;
    var g, i := s.group, s.worker.i;
    KeepGroup(g);
    SetStateBusy(g, i, Idle);
    SetStateBusy(g, i, Yielded);
    if s.worker.OnInit? {
      InitBusy(g, i);
    }
  }

  lemma ServingLess(s: State)
    requires WorkerEnabled(s, false) && Target(s.worker, |s.group.svcs|).Some? && Lists(s.group)
    requires LoopMode(s.worker).Some? && s.worker.i < |s.group.svcs| && Held(s.group.svcs[s.worker.i], s.worker)
    ensures Less(s, WorkerNext(s, false))
  {
    hide Load, Apply, Lists, WorkerRefs;
    LoadAfter(s, false);
    WorkTouches(s, false);
    ServingBusy(s);
    LoadAt(s.group.svcs, s.worker.i);
  }

  lemma WorkerLess(s: State)
    requires WorkerEnabled(s, false) && Core(s) && Grounded(s) && ModeOk(s.worker)
    ensures Less(s, WorkerNext(s, false))
  {
    hide Phase, AllAimed, Carrying, Lists, WorkerEnabled, WorkerNext, Less, Shape, Exits, ModeOk;
    if Target(s.worker, |s.group.svcs|) == None {
      FreeLess(s);
    } else if s.worker.Clean? {
      CleanLess(s);
    } else if LoopMode(s.worker).Some? {
      var i := Target(s.worker, |s.group.svcs|).value;
      assert SvcOk(s.group.svcs[i], i, s.worker, s.loaded);
      LoopLoaded(s);
      ServingLess(s);
    } else if s.worker.InitNecessary? || s.worker.OnInit? || s.worker.ExitFrom? || s.worker.OnExit? {
      RoundLess(s);
    } else {
      TearLess(s);
    }
  }

  lemma LoopLoaded(s: State)
    requires Core(s) && LoopMode(s.worker).Some?
    ensures s.loaded
  {
    hide Lists, Services, AllAimed, Pcs;
  }

  /** A worker that does not rest may take a step. */
  lemma Moves(s: State)
    requires !Rests(s)
    ensures WorkerReady(s)
  {
  }

  // ---------- To its rest ----------

  /** The run goes on from ss by steps of the worker alone, whose handlers run to their end. */
  ghost predicate ByWorker(ss: seq<State>, as_: seq<Action>, ss': seq<State>, as': seq<Action>)
  {
    && ss <= ss' && as_ <= as' && |ss'| == |as'| + 1 && ss != []
    && (forall k :: |as_| <= k < |as'| ==> as'[k] == WorkerStep(false))
    && ss'[|ss'| - 1].threads == ss[|ss| - 1].threads && ss'[|ss'| - 1].ctx == ss[|ss| - 1].ctx
  }

  lemma OneMore(ss: seq<State>, as_: seq<Action>) returns (ss': seq<State>, as': seq<Action>)
    requires Run(ss, as_) && LoadsApart(ss, as_) && ss != [] && WorkerEnabled(ss[|ss| - 1], false)
    ensures Run(ss', as') && LoadsApart(ss', as') && ByWorker(ss, as_, ss', as')
    ensures ss'[|ss'| - 1] == WorkerNext(ss[|ss| - 1], false)
  {
    hide Initial, WorkerEnabled, Apply, WorkerPc, WorkerChange, WorkerRefs;
    ss', as' := ss + [WorkerNext(ss[|ss| - 1], false)], as_ + [WorkerStep(false)];
  }

  /** From any state of any run with one load, the worker comes to rest by itself. */
  lemma {:induction false} ComesToRest(ss: seq<State>, as_: seq<Action>) returns (ss': seq<State>, as': seq<Action>)
    requires Run(ss, as_) && LoadsApart(ss, as_) && ss != []
    ensures Run(ss', as') && LoadsApart(ss', as') && ByWorker(ss, as_, ss', as') && Rests(ss'[|ss'| - 1])
    decreases Stage(ss[|ss| - 1].worker), StepsOf(ss[|ss| - 1])
  {
    hide Run, LoadsApart, Rests, WorkerNext, WorkerReady, WorkerSafe, StepsOf, Stage, Wake;
    var s := ss[|ss| - 1];
    var k := |ss| - 1;
    RunIs(ss, as_);
    if Rests(s) {
      ss', as' := ss, as_;
    } else {
      Moves(s);
      NeverFaults(ss, as_, k);
      RunInv(ss, as_, k);
      GroundedAt(ss, as_, k);
      RunMode(ss, as_, k);
      WorkerLess(s);
      var us, bs := OneMore(ss, as_);
      ss', as' := ComesToRest(us, bs);
    }
  }

  lemma RunIs(ss: seq<State>, as_: seq<Action>)
    requires Run(ss, as_)
    ensures |ss| == |as_| + 1
  {
  }

  lemma GroundedAt(ss: seq<State>, as_: seq<Action>, k: nat)
    requires Run(ss, as_) && k < |ss|
    ensures Grounded(ss[k])
  {
    hide Run, Grounded;
    RunSound(ss, as_, k);
  }

  /**
   With no call under way in a busy context: the worker ends, or is blocked with
   every service parked, ended, or with all it has accepted finished.
   */
  lemma AllServed(ss: seq<State>, as_: seq<Action>) returns (ss': seq<State>, as': seq<Action>)
    requires Run(ss, as_) && LoadsApart(ss, as_) && ss != [] && ss[|ss| - 1].ctx == CtxBusy
    requires |ss[|ss| - 1].threads| > 0 && forall th :: th in ss[|ss| - 1].threads ==> th.pc == Outside
    ensures Run(ss', as') && ByWorker(ss, as_, ss', as')
    ensures var s := ss'[|ss'| - 1];
            || s.worker.Cleaned?
            || (s.worker == Pend(CtxBusy) && s.sem == 0 && s.group.busy == []
                && forall j :: 0 <= j < |s.group.svcs| ==>
                     var v := s.group.svcs[j];
                     || v.state == Yielded || v.state == Exit1
                     || ((v.state == Idle || v.state == Init2) && v.accepted == v.finished))
  {
    hide Run, LoadsApart, Hold;
    ss', as' := ComesToRest(ss, as_);
    var s, k := ss'[|ss'| - 1], |ss'| - 1;
    assert forall t :: 0 <= t < |s.threads| ==> s.threads[t] in ss[|ss| - 1].threads;
    if !s.worker.Cleaned? {
      NoLostWakeup(ss', as', k);
      forall j | 0 <= j < |s.group.svcs|
        ensures var v := s.group.svcs[j];
                || v.state == Yielded || v.state == Exit1
                || ((v.state == Idle || v.state == Init2) && v.accepted == v.finished)
      {
        assert s.group.svcs[j] in s.group.svcs;
        FirstInFirstOut(ss', as', k, j);
        NotHeld(s.worker, j);
      }
    }
  }

  lemma NotHeld(w: Worker, j: nat)
    requires w.Pend?
    ensures Hold(w, j) == []
  {
  }

  /** With no call under way after an exit, the worker runs to the end of cleanup. */
  lemma ExitCleansUp(ss: seq<State>, as_: seq<Action>) returns (ss': seq<State>, as': seq<Action>)
    requires Run(ss, as_) && LoadsApart(ss, as_) && ss != [] && ss[|ss| - 1].ctx == CtxExit
    requires |ss[|ss| - 1].threads| > 0 && forall th :: th in ss[|ss| - 1].threads ==> th.pc == Outside
    ensures Run(ss', as') && ByWorker(ss, as_, ss', as') && ss'[|ss'| - 1].worker == Cleaned
  {
    hide Run, LoadsApart;
    ss', as' := ComesToRest(ss, as_);
    var s, k := ss'[|ss'| - 1], |ss'| - 1;
    assert forall t :: 0 <= t < |s.threads| ==> s.threads[t] in ss[|ss| - 1].threads;
    if !s.worker.Cleaned? {
      NoLostWakeup(ss', as', k);
      RunMode(ss', as', k);
    }
  }
}
