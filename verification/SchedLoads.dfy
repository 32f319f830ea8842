/**
 What calls of eaf_load, eaf_exit and eaf_teardown do to each other: their
 checks of the context are made outside the lock, and each sets it without
 looking at it again.
 */
module SchedLoads {
  import opened Messages
  import opened Scheduler
  import opened SchedLists
  import opened SchedService
  import opened SchedRefs
  import opened SchedRuns
  import opened Wrappers

  // ---------- Once loading is over ----------

  /** No call of eaf_load can take effect any more. */
  ghost predicate LoadOver(ctx: CtxState, threads: seq<Thread>)
  {
    ctx != CtxInit && forall t :: 0 <= t < |threads| ==> !threads[t].pc.LoadFix? && !threads[t].pc.LoadSet?
  }

  lemma PcSettles(g: Group, pc: Pc, ctx: CtxState, next: nat)
    requires ctx != CtxInit && !pc.LoadFix? && !pc.LoadSet? && (PcTarget(pc).Some? ==> PcTarget(pc).value < |g.svcs|)
    ensures var pc' := PcNext(g, pc, ctx, next); !pc'.LoadFix? && !pc'.LoadSet?
    ensures PcCtx(pc, ctx) != CtxInit && (ctx != CtxBusy ==> PcCtx(pc, ctx) != CtxBusy)
  {
  }

  lemma ThreadSettles(s: State, t: nat, op: Op)
    requires ThreadEnabled(s, t, op) && LoadOver(s.ctx, s.threads)
    ensures var u := ThreadNext(s, t, op); LoadOver(u.ctx, u.threads) && (s.ctx != CtxBusy ==> u.ctx != CtxBusy)
  {
    hide Apply, PcChange, PcRefs, PcNext, PcCtx, IncRef, DecRef, MayCall;
    if op == Continue {
      PcSettles(s.group, s.threads[t].pc, s.ctx, s.next);
    }
  }

  lemma SettledStep(s: State, a: Action)
    requires Enabled(s, a) && LoadOver(s.ctx, s.threads)
    ensures var u := Next(s, a); LoadOver(u.ctx, u.threads) && (s.ctx != CtxBusy ==> u.ctx != CtxBusy)
  {
    hide LoadOver, Apply, WorkerPc, WorkerChange, WorkerRefs, WorkerEnabled, ThreadNext;
    if a.ThreadStep? {
      ThreadSettles(s, a.t, a.op);
    }
  }

  /** Once no load is under way, the context that a request to tear down or to exit has set is never busy again. */
  lemma {:induction false} ExitStays(ss: seq<State>, as_: seq<Action>, k: nat, l: nat)
    requires Run(ss, as_) && k <= l < |ss| && LoadOver(ss[k].ctx, ss[k].threads) && ss[k].ctx != CtxBusy
    ensures LoadOver(ss[l].ctx, ss[l].threads) && ss[l].ctx != CtxBusy
    decreases l
  {
    hide Run, LoadOver, Enabled, Next;
    if k < l {
      RunStart(ss, as_);
      ExitStays(ss, as_, k, l - 1);
      RunStep(ss, as_, l - 1);
      SettledStep(ss[l - 1], as_[l - 1]);
    }
  }

  /** A request is overwritten in just the steps in which a call of eaf_load sets the context. */
  lemma OverwrittenBy(s: State, a: Action)
    requires Enabled(s, a) && s.ctx != CtxBusy
    ensures Next(s, a).ctx == CtxBusy <==> StepsAt(s, a, LoadSet)
  {
    hide Apply, WorkerPc, WorkerChange, WorkerRefs, WorkerEnabled, ThreadSafe, PcNext, PcChange, PcRefs;
  }

  /** A requested exit is overwritten in just the steps in which another call sets the context to something else. */
  lemma ExitOverwrittenBy(s: State, a: Action)
    requires Enabled(s, a) && s.ctx == CtxExit
    ensures Next(s, a).ctx != CtxExit <==> Overwrites(s, a)
  {
    hide Apply, WorkerPc, WorkerChange, WorkerRefs, WorkerEnabled, ThreadSafe, PcNext, PcChange, PcRefs;
  }

  /** A call of eaf_load sets the context, or one of eaf_teardown, which refuses during a teardown only. */
  predicate Overwrites(s: State, a: Action)
  {
    StepsAt(s, a, LoadSet) || StepsAt(s, a, ExitSet(true))
  }

  lemma {:induction false} ExitHolds(ss: seq<State>, as_: seq<Action>, k: nat, l: nat)
    requires Run(ss, as_) && k <= l < |ss| && ss[k].ctx == CtxExit
    requires forall i :: k <= i < l ==> !Overwrites(ss[i], as_[i])
    ensures ss[l].ctx == CtxExit
    decreases l
  {
    hide Run, Overwrites, Enabled, Next;
    if k < l {
      RunStart(ss, as_);
      ExitHolds(ss, as_, k, l - 1);
      RunStep(ss, as_, l - 1);
      ExitOverwrittenBy(ss[l - 1], as_[l - 1]);
    }
  }

  /** The step in which a call of eaf_load fixes the states does so whatever they are, an exited service included. */
  lemma FixUndoes(s: State, a: Action, j: nat)
    requires Enabled(s, a) && StepsAt(s, a, LoadFix) && j < |s.group.svcs|
    ensures j < |Next(s, a).group.svcs| && Next(s, a).group.svcs[j].state == LoadState(s.group.svcs[j])
  {
    hide Apply, ThreadSafe, PcRefs;
    Touches(s.group, Fix, j);
  }

  // ---------- An exit is noticed ----------

  /** The event loop runs for the busy state or for the teardown. */
  predicate ModeOk(w: Worker)
  {
    LoopMode(w).Some? ==> LoopMode(w).value == CtxBusy || LoopMode(w).value == CtxTeardown
  }

  lemma TargetMode(v: Svc, i: nat, w: Worker, choice: bool, n: nat)
    requires Target(w, n) == Some(i) && ModeOk(w)
    ensures ModeOk(TargetPc(v, i, w, choice))
  {
  }

  lemma FreeMode(w: Worker, ctx: CtxState, busy: seq<nat>, n: nat)
    requires ModeOk(w)
    ensures ModeOk(FreePc(w, ctx, busy, n))
  {
  }

  lemma ModeStep(s: State, a: Action)
    requires Enabled(s, a) && ModeOk(s.worker)
    ensures ModeOk(Next(s, a).worker)
  {
    hide ModeOk, Target, TargetPc, FreePc, Apply, WorkerChange, WorkerRefs, WorkerReady, ThreadEnabled, PcStep;
    match a {
      case WorkerStep(choice) =>
        var i := Target(s.worker, |s.group.svcs|);
        if i.Some? {
          TargetMode(s.group.svcs[i.value], i.value, s.worker, choice, |s.group.svcs|);
        } else {
          FreeMode(s.worker, s.ctx, s.group.busy, |s.group.svcs|);
        }
      case ThreadStep(t, op) =>
        SameWorker(s, t, op);
    }
  }

  lemma SameWorker(s: State, t: nat, op: Op)
    requires ThreadEnabled(s, t, op)
    ensures ThreadNext(s, t, op).worker == s.worker
  {
    hide Apply, ThreadSafe, MayCall;
  }

  lemma {:induction false} RunMode(ss: seq<State>, as_: seq<Action>, k: nat)
    requires Run(ss, as_) && k < |ss|
    ensures ModeOk(ss[k].worker)
  {
    hide Run, Enabled, Next, ModeOk;
    RunStart(ss, as_);
    if k == 0 {
      assert ModeOk(WaitStart) by {
        StartMode();
      }
    } else {
      RunMode(ss, as_, k - 1);
      RunStep(ss, as_, k - 1);
      ModeStep(ss[k - 1], as_[k - 1]);
    }
  }

  lemma StartMode()
    ensures ModeOk(WaitStart)
  {
  }

  /** A requested exit that is not overwritten reaches the worker, which is not blocked unless a post is to come. */
  lemma ExitNoticed(ss: seq<State>, as_: seq<Action>, k: nat, l: nat)
    requires Run(ss, as_) && LoadsApart(ss, as_) && k <= l < |ss| && ss[k].ctx == CtxExit
    requires forall i :: k <= i < l ==> !Overwrites(ss[i], as_[i])
    requires ss[l].sem == 0 && forall t :: 0 <= t < |ss[l].threads| ==> ss[l].threads[t].pc != Post
    ensures ss[l].ctx == CtxExit && !ss[l].worker.PendStart? && !ss[l].worker.Pend?
  {
    hide Run, LoadsApart, Overwrites;
    ExitHolds(ss, as_, k, l);
    NoLostWakeup(ss, as_, l);
    RunMode(ss, as_, l);
  }

  /**
   After a request to tear down or to exit, with no load under way, the worker
   is blocked with no post made or pending during a teardown only, and then
   with nothing to do.
   */
  lemma RequestNoticed(ss: seq<State>, as_: seq<Action>, k: nat, l: nat)
    requires Run(ss, as_) && LoadsApart(ss, as_) && k <= l < |ss|
    requires LoadOver(ss[k].ctx, ss[k].threads) && ss[k].ctx != CtxBusy
    requires ss[l].sem == 0 && forall t :: 0 <= t < |ss[l].threads| ==> ss[l].threads[t].pc != Post
    ensures !ss[l].worker.PendStart?
    ensures ss[l].worker.Pend? ==> ss[l].ctx == CtxTeardown && ss[l].group.busy == []
  {
    hide Run, LoadsApart;
    ExitStays(ss, as_, k, l);
    NoLostWakeup(ss, as_, l);
    RunMode(ss, as_, l);
  }

  // ---------- Runs ----------

  lemma Then(ss: seq<State>, as_: seq<Action>, a: Action, u: State) returns (ss': seq<State>, as': seq<Action>)
    requires ss != [] && Run(ss, as_) && Enabled(ss[|ss| - 1], a) && Next(ss[|ss| - 1], a) == u
    ensures |ss'| == |ss| + 1 && Run(ss', as') && ss'[|ss'| - 1] == u && ss <= ss'
    ensures LoadsApart(ss, as_) && LoadsOnce(ss[|ss| - 1], a) ==> LoadsApart(ss', as')
  {
    hide Initial, Enabled, Next, LoadsOnce;
    ss', as' := ss + [u], as_ + [a];
  }

  /** A service that is registered, and not lazy. */
  function Plain(state: SvcState, exits: nat): Svc
  {
    Svc(true, false, false, 1, state, None, [], [], [], exits)
  }

  /** A group of that service, and two threads beside the worker. */
  function Two(ctx: CtxState, started: bool, loaded: bool, group: Group, sem: nat, worker: Worker,
               p1: Pc, p2: Pc): State
  {
    State(ctx, started, loaded, group, sem, worker,
          [Thread(Outside, multiset{}), Thread(p1, multiset{}), Thread(p2, multiset{})], map[], 0)
  }

  lemma BeginsLoad() returns (ss: seq<State>, as_: seq<Action>)
    ensures ss != [] && Run(ss, as_) && LoadsApart(ss, as_)
    ensures ss[|ss| - 1]
            == Two(CtxInit, false, false, Group([Plain(Init0, 0)], [], [0]), 0, WaitStart, LoadCheck, Outside)
  {
    hide Run, WorkerEnabled, WorkerNext, Apply;
    var g := Group([Plain(Init0, 0)], [], [0]);
    var s0 := Two(CtxInit, false, false, g, 0, WaitStart, Outside, Outside);
    assert Run([s0], []) by {
      NoSteps(s0);
    }
    ss, as_ := Then([s0], [], ThreadStep(1, CallLoad), Two(CtxInit, false, false, g, 0, WaitStart, LoadCheck, Outside));
  }

  lemma CallsLoad() returns (ss: seq<State>, as_: seq<Action>)
    ensures ss != [] && Run(ss, as_) && LoadsApart(ss, as_)
    ensures ss[|ss| - 1] == Two(CtxInit, true, false, Group([Plain(Init0, 0)], [], [0]), 0, WaitStart, LoadFix, Outside)
  {
    hide Run, WorkerEnabled, WorkerNext, Apply;
    var g := Group([Plain(Init0, 0)], [], [0]);
    ss, as_ := BeginsLoad();
    KeepGroup(g);
    ss, as_ := Then(ss, as_, ThreadStep(1, Continue), Two(CtxInit, true, false, g, 0, WaitStart, LoadFix, Outside));
  }

  lemma NoSteps(s: State)
    requires Initial(s)
    ensures Run([s], [])
  {
  }

  /**
   eaf_load fixes the states, eaf_exit sets the context and returns, and eaf_load
   sets it to busy: the exit is lost.
   */
  lemma ExitLost()
    ensures exists ss: seq<State>, as_: seq<Action> ::
              && |ss| > 1 && Run(ss, as_) && LoadsApart(ss, as_)
              && ss[|ss| - 2].ctx == CtxExit && AllButOne(ss[|ss| - 2].threads) && ss[|ss| - 1].ctx == CtxBusy
  {
    hide Run, LoadsApart, WorkerEnabled, WorkerNext, Apply;
    var g := Group([Plain(Init1, 0)], [0], []);
    var ss, as_ := CallsLoad();
    FixGroup();
    ss, as_ := Then(ss, as_, ThreadStep(1, Continue), Two(CtxInit, true, true, g, 0, WaitStart, LoadSet, Outside));
    ss, as_ := CallsExit(ss, as_, g);
    KeepGroup(g);
    ss, as_ := Then(ss, as_, ThreadStep(1, Continue), Two(CtxBusy, true, true, g, 1, WaitStart, Post, Outside));
    assert Run(ss, as_);
  }

  /** Only thread 1 is inside the library, about to set the context. */
  predicate AllButOne(threads: seq<Thread>)
  {
    |threads| > 1 && threads[1].pc == LoadSet && forall t :: 0 <= t < |threads| && t != 1 ==> threads[t].pc == Outside
  }

  lemma FixGroup()
    ensures Apply(Group([Plain(Init0, 0)], [], [0]), Fix) == Group([Plain(Init1, 0)], [0], [])
  {
    assert Group([Plain(Init0, 0)], [], [0]).svcs[0 := Plain(Init1, 0)] == [Plain(Init1, 0)];
  }

  lemma CallsExit(ss: seq<State>, as_: seq<Action>, g: Group) returns (ss': seq<State>, as': seq<Action>)
    requires ss != [] && Run(ss, as_) && LoadsApart(ss, as_)
    requires ss[|ss| - 1] == Two(CtxInit, true, true, g, 0, WaitStart, LoadSet, Outside)
    ensures ss' != [] && Run(ss', as') && LoadsApart(ss', as')
    ensures ss'[|ss'| - 1] == Two(CtxExit, true, true, g, 1, WaitStart, LoadSet, Outside)
  {
    hide Run, LoadsApart, WorkerEnabled, WorkerNext, Apply;
    KeepGroup(g);
    ss', as' := Then(ss, as_, ThreadStep(2, CallExit(false)),
      Two(CtxInit, true, true, g, 0, WaitStart, LoadSet, ExitCheck(false)));
    ss', as' := Then(ss', as', ThreadStep(2, Continue),
      Two(CtxInit, true, true, g, 0, WaitStart, LoadSet, ExitSet(false)));
    ss', as' := Then(ss', as', ThreadStep(2, Continue), Two(CtxExit, true, true, g, 0, WaitStart, LoadSet, Post));
    ss', as' := Then(ss', as', ThreadStep(2, Continue), Two(CtxExit, true, true, g, 1, WaitStart, LoadSet, Outside));
  }

  lemma CallsTwice() returns (ss: seq<State>, as_: seq<Action>)
    ensures ss != [] && Run(ss, as_)
    ensures ss[|ss| - 1] == Two(CtxInit, true, false, Group([Plain(Init0, 0)], [], [0]), 0, WaitStart, LoadFix, LoadFix)
  {
    hide Run, LoadsApart, WorkerEnabled, WorkerNext, Apply;
    var g := Group([Plain(Init0, 0)], [], [0]);
    ss, as_ := CallsLoad();
    ss, as_ := Then(ss, as_, ThreadStep(2, CallLoad), Two(CtxInit, true, false, g, 0, WaitStart, LoadFix, LoadCheck));
    KeepGroup(g);
    ss, as_ := Then(ss, as_, ThreadStep(2, Continue), Two(CtxInit, true, false, g, 0, WaitStart, LoadFix, LoadFix));
  }

  /** Two calls of eaf_load have passed the check; the first of them finishes. */
  lemma LoadsTwice() returns (ss: seq<State>, as_: seq<Action>)
    ensures ss != [] && Run(ss, as_)
    ensures ss[|ss| - 1] == Two(CtxBusy, true, true, Group([Plain(Init1, 0)], [0], []), 0, WaitStart, Post, LoadFix)
  {
    hide Run, LoadsApart, WorkerEnabled, WorkerNext, Apply;
    var g1 := Group([Plain(Init1, 0)], [0], []);
    ss, as_ := CallsTwice();
    FixGroup();
    ss, as_ := Then(ss, as_, ThreadStep(1, Continue), Two(CtxInit, true, true, g1, 0, WaitStart, LoadSet, LoadFix));
    KeepGroup(g1);
    ss, as_ := Then(ss, as_, ThreadStep(1, Continue), Two(CtxBusy, true, true, g1, 0, WaitStart, Post, LoadFix));
  }

  lemma SeesBusy(ss: seq<State>, as_: seq<Action>, p2: Pc) returns (ss': seq<State>, as': seq<Action>)
    requires ss != [] && Run(ss, as_)
    requires ss[|ss| - 1] == Two(CtxBusy, true, true, Group([Plain(Init1, 0)], [0], []), 0, WaitStart, Post, p2)
    ensures ss' != [] && Run(ss', as') && ss <= ss' && (LoadsApart(ss, as_) ==> LoadsApart(ss', as'))
    ensures ss'[|ss'| - 1]
            == Two(CtxBusy, true, true, Group([Plain(Init1, 0)], [0], []), 0, InitNecessary(0, 0), Post, p2)
  {
    hide Run, LoadsApart, ThreadEnabled, ThreadNext, Apply;
    var g1 := Group([Plain(Init1, 0)], [0], []);
    KeepGroup(g1);
    ss', as' := Then(ss, as_, WorkerStep(true), Two(CtxBusy, true, true, g1, 0, CheckBusy, Post, p2));
    ss', as' := Then(ss', as', WorkerStep(true), Two(CtxBusy, true, true, g1, 0, InitNecessary(0, 0), Post, p2));
  }

  /** The worker initializes the service. */
  lemma Initializes(ss: seq<State>, as_: seq<Action>, p2: Pc) returns (ss': seq<State>, as': seq<Action>)
    requires ss != [] && Run(ss, as_)
    requires ss[|ss| - 1] == Two(CtxBusy, true, true, Group([Plain(Init1, 0)], [0], []), 0, WaitStart, Post, p2)
    ensures ss' != [] && Run(ss', as') && ss <= ss' && (LoadsApart(ss, as_) ==> LoadsApart(ss', as'))
    ensures ss'[|ss'| - 1]
            == Two(CtxBusy, true, true, Group([Plain(Idle, 0)], [], [0]), 0, InitNecessary(1, 1), Post, p2)
  {
    hide Run, LoadsApart, ThreadEnabled, ThreadNext, Apply;
    var g1, g2 := Group([Plain(Init1, 0)], [0], []), Group([Plain(Idle, 0)], [], [0]);
    KeepGroup(g1);
    InitGroup();
    ss', as' := SeesBusy(ss, as_, p2);
    ss', as' := Then(ss', as', WorkerStep(true),
      Two(CtxBusy, true, true, g1, 0, OnInit(0, Necessary(0)), Post, p2));
    ss', as' := Then(ss', as', WorkerStep(true), Two(CtxBusy, true, true, g2, 0, InitNecessary(1, 1), Post, p2));
  }

  lemma InitGroup()
    ensures Apply(Group([Plain(Init1, 0)], [0], []), Init(0)) == Group([Plain(Idle, 0)], [], [0])
    ensures Apply(Group([Plain(Idle, 0)], [], [0]), Exit(0)) == Group([Plain(Exit0, 1)], [0], [])
    ensures Apply(Group([Plain(Exit0, 1)], [0], []), To(0, Exit1)) == Group([Plain(Exit1, 1)], [], [0])
  {
  }

  lemma ExitBegins(ss: seq<State>, as_: seq<Action>, p2: Pc) returns (ss': seq<State>, as': seq<Action>)
    requires ss != [] && Run(ss, as_)
    requires ss[|ss| - 1]
             == Two(CtxBusy, true, true, Group([Plain(Idle, 0)], [], [0]), 0, InitNecessary(1, 1), Post, p2)
    ensures ss' != [] && Run(ss', as') && ss <= ss' && (LoadsApart(ss, as_) ==> LoadsApart(ss', as'))
    ensures ss'[|ss'| - 1]
            == Two(CtxBusy, true, true, Group([Plain(Idle, 0)], [], [0]), 1, InitNecessary(1, 1), ExitCheck(false), p2)
  {
    hide Run, LoadsApart, WorkerEnabled, WorkerNext, Apply;
    var g := Group([Plain(Idle, 0)], [], [0]);
    var w := InitNecessary(1, 1);
    KeepGroup(g);
    ss', as' := Then(ss, as_, ThreadStep(1, Continue), Two(CtxBusy, true, true, g, 1, w, Outside, p2));
    ss', as' := Then(ss', as', ThreadStep(1, CallExit(false)),
      Two(CtxBusy, true, true, g, 1, w, ExitCheck(false), p2));
  }

  /** The context is set to exit. */
  lemma ExitsThen(ss: seq<State>, as_: seq<Action>, p2: Pc) returns (ss': seq<State>, as': seq<Action>)
    requires ss != [] && Run(ss, as_)
    requires ss[|ss| - 1]
             == Two(CtxBusy, true, true, Group([Plain(Idle, 0)], [], [0]), 0, InitNecessary(1, 1), Post, p2)
    ensures ss' != [] && Run(ss', as') && ss <= ss' && (LoadsApart(ss, as_) ==> LoadsApart(ss', as'))
    ensures ss'[|ss'| - 1]
            == Two(CtxExit, true, true, Group([Plain(Idle, 0)], [], [0]), 1, InitNecessary(1, 1), Post, p2)
  {
    hide Run, LoadsApart, WorkerEnabled, WorkerNext, Apply;
    var g := Group([Plain(Idle, 0)], [], [0]);
    var w := InitNecessary(1, 1);
    KeepGroup(g);
    ss', as' := ExitBegins(ss, as_, p2);
    ss', as' := Then(ss', as', ThreadStep(1, Continue), Two(CtxBusy, true, true, g, 1, w, ExitSet(false), p2));
    ss', as' := Then(ss', as', ThreadStep(1, Continue), Two(CtxExit, true, true, g, 1, w, Post, p2));
  }

  /** The worker leaves its loop. */
  lemma Leaves(ss: seq<State>, as_: seq<Action>) returns (ss': seq<State>, as': seq<Action>)
    requires ss != [] && Run(ss, as_)
    requires ss[|ss| - 1]
             == Two(CtxExit, true, true, Group([Plain(Idle, 0)], [], [0]), 1, InitNecessary(1, 1), Post, LoadFix)
    ensures ss' != [] && Run(ss', as')
    ensures ss'[|ss'| - 1] == Two(CtxExit, true, true, Group([Plain(Idle, 0)], [], [0]), 1, ExitFrom(1), Post, LoadFix)
  {
    hide Run, LoadsApart, ThreadEnabled, ThreadNext, Apply;
    var g := Group([Plain(Idle, 0)], [], [0]);
    KeepGroup(g);
    ss', as' := Then(ss, as_, WorkerStep(true), Two(CtxExit, true, true, g, 1, Ready(1), Post, LoadFix));
    ss', as' := Then(ss', as', WorkerStep(true), Two(CtxExit, true, true, g, 1, Loop(CtxBusy), Post, LoadFix));
    ss', as' := Then(ss', as', WorkerStep(true), Two(CtxExit, true, true, g, 1, TearCheck, Post, LoadFix));
    ss', as' := Then(ss', as', WorkerStep(true), Two(CtxExit, true, true, g, 1, Loop(CtxTeardown), Post, LoadFix));
    ss', as' := Then(ss', as', WorkerStep(true), Two(CtxExit, true, true, g, 1, ExitFrom(1), Post, LoadFix));
  }

  /** When a second call of eaf_load has passed the check too, it takes a service that has exited back to Init1. */
  lemma ExitUndone()
    ensures exists ss: seq<State>, as_: seq<Action> ::
              && |ss| > 1 && Run(ss, as_) && |ss[|ss| - 2].group.svcs| == |ss[|ss| - 1].group.svcs| == 1
              && ss[|ss| - 2].group.svcs[0].state == Exit1 && ss[|ss| - 1].group.svcs[0].state == Init1
  {
    hide Run, LoadsApart, Apply;
    var ss, as_ := LoadsTwice();
    ss, as_ := Initializes(ss, as_, LoadFix);
    ss, as_ := ExitsThen(ss, as_, LoadFix);
    ss, as_ := Leaves(ss, as_);
    InitGroup();
    ss, as_ := Then(ss, as_, WorkerStep(true),
      Two(CtxExit, true, true, Group([Plain(Exit0, 1)], [0], []), 1, OnExit(0), Post, LoadFix));
    ss, as_ := Then(ss, as_, WorkerStep(true),
      Two(CtxExit, true, true, Group([Plain(Exit1, 1)], [], [0]), 1, ExitFrom(0), Post, LoadFix));
    FixAgain();
    ss, as_ := Then(ss, as_, ThreadStep(2, Continue),
      Two(CtxExit, true, true, Group([Plain(Init1, 1)], [0], []), 1, ExitFrom(0), Post, LoadSet));
    assert Run(ss, as_);
  }

  lemma FixAgain()
    ensures Apply(Group([Plain(Exit1, 1)], [], [0]), Fix) == Group([Plain(Init1, 1)], [0], [])
  {
    assert Group([Plain(Exit1, 1)], [], [0]).svcs[0 := Plain(Init1, 1)] == [Plain(Init1, 1)];
  }

  // ---------- A teardown after an exit ----------

  /** A group of one service that is idle, then torn down; no thread is inside the library but thread 1, at p. */
  function Torn(ctx: CtxState, st: SvcState, sem: nat, worker: Worker, p: Pc): State
  {
    var exits := if st == Idle then 0 else 1;
    Two(ctx, true, true, if st == Exit0 then Group([Plain(st, exits)], [0], []) else Group([Plain(st, exits)], [], [0]),
        sem, worker, p, Outside)
  }

  /** The run ss' goes on from ss. */
  ghost predicate Extends(ss: seq<State>, as_: seq<Action>, ss': seq<State>, as': seq<Action>, u: State)
  {
    && ss != [] && Run(ss', as') && LoadsApart(ss', as') && ss <= ss' && ss'[|ss'| - 1] == u
  }

  /** The group is loaded, and the worker has initialized the service when an exit is requested. */
  lemma ExitsAfterLoad() returns (ss: seq<State>, as_: seq<Action>)
    ensures ss != [] && Run(ss, as_) && LoadsApart(ss, as_)
    ensures ss[|ss| - 1] == Torn(CtxExit, Idle, 1, InitNecessary(1, 1), Post)
  {
    hide Run, LoadsApart, WorkerEnabled, WorkerNext, Apply;
    var g := Group([Plain(Init1, 0)], [0], []);
    ss, as_ := CallsLoad();
    FixGroup();
    ss, as_ := Then(ss, as_, ThreadStep(1, Continue), Two(CtxInit, true, true, g, 0, WaitStart, LoadSet, Outside));
    KeepGroup(g);
    ss, as_ := Then(ss, as_, ThreadStep(1, Continue), Two(CtxBusy, true, true, g, 0, WaitStart, Post, Outside));
    ss, as_ := Initializes(ss, as_, Outside);
    ss, as_ := ExitsThen(ss, as_, Outside);
  }

  /** A teardown is requested before the worker has seen the exit. */
  lemma TearsAfterExit(ss: seq<State>, as_: seq<Action>) returns (ss': seq<State>, as': seq<Action>)
    requires ss != [] && Run(ss, as_) && LoadsApart(ss, as_)
    requires ss[|ss| - 1] == Torn(CtxExit, Idle, 1, InitNecessary(1, 1), Post)
    ensures Extends(ss, as_, ss', as', Torn(CtxTeardown, Idle, 3, InitNecessary(1, 1), Outside))
  {
    hide Run, LoadsApart, WorkerEnabled, WorkerNext, Apply;
    var w := InitNecessary(1, 1);
    KeepGroup(Group([Plain(Idle, 0)], [], [0]));
    ss', as' := Then(ss, as_, ThreadStep(1, Continue), Torn(CtxExit, Idle, 2, w, Outside));
    ss', as' := Then(ss', as', ThreadStep(1, CallExit(true)), Torn(CtxExit, Idle, 2, w, ExitCheck(true)));
    ss', as' := Then(ss', as', ThreadStep(1, Continue), Torn(CtxExit, Idle, 2, w, ExitSet(true)));
    ss', as' := Then(ss', as', ThreadStep(1, Continue), Torn(CtxTeardown, Idle, 2, w, Post));
    ss', as' := Then(ss', as', ThreadStep(1, Continue), Torn(CtxTeardown, Idle, 3, w, Outside));
  }

  /** The worker leaves its loop, and begins the teardown. */
  lemma BeginsTear(ss: seq<State>, as_: seq<Action>) returns (ss': seq<State>, as': seq<Action>)
    requires ss != [] && Run(ss, as_) && LoadsApart(ss, as_)
    requires ss[|ss| - 1] == Torn(CtxTeardown, Idle, 3, InitNecessary(1, 1), Outside)
    ensures Extends(ss, as_, ss', as', Torn(CtxTeardown, Exit0, 3, TearOnExit(0), Outside))
  {
    hide Run, LoadsApart, ThreadEnabled, ThreadNext, Apply;
    KeepGroup(Group([Plain(Idle, 0)], [], [0]));
    InitGroup();
    ss', as' := Then(ss, as_, WorkerStep(true), Torn(CtxTeardown, Idle, 3, Ready(1), Outside));
    ss', as' := Then(ss', as', WorkerStep(true), Torn(CtxTeardown, Idle, 3, Loop(CtxBusy), Outside));
    ss', as' := Then(ss', as', WorkerStep(true), Torn(CtxTeardown, Idle, 3, TearCheck, Outside));
    ss', as' := Then(ss', as', WorkerStep(true), Torn(CtxTeardown, Idle, 3, Tear(0), Outside));
    ss', as' := Then(ss', as', WorkerStep(true), Torn(CtxTeardown, Exit0, 3, TearOnExit(0), Outside));
  }

  /** It tears the service down, and goes on to the loop that ends with an exit. */
  lemma EndsTear(ss: seq<State>, as_: seq<Action>) returns (ss': seq<State>, as': seq<Action>)
    requires ss != [] && Run(ss, as_) && LoadsApart(ss, as_)
    requires ss[|ss| - 1] == Torn(CtxTeardown, Exit0, 3, TearOnExit(0), Outside)
    ensures Extends(ss, as_, ss', as', Torn(CtxTeardown, Exit1, 3, Loop(CtxTeardown), Outside))
  {
    hide Run, LoadsApart, ThreadEnabled, ThreadNext, Apply;
    KeepGroup(Group([Plain(Exit0, 1)], [0], []));
    KeepGroup(Group([Plain(Exit1, 1)], [], [0]));
    NoCurrent();
    InitGroup();
    ss', as' := Then(ss, as_, WorkerStep(true), Torn(CtxTeardown, Exit0, 3, TearCurrent(0), Outside));
    ss', as' := Then(ss', as', WorkerStep(true), Torn(CtxTeardown, Exit0, 3, TearQueue(0), Outside));
    ss', as' := Then(ss', as', WorkerStep(true), Torn(CtxTeardown, Exit0, 3, TearDone(0), Outside));
    ss', as' := Then(ss', as', WorkerStep(true), Torn(CtxTeardown, Exit1, 3, Tear(1), Outside));
    ss', as' := Then(ss', as', WorkerStep(true), Torn(CtxTeardown, Exit1, 3, Loop(CtxTeardown), Outside));
  }

  lemma NoCurrent()
    ensures WithoutCurrent(Plain(Exit0, 1)) == Plain(Exit0, 1)
    ensures Apply(Group([Plain(Exit0, 1)], [0], []), Edit(0, Plain(Exit0, 1))) == Group([Plain(Exit0, 1)], [0], [])
  {
  }

  /** One round of that loop takes one post. */
  lemma OneRound(ss: seq<State>, as_: seq<Action>, n: nat) returns (ss': seq<State>, as': seq<Action>)
    requires ss != [] && Run(ss, as_) && LoadsApart(ss, as_)
    requires ss[|ss| - 1] == Torn(CtxTeardown, Exit1, n + 1, Loop(CtxTeardown), Outside)
    ensures Extends(ss, as_, ss', as', Torn(CtxTeardown, Exit1, n, Loop(CtxTeardown), Outside))
  {
    hide Run, LoadsApart, ThreadEnabled, ThreadNext, Apply;
    KeepGroup(Group([Plain(Exit1, 1)], [], [0]));
    ss', as' := Then(ss, as_, WorkerStep(true), Torn(CtxTeardown, Exit1, n + 1, First(CtxTeardown), Outside));
    ss', as' := Then(ss', as', WorkerStep(true), Torn(CtxTeardown, Exit1, n + 1, Pend(CtxTeardown), Outside));
    ss', as' := Then(ss', as', WorkerStep(true), Torn(CtxTeardown, Exit1, n, Loop(CtxTeardown), Outside));
  }

  /** With no post left it blocks. */
  lemma Blocks(ss: seq<State>, as_: seq<Action>) returns (ss': seq<State>, as': seq<Action>)
    requires ss != [] && Run(ss, as_) && LoadsApart(ss, as_)
    requires ss[|ss| - 1] == Torn(CtxTeardown, Exit1, 0, Loop(CtxTeardown), Outside)
    ensures Extends(ss, as_, ss', as', Torn(CtxTeardown, Exit1, 0, Pend(CtxTeardown), Outside))
  {
    hide Run, LoadsApart, ThreadEnabled, ThreadNext, Apply;
    KeepGroup(Group([Plain(Exit1, 1)], [], [0]));
    ss', as' := Then(ss, as_, WorkerStep(true), Torn(CtxTeardown, Exit1, 0, First(CtxTeardown), Outside));
    ss', as' := Then(ss', as', WorkerStep(true), Torn(CtxTeardown, Exit1, 0, Pend(CtxTeardown), Outside));
  }

  /**
   The exit has been requested, with no load under way, and then a teardown: the
   worker has torn the only service down, and is blocked with no post made or
   pending.
   */
  lemma ExitThenTeardown()
    ensures exists ss: seq<State>, as_: seq<Action>, k: nat ::
              && k < |ss| && Run(ss, as_) && LoadsApart(ss, as_)
              && ss[k].ctx == CtxExit && LoadOver(ss[k].ctx, ss[k].threads)
              && ss[|ss| - 1] == Torn(CtxTeardown, Exit1, 0, Pend(CtxTeardown), Outside)
  {
    hide Run, LoadsApart;
    var ss0, as0 := ExitsAfterLoad();
    var ss, as_ := TearsAfterExit(ss0, as0);
    ss, as_ := BeginsTear(ss, as_);
    ss, as_ := EndsTear(ss, as_);
    ss, as_ := OneRound(ss, as_, 2);
    ss, as_ := OneRound(ss, as_, 1);
    ss, as_ := OneRound(ss, as_, 0);
    ss, as_ := Blocks(ss, as_);
    var k := |ss0| - 1;
    assert ss[k] == Torn(CtxExit, Idle, 1, InitNecessary(1, 1), Post);
    assert Run(ss, as_) && k < |ss|;
  }
}
