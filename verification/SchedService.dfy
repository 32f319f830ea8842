/**
 What the state of a service says about its queue, its current message and the
 calls of on_exit, in every interleaving.
 */
module SchedService {
  import opened NodeLists
  import opened Scheduler
  import opened SchedLists
  import opened SchedPhase
  import opened Wrappers

  /** The first initialization round has passed service j by, and the worker has not returned since. */
  predicate Passed(w: Worker, j: nat)
  {
    match w
    case InitNecessary(i, _) => j < i
    case OnInit(i, Necessary(_)) => j < i
    case _ => Working(w)
  }

  /** The service between its Exit0 and its Exit1. */
  function ExitAt(w: Worker): Option<nat>
  {
    match w
    case TearOnExit(i) => Some(i)
    case TearCurrent(i) => Some(i)
    case TearQueue(i) => Some(i)
    case TearHold(i, _) => Some(i)
    case TearDone(i) => Some(i)
    case OnExit(i) => Some(i)
    case _ => None
  }

  /** The mode of the event loop that the worker is in. */
  function LoopMode(w: Worker): Option<CtxState>
  {
    match w
    case OnInit(_, InLoop(mode)) => Some(mode)
    case Loop(mode) => Some(mode)
    case First(mode) => Some(mode)
    case Pend(mode) => Some(mode)
    case TryPend(mode, _) => Some(mode)
    case Handle(mode, _) => Some(mode)
    case Dispatch(mode, _) => Some(mode)
    case HookBefore(mode, _) => Some(mode)
    case Handler(mode, _) => Some(mode)
    case SetYield(mode, _) => Some(mode)
    case YieldHook(mode, _) => Some(mode)
    case Finish(mode, _) => Some(mode)
    case _ => None
  }

  /** The teardown or the exit may have reached service j. */
  predicate Reached(w: Worker, j: nat)
  {
    match w
    case Tear(i) => j < i
    case ExitFrom(_) => true
    case Done => true
    case Clean(_) => true
    case Cleaned => true
    case _ =>
      || (LoopMode(w).Some? && LoopMode(w).value != CtxBusy)
      || (ExitAt(w).Some? && (w.OnExit? || j <= ExitAt(w).value))
  }

  /** A service before loading. */
  predicate Untouched(v: Svc)
  {
    v.state == Init0 && v.cur == None && v.queue == [] && v.accepted == [] && v.finished == [] && v.exits == 0
  }

  /** The state of a service of a loaded group, against its contents. */
  predicate Shape(v: Svc, passed: bool)
  {
    && v.state != Init0
    && (v.state == Init2 || v.state == Idle ==> v.queue == [] && v.cur == None)
    && (v.state == Init1 ==> v.cur == None && (passed || v.lazy ==> v.queue != []))
    && (v.state == Init2 ==> v.lazy)
    && (v.state == Yielded ==> v.cur.Some?)
    && (!v.hasEntry ==> v.state == Exit1 && v.queue == [] && v.cur == None)
  }

  /** What the worker relies on when it is at the service. */
  predicate Held(v: Svc, w: Worker)
  {
    && (w.OnInit? ==> v.state == Init1)
    && (w.TryPend? || w.Handle? ==> v.state == Init1 || v.state == Busy)
    && (w.Dispatch? || w.HookBefore? || w.Handler? || w.SetYield? || w.Finish? ==> v.state == Busy)
    && (w.HookBefore? || w.Handler? || w.SetYield? || w.Finish? ==> v.cur.Some?)
    && (w.TearQueue? || w.TearHold? || w.TearDone? ==> v.cur == None)
    && (w.TearDone? ==> v.queue == [])
  }

  /** The calls of on_exit, against the state and the place of the worker. */
  predicate Exits(v: Svc, j: nat, w: Worker)
  {
    && v.exits == (if v.hasEntry && (v.state == Exit0 || v.state == Exit1) then 1 else 0)
    && (v.state == Exit0 <==> ExitAt(w) == Some(j))
    && (v.exits > 0 ==> Reached(w, j))
    && (w.ExitFrom? && w.k <= j && v.hasEntry ==> v.state == Exit1)
    && (w.OnExit? && w.i < j && v.hasEntry ==> v.state == Exit1)
  }

  /** The invariant of service j, now v, while the worker is at w. */
  predicate SvcOk(v: Svc, j: nat, w: Worker, loaded: bool)
  {
    if !loaded then Untouched(v)
    else
      && (!w.Clean? && !w.Cleaned? ==> Shape(v, Passed(w, j)))
      && (At(w) == Some(j) ==> Held(v, w))
      && Exits(v, j, w)
  }

  /** The service that the worker is at, between two steps that concern the same one. */
  function At(w: Worker): Option<nat>
  {
    match w
    case Tear(_) => None
    case ExitFrom(_) => None
    case Clean(_) => None
    case InitNecessary(_, _) => None
    case _ => Target(w, 0)
  }

  // ---------- The worker ----------

  lemma TargetShape(v: Svc, i: nat, w: Worker, choice: bool, n: nat)
    requires Target(w, n) == Some(i) && i < n && SvcOk(v, i, w, true)
    ensures var w' := TargetPc(v, i, w, choice);
            !w'.Clean? ==> Shape(Changed(v, i, TargetChange(v, i, w, choice)), Passed(w', i))
  {
    hide Reached;
  }

  lemma TargetHeld(v: Svc, i: nat, w: Worker, choice: bool, n: nat)
    requires Target(w, n) == Some(i) && i < n && SvcOk(v, i, w, true)
    ensures var w' := TargetPc(v, i, w, choice);
            At(w') == Some(i) ==> Held(Changed(v, i, TargetChange(v, i, w, choice)), w')
  {
    hide Exits;
  }

  /** The worker is in its first round or in the event loop. */
  predicate Serves(w: Worker)
  {
    w.InitNecessary? || w.OnInit? || LoopMode(w).Some?
  }

  lemma ServingExits(v: Svc, i: nat, w: Worker, choice: bool, n: nat)
    requires Serves(w) && Target(w, n) == Some(i) && i < n && SvcOk(v, i, w, true)
    ensures Exits(Changed(v, i, TargetChange(v, i, w, choice)), i, TargetPc(v, i, w, choice))
  {
    hide Passed, Shape;
  }

  lemma LeavingExits(v: Svc, i: nat, w: Worker, choice: bool, n: nat)
    requires !Serves(w) && Target(w, n) == Some(i) && i < n && SvcOk(v, i, w, true)
    ensures Exits(Changed(v, i, TargetChange(v, i, w, choice)), i, TargetPc(v, i, w, choice))
  {
    hide Passed, Shape;
  }

  /** The step of the worker and the service it is at. */
  lemma TargetSvcOk(v: Svc, i: nat, w: Worker, choice: bool, n: nat)
    requires Target(w, n) == Some(i) && i < n && SvcOk(v, i, w, true)
    ensures SvcOk(Changed(v, i, TargetChange(v, i, w, choice)), i, TargetPc(v, i, w, choice), true)
  {
    hide Shape, Passed, Held, Exits, Changed, TargetChange;
    TargetShape(v, i, w, choice, n);
    TargetHeld(v, i, w, choice, n);
    if Serves(w) {
      ServingExits(v, i, w, choice, n);
    } else {
      LeavingExits(v, i, w, choice, n);
    }
  }

  /** The step of the worker at service i moves it by no other service. */
  lemma OtherPlace(u: Svc, i: nat, j: nat, w: Worker, choice: bool, n: nat)
    requires Target(w, n) == Some(i) && j != i
    ensures var w' := TargetPc(u, i, w, choice);
            && Passed(w', j) == Passed(w, j) && Reached(w', j) == Reached(w, j)
            && ExitAt(w') != Some(j) && ExitAt(w) != Some(j) && At(w') != Some(j)
  {
  }

  /** The step of the worker and any other service. */
  lemma OtherSvcOk(v: Svc, j: nat, u: Svc, i: nat, w: Worker, choice: bool, n: nat)
    requires Target(w, n) == Some(i) && j != i && SvcOk(v, j, w, true)
    ensures SvcOk(v, j, TargetPc(u, i, w, choice), true)
  {
    hide Held, Shape, Passed, Reached, ExitAt, At;
    OtherPlace(u, i, j, w, choice, n);
  }

  /** A step of the worker that concerns no service moves it by none, or to the head of busy_list. */
  lemma FreePlace(w: Worker, ctx: CtxState, busy: seq<nat>, n: nat, j: nat)
    requires Target(w, n) == None && j < n
    ensures var w' := FreePc(w, ctx, busy, n);
            && (Passed(w', j) ==> Passed(w, j))
            && (Reached(w, j) ==> Reached(w', j))
            && ExitAt(w') == ExitAt(w) == None
            && (At(w') == Some(j) ==> w.First? && busy != [] && busy[0] == j && w' == TryPend(w.mode, j))
            && !w'.OnExit? && (w'.ExitFrom? ==> w'.k == n)
  {
  }

  /** A step of the worker that concerns no service. */
  lemma FreeSvcOk(s: State, j: nat)
    requires Phase(s) && Lists(s.group) && Target(s.worker, |s.group.svcs|) == None && j < |s.group.svcs|
    requires SvcOk(s.group.svcs[j], j, s.worker, s.loaded)
    ensures SvcOk(s.group.svcs[j], j, FreePc(s.worker, s.ctx, s.group.busy, |s.group.svcs|), s.loaded)
  {
    hide NoDup, Pcs, AllOutside, Passed, Reached, ExitAt, At;
    FreePlace(s.worker, s.ctx, s.group.busy, |s.group.svcs|, j);
    assert s.group.busy != [] ==> s.group.busy[0] in s.group.busy;
  }

  // ---------- The other threads ----------

  /** Where a thread sends to, a service is registered. */
  predicate Aimed(g: Group, pc: Pc)
  {
    PcTarget(pc).Some? ==> PcTarget(pc).value < |g.svcs| && g.svcs[PcTarget(pc).value].hasEntry
  }

  lemma ThreadSvcOk(s: State, pc: Pc, j: nat)
    requires Aimed(s.group, pc) && PcPhase(pc, s.loadStarted, s.loaded) && j < |s.group.svcs|
    requires (Working(s.worker) ==> s.loaded) && (s.worker.Clean? || s.worker.Cleaned? ==> pc == Outside)
    requires SvcOk(s.group.svcs[j], j, s.worker, s.loaded)
    ensures SvcOk(Changed(s.group.svcs[j], j, PcChange(s.group, pc)), j, s.worker, s.loaded || pc.LoadFix?)
  {
  }
}
