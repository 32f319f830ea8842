/**
 One service group of src/core/service.c as a step system: its worker thread,
 any number of threads that send, resume, load and exit, and the messages they
 hold. Every critical section, every semaphore operation and every read outside
 a lock is one step.
 */
module Scheduler {
  import opened Messages
  import opened NodeLists
  import opened Wrappers

  datatype SvcState = Init0 | Init1 | Init2 | Idle | Busy | Yielded | Exit0 | Exit1

  datatype CtxState = CtxInit | CtxBusy | CtxTeardown | CtxExit

  /** eaf_msgq_record_t: a queue entry that holds one reference to the message msg. */
  datatype Rec = Rec(id: nat, msg: nat, req: bool)

  /**
   eaf_service_t. The last three fields are history: the records accepted by
   the queue, those destroyed after leaving it, and the calls of on_exit.
   */
  datatype Svc = Svc(hasEntry: bool, alive: bool, lazy: bool, capacity: nat,
                     state: SvcState, cur: Option<Rec>, queue: seq<Rec>,
                     accepted: seq<Rec>, finished: seq<Rec>, exits: nat)

  /** Where a service goes on after its initialization. */
  datatype InitFor = Necessary(n: nat) | InLoop(mode: CtxState)

  /** The program counter of the worker thread; mode is the context state its loop waits for the end of. */
  datatype Worker =
    | WaitStart
    | PendStart
    | CheckBusy
    | InitNecessary(i: nat, n: nat)
    | OnInit(i: nat, then_: InitFor)
    | Ready(n: nat)
    | Loop(mode: CtxState)
    | First(mode: CtxState)
    | Pend(mode: CtxState)
    | TryPend(mode: CtxState, i: nat)
    | Handle(mode: CtxState, i: nat)
    | Dispatch(mode: CtxState, i: nat)
    | HookBefore(mode: CtxState, i: nat)
    | Handler(mode: CtxState, i: nat)
    | SetYield(mode: CtxState, i: nat)
    | YieldHook(mode: CtxState, i: nat)
    | Finish(mode: CtxState, i: nat)
    | TearCheck
    | Tear(i: nat)
    | TearOnExit(i: nat)
    | TearCurrent(i: nat)
    | TearQueue(i: nat)
    | TearHold(i: nat, rec: Rec)
    | TearDone(i: nat)
    | ExitFrom(k: nat)
    | OnExit(i: nat)
    | Done
    | Clean(i: nat)
    | Cleaned

  /**
   The program counter of a thread inside eaf_send_req/eaf_send_rsp, eaf_resume,
   eaf_teardown/eaf_exit or eaf_load.
   */
  datatype Pc =
    | Outside
    | SendCheck(i: nat, msg: nat, req: bool)
    | SendCapacity(i: nat, msg: nat, req: bool)
    | SendAddRef(i: nat, msg: nat, req: bool)
    | SendPush(i: nat, rec: Rec)
    | SendRevert(rec: Rec)
    | Post
    | Resume(i: nat)
    | ExitCheck(teardown: bool)
    | ExitSet(teardown: bool)
    | LoadCheck
    | LoadFix
    | LoadSet

  /** A thread and the message references its user code holds. Thread 0 is the user code run by the worker. */
  datatype Thread = Thread(pc: Pc, held: multiset<nat>)

  /** The services of the group and its two lists of service indices. */
  datatype Group = Group(svcs: seq<Svc>, busy: seq<nat>, wait: seq<nat>)

  /**
   The context, the group, its worker and the threads. loadStarted and loaded
   are history: a call of eaf_load has passed its check, and has fixed the
   states. refs has the live messages, next the identity of the next record.
   */
  datatype State = State(ctx: CtxState, loadStarted: bool, loaded: bool, group: Group, sem: nat,
                         worker: Worker, threads: seq<Thread>, refs: map<nat, nat>, next: nat)

  /** What a thread outside the library may do next. */
  datatype Op =
    | Continue
    | Send(i: nat, msg: nat, req: bool)
    | Reject
    | CallResume(i: nat)
    | CallExit(teardown: bool)
    | CallLoad
    | Create(msg: nat)
    | AddRef(msg: nat)
    | DropRef(msg: nat)
    | TakeCurrent

  datatype Action = WorkerStep(choice: bool) | ThreadStep(t: nat, op: Op)

  // ---------- What a step does to one service ----------

  /** The states whose services are kept in busy_list; all others are kept in wait_list. */
  predicate InBusyList(st: SvcState)
  {
    st == Init1 || st == Busy || st == Exit0
  }

  function InState(v: Svc, st: SvcState): Svc
  {
    v.(state := st)
  }

  /** The head of the queue becomes the current record. */
  function Taken(v: Svc): Svc
    requires v.queue != []
  {
    v.(cur := Some(v.queue[0]), queue := v.queue[1..])
  }

  function WithoutHead(v: Svc): Svc
    requires v.queue != []
  {
    v.(queue := v.queue[1..])
  }

  function WithoutCurrent(v: Svc): Svc
  {
    v.(cur := None)
  }

  /** A record that has left the queue and the current message is destroyed. */
  function Settled(v: Svc, rec: Rec): Svc
  {
    v.(finished := v.finished + [rec])
  }

  function Exiting(v: Svc): Svc
  {
    v.(exits := v.exits + 1)
  }

  function Appended(v: Svc, rec: Rec): Svc
  {
    v.(queue := v.queue + [rec], accepted := v.accepted + [rec])
  }

  function LoadState(v: Svc): SvcState
  {
    if !v.hasEntry then Exit1 else if v.lazy then Init2 else Init1
  }

  // ---------- What a step does to the group ----------

  /** _eaf_service_set_state_nolock. */
  function SetState(g: Group, i: nat, st: SvcState): (r: Group)
    requires i < |g.svcs|
    ensures r.svcs == g.svcs[i := InState(g.svcs[i], st)]
  {
    var busy := if InBusyList(g.svcs[i].state) then Erase(g.busy, i) else g.busy;
    var wait := if InBusyList(g.svcs[i].state) then g.wait else Erase(g.wait, i);
    Group(g.svcs[i := InState(g.svcs[i], st)],
          if InBusyList(st) then busy + [i] else busy,
          if InBusyList(st) then wait else wait + [i])
  }

  function WithSvc(g: Group, i: nat, v: Svc): Group
    requires i < |g.svcs|
  {
    g.(svcs := g.svcs[i := v])
  }

  /** The critical section of _eaf_group_finish_service_init_lock. */
  function FinishInit(g: Group, i: nat): Group
    requires i < |g.svcs|
  {
    var r := SetState(g, i, Idle);
    if |g.svcs[i].queue| > 0 then SetState(r, i, Busy) else r
  }

  /** The accepting part of the critical section of _eaf_service_push_msg. */
  function Push(g: Group, i: nat, rec: Rec): Group
    requires i < |g.svcs|
  {
    var st := g.svcs[i].state;
    var r := if st == Init2 then SetState(g, i, Init1) else if st == Idle then SetState(g, i, Busy) else g;
    WithSvc(r, i, Appended(r.svcs[i], rec))
  }

  /** A service turns to Exit0 and its on_exit is called. */
  function BeginExit(g: Group, i: nat): Group
    requires i < |g.svcs|
  {
    var r := SetState(g, i, Exit0);
    WithSvc(r, i, Exiting(r.svcs[i]))
  }

  /** _eaf_load_fix_state, from service j on. */
  function FixStates(g: Group, j: nat): (r: Group)
    requires j <= |g.svcs|
    ensures |r.svcs| == |g.svcs|
    decreases |g.svcs| - j
  {
    if j == |g.svcs| then g else FixStates(SetState(g, j, LoadState(g.svcs[j])), j + 1)
  }

  /** What one step does to the group. */
  datatype Change =
    | Keep
    | Edit(i: nat, v: Svc)
    | To(i: nat, st: SvcState)
    | Init(i: nat)
    | Exit(i: nat)
    | Accept(i: nat, rec: Rec)
    | Fix

  predicate InGroup(g: Group, c: Change)
  {
    c.Keep? || c.Fix? || c.i < |g.svcs|
  }

  function Apply(g: Group, c: Change): Group
    requires InGroup(g, c)
  {
    match c
    case Keep => g
    case Edit(i, v) => WithSvc(g, i, v)
    case To(i, st) => SetState(g, i, st)
    case Init(i) => FinishInit(g, i)
    case Exit(i) => BeginExit(g, i)
    case Accept(i, rec) => Push(g, i, rec)
    case Fix => FixStates(g, 0)
  }

  // ---------- Messages ----------

  predicate Counted(refs: map<nat, nat>, rec: Option<Rec>)
  {
    rec.Some? ==> rec.value.msg in refs && refs[rec.value.msg] > 0
  }

  // ---------- Steps of the worker ----------

  /** The worker is inside user code: on_init, a message handler, a yield hook, on_exit, or a default response. */
  predicate InUserCode(w: Worker)
  {
    w.OnInit? || w.Handler? || w.YieldHook? || w.TearOnExit? || w.TearHold? || w.OnExit?
  }

  predicate AllOutside(threads: seq<Thread>)
  {
    forall t :: 0 <= t < |threads| ==> threads[t].pc == Outside
  }

  /** The service that the next step of a worker at w reads or changes, in a group of n services. */
  function Target(w: Worker, n: nat): Option<nat>
  {
    match w
    case InitNecessary(i, _) => if i < n then Some(i) else None
    case OnInit(i, _) => Some(i)
    case TryPend(_, i) => Some(i)
    case Handle(_, i) => Some(i)
    case Dispatch(_, i) => Some(i)
    case HookBefore(_, i) => Some(i)
    case Handler(_, i) => Some(i)
    case SetYield(_, i) => Some(i)
    case YieldHook(_, i) => Some(i)
    case Finish(_, i) => Some(i)
    case Tear(i) => if i < n then Some(i) else None
    case TearOnExit(i) => Some(i)
    case TearCurrent(i) => Some(i)
    case TearQueue(i) => Some(i)
    case TearHold(i, _) => Some(i)
    case TearDone(i) => Some(i)
    case ExitFrom(k) => if k > 0 then Some(k - 1) else None
    case OnExit(i) => Some(i)
    case Clean(i) => if i < n then Some(i) else None
    case _ => None
  }

  /** The record that the worker destroys in its next step, while its target is v. */
  function Destroys(v: Svc, w: Worker, choice: bool): Option<Rec>
  {
    match w
    case HookBefore(_, _) => if choice then v.cur else None
    case Finish(_, _) => v.cur
    case TearHold(_, rec) => Some(rec)
    case Clean(_) => if v.queue != [] then Some(v.queue[0]) else v.cur
    case _ => None
  }

  /** The worker is not waiting: for the semaphore, for the end of user code, or for the last caller before cleanup. */
  predicate WorkerReady(s: State)
  {
    && ((s.worker.PendStart? || s.worker.Pend?) ==> s.sem > 0)
    && (InUserCode(s.worker) ==> |s.threads| > 0 && s.threads[0].pc == Outside)
    && (s.worker.Done? ==> AllOutside(s.threads))
    && !s.worker.Cleaned?
  }

  /** The pointers that the next step of the worker follows are good. */
  predicate WorkerSafe(s: State, choice: bool)
  {
    var i := Target(s.worker, |s.group.svcs|);
    i.Some? ==> i.value < |s.group.svcs| && Counted(s.refs, Destroys(s.group.svcs[i.value], s.worker, choice))
  }

  /** WorkerSafe and ThreadSafe are no restrictions: they are shown to hold in every run. */
  predicate WorkerEnabled(s: State, choice: bool)
  {
    WorkerReady(s) && WorkerSafe(s, choice)
  }

  /** What the step of a worker at w does to its target v, which is service i. */
  function TargetChange(v: Svc, i: nat, w: Worker, choice: bool): Change
  {
    match w
    case OnInit(_, _) => Init(i)
    case Dispatch(_, _) => if v.cur.Some? then Keep else if v.queue == [] then To(i, Idle) else Edit(i, Taken(v))
    case HookBefore(_, _) => if choice && v.cur.Some? then Edit(i, Settled(WithoutCurrent(v), v.cur.value)) else Keep
    case SetYield(_, _) => To(i, Yielded)
    case Finish(_, _) => if v.cur.Some? then Edit(i, Settled(WithoutCurrent(v), v.cur.value)) else Keep
    case Tear(_) => if v.alive || !v.hasEntry then Keep else Exit(i)
    case TearCurrent(_) => Edit(i, WithoutCurrent(v))
    case TearQueue(_) => if v.queue == [] then Keep else Edit(i, WithoutHead(v))
    case TearHold(_, rec) => Edit(i, Settled(v, rec))
    case TearDone(_) => To(i, Exit1)
    case ExitFrom(_) => if v.state == Exit1 || !v.hasEntry then Keep else Exit(i)
    case OnExit(_) => To(i, Exit1)
    case Clean(_) =>
      if v.queue != [] then Edit(i, Settled(WithoutHead(v), v.queue[0]))
      else if v.cur.Some? then Edit(i, Settled(WithoutCurrent(v), v.cur.value))
      else Keep
    case _ => Keep
  }

  function WorkerChange(s: State, choice: bool): (c: Change)
    requires WorkerSafe(s, choice)
    ensures InGroup(s.group, c)
  {
    match Target(s.worker, |s.group.svcs|)
    case None => Keep
    case Some(i) => TargetChange(s.group.svcs[i], i, s.worker, choice)
  }

  function WorkerRefs(s: State, choice: bool): map<nat, nat>
    requires WorkerSafe(s, choice)
  {
    match Target(s.worker, |s.group.svcs|)
    case None => s.refs
    case Some(i) =>
      match Destroys(s.group.svcs[i], s.worker, choice)
      case None => s.refs
      case Some(rec) => DecRef(s.refs, rec.msg)
  }

  function WorkerSem(w: Worker, sem: nat): nat
  {
    if (w.PendStart? || w.Pend? || w.TryPend?) && sem > 0 then sem - 1 else sem
  }

  /** Where the worker goes, if it has no target, in a group of n services. */
  function FreePc(w: Worker, ctx: CtxState, busy: seq<nat>, n: nat): Worker
  {
    match w
    case WaitStart => if ctx == CtxInit then PendStart else CheckBusy
    case PendStart => WaitStart
    case CheckBusy => if ctx == CtxBusy then InitNecessary(0, 0) else Done
    case InitNecessary(_, c) => Ready(c)
    case Ready(c) => if c == 0 then Done else Loop(CtxBusy)
    case Loop(mode) => if ctx == mode then First(mode) else if mode == CtxBusy then TearCheck else ExitFrom(n)
    case First(mode) => if busy == [] then Pend(mode) else TryPend(mode, busy[0])
    case Pend(mode) => Loop(mode)
    case TearCheck => if ctx == CtxTeardown then Tear(0) else Loop(CtxTeardown)
    case Tear(_) => Loop(CtxTeardown)
    case ExitFrom(_) => Done
    case Done => Clean(0)
    case Clean(_) => Cleaned
    case _ => w
  }

  /** Where the worker goes from w, where its target is v, service i. */
  function TargetPc(v: Svc, i: nat, w: Worker, choice: bool): Worker
  {
    match w
    case InitNecessary(_, c) => if v.state != Init1 then InitNecessary(i + 1, c) else OnInit(i, Necessary(c))
    case OnInit(_, Necessary(c)) => InitNecessary(i + 1, c + 1)
    case OnInit(_, InLoop(mode)) => Dispatch(mode, i)
    case TryPend(mode, _) => Handle(mode, i)
    case Handle(mode, _) => if v.state == Init1 then OnInit(i, InLoop(mode)) else Dispatch(mode, i)
    case Dispatch(mode, _) =>
      if v.cur.Some? then Handler(mode, i) else if v.queue == [] then Loop(mode) else HookBefore(mode, i)
    case HookBefore(mode, _) => if choice then Loop(mode) else Handler(mode, i)
    case Handler(mode, _) => if choice then SetYield(mode, i) else Finish(mode, i)
    case SetYield(mode, _) => YieldHook(mode, i)
    case YieldHook(mode, _) => Loop(mode)
    case Finish(mode, _) => Loop(mode)
    case Tear(_) => if v.alive || !v.hasEntry then Tear(i + 1) else TearOnExit(i)
    case TearOnExit(_) => TearCurrent(i)
    case TearCurrent(_) => if v.cur.Some? then TearHold(i, v.cur.value) else TearQueue(i)
    case TearQueue(_) => if v.queue == [] then TearDone(i) else TearHold(i, v.queue[0])
    case TearHold(_, _) => TearQueue(i)
    case TearDone(_) => Tear(i + 1)
    case ExitFrom(_) => if v.state == Exit1 || !v.hasEntry then ExitFrom(i) else OnExit(i)
    case OnExit(_) => ExitFrom(i)
    case Clean(_) => if v.queue != [] || v.cur.Some? then Clean(i) else Clean(i + 1)
    case _ => w
  }

  function WorkerPc(s: State, choice: bool): Worker
    requires WorkerSafe(s, choice)
  {
    match Target(s.worker, |s.group.svcs|)
    case None => FreePc(s.worker, s.ctx, s.group.busy, |s.group.svcs|)
    case Some(i) => TargetPc(s.group.svcs[i], i, s.worker, choice)
  }

  function WorkerNext(s: State, choice: bool): State
    requires WorkerEnabled(s, choice)
  {
    s.(worker := WorkerPc(s, choice), group := Apply(s.group, WorkerChange(s, choice)),
       sem := WorkerSem(s.worker, s.sem), refs := WorkerRefs(s, choice))
  }

  // ---------- Steps of the other threads ----------

  /**
   A thread outside the library may begin a call: the worker's own thread only
   from user code, and nobody during cleanup.
   */
  predicate MayCall(s: State, t: nat)
  {
    && t < |s.threads| && s.threads[t].pc == Outside
    && (t == 0 ==> InUserCode(s.worker))
    && !s.worker.Clean? && !s.worker.Cleaned?
  }

  /** The thread may take this step: it is inside a call, or its user code may begin one. */
  predicate ThreadReady(s: State, t: nat, op: Op)
  {
    && t < |s.threads|
    && match op
       case Continue => s.threads[t].pc != Outside
       case Reject => s.threads[t].pc.SendCheck?
       case Send(_, m, _) => MayCall(s, t) && m in s.threads[t].held
       case CallResume(_) => MayCall(s, t)
       case CallExit(_) => MayCall(s, t)
       case CallLoad => MayCall(s, t)
       case Create(m) => MayCall(s, t) && m !in s.refs
       case AddRef(m) => MayCall(s, t) && m in s.threads[t].held
       case DropRef(m) => s.threads[t].pc == Outside && m in s.threads[t].held
       case TakeCurrent => MayCall(s, t) && t == 0 && s.worker.Handler?
  }

  /** The service whose handler runs. */
  function Running(s: State): Option<Svc>
  {
    if s.worker.Handler? && s.worker.i < |s.group.svcs| then Some(s.group.svcs[s.worker.i]) else None
  }

  /** The service that a thread inside the library is about to read or change. */
  function PcTarget(pc: Pc): Option<nat>
  {
    match pc
    case SendCapacity(i, _, _) => Some(i)
    case SendAddRef(i, _, _) => Some(i)
    case SendPush(i, _) => Some(i)
    case _ => None
  }

  /** The messages and services that the step uses still exist. */
  predicate ThreadSafe(s: State, t: nat, op: Op)
    requires t < |s.threads|
  {
    var pc := s.threads[t].pc;
    match op
    case Continue =>
      && (PcTarget(pc).Some? ==> PcTarget(pc).value < |s.group.svcs|)
      && (pc.SendAddRef? ==> pc.msg in s.refs)
      && (pc.SendRevert? ==> Counted(s.refs, Some(pc.rec)))
    case AddRef(m) => m in s.refs
    case DropRef(m) => m in s.refs && s.refs[m] > 0
    case TakeCurrent => Running(s).Some? && Running(s).value.cur.Some? && Counted(s.refs, Running(s).value.cur)
    case _ => true
  }

  predicate ThreadEnabled(s: State, t: nat, op: Op)
  {
    ThreadReady(s, t, op) && ThreadSafe(s, t, op)
  }

  predicate Resumable(g: Group, i: nat)
  {
    i < |g.svcs| && g.svcs[i].hasEntry && g.svcs[i].state == Yielded
  }

  /** What a thread at pc does to the group. */
  function PcChange(g: Group, pc: Pc): (c: Change)
    requires PcTarget(pc).Some? ==> PcTarget(pc).value < |g.svcs|
    ensures InGroup(g, c)
  {
    match pc
    case SendPush(i, rec) => if g.svcs[i].state == Exit0 then Keep else Accept(i, rec)
    case Resume(i) => if Resumable(g, i) then To(i, Busy) else Keep
    case LoadFix => Fix
    case _ => Keep
  }

  /** Where a thread goes from pc; next is the identity of the next record. */
  function PcNext(g: Group, pc: Pc, ctx: CtxState, next: nat): Pc
    requires PcTarget(pc).Some? ==> PcTarget(pc).value < |g.svcs|
  {
    match pc
    case SendCheck(i, m, req) =>
      if ctx == CtxBusy && i < |g.svcs| && g.svcs[i].hasEntry then SendCapacity(i, m, req) else Outside
    case SendCapacity(i, m, req) =>
      if req && |g.svcs[i].queue| >= g.svcs[i].capacity then Outside else SendAddRef(i, m, req)
    case SendAddRef(i, m, req) => SendPush(i, Rec(next, m, req))
    case SendPush(i, rec) => if g.svcs[i].state == Exit0 then SendRevert(rec) else Post
    case Resume(i) => if Resumable(g, i) then Post else Outside
    case ExitCheck(td) => if ctx == (if td then CtxTeardown else CtxExit) then Outside else ExitSet(td)
    case ExitSet(_) => Post
    case LoadCheck => if ctx == CtxInit then LoadFix else Outside
    case LoadFix => LoadSet
    case LoadSet => Post
    case _ => Outside
  }

  function PcCtx(pc: Pc, ctx: CtxState): CtxState
  {
    match pc
    case ExitSet(td) => if td then CtxTeardown else CtxExit
    case LoadSet => CtxBusy
    case _ => ctx
  }

  function PcRefs(pc: Pc, refs: map<nat, nat>): map<nat, nat>
    requires pc.SendAddRef? ==> pc.msg in refs
    requires pc.SendRevert? ==> Counted(refs, Some(pc.rec))
  {
    match pc
    case SendAddRef(_, m, _) => IncRef(refs, m)
    case SendRevert(rec) => DecRef(refs, rec.msg)
    case _ => refs
  }

  function WithThread(s: State, t: nat, th: Thread): State
    requires t < |s.threads|
  {
    s.(threads := s.threads[t := th])
  }

  /** A thread inside the library goes on. */
  function PcStep(s: State, t: nat): State
    requires ThreadEnabled(s, t, Continue)
  {
    var th := s.threads[t];
    WithThread(s, t, th.(pc := PcNext(s.group, th.pc, s.ctx, s.next))).(
      group := Apply(s.group, PcChange(s.group, th.pc)),
      ctx := PcCtx(th.pc, s.ctx),
      sem := if th.pc.Post? then s.sem + 1 else s.sem,
      refs := PcRefs(th.pc, s.refs),
      next := if th.pc.SendAddRef? then s.next + 1 else s.next,
      loadStarted := s.loadStarted || (th.pc.LoadCheck? && s.ctx == CtxInit),
      loaded := s.loaded || th.pc.LoadFix?)
  }

  function ThreadNext(s: State, t: nat, op: Op): State
    requires ThreadEnabled(s, t, op)
  {
    var th := s.threads[t];
    match op
    case Continue => PcStep(s, t)
    case Reject => WithThread(s, t, th.(pc := Outside))
    case Send(i, m, req) => WithThread(s, t, th.(pc := SendCheck(i, m, req)))
    case CallResume(i) => WithThread(s, t, th.(pc := Resume(i)))
    case CallExit(td) => WithThread(s, t, th.(pc := ExitCheck(td)))
    case CallLoad => WithThread(s, t, th.(pc := LoadCheck))
    case Create(m) => WithThread(s, t, th.(held := th.held + multiset{m})).(refs := s.refs[m := 1])
    case AddRef(m) => WithThread(s, t, th.(held := th.held + multiset{m})).(refs := IncRef(s.refs, m))
    case DropRef(m) => WithThread(s, t, th.(held := th.held - multiset{m})).(refs := DecRef(s.refs, m))
    case TakeCurrent =>
      var m := Running(s).value.cur.value.msg;
      WithThread(s, t, th.(held := th.held + multiset{m})).(refs := IncRef(s.refs, m))
  }

  // ---------- Runs ----------

  predicate Enabled(s: State, a: Action)
  {
    match a
    case WorkerStep(choice) => WorkerEnabled(s, choice)
    case ThreadStep(t, op) => ThreadEnabled(s, t, op)
  }

  function Next(s: State, a: Action): State
    requires Enabled(s, a)
  {
    match a
    case WorkerStep(choice) => WorkerNext(s, choice)
    case ThreadStep(t, op) => ThreadNext(s, t, op)
  }

  function Range(k: nat, n: nat): seq<nat>
    requires k <= n
    decreases n - k
  {
    if k == n then [] else [k] + Range(k + 1, n)
  }

  /** The state that eaf_init leaves, with the services registered. */
  predicate Initial(s: State)
  {
    && s.ctx == CtxInit && !s.loadStarted && !s.loaded && s.sem == 0 && s.worker == WaitStart
    && s.group.busy == [] && s.group.wait == Range(0, |s.group.svcs|)
    && (forall i :: 0 <= i < |s.group.svcs| ==>
          && s.group.svcs[i].state == Init0 && s.group.svcs[i].cur == None && s.group.svcs[i].queue == []
          && s.group.svcs[i].accepted == [] && s.group.svcs[i].finished == [] && s.group.svcs[i].exits == 0)
    && |s.threads| > 0
    && (forall t :: 0 <= t < |s.threads| ==> s.threads[t] == Thread(Outside, multiset{}))
    && s.refs == map[] && s.next == 0
  }

  /** The states ss are passed through when the actions as_ are taken, one after the other. */
  ghost predicate Run(ss: seq<State>, as_: seq<Action>)
  {
    && |ss| == |as_| + 1 && Initial(ss[0])
    && forall k :: 0 <= k < |as_| ==> Enabled(ss[k], as_[k]) && ss[k + 1] == Next(ss[k], as_[k])
  }

  /** The step is one of a thread inside the library, at pc. */
  predicate StepsAt(s: State, a: Action, pc: Pc)
  {
    a.ThreadStep? && a.op == Continue && a.t < |s.threads| && s.threads[a.t].pc == pc
  }

  /** In the step no call of eaf_load finds the context in its initial state after another one has. */
  predicate LoadsOnce(s: State, a: Action)
  {
    StepsAt(s, a, LoadCheck) && s.loadStarted ==> s.ctx != CtxInit
  }

  /** In the run no two calls of eaf_load pass its check. */
  ghost predicate LoadsApart(ss: seq<State>, as_: seq<Action>)
  {
    |ss| == |as_| + 1 && forall k :: 0 <= k < |as_| ==> LoadsOnce(ss[k], as_[k])
  }
}
