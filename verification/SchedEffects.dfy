/**
 What each step of a run does, on the fields of the two states: which step of
 the source a thread or the worker takes next, when, and with what effect.
 */
module SchedEffects {
  import opened Messages
  import opened Scheduler
  import opened SchedLists
  import opened SchedRefs
  import opened SchedRuns
  import opened Wrappers

  /** No service but i has changed. */
  ghost predicate Others(s: State, u: State, i: nat)
  {
    && |u.group.svcs| == |s.group.svcs|
    && forall j :: 0 <= j < |s.group.svcs| && j != i ==> u.group.svcs[j] == s.group.svcs[j]
  }

  /** No thread but t has moved, the worker has not, and no message of user code. */
  ghost predicate OnlyThread(s: State, u: State, t: nat, pc: Pc)
  {
    && t < |s.threads| && u.worker == s.worker && u.threads == s.threads[t := s.threads[t].(pc := pc)]
  }

  /** The kth step of the run is one of thread t inside the library, at pc. */
  predicate ThreadAt(ss: seq<State>, as_: seq<Action>, k: nat, t: nat, pc: Pc)
  {
    k < |as_| && k < |ss| && as_[k] == ThreadStep(t, Continue) && t < |ss[k].threads| && ss[k].threads[t].pc == pc
  }

  lemma AtStep(ss: seq<State>, as_: seq<Action>, k: nat, t: nat, pc: Pc)
    requires Run(ss, as_) && ThreadAt(ss, as_, k, t, pc)
    ensures k + 1 < |ss| && ThreadEnabled(ss[k], t, Continue) && ss[k + 1] == PcStep(ss[k], t)
    ensures Lists(ss[k].group) && Lists(ss[k + 1].group)
  {
    hide Sound, PcStep, ThreadReady, ThreadSafe;
    RunStep(ss, as_, k);
    RunSound(ss, as_, k);
    RunSound(ss, as_, k + 1);
    InSound(ss[k]);
    InSound(ss[k + 1]);
  }

  lemma InSound(s: State)
    requires Sound(s)
    ensures Lists(s.group)
  {
    hide Lists;
  }

  // ---------- eaf_resume ----------

  /**
   A parked service is made busy, with the message it is parked on, and the
   worker is going to be woken; no other is.
   */
  lemma ResumeWakes(ss: seq<State>, as_: seq<Action>, k: nat, t: nat, i: nat)
    requires Run(ss, as_) && ThreadAt(ss, as_, k, t, Resume(i))
    ensures k + 1 < |ss|
    ensures var (s, u) := (ss[k], ss[k + 1]);
            && u.ctx == s.ctx && u.sem == s.sem && u.refs == s.refs
            && if i < |s.group.svcs| && s.group.svcs[i].hasEntry && s.group.svcs[i].state == Yielded
               then
                 && Others(s, u, i) && u.group.svcs[i] == s.group.svcs[i].(state := Busy) && i in u.group.busy
                 && OnlyThread(s, u, t, Post)
               else u.group == s.group && OnlyThread(s, u, t, Outside)
  {
    hide Run, Lists, Apply, ThreadReady;
    AtStep(ss, as_, k, t, Resume(i));
    PcTouches(ss[k], t);
    KeepGroup(ss[k].group);
    if i < |ss[k].group.svcs| {
      InBusy(ss[k + 1].group, i);
    }
  }

  /** What a thread does to the services, one by one. */
  lemma PcTouches(s: State, t: nat)
    requires t < |s.threads| && ThreadEnabled(s, t, Continue)
    ensures |PcStep(s, t).group.svcs| == |s.group.svcs|
    ensures forall j :: 0 <= j < |s.group.svcs| ==>
              PcStep(s, t).group.svcs[j] == Changed(s.group.svcs[j], j, PcChange(s.group, s.threads[t].pc))
  {
    hide Apply, Changed, PcChange, PcNext, PcRefs, ThreadReady;
    var c := PcChange(s.group, s.threads[t].pc);
    ApplySize(s.group, c);
    forall j | 0 <= j < |s.group.svcs|
      ensures PcStep(s, t).group.svcs[j] == Changed(s.group.svcs[j], j, c)
    {
      Touches(s.group, c, j);
    }
  }

  lemma InBusy(g: Group, i: nat)
    requires Lists(g) && i < |g.svcs|
    ensures i in g.busy <==> g.svcs[i].state == Init1 || g.svcs[i].state == Busy || g.svcs[i].state == Exit0
    ensures i in g.wait <==> i !in g.busy
  {
  }

  // ---------- eaf_send_req and eaf_send_rsp ----------

  /** A send goes on when the context is busy and the receiver is registered. */
  lemma SendLooksUp(ss: seq<State>, as_: seq<Action>, k: nat, t: nat, i: nat, m: nat, req: bool)
    requires Run(ss, as_) && ThreadAt(ss, as_, k, t, SendCheck(i, m, req))
    ensures k + 1 < |ss|
    ensures var (s, u) := (ss[k], ss[k + 1]);
            && u.ctx == s.ctx && u.sem == s.sem && u.refs == s.refs && u.group == s.group
            && OnlyThread(s, u, t, if s.ctx == CtxBusy && i < |s.group.svcs| && s.group.svcs[i].hasEntry
                               then SendCapacity(i, m, req) else Outside)
  {
    hide Run, Lists, Apply, ThreadReady;
    AtStep(ss, as_, k, t, SendCheck(i, m, req));
    KeepGroup(ss[k].group);
  }

  /** A request passes when the queue is below its capacity, and a response always. */
  lemma SendCounts(ss: seq<State>, as_: seq<Action>, k: nat, t: nat, i: nat, m: nat, req: bool)
    requires Run(ss, as_) && ThreadAt(ss, as_, k, t, SendCapacity(i, m, req))
    ensures k + 1 < |ss| && i < |ss[k].group.svcs|
    ensures var (s, u) := (ss[k], ss[k + 1]);
            && u.ctx == s.ctx && u.sem == s.sem && u.refs == s.refs && u.group == s.group
            && OnlyThread(s, u, t, if !req || |s.group.svcs[i].queue| < s.group.svcs[i].capacity
                               then SendAddRef(i, m, req) else Outside)
  {
    hide Run, Lists, Apply, ThreadReady;
    AtStep(ss, as_, k, t, SendCapacity(i, m, req));
    KeepGroup(ss[k].group);
  }

  /** The new record has a number of its own, and holds a reference. */
  lemma SendTakesRef(ss: seq<State>, as_: seq<Action>, k: nat, t: nat, i: nat, m: nat, req: bool)
    requires Run(ss, as_) && ThreadAt(ss, as_, k, t, SendAddRef(i, m, req))
    ensures k + 1 < |ss| && m in ss[k].refs
    ensures var (s, u) := (ss[k], ss[k + 1]);
            && u.ctx == s.ctx && u.sem == s.sem && u.group == s.group && u.next == s.next + 1
            && u.refs == s.refs[m := s.refs[m] + 1] && OnlyThread(s, u, t, SendPush(i, Rec(s.next, m, req)))
  {
    hide Run, Lists, Apply, ThreadReady;
    AtStep(ss, as_, k, t, SendAddRef(i, m, req));
    KeepGroup(ss[k].group);
  }

  /**
   The record is appended, unless the service is in its exit; a lazy service
   that waits for its first message is going to be initialized, an idle one is
   made busy, and any other keeps its state.
   */
  lemma PushAppends(ss: seq<State>, as_: seq<Action>, k: nat, t: nat, i: nat, rec: Rec)
    requires Run(ss, as_) && ThreadAt(ss, as_, k, t, SendPush(i, rec))
    ensures k + 1 < |ss| && i < |ss[k].group.svcs|
    ensures var (s, u, v) := (ss[k], ss[k + 1], ss[k].group.svcs[i]);
            && u.ctx == s.ctx && u.sem == s.sem && u.refs == s.refs
            && if v.state == Exit0 then u.group == s.group && OnlyThread(s, u, t, SendRevert(rec))
               else
                 && Others(s, u, i) && OnlyThread(s, u, t, Post)
                 && u.group.svcs[i] == v.(queue := v.queue + [rec], accepted := v.accepted + [rec],
                                          state := if v.state == Init2 then Init1
                                                   else if v.state == Idle then Busy else v.state)
  {
    hide Run, Lists, Apply, ThreadReady;
    AtStep(ss, as_, k, t, SendPush(i, rec));
    PcTouches(ss[k], t);
    KeepGroup(ss[k].group);
  }

  /** A record that was not accepted gives its reference back. */
  lemma RevertDrops(ss: seq<State>, as_: seq<Action>, k: nat, t: nat, rec: Rec)
    requires Run(ss, as_) && ThreadAt(ss, as_, k, t, SendRevert(rec))
    ensures k + 1 < |ss| && rec.msg in ss[k].refs && ss[k].refs[rec.msg] > 0
    ensures var (s, u) := (ss[k], ss[k + 1]);
            && u.ctx == s.ctx && u.sem == s.sem && u.group == s.group && OnlyThread(s, u, t, Outside)
            && u.refs == if s.refs[rec.msg] == 1 then s.refs - {rec.msg} else s.refs[rec.msg := s.refs[rec.msg] - 1]
  {
    hide Run, Lists, Apply, ThreadReady;
    AtStep(ss, as_, k, t, SendRevert(rec));
    KeepGroup(ss[k].group);
  }

  /** Every call that has changed something ends with a post. */
  lemma PostWakes(ss: seq<State>, as_: seq<Action>, k: nat, t: nat)
    requires Run(ss, as_) && ThreadAt(ss, as_, k, t, Post)
    ensures k + 1 < |ss|
    ensures var (s, u) := (ss[k], ss[k + 1]);
            && u.ctx == s.ctx && u.sem == s.sem + 1 && u.refs == s.refs && u.group == s.group
            && OnlyThread(s, u, t, Outside)
  {
    hide Run, Lists, Apply, ThreadReady;
    AtStep(ss, as_, k, t, Post);
    KeepGroup(ss[k].group);
  }

  // ---------- eaf_exit, eaf_teardown and eaf_load ----------

  lemma ExitChecks(ss: seq<State>, as_: seq<Action>, k: nat, t: nat, teardown: bool)
    requires Run(ss, as_) && ThreadAt(ss, as_, k, t, ExitCheck(teardown))
    ensures k + 1 < |ss|
    ensures var (s, u) := (ss[k], ss[k + 1]);
            && u.ctx == s.ctx && u.sem == s.sem && u.refs == s.refs && u.group == s.group
            && OnlyThread(s, u, t, if s.ctx == (if teardown then CtxTeardown else CtxExit) then Outside
                               else ExitSet(teardown))
  {
    hide Run, Lists, Apply, ThreadReady;
    AtStep(ss, as_, k, t, ExitCheck(teardown));
    KeepGroup(ss[k].group);
  }

  lemma ExitSets(ss: seq<State>, as_: seq<Action>, k: nat, t: nat, teardown: bool)
    requires Run(ss, as_) && ThreadAt(ss, as_, k, t, ExitSet(teardown))
    ensures k + 1 < |ss|
    ensures var (s, u) := (ss[k], ss[k + 1]);
            && u.ctx == (if teardown then CtxTeardown else CtxExit) && u.sem == s.sem && u.refs == s.refs
            && u.group == s.group && OnlyThread(s, u, t, Post)
  {
    hide Run, Lists, Apply, ThreadReady;
    AtStep(ss, as_, k, t, ExitSet(teardown));
    KeepGroup(ss[k].group);
  }

  lemma LoadChecks(ss: seq<State>, as_: seq<Action>, k: nat, t: nat)
    requires Run(ss, as_) && ThreadAt(ss, as_, k, t, LoadCheck)
    ensures k + 1 < |ss|
    ensures var (s, u) := (ss[k], ss[k + 1]);
            && u.ctx == s.ctx && u.sem == s.sem && u.refs == s.refs && u.group == s.group
            && OnlyThread(s, u, t, if s.ctx == CtxInit then LoadFix else Outside)
  {
    hide Run, Lists, Apply, ThreadReady;
    AtStep(ss, as_, k, t, LoadCheck);
    KeepGroup(ss[k].group);
  }

  /**
   Loading sends a service that is not registered to its end, a lazy one to wait,
   and the others to initialization.
   */
  lemma LoadFixes(ss: seq<State>, as_: seq<Action>, k: nat, t: nat)
    requires Run(ss, as_) && ThreadAt(ss, as_, k, t, LoadFix)
    ensures k + 1 < |ss| && |ss[k + 1].group.svcs| == |ss[k].group.svcs|
    ensures var (s, u) := (ss[k], ss[k + 1]);
            && u.ctx == s.ctx && u.sem == s.sem && u.refs == s.refs && OnlyThread(s, u, t, LoadSet)
            && forall j :: 0 <= j < |s.group.svcs| ==>
                 var v := s.group.svcs[j];
                 u.group.svcs[j] == v.(state := if !v.hasEntry then Exit1 else if v.lazy then Init2 else Init1)
  {
    hide Run, Lists, Apply, ThreadReady;
    AtStep(ss, as_, k, t, LoadFix);
    PcTouches(ss[k], t);
  }

  lemma LoadSets(ss: seq<State>, as_: seq<Action>, k: nat, t: nat)
    requires Run(ss, as_) && ThreadAt(ss, as_, k, t, LoadSet)
    ensures k + 1 < |ss|
    ensures var (s, u) := (ss[k], ss[k + 1]);
            && u.ctx == CtxBusy && u.sem == s.sem && u.refs == s.refs && u.group == s.group && OnlyThread(s, u, t, Post)
  {
    hide Run, Lists, Apply, ThreadReady;
    AtStep(ss, as_, k, t, LoadSet);
    KeepGroup(ss[k].group);
  }

  // ---------- What user code may begin ----------

  /**
   Thread t runs user code: outside the library before cleanup, and thread 0
   while the worker is in on_init, a handler, the yield hook, on_exit, or the
   destruction of a record in the teardown.
   */
  predicate RunsUser(s: State, t: nat)
  {
    && t < |s.threads| && s.threads[t].pc == Outside && !s.worker.Clean? && !s.worker.Cleaned?
    && (t == 0 ==> s.worker.OnInit? || s.worker.Handler? || s.worker.YieldHook? || s.worker.TearOnExit?
                   || s.worker.TearHold? || s.worker.OnExit?)
  }

  /** User code may call the library at any time; a send may be refused for want of a handler. */
  lemma CallsBegin(s: State, t: nat, i: nat, m: nat, req: bool, teardown: bool)
    requires RunsUser(s, t)
    ensures Begins(s, t, CallResume(i), Resume(i)) && Begins(s, t, CallExit(teardown), ExitCheck(teardown))
    ensures Begins(s, t, CallLoad, LoadCheck)
    ensures m in s.threads[t].held ==> Begins(s, t, Send(i, m, req), SendCheck(i, m, req))
  {
  }

  lemma SendRejected(s: State, t: nat)
    requires t < |s.threads| && s.threads[t].pc.SendCheck?
    ensures Begins(s, t, Reject, Outside)
  {
  }

  /** The step is possible, and user code of thread t holds the messages held, with the counts refs. */
  ghost predicate Holds(s: State, t: nat, op: Op, held: multiset<nat>, refs: map<nat, nat>)
  {
    && ThreadEnabled(s, t, op)
    && ThreadNext(s, t, op) == s.(threads := s.threads[t := s.threads[t].(held := held)], refs := refs)
  }

  /** It may create a message at a free address, take a reference to one that it holds or handles, and give one up. */
  lemma HandlesMove(ss: seq<State>, as_: seq<Action>, k: nat, t: nat, m: nat)
    requires Run(ss, as_) && k < |ss| && t < |ss[k].threads|
    ensures var (s, held) := (ss[k], ss[k].threads[t].held);
            && (RunsUser(s, t) && m !in s.refs ==> Holds(s, t, Create(m), held + multiset{m}, s.refs[m := 1]))
            && (RunsUser(s, t) && m in held ==>
                  m in s.refs && Holds(s, t, AddRef(m), held + multiset{m}, s.refs[m := s.refs[m] + 1]))
            && (s.threads[t].pc == Outside && m in held ==>
                  && m in s.refs && s.refs[m] > 0
                  && Holds(s, t, DropRef(m), held - multiset{m},
                           if s.refs[m] == 1 then s.refs - {m} else s.refs[m := s.refs[m] - 1]))
  {
    hide Run, CountOf;
    NeverFaults(ss, as_, k);
    assert ThreadReady(ss[k], t, AddRef(m)) ==> ThreadEnabled(ss[k], t, AddRef(m));
    assert ThreadReady(ss[k], t, DropRef(m)) ==> ThreadEnabled(ss[k], t, DropRef(m));
  }

  /** A handler may keep the message that it handles. */
  lemma HandlerKeeps(ss: seq<State>, as_: seq<Action>, k: nat, mode: CtxState, i: nat)
    requires Run(ss, as_) && k < |ss| && |ss[k].threads| > 0 && ss[k].threads[0].pc == Outside
    requires ss[k].worker == Handler(mode, i)
    ensures i < |ss[k].group.svcs| && ss[k].group.svcs[i].cur.Some?
    ensures var (s, m) := (ss[k], ss[k].group.svcs[i].cur.value.msg);
            && m in s.refs
            && Holds(s, 0, TakeCurrent, s.threads[0].held + multiset{m}, s.refs[m := s.refs[m] + 1])
  {
    hide Run, CountOf;
    NeverFaults(ss, as_, k);
    assert ThreadReady(ss[k], 0, TakeCurrent) ==> ThreadEnabled(ss[k], 0, TakeCurrent);
  }

  /** The step is possible, and takes the thread to pc with no other effect. */
  ghost predicate Begins(s: State, t: nat, op: Op, pc: Pc)
  {
    ThreadEnabled(s, t, op) && ThreadNext(s, t, op) == s.(threads := s.threads[t := s.threads[t].(pc := pc)])
  }

  // ---------- The worker ----------

  /** The kth step of the run is one of the worker, at w. */
  predicate WorkerAt(ss: seq<State>, as_: seq<Action>, k: nat, w: Worker, choice: bool)
  {
    k < |as_| && k < |ss| && as_[k] == WorkerStep(choice) && ss[k].worker == w
  }

  /** Only the worker has moved, to w, and the semaphore is n. */
  ghost predicate Goes(s: State, u: State, w: Worker, n: nat)
  {
    u.worker == w && u.sem == n && u.ctx == s.ctx && u.threads == s.threads
  }

  /** And it has changed nothing. */
  ghost predicate JustGoes(s: State, u: State, w: Worker)
  {
    Goes(s, u, w, s.sem) && u.group == s.group && u.refs == s.refs
  }

  lemma AtWork(ss: seq<State>, as_: seq<Action>, k: nat, w: Worker, choice: bool)
    requires Run(ss, as_) && WorkerAt(ss, as_, k, w, choice)
    ensures k + 1 < |ss| && WorkerEnabled(ss[k], choice) && ss[k + 1] == WorkerNext(ss[k], choice)
    ensures Lists(ss[k].group) && Lists(ss[k + 1].group)
  {
    hide Sound, WorkerNext, WorkerReady, WorkerSafe;
    RunStep(ss, as_, k);
    RunSound(ss, as_, k);
    RunSound(ss, as_, k + 1);
    InSound(ss[k]);
    InSound(ss[k + 1]);
  }

  lemma WorkTouches(s: State, choice: bool)
    requires WorkerEnabled(s, choice)
    ensures |WorkerNext(s, choice).group.svcs| == |s.group.svcs|
    ensures forall j :: 0 <= j < |s.group.svcs| ==>
              WorkerNext(s, choice).group.svcs[j] == Changed(s.group.svcs[j], j, WorkerChange(s, choice))
  {
    hide Apply, Changed, WorkerChange, WorkerPc, WorkerRefs, WorkerReady;
    var c := WorkerChange(s, choice);
    ApplySize(s.group, c);
    forall j | 0 <= j < |s.group.svcs|
      ensures WorkerNext(s, choice).group.svcs[j] == Changed(s.group.svcs[j], j, c)
    {
      Touches(s.group, c, j);
    }
  }

  /** Until it is loaded the worker waits; then it begins, unless the context has left the busy state already. */
  lemma WaitsForLoad(ss: seq<State>, as_: seq<Action>, k: nat, w: Worker, choice: bool)
    requires Run(ss, as_) && WorkerAt(ss, as_, k, w, choice)
    ensures k + 1 < |ss|
    ensures w == WaitStart ==> JustGoes(ss[k], ss[k + 1], if ss[k].ctx == CtxInit then PendStart else CheckBusy)
    ensures w == CheckBusy ==> JustGoes(ss[k], ss[k + 1], if ss[k].ctx == CtxBusy then InitNecessary(0, 0) else Done)
    ensures w == PendStart ==>
              && ss[k].sem > 0 && Goes(ss[k], ss[k + 1], WaitStart, ss[k].sem - 1)
              && ss[k + 1].group == ss[k].group && ss[k + 1].refs == ss[k].refs
  {
    hide Run, Lists, Apply;
    AtWork(ss, as_, k, w, choice);
    KeepGroup(ss[k].group);
  }

  /** The first round passes over all services, initializes those that wait for it, and counts them. */
  lemma FirstRound(ss: seq<State>, as_: seq<Action>, k: nat, i: nat, n: nat, choice: bool)
    requires Run(ss, as_) && WorkerAt(ss, as_, k, InitNecessary(i, n), choice)
    ensures k + 1 < |ss|
    ensures JustGoes(ss[k], ss[k + 1], if i >= |ss[k].group.svcs| then Ready(n)
                                       else if ss[k].group.svcs[i].state == Init1 then OnInit(i, Necessary(n))
                                       else InitNecessary(i + 1, n))
  {
    hide Run, Lists, Apply;
    AtWork(ss, as_, k, InitNecessary(i, n), choice);
    KeepGroup(ss[k].group);
  }

  /** The thread goes on with the event loop when some service was initialized, and ends otherwise. */
  lemma BeginsLoop(ss: seq<State>, as_: seq<Action>, k: nat, n: nat, choice: bool)
    requires Run(ss, as_) && WorkerAt(ss, as_, k, Ready(n), choice)
    ensures k + 1 < |ss| && JustGoes(ss[k], ss[k + 1], if n > 0 then Loop(CtxBusy) else Done)
  {
    hide Run, Lists, Apply;
    AtWork(ss, as_, k, Ready(n), choice);
    KeepGroup(ss[k].group);
  }

  /** An initialized service is busy when a message waits, and idle otherwise. */
  lemma InitEnds(ss: seq<State>, as_: seq<Action>, k: nat, i: nat, for_: InitFor, choice: bool)
    requires Run(ss, as_) && WorkerAt(ss, as_, k, OnInit(i, for_), choice)
    ensures k + 1 < |ss| && i < |ss[k].group.svcs|
    ensures var (s, u, v) := (ss[k], ss[k + 1], ss[k].group.svcs[i]);
            && Goes(s, u, if for_.Necessary? then InitNecessary(i + 1, for_.n + 1) else Dispatch(for_.mode, i), s.sem)
            && Others(s, u, i) && u.refs == s.refs
            && u.group.svcs[i] == v.(state := if v.queue == [] then Idle else Busy)
            && (i in u.group.busy <==> v.queue != [])
  {
    hide Run, Lists, Apply;
    AtWork(ss, as_, k, OnInit(i, for_), choice);
    WorkTouches(ss[k], choice);
    InBusy(ss[k + 1].group, i);
  }

  /** The event loop goes on while the context is in its mode; after the first one comes the teardown, then the exit. */
  lemma LoopGoesOn(ss: seq<State>, as_: seq<Action>, k: nat, mode: CtxState, choice: bool)
    requires Run(ss, as_) && WorkerAt(ss, as_, k, Loop(mode), choice)
    ensures k + 1 < |ss|
    ensures JustGoes(ss[k], ss[k + 1], if ss[k].ctx == mode then First(mode)
                                       else if mode == CtxBusy then TearCheck else ExitFrom(|ss[k].group.svcs|))
  {
    hide Run, Lists, Apply;
    AtWork(ss, as_, k, Loop(mode), choice);
    KeepGroup(ss[k].group);
  }

  /** The first busy service is served, and with none the worker waits for a post. */
  lemma ServesFirst(ss: seq<State>, as_: seq<Action>, k: nat, mode: CtxState, choice: bool)
    requires Run(ss, as_) && WorkerAt(ss, as_, k, First(mode), choice)
    ensures k + 1 < |ss|
    ensures JustGoes(ss[k], ss[k + 1], if ss[k].group.busy == [] then Pend(mode)
                                       else TryPend(mode, ss[k].group.busy[0]))
  {
    hide Run, Lists, Apply;
    AtWork(ss, as_, k, First(mode), choice);
    KeepGroup(ss[k].group);
  }

  lemma PendTakes(ss: seq<State>, as_: seq<Action>, k: nat, mode: CtxState, choice: bool)
    requires Run(ss, as_) && WorkerAt(ss, as_, k, Pend(mode), choice)
    ensures k + 1 < |ss| && ss[k].sem > 0 && Goes(ss[k], ss[k + 1], Loop(mode), ss[k].sem - 1)
    ensures ss[k + 1].group == ss[k].group && ss[k + 1].refs == ss[k].refs
  {
    hide Run, Lists, Apply;
    AtWork(ss, as_, k, Pend(mode), choice);
    KeepGroup(ss[k].group);
  }

  lemma TryPendTakes(ss: seq<State>, as_: seq<Action>, k: nat, mode: CtxState, i: nat, choice: bool)
    requires Run(ss, as_) && WorkerAt(ss, as_, k, TryPend(mode, i), choice)
    ensures k + 1 < |ss| && Goes(ss[k], ss[k + 1], Handle(mode, i), if ss[k].sem > 0 then ss[k].sem - 1 else 0)
    ensures ss[k + 1].group == ss[k].group && ss[k + 1].refs == ss[k].refs
  {
    hide Run, Lists, Apply;
    AtWork(ss, as_, k, TryPend(mode, i), choice);
    KeepGroup(ss[k].group);
  }

  /** A service in the loop is initialized first, if need be. */
  lemma HandleInits(ss: seq<State>, as_: seq<Action>, k: nat, mode: CtxState, i: nat, choice: bool)
    requires Run(ss, as_) && WorkerAt(ss, as_, k, Handle(mode, i), choice)
    ensures k + 1 < |ss| && i < |ss[k].group.svcs|
    ensures JustGoes(ss[k], ss[k + 1], if ss[k].group.svcs[i].state == Init1 then OnInit(i, InLoop(mode))
                                       else Dispatch(mode, i))
  {
    hide Run, Lists, Apply;
    AtWork(ss, as_, k, Handle(mode, i), choice);
    KeepGroup(ss[k].group);
  }

  /** A message in progress is gone on with, else the oldest one is taken, else the service is idle. */
  lemma Dispatches(ss: seq<State>, as_: seq<Action>, k: nat, mode: CtxState, i: nat, choice: bool)
    requires Run(ss, as_) && WorkerAt(ss, as_, k, Dispatch(mode, i), choice)
    ensures k + 1 < |ss| && i < |ss[k].group.svcs|
    ensures var (s, u, v) := (ss[k], ss[k + 1], ss[k].group.svcs[i]);
            && Others(s, u, i) && u.refs == s.refs
            && if v.cur.Some? then u.group == s.group && Goes(s, u, Handler(mode, i), s.sem)
               else if v.queue == [] then
                 u.group.svcs[i] == v.(state := Idle) && i in u.group.wait && Goes(s, u, Loop(mode), s.sem)
               else
                 && u.group.svcs[i] == v.(cur := Some(v.queue[0]), queue := v.queue[1..])
                 && Goes(s, u, HookBefore(mode, i), s.sem)
  {
    hide Run, Lists, Apply;
    AtWork(ss, as_, k, Dispatch(mode, i), choice);
    WorkTouches(ss[k], choice);
    KeepGroup(ss[k].group);
    InBusy(ss[k + 1].group, i);
  }

  /** The service has finished its message: the record is destroyed, and gives its reference back. */
  ghost predicate Finishes(s: State, u: State, i: nat)
  {
    && Others(s, u, i) && i < |s.group.svcs| && s.group.svcs[i].cur.Some?
    && var (v, rec) := (s.group.svcs[i], s.group.svcs[i].cur.value);
       && u.group.svcs[i] == v.(cur := None, finished := v.finished + [rec])
       && rec.msg in s.refs && s.refs[rec.msg] > 0
       && u.refs == if s.refs[rec.msg] == 1 then s.refs - {rec.msg} else s.refs[rec.msg := s.refs[rec.msg] - 1]
  }

  /** A message that the hook rejects is finished. */
  lemma HookDecides(ss: seq<State>, as_: seq<Action>, k: nat, mode: CtxState, i: nat, choice: bool)
    requires Run(ss, as_) && WorkerAt(ss, as_, k, HookBefore(mode, i), choice)
    ensures k + 1 < |ss|
    ensures if choice then Goes(ss[k], ss[k + 1], Loop(mode), ss[k].sem) && Finishes(ss[k], ss[k + 1], i)
            else JustGoes(ss[k], ss[k + 1], Handler(mode, i))
  {
    hide Run, Lists, Apply;
    KeepGroup(ss[k].group);
    AtWork(ss, as_, k, HookBefore(mode, i), choice);
    WorkTouches(ss[k], choice);
    CurrentAt(ss, as_, k);
  }

  lemma HandlerDecides(ss: seq<State>, as_: seq<Action>, k: nat, mode: CtxState, i: nat, choice: bool)
    requires Run(ss, as_) && WorkerAt(ss, as_, k, Handler(mode, i), choice)
    ensures k + 1 < |ss| && JustGoes(ss[k], ss[k + 1], if choice then SetYield(mode, i) else Finish(mode, i))
  {
    hide Run, Lists, Apply, Others, Finishes;
    AtWork(ss, as_, k, Handler(mode, i), choice);
    KeepGroup(ss[k].group);
  }

  lemma HookReturns(ss: seq<State>, as_: seq<Action>, k: nat, mode: CtxState, i: nat, choice: bool)
    requires Run(ss, as_) && WorkerAt(ss, as_, k, YieldHook(mode, i), choice)
    ensures k + 1 < |ss| && JustGoes(ss[k], ss[k + 1], Loop(mode))
  {
    hide Run, Lists, Apply, Others, Finishes;
    AtWork(ss, as_, k, YieldHook(mode, i), choice);
    KeepGroup(ss[k].group);
  }

  /** A handler that yields leaves the service parked on its message, before the yield hook is called. */
  lemma YieldParks(ss: seq<State>, as_: seq<Action>, k: nat, mode: CtxState, i: nat, choice: bool)
    requires Run(ss, as_) && WorkerAt(ss, as_, k, SetYield(mode, i), choice)
    ensures k + 1 < |ss| && i < |ss[k].group.svcs|
    ensures var (s, u) := (ss[k], ss[k + 1]);
            && Goes(s, u, YieldHook(mode, i), s.sem) && Others(s, u, i) && u.refs == s.refs
            && u.group.svcs[i] == s.group.svcs[i].(state := Yielded) && i in u.group.wait
  {
    hide Run, Lists, Apply;
    AtWork(ss, as_, k, SetYield(mode, i), choice);
    WorkTouches(ss[k], choice);
    InBusy(ss[k + 1].group, i);
  }

  /** One that ends finishes its message. */
  lemma HandlerEnds(ss: seq<State>, as_: seq<Action>, k: nat, mode: CtxState, i: nat, choice: bool)
    requires Run(ss, as_) && WorkerAt(ss, as_, k, Finish(mode, i), choice)
    ensures k + 1 < |ss| && Goes(ss[k], ss[k + 1], Loop(mode), ss[k].sem) && Finishes(ss[k], ss[k + 1], i)
  {
    hide Run, Lists, Apply;
    AtWork(ss, as_, k, Finish(mode, i), choice);
    WorkTouches(ss[k], choice);
    CurrentAt(ss, as_, k);
  }

  // ---------- The end of the worker ----------

  /** After the busy state the worker tears down, if that was asked for. */
  lemma TearDecides(ss: seq<State>, as_: seq<Action>, k: nat, choice: bool)
    requires Run(ss, as_) && WorkerAt(ss, as_, k, TearCheck, choice)
    ensures k + 1 < |ss|
    ensures JustGoes(ss[k], ss[k + 1], if ss[k].ctx == CtxTeardown then Tear(0) else Loop(CtxTeardown))
  {
    hide Run, Lists, Apply;
    AtWork(ss, as_, k, TearCheck, choice);
    KeepGroup(ss[k].group);
  }

  /** The last round goes from the last service to the first, and calls on_exit of each that has not ended. */
  lemma LastRound(ss: seq<State>, as_: seq<Action>, k: nat, n: nat, choice: bool)
    requires Run(ss, as_) && WorkerAt(ss, as_, k, ExitFrom(n), choice)
    ensures k + 1 < |ss|
    ensures n == 0 ==> JustGoes(ss[k], ss[k + 1], Done)
    ensures n > 0 ==>
              && n <= |ss[k].group.svcs|
              && var v := ss[k].group.svcs[n - 1];
                 if v.state == Exit1 || !v.hasEntry then JustGoes(ss[k], ss[k + 1], ExitFrom(n - 1))
                 else
                   && Goes(ss[k], ss[k + 1], OnExit(n - 1), ss[k].sem) && Others(ss[k], ss[k + 1], n - 1)
                   && ss[k + 1].group.svcs[n - 1] == v.(state := Exit0, exits := v.exits + 1)
  {
    hide Run, Lists, Apply;
    AtWork(ss, as_, k, ExitFrom(n), choice);
    WorkTouches(ss[k], choice);
    KeepGroup(ss[k].group);
  }

  lemma ExitEnds(ss: seq<State>, as_: seq<Action>, k: nat, i: nat, choice: bool)
    requires Run(ss, as_) && WorkerAt(ss, as_, k, OnExit(i), choice)
    ensures k + 1 < |ss| && i < |ss[k].group.svcs|
    ensures Goes(ss[k], ss[k + 1], ExitFrom(i), ss[k].sem) && Others(ss[k], ss[k + 1], i)
    ensures ss[k + 1].group.svcs[i] == ss[k].group.svcs[i].(state := Exit1) && ss[k + 1].refs == ss[k].refs
  {
    hide Run, Lists, Apply;
    AtWork(ss, as_, k, OnExit(i), choice);
    WorkTouches(ss[k], choice);
  }

  /** Cleanup begins when every call has returned, and passes over all services. */
  lemma CleanupBegins(ss: seq<State>, as_: seq<Action>, k: nat, choice: bool)
    requires Run(ss, as_) && WorkerAt(ss, as_, k, Done, choice)
    ensures k + 1 < |ss| && JustGoes(ss[k], ss[k + 1], Clean(0))
    ensures forall t :: 0 <= t < |ss[k].threads| ==> ss[k].threads[t].pc == Outside
  {
    hide Run, Lists, Apply;
    AtWork(ss, as_, k, Done, choice);
    KeepGroup(ss[k].group);
  }

  lemma CleanupGoesOn(ss: seq<State>, as_: seq<Action>, k: nat, i: nat, choice: bool)
    requires Run(ss, as_) && WorkerAt(ss, as_, k, Clean(i), choice)
    ensures k + 1 < |ss|
    ensures i >= |ss[k].group.svcs| ==> JustGoes(ss[k], ss[k + 1], Cleaned)
    ensures i < |ss[k].group.svcs| ==>
              && Others(ss[k], ss[k + 1], i)
              && var (v, v') := (ss[k].group.svcs[i], ss[k + 1].group.svcs[i]);
                 if v.queue != [] then
                   v' == v.(queue := v.queue[1..], finished := v.finished + [v.queue[0]])
                   && Goes(ss[k], ss[k + 1], Clean(i), ss[k].sem)
                 else if v.cur.Some? then
                   v' == v.(cur := None, finished := v.finished + [v.cur.value])
                   && Goes(ss[k], ss[k + 1], Clean(i), ss[k].sem)
                 else JustGoes(ss[k], ss[k + 1], Clean(i + 1))
  {
    hide Run, Lists, Apply;
    AtWork(ss, as_, k, Clean(i), choice);
    WorkTouches(ss[k], choice);
    KeepGroup(ss[k].group);
  }

  lemma CurrentAt(ss: seq<State>, as_: seq<Action>, k: nat)
    requires Run(ss, as_) && k < |ss|
    ensures var w := ss[k].worker;
            (w.HookBefore? || w.Finish?) && w.i < |ss[k].group.svcs| ==> ss[k].group.svcs[w.i].cur.Some?
  {
    hide Run;
    RunSound(ss, as_, k);
  }
}
