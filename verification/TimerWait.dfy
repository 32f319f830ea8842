/**
 The wait at the end of _timer_on_exit. It is there to hold the service back
 until all timers are closed; this module says exactly when it does.
 */
module TimerWait {
  import opened NodeLists
  import opened Timer

  predicate AllFreed(s: State)
  {
    forall id :: 0 <= id < s.next ==> id in s.freed
  }

  /** No record is in the hands of the libuv thread, before busy_queue or after dead_queue. */
  ghost predicate NoneInHand(s: State)
  {
    forall id :: !InUvHand(s.uv, id) && s.uv != Closed(id)
  }

  // ---------- What the wait has seen ----------

  /** The libuv thread is in a callback that empties idle_queue. */
  predicate Drains(w: UvPc)
  {
    || w.Pop? || w.InitTimer? || w.PushBusy? || w.StartTimer? || w.Rollback? || w.RollbackClose?
    || w.CloseBusy? || w.CloseTimer? || w.CloseIdle? || w.FreeIdle?
  }

  /** A queued request is taken care of, and no request comes once the wait has begun. */
  predicate Attended(s: State)
  {
    && (s.idle != [] && !Drains(s.uv) ==> s.notified)
    && (s.service.Waiting? && IdleQueue !in s.service.left && s.service.sum == 0 ==> s.idle == [])
    && (s.service.Exited? ==> s.idle == [])
  }

  lemma UvAttended(s: State, ok: bool)
    requires Enabled(s, UvStep(ok)) && Attended(s)
    ensures Attended(UvNext(s, ok))
  {
    hide Erase, Answer, Free, Die;
    KeepsIdle(s);
  }

  lemma KeepsIdle(s: State)
    ensures forall id, ret :: Answer(s, id, ret).idle == s.idle && Free(Answer(s, id, ret), id).idle == s.idle
    ensures forall id :: Free(s, id).idle == s.idle && Die(s, id).idle == s.idle
  {
    hide Erase;
  }

  lemma AttendedStep(s: State, a: Action)
    requires Enabled(s, a) && Attended(s)
    ensures Attended(Next(s, a))
  {
    hide Erase, UvNext;
    if a.UvStep? {
      UvAttended(s, a.ok);
    }
  }

  lemma {:induction false} RunAttended(ss: seq<State>, as_: seq<Action>, k: nat)
    requires Run(ss, as_) && k < |ss|
    ensures Attended(ss[k])
  {
    hide Attended, Enabled, Next;
    if k == 0 {
      assert Attended(ss[0]) by {
        InitialAttended(ss[0]);
      }
    } else {
      RunAttended(ss, as_, k - 1);
      RunStep(ss, as_, k - 1);
      AttendedStep(ss[k - 1], as_[k - 1]);
    }
  }

  lemma InitialAttended(s: State)
    requires Initial(s)
    ensures Attended(s)
  {
  }

  /**
   When the wait has ended, idle_queue is empty, because nothing is pushed any
   more; but the sizes of the three queues are read at three moments, so that
   all records are freed exactly when none is busy or dead by then, and the
   libuv thread has none in its hands.
   */
  lemma WaitEnds(ss: seq<State>, as_: seq<Action>, k: nat)
    requires Run(ss, as_) && k < |ss| && ss[k].service.Exited?
    ensures ss[k].idle == []
    ensures AllFreed(ss[k]) <==> ss[k].busy == [] && ss[k].dead == [] && NoneInHand(ss[k])
  {
    hide Run, Inv, Attended, AllFreed;
    RunInv(ss, as_, k);
    RunAttended(ss, as_, k);
    ExitedIdle(ss[k]);
    if AllFreed(ss[k]) {
      FreedThen(ss[k]);
    } else if ss[k].busy == [] && ss[k].dead == [] && NoneInHand(ss[k]) {
      FreedIf(ss[k]);
    }
  }

  lemma ExitedIdle(s: State)
    requires Attended(s) && s.service.Exited?
    ensures s.idle == []
  {
  }

  lemma FreedThen(s: State)
    requires Inv(s) && AllFreed(s)
    ensures s.busy == [] && s.dead == [] && NoneInHand(s)
  {
    hide Inv, Known;
    forall id: nat
      ensures id !in s.busy && id !in s.dead && !InUvHand(s.uv, id) && s.uv != Closed(id)
    {
      RecordAt(s, id);
    }
    Nothing(s.busy);
    Nothing(s.dead);
  }

  lemma Nothing(list: seq<nat>)
    ensures list == [] || exists id: nat :: id in list
  {
    if list != [] {
      assert list[0] in list;
    }
  }

  lemma FreedIf(s: State)
    requires Inv(s) && s.service.Exited? && s.idle == [] && s.busy == [] && s.dead == [] && NoneInHand(s)
    ensures AllFreed(s)
  {
    hide Inv, Known;
    forall id: nat | id < s.next
      ensures id in s.freed
    {
      RecordAt(s, id);
    }
  }

  // ---------- What the wait guarantees ----------

  function PcWeight(w: UvPc): nat
  {
    match w
    case Polling => 0
    case Pop => 1
    case InitTimer(_) => 2
    case PushBusy(_) => 12
    case StartTimer(_) => 4
    case Rollback(_) => 3
    case RollbackClose(_) => 2
    case Fired(_) => 3
    case FiredMove(_) => 2
    case FiredClose(_) => 1
    case CloseBusy => 2
    case CloseTimer(_) => 3
    case CloseIdle => 1
    case FreeIdle(_) => 2
    case Closed(_) => 1
  }

  /** How far the libuv thread is from having freed all records. */
  function Work(s: State): nat
  {
    12 * |s.idle| + 7 * |s.busy| + 3 * |s.dead| + 4 * |s.armed| + (if s.notified then 3 else 0) + PcWeight(s.uv)
  }

  /** What the libuv thread does next to free all records. */
  function Drive(s: State): Action
  {
    if !s.uv.Polling? then UvStep(false)
    else if s.dead != [] then OnClose(s.dead[0])
    else if s.busy != [] then Fire(s.busy[0])
    else Notify
  }

  predicate Linked(s: State)
  {
    s.idle != [] || s.busy != [] || s.dead != []
  }

  lemma EraseShorter(list: seq<nat>, i: nat)
    requires i in list
    ensures |Erase(list, i)| == |list| - 1
  {
  }

  lemma DriveEnabled(s: State)
    requires Inv(s) && Attended(s) && Linked(s)
    ensures Enabled(s, Drive(s))
  {
    hide Inv;
    if s.dead != [] {
      RecordAt(s, s.dead[0]);
    }
    if s.busy != [] {
      RecordAt(s, s.busy[0]);
    }
  }

  /** The libuv thread takes a record out of a queue, or hands it on. */
  lemma StartWorks(s: State)
    requires s.uv.Pop? || s.uv.InitTimer? || s.uv.PushBusy? || s.uv.StartTimer? || s.uv.CloseIdle? || s.uv.FreeIdle?
             || s.uv.Closed?
    ensures Work(UvNext(s, false)) < Work(s)
  {
  }

  lemma CloseWorks(s: State)
    requires s.uv.CloseBusy? || s.uv.CloseTimer? || s.uv.RollbackClose? || s.uv.Fired? || s.uv.FiredClose?
    ensures Work(UvNext(s, false)) < Work(s)
  {
    if s.uv.CloseTimer? {
      assert s.armed - {s.uv.id} <= s.armed;
      Fewer(s.armed, s.uv.id);
    }
  }

  lemma Fewer(a: set<nat>, id: nat)
    ensures |a - {id}| <= |a|
  {
  }

  lemma DieWorks(s: State)
    requires (s.uv.Rollback? || s.uv.FiredMove?) && s.uv.id in s.busy
    ensures Work(UvNext(s, false)) < Work(s)
  {
    hide Erase;
    EraseShorter(s.busy, s.uv.id);
  }

  lemma UvWorks(s: State)
    requires Inv(s) && !s.uv.Polling?
    ensures Work(UvNext(s, false)) < Work(s)
  {
    hide Inv, Work, UvNext;
    UvActor(s);
    if s.uv.Rollback? || s.uv.FiredMove? {
      DieWorks(s);
    } else if s.uv.CloseBusy? || s.uv.CloseTimer? || s.uv.RollbackClose? || s.uv.Fired? || s.uv.FiredClose? {
      CloseWorks(s);
    } else {
      StartWorks(s);
    }
  }

  lemma DriveWorks(s: State)
    requires Inv(s) && Attended(s) && Linked(s)
    ensures Enabled(s, Drive(s)) && Work(Next(s, Drive(s))) < Work(s)
  {
    hide Inv, Erase, UvNext, Attended;
    DriveEnabled(s);
    if !s.uv.Polling? {
      UvWorks(s);
    } else if s.dead != [] {
      EraseShorter(s.dead, s.dead[0]);
    }
  }

  /** A step of the libuv thread frees no record that is in a queue, and leaves the service where it is. */
  lemma DriveLeaves(s: State)
    requires Inv(s) && Attended(s) && Linked(s) && Enabled(s, Drive(s))
    ensures var u := Next(s, Drive(s)); u.service == s.service && u.next == s.next && !AllFreed(u)
  {
    hide Inv, Erase, Known, Attended, AtOne, AllFreed, UvNext;
    var id := QueuedOne(s);
    if !s.uv.Polling? {
      UvFrees(s);
    } else {
      LoopFrees(s, Drive(s));
    }
    NotAll(Next(s, Drive(s)), id);
  }

  lemma QueuedOne(s: State) returns (id: nat)
    requires Inv(s) && Linked(s)
    ensures id < s.next && id !in s.freed && !InUvHand(s.uv, id) && s.uv != Closed(id)
  {
    hide Inv, Known;
    id := if s.idle != [] then s.idle[0] else if s.busy != [] then s.busy[0] else s.dead[0];
    RecordAt(s, id);
  }

  /** The libuv thread frees what it has in its hands, and nothing else. */
  lemma UvFrees(s: State)
    requires !s.uv.Polling?
    ensures forall id :: id in UvNext(s, false).freed ==> id in s.freed || InUvHand(s.uv, id) || s.uv == Closed(id)
  {
    hide Erase;
  }

  lemma LoopFrees(s: State, a: Action)
    requires Enabled(s, a) && (a.OnClose? || a.Fire? || a.Notify?)
    ensures var u := Next(s, a); u.freed == s.freed && u.service == s.service && u.next == s.next
  {
    hide Erase;
  }

  lemma NotAll(s: State, id: nat)
    requires id < s.next && id !in s.freed
    ensures !AllFreed(s)
  {
  }

  /**
   From any state of the wait with a record that is not freed, the three queues
   may be found empty with one not freed.
   */
  lemma {:induction false} Runs(s: State) returns (ss: seq<State>, as_: seq<Action>)
    requires Inv(s) && Attended(s) && !AllFreed(s)
    ensures Follows(ss, as_) && ss[0] == s
    ensures var u := ss[|ss| - 1]; u.service == s.service && u.next == s.next && !AllFreed(u) && !Linked(u)
    decreases Work(s)
  {
    hide Inv, Attended, AllFreed, Enabled, Next, Drive, Work;
    if !Linked(s) {
      ss, as_ := [s], [];
    } else {
      DriveWorks(s);
      DriveLeaves(s);
      var u := Next(s, Drive(s));
      InvStep(s, Drive(s));
      AttendedStep(s, Drive(s));
      ss, as_ := Runs(u);
      ss, as_ := Before(s, Drive(s), ss, as_);
    }
  }

  lemma Before(s: State, a: Action, ss: seq<State>, as_: seq<Action>) returns (ss': seq<State>, as': seq<Action>)
    requires Follows(ss, as_) && Enabled(s, a) && Next(s, a) == ss[0]
    ensures Follows(ss', as') && ss'[0] == s && ss'[|ss'| - 1] == ss[|ss| - 1]
  {
    hide Enabled, Next;
    ss', as' := [s] + ss, [a] + as_;
    forall k | 0 <= k < |as'|
      ensures Enabled(ss'[k], as'[k]) && ss'[k + 1] == Next(ss'[k], as'[k])
    {
      if k > 0 {
        assert as'[k] == as_[k - 1];
      }
    }
  }

  lemma Longer(ss: seq<State>, as_: seq<Action>, a: Action) returns (ss': seq<State>, as': seq<Action>)
    requires Follows(ss, as_) && Enabled(ss[|ss| - 1], a)
    ensures ss' != [] && Follows(ss', as') && ss'[0] == ss[0] && ss'[|ss'| - 1] == Next(ss[|ss| - 1], a)
  {
    hide Enabled, Next;
    ss', as' := ss + [Next(ss[|ss| - 1], a)], as_ + [a];
  }

  /** Three empty queues are read one after the other, and the wait is over. */
  lemma ReadsThree(ss: seq<State>, as_: seq<Action>) returns (ss': seq<State>, as': seq<Action>)
    requires ss != [] && Follows(ss, as_) && ss[|ss| - 1].service == Waiting(ALL_QUEUES, 0) && !Linked(ss[|ss| - 1])
    ensures ss' != [] && Follows(ss', as') && ss'[0] == ss[0] && ss'[|ss'| - 1] == ss[|ss| - 1].(service := Exited)
  {
    hide Follows;
    var s := ss[|ss| - 1];
    ss', as' := Longer(ss, as_, ReadSize(IdleQueue));
    assert ALL_QUEUES - {IdleQueue} == {BusyQueue, DeadQueue};
    ss', as' := Longer(ss', as', ReadSize(BusyQueue));
    assert {BusyQueue, DeadQueue} - {BusyQueue} == {DeadQueue};
    ss', as' := Longer(ss', as', ReadSize(DeadQueue));
    assert {DeadQueue} - {DeadQueue} == {};
    ss', as' := Longer(ss', as', ServiceStep(true));
  }

  /** In a shutdown no request comes, and what is freed stays so. */
  lemma ShutStep(s: State, a: Action)
    requires Enabled(s, a) && ShutDown(s)
    ensures var u := Next(s, a); ShutDown(u) && u.next == s.next && s.freed <= u.freed
  {
    hide Erase;
  }

  lemma {:induction false} StaysFreed(ss: seq<State>, as_: seq<Action>, k: nat)
    requires Follows(ss, as_) && ShutDown(ss[0]) && k < |ss|
    ensures ShutDown(ss[k]) && ss[k].next == ss[0].next && ss[0].freed <= ss[k].freed
  {
    hide Enabled, Next, ShutDown;
    if k > 0 {
      StaysFreed(ss, as_, k - 1);
      RunStep(ss, as_, k - 1);
      ShutStep(ss[k - 1], as_[k - 1]);
    }
  }

  /** Whatever the threads do, all records are freed when the wait that begins at s is over. */
  ghost predicate Guaranteed(s: State)
  {
    forall ss: seq<State>, as_: seq<Action> :: Follows(ss, as_) && ss[0] == s && ss[|ss| - 1].service.Exited?
      ==> AllFreed(ss[|ss| - 1])
  }

  /**
   The wait holds the service back until all records are freed exactly when
   they are freed before it begins: with any record left, some order of the
   steps of the two threads ends it too early.
   */
  lemma WaitGuarantees(ss: seq<State>, as_: seq<Action>, k: nat)
    requires Run(ss, as_) && k < |ss| && ss[k].service.Serving?
    ensures Guaranteed(Next(ss[k], Exit)) <==> AllFreed(ss[k])
  {
    hide Run, Inv, Attended;
    var s := ss[k];
    var u := Next(s, Exit);
    RunInv(ss, as_, k);
    RunAttended(ss, as_, k);
    InvStep(s, Exit);
    AttendedStep(s, Exit);
    if AllFreed(s) {
      forall us: seq<State>, bs: seq<Action> | Follows(us, bs) && us[0] == u && us[|us| - 1].service.Exited?
        ensures AllFreed(us[|us| - 1])
      {
        StaysFreed(us, bs, |us| - 1);
      }
    } else {
      InvStep(u, ServiceStep(true));
      AttendedStep(u, ServiceStep(true));
      var us, bs := Runs(Next(u, ServiceStep(true)));
      us, bs := Before(u, ServiceStep(true), us, bs);
      us, bs := ReadsThree(us, bs);
      assert us[0] == u && us[|us| - 1].service.Exited? && !AllFreed(us[|us| - 1]);
    }
  }

  // ---------- Two such orders ----------

  lemma To(ss: seq<State>, as_: seq<Action>, a: Action, u: State) returns (ss': seq<State>, as': seq<Action>)
    requires ss != [] && Follows(ss, as_) && Enabled(ss[|ss| - 1], a) && Next(ss[|ss| - 1], a) == u
    ensures ss' != [] && Follows(ss', as') && ss'[0] == ss[0] && ss'[|ss'| - 1] == u
  {
    hide Follows, Enabled, Next;
    ss', as' := Longer(ss, as_, a);
  }

  /** The state after one request and before any answer. */
  function One(looping: bool, notified: bool, idle: seq<nat>, busy: seq<nat>,
               service: ServicePc, uv: UvPc, armed: set<nat>): State
  {
    State(looping, notified, idle, busy, [], service, uv, armed, {}, map[0 := []], {}, {}, 1)
  }

  /** One request is queued, and the libuv thread is about to take it. */
  lemma QueuedRun() returns (ss: seq<State>, as_: seq<Action>)
    ensures ss != [] && Run(ss, as_) && ss[|ss| - 1] == One(true, false, [0], [], Serving, Pop, {})
  {
    hide Follows;
    var s0 := State(false, false, [], [], [], Serving, Polling, {}, {}, map[], {}, {}, 0);
    assert Follows([s0], []) by {
      Alone(s0);
    }
    ss, as_ := To([s0], [], Init, s0.(looping := true));
    ss, as_ := To(ss, as_, Request, One(true, false, [], [], Push(0), Polling, {}));
    ss, as_ := To(ss, as_, ServiceStep(true), One(true, true, [0], [], Serving, Polling, {}));
    ss, as_ := To(ss, as_, Notify, One(true, false, [0], [], Serving, Pop, {}));
  }

  lemma Alone(s: State)
    ensures Follows([s], [])
  {
  }

  /**
   The libuv thread has popped the record: all queues are empty, and its timer is
   started after the service has exited.
   */
  lemma ExitsTooEarly()
    ensures exists ss: seq<State>, as_: seq<Action> ::
              Run(ss, as_) && ss[|ss| - 1].service == Exited && 0 in ss[|ss| - 1].armed && !AllFreed(ss[|ss| - 1])
  {
    hide Follows;
    var ss, as_ := QueuedRun();
    ss, as_ := To(ss, as_, UvStep(true), One(true, false, [], [], Serving, InitTimer(0), {}));
    ss, as_ := To(ss, as_, Exit, One(false, false, [], [], Stopping, InitTimer(0), {}));
    ss, as_ := To(ss, as_, ServiceStep(true), One(false, true, [], [], Waiting(ALL_QUEUES, 0), InitTimer(0), {}));
    ss, as_ := ReadsThree(ss, as_);
    ss, as_ := To(ss, as_, UvStep(true), One(false, true, [], [], Exited, PushBusy(0), {}));
    ss, as_ := To(ss, as_, UvStep(true), One(false, true, [], [0], Exited, StartTimer(0), {}));
    ss, as_ := To(ss, as_, UvStep(true), One(false, true, [], [0], Exited, Pop, {0}));
    assert Run(ss, as_) && 0 !in ss[|ss| - 1].freed;
  }

  /**
   busy_queue is read while the record is idle, and idle_queue when it is busy:
   nothing is in hand, and its timer runs.
   */
  lemma ReadsApart()
    ensures exists ss: seq<State>, as_: seq<Action> ::
              && Run(ss, as_) && ss[|ss| - 1].service == Exited
              && NoneInHand(ss[|ss| - 1]) && 0 in ss[|ss| - 1].armed && !AllFreed(ss[|ss| - 1])
  {
    hide Follows;
    var w1, w2, w3 := {IdleQueue, DeadQueue}, {DeadQueue}, {};
    var ss, as_ := QueuedRun();
    ss, as_ := To(ss, as_, Exit, One(false, false, [0], [], Stopping, Pop, {}));
    ss, as_ := To(ss, as_, ServiceStep(true), One(false, true, [0], [], Waiting(ALL_QUEUES, 0), Pop, {}));
    assert ALL_QUEUES - {BusyQueue} == w1 && w1 - {IdleQueue} == w2 && w2 - {DeadQueue} == w3;
    ss, as_ := To(ss, as_, ReadSize(BusyQueue), One(false, true, [0], [], Waiting(w1, 0), Pop, {}));
    ss, as_ := To(ss, as_, UvStep(true), One(false, true, [], [], Waiting(w1, 0), InitTimer(0), {}));
    ss, as_ := To(ss, as_, UvStep(true), One(false, true, [], [], Waiting(w1, 0), PushBusy(0), {}));
    ss, as_ := StartsAndExits(ss, as_);
    assert Run(ss, as_) && 0 !in ss[|ss| - 1].freed;
  }

  lemma StartsAndExits(ss: seq<State>, as_: seq<Action>) returns (ss': seq<State>, as': seq<Action>)
    requires ss != [] && Follows(ss, as_)
    requires ss[|ss| - 1] == One(false, true, [], [], Waiting({IdleQueue, DeadQueue}, 0), PushBusy(0), {})
    ensures ss' != [] && Follows(ss', as') && ss'[0] == ss[0]
            && ss'[|ss'| - 1] == One(false, true, [], [0], Exited, Pop, {0})
  {
    hide Follows;
    var w1, w2 := {IdleQueue, DeadQueue}, {DeadQueue};
    assert w1 - {IdleQueue} == w2 && w2 - {DeadQueue} == {};
    ss', as' := To(ss, as_, UvStep(true), One(false, true, [], [0], Waiting(w1, 0), StartTimer(0), {}));
    ss', as' := To(ss', as', UvStep(true), One(false, true, [], [0], Waiting(w1, 0), Pop, {0}));
    ss', as' := To(ss', as', ReadSize(IdleQueue), One(false, true, [], [0], Waiting(w2, 0), Pop, {0}));
    ss', as' := To(ss', as', ReadSize(DeadQueue), One(false, true, [], [0], Waiting({}, 0), Pop, {0}));
    ss', as' := To(ss', as', ServiceStep(true), One(false, true, [], [0], Exited, Pop, {0}));
  }
}
