/** The promises of the group scheduler, over every run of every interleaving. */
module SchedRuns {
  import opened Messages
  import opened NodeLists
  import opened Scheduler
  import opened SchedLists
  import opened SchedPhase
  import opened SchedService
  import opened SchedCore
  import opened SchedWake
  import opened SchedFlow
  import opened SchedRefs
  import opened SchedRecords
  import opened SchedCapacity
  import opened Wrappers

  /** The services below the place of cleanup are empty. */
  ghost predicate Swept(g: Group, w: Worker)
  {
    forall j :: 0 <= j < |g.svcs| && (w.Cleaned? || (w.Clean? && j < w.i))
      ==> g.svcs[j].queue == [] && g.svcs[j].cur == None
  }

  lemma WorkerSwept(s: State, choice: bool)
    requires WorkerEnabled(s, choice) && Swept(s.group, s.worker)
    ensures var u := WorkerNext(s, choice); Swept(u.group, u.worker)
  {
    hide Apply, WorkerReady, TargetChange, TargetPc, FreePc;
    var u := WorkerNext(s, choice);
    var c := WorkerChange(s, choice);
    ApplySize(s.group, c);
    forall j | 0 <= j < |s.group.svcs| && (u.worker.Cleaned? || (u.worker.Clean? && j < u.worker.i))
      ensures u.group.svcs[j].queue == [] && u.group.svcs[j].cur == None
    {
      CleaningBefore(s, choice);
      Touches(s.group, c, j);
      SweptTarget(s, choice, j);
    }
  }

  lemma CleaningBefore(s: State, choice: bool)
    requires WorkerEnabled(s, choice)
    ensures WorkerPc(s, choice).Cleaned? ==> s.worker.Clean? && s.worker.i >= |s.group.svcs|
    ensures WorkerPc(s, choice).Clean? ==> s.worker.Done? || s.worker.Clean?
  {
  }

  lemma SweptTarget(s: State, choice: bool, j: nat)
    requires WorkerEnabled(s, choice) && Swept(s.group, s.worker) && j < |s.group.svcs|
    requires var w := WorkerPc(s, choice); w.Cleaned? || (w.Clean? && j < w.i)
    ensures var v := Changed(s.group.svcs[j], j, WorkerChange(s, choice)); v.queue == [] && v.cur == None
  {
    CleaningBefore(s, choice);
  }

  /** During cleanup no thread is inside the library. */
  predicate Alone(s: State)
  {
    s.worker.Clean? || s.worker.Cleaned? ==> AllOutside(s.threads)
  }

  lemma SweptStep(s: State, a: Action)
    requires Enabled(s, a) && Alone(s) && Swept(s.group, s.worker)
    ensures var u := Next(s, a); Swept(u.group, u.worker) && Alone(u)
  {
    hide Apply, WorkerNext, WorkerEnabled, PcChange, PcNext, PcRefs, ThreadSafe;
    match a
    case WorkerStep(choice) =>
      WorkerSwept(s, choice);
      WorkerAlone(s, choice);
    case ThreadStep(t, op) =>
  }

  lemma WorkerAlone(s: State, choice: bool)
    requires WorkerEnabled(s, choice) && Alone(s)
    ensures Alone(WorkerNext(s, choice))
  {
    hide Apply, WorkerChange, WorkerRefs, WorkerSafe;
    CleaningBefore(s, choice);
  }

  // ---------- Every run ----------

  /** What holds whatever calls of eaf_load do: references, the order of records, and their identities. */
  ghost predicate Sound(s: State)
  {
    && Grounded(s) && Flow(s.group, s.worker) && Conserved(s) && AllKeep(s.threads) && Records(s)
    && Swept(s.group, s.worker) && Alone(s)
  }

  lemma SoundStep(s: State, a: Action)
    requires Enabled(s, a) && Sound(s)
    ensures Sound(Next(s, a))
  {
    hide Grounded, Flow, Conserved, AllKeep, Records, Swept, Alone, Enabled, Next;
    GroundedStep(s, a);
    FlowStep(s, a);
    ConservedStep(s, a);
    KeepsStep(s, a);
    RecordsStep(s, a);
    SweptStep(s, a);
  }

  /** What holds, too, while no second call of eaf_load begins in the initial state. */
  ghost predicate Inv(s: State)
  {
    Core(s) && Wake(s)
  }

  lemma InvStep(s: State, a: Action)
    requires Enabled(s, a) && LoadsOnce(s, a) && Inv(s)
    ensures Inv(Next(s, a))
  {
    hide Core, Wake, Enabled, Next;
    CoreStep(s, a);
    WakeStep(s, a);
  }

  lemma InitialConserved(s: State)
    requires Initial(s)
    ensures Conserved(s)
  {
    forall m: nat
      ensures CountOf(s.refs, m) == Pointers(s, m)
    {
      NothingInSvcs(s.group.svcs, m);
      NothingHeld(s.threads, m);
    }
  }

  lemma InitialFlow(s: State)
    requires Initial(s)
    ensures Flow(s.group, s.worker) && Records(s) && Wake(s) && AllKeep(s.threads) && Swept(s.group, s.worker)
            && Alone(s)
  {
  }

  lemma InitialInv(s: State)
    requires Initial(s)
    ensures Inv(s) && Sound(s)
  {
    hide Initial, Core, Grounded, Conserved, Flow, Records, Wake, AllKeep, Swept, Alone;
    InitialCore(s);
    InitialConserved(s);
    InitialFlow(s);
  }

  lemma {:induction false} NothingInSvcs(svcs: seq<Svc>, m: nat)
    requires forall i :: 0 <= i < |svcs| ==> svcs[i].queue == [] && svcs[i].cur == None
    ensures InSvcs(svcs, m) == 0
  {
    if svcs != [] {
      NothingInSvcs(svcs[1..], m);
    }
  }

  lemma {:induction false} NothingHeld(threads: seq<Thread>, m: nat)
    requires forall t :: 0 <= t < |threads| ==> threads[t].pc == Outside && threads[t].held[m] == 0
    ensures InThreads(threads, m) == 0
  {
    if threads != [] {
      NothingHeld(threads[1..], m);
    }
  }

  lemma RunStep(ss: seq<State>, as_: seq<Action>, k: nat)
    requires Run(ss, as_) && k < |as_|
    ensures |ss| == |as_| + 1 && Enabled(ss[k], as_[k]) && ss[k + 1] == Next(ss[k], as_[k])
  {
  }

  lemma RunStart(ss: seq<State>, as_: seq<Action>)
    requires Run(ss, as_)
    ensures |ss| == |as_| + 1 && Initial(ss[0])
  {
  }

  /** The invariants of references, records and their order hold in every state of every run. */
  lemma {:induction false} RunSound(ss: seq<State>, as_: seq<Action>, k: nat)
    requires Run(ss, as_) && k < |ss|
    ensures Sound(ss[k])
  {
    hide Run, Inv, Sound, Initial, Enabled, Next;
    RunStart(ss, as_);
    if k == 0 {
      InitialInv(ss[0]);
    } else {
      RunSound(ss, as_, k - 1);
      RunStep(ss, as_, k - 1);
      SoundStep(ss[k - 1], as_[k - 1]);
    }
  }

  /** Those of phases, services and wakeups hold in every state of every run with loads apart. */
  lemma {:induction false} RunInv(ss: seq<State>, as_: seq<Action>, k: nat)
    requires Run(ss, as_) && LoadsApart(ss, as_) && k < |ss|
    ensures Inv(ss[k])
  {
    hide Run, Inv, Sound, Initial, Enabled, Next, LoadsOnce;
    RunStart(ss, as_);
    if k == 0 {
      InitialInv(ss[0]);
    } else {
      RunInv(ss, as_, k - 1);
      RunStep(ss, as_, k - 1);
      InvStep(ss[k - 1], as_[k - 1]);
    }
  }

  /** The worker and the threads never follow a dangling pointer: whatever they may do next is defined. */
  lemma NeverFaults(ss: seq<State>, as_: seq<Action>, k: nat)
    requires Run(ss, as_) && k < |ss|
    ensures forall choice :: WorkerReady(ss[k]) ==> WorkerEnabled(ss[k], choice)
    ensures forall t, op :: ThreadReady(ss[k], t, op) ==> ThreadEnabled(ss[k], t, op)
  {
    hide Run, Grounded, Flow, Conserved, AllKeep, Records, Swept, WorkerReady, WorkerSafe, ThreadReady, ThreadSafe;
    var s := ss[k];
    RunSound(ss, as_, k);
    forall choice
      ensures WorkerReady(s) ==> WorkerEnabled(s, choice)
    {
      WorkerIsSafe(s, choice);
    }
    forall t: nat, op | ThreadReady(s, t, op)
      ensures ThreadEnabled(s, t, op)
    {
      ThreadIsSafe(s, t, op);
    }
  }

  /**
   What the state of a service implies, in every interleaving; and the state is
   BUSY wherever the source asserts it.
   */
  lemma ServiceStates(ss: seq<State>, as_: seq<Action>, k: nat, j: nat)
    requires Run(ss, as_) && LoadsApart(ss, as_) && k < |ss| && j < |ss[k].group.svcs|
    ensures var s := ss[k];
            var v := s.group.svcs[j];
            && (j in s.group.busy <==> InBusyList(v.state)) && (j in s.group.wait <==> !InBusyList(v.state))
            && NoDup(s.group.busy) && NoDup(s.group.wait)
            && (s.worker.Dispatch? && s.worker.i == j ==> v.state == Busy)
            && (s.loaded && !s.worker.Clean? && !s.worker.Cleaned? ==>
                  && (v.state == Idle || v.state == Init2 ==> v.queue == [] && v.cur == None)
                  && (v.state == Yielded ==> v.cur.Some?)
                  && (v.state == Init1 && (v.lazy || LoopMode(s.worker).Some?) ==> v.queue != []))
  {
    hide Run, Wake, Exits, Pcs, AllAimed;
    RunInv(ss, as_, k);
    assert SvcOk(ss[k].group.svcs[j], j, ss[k].worker, ss[k].loaded);
  }

  /**
   A worker that is blocked on the semaphore, with nobody about to post it,
   has seen the latest context state, and every service is idle, waits for
   its first message, is parked on a yield, or has exited.
   */
  lemma NoLostWakeup(ss: seq<State>, as_: seq<Action>, k: nat)
    requires Run(ss, as_) && LoadsApart(ss, as_) && k < |ss|
    requires ss[k].sem == 0 && forall t :: 0 <= t < |ss[k].threads| ==> ss[k].threads[t].pc != Post
    ensures ss[k].worker.PendStart? ==> ss[k].ctx == CtxInit
    ensures ss[k].worker.Pend? ==>
              && ss[k].ctx == ss[k].worker.mode && ss[k].group.busy == []
              && forall v :: v in ss[k].group.svcs ==>
                   || ((v.state == Idle || v.state == Init2) && v.queue == [] && v.cur == None)
                   || (v.state == Yielded && v.cur.Some?) || v.state == Exit1
  {
    hide Run, Exits, Pcs, AllAimed, NoDup;
    var s := ss[k];
    RunInv(ss, as_, k);
    if s.worker.Pend? {
      forall j | 0 <= j < |s.group.svcs|
        ensures !InBusyList(s.group.svcs[j].state) && Shape(s.group.svcs[j], Passed(s.worker, j))
      {
        assert j !in s.group.busy;
        assert SvcOk(s.group.svcs[j], j, s.worker, s.loaded);
      }
    }
  }

  /**
   Until cleanup, the accepted records of a service are the destroyed ones,
   then the one in progress, then the queue, in the order of acceptance.
   */
  lemma FirstInFirstOut(ss: seq<State>, as_: seq<Action>, k: nat, j: nat)
    requires Run(ss, as_) && k < |ss| && j < |ss[k].group.svcs|
    requires !ss[k].worker.Clean? && !ss[k].worker.Cleaned?
    ensures var v := ss[k].group.svcs[j];
            v.accepted == v.finished + Hold(ss[k].worker, j) + One(v.cur) + v.queue
  {
    hide Run, Grounded, Conserved, AllKeep, Records, Swept, Hold, One;
    RunSound(ss, as_, k);
    var v := ss[k].group.svcs[j];
    assert Fifo(v, j, ss[k].worker);
    assert v.finished + Pending(v, j, ss[k].worker) == v.finished + Hold(ss[k].worker, j) + One(v.cur) + v.queue;
  }

  lemma {:induction false} CountOnce(s: seq<Rec>, r: Rec)
    requires forall a, b :: 0 <= a < b < |s| ==> s[a] != s[b]
    ensures multiset(s)[r] <= 1
  {
    if s != [] {
      CountOnce(s[1..], r);
      assert s == [s[0]] + s[1..];
      assert r == s[0] ==> r !in s[1..];
    }
  }

  lemma CountTwice(s: seq<Rec>, a: nat, b: nat)
    requires a < b < |s| && s[a] == s[b]
    ensures multiset(s)[s[a]] >= 2
  {
    assert s == s[..b] + s[b..];
    assert s[a] in s[..b] && s[a] in s[b..];
  }

  /** A destroyed record was accepted by the same service. */
  lemma FinishedAccepted(s: State, j: nat, a: nat) returns (k: nat)
    requires Sound(s) && j < |s.group.svcs| && a < |s.group.svcs[j].finished|
    ensures k < |s.group.svcs[j].accepted| && s.group.svcs[j].accepted[k] == s.group.svcs[j].finished[a]
  {
    hide Grounded, Conserved, AllKeep, Records, Swept, Pending;
    var v := s.group.svcs[j];
    FinishedCount(s, j, v.finished[a]);
    assert v.finished[a] in multiset(v.finished);
    assert v.finished[a] in v.accepted;
    k :| 0 <= k < |v.accepted| && v.accepted[k] == v.finished[a];
  }

  lemma FinishedCount(s: State, j: nat, r: Rec)
    requires Sound(s) && j < |s.group.svcs|
    ensures multiset(s.group.svcs[j].finished)[r] <= multiset(s.group.svcs[j].accepted)[r]
  {
    hide Grounded, Conserved, AllKeep, Records, Swept, Pending;
    var v := s.group.svcs[j];
    assert Fifo(v, j, s.worker);
  }

  /** No record is destroyed twice: by one service, by two, or by the failed call that made it. */
  lemma DestroyedOnce(ss: seq<State>, as_: seq<Action>, k: nat, j: nat, a: nat, j': nat, b: nat)
    requires Run(ss, as_) && k < |ss| && j < |ss[k].group.svcs| && j' < |ss[k].group.svcs|
    requires a < |ss[k].group.svcs[j].finished| && b < |ss[k].group.svcs[j'].finished|
    requires ss[k].group.svcs[j].finished[a].id == ss[k].group.svcs[j'].finished[b].id
    ensures j == j' && a == b
    ensures forall t :: 0 <= t < |ss[k].threads| && ss[k].threads[t].pc.SendRevert? ==>
              ss[k].threads[t].pc.rec.id != ss[k].group.svcs[j].finished[a].id
  {
    hide Run, Grounded, Flow, Conserved, AllKeep, Swept, Below, Fifo;
    var s := ss[k];
    RunSound(ss, as_, k);
    var x := FinishedAccepted(s, j, a);
    var y := FinishedAccepted(s, j', b);
    var v := s.group.svcs[j];
    assert j == j' && x == y;
    assert Accepted(s.group.svcs, v.accepted[x].id);
    forall t | 0 <= t < |s.threads| && s.threads[t].pc.SendRevert?
      ensures s.threads[t].pc.rec.id != v.finished[a].id
    {
      assert Flying(s.threads[t].pc) == Some(s.threads[t].pc.rec);
    }
    if a != b {
      CountTwice(v.finished, if a < b then a else b, if a < b then b else a);
      FinishedCount(s, j, v.finished[a]);
      CountOnce(v.accepted, v.finished[a]);
    }
  }

  /**
   When cleanup is done, every accepted record has been destroyed, nothing is
   queued, and the counts are those of the handles that user code still holds;
   a message that nobody holds is gone.
   */
  lemma CleanedUp(ss: seq<State>, as_: seq<Action>, k: nat)
    requires Run(ss, as_) && k < |ss| && ss[k].worker.Cleaned?
    ensures forall v :: v in ss[k].group.svcs ==>
              v.queue == [] && v.cur == None && multiset(v.accepted) == multiset(v.finished)
    ensures forall m :: CountOf(ss[k].refs, m) == InThreads(ss[k].threads, m)
    ensures (forall th :: th in ss[k].threads ==> th.held == multiset{}) ==> ss[k].refs == map[]
  {
    hide Run, AllKeep, Records, Grounded;
    var s := ss[k];
    RunSound(ss, as_, k);
    forall j | 0 <= j < |s.group.svcs|
      ensures multiset(s.group.svcs[j].accepted) == multiset(s.group.svcs[j].finished)
    {
      assert Fifo(s.group.svcs[j], j, s.worker);
      assert Pending(s.group.svcs[j], j, s.worker) == [];
    }
    forall m: nat
      ensures CountOf(s.refs, m) == InThreads(s.threads, m)
    {
      NothingInSvcs(s.group.svcs, m);
      assert CountOf(s.refs, m) == Pointers(s, m);
    }
    if forall th :: th in s.threads ==> th.held == multiset{} {
      forall m: nat
        ensures m !in s.refs
      {
        assert forall t :: 0 <= t < |s.threads| ==> s.threads[t] in s.threads;
        NothingHeld(s.threads, m);
        assert CountOf(s.refs, m) == 0;
      }
    }
  }

  /** With at most n concurrent senders past the check, a queue holds at most n - 1 requests more than its capacity. */
  lemma {:induction false} Overshoot(ss: seq<State>, as_: seq<Action>, k: nat, j: nat, n: nat)
    requires Run(ss, as_) && k < |ss| && j < |ss[0].group.svcs| && n > 0
    requires forall l :: 0 <= l <= k ==> Senders(ss[l].threads, j) <= n
    ensures j < |ss[k].group.svcs| && Reqs(ss[k].group.svcs[j].queue) <= ss[k].group.svcs[j].capacity + n - 1
    ensures Bounded(ss[k], j, n)
  {
    hide Run, Enabled, Next, Senders;
    RunStart(ss, as_);
    if k == 0 {
      NoSenders(ss[0].threads, j);
    } else {
      Overshoot(ss, as_, k - 1, j, n);
      RunStep(ss, as_, k - 1);
      assert Senders(ss[k].threads, j) <= n;
      BoundedStep(ss[k - 1], as_[k - 1], j, n);
    }
  }

  lemma {:induction false} SameThreads(ss: seq<State>, as_: seq<Action>, k: nat)
    requires Run(ss, as_) && k < |ss|
    ensures |ss[k].threads| == |ss[0].threads| > 0
  {
    hide Run, Enabled, Next;
    RunStart(ss, as_);
    if k > 0 {
      SameThreads(ss, as_, k - 1);
      RunStep(ss, as_, k - 1);
      SameThreadsStep(ss[k - 1], as_[k - 1]);
    }
  }

  lemma SameThreadsStep(s: State, a: Action)
    requires Enabled(s, a)
    ensures |Next(s, a).threads| == |s.threads|
  {
  }

  /** So a queue never holds more requests than its capacity and one less than there are threads. */
  lemma OvershootByThreads(ss: seq<State>, as_: seq<Action>, k: nat, j: nat)
    requires Run(ss, as_) && k < |ss| && j < |ss[0].group.svcs|
    ensures j < |ss[k].group.svcs|
    ensures Reqs(ss[k].group.svcs[j].queue) <= ss[k].group.svcs[j].capacity + |ss[0].threads| - 1
  {
    hide Run, Senders;
    SameThreads(ss, as_, k);
    forall l | 0 <= l <= k
      ensures Senders(ss[l].threads, j) <= |ss[0].threads|
    {
      SameThreads(ss, as_, l);
      SendersBound(ss[l].threads, j);
    }
    Overshoot(ss, as_, k, j, |ss[0].threads|);
  }

  lemma {:induction false} NoSenders(threads: seq<Thread>, j: nat)
    requires forall t :: 0 <= t < |threads| ==> threads[t].pc == Outside
    ensures Senders(threads, j) == 0
  {
    if threads != [] {
      NoSenders(threads[1..], j);
    }
  }

  /** Service j is v in state s. */
  predicate Has(s: State, j: nat, v: Svc)
  {
    j < |s.group.svcs| && s.group.svcs[j] == v
  }

  /** Every step keeps the state of a service or takes one edge of its life cycle. */
  lemma OneEdge(ss: seq<State>, as_: seq<Action>, k: nat, j: nat, v: Svc, v': Svc)
    requires Run(ss, as_) && LoadsApart(ss, as_) && k < |as_| && Has(ss[k], j, v) && Has(ss[k + 1], j, v')
    ensures v'.state == v.state || Edge(v.state, v'.state)
    ensures v'.exits == v.exits + (if v.state != Exit0 && v'.state == Exit0 then 1 else 0)
    ensures v.accepted <= v'.accepted && v.finished <= v'.finished
    ensures v.state == Exit0 ==> v'.accepted == v.accepted
  {
    hide Run, Core, Enabled, Next, Wake;
    RunStep(ss, as_, k);
    RunInv(ss, as_, k);
    LivesStep(ss[k], as_[k], j);
  }

  lemma SameSize(ss: seq<State>, as_: seq<Action>, k: nat, j: nat)
    requires Run(ss, as_) && k < |as_| && j < |ss[k + 1].group.svcs|
    ensures j < |ss[k].group.svcs|
  {
    hide Run, Apply, WorkerChange, WorkerPc, WorkerReady, WorkerSafe, MayCall, ThreadSafe, PcChange, PcNext;
    RunStep(ss, as_, k);
    var s := ss[k];
    match as_[k] {
      case WorkerStep(choice) => ApplySize(s.group, WorkerChange(s, choice));
      case ThreadStep(t, op) => ThreadSize(s, t, op);
    }
  }

  /** Along a run Exit0 leads to Exit1 only, Exit1 is for good, and on_exit runs at most once. */
  lemma {:induction false} LifeCycle(ss: seq<State>, as_: seq<Action>, k: nat, l: nat, j: nat, v: Svc, v': Svc)
    requires Run(ss, as_) && LoadsApart(ss, as_) && k <= l < |ss| && Has(ss[k], j, v) && Has(ss[l], j, v')
    ensures v.state == Exit1 ==> v'.state == Exit1
    ensures v.state == Exit0 ==> v'.state == Exit0 || v'.state == Exit1
    ensures v.accepted <= v'.accepted && v.finished <= v'.finished
    ensures v.exits <= v'.exits <= 1
    decreases l
  {
    hide Run;
    ExitOnce(ss, as_, l, j, v');
    if k < l {
      RunStart(ss, as_);
      SameSize(ss, as_, l - 1, j);
      var u := ss[l - 1].group.svcs[j];
      LifeCycle(ss, as_, k, l - 1, j, v, u);
      OneEdge(ss, as_, l - 1, j, u, v');
    }
  }

  lemma ExitOnce(ss: seq<State>, as_: seq<Action>, k: nat, j: nat, v: Svc)
    requires Run(ss, as_) && LoadsApart(ss, as_) && k < |ss| && Has(ss[k], j, v)
    ensures v.exits <= 1
  {
    hide Run, Wake, Lists, Pcs, AllAimed;
    RunInv(ss, as_, k);
    assert SvcOk(ss[k].group.svcs[j], j, ss[k].worker, ss[k].loaded);
  }
}
