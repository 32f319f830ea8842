/** No wakeup is lost: a worker that is blocked has nothing to do, or is about to be woken. */
module SchedWake {
  import opened Scheduler
  import opened SchedLists
  import opened SchedPhase
  import opened SchedCore

  /** The semaphore is posted, or a thread has made its change and is about to post it. */
  ghost predicate Signalled(sem: nat, threads: seq<Thread>)
  {
    sem > 0 || exists t :: 0 <= t < |threads| && threads[t].pc == Post
  }

  /** What the worker has seen on its way to a wait is still so, or it will be woken. */
  ghost predicate Wake(s: State)
  {
    && (s.worker.PendStart? && s.ctx != CtxInit ==> Signalled(s.sem, s.threads))
    && (s.worker.First? && s.ctx != s.worker.mode ==> Signalled(s.sem, s.threads))
    && (s.worker.Pend? && (s.ctx != s.worker.mode || s.group.busy != []) ==> Signalled(s.sem, s.threads))
  }

  lemma WorkerWake(s: State, choice: bool)
    requires WorkerEnabled(s, choice) && Wake(s)
    ensures Wake(WorkerNext(s, choice))
  {
    hide SetState, FinishInit, BeginExit, Push, FixStates, Signalled, WorkerSafe, TargetChange, Destroys;
  }

  /** A thread that changes the context or fills busy_list goes on to post the semaphore. */
  lemma ChangePosts(s: State, t: nat)
    requires ThreadEnabled(s, t, Continue)
    ensures var u := PcStep(s, t);
            var pc := s.threads[t].pc;
            && (pc == Post ==> u.sem > 0)
            && (!pc.LoadFix? && (u.ctx != s.ctx || u.group.busy != s.group.busy) ==> u.threads[t].pc == Post)
  {
    hide MayCall, Counted, FixStates, SetState, Push;
  }

  lemma SignalKept(s: State, u: State, t: nat)
    requires t < |s.threads| && Signalled(s.sem, s.threads) && u.sem >= s.sem
    requires |u.threads| == |s.threads| && u.threads == s.threads[t := u.threads[t]]
    requires s.threads[t].pc == Post ==> u.sem > 0
    ensures Signalled(u.sem, u.threads)
  {
    if u.sem == 0 {
      var x :| 0 <= x < |s.threads| && s.threads[x].pc == Post;
      assert u.threads[x].pc == Post;
    }
  }

  lemma ThreadWake(s: State, t: nat, op: Op)
    requires ThreadEnabled(s, t, op) && Core(s) && Wake(s)
    ensures Wake(ThreadNext(s, t, op))
  {
    hide Apply, Signalled, Services, Lists, AllAimed, Pcs, ThreadSafe, PcNext, PcRefs;
    var u := ThreadNext(s, t, op);
    PcAt(s, t);
    if op == Continue {
      ChangePosts(s, t);
    }
    if Signalled(s.sem, s.threads) {
      SignalKept(s, u, t);
    }
    if u.threads[t].pc == Post {
      PostSignals(u, t);
    }
  }

  lemma PostSignals(s: State, t: nat)
    requires t < |s.threads| && s.threads[t].pc == Post
    ensures Signalled(s.sem, s.threads)
  {
  }

  lemma WakeStep(s: State, a: Action)
    requires Enabled(s, a) && Core(s) && Wake(s)
    ensures Wake(Next(s, a))
  {
    hide Core, Wake, WorkerEnabled, ThreadEnabled, WorkerNext, ThreadNext;
    match a
    case WorkerStep(choice) => WorkerWake(s, choice);
    case ThreadStep(t, op) => ThreadWake(s, t, op);
  }
}
