/** What holds before, during and after loading, whatever the services do. */
module SchedPhase {
  import opened Scheduler

  /** The worker has seen the context busy and has not returned. */
  predicate Working(w: Worker)
  {
    !w.WaitStart? && !w.PendStart? && !w.CheckBusy? && !w.Done? && !w.Clean? && !w.Cleaned?
  }

  predicate PcPhase(pc: Pc, loadStarted: bool, loaded: bool)
  {
    && (pc.SendCapacity? || pc.SendAddRef? || pc.SendPush? || pc.SendRevert? || pc.LoadSet? ==> loaded)
    && (pc.LoadFix? || pc.LoadSet? ==> loadStarted)
    && (pc.LoadFix? ==> !loaded)
  }

  /** A call of eaf_load that has passed its check. */
  predicate Loading(pc: Pc)
  {
    pc.LoadFix? || pc.LoadSet?
  }

  ghost predicate Pcs(threads: seq<Thread>, loadStarted: bool, loaded: bool)
  {
    && (forall t :: 0 <= t < |threads| ==> PcPhase(threads[t].pc, loadStarted, loaded))
    && forall t, u :: 0 <= t < u < |threads| ==> !Loading(threads[t].pc) || !Loading(threads[u].pc)
  }

  /** The service states are those of a loaded group whenever anything can depend on them. */
  ghost predicate Phase(s: State)
  {
    && (s.ctx == CtxBusy || Working(s.worker) ==> s.loaded)
    && (s.loaded ==> s.loadStarted)
    && (s.worker.Clean? || s.worker.Cleaned? ==> AllOutside(s.threads))
    && |s.threads| > 0 && (s.threads[0].pc != Outside ==> InUserCode(s.worker))
    && Pcs(s.threads, s.loadStarted, s.loaded)
  }

  lemma WorkerPhase(s: State, choice: bool)
    requires WorkerEnabled(s, choice) && Phase(s)
    ensures Phase(WorkerNext(s, choice))
  {
    hide Apply, WorkerSafe, Pcs;
  }

  /** One thread moves, and the flags only rise. */
  lemma PcsAfter(s: State, u: State, t: nat)
    requires t < |s.threads| && Pcs(s.threads, s.loadStarted, s.loaded)
    requires |u.threads| == |s.threads| && u.threads == s.threads[t := u.threads[t]]
    requires s.loadStarted ==> u.loadStarted
    requires s.loaded ==> u.loaded
    requires u.loaded != s.loaded ==> Loading(s.threads[t].pc)
    requires PcPhase(u.threads[t].pc, u.loadStarted, u.loaded)
    requires Loading(u.threads[t].pc) ==> Loading(s.threads[t].pc) || !s.loadStarted
    ensures Pcs(u.threads, u.loadStarted, u.loaded)
  {
    assert forall x :: 0 <= x < |s.threads| && x != t ==> u.threads[x] == s.threads[x];
  }

  lemma ThreadPhase(s: State, t: nat, op: Op)
    requires ThreadEnabled(s, t, op) && LoadsOnce(s, ThreadStep(t, op)) && Phase(s)
    ensures Phase(ThreadNext(s, t, op))
  {
    hide Apply, ThreadSafe, Pcs, PcRefs;
    assert PcPhase(s.threads[t].pc, s.loadStarted, s.loaded) by {
      PcAt(s, t);
    }
    PcsAfter(s, ThreadNext(s, t, op), t);
  }

  lemma PcAt(s: State, t: nat)
    requires t < |s.threads| && Pcs(s.threads, s.loadStarted, s.loaded)
    ensures PcPhase(s.threads[t].pc, s.loadStarted, s.loaded)
  {
  }
}
