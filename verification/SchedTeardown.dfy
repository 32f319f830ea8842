/**
 The teardown and the exit: which services they take down, and that these have
 ended with everything destroyed that they had accepted.
 */
module SchedTeardown {
  import opened Scheduler
  import opened SchedLists
  import opened SchedPhase
  import opened SchedService
  import opened SchedCore
  import opened SchedWake
  import opened SchedFlow
  import opened SchedRefs
  import opened SchedRuns
  import opened SchedEffects
  import opened Wrappers

  // ---------- The teardown ----------

  predicate TearPhase(w: Worker)
  {
    w.Tear? || w.TearOnExit? || w.TearCurrent? || w.TearQueue? || w.TearHold? || w.TearDone?
  }

  /** The teardown at w is through with service j. */
  predicate Behind(w: Worker, j: nat)
  {
    if w.Tear? then j < w.i
    else if TearPhase(w) then j < ExitAt(w).value
    else true
  }

  /** The service is registered, and not to be kept alive. */
  predicate Mortal(v: Svc)
  {
    v.hasEntry && !v.alive
  }

  /** Service j has ended, and has finished whatever it had accepted in the steps from l to k before it ended. */
  ghost predicate Ended(ss: seq<State>, l: nat, k: nat, j: nat)
    requires l <= k < |ss| && j < |ss[k].group.svcs|
  {
    var v := ss[k].group.svcs[j];
    && v.state == Exit1 && v.exits == 1
    && forall m :: l <= m <= k ==> Destroyed(ss[m], v, j)
  }

  /** What service j had accepted in state s, unless it had ended, is finished in v. */
  predicate Destroyed(s: State, v: Svc, j: nat)
  {
    j < |s.group.svcs| && (s.group.svcs[j].state != Exit1 ==> s.group.svcs[j].accepted <= v.finished)
  }

  /**
   The teardown that began after step l has come to state k: what it has left
   behind has ended, and it is at nothing else.
   */
  ghost predicate Torn(ss: seq<State>, l: nat, k: nat)
    requires l <= k < |ss|
  {
    var (w, svcs) := (ss[k].worker, ss[k].group.svcs);
    && (TearPhase(w) || w == Loop(CtxTeardown))
    && (TearPhase(w) && !w.Tear? ==> ExitAt(w).value < |svcs| && Mortal(svcs[ExitAt(w).value]))
    && forall j :: 0 <= j < |svcs| && Mortal(svcs[j]) && Behind(w, j) ==> Ended(ss, l, k, j)
  }

  /** A step of the worker in the teardown: where it goes, and what it does to service j. */
  ghost predicate TearStep(s: State, u: State, j: nat)
    requires j < |s.group.svcs| && |u.group.svcs| == |s.group.svcs| && TearPhase(s.worker)
  {
    var (w, w', v, v') := (s.worker, u.worker, s.group.svcs[j], u.group.svcs[j]);
    && Mortal(v') == Mortal(v)
    && (TearPhase(w') || (w' == Loop(CtxTeardown) && w.Tear? && w.i >= |s.group.svcs|))
    && (TearPhase(w') && !w'.Tear? ==>
          && ExitAt(w').value < |s.group.svcs|
          && if w.Tear? then ExitAt(w').value == w.i && Mortal(s.group.svcs[w.i]) else ExitAt(w') == ExitAt(w))
    && (w'.Tear? ==>
          || (w.Tear? && w.i < |s.group.svcs| && w'.i == w.i + 1 && !Mortal(s.group.svcs[w.i]))
          || (w.TearDone? && w'.i == w.i + 1))
    && (!Mortal(v) || (ExitAt(w) != Some(j) && w != Tear(j)) ==> v' == v)
    && (w == TearDone(j) ==> v' == v.(state := Exit1))
    && (w.TearDone? ==> w.i < |s.group.svcs|)
    && v.accepted <= v'.accepted && v.finished <= v'.finished
  }

  lemma TearMoves(s: State, choice: bool, j: nat)
    requires WorkerEnabled(s, choice) && TearPhase(s.worker) && j < |s.group.svcs|
    requires var w := s.worker; !w.Tear? ==> ExitAt(w).value < |s.group.svcs| && Mortal(s.group.svcs[ExitAt(w).value])
    ensures |WorkerNext(s, choice).group.svcs| == |s.group.svcs| && TearStep(s, WorkerNext(s, choice), j)
  {
    hide Apply, WorkerRefs, WorkerReady;
    WorkTouches(s, choice);
  }

  lemma TornBegins(ss: seq<State>, as_: seq<Action>, l: nat, choice: bool)
    requires Run(ss, as_) && WorkerAt(ss, as_, l, TearCheck, choice) && ss[l].ctx == CtxTeardown
    ensures l + 1 < |ss| && ss[l + 1].worker == Tear(0) && ss[l + 1].group == ss[l].group && Torn(ss, l, l + 1)
  {
    hide Run, Lists, Apply;
    AtWork(ss, as_, l, TearCheck, choice);
    KeepGroup(ss[l].group);
  }

  /** A service that has ended stays so, with what it has finished. */
  lemma EndedStays(ss: seq<State>, as_: seq<Action>, l: nat, k: nat, j: nat)
    requires Run(ss, as_) && LoadsApart(ss, as_) && l <= k < |as_| && k + 1 < |ss|
    requires j < |ss[k].group.svcs| && j < |ss[k + 1].group.svcs| && Ended(ss, l, k, j)
    ensures Ended(ss, l, k + 1, j)
  {
    hide Run, LoadsApart, Edge;
    var v, v' := ss[k].group.svcs[j], ss[k + 1].group.svcs[j];
    OneEdge(ss, as_, k, j, v, v');
    NoEdge(v'.state);
    forall m | l <= m <= k + 1
      ensures Destroyed(ss[m], v', j)
    {
      assert m <= k ==> Destroyed(ss[m], v, j);
    }
  }

  lemma NoEdge(st: SvcState)
    ensures !Edge(Exit1, st)
  {
  }

  /** At the end of its own teardown a service has nothing left. */
  lemma NothingLeft(ss: seq<State>, as_: seq<Action>, k: nat, j: nat)
    requires Run(ss, as_) && LoadsApart(ss, as_) && k < |ss| && ss[k].worker == TearDone(j) && j < |ss[k].group.svcs|
    requires ss[k].group.svcs[j].hasEntry
    ensures ss[k].group.svcs[j].accepted == ss[k].group.svcs[j].finished && ss[k].group.svcs[j].exits == 1
  {
    hide Run, LoadsApart, Phase, Lists, AllAimed, Wake, Shape;
    RunInv(ss, as_, k);
    InCore(ss[k], j);
    FirstInFirstOut(ss, as_, k, j);
  }

  lemma InCore(s: State, j: nat)
    requires Core(s) && j < |s.group.svcs| && s.worker == TearDone(j) && s.group.svcs[j].hasEntry
    ensures var v := s.group.svcs[j]; v.cur == None && v.queue == [] && v.exits == 1
  {
    hide Lists, AllAimed, Shape, Pcs;
    assert SvcOk(s.group.svcs[j], j, s.worker, s.loaded);
  }

  /** What a service has accepted only grows. */
  lemma {:induction false} AcceptedGrows(ss: seq<State>, as_: seq<Action>, m: nat, k: nat, j: nat)
    requires Run(ss, as_) && LoadsApart(ss, as_) && m <= k < |ss| && j < |ss[k].group.svcs|
    ensures j < |ss[m].group.svcs| && ss[m].group.svcs[j].accepted <= ss[k].group.svcs[j].accepted
    decreases k
  {
    hide Run, LoadsApart, Edge;
    RunLength(ss, as_);
    if m < k {
      SameSize(ss, as_, k - 1, j);
      AcceptedGrows(ss, as_, m, k - 1, j);
      OneEdge(ss, as_, k - 1, j, ss[k - 1].group.svcs[j], ss[k].group.svcs[j]);
    }
  }

  lemma RunLength(ss: seq<State>, as_: seq<Action>)
    requires Run(ss, as_)
    ensures |ss| == |as_| + 1
  {
  }

  /** The step at the end of the teardown of service j. */
  lemma EndsNow(ss: seq<State>, as_: seq<Action>, l: nat, k: nat, j: nat)
    requires Run(ss, as_) && LoadsApart(ss, as_) && l <= k < |as_| && k + 1 < |ss|
    requires j < |ss[k].group.svcs| && j < |ss[k + 1].group.svcs|
    requires ss[k].worker == TearDone(j) && Mortal(ss[k].group.svcs[j])
    requires ss[k + 1].group.svcs[j] == ss[k].group.svcs[j].(state := Exit1)
    ensures Ended(ss, l, k + 1, j)
  {
    hide Run, LoadsApart;
    NothingLeft(ss, as_, k, j);
    forall m | l <= m <= k + 1
      ensures Destroyed(ss[m], ss[k + 1].group.svcs[j], j)
    {
      if m <= k {
        AcceptedGrows(ss, as_, m, k, j);
      }
    }
  }

  /** The kth step keeps that the teardown has left only ended services behind. */
  lemma TornStep(ss: seq<State>, as_: seq<Action>, l: nat, k: nat)
    requires Run(ss, as_) && LoadsApart(ss, as_) && l <= k < |as_| && k + 1 < |ss| && Torn(ss, l, k)
    requires TearPhase(ss[k].worker)
    ensures Torn(ss, l, k + 1)
  {
    hide Run, LoadsApart, Ended, TearStep, Enabled, Next, Mortal;
    RunStep(ss, as_, k);
    match as_[k]
    case WorkerStep(choice) => TornWork(ss, as_, l, k, choice);
    case ThreadStep(t, op) => TornThread(ss, as_, l, k, t, op);
  }

  lemma TornWork(ss: seq<State>, as_: seq<Action>, l: nat, k: nat, choice: bool)
    requires Run(ss, as_) && LoadsApart(ss, as_) && l <= k < |as_| && k + 1 < |ss| && Torn(ss, l, k)
    requires TearPhase(ss[k].worker) && as_[k] == WorkerStep(choice)
    ensures Torn(ss, l, k + 1)
  {
    hide Run, LoadsApart, Ended, Lists, Mortal, WorkerNext, WorkerEnabled;
    AtWork(ss, as_, k, ss[k].worker, choice);
    var s, u := ss[k], ss[k + 1];
    WorkerSize(s, choice);
    forall j | 0 <= j < |s.group.svcs|
      ensures TearStep(s, u, j)
      ensures Mortal(u.group.svcs[j]) && Behind(u.worker, j) ==> Ended(ss, l, k + 1, j)
    {
      TearMoves(s, choice, j);
      if Mortal(u.group.svcs[j]) && Behind(u.worker, j) {
        if s.worker == TearDone(j) {
          EndsNow(ss, as_, l, k, j);
        } else {
          EndedStays(ss, as_, l, k, j);
        }
      }
    }
    TornPlace(s, choice);
    if TearPhase(u.worker) && !u.worker.Tear? {
      TearMoves(s, choice, ExitAt(u.worker).value);
    }
  }

  lemma WorkerSize(s: State, choice: bool)
    requires WorkerEnabled(s, choice)
    ensures |WorkerNext(s, choice).group.svcs| == |s.group.svcs|
  {
    hide Apply, WorkerPc, WorkerRefs, WorkerReady;
    ApplySize(s.group, WorkerChange(s, choice));
  }

  lemma TornPlace(s: State, choice: bool)
    requires WorkerEnabled(s, choice) && TearPhase(s.worker)
    ensures var w := WorkerNext(s, choice).worker;
            && (TearPhase(w) || w == Loop(CtxTeardown))
            && (TearPhase(w) && !w.Tear? ==> ExitAt(w).value < |s.group.svcs|)
  {
    hide Apply, WorkerRefs, WorkerReady;
  }

  lemma TornThread(ss: seq<State>, as_: seq<Action>, l: nat, k: nat, t: nat, op: Op)
    requires Run(ss, as_) && LoadsApart(ss, as_) && l <= k < |as_| && k + 1 < |ss| && Torn(ss, l, k)
    requires TearPhase(ss[k].worker) && as_[k] == ThreadStep(t, op)
    ensures Torn(ss, l, k + 1)
  {
    hide Run, LoadsApart, Ended, ThreadNext, ThreadEnabled;
    RunStep(ss, as_, k);
    var s, u := ss[k], ss[k + 1];
    ThreadSpares(s, t, op);
    forall j | 0 <= j < |s.group.svcs|
      ensures Mortal(u.group.svcs[j]) && Behind(u.worker, j) ==> Ended(ss, l, k + 1, j)
    {
      if Mortal(u.group.svcs[j]) && Behind(u.worker, j) {
        EndedStays(ss, as_, l, k, j);
      }
    }
  }

  lemma ThreadSpares(s: State, t: nat, op: Op)
    requires ThreadEnabled(s, t, op)
    ensures var u := ThreadNext(s, t, op);
            && |u.group.svcs| == |s.group.svcs| && u.worker == s.worker
            && forall j :: 0 <= j < |s.group.svcs| ==> Mortal(u.group.svcs[j]) == Mortal(s.group.svcs[j])
  {
    hide Apply, MayCall, PcChange, PcNext, PcRefs, Changed;
    ThreadSize(s, t, op);
    if op == Continue {
      PcTouches(s, t);
      forall j | 0 <= j < |s.group.svcs|
        ensures Mortal(ThreadNext(s, t, op).group.svcs[j]) == Mortal(s.group.svcs[j])
      {
        ChangedMortal(s.group, s.threads[t].pc, j);
      }
    }
  }

  lemma ChangedMortal(g: Group, pc: Pc, j: nat)
    requires (PcTarget(pc).Some? ==> PcTarget(pc).value < |g.svcs|) && j < |g.svcs|
    ensures Mortal(Changed(g.svcs[j], j, PcChange(g, pc))) == Mortal(g.svcs[j])
  {
  }

  /**
   The worker finds the context in teardown at step l, and comes to its second
   loop at step k for the first time. Then every registered service that is not
   to be kept alive has ended, with one call of on_exit, and has finished
   whatever it accepted since then and before it ended.
   */
  lemma {:induction false} TearsDown(ss: seq<State>, as_: seq<Action>, l: nat, k: nat, choice: bool)
    requires Run(ss, as_) && LoadsApart(ss, as_) && WorkerAt(ss, as_, l, TearCheck, choice)
    requires ss[l].ctx == CtxTeardown && l < k < |ss|
    requires forall m :: l < m < k ==> !ss[m].worker.Loop?
    ensures Torn(ss, l, k)
    ensures ss[k].worker.Loop? ==>
              forall j :: 0 <= j < |ss[k].group.svcs| && ss[k].group.svcs[j].hasEntry && !ss[k].group.svcs[j].alive ==>
                Ended(ss, l, k, j)
    decreases k
  {
    hide Run, LoadsApart, Ended;
    RunLength(ss, as_);
    TornBegins(ss, as_, l, choice);
    if k > l + 1 {
      TearsDown(ss, as_, l, k - 1, choice);
      TornStep(ss, as_, l, k - 1);
    }
  }

  /** On the way the worker changes no service that is to be kept alive or not registered. */
  lemma TearSpares(ss: seq<State>, as_: seq<Action>, l: nat, k: nat, j: nat, choice: bool, choice': bool)
    requires Run(ss, as_) && LoadsApart(ss, as_) && WorkerAt(ss, as_, l, TearCheck, choice)
    requires ss[l].ctx == CtxTeardown && l < k < |as_| && as_[k] == WorkerStep(choice') && k + 1 < |ss|
    requires forall m :: l < m <= k ==> !ss[m].worker.Loop?
    requires j < |ss[k].group.svcs| && (ss[k].group.svcs[j].alive || !ss[k].group.svcs[j].hasEntry)
    ensures j < |ss[k + 1].group.svcs| && ss[k + 1].group.svcs[j] == ss[k].group.svcs[j]
  {
    hide Run, LoadsApart, Lists, WorkerNext, WorkerEnabled;
    TearsDown(ss, as_, l, k, choice);
    AtWork(ss, as_, k, ss[k].worker, choice');
    TearMoves(ss[k], choice', j);
  }

  // ---------- The exit ----------

  /**
   When the worker has come to the end of its last round, every registered
   service has ended, with one call of on_exit.
   */
  lemma AllExited(ss: seq<State>, as_: seq<Action>, k: nat, j: nat)
    requires Run(ss, as_) && LoadsApart(ss, as_) && k < |ss| && ss[k].worker == ExitFrom(0)
    requires j < |ss[k].group.svcs| && ss[k].group.svcs[j].hasEntry
    ensures ss[k].group.svcs[j].state == Exit1 && ss[k].group.svcs[j].exits == 1
  {
    hide Run, LoadsApart, Wake;
    RunInv(ss, as_, k);
    ExitedIn(ss[k], j);
  }

  lemma ExitedIn(s: State, j: nat)
    requires Core(s) && s.worker == ExitFrom(0) && j < |s.group.svcs| && s.group.svcs[j].hasEntry
    ensures s.group.svcs[j].state == Exit1 && s.group.svcs[j].exits == 1
  {
    hide Lists, AllAimed, Shape, Pcs;
    assert SvcOk(s.group.svcs[j], j, s.worker, s.loaded);
  }
}
