/** A registered service leaves Exit1 in no other step than the one in which a call of eaf_load fixes the states. */
module SchedExited {
  import opened Scheduler
  import opened SchedLists
  import opened SchedService
  import opened SchedCore
  import opened SchedRuns
  import opened SchedLoads
  import opened Wrappers

  /** Service j may have exited while the worker is at w: the teardown or the last round has passed it. */
  predicate Left(w: Worker, j: nat)
  {
    match w
    case Tear(i) => j < i
    case ExitFrom(_) => true
    case OnExit(i) => j != i
    case Done => true
    case Clean(_) => true
    case Cleaned => true
    case _ =>
      if ExitAt(w).Some? then j < ExitAt(w).value
      else LoopMode(w) == Some(CtxTeardown) && At(w) != Some(j)
  }

  predicate LeftOk(v: Svc, j: nat, w: Worker)
  {
    v.hasEntry && v.state == Exit1 ==> Left(w, j)
  }

  /** Registered services have exited only where the worker has left them. */
  ghost predicate Leaving(g: Group, w: Worker)
  {
    forall j :: 0 <= j < |g.svcs| ==> LeftOk(g.svcs[j], j, w)
  }

  /** The worker keeps its target in Exit1, and puts it there at the end of its exit only. */
  lemma TargetLeft(v: Svc, i: nat, w: Worker, choice: bool, n: nat)
    requires Target(w, n) == Some(i) && i < n && LeftOk(v, i, w)
    ensures var v' := Changed(v, i, TargetChange(v, i, w, choice));
            && v'.hasEntry == v.hasEntry && LeftOk(v', i, TargetPc(v, i, w, choice))
            && (v.hasEntry && v.state == Exit1 ==> v'.state == Exit1)
  {
    hide Changed, TargetChange, TargetPc, LeftOk, Target, Serves;
    if Serves(w) {
      ServingLeft(v, i, w, choice, n);
    } else {
      PassingLeft(v, i, w, choice, n);
    }
  }

  lemma ServingLeft(v: Svc, i: nat, w: Worker, choice: bool, n: nat)
    requires Serves(w) && Target(w, n) == Some(i) && i < n && LeftOk(v, i, w)
    ensures var v' := Changed(v, i, TargetChange(v, i, w, choice));
            && v'.hasEntry == v.hasEntry && LeftOk(v', i, TargetPc(v, i, w, choice))
            && (v.hasEntry && v.state == Exit1 ==> v'.state == Exit1)
  {
  }

  lemma PassingLeft(v: Svc, i: nat, w: Worker, choice: bool, n: nat)
    requires !Serves(w) && Target(w, n) == Some(i) && i < n && LeftOk(v, i, w)
    ensures var v' := Changed(v, i, TargetChange(v, i, w, choice));
            && v'.hasEntry == v.hasEntry && LeftOk(v', i, TargetPc(v, i, w, choice))
            && (v.hasEntry && v.state == Exit1 ==> v'.state == Exit1)
  {
  }

  lemma OtherLeft(v: Svc, i: nat, w: Worker, choice: bool, n: nat, j: nat)
    requires Target(w, n) == Some(i) && i < n && j != i && Left(w, j)
    ensures Left(TargetPc(v, i, w, choice), j)
  {
  }

  lemma FreeLeft(w: Worker, ctx: CtxState, busy: seq<nat>, n: nat, j: nat)
    requires Target(w, n) == None && j < n && Left(w, j) && ModeOk(w) && (busy != [] ==> busy[0] != j)
    ensures Left(FreePc(w, ctx, busy, n), j)
  {
  }

  lemma HeadBusy(g: Group, j: nat)
    requires Lists(g) && j < |g.svcs| && g.svcs[j].state == Exit1
    ensures g.busy != [] ==> g.busy[0] != j
  {
    assert g.busy != [] ==> g.busy[0] in g.busy;
  }

  lemma WorkerLeft(s: State, choice: bool, j: nat)
    requires WorkerEnabled(s, choice) && Lists(s.group) && ModeOk(s.worker) && j < |s.group.svcs|
    requires LeftOk(s.group.svcs[j], j, s.worker)
    ensures var (v, v') := (s.group.svcs[j], Changed(s.group.svcs[j], j, WorkerChange(s, choice)));
            && v'.hasEntry == v.hasEntry && LeftOk(v', j, WorkerPc(s, choice))
            && (v.hasEntry && v.state == Exit1 ==> v'.state == Exit1)
  {
    hide Lists, Changed, TargetChange, TargetPc, FreePc, WorkerReady, Target, Left, ModeOk;
    var v := s.group.svcs[j];
    var n := |s.group.svcs|;
    var i := Target(s.worker, n);
    if i == None {
      ElseKept(v, j, Keep);
      if v.hasEntry && v.state == Exit1 {
        HeadBusy(s.group, j);
        FreeLeft(s.worker, s.ctx, s.group.busy, n, j);
      }
    } else if i.value == j {
      TargetLeft(v, j, s.worker, choice, n);
    } else {
      TargetOnly(s.group.svcs[i.value], i.value, s.worker, choice);
      ElseKept(v, j, WorkerChange(s, choice));
      if v.hasEntry && v.state == Exit1 {
        OtherLeft(s.group.svcs[i.value], i.value, s.worker, choice, n, j);
      }
    }
  }

  lemma PcLeft(g: Group, pc: Pc, j: nat, w: Worker)
    requires (PcTarget(pc).Some? ==> PcTarget(pc).value < |g.svcs|) && j < |g.svcs| && LeftOk(g.svcs[j], j, w)
    ensures var (v, v') := (g.svcs[j], Changed(g.svcs[j], j, PcChange(g, pc)));
            && v'.hasEntry == v.hasEntry && LeftOk(v', j, w)
            && (v.hasEntry && v.state == Exit1 ==> (v'.state != Exit1 <==> pc == LoadFix))
  {
    hide Left;
  }

  lemma StepLeft(s: State, a: Action, j: nat)
    requires Enabled(s, a) && Lists(s.group) && ModeOk(s.worker) && j < |s.group.svcs|
    requires LeftOk(s.group.svcs[j], j, s.worker)
    ensures |Next(s, a).group.svcs| == |s.group.svcs|
    ensures var (v, v') := (s.group.svcs[j], Next(s, a).group.svcs[j]);
            && LeftOk(v', j, Next(s, a).worker)
            && (v.hasEntry && v.state == Exit1 ==> (v'.state != Exit1 <==> StepsAt(s, a, LoadFix)))
  {
    hide Lists, Apply, Changed, WorkerChange, WorkerPc, PcChange, PcNext, PcRefs, WorkerReady, MayCall, ModeOk, Left;
    match a {
      case WorkerStep(choice) =>
        ApplySize(s.group, WorkerChange(s, choice));
        Touches(s.group, WorkerChange(s, choice), j);
        WorkerLeft(s, choice, j);
      case ThreadStep(t, op) =>
        ThreadSize(s, t, op);
        if op == Continue {
          Touches(s.group, PcChange(s.group, s.threads[t].pc), j);
          PcLeft(s.group, s.threads[t].pc, j, s.worker);
        }
    }
  }

  lemma {:induction false} RunLeaving(ss: seq<State>, as_: seq<Action>, k: nat)
    requires Run(ss, as_) && k < |ss|
    ensures Leaving(ss[k].group, ss[k].worker)
  {
    hide Run, Enabled, Next, LeftOk, Sound, ModeOk, Lists;
    RunStart(ss, as_);
    if k == 0 {
      InitialLeaving(ss[0]);
    } else {
      RunLeaving(ss, as_, k - 1);
      RunStep(ss, as_, k - 1);
      RunLists(ss, as_, k - 1);
      RunMode(ss, as_, k - 1);
      forall j | 0 <= j < |ss[k].group.svcs|
        ensures LeftOk(ss[k].group.svcs[j], j, ss[k].worker)
      {
        SameSize(ss, as_, k - 1, j);
        StepLeft(ss[k - 1], as_[k - 1], j);
      }
    }
  }

  lemma InitialLeaving(s: State)
    requires Initial(s)
    ensures Leaving(s.group, s.worker)
  {
  }

  lemma RunLists(ss: seq<State>, as_: seq<Action>, k: nat)
    requires Run(ss, as_) && k < |ss|
    ensures Lists(ss[k].group)
  {
    hide Run, Lists;
    RunSound(ss, as_, k);
  }

  /** In every run, a registered service that has exited stays so but in a step in which eaf_load fixes the states. */
  lemma OnlyFixUndoes(ss: seq<State>, as_: seq<Action>, k: nat, j: nat, v: Svc, v': Svc)
    requires Run(ss, as_) && k < |as_| && Has(ss[k], j, v) && Has(ss[k + 1], j, v') && v.hasEntry && v.state == Exit1
    ensures v'.state != Exit1 <==> StepsAt(ss[k], as_[k], LoadFix)
  {
    hide Run, Enabled, Next, LeftOk, ModeOk, Lists, StepsAt;
    RunStart(ss, as_);
    RunStep(ss, as_, k);
    RunLeaving(ss, as_, k);
    RunLists(ss, as_, k);
    RunMode(ss, as_, k);
    StepLeft(ss[k], as_[k], j);
  }
}
