/**
 The life of a service and the order of its messages: state changes follow the
 life cycle, records leave in the order in which they were accepted, one at a
 time, and each is destroyed once.
 */
module SchedFlow {
  import opened Scheduler
  import opened SchedLists
  import opened SchedPhase
  import opened SchedService
  import opened SchedCore
  import opened Wrappers

  // ---------- Life cycle ----------

  /** The state changes of a service; from Init1 to Busy it passes Idle inside one critical section. */
  predicate Edge(a: SvcState, b: SvcState)
  {
    match a
    case Init0 => b == Init1 || b == Init2 || b == Exit1
    case Init1 => b == Idle || b == Busy || b == Exit0
    case Init2 => b == Init1 || b == Exit0
    case Idle => b == Busy || b == Exit0
    case Busy => b == Idle || b == Yielded || b == Exit0
    case Yielded => b == Busy || b == Exit0
    case Exit0 => b == Exit1
    case Exit1 => false
  }

  /** A step keeps the state of a service or takes one edge, and on_exit is called on the way to Exit0 only. */
  predicate Lives(v: Svc, v': Svc)
  {
    && (v'.state == v.state || Edge(v.state, v'.state))
    && v'.exits == v.exits + (if v.state != Exit0 && v'.state == Exit0 then 1 else 0)
    && v.accepted <= v'.accepted && v.finished <= v'.finished
    && (v.state == Exit0 ==> v'.accepted == v.accepted)
  }

  lemma ServingLives(v: Svc, i: nat, w: Worker, choice: bool, n: nat)
    requires Serves(w) && Target(w, n) == Some(i) && i < n && SvcOk(v, i, w, true)
    ensures Lives(v, Changed(v, i, TargetChange(v, i, w, choice)))
  {
    hide Passed, Reached;
  }

  lemma LeavingLives(v: Svc, i: nat, w: Worker, choice: bool, n: nat)
    requires !Serves(w) && Target(w, n) == Some(i) && i < n && SvcOk(v, i, w, true)
    ensures Lives(v, Changed(v, i, TargetChange(v, i, w, choice)))
  {
    hide Passed;
  }

  lemma ThreadLives(s: State, pc: Pc, j: nat)
    requires Aimed(s.group, pc) && PcPhase(pc, s.loadStarted, s.loaded) && j < |s.group.svcs|
    requires SvcOk(s.group.svcs[j], j, s.worker, s.loaded)
    ensures Lives(s.group.svcs[j], Changed(s.group.svcs[j], j, PcChange(s.group, pc)))
  {
    hide Held, Passed, Reached, ExitAt;
  }

  // ---------- First in, first out ----------

  /** The record that the worker holds between its removal and its destruction. */
  function Hold(w: Worker, j: nat): seq<Rec>
  {
    match w
    case TearHold(i, rec) => if i == j then [rec] else []
    case _ => []
  }

  function One(rec: Option<Rec>): seq<Rec>
  {
    if rec.Some? then [rec.value] else []
  }

  /** The records of service j that are not destroyed yet, the oldest first. */
  function Pending(v: Svc, j: nat, w: Worker): seq<Rec>
  {
    Hold(w, j) + One(v.cur) + v.queue
  }

  /**
   Until cleanup the accepted records are the finished ones and then the pending
   ones; cleanup destroys the rest in any order.
   */
  ghost predicate Fifo(v: Svc, j: nat, w: Worker)
  {
    if w.Clean? || w.Cleaned? then multiset(v.accepted) == multiset(v.finished) + multiset(Pending(v, j, w))
    else v.accepted == v.finished + Pending(v, j, w)
  }

  /** A step at a service destroys its oldest record, or none. */
  ghost predicate Oldest(v: Svc, v': Svc, i: nat, w: Worker, w': Worker, d: Option<Rec>)
  {
    && v'.accepted == v.accepted && v'.finished == v.finished + One(d)
    && Pending(v, i, w) == One(d) + Pending(v', i, w')
  }

  lemma HeadFirst(queue: seq<Rec>)
    requires queue != []
    ensures queue == [queue[0]] + queue[1..]
  {
  }

  /**
   How the held, the current and the queued records change: one place hands its
   oldest record on, or d is destroyed.
   */
  ghost predicate Shifts(h: seq<Rec>, c: seq<Rec>, q: seq<Rec>, d: seq<Rec>, h': seq<Rec>, c': seq<Rec>, q': seq<Rec>)
  {
    || (d == [] && h' == h && c' == c && q' == q)
    || (d == [] && h == h' == c == [] && q == c' + q')
    || (d == [] && h == c == c' == [] && q == h' + q')
    || (d == [] && h == c' == [] && h' == c && q' == q)
    || (h == d && h' == [] && c' == c && q' == q)
    || (h == h' == c' == [] && c == d && q' == q)
  }

  lemma ShiftsAppend(h: seq<Rec>, c: seq<Rec>, q: seq<Rec>, d: seq<Rec>, h': seq<Rec>, c': seq<Rec>, q': seq<Rec>)
    requires Shifts(h, c, q, d, h', c', q')
    ensures h + c + q == d + (h' + c' + q')
  {
  }

  lemma ServingShifts(v: Svc, i: nat, w: Worker, choice: bool, n: nat)
    requires Serves(w) && Target(w, n) == Some(i) && i < n && Carries(v, w) && !w.Clean?
    ensures var v' := Changed(v, i, TargetChange(v, i, w, choice));
            var d := One(Destroys(v, w, choice));
            && v'.accepted == v.accepted && v'.finished == v.finished + d
            && Shifts(Hold(w, i), One(v.cur), v.queue, d, Hold(TargetPc(v, i, w, choice), i), One(v'.cur), v'.queue)
  {
    if v.queue != [] {
      HeadFirst(v.queue);
    }
  }

  lemma LeavingShifts(v: Svc, i: nat, w: Worker, choice: bool, n: nat)
    requires !Serves(w) && Target(w, n) == Some(i) && i < n && Carries(v, w) && !w.Clean?
    ensures var v' := Changed(v, i, TargetChange(v, i, w, choice));
            var d := One(Destroys(v, w, choice));
            && v'.accepted == v.accepted && v'.finished == v.finished + d
            && Shifts(Hold(w, i), One(v.cur), v.queue, d, Hold(TargetPc(v, i, w, choice), i), One(v'.cur), v'.queue)
  {
    if v.queue != [] {
      HeadFirst(v.queue);
    }
  }

  lemma TargetPending(v: Svc, i: nat, w: Worker, choice: bool, n: nat)
    requires Target(w, n) == Some(i) && i < n && Carries(v, w) && !w.Clean?
    ensures Oldest(v, Changed(v, i, TargetChange(v, i, w, choice)), i, w, TargetPc(v, i, w, choice),
                   Destroys(v, w, choice))
  {
    hide Serves, Changed, TargetChange, TargetPc, Hold, One, Carries, Destroys, Shifts;
    var v' := Changed(v, i, TargetChange(v, i, w, choice));
    var d := One(Destroys(v, w, choice));
    if Serves(w) {
      ServingShifts(v, i, w, choice, n);
    } else {
      LeavingShifts(v, i, w, choice, n);
    }
    ShiftsAppend(Hold(w, i), One(v.cur), v.queue, d, Hold(TargetPc(v, i, w, choice), i), One(v'.cur), v'.queue);
  }

  lemma CleanHead(cur: Option<Rec>, queue: seq<Rec>)
    ensures queue != [] ==>
              multiset(One(cur) + queue) == multiset(One(Some(queue[0]))) + multiset(One(cur) + queue[1..])
    ensures queue == [] ==> multiset(One(cur) + queue) == multiset(One(cur)) + multiset(One(None) + queue)
  {
    if queue != [] {
      HeadFirst(queue);
    } else {
      assert One(cur) + queue == One(cur);
    }
  }

  lemma CleanChange(v: Svc, i: nat, w: Worker, choice: bool)
    requires w.Clean? && w.i == i
    ensures var v' := Changed(v, i, TargetChange(v, i, w, choice));
            var d := Destroys(v, w, choice);
            && Hold(w, i) == Hold(TargetPc(v, i, w, choice), i) == []
            && v'.accepted == v.accepted && v'.finished == v.finished + One(d)
            && (if v.queue != [] then d == Some(v.queue[0]) && v'.queue == v.queue[1..] && v'.cur == v.cur
                else d == v.cur && v'.queue == v.queue && v'.cur == None)
  {
  }

  lemma PlainPending(v: Svc, j: nat, w: Worker)
    requires Hold(w, j) == []
    ensures Pending(v, j, w) == One(v.cur) + v.queue
  {
  }

  /** Cleanup takes the queue before the current message. */
  lemma CleanPending(v: Svc, i: nat, w: Worker, choice: bool)
    requires w.Clean? && w.i == i
    ensures var v' := Changed(v, i, TargetChange(v, i, w, choice));
            var d := Destroys(v, w, choice);
            && v'.accepted == v.accepted && v'.finished == v.finished + One(d)
            && multiset(Pending(v, i, w)) == multiset(One(d)) + multiset(Pending(v', i, TargetPc(v, i, w, choice)))
  {
    hide Changed, TargetChange, TargetPc, Destroys, Pending, Hold, One;
    var v' := Changed(v, i, TargetChange(v, i, w, choice));
    CleanChange(v, i, w, choice);
    PlainPending(v, i, w);
    PlainPending(v', i, TargetPc(v, i, w, choice));
    CleanHead(v.cur, v.queue);
  }

  lemma TargetFifo(v: Svc, i: nat, w: Worker, choice: bool, n: nat)
    requires Target(w, n) == Some(i) && i < n && Carries(v, w) && Fifo(v, i, w)
    ensures Fifo(Changed(v, i, TargetChange(v, i, w, choice)), i, TargetPc(v, i, w, choice))
  {
    hide Changed, TargetChange, TargetPc, Pending, Carries, Destroys;
    var v' := Changed(v, i, TargetChange(v, i, w, choice));
    var w' := TargetPc(v, i, w, choice);
    var d := One(Destroys(v, w, choice));
    SameCleaning(v, i, w, choice, n);
    if w.Clean? {
      CleanPending(v, i, w, choice);
    } else {
      TargetPending(v, i, w, choice, n);
      assert v.finished + (d + Pending(v', i, w')) == v.finished + d + Pending(v', i, w');
    }
  }

  lemma SameCleaning(v: Svc, i: nat, w: Worker, choice: bool, n: nat)
    requires Target(w, n) == Some(i) && i < n
    ensures var w' := TargetPc(v, i, w, choice); (w'.Clean? <==> w.Clean?) && !w'.Cleaned? && !w.Cleaned?
    ensures forall j :: j != i ==> Hold(TargetPc(v, i, w, choice), j) == Hold(w, j) == []
    ensures w.Clean? ==> w.i == i
    ensures At(w) == None ==> Carries(v, w)
    ensures At(w).Some? ==> At(w) == Some(i)
  {
  }

  lemma FreeFifo(s: State, j: nat)
    requires Target(s.worker, |s.group.svcs|) == None && !s.worker.Cleaned? && j < |s.group.svcs|
             && Fifo(s.group.svcs[j], j, s.worker)
    ensures Fifo(s.group.svcs[j], j, FreePc(s.worker, s.ctx, s.group.busy, |s.group.svcs|))
  {
    hide Pending;
    var w' := FreePc(s.worker, s.ctx, s.group.busy, |s.group.svcs|);
    assert Pending(s.group.svcs[j], j, s.worker) == Pending(s.group.svcs[j], j, w') by {
      SamePending(s.group.svcs[j], j, s.worker, w');
    }
  }

  lemma SamePending(v: Svc, j: nat, w: Worker, w': Worker)
    requires Hold(w, j) == Hold(w', j)
    ensures Pending(v, j, w) == Pending(v, j, w')
  {
  }

  lemma WorkerFifo(s: State, choice: bool, j: nat)
    requires WorkerEnabled(s, choice) && Grounded(s) && j < |s.group.svcs| && Fifo(s.group.svcs[j], j, s.worker)
    ensures Fifo(Changed(s.group.svcs[j], j, WorkerChange(s, choice)), j, WorkerPc(s, choice))
  {
    hide Lists, AllAimed, Carrying, Changed, TargetChange, TargetPc, FreePc, Target, Pending, Hold, Carries, At,
         WorkerReady;
    var v := s.group.svcs[j];
    var n := |s.group.svcs|;
    var i := Target(s.worker, n);
    if i == None {
      NotCleaned(s, choice);
      FreeFifo(s, j);
      ElseKept(v, j, Keep);
    } else {
      SameCleaning(s.group.svcs[i.value], i.value, s.worker, choice, n);
      if j == i.value {
        CarriesAt(s, j);
        TargetFifo(v, j, s.worker, choice, n);
      } else {
        TargetOnly(s.group.svcs[i.value], i.value, s.worker, choice);
        ElseKept(v, j, WorkerChange(s, choice));
        SamePending(v, j, s.worker, WorkerPc(s, choice));
      }
    }
  }

  lemma NotCleaned(s: State, choice: bool)
    requires WorkerEnabled(s, choice)
    ensures !s.worker.Cleaned?
  {
  }

  lemma CarriesAt(s: State, i: nat)
    requires Grounded(s) && Target(s.worker, |s.group.svcs|) == Some(i) && i < |s.group.svcs|
    ensures Carries(s.group.svcs[i], s.worker)
  {
    hide Lists, AllAimed;
    assert At(s.worker) == Some(i) ==> Carries(s.group.svcs[i], s.worker);
  }

  lemma AppendBoth(accepted: seq<Rec>, finished: seq<Rec>, pending: seq<Rec>, rec: Rec)
    ensures accepted == finished + pending ==> accepted + [rec] == finished + (pending + [rec])
    ensures multiset(accepted) == multiset(finished) + multiset(pending) ==>
              multiset(accepted + [rec]) == multiset(finished) + multiset(pending + [rec])
  {
  }

  lemma AppendFifo(v: Svc, st: SvcState, rec: Rec, j: nat, w: Worker)
    requires Fifo(v, j, w)
    ensures Fifo(Appended(InState(v, st), rec), j, w)
  {
    hide Hold;
    AppendBoth(v.accepted, v.finished, Pending(v, j, w), rec);
    assert Pending(Appended(InState(v, st), rec), j, w) == Pending(v, j, w) + [rec];
  }

  lemma StateFifo(v: Svc, st: SvcState, j: nat, w: Worker)
    requires Fifo(v, j, w)
    ensures Fifo(InState(v, st), j, w)
  {
    assert Pending(InState(v, st), j, w) == Pending(v, j, w);
  }

  /** A thread may append one record to the queue, and nothing else. */
  lemma ThreadFifo(g: Group, pc: Pc, j: nat, w: Worker)
    requires (PcTarget(pc).Some? ==> PcTarget(pc).value < |g.svcs|) && j < |g.svcs| && Fifo(g.svcs[j], j, w)
    ensures Fifo(Changed(g.svcs[j], j, PcChange(g, pc)), j, w)
  {
    hide Fifo, InState, Appended, LoadState, AcceptState;
    var v := g.svcs[j];
    match PcChange(g, pc)
    case Accept(i, rec) => AppendFifo(v, AcceptState(v.state), rec, j, w);
    case To(i, st) => StateFifo(v, st, j, w);
    case Fix => StateFifo(v, LoadState(v), j, w);
    case Keep =>
  }

  ghost predicate Flow(g: Group, w: Worker)
  {
    forall j :: 0 <= j < |g.svcs| ==> Fifo(g.svcs[j], j, w)
  }

  lemma FlowStep(s: State, a: Action)
    requires Enabled(s, a) && Grounded(s) && Flow(s.group, s.worker)
    ensures var u := Next(s, a); Flow(u.group, u.worker)
  {
    hide Fifo, Grounded, Apply, Changed, WorkerChange, WorkerPc, PcChange, PcNext, WorkerReady, MayCall;
    var u := Next(s, a);
    match a {
      case WorkerStep(choice) =>
        ApplySize(s.group, WorkerChange(s, choice));
        forall j | 0 <= j < |s.group.svcs|
          ensures Fifo(u.group.svcs[j], j, u.worker)
        {
          Touches(s.group, WorkerChange(s, choice), j);
          WorkerFifo(s, choice, j);
        }
      case ThreadStep(t, op) =>
        if op == Continue {
          ApplySize(s.group, PcChange(s.group, s.threads[t].pc));
          forall j | 0 <= j < |s.group.svcs|
            ensures Fifo(u.group.svcs[j], j, u.worker)
          {
            Touches(s.group, PcChange(s.group, s.threads[t].pc), j);
            ThreadFifo(s.group, s.threads[t].pc, j, s.worker);
          }
        }
    }
  }

  lemma {:induction false} LivesStep(s: State, a: Action, j: nat)
    requires Enabled(s, a) && Core(s) && j < |s.group.svcs|
    ensures j < |Next(s, a).group.svcs| && Lives(s.group.svcs[j], Next(s, a).group.svcs[j])
  {
    hide SvcOk, Lists, Aimed, Serves, Apply, Changed, WorkerPc, TargetChange, PcChange, PcNext, Lives, WorkerReady,
         MayCall, Target;
    var v := s.group.svcs[j];
    StillLives(v);
    match a {
      case WorkerStep(choice) =>
        var i := Target(s.worker, |s.group.svcs|);
        ApplySize(s.group, WorkerChange(s, choice));
        Touches(s.group, WorkerChange(s, choice), j);
        ElseKept(v, j, Keep);
        if i.Some? {
          if !s.loaded {
            CleanKept(s, choice);
          } else if i.value == j {
            if Serves(s.worker) {
              ServingLives(v, j, s.worker, choice, |s.group.svcs|);
            } else {
              LeavingLives(v, j, s.worker, choice, |s.group.svcs|);
            }
          } else {
            TargetOnly(s.group.svcs[i.value], i.value, s.worker, choice);
            ElseKept(v, j, WorkerChange(s, choice));
          }
        }
      case ThreadStep(t, op) =>
        if op == Continue {
          PcAt(s, t);
          ApplySize(s.group, PcChange(s.group, s.threads[t].pc));
          Touches(s.group, PcChange(s.group, s.threads[t].pc), j);
          ThreadLives(s, s.threads[t].pc, j);
        }
    }
  }

  lemma StillLives(v: Svc)
    ensures Lives(v, v)
  {
  }

  lemma CleanKept(s: State, choice: bool)
    requires WorkerSafe(s, choice) && Core(s) && !s.loaded && Target(s.worker, |s.group.svcs|).Some?
    ensures WorkerChange(s, choice) == Keep
  {
    hide Lists, Pcs, AllAimed;
    assert s.worker.Clean?;
  }
}
