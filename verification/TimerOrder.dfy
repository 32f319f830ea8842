/** In which order the libuv thread takes the requests, and what the service has seen when its wait is over. */
module TimerOrder {
  import opened NodeLists
  import opened Timer

  // ---------- The oldest request first ----------

  /** The queued requests are in the order of their arrival, and the one in the service's hands is the newest. */
  predicate Ascending(s: State)
  {
    && (forall i, j :: 0 <= i < j < |s.idle| ==> s.idle[i] < s.idle[j])
    && (forall i :: 0 <= i < |s.idle| ==> s.idle[i] < s.next)
    && (s.service.Push? || s.service.PushFailed? ==>
          s.service.id < s.next && forall i :: 0 <= i < |s.idle| ==> s.idle[i] < s.service.id)
  }

  lemma UvAscends(s: State, ok: bool)
    requires Enabled(s, UvStep(ok)) && Ascending(s)
    ensures Ascending(UvNext(s, ok))
  {
    hide Erase;
    UvIdle(s, ok);
  }

  lemma UvIdle(s: State, ok: bool)
    requires Enabled(s, UvStep(ok))
    ensures UvNext(s, ok).idle == s.idle || (s.idle != [] && UvNext(s, ok).idle == s.idle[1..])
  {
    hide Erase;
  }

  lemma AscendingStep(s: State, a: Action)
    requires Enabled(s, a) && Ascending(s)
    ensures Ascending(Next(s, a))
  {
    hide Erase, UvNext;
    if a.UvStep? {
      UvAscends(s, a.ok);
    }
  }

  lemma {:induction false} RunAscending(ss: seq<State>, as_: seq<Action>, k: nat)
    requires Run(ss, as_) && k < |ss|
    ensures Ascending(ss[k])
  {
    hide Ascending, Enabled, Next;
    if k == 0 {
      assert Ascending(ss[0]) by {
        InitialAscending(ss[0]);
      }
    } else {
      RunAscending(ss, as_, k - 1);
      RunStep(ss, as_, k - 1);
      AscendingStep(ss[k - 1], as_[k - 1]);
    }
  }

  lemma InitialAscending(s: State)
    requires Initial(s)
    ensures Ascending(s)
  {
  }

  /**
   The notifier's callback takes requests while the service runs timers, and
   closes all timers otherwise; it takes the oldest request that is queued.
   */
  lemma TakesOldest(ss: seq<State>, as_: seq<Action>, k: nat)
    requires Run(ss, as_) && k < |as_|
    ensures ss[k].uv.Polling? && ss[k + 1].uv.Pop? ==> ss[k].looping && as_[k] == Notify
    ensures ss[k].uv.Polling? && ss[k + 1].uv.CloseBusy? ==> !ss[k].looping && as_[k] == Notify
    ensures as_[k] == Notify ==> ss[k].uv.Polling? && (ss[k + 1].uv.Pop? || ss[k + 1].uv.CloseBusy?)
    ensures as_[k].UvStep? && (ss[k].uv.Pop? || ss[k].uv.CloseIdle?) && ss[k].idle != [] ==>
              var uv := ss[k + 1].uv;
              && (if ss[k].uv.Pop? then uv.InitTimer? else uv.FreeIdle?) && uv.id in ss[k].idle
              && forall id :: id in ss[k].idle ==> if id == uv.id then id !in ss[k + 1].idle
                                                   else uv.id < id && id in ss[k + 1].idle
    ensures as_[k].UvStep? && (ss[k].uv.Pop? || ss[k].uv.CloseIdle?) && ss[k].idle == [] ==> ss[k + 1].uv == Polling
  {
    hide Run, Erase, Ascending;
    RunStart(ss, as_);
    RunStep(ss, as_, k);
    RunAscending(ss, as_, k);
    if ss[k].idle != [] {
      HeadLeast(ss[k]);
    }
  }

  lemma HeadLeast(s: State)
    requires Ascending(s) && s.idle != []
    ensures forall id :: id in s.idle ==> if id == s.idle[0] then id !in s.idle[1..]
                                          else s.idle[0] < id && id in s.idle[1..]
  {
    assert s.idle == [s.idle[0]] + s.idle[1..];
  }

  lemma RunStart(ss: seq<State>, as_: seq<Action>)
    requires Run(ss, as_)
    ensures |ss| == |as_| + 1 && Follows(ss, as_) && Initial(ss[0])
  {
  }

  // ---------- What the service does ----------

  /**
   The mark for running timers is set at the start and cleared at the exit, which
   signals the libuv loop after that.
   */
  lemma ServiceRuns(ss: seq<State>, as_: seq<Action>, k: nat)
    requires Run(ss, as_) && k < |as_|
    ensures k + 1 < |ss|
    ensures as_[k] == Init ==> ss[k + 1] == ss[k].(looping := true)
    ensures as_[k] == Exit ==> ss[k + 1] == ss[k].(looping := false, service := Stopping)
    ensures as_[k].ServiceStep? && ss[k].service == Stopping ==>
              ss[k + 1] == ss[k].(notified := ss[k].notified || as_[k].ok,
                                  service := Waiting({IdleQueue, BusyQueue, DeadQueue}, 0))
    ensures as_[k] != Init && as_[k] != Exit ==> ss[k + 1].looping == ss[k].looping
  {
    hide Run, Erase, UvNext;
    RunStart(ss, as_);
    RunStep(ss, as_, k);
  }

  /**
   A request that comes while timers are run is queued, and signalled, unless
   the signal fails; then it is answered and freed.
   */
  lemma RequestQueued(ss: seq<State>, as_: seq<Action>, k: nat)
    requires Run(ss, as_) && k < |as_|
    ensures k + 1 < |ss|
    ensures as_[k] == Request && ss[k].looping ==>
              && ss[k + 1].service == Push(ss[k].next) && ss[k + 1].next == ss[k].next + 1
              && ss[k + 1].idle == ss[k].idle && ss[k + 1].freed == ss[k].freed
    ensures as_[k].ServiceStep? && ss[k].service.Push? ==>
              if as_[k].ok then
                ss[k + 1] == ss[k].(idle := ss[k].idle + [ss[k].service.id], notified := true, service := Serving)
              else ss[k + 1] == ss[k].(service := PushFailed(ss[k].service.id))
    ensures as_[k].ServiceStep? && ss[k].service.PushFailed? ==>
              && ss[k + 1].service == Serving && ss[k + 1].idle == ss[k].idle
              && ss[k + 1].freed == ss[k].freed + {ss[k].service.id}
  {
    hide Run, Erase, UvNext;
    RunStart(ss, as_);
    RunStep(ss, as_, k);
  }

  /**
   A timer that libuv has taken is started after its record is busy; one that has
   fired or is closed is not started again.
   */
  lemma TimerRuns(ss: seq<State>, as_: seq<Action>, k: nat)
    requires Run(ss, as_) && k < |as_|
    ensures k + 1 < |ss|
    ensures as_[k] == UvStep(true) && ss[k].uv.InitTimer? ==> ss[k + 1] == ss[k].(uv := PushBusy(ss[k].uv.id))
    ensures as_[k].UvStep? && ss[k].uv.PushBusy? ==>
              ss[k + 1] == ss[k].(busy := ss[k].busy + [ss[k].uv.id], uv := StartTimer(ss[k].uv.id))
    ensures as_[k] == UvStep(true) && ss[k].uv.StartTimer? ==>
              ss[k + 1] == ss[k].(armed := ss[k].armed + {ss[k].uv.id}, uv := Pop)
    ensures as_[k].Fire? ==> ss[k + 1] == ss[k].(armed := ss[k].armed - {as_[k].id}, uv := Fired(as_[k].id))
    ensures as_[k].UvStep? && ss[k].uv.FiredClose? ==>
              ss[k + 1] == ss[k].(closing := ss[k].closing + {ss[k].uv.id}, uv := Polling)
  {
    hide Run, Erase;
    RunStart(ss, as_);
    RunStep(ss, as_, k);
  }

  // ---------- What the wait has seen ----------

  predicate Empty(s: State, q: Queue)
  {
    match q
    case IdleQueue => s.idle == []
    case BusyQueue => s.busy == []
    case DeadQueue => s.dead == []
  }

  /** Queue q was empty when the round that the service is in has read it, at step l. */
  predicate ReadEmpty(ss: seq<State>, as_: seq<Action>, q: Queue, l: nat, k: nat)
    requires |ss| == |as_| + 1 && k < |ss|
  {
    && l < k && as_[l] == ReadSize(q) && Empty(ss[l], q)
    && forall m :: l < m <= k ==> ss[m].service.Waiting? && q !in ss[m].service.left
  }

  lemma {:induction false} SumsUp(ss: seq<State>, as_: seq<Action>, q: Queue, k: nat) returns (l: nat)
    requires Run(ss, as_) && |ss| == |as_| + 1 && k < |ss|
    requires ss[k].service.Waiting? && ss[k].service.sum == 0 && q !in ss[k].service.left
    ensures ReadEmpty(ss, as_, q, l, k)
  {
    hide Run;
    RunStart(ss, as_);
    assert k > 0;
    RunStep(ss, as_, k - 1);
    ReadsOne(ss[k - 1], as_[k - 1], q);
    if as_[k - 1] == ReadSize(q) {
      l := k - 1;
    } else {
      l := SumsUp(ss, as_, q, k - 1);
    }
  }

  /** A round with nothing counted so far goes on with an empty queue, or has only gone on. */
  lemma ReadsOne(s: State, a: Action, q: Queue)
    requires Enabled(s, a)
    requires var p := Next(s, a).service; p.Waiting? && p.sum == 0 && q !in p.left
    ensures s.service.Waiting? && s.service.sum == 0
    ensures if a == ReadSize(q) then Empty(s, q) else q !in s.service.left
  {
    hide Erase, UvNext;
  }

  /** The service exits only when each queue was empty at the moment its last round has read it. */
  lemma WaitSawEmpty(ss: seq<State>, as_: seq<Action>, k: nat) returns (i: nat, b: nat, d: nat)
    requires Run(ss, as_) && |ss| == |as_| + 1 && k < |as_| && !ss[k].service.Exited? && ss[k + 1].service.Exited?
    ensures ReadEmpty(ss, as_, IdleQueue, i, k) && ReadEmpty(ss, as_, BusyQueue, b, k)
    ensures ReadEmpty(ss, as_, DeadQueue, d, k)
  {
    hide Run, ReadEmpty;
    RunStart(ss, as_);
    RunStep(ss, as_, k);
    ExitsAfter(ss[k], as_[k]);
    i := SumsUp(ss, as_, IdleQueue, k);
    b := SumsUp(ss, as_, BusyQueue, k);
    d := SumsUp(ss, as_, DeadQueue, k);
  }

  lemma ExitsAfter(s: State, a: Action)
    requires Enabled(s, a) && !s.service.Exited? && Next(s, a).service.Exited?
    ensures s.service == Waiting({}, 0)
  {
    hide Erase, UvNext;
  }
}
