/** What the requests of the timer service are answered with: it depends on what has become of their timers. */
module TimerAnswers {
  import opened Errno
  import opened NodeLists
  import opened Timer

  /** What has been decided of a request: its delay ran out, it came too early or too late, or something failed. */
  datatype Verdict = Undecided | RanOut | Refused | Failed

  /** The request with number id arrives while the service does not run timers. */
  predicate Refuses(s: State, a: Action, id: nat)
  {
    a == Request && s.next == id && !s.looping
  }

  /** The signal to the libuv loop, the initialization of the timer or its start fails, for record id. */
  predicate Fails(s: State, a: Action, id: nat)
  {
    || (a == ServiceStep(false) && s.service == Push(id))
    || (a == UvStep(false) && (s.uv == InitTimer(id) || s.uv == StartTimer(id)))
  }

  function Decision(s: State, a: Action, id: nat): Verdict
  {
    if a == Fire(id) then RanOut
    else if Refuses(s, a, id) then Refused
    else if Fails(s, a, id) then Failed
    else Undecided
  }

  /** The answer, and where the record is, after the decision o. */
  predicate Told(s: State, id: nat, o: Verdict)
  {
    var answers := Responses(s, id);
    var fired := s.uv == Fired(id) || s.uv == FiredMove(id);
    var failed := s.service == PushFailed(id) || s.uv == Rollback(id) || s.uv == RollbackClose(id);
    match o
    case Undecided => answers == [] && !fired && !failed && (id in s.freed ==> id in s.dropped)
    case RanOut =>
      && answers == (if s.uv == Fired(id) then [] else [SUCCESS]) && !failed && id !in s.dropped
      && (!fired ==> Rank(PlaceOf(s, id)) >= Rank(Dead))
    case Refused => answers == [STATE] && !failed && !fired && id !in s.dropped && id in s.freed
    case Failed =>
      && answers == (if failed then [] else [UNKNOWN]) && !fired && id !in s.dropped
      && (!failed ==> Rank(PlaceOf(s, id)) >= Rank(Dead))
  }

  /** The step decides of request id at most once, and answers accordingly. */
  predicate Settles(s: State, a: Action, u: State, id: nat, o: Verdict)
  {
    var d := Decision(s, a, id);
    && (o != Undecided ==> d == Undecided)
    && Told(u, id, if o == Undecided then d else o)
  }

  lemma ToldStarts(s: State, ok: bool, id: nat, o: Verdict)
    requires Enabled(s, UvStep(ok)) && Inv(s) && id < s.next && Told(s, id, o) && (s.uv.Pop? || s.uv.InitTimer?)
    requires RecordOk(UvNext(s, ok), id)
    ensures Settles(s, UvStep(ok), UvNext(s, ok), id, o)
  {
    hide NoDup, Inv, Erase;
    RecordAt(s, id);
  }

  lemma ToldArms(s: State, ok: bool, id: nat, o: Verdict)
    requires Enabled(s, UvStep(ok)) && Inv(s) && id < s.next && Told(s, id, o) && (s.uv.PushBusy? || s.uv.StartTimer?)
    requires RecordOk(UvNext(s, ok), id)
    ensures Settles(s, UvStep(ok), UvNext(s, ok), id, o)
  {
    hide NoDup, Inv, Erase;
    RecordAt(s, id);
  }

  lemma ToldRollsBack(s: State, ok: bool, id: nat, o: Verdict)
    requires Enabled(s, UvStep(ok)) && Inv(s) && id < s.next && Told(s, id, o)
             && (s.uv.Rollback? || s.uv.RollbackClose?)
    requires RecordOk(UvNext(s, ok), id)
    ensures Settles(s, UvStep(ok), UvNext(s, ok), id, o)
  {
    hide NoDup, Inv, Erase;
    RecordAt(s, id);
    QueuesOf(s);
    ErasedAt(s.busy, s.uv.id, id);
  }

  lemma ToldFires(s: State, ok: bool, id: nat, o: Verdict)
    requires Enabled(s, UvStep(ok)) && Inv(s) && id < s.next && Told(s, id, o)
    requires s.uv.Fired? || s.uv.FiredMove? || s.uv.FiredClose?
    requires RecordOk(UvNext(s, ok), id)
    ensures Settles(s, UvStep(ok), UvNext(s, ok), id, o)
  {
    hide NoDup, Inv, Erase;
    RecordAt(s, id);
    QueuesOf(s);
    ErasedAt(s.busy, s.uv.id, id);
  }

  lemma ToldClosesBusy(s: State, ok: bool, id: nat, o: Verdict)
    requires Enabled(s, UvStep(ok)) && Inv(s) && id < s.next && Told(s, id, o) && (s.uv.CloseBusy? || s.uv.CloseTimer?)
    requires RecordOk(UvNext(s, ok), id)
    ensures Settles(s, UvStep(ok), UvNext(s, ok), id, o)
  {
    hide NoDup, Inv, Erase;
    RecordAt(s, id);
    QueuesOf(s);
    PoppedAt(s.busy, id);
  }

  lemma ToldClosesIdle(s: State, ok: bool, id: nat, o: Verdict)
    requires Enabled(s, UvStep(ok)) && Inv(s) && id < s.next && Told(s, id, o)
    requires s.uv.CloseIdle? || s.uv.FreeIdle? || s.uv.Closed?
    requires RecordOk(UvNext(s, ok), id)
    ensures Settles(s, UvStep(ok), UvNext(s, ok), id, o)
  {
    hide NoDup, Inv, Erase;
    RecordAt(s, id);
    QueuesOf(s);
    PoppedAt(s.idle, id);
  }

  lemma ToldPushes(s: State, ok: bool, id: nat, o: Verdict)
    requires Enabled(s, ServiceStep(ok)) && Inv(s) && id < s.next && Told(s, id, o) && s.service.Push?
    requires RecordOk(ServiceNext(s, ok), id)
    ensures Settles(s, ServiceStep(ok), ServiceNext(s, ok), id, o)
  {
    hide NoDup, Inv;
    RecordAt(s, id);
  }

  lemma ToldFails(s: State, ok: bool, id: nat, o: Verdict)
    requires Enabled(s, ServiceStep(ok)) && Inv(s) && id < s.next && Told(s, id, o) && s.service.PushFailed?
    requires RecordOk(ServiceNext(s, ok), id)
    ensures Settles(s, ServiceStep(ok), ServiceNext(s, ok), id, o)
  {
    hide NoDup, Inv;
    RecordAt(s, id);
  }

  lemma ToldWaits(s: State, ok: bool, id: nat, o: Verdict)
    requires Enabled(s, ServiceStep(ok)) && Inv(s) && id < s.next && Told(s, id, o)
    requires s.service.Stopping? || s.service.Waiting?
    requires RecordOk(ServiceNext(s, ok), id)
    ensures Settles(s, ServiceStep(ok), ServiceNext(s, ok), id, o)
  {
    hide NoDup, Inv;
    RecordAt(s, id);
  }

  lemma ToldElse(s: State, a: Action, id: nat, o: Verdict)
    requires Enabled(s, a) && !a.UvStep? && !a.ServiceStep? && Inv(s) && id < s.next && Told(s, id, o)
    requires RecordOk(Next(s, a), id) && Rank(PlaceOf(s, id)) <= Rank(PlaceOf(Next(s, a), id))
    ensures Settles(s, a, Next(s, a), id, o)
  {
    hide NoDup, Inv, Erase;
    RecordAt(s, id);
    RecordAt(s, s.next);
  }

  lemma ToldStep(s: State, a: Action, id: nat, o: Verdict)
    requires Enabled(s, a) && Inv(s) && id < s.next && Told(s, id, o)
    ensures Settles(s, a, Next(s, a), id, o)
  {
    hide Inv, RecordOk, UvNext, ServiceNext, PlaceOf, Told, Settles;
    RecordStep(s, a, id);
    match a
    case UvStep(ok) =>
      var w := s.uv;
      if w.Pop? || w.InitTimer? {
        ToldStarts(s, ok, id, o);
      } else if w.PushBusy? || w.StartTimer? {
        ToldArms(s, ok, id, o);
      } else if w.Rollback? || w.RollbackClose? {
        ToldRollsBack(s, ok, id, o);
      } else if w.Fired? || w.FiredMove? || w.FiredClose? {
        ToldFires(s, ok, id, o);
      } else if w.CloseBusy? || w.CloseTimer? {
        ToldClosesBusy(s, ok, id, o);
      } else {
        ToldClosesIdle(s, ok, id, o);
      }
    case ServiceStep(ok) =>
      if s.service.Push? {
        ToldPushes(s, ok, id, o);
      } else if s.service.PushFailed? {
        ToldFails(s, ok, id, o);
      } else {
        ToldWaits(s, ok, id, o);
      }
    case _ => ToldElse(s, a, id, o);
  }

  /** The request that arrives is refused or not decided. */
  lemma ToldNew(s: State)
    requires Inv(s) && s.service.Serving?
    ensures Told(OnRequest(s), s.next, Decision(s, Request, s.next))
  {
    hide NoDup, Inv;
    RecordAt(s, s.next);
  }

  /** Before a request arrives nothing is decided of it. */
  lemma NothingYet(s: State, a: Action, id: nat)
    requires Enabled(s, a) && Inv(s) && s.next <= id && id >= Next(s, a).next
    ensures Decision(s, a, id) == Undecided
  {
    hide NoDup, Inv;
    RecordAt(s, id);
  }

  lemma NextIs(s: State, a: Action)
    requires Enabled(s, a)
    ensures Next(s, a).next == s.next + if a == Request then 1 else 0
  {
    hide Erase;
  }

  // ---------- Every run ----------

  function VerdictAt(ss: seq<State>, as_: seq<Action>, k: nat, id: nat): Verdict
    requires k <= |as_| && k < |ss|
  {
    if k == 0 then Undecided
    else if VerdictAt(ss, as_, k - 1, id) != Undecided then VerdictAt(ss, as_, k - 1, id)
    else Decision(ss[k - 1], as_[k - 1], id)
  }

  lemma {:induction false} RunTold(ss: seq<State>, as_: seq<Action>, k: nat, id: nat)
    requires Run(ss, as_) && k < |ss|
    ensures if id < ss[k].next then Told(ss[k], id, VerdictAt(ss, as_, k, id))
            else VerdictAt(ss, as_, k, id) == Undecided
    ensures forall l :: 0 <= l < k && Decision(ss[l], as_[l], id) != Undecided ==>
              VerdictAt(ss, as_, k, id) == Decision(ss[l], as_[l], id)
    ensures VerdictAt(ss, as_, k, id) != Undecided ==>
              exists l :: 0 <= l < k && Decision(ss[l], as_[l], id) == VerdictAt(ss, as_, k, id)
  {
    hide Inv, Enabled, Next, Told, Settles, Decision, Initial;
    if k > 0 {
      var s, a := ss[k - 1], as_[k - 1];
      RunTold(ss, as_, k - 1, id);
      RunStep(ss, as_, k - 1);
      RunInv(ss, as_, k - 1);
      NextIs(s, a);
      if id < s.next {
        ToldStep(s, a, id, VerdictAt(ss, as_, k - 1, id));
        TellsOnce(s, a, id, VerdictAt(ss, as_, k - 1, id));
      } else if id < ss[k].next {
        ToldBegins(s, a);
      } else {
        NothingYet(s, a, id);
      }
    } else {
      NoRequests(ss[0], id);
    }
  }

  lemma TellsOnce(s: State, a: Action, id: nat, o: Verdict)
    requires Enabled(s, a) && Settles(s, a, Next(s, a), id, o)
    ensures o != Undecided ==> Decision(s, a, id) == Undecided
    ensures Told(Next(s, a), id, if o == Undecided then Decision(s, a, id) else o)
  {
    hide Told, Decision, Next;
  }

  lemma ToldBegins(s: State, a: Action)
    requires Enabled(s, a) && Inv(s) && a == Request
    ensures Told(Next(s, a), s.next, Decision(s, a, s.next))
  {
    hide Inv, Told, Decision;
    ToldNew(s);
  }

  lemma NoRequests(s: State, id: nat)
    requires Initial(s)
    ensures s.next == 0
  {
  }

  /**
   A request whose delay ran out is answered with success, and no other one is.
   It is answered with a state error exactly when it arrived while no timers
   were run, and with an unknown error exactly when the signal, the
   initialization or the start has failed for it; once its record is freed, it
   has that answer, unless a shutdown has discarded it.
   */
  lemma Answers(ss: seq<State>, as_: seq<Action>, k: nat, id: nat)
    requires Run(ss, as_) && k < |ss| && id < ss[k].next
    ensures SUCCESS in Responses(ss[k], id) ==> exists l :: 0 <= l < k && as_[l] == Fire(id)
    ensures Responses(ss[k], id) == [STATE] <==> exists l :: 0 <= l < k && Refuses(ss[l], as_[l], id)
    ensures UNKNOWN in Responses(ss[k], id) ==> exists l :: 0 <= l < k && Fails(ss[l], as_[l], id)
    ensures id in ss[k].freed ==>
              && (Responses(ss[k], id) == [SUCCESS] <==> exists l :: 0 <= l < k && as_[l] == Fire(id))
              && (Responses(ss[k], id) == [UNKNOWN] <==> exists l :: 0 <= l < k && Fails(ss[l], as_[l], id))
              && (Responses(ss[k], id) == [] <==> id in ss[k].dropped)
  {
    hide Run, Inv;
    RunTold(ss, as_, k, id);
    RunInv(ss, as_, k);
    RecordAt(ss[k], id);
    RunStart(ss, as_);
    var o := VerdictAt(ss, as_, k, id);
    forall l | 0 <= l < k
      ensures as_[l] == Fire(id) ==> o == RanOut
      ensures Refuses(ss[l], as_[l], id) ==> o == Refused
      ensures Fails(ss[l], as_[l], id) ==> o == Failed
    {
      assert Decision(ss[l], as_[l], id) != Undecided ==> o == Decision(ss[l], as_[l], id);
    }
    if o != Undecided {
      var l :| 0 <= l < k && Decision(ss[l], as_[l], id) == o;
    }
  }

  lemma RunStart(ss: seq<State>, as_: seq<Action>)
    requires Run(ss, as_)
    ensures |ss| == |as_| + 1
  {
  }
}
