/**
 The delay records of powerpack timer.c, as steps of two threads: the timer
 service, which accepts requests and shuts down, and the libuv loop, which
 starts, fires and closes the timers. Every critical section, every libuv call
 and every callback is one step; libuv fires a started timer at most once, and
 not after it has been closed.
 */
module Timer {
  import opened Errno
  import opened NodeLists

  datatype Queue = IdleQueue | BusyQueue | DeadQueue

  /**
   Where the service thread is. Push and PushFailed hold a record; Stopping has
   cleared the looping mark, and is about to signal the notifier; Waiting is the
   loop of _timer_on_exit, which reads the sizes of the three queues one
   after the other, in any order, and adds them up.
   */
  datatype ServicePc =
    | Serving
    | Push(id: nat)
    | PushFailed(id: nat)
    | Stopping
    | Waiting(left: set<Queue>, sum: nat)
    | Exited

  const ALL_QUEUES := {IdleQueue, BusyQueue, DeadQueue}

  /** Where the libuv thread is in its callbacks. */
  datatype UvPc =
    | Polling
    | Pop
    | InitTimer(id: nat)
    | PushBusy(id: nat)
    | StartTimer(id: nat)
    | Rollback(id: nat)
    | RollbackClose(id: nat)
    | Fired(id: nat)
    | FiredMove(id: nat)
    | FiredClose(id: nat)
    | CloseBusy
    | CloseTimer(id: nat)
    | CloseIdle
    | FreeIdle(id: nat)
    | Closed(id: nat)

  /**
   The three queues, the looping mark, and whether the notifier of the libuv
   loop has been sent a signal that it has not taken yet; the timers that libuv
   runs and those it is closing; and, as history, the responses to each request, the records
   that are freed, those that a shutdown discards, and the requests so far.
   */
  datatype State = State(looping: bool, notified: bool, idle: seq<nat>, busy: seq<nat>, dead: seq<nat>,
                         service: ServicePc, uv: UvPc, armed: set<nat>, closing: set<nat>,
                         answers: map<nat, seq<int>>, freed: set<nat>, dropped: set<nat>, next: nat)

  datatype Action =
    | Init
    | Request
    | ServiceStep(ok: bool)
    | Exit
    | ReadSize(queue: Queue)
    | Notify
    | UvStep(ok: bool)
    | Fire(id: nat)
    | OnClose(id: nat)

  predicate Enabled(s: State, a: Action)
  {
    match a
    case Init => s.service.Serving?
    case Request => s.service.Serving?
    case ServiceStep(_) =>
      s.service.Push? || s.service.PushFailed? || s.service.Stopping? || (s.service.Waiting? && s.service.left == {})
    case Exit => s.service.Serving?
    case ReadSize(q) => s.service.Waiting? && q in s.service.left
    case Notify => s.uv.Polling? && s.notified
    case UvStep(_) => !s.uv.Polling?
    case Fire(id) => s.uv.Polling? && id in s.armed
    case OnClose(id) => s.uv.Polling? && id in s.closing
  }

  function Answer(s: State, id: nat, ret: int): State
  {
    s.(answers := s.answers[id := (if id in s.answers then s.answers[id] else []) + [ret]])
  }

  function Free(s: State, id: nat): State
  {
    s.(freed := s.freed + {id})
  }

  /** A record goes from busy_queue to dead_queue. */
  function Die(s: State, id: nat): State
  {
    s.(busy := Erase(s.busy, id), dead := s.dead + [id])
  }

  /** _timer_on_req_delay up to its allocation. */
  function OnRequest(s: State): State
  {
    var id := s.next;
    var u := s.(next := id + 1);
    if s.looping then u.(service := Push(id), answers := s.answers[id := []])
    else Free(Answer(u, id, STATE), id)
  }

  /** eaf_list_size, without the lock. */
  function Size(s: State, q: Queue): nat
  {
    match q
    case IdleQueue => |s.idle|
    case BusyQueue => |s.busy|
    case DeadQueue => |s.dead|
  }

  function ServiceNext(s: State, ok: bool): State
    requires Enabled(s, ServiceStep(ok))
  {
    match s.service
    case Push(id) =>
      if ok then s.(idle := s.idle + [id], notified := true, service := Serving)
      else s.(service := PushFailed(id))
    case PushFailed(id) => Free(Answer(s, id, UNKNOWN), id).(service := Serving)
    case Stopping => s.(notified := s.notified || ok, service := Waiting(ALL_QUEUES, 0))
    case Waiting(_, sum) => s.(service := if sum == 0 then Exited else Waiting(ALL_QUEUES, 0))
  }

  function UvNext(s: State, ok: bool): (u: State)
    requires Enabled(s, UvStep(ok))
    ensures u.service == s.service && u.looping == s.looping && u.notified == s.notified && u.next == s.next
  {
    match s.uv
    case Pop => if s.idle == [] then s.(uv := Polling) else s.(idle := s.idle[1..], uv := InitTimer(s.idle[0]))
    case InitTimer(id) => if ok then s.(uv := PushBusy(id)) else Free(Answer(s, id, UNKNOWN), id).(uv := Pop)
    case PushBusy(id) => s.(busy := s.busy + [id], uv := StartTimer(id))
    case StartTimer(id) => if ok then s.(armed := s.armed + {id}, uv := Pop) else s.(uv := Rollback(id))
    case Rollback(id) => Die(s, id).(uv := RollbackClose(id))
    case RollbackClose(id) => Answer(s, id, UNKNOWN).(closing := s.closing + {id}, uv := Pop)
    case Fired(id) => Answer(s, id, SUCCESS).(uv := FiredMove(id))
    case FiredMove(id) => Die(s, id).(uv := FiredClose(id))
    case FiredClose(id) => s.(closing := s.closing + {id}, uv := Polling)
    case CloseBusy =>
      if s.busy == [] then s.(uv := CloseIdle)
      else s.(busy := s.busy[1..], dead := s.dead + [s.busy[0]], uv := CloseTimer(s.busy[0]))
    case CloseTimer(id) =>
      s.(armed := s.armed - {id}, closing := s.closing + {id}, dropped := s.dropped + {id}, uv := CloseBusy)
    case CloseIdle => if s.idle == [] then s.(uv := Polling) else s.(idle := s.idle[1..], uv := FreeIdle(s.idle[0]))
    case FreeIdle(id) => Free(s, id).(dropped := s.dropped + {id}, uv := CloseIdle)
    case Closed(id) => Free(s, id).(uv := Polling)
  }

  function Next(s: State, a: Action): State
    requires Enabled(s, a)
  {
    match a
    case Init => s.(looping := true)
    case Request => OnRequest(s)
    case ServiceStep(ok) => ServiceNext(s, ok)
    case Exit => s.(looping := false, service := Stopping)
    case ReadSize(q) => s.(service := Waiting(s.service.left - {q}, s.service.sum + Size(s, q)))
    case Notify => s.(notified := false, uv := if s.looping then Pop else CloseBusy)
    case UvStep(ok) => UvNext(s, ok)
    case Fire(id) => s.(armed := s.armed - {id}, uv := Fired(id))
    case OnClose(id) => s.(dead := Erase(s.dead, id), closing := s.closing - {id}, uv := Closed(id))
  }

  // ---------- Where a record is ----------

  datatype Place = Held | Idle | InHand | Busy | Dead | Unlinked | Gone

  /** The record that the libuv thread has after idle_queue and before busy_queue, or instead of it. */
  predicate InUvHand(uv: UvPc, id: nat)
  {
    match uv
    case InitTimer(i) => i == id
    case PushBusy(i) => i == id
    case FreeIdle(i) => i == id
    case _ => false
  }

  predicate InServiceHand(pc: ServicePc, id: nat)
  {
    match pc
    case Push(i) => i == id
    case PushFailed(i) => i == id
    case _ => false
  }

  function PlaceOf(s: State, id: nat): Place
  {
    if InServiceHand(s.service, id) then Held
    else if id in s.idle then Idle
    else if InUvHand(s.uv, id) then InHand
    else if id in s.busy then Busy
    else if id in s.dead then Dead
    else if s.uv == Closed(id) then Unlinked
    else Gone
  }

  /** The stages of a record, in their order. */
  function Rank(p: Place): nat
  {
    match p
    case Held => 0
    case Idle => 1
    case InHand => 2
    case Busy => 3
    case Dead => 4
    case Unlinked => 5
    case Gone => 6
  }

  /** Record id is in one place, and nowhere else. */
  predicate AtOne(s: State, id: nat)
  {
    var p := PlaceOf(s, id);
    && (id in s.idle <==> p == Idle) && (InUvHand(s.uv, id) <==> p == InHand)
    && (id in s.busy <==> p == Busy) && (id in s.dead <==> p == Dead) && (s.uv == Closed(id) <==> p == Unlinked)
    && (id in s.freed <==> p == Gone)
  }

  /** The responses to request id so far. */
  function Responses(s: State, id: nat): seq<int>
  {
    if id in s.answers then s.answers[id] else []
  }

  /** The busy record that has no running timer: its timer is not started yet, cannot start, or has just fired. */
  predicate IsUnarmed(uv: UvPc, id: nat)
  {
    match uv
    case StartTimer(i) => i == id
    case Rollback(i) => i == id
    case Fired(i) => i == id
    case FiredMove(i) => i == id
    case _ => false
  }

  /** The dead record whose close has not been asked for yet. */
  predicate IsUnclosed(uv: UvPc, id: nat)
  {
    match uv
    case RollbackClose(i) => i == id
    case FiredClose(i) => i == id
    case CloseTimer(i) => i == id
    case _ => false
  }

  /** What is known of record id at its place: its timer, and the responses to its request. */
  predicate Known(s: State, id: nat)
  {
    var p := PlaceOf(s, id);
    && (id in s.armed <==> (p == Busy && !IsUnarmed(s.uv, id)) || s.uv == CloseTimer(id))
    && (id in s.closing <==> p == Dead && !IsUnclosed(s.uv, id))
    && (IsUnarmed(s.uv, id) ==> p == Busy) && (IsUnclosed(s.uv, id) ==> p == Dead && id !in s.dropped)
    && (id in s.dropped ==> p == Dead || p == Unlinked || p == Gone)
    && |Responses(s, id)| == (if Unanswered(s, id) then 0 else 1)
  }

  /** The request has no response: a shutdown discards it, or its record is not dead yet. */
  predicate Unanswered(s: State, id: nat)
  {
    || id in s.dropped || s.uv == RollbackClose(id) || s.uv == CloseTimer(id)
    || (Rank(PlaceOf(s, id)) < Rank(Dead) && s.uv != FiredMove(id))
  }

  predicate RecordOk(s: State, id: nat)
  {
    AtOne(s, id) && Known(s, id)
  }

  ghost predicate Queues(s: State)
  {
    NoDup(s.idle) && NoDup(s.busy) && NoDup(s.dead)
  }

  /** Nothing is known of requests that have not come yet. */
  predicate Unused(s: State, id: nat)
  {
    && id !in s.idle && id !in s.busy && id !in s.dead && !InServiceHand(s.service, id) && !InUvHand(s.uv, id)
    && !IsUnarmed(s.uv, id) && !IsUnclosed(s.uv, id) && s.uv != Closed(id)
    && id !in s.armed && id !in s.closing && id !in s.freed && id !in s.dropped && id !in s.answers
  }

  ghost predicate Inv(s: State)
  {
    && Queues(s)
    && (forall id :: 0 <= id < s.next ==> RecordOk(s, id))
    && (forall id :: s.next <= id ==> Unused(s, id))
  }

  lemma Popped(list: seq<nat>)
    requires NoDup(list) && list != []
    ensures NoDup(list[1..]) && forall j :: j in list[1..] <==> j in list && j != list[0]
  {
    assert list == [list[0]] + list[1..];
  }

  lemma Appended(list: seq<nat>, id: nat)
    requires NoDup(list) && id !in list
    ensures NoDup(list + [id]) && forall j :: j in list + [id] <==> j in list || j == id
  {
  }

  lemma PoppedAt(list: seq<nat>, id: nat)
    requires NoDup(list)
    ensures list != [] ==> (id in list[1..] <==> id in list && id != list[0])
  {
    if list != [] {
      Popped(list);
    }
  }

  lemma ErasedAt(list: seq<nat>, i: nat, id: nat)
    requires NoDup(list)
    ensures id in Erase(list, i) <==> id in list && id != i
  {
    EraseOne(list, i);
  }

  lemma QueuesOf(s: State)
    requires Inv(s)
    ensures Queues(s)
  {
  }

  lemma RecordAt(s: State, id: nat)
    requires Inv(s)
    ensures if id < s.next then RecordOk(s, id) else Unused(s, id)
  {
    hide RecordOk, Unused;
  }

  // ---------- Steps ----------

  /** _timer_handle_idle_record, as long as libuv takes the timer. */
  lemma UvStarts(s: State, ok: bool, id: nat)
    requires Enabled(s, UvStep(ok)) && Inv(s) && id < s.next
    requires var w := s.uv; w.Pop? || w.InitTimer? || w.PushBusy? || w.StartTimer?
    ensures RecordOk(UvNext(s, ok), id)
    ensures Rank(PlaceOf(s, id)) <= Rank(PlaceOf(UvNext(s, ok), id))
  {
    hide Inv, UvNext, RecordOk, PlaceOf, Rank;
    if s.uv.Pop? || s.uv.InitTimer? {
      UvTakesIdle(s, ok, id);
    } else {
      UvArms(s, ok, id);
    }
  }

  lemma UvTakesIdle(s: State, ok: bool, id: nat)
    requires Enabled(s, UvStep(ok)) && Inv(s) && id < s.next && (s.uv.Pop? || s.uv.InitTimer?)
    ensures RecordOk(UvNext(s, ok), id)
    ensures Rank(PlaceOf(s, id)) <= Rank(PlaceOf(UvNext(s, ok), id))
  {
    hide NoDup, Inv, Erase;
    RecordAt(s, id);
    QueuesOf(s);
    PoppedAt(s.idle, id);
  }

  lemma UvArms(s: State, ok: bool, id: nat)
    requires Enabled(s, UvStep(ok)) && Inv(s) && id < s.next && (s.uv.PushBusy? || s.uv.StartTimer?)
    ensures RecordOk(UvNext(s, ok), id)
    ensures Rank(PlaceOf(s, id)) <= Rank(PlaceOf(UvNext(s, ok), id))
  {
    hide NoDup, Inv, Erase;
    RecordAt(s, id);
  }

  /** Its rollback. */
  lemma UvRollsBack(s: State, ok: bool, id: nat)
    requires Enabled(s, UvStep(ok)) && Inv(s) && id < s.next
    requires var w := s.uv; w.Rollback? || w.RollbackClose?
    ensures RecordOk(UvNext(s, ok), id)
    ensures Rank(PlaceOf(s, id)) <= Rank(PlaceOf(UvNext(s, ok), id))
  {
    hide NoDup, Inv, Erase;
    RecordAt(s, id);
    QueuesOf(s);
    ErasedAt(s.busy, s.uv.id, id);
  }

  /** _timer_on_active. */
  lemma UvFires(s: State, ok: bool, id: nat)
    requires Enabled(s, UvStep(ok)) && Inv(s) && id < s.next
    requires var w := s.uv; w.Fired? || w.FiredMove? || w.FiredClose?
    ensures RecordOk(UvNext(s, ok), id)
    ensures Rank(PlaceOf(s, id)) <= Rank(PlaceOf(UvNext(s, ok), id))
  {
    hide NoDup, Inv, Erase;
    RecordAt(s, id);
    QueuesOf(s);
    ErasedAt(s.busy, s.uv.id, id);
  }

  /** The first loop of _timer_close_all_timer. */
  lemma UvTakesBusy(s: State, ok: bool, id: nat)
    requires Enabled(s, UvStep(ok)) && Inv(s) && id < s.next
    requires var w := s.uv; w.CloseBusy?
    ensures RecordOk(UvNext(s, ok), id)
    ensures Rank(PlaceOf(s, id)) <= Rank(PlaceOf(UvNext(s, ok), id))
  {
    hide NoDup, Inv, Erase;
    RecordAt(s, id);
    QueuesOf(s);
    PoppedAt(s.busy, id);
  }

  /** Its call of uv_close. */
  lemma UvClosesTimer(s: State, ok: bool, id: nat)
    requires Enabled(s, UvStep(ok)) && Inv(s) && id < s.next
    requires var w := s.uv; w.CloseTimer?
    ensures RecordOk(UvNext(s, ok), id)
    ensures Rank(PlaceOf(s, id)) <= Rank(PlaceOf(UvNext(s, ok), id))
  {
    hide NoDup, Inv, Erase;
    RecordAt(s, id);
    QueuesOf(s);
  }

  /** Its second loop, and the end of _timer_on_timer_close. */
  lemma UvClosesIdle(s: State, ok: bool, id: nat)
    requires Enabled(s, UvStep(ok)) && Inv(s) && id < s.next
    requires var w := s.uv; w.CloseIdle? || w.FreeIdle? || w.Closed?
    ensures RecordOk(UvNext(s, ok), id)
    ensures Rank(PlaceOf(s, id)) <= Rank(PlaceOf(UvNext(s, ok), id))
  {
    hide NoDup, Inv, Erase;
    RecordAt(s, id);
    QueuesOf(s);
    PoppedAt(s.idle, id);
  }

  lemma PushRecord(s: State, ok: bool, id: nat)
    requires Enabled(s, ServiceStep(ok)) && Inv(s) && id < s.next && s.service.Push?
    ensures RecordOk(ServiceNext(s, ok), id)
    ensures Rank(PlaceOf(s, id)) <= Rank(PlaceOf(ServiceNext(s, ok), id))
  {
    hide NoDup, Inv;
    RecordAt(s, id);
  }

  lemma FailedRecord(s: State, ok: bool, id: nat)
    requires Enabled(s, ServiceStep(ok)) && Inv(s) && id < s.next && s.service.PushFailed?
    ensures RecordOk(ServiceNext(s, ok), id)
    ensures Rank(PlaceOf(s, id)) <= Rank(PlaceOf(ServiceNext(s, ok), id))
  {
    hide NoDup, Inv;
    RecordAt(s, id);
  }

  lemma WaitRecord(s: State, ok: bool, id: nat)
    requires Enabled(s, ServiceStep(ok)) && Inv(s) && id < s.next && (s.service.Stopping? || s.service.Waiting?)
    ensures RecordOk(ServiceNext(s, ok), id)
    ensures Rank(PlaceOf(s, id)) <= Rank(PlaceOf(ServiceNext(s, ok), id))
  {
    hide NoDup, Inv;
    RecordAt(s, id);
  }

  lemma CloseRecord(s: State, i: nat, id: nat)
    requires Enabled(s, OnClose(i)) && Inv(s) && id < s.next
    ensures RecordOk(Next(s, OnClose(i)), id)
    ensures Rank(PlaceOf(s, id)) <= Rank(PlaceOf(Next(s, OnClose(i)), id))
  {
    hide NoDup, Inv, Erase;
    RecordAt(s, id);
    QueuesOf(s);
    ErasedAt(s.dead, i, id);
  }

  lemma RequestRecord(s: State, id: nat)
    requires Enabled(s, Request) && Inv(s) && id < s.next
    ensures RecordOk(OnRequest(s), id)
    ensures Rank(PlaceOf(s, id)) <= Rank(PlaceOf(OnRequest(s), id))
  {
    hide NoDup, Inv;
    RecordAt(s, id);
    RecordAt(s, s.next);
  }

  lemma OtherRecord(s: State, a: Action, id: nat)
    requires Enabled(s, a) && (a.Init? || a.Exit? || a.ReadSize? || a.Notify? || a.Fire?) && Inv(s) && id < s.next
    ensures RecordOk(Next(s, a), id)
    ensures Rank(PlaceOf(s, id)) <= Rank(PlaceOf(Next(s, a), id))
  {
    hide NoDup, Inv;
    RecordAt(s, id);
  }

  /** A step keeps what is known of a record, and moves it forward only. */
  lemma RecordStep(s: State, a: Action, id: nat)
    requires Enabled(s, a) && Inv(s) && id < s.next
    ensures RecordOk(Next(s, a), id)
    ensures Rank(PlaceOf(s, id)) <= Rank(PlaceOf(Next(s, a), id))
  {
    hide Inv, RecordOk, UvNext, PlaceOf;
    match a {
      case UvStep(ok) =>
        var w := s.uv;
        if w.Pop? || w.InitTimer? || w.PushBusy? || w.StartTimer? {
          UvStarts(s, ok, id);
        } else if w.Rollback? || w.RollbackClose? {
          UvRollsBack(s, ok, id);
        } else if w.Fired? || w.FiredMove? || w.FiredClose? {
          UvFires(s, ok, id);
        } else if w.CloseBusy? {
          UvTakesBusy(s, ok, id);
        } else if w.CloseTimer? {
          UvClosesTimer(s, ok, id);
        } else {
          UvClosesIdle(s, ok, id);
        }
      case ServiceStep(ok) =>
        if s.service.Push? {
          PushRecord(s, ok, id);
        } else if s.service.PushFailed? {
          FailedRecord(s, ok, id);
        } else {
          WaitRecord(s, ok, id);
        }
      case OnClose(i) => CloseRecord(s, i, id);
      case Request => RequestRecord(s, id);
      case _ => OtherRecord(s, a, id);
    }
  }

  lemma NewRecord(s: State)
    requires Inv(s) && s.service.Serving?
    ensures RecordOk(OnRequest(s), s.next)
  {
    hide NoDup, Inv;
    RecordAt(s, s.next);
  }

  lemma UvQueues(s: State, ok: bool)
    requires Enabled(s, UvStep(ok)) && Inv(s)
    ensures Queues(UvNext(s, ok))
  {
    hide NoDup, RecordOk, Unused;
    UvActor(s);
    if s.idle != [] {
      Popped(s.idle);
    }
    match s.uv {
      case PushBusy(i) =>
        Appended(s.busy, i);
      case Rollback(i) =>
        EraseOne(s.busy, i);
        Appended(s.dead, i);
      case FiredMove(i) =>
        EraseOne(s.busy, i);
        Appended(s.dead, i);
      case CloseBusy =>
        if s.busy != [] {
          Popped(s.busy);
          Appended(s.dead, s.busy[0]);
        }
      case _ =>
    }
  }

  lemma UvUnused(s: State, ok: bool, id: nat)
    requires Enabled(s, UvStep(ok)) && Inv(s) && s.next <= id
    ensures Unused(UvNext(s, ok), id)
  {
    hide NoDup, RecordOk, Erase, Inv;
    UvActor(s);
    RecordAt(s, id);
    QueuesOf(s);
    PoppedAt(s.idle, id);
    PoppedAt(s.busy, id);
    match s.uv {
      case Rollback(i) => ErasedAt(s.busy, i, id);
      case FiredMove(i) => ErasedAt(s.busy, i, id);
      case _ =>
    }
  }

  /** The records that the libuv thread is at, or takes next, exist, and are where its place says. */
  lemma UvActor(s: State)
    requires Inv(s)
    ensures forall i: nat ::
              InUvHand(s.uv, i) || IsUnarmed(s.uv, i) || IsUnclosed(s.uv, i) || s.uv == Closed(i) ==> i < s.next
    ensures forall i: nat :: InUvHand(s.uv, i) ==> i !in s.busy
    ensures forall i: nat :: IsUnarmed(s.uv, i) ==> i in s.busy && i !in s.dead
    ensures s.busy != [] ==> s.busy[0] < s.next && s.busy[0] !in s.dead
    ensures s.idle != [] ==> s.idle[0] < s.next
  {
    hide Inv;
    forall i: nat
      ensures InUvHand(s.uv, i) || IsUnarmed(s.uv, i) || IsUnclosed(s.uv, i) || s.uv == Closed(i) ==> i < s.next
      ensures InUvHand(s.uv, i) ==> i !in s.busy
      ensures IsUnarmed(s.uv, i) ==> i in s.busy && i !in s.dead
    {
      RecordAt(s, i);
    }
    if s.busy != [] {
      RecordAt(s, s.busy[0]);
    }
    if s.idle != [] {
      RecordAt(s, s.idle[0]);
    }
  }

  lemma OtherInv(s: State, a: Action)
    requires Enabled(s, a) && !a.UvStep? && Inv(s)
    ensures Queues(Next(s, a))
    ensures forall id :: Next(s, a).next <= id ==> Unused(Next(s, a), id)
  {
    hide NoDup, RecordOk, Inv;
    QueuesOf(s);
    match a {
      case ServiceStep(ok) =>
        if s.service.Push? {
          RecordAt(s, s.service.id);
          PushedNew(s, s.service.id);
          Appended(s.idle, s.service.id);
        }
      case OnClose(i) =>
        EraseOne(s.dead, i);
      case _ =>
    }
    forall id: nat | Next(s, a).next <= id
      ensures Unused(Next(s, a), id)
    {
      RecordAt(s, id);
      if s.service.Push? || s.service.PushFailed? {
        RecordAt(s, s.service.id);
      }
    }
  }

  lemma PushedNew(s: State, id: nat)
    requires Inv(s) && s.service == Push(id)
    ensures id < s.next && id !in s.idle
  {
    RecordAt(s, id);
  }

  /** The invariant holds over every step. */
  lemma InvStep(s: State, a: Action)
    requires Enabled(s, a) && Inv(s)
    ensures Inv(Next(s, a))
  {
    hide Queues, RecordOk, Unused, UvNext, ServiceNext;
    var u := Next(s, a);
    NextIds(s, a);
    if a.UvStep? {
      UvQueues(s, a.ok);
      forall id: nat | u.next <= id
        ensures Unused(u, id)
      {
        UvUnused(s, a.ok, id);
      }
    } else {
      OtherInv(s, a);
    }
    forall id | 0 <= id < u.next
      ensures RecordOk(u, id)
    {
      if id < s.next {
        RecordStep(s, a, id);
      } else {
        NewRecord(s);
      }
    }
  }

  lemma NextIds(s: State, a: Action)
    requires Enabled(s, a)
    ensures Next(s, a).next == if a.Request? then s.next + 1 else s.next
  {
  }

  // ---------- Every run ----------

  predicate Initial(s: State)
  {
    s == State(false, false, [], [], [], Serving, Polling, {}, {}, map[], {}, {}, 0)
  }

  /** The states ss are passed through when the actions as_ are taken, one after the other. */
  ghost predicate Follows(ss: seq<State>, as_: seq<Action>)
  {
    |ss| == |as_| + 1 && forall k :: 0 <= k < |as_| ==> Enabled(ss[k], as_[k]) && ss[k + 1] == Next(ss[k], as_[k])
  }

  ghost predicate Run(ss: seq<State>, as_: seq<Action>)
  {
    Follows(ss, as_) && Initial(ss[0])
  }

  predicate ShutDown(s: State)
  {
    s.service.Stopping? || s.service.Waiting? || s.service.Exited?
  }

  /** Timers are closed, and requests discarded, in a shutdown only. */
  predicate Discards(s: State)
  {
    Closes(s) && (s.dropped != {} ==> ShutDown(s))
  }

  predicate Closes(s: State)
  {
    && (s.uv.CloseBusy? || s.uv.CloseTimer? || s.uv.CloseIdle? || s.uv.FreeIdle? ==> ShutDown(s))
    && (s.notified || s.service.Push? || s.service.PushFailed? ==> s.looping || ShutDown(s))
  }

  lemma UvCloses(s: State, ok: bool)
    requires Enabled(s, UvStep(ok)) && Closes(s)
    ensures Closes(UvNext(s, ok)) && (ShutDown(s) ==> ShutDown(UvNext(s, ok)))
  {
    hide Erase;
  }

  lemma UvDrops(s: State, ok: bool)
    requires Enabled(s, UvStep(ok))
    ensures UvNext(s, ok).dropped == s.dropped || s.uv.CloseTimer? || s.uv.FreeIdle?
  {
    hide Erase;
  }

  lemma DiscardsStep(s: State, a: Action)
    requires Enabled(s, a) && Discards(s)
    ensures Discards(Next(s, a))
  {
    hide Erase, UvNext;
    if a.UvStep? {
      UvCloses(s, a.ok);
      UvDrops(s, a.ok);
    }
  }

  lemma RunStep(ss: seq<State>, as_: seq<Action>, k: nat)
    requires Follows(ss, as_) && k < |as_|
    ensures |ss| == |as_| + 1 && Enabled(ss[k], as_[k]) && ss[k + 1] == Next(ss[k], as_[k])
  {
  }

  lemma {:induction false} RunInv(ss: seq<State>, as_: seq<Action>, k: nat)
    requires Run(ss, as_) && k < |ss|
    ensures Inv(ss[k]) && Discards(ss[k])
  {
    hide Inv, Discards, Enabled, Next;
    if k == 0 {
      InitialInv(ss[0]);
    } else {
      RunInv(ss, as_, k - 1);
      RunStep(ss, as_, k - 1);
      InvStep(ss[k - 1], as_[k - 1]);
      DiscardsStep(ss[k - 1], as_[k - 1]);
    }
  }

  lemma InitialInv(s: State)
    requires Initial(s)
    ensures Inv(s) && Discards(s)
  {
  }

  /**
   A request is answered at most once; once its record is freed, exactly once,
   unless a shutdown has discarded it; and without a shutdown none is.
   */
  lemma AnsweredOnce(ss: seq<State>, as_: seq<Action>, k: nat, id: nat)
    requires Run(ss, as_) && k < |ss|
    ensures |Responses(ss[k], id)| <= 1
    ensures id in ss[k].freed ==> (|Responses(ss[k], id)| == 1 <==> id !in ss[k].dropped)
    ensures id in ss[k].dropped ==> ShutDown(ss[k])
  {
    hide Run, Inv;
    RunInv(ss, as_, k);
    RecordAt(ss[k], id);
  }

  /** A record is in one queue at most, or in the hands of one thread, or freed. */
  lemma OnePlace(ss: seq<State>, as_: seq<Action>, k: nat, id: nat)
    requires Run(ss, as_) && k < |ss| && id < ss[k].next
    ensures AtOne(ss[k], id)
    ensures NoDup(ss[k].idle) && NoDup(ss[k].busy) && NoDup(ss[k].dead)
    ensures id in ss[k].armed ==> id in ss[k].busy || ss[k].uv == CloseTimer(id)
    ensures id in ss[k].closing ==> id in ss[k].dead
  {
    hide Run, Inv;
    RunInv(ss, as_, k);
    RecordAt(ss[k], id);
    QueuesOf(ss[k]);
  }

  /** A record moves forward only; in particular, once freed it stays so. */
  lemma {:induction false} ForwardOnly(ss: seq<State>, as_: seq<Action>, k: nat, l: nat, id: nat)
    requires Run(ss, as_) && k <= l < |ss| && id < ss[k].next
    ensures id < ss[l].next
    ensures Rank(PlaceOf(ss[k], id)) <= Rank(PlaceOf(ss[l], id))
    decreases l
  {
    hide Inv, Enabled, Next, PlaceOf, Rank, Initial;
    if k < l {
      ForwardOnly(ss, as_, k, l - 1, id);
      RunInv(ss, as_, l - 1);
      RunStep(ss, as_, l - 1);
      RecordStep(ss[l - 1], as_[l - 1], id);
      NextIds(ss[l - 1], as_[l - 1]);
    }
  }
}
