/**
 Calls over whole runs, in which requests, responses, queues and resumes come
 in any order: what always holds, and what holds when no request is answered
 more than once.
 */
module CallRuns {
  import opened Messages
  import opened Trees
  import opened Calls

  /** Whatever a thread is ready to do uses messages and records that exist. */
  lemma ReadyAlive(v: Calls, a: Action)
    requires Consistent(v) && Ready(v, a)
    ensures Alive(v, a)
  {
    hide Consistent;
    match a
    case Begin(u, _, _) => OwnedHeld(v, u);
    case Send(u, _) => SentConsistent(v, u, 0);
    case Fail(u) => CallNode(v, u);
    case Reply(m, _) => PostedConsistent(v, m);
    case Handle(m) => DeliveredConsistent(v, m);
    case Discard(m) => DiscardedConsistent(v, m);
    case Release(m) => ReleasedConsistent(v, m);
    case Drop(m) => DroppedConsistent(v, m);
    case Finalize(u) =>
      if Ends(v, u) {
        FinishedConsistent(v, u);
      }
    case _ =>
  }

  lemma CallNode(v: Calls, u: nat)
    requires Consistent(v) && u in v.proxies
    ensures u in v.calls && v.calls[u].node in v.records && (v.proxies[u].AtFailure? ==> v.proxies[u].error < 0)
  {
    hide Tabled, Stored, Counted, Labels;
  }

  lemma StepConsistent(v: Calls, a: Action)
    requires Consistent(v) && Enabled(v, a)
    ensures Consistent(Next(v, a))
  {
    hide Consistent;
    match a
    case Create(u) => CreatedIsNew(v, u);
    case Begin(u, from, n) => BegunConsistent(v, u, from, n);
    case Send(u, r) => SentConsistent(v, u, SendReq(r));
    case Fail(u) =>
      CallNode(v, u);
      FailedConsistent(v, u, v.proxies[u].error);
    case Resume(from) => WokenConsistent(v, from);
    case Respond(serial, m) => MadeConsistent(v, serial, m);
    case Reply(m, r) => PostedConsistent(v, m);
    case Handle(m) => DeliveredConsistent(v, m);
    case Discard(m) => DiscardedConsistent(v, m);
    case Release(m) => ReleasedConsistent(v, m);
    case Keep(m) => KeptConsistent(v, m);
    case Drop(m) => DroppedConsistent(v, m);
    case Finalize(u) =>
      if Ends(v, u) {
        FinishedConsistent(v, u);
      }
  }

  // ---------- Every run ----------

  /** The states vs are passed through when the actions as_ are taken, one after the other. */
  ghost predicate Run(vs: seq<Calls>, as_: seq<Action>)
  {
    && |vs| == |as_| + 1 && vs[0] == Empty()
    && forall k :: 0 <= k < |as_| ==> Enabled(vs[k], as_[k]) && vs[k + 1] == Next(vs[k], as_[k])
  }

  lemma RunStep(vs: seq<Calls>, as_: seq<Action>, k: nat)
    requires Run(vs, as_) && k < |as_|
    ensures |vs| == |as_| + 1 && Enabled(vs[k], as_[k]) && vs[k + 1] == Next(vs[k], as_[k])
  {
  }

  lemma RunStart(vs: seq<Calls>, as_: seq<Action>)
    requires Run(vs, as_)
    ensures |vs| == |as_| + 1 && vs[0] == Empty()
  {
  }

  /** In every run calls, records, tables and reference counts agree. */
  lemma {:induction false} RunConsistent(vs: seq<Calls>, as_: seq<Action>, k: nat)
    requires Run(vs, as_) && k < |vs|
    ensures Consistent(vs[k])
  {
    hide Run, Consistent, Enabled, Next;
    RunStart(vs, as_);
    if k == 0 {
      EmptyConsistent();
    } else {
      RunConsistent(vs, as_, k - 1);
      RunStep(vs, as_, k - 1);
      StepConsistent(vs[k - 1], as_[k - 1]);
    }
  }

  /** In every run a thread only uses messages and records that exist. */
  lemma NothingDangles(vs: seq<Calls>, as_: seq<Action>, k: nat, a: Action)
    requires Run(vs, as_) && k < |vs| && Ready(vs[k], a)
    ensures Alive(vs[k], a)
  {
    hide Run, Consistent, Ready, Alive;
    RunConsistent(vs, as_, k);
    ReadyAlive(vs[k], a);
  }

  // ---------- Whose response it is ----------

  /** The call of the request with the given serial is open. */
  ghost predicate OpenFor(v: Calls, serial: nat)
  {
    exists u :: u in v.calls && v.calls[u].serial == serial && v.calls[u].phase.Open?
  }

  /** The same, with the identity looked up in the history. */
  predicate OpenAt(v: Calls, serial: nat)
  {
    serial < |v.requests| && Finds(v, v.requests[serial]) && v.calls[v.requests[serial]].serial == serial
  }

  lemma OpenIs(v: Calls, serial: nat)
    requires Consistent(v)
    ensures OpenFor(v, serial) <==> OpenAt(v, serial)
  {
    hide Linked, Tabled, Stored, Counted, Proxies, Labels;
    forall u | u in v.calls
      ensures v.calls[u].serial < |v.requests| && v.requests[v.calls[u].serial] == u
    {
      CallLabel(v, u);
    }
  }

  /** The serial of a call is that of its request. */
  lemma CallLabel(v: Calls, u: nat)
    requires Consistent(v) && u in v.calls
    ensures u in v.messages && v.messages[u].req && v.calls[u].serial == v.messages[u].serial
    ensures v.calls[u].serial < |v.requests| && v.requests[v.calls[u].serial] == u
  {
    hide Linked, Tabled, Stored, Proxies;
    Held(v, u);
  }

  /** The record that is found for the response m is that of the request the response was created from. */
  predicate FindsOwn(v: Calls, m: nat)
    requires m in v.messages
  {
    Finds(v, v.messages[m].uuid) && v.calls[v.messages[m].uuid].serial == v.messages[m].serial
  }

  lemma OwnIfOpen(v: Calls, m: nat)
    requires Consistent(v) && m in v.inbox
    ensures m in v.messages && (FindsOwn(v, m) <==> OpenFor(v, v.messages[m].serial))
  {
    hide Consistent;
    InboxHeld(v, m);
    OpenIs(v, v.messages[m].serial);
  }

  /** In every run a response finds the record of its own request exactly when the call of that request is open. */
  lemma HandledByOwn(vs: seq<Calls>, as_: seq<Action>, k: nat, m: nat)
    requires Run(vs, as_) && k < |vs| && m in vs[k].inbox
    ensures m in vs[k].messages && (FindsOwn(vs[k], m) <==> OpenFor(vs[k], vs[k].messages[m].serial))
  {
    hide Run, Consistent;
    RunConsistent(vs, as_, k);
    OwnIfOpen(vs[k], m);
  }

  // ---------- At most one response per request ----------

  /** A response is sent for a request that was sent before, and to which none has been sent yet. */
  predicate Once(v: Calls, a: Action)
  {
    a.Reply? && a.m in v.messages && SendRsp(a.r) >= 0 ==>
      v.messages[a.m].serial in v.sent && v.messages[a.m].serial !in v.posted
  }

  ghost predicate AnsweredOnce(vs: seq<Calls>, as_: seq<Action>)
  {
    |vs| == |as_| + 1 && forall k :: 0 <= k < |as_| ==> Once(vs[k], as_[k])
  }

  /** The call of the request is open, and its proxy has returned. */
  predicate Awaited(v: Calls, serial: nat)
  {
    OpenAt(v, serial) && v.requests[serial] !in v.proxies
  }

  /** Every response on its way is the one to an open call of its own. */
  ghost predicate Inbox(v: Calls)
  {
    && (forall m :: m in v.inbox ==>
          && v.inbox[m] == 1 && m in v.messages && v.messages[m].serial in v.posted && Awaited(v, v.messages[m].serial))
    && (forall m, n :: m in v.inbox && n in v.inbox && m != n && m in v.messages && n in v.messages ==>
          v.messages[m].serial != v.messages[n].serial)
  }

  /** Requests that were sent are awaited until they are answered. */
  ghost predicate Waits(v: Calls)
  {
    && v.posted <= v.sent && (forall q :: q in v.sent ==> q < |v.requests|)
    && (forall q :: q in v.sent && q !in v.posted ==> Awaited(v, q))
  }

  /** What is not sent yet is open and unanswered. */
  ghost predicate Unsent(v: Calls)
  {
    && (forall u :: u in v.proxies ==> Finds(v, u) && v.calls[u].serial !in v.sent)
    && (forall u :: u in v.owned ==> u in v.messages && v.messages[u].serial !in v.sent)
  }

  predicate EndedWell(v: Calls, c: Call)
  {
    match c.phase
    case Open => true
    case Answered(m) => m in v.messages && v.messages[m].serial == c.serial && c.serial in v.sent
    case Broken(_) => c.serial !in v.sent
  }

  ghost predicate Single(v: Calls)
  {
    Inbox(v) && Waits(v) && Unsent(v) && forall u :: u in v.calls ==> EndedWell(v, v.calls[u])
  }

  /** A step that touches neither calls nor messages, and sends nothing. */
  lemma NeutralSingle(v: Calls, y: Calls)
    requires Single(v) && y.calls == v.calls && y.proxies == v.proxies && y.owned == v.owned && y.messages == v.messages
    requires y.requests == v.requests && y.sent == v.sent && y.posted == v.posted && y.inbox <= v.inbox
    ensures Single(y)
  {
    hide Awaited;
    forall q | Awaited(v, q)
      ensures Awaited(y, q)
    {
      LaterAwaited(v, y, q);
    }
    forall m | m in y.inbox
      ensures m in v.inbox && y.inbox[m] == 1
    {
      assert y.inbox[m] <= v.inbox[m];
    }
  }

  /** A message is written that nothing refers to. */
  lemma WrittenSingle(v: Calls, y: Calls, m: nat)
    requires Single(v) && y.calls == v.calls && y.proxies == v.proxies && v.requests <= y.requests
    requires m in y.messages && y.messages == v.messages[m := y.messages[m]]
    requires y.sent == v.sent && y.posted == v.posted && y.inbox == v.inbox && v.inbox[m] == 0
    requires forall u :: u in v.calls ==> v.calls[u].phase != Answered(m)
    requires forall u :: u in y.owned ==> if u == m then y.messages[m].serial !in v.sent else u in v.owned
    ensures Single(y)
  {
    hide Awaited, Inbox, Waits, Unsent;
    forall q | Awaited(v, q)
      ensures Awaited(y, q)
    {
      LaterAwaited(v, y, q);
    }
    WrittenInbox(v, y, m);
    WrittenWaits(v, y, m);
    forall u | u in v.calls
      ensures EndedWell(y, y.calls[u])
    {
      assert EndedWell(v, v.calls[u]);
    }
  }

  lemma WrittenInbox(v: Calls, y: Calls, m: nat)
    requires Inbox(v) && y.posted == v.posted && y.inbox == v.inbox && v.inbox[m] == 0
    requires m in y.messages && y.messages == v.messages[m := y.messages[m]]
    requires forall q :: Awaited(v, q) ==> Awaited(y, q)
    ensures Inbox(y)
  {
    hide Awaited;
    assert forall x :: x in v.inbox ==> x != m;
  }

  lemma WrittenWaits(v: Calls, y: Calls, m: nat)
    requires Waits(v) && Unsent(v) && y.calls == v.calls && y.proxies == v.proxies && v.requests <= y.requests
    requires m in y.messages && y.messages == v.messages[m := y.messages[m]]
    requires y.sent == v.sent && y.posted == v.posted && forall q :: Awaited(v, q) ==> Awaited(y, q)
    requires forall u :: u in y.owned ==> if u == m then y.messages[m].serial !in v.sent else u in v.owned
    ensures Waits(y) && Unsent(y)
  {
    hide Awaited;
  }

  lemma LaterAwaited(v: Calls, y: Calls, q: nat)
    requires Awaited(v, q) && y.calls == v.calls && y.proxies == v.proxies && v.requests <= y.requests
    ensures Awaited(y, q)
  {
  }

  /** A free address is the response of no call. */
  lemma FreeUnanswered(v: Calls, m: nat)
    requires Consistent(v) && m !in v.refs
    ensures v.inbox[m] == 0 && forall u :: u in v.calls ==> v.calls[u].phase != Answered(m)
  {
    hide Linked, Tabled, Counted, Labels, Proxies;
    Unheld(v, m);
  }

  lemma CreatedSingle(v: Calls, u: nat)
    requires Consistent(v) && Single(v) && u !in v.refs
    ensures Single(Created(v, u))
  {
    hide Consistent;
    FreeUnanswered(v, u);
    WrittenSingle(v, Created(v, u), u);
  }

  lemma MadeSingle(v: Calls, serial: nat, m: nat)
    requires Consistent(v) && Single(v) && m !in v.refs && serial < |v.requests|
    ensures Single(Made(v, serial, m))
  {
    hide Consistent;
    FreeUnanswered(v, m);
    Unheld(v, m);
    WrittenSingle(v, Made(v, serial, m), m);
  }

  /** The call u changes, or its proxy, and the others stay awaited. */
  lemma OthersAwaited(v: Calls, y: Calls, u: nat, q: nat)
    requires Awaited(v, q) && v.requests[q] != u && y.requests == v.requests
    requires forall x :: x != u ==> (x in v.calls <==> x in y.calls) && (x in v.proxies <==> x in y.proxies)
    requires forall x :: x in v.calls && x != u ==> y.calls[x] == v.calls[x]
    ensures Awaited(y, q)
  {
  }

  /** Another call has another serial. */
  lemma OtherSerial(v: Calls, u: nat, x: nat)
    requires Consistent(v) && (u in v.calls || u in v.owned) && (x in v.calls || x in v.owned) && u != x
    ensures u in v.messages && x in v.messages && v.messages[u].serial != v.messages[x].serial
  {
    hide Consistent;
    if u in v.owned {
      OwnedLabel(v, u);
    } else {
      CallLabel(v, u);
    }
    if x in v.owned {
      OwnedLabel(v, x);
    } else {
      CallLabel(v, x);
    }
  }

  lemma OwnedLabel(v: Calls, u: nat)
    requires Consistent(v) && u in v.owned
    ensures u in v.messages && v.messages[u].serial < |v.requests| && v.requests[v.messages[u].serial] == u
    ensures u !in v.calls
  {
    hide Linked, Tabled, Stored, Proxies;
    Held(v, u);
  }

  lemma BegunSingle(v: Calls, u: nat, from: nat, n: Node)
    requires Consistent(v) && Single(v) && u in v.owned && u in v.messages
    ensures Single(Begun(v, u, from, n))
  {
    hide Consistent, Awaited;
    OwnedLabel(v, u);
    var y := Begun(v, u, from, n);
    forall q | Awaited(v, q)
      ensures Awaited(y, q)
    {
      AwaitedNot(v, u, q);
      OthersAwaited(v, y, u, q);
    }
  }

  lemma AwaitedNot(v: Calls, u: nat, q: nat)
    requires Awaited(v, q) && (u !in v.calls || u in v.proxies || !v.calls[u].phase.Open? || v.calls[u].serial != q)
    ensures v.requests[q] != u
  {
  }

  lemma SentSingle(v: Calls, u: nat, ret: int)
    requires Consistent(v) && Single(v) && u in v.proxies && u in v.calls && u in v.refs
    ensures Single(Sent(v, u, ret))
  {
    hide Consistent, Awaited, Inbox, Waits, Unsent;
    CallLabel(v, u);
    assert Finds(v, u) && v.calls[u].serial !in v.sent by {
      ProxyUnsent(v, u);
    }
    if ret < 0 {
      RefusedSingle(v, u, ret);
    } else {
      SentAwaited(v, u, ret);
      SentWaits(v, u, ret);
      SentUnsent(v, u, ret);
      forall x | x in v.calls
        ensures EndedWell(Sent(v, u, ret), v.calls[x])
      {
        if x != u {
          OtherSerial(v, u, x);
          CallLabel(v, x);
        }
        assert EndedWell(v, v.calls[x]);
      }
    }
  }

  lemma ProxyUnsent(v: Calls, u: nat)
    requires Unsent(v) && u in v.proxies
    ensures Finds(v, u) && v.calls[u].serial !in v.sent
  {
  }

  lemma RefusedSingle(v: Calls, u: nat, ret: int)
    requires Single(v) && u in v.proxies && u in v.calls && u in v.refs && ret < 0
    ensures Single(Sent(v, u, ret))
  {
    var y := Sent(v, u, ret);
    assert forall q :: Awaited(v, q) ==> Awaited(y, q);
  }

  lemma SentAwaited(v: Calls, u: nat, ret: int)
    requires Finds(v, u) && u in v.refs && ret >= 0
    requires v.calls[u].serial < |v.requests| && v.requests[v.calls[u].serial] == u
    ensures var y := Sent(v, u, ret); Awaited(y, v.calls[u].serial) && forall q :: Awaited(v, q) ==> Awaited(y, q)
    ensures Inbox(v) ==> Inbox(Sent(v, u, ret))
  {
  }

  lemma SentWaits(v: Calls, u: nat, ret: int)
    requires Waits(v) && Finds(v, u) && u in v.refs && ret >= 0 && v.calls[u].serial < |v.requests|
    requires var y := Sent(v, u, ret); Awaited(y, v.calls[u].serial) && forall q :: Awaited(v, q) ==> Awaited(y, q)
    ensures Waits(Sent(v, u, ret))
  {
  }

  lemma SentUnsent(v: Calls, u: nat, ret: int)
    requires Consistent(v) && Unsent(v) && u in v.proxies && u in v.calls && u in v.refs && ret >= 0
    ensures Unsent(Sent(v, u, ret))
  {
    hide Consistent;
    CallLabel(v, u);
    OwnedApart(v, u);
    forall x | x in v.proxies && x != u
      ensures v.calls[x].serial != v.calls[u].serial
    {
      OtherSerial(v, u, x);
      CallLabel(v, x);
    }
    forall x | x in v.owned
      ensures x in v.messages && v.messages[x].serial != v.calls[u].serial
    {
      OtherSerial(v, u, x);
    }
  }

  lemma OwnedApart(v: Calls, u: nat)
    requires Consistent(v) && u in v.calls
    ensures u !in v.owned
  {
    hide Linked, Tabled, Stored, Counted, Labels, Proxies;
  }

  /** One call leaves the open ones, or the calls; no request or response that is on its way belongs to it. */
  lemma LeavingSingle(v: Calls, y: Calls, u: nat)
    requires Single(v) && u in v.calls && y.proxies == v.proxies - {u}
    requires forall x :: x != u ==> (x in v.calls <==> x in y.calls) && (x in v.calls ==> y.calls[x] == v.calls[x])
    requires u in y.calls ==> EndedWell(y, y.calls[u])
    requires y.requests == v.requests && y.messages == v.messages && y.owned == v.owned
    requires y.sent == v.sent && y.posted == v.posted && y.inbox <= v.inbox
    requires v.calls[u].serial in v.sent && v.calls[u].phase.Open? ==> v.calls[u].serial in v.posted
    requires v.calls[u].phase.Open? ==>
               forall m :: m in y.inbox && m in v.messages ==> v.messages[m].serial != v.calls[u].serial
    ensures Single(y)
  {
    hide Awaited, Inbox, Waits, Unsent, EndedWell;
    forall q | Awaited(v, q) && (v.calls[u].phase.Open? ==> q != v.calls[u].serial)
      ensures Awaited(y, q)
    {
      AwaitedNot(v, u, q);
      LeftAwaited(v, y, u, q);
    }
    LeavingInbox(v, y, u);
    LeavingWaits(v, y, u);
    forall x | x in y.calls && x != u
      ensures EndedWell(y, y.calls[x])
    {
      assert EndedWell(v, v.calls[x]);
      SameEnd(v, y, v.calls[x]);
    }
  }

  lemma SameEnd(v: Calls, y: Calls, c: Call)
    requires y.messages == v.messages && y.sent == v.sent && EndedWell(v, c)
    ensures EndedWell(y, c)
  {
  }

  lemma LeavingInbox(v: Calls, y: Calls, u: nat)
    requires Inbox(v) && u in v.calls && y.messages == v.messages && y.posted == v.posted && y.inbox <= v.inbox
    requires v.calls[u].phase.Open? ==>
               forall m :: m in y.inbox && m in v.messages ==> v.messages[m].serial != v.calls[u].serial
    requires forall q :: Awaited(v, q) && (v.calls[u].phase.Open? ==> q != v.calls[u].serial) ==> Awaited(y, q)
    ensures Inbox(y)
  {
    hide Awaited;
    forall m | m in y.inbox
      ensures m in v.inbox && y.inbox[m] == 1
    {
      assert y.inbox[m] <= v.inbox[m];
    }
  }

  lemma LeavingWaits(v: Calls, y: Calls, u: nat)
    requires Waits(v) && Unsent(v) && u in v.calls && y.proxies == v.proxies - {u}
    requires forall x :: x != u ==> (x in v.calls <==> x in y.calls) && (x in v.calls ==> y.calls[x] == v.calls[x])
    requires y.requests == v.requests && y.messages == v.messages && y.owned == v.owned
    requires y.sent == v.sent && y.posted == v.posted
    requires v.calls[u].serial in v.sent && v.calls[u].phase.Open? ==> v.calls[u].serial in v.posted
    requires forall q :: Awaited(v, q) && (v.calls[u].phase.Open? ==> q != v.calls[u].serial) ==> Awaited(y, q)
    ensures Waits(y) && Unsent(y)
  {
    hide Awaited;
  }

  lemma LeftAwaited(v: Calls, y: Calls, u: nat, q: nat)
    requires Awaited(v, q) && v.requests[q] != u && y.requests == v.requests && y.proxies == v.proxies - {u}
    requires forall x :: x != u ==> (x in v.calls <==> x in y.calls) && (x in v.calls ==> y.calls[x] == v.calls[x])
    ensures Awaited(y, q)
  {
  }

  lemma FailedSingle(v: Calls, u: nat, ret: int)
    requires Consistent(v) && Single(v) && u in v.proxies && Finds(v, u) && v.calls[u].node in v.records
    ensures Single(Failed(v, u, ret))
  {
    hide Consistent, Waits;
    var y := Failed(v, u, ret);
    forall m | m in v.inbox && m in v.messages
      ensures v.messages[m].serial != v.calls[u].serial
    {
      assert Awaited(v, v.messages[m].serial);
      CallLabel(v, u);
    }
    LeavingSingle(v, y, u);
  }

  lemma FinishedSingle(v: Calls, u: nat)
    requires Consistent(v) && Single(v) && Ends(v, u) && u !in v.proxies && Counts(v, u)
    ensures Single(Finished(v, u))
  {
    hide Consistent, DecRef, Single;
    assert v.proxies - {u} == v.proxies;
    LeavingSingle(v, Finished(v, u), u);
  }

  lemma PostedSingle(v: Calls, m: nat)
    requires Consistent(v) && Single(v) && m in v.handles && m in v.refs && m in v.messages
    requires v.messages[m].serial in v.sent && v.messages[m].serial !in v.posted
    ensures Single(Posted(v, m))
  {
    hide Consistent, Awaited, IncRef;
    var y := Posted(v, m);
    assert m !in v.inbox;
    assert Awaited(v, v.messages[m].serial);
    forall q | Awaited(v, q)
      ensures Awaited(y, q)
    {
      LaterAwaited(v, y, q);
    }
  }

  /** What a response on its way finds is its own call. */
  lemma InboxOwn(v: Calls, m: nat)
    requires Consistent(v) && Single(v) && m in v.inbox
    ensures m in v.messages && FindsOwn(v, m) && v.messages[m].uuid !in v.proxies
    ensures v.messages[m].serial in v.posted && v.messages[m].serial in v.sent
  {
    hide Consistent;
    InboxHeld(v, m);
  }

  lemma DeliveredSingle(v: Calls, m: nat)
    requires Consistent(v) && Single(v) && m in v.inbox && m in v.refs && m in v.messages
    requires v.messages[m].uuid in v.calls && v.calls[v.messages[m].uuid].node in v.records
    ensures Single(Delivered(v, m))
  {
    hide Consistent, IncRef, Awaited;
    InboxOwn(v, m);
    var y, u := Delivered(v, m), v.messages[m].uuid;
    assert v.proxies - {u} == v.proxies;
    LeavingSingle(v, y, u);
  }

  lemma SingleStep(v: Calls, a: Action)
    requires Consistent(v) && Single(v) && Enabled(v, a) && Once(v, a)
    ensures Single(Next(v, a))
  {
    hide Consistent, Single;
    match a
    case Create(u) => CreatedSingle(v, u);
    case Begin(u, from, n) => BegunSingle(v, u, from, n);
    case Send(u, r) => SentSingle(v, u, SendReq(r));
    case Fail(u) => FailedSingle(v, u, v.proxies[u].error);
    case Resume(from) => NeutralSingle(v, Woken(v, from));
    case Respond(serial, m) => MadeSingle(v, serial, m);
    case Reply(m, r) =>
      if SendRsp(r) >= 0 {
        PostedSingle(v, m);
      }
    case Handle(m) => DeliveredSingle(v, m);
    case Discard(m) => NeutralSingle(v, Discarded(v, m));
    case Release(m) => NeutralSingle(v, Released(v, m));
    case Keep(m) => NeutralSingle(v, Kept(v, m));
    case Drop(m) => NeutralSingle(v, Dropped(v, m));
    case Finalize(u) =>
      if Ends(v, u) {
        FinishedSingle(v, u);
      }
  }

  lemma {:induction false} RunSingle(vs: seq<Calls>, as_: seq<Action>, k: nat)
    requires Run(vs, as_) && AnsweredOnce(vs, as_) && k < |vs|
    ensures Single(vs[k]) && Consistent(vs[k])
  {
    hide Run, Consistent, Single, Enabled, Next, Once;
    RunStart(vs, as_);
    RunConsistent(vs, as_, k);
    if k == 0 {
      EmptySingle();
    } else {
      RunSingle(vs, as_, k - 1);
      RunStep(vs, as_, k - 1);
      SingleStep(vs[k - 1], as_[k - 1]);
    }
  }

  lemma EmptySingle()
    ensures Single(Empty())
  {
  }

  /**
   When every request is answered at most once, each response on its way finds
   the open call of the request that it was created from.
   */
  lemma ResponsesFindTheirCalls(vs: seq<Calls>, as_: seq<Action>, k: nat, m: nat)
    requires Run(vs, as_) && AnsweredOnce(vs, as_) && k < |vs| && m in vs[k].inbox
    ensures m in vs[k].messages && FindsOwn(vs[k], m)
  {
    hide Run, AnsweredOnce, Consistent, Single;
    RunSingle(vs, as_, k);
    InboxOwn(vs[k], m);
  }

  /**
   Then no step meets an unexpected table: the record that a response looks for
   is pending, and so is the one that a failed send moves.
   */
  lemma NothingUnexpected(vs: seq<Calls>, as_: seq<Action>, k: nat, a: Action)
    requires Run(vs, as_) && AnsweredOnce(vs, as_) && k < |vs| && Ready(vs[k], a)
    ensures Enabled(vs[k], a)
  {
    hide Run, AnsweredOnce, Consistent, Single, Alive;
    RunSingle(vs, as_, k);
    ReadyAlive(vs[k], a);
    match a
    case Handle(m) => InboxOwn(vs[k], m);
    case Fail(u) => SinglePending(vs[k], u);
    case _ =>
  }

  lemma SinglePending(v: Calls, u: nat)
    requires Single(v) && u in v.proxies
    ensures Finds(v, u)
  {
  }

  /**
   And a call ends with the response that was created from its own request when
   the send has succeeded, and with an error when it has failed.
   */
  lemma OwnResponse(vs: seq<Calls>, as_: seq<Action>, k: nat, u: nat)
    requires Run(vs, as_) && AnsweredOnce(vs, as_) && k < |vs| && Ends(vs[k], u)
    ensures var (v, c) := (vs[k], vs[k].calls[u]);
            && (c.phase.Answered? <==> c.serial in v.sent) && (c.phase.Broken? <==> c.serial !in v.sent)
            && (c.phase.Answered? ==>
                  && c.phase.rsp in v.messages && Counts(v, c.phase.rsp) && !v.messages[c.phase.rsp].req
                  && v.messages[c.phase.rsp].serial == c.serial && v.messages[c.phase.rsp].uuid == u)
    ensures var (v, c) := (vs[k], vs[k].calls[u]);
            c.phase.Answered? ==> exists l :: 0 <= l < k && as_[l] == Respond(c.serial, c.phase.rsp)
  {
    hide Run, AnsweredOnce, Consistent, Inbox, Waits, Unsent;
    RunSingle(vs, as_, k);
    var c := vs[k].calls[u];
    assert EndedWell(vs[k], c);
    if c.phase.Answered? {
      AnsweredLabel(vs[k], u);
      MadeBy(vs, as_, k, c.phase.rsp);
    }
  }

  lemma AnsweredLabel(v: Calls, u: nat)
    requires Consistent(v) && u in v.calls && v.calls[u].phase.Answered?
    ensures var m := v.calls[u].phase.rsp;
            m in v.stored && Counts(v, m) && m in v.messages && !v.messages[m].req && v.messages[m].uuid == u
  {
    hide Linked, Tabled, Proxies;
    Held(v, v.calls[u].phase.rsp);
  }

  /** A response was created from the request whose serial it has. */
  lemma {:induction false} MadeBy(vs: seq<Calls>, as_: seq<Action>, k: nat, m: nat)
    requires Run(vs, as_) && k < |vs| && m in vs[k].messages && !vs[k].messages[m].req
    ensures exists l :: 0 <= l < k && as_[l] == Respond(vs[k].messages[m].serial, m)
  {
    hide Run, Enabled, Next;
    RunStart(vs, as_);
    if k > 0 {
      RunStep(vs, as_, k - 1);
      NextWrites(vs[k - 1], as_[k - 1], m);
      if as_[k - 1] != Respond(vs[k].messages[m].serial, m) {
        MadeBy(vs, as_, k - 1, m);
      }
    }
  }

  lemma NextWrites(v: Calls, a: Action, m: nat)
    requires Enabled(v, a) && m in Next(v, a).messages && !Next(v, a).messages[m].req
    ensures a == Respond(Next(v, a).messages[m].serial, m)
            || (m in v.messages && v.messages[m] == Next(v, a).messages[m])
  {
    hide Enabled, Next;
    match a
    case Create(u) => CreateWrites(v, u);
    case Respond(q, x) => RespondWrites(v, q, x);
    case _ => NothingWritten(v, a);
  }

  lemma CreateWrites(v: Calls, u: nat)
    requires Enabled(v, Create(u))
    ensures Next(v, Create(u)).messages == v.messages[u := Message(u, true, 0, 0, |v.requests|)]
  {
  }

  lemma RespondWrites(v: Calls, q: nat, m: nat)
    requires Enabled(v, Respond(q, m))
    ensures q < |v.requests|
    ensures Next(v, Respond(q, m)).messages == v.messages[m := Message(v.requests[q], false, 0, 0, q)]
  {
  }

  lemma NothingWritten(v: Calls, a: Action)
    requires Enabled(v, a) && !a.Create? && !a.Respond?
    ensures Next(v, a).messages == v.messages
  {
    hide Sent, Failed, Delivered, Finished, Posted, Discarded, Released, Kept, Dropped, SendReq, SendRsp;
    match a
    case Send(u, r) => SentFields(v, u, SendReq(r));
    case Fail(u) => FailedFields(v, u, v.proxies[u].error);
    case Reply(m, r) =>
      if SendRsp(r) >= 0 {
        PostedFrame(v, m);
      }
    case Handle(m) => DeliveredFields(v, m);
    case Finalize(u) =>
      if Ends(v, u) {
        FinishedFields(v, u);
      }
    case Begin(_, _, _) =>
    case Resume(_) =>
    case Discard(m) => CountFrame(v, m);
    case Release(m) => CountFrame(v, m);
    case Drop(m) => CountFrame(v, m);
    case Keep(m) => KeptFrame(v, m);
  }

  lemma PostedFrame(v: Calls, m: nat)
    requires m in v.refs && m in v.messages
    ensures SameButCounts(v, Posted(v, m))
  {
    hide IncRef;
  }

  /** Steps of counts and queues alone. */
  lemma CountFrame(v: Calls, m: nat)
    requires Counts(v, m)
    ensures SameButCounts(v, Discarded(v, m)) && SameButCounts(v, Released(v, m)) && SameButCounts(v, Dropped(v, m))
  {
    hide DecRef;
  }

  lemma KeptFrame(v: Calls, m: nat)
    requires m in v.refs
    ensures SameButCounts(v, Kept(v, m))
  {
    hide IncRef;
  }

  predicate SameButCounts(v: Calls, y: Calls)
  {
    y.messages == v.messages && y.calls == v.calls && y.records == v.records && y.parked == v.parked
  }

  // ---------- When the caller is resumed by the response only ----------

  /** Nobody else resumes a service whose call is open. */
  ghost predicate Undisturbing(v: Calls, a: Action)
  {
    a.Resume? ==> forall u :: Finds(v, u) && v.calls[u].node in v.records ==> v.records[v.calls[u].node].from != a.from
  }

  ghost predicate Undisturbed(vs: seq<Calls>, as_: seq<Action>)
  {
    |vs| == |as_| + 1 && forall k :: 0 <= k < |as_| ==> Undisturbing(vs[k], as_[k])
  }

  predicate From(v: Calls, u: nat, from: nat)
  {
    Finds(v, u) && v.calls[u].node in v.records && v.records[v.calls[u].node].from == from
  }

  /** The callers of the open calls are parked, each for one of them. */
  ghost predicate Parked(v: Calls)
  {
    && (forall u, from :: From(v, u, from) ==> from in v.parked)
    && (forall u, x, from :: From(v, u, from) && From(v, x, from) ==> u == x)
  }

  lemma SameParked(v: Calls, y: Calls)
    requires Parked(v) && y.parked == v.parked && y.calls == v.calls && y.records == v.records
    ensures Parked(y)
  {
    assert forall u, from :: From(y, u, from) ==> From(v, u, from);
  }

  lemma FinishedParked(v: Calls, u: nat)
    requires Parked(v) && Ends(v, u) && Counts(v, u)
    ensures Parked(Finished(v, u))
  {
    hide DecRef;
    assert forall x, from :: From(Finished(v, u), x, from) ==> From(v, x, from);
  }

  lemma BegunParked(v: Calls, u: nat, from: nat, n: Node)
    requires Consistent(v) && Parked(v) && u in v.owned && u in v.messages && from !in v.parked && n !in v.records
    ensures Parked(Begun(v, u, from, n))
  {
    hide Tabled, Stored, Counted, Labels, Proxies;
    var y := Begun(v, u, from, n);
    forall x, f | From(y, x, f)
      ensures if x == u then f == from else From(v, x, f)
    {
    }
  }

  /** The call u ends, and its caller is resumed. */
  lemma EndsParked(v: Calls, u: nat, y: Calls)
    requires Parked(v) && Finds(v, u) && v.calls[u].node in v.records
    requires y.parked == v.parked - {v.records[v.calls[u].node].from}
    requires forall x, f :: From(y, x, f) ==> x != u && From(v, x, f)
    ensures Parked(y)
  {
    assert From(v, u, v.records[v.calls[u].node].from);
  }

  lemma FailedFrom(v: Calls, u: nat, ret: int)
    requires Consistent(v) && Finds(v, u) && v.calls[u].node in v.records
    ensures forall x, f :: From(Failed(v, u, ret), x, f) ==> x != u && From(v, x, f)
  {
    hide Tabled, Stored, Counted, Labels, Proxies;
    NodesApart(v, u);
  }

  lemma DeliveredFrom(v: Calls, m: nat)
    requires Consistent(v) && m in v.refs && m in v.messages && Finds(v, v.messages[m].uuid)
    requires v.calls[v.messages[m].uuid].node in v.records
    ensures forall x, f :: From(Delivered(v, m), x, f) ==> x != v.messages[m].uuid && From(v, x, f)
  {
    hide Tabled, Stored, Counted, Labels, Proxies, IncRef;
    NodesApart(v, v.messages[m].uuid);
  }

  lemma ParkedStep(v: Calls, a: Action)
    requires Consistent(v) && Parked(v) && Enabled(v, a) && Undisturbing(v, a)
    ensures Parked(Next(v, a))
  {
    hide Consistent, IncRef, DecRef, Parked, From, Undisturbing;
    match a
    case Begin(u, from, n) => BegunParked(v, u, from, n);
    case Fail(u) =>
      FailedFrom(v, u, v.proxies[u].error);
      EndsParked(v, u, Next(v, a));
    case Handle(m) =>
      DeliveredFrom(v, m);
      EndsParked(v, v.messages[m].uuid, Next(v, a));
    case Resume(from) => WokenParked(v, from);
    case Finalize(u) =>
      if Ends(v, u) {
        FinishedParked(v, u);
      }
    case _ =>
      CallsStay(v, a);
      SameParked(v, Next(v, a));
  }

  lemma CallsStay(v: Calls, a: Action)
    requires Enabled(v, a) && !a.Begin? && !a.Fail? && !a.Handle? && !a.Finalize? && !a.Resume?
    ensures var y := Next(v, a); y.parked == v.parked && y.calls == v.calls && y.records == v.records
  {
    hide Sent, Posted, Discarded, Released, Kept, Dropped, SendReq, SendRsp;
    match a
    case Send(u, r) => SentFields(v, u, SendReq(r));
    case Reply(m, r) =>
      if SendRsp(r) >= 0 {
        PostedFrame(v, m);
      }
    case Create(_) =>
    case Respond(_, _) =>
    case Discard(m) => CountFrame(v, m);
    case Release(m) => CountFrame(v, m);
    case Drop(m) => CountFrame(v, m);
    case Keep(m) => KeptFrame(v, m);
  }

  lemma WokenParked(v: Calls, from: nat)
    requires Parked(v) && Undisturbing(v, Resume(from))
    ensures Parked(Woken(v, from))
  {
    forall u, f | From(Woken(v, from), u, f)
      ensures From(v, u, f) && f != from
    {
    }
  }

  /** The resume that the response handler asserts succeeds, when nobody else resumes the caller of an open call. */
  lemma {:induction false} ResumeSucceeds(vs: seq<Calls>, as_: seq<Action>, k: nat)
    requires Run(vs, as_) && Undisturbed(vs, as_) && k < |vs|
    ensures Parked(vs[k])
    ensures forall u :: Finds(vs[k], u) && vs[k].calls[u].node in vs[k].records ==>
              vs[k].records[vs[k].calls[u].node].from in vs[k].parked
  {
    hide Run, Consistent, Parked, Enabled, Next, Undisturbing;
    RunStart(vs, as_);
    if k == 0 {
      EmptyParked();
    } else {
      RunConsistent(vs, as_, k - 1);
      ResumeSucceeds(vs, as_, k - 1);
      RunStep(vs, as_, k - 1);
      ParkedStep(vs[k - 1], as_[k - 1]);
    }
    CallersParked(vs[k]);
  }

  lemma EmptyParked()
    ensures Parked(Empty())
  {
  }

  lemma CallersParked(v: Calls)
    requires Parked(v)
    ensures forall u :: Finds(v, u) && v.calls[u].node in v.records ==> v.records[v.calls[u].node].from in v.parked
  {
    forall u | Finds(v, u) && v.calls[u].node in v.records
      ensures v.records[v.calls[u].node].from in v.parked
    {
      assert From(v, u, v.records[v.calls[u].node].from);
    }
  }
}
