/**
 The calls of powerpack message.c as values: a service sends a request and is
 parked until the response, which is found again by the identity of the
 request. The identity is the address of the request message, so it is unique
 only while the message is alive.
 */
module Calls {
  import opened Errno
  import opened Messages
  import opened Trees
  import opened Wrappers

  /**
   A message: its identity, whether it is a request, its receipt and token. No
   code reads serial, which numbers the requests: that of a request is its own,
   that of a response is the one of the request it was created from.
   */
  datatype Message = Message(uuid: nat, req: bool, receipt: int, token: int, serial: nat)

  /** pp_message_record_t. */
  datatype Record = Record(uuid: nat, req: nat, rsp: Option<nat>, from: nat, ret: int)

  /** What has become of a call: nothing yet, the response, or the error of the send. */
  datatype Phase = Open | Answered(rsp: nat) | Broken(error: int)

  datatype Call = Call(node: Node, serial: nat, phase: Phase)

  /** Where eaf_message_internal_proxy is, before its send or before its error path. */
  datatype Proxy = AtSend | AtFailure(error: int)

  /**
   The records by their map nodes, and the keys of the two tables. What was
   last written to each message. The services that are parked on a yield, the
   calls under way by their identities, and those whose proxy has not returned.
   Who refers to which message: user code with a request that it has not called
   yet (owned), a call with its request, a queue record, one that still waits
   for the response handler (inbox), user code otherwise (handles), or a record
   with its response (stored leads to the call). The last three fields are
   history: the identities of all requests by their serials, and the serials of
   those that were sent, and of those to which a response was sent.
   */
  datatype Calls = Calls(records: map<Node, Record>, pend: map<Node, int>, ready: map<Node, int>,
                         messages: map<nat, Message>, parked: set<nat>, calls: map<nat, Call>,
                         proxies: map<nat, Proxy>, owned: set<nat>, queued: multiset<nat>, inbox: multiset<nat>,
                         handles: multiset<nat>, stored: map<nat, nat>, refs: map<nat, nat>,
                         requests: seq<nat>, sent: set<nat>, posted: set<nat>)

  /** What a send finds at its receiver: the state of the context, the service, its handler, its queue. */
  datatype Receiver = Receiver(running: bool, found: bool, handled: bool, queued: nat, capacity: nat, exiting: bool)

  /** The result of eaf_send_req. */
  function SendReq(r: Receiver): int
  {
    if !r.running then STATE
    else if !r.found || !r.handled then NOTFOUND
    else if r.queued >= r.capacity then OVERFLOW
    else if r.exiting then STATE
    else SUCCESS
  }

  /** The result of eaf_send_rsp: no handler is looked up, and the capacity does not count. */
  function SendRsp(r: Receiver): int
  {
    if !r.running then STATE else if !r.found then NOTFOUND else if r.exiting then STATE else SUCCESS
  }

  /** Before the end of a call its record is pending, with nothing in it. */
  predicate Pending(p: Phase, r: Record)
  {
    p.Open? && r.rsp == None && r.ret == SUCCESS
  }

  /** At the end it is ready, with the response or the error. */
  predicate Ended(p: Phase, r: Record)
  {
    || (p.Answered? && r.rsp == Some(p.rsp) && r.ret == SUCCESS)
    || (p.Broken? && r.rsp == None && r.ret == p.error < 0)
  }

  function One(b: bool): nat
  {
    if b then 1 else 0
  }

  /** The references to the message m. */
  function Holders(v: Calls, m: nat): nat
  {
    One(m in v.owned) + One(m in v.calls) + v.queued[m] + v.inbox[m] + v.handles[m] + One(m in v.stored)
  }

  /** Calls and records go together, one to one. */
  ghost predicate Matched(v: Calls)
  {
    && (forall u :: u in v.calls ==>
          && v.calls[u].node in v.records && v.records[v.calls[u].node].uuid == v.records[v.calls[u].node].req == u)
    && (forall n :: n in v.records ==> v.records[n].uuid in v.calls && v.calls[v.records[n].uuid].node == n)
  }

  ghost predicate Linked(v: Calls)
  {
    Matched(v) && v.pend.Keys <= v.records.Keys && v.ready.Keys <= v.records.Keys
  }

  /** The record of call u is in exactly one table, as the phase of the call says. */
  ghost predicate Tabled(v: Calls, u: nat)
    requires Matched(v) && u in v.calls
  {
    var (n, p) := (v.calls[u].node, v.calls[u].phase);
    if Pending(p, v.records[n]) then n in v.pend && v.pend[n] == u && n !in v.ready
    else Ended(p, v.records[n]) && n in v.ready && v.ready[n] == u && n !in v.pend
  }

  /** The responses that records hold are those of the answered calls. */
  ghost predicate Stored(v: Calls)
  {
    && (forall m :: m in v.stored ==> v.stored[m] in v.calls && v.calls[v.stored[m]].phase == Answered(m))
    && (forall u :: u in v.calls && v.calls[u].phase.Answered? ==>
          v.calls[u].phase.rsp in v.stored && v.stored[v.calls[u].phase.rsp] == u)
  }

  ghost predicate Counted(v: Calls)
  {
    forall m :: if m in v.refs then v.refs[m] == Holders(v, m) > 0 else Holders(v, m) == 0
  }

  /** A message has the identity of its request, which is the address of that one. */
  predicate Labelled(messages: map<nat, Message>, requests: seq<nat>, m: nat)
  {
    && m in messages && messages[m].serial < |requests| && requests[messages[m].serial] == messages[m].uuid
    && (messages[m].req ==> messages[m].uuid == m)
  }

  ghost predicate Labels(v: Calls)
  {
    && (forall m :: m in v.refs ==> Labelled(v.messages, v.requests, m))
    && (forall u :: u in v.owned || u in v.calls ==> u in v.messages && v.messages[u].req)
    && (forall u :: u in v.calls ==> v.calls[u].serial == v.messages[u].serial)
    && (forall m :: m in v.inbox ==> m in v.messages && !v.messages[m].req)
    && (forall m :: m in v.stored ==> m in v.messages && !v.messages[m].req && v.messages[m].uuid == v.stored[m])
  }

  ghost predicate Proxies(v: Calls)
  {
    forall u :: u in v.proxies ==> u in v.calls && (v.proxies[u].AtFailure? ==> v.proxies[u].error < 0)
  }

  ghost predicate Consistent(v: Calls)
  {
    && Linked(v) && (forall u :: u in v.calls ==> Tabled(v, u))
    && v.owned !! v.calls.Keys && Stored(v) && Counted(v) && Labels(v) && Proxies(v)
  }

  // ---------- The steps ----------

  datatype Action =
    | Create(u: nat)
    | Begin(u: nat, from: nat, n: Node)
    | Send(u: nat, r: Receiver)
    | Fail(u: nat)
    | Resume(from: nat)
    | Respond(serial: nat, m: nat)
    | Reply(m: nat, r: Receiver)
    | Handle(m: nat)
    | Discard(m: nat)
    | Release(m: nat)
    | Keep(m: nat)
    | Drop(m: nat)
    | Finalize(u: nat)

  /** A record for the identity u is in the pending table. */
  predicate Finds(v: Calls, u: nat)
  {
    u in v.calls && v.calls[u].phase.Open?
  }

  /** A record for the identity u is in the ready table. */
  predicate Ends(v: Calls, u: nat)
  {
    u in v.calls && !v.calls[u].phase.Open?
  }

  /**
   A thread may take the step. The allocator returns free addresses, a service
   that yields is not parked, the thread of the proxy is the one that will
   finalize the call, and a response may be created whenever the identity of a
   request is known, from the request or from a copy of it.
   */
  predicate Ready(v: Calls, a: Action)
  {
    match a
    case Create(u) => u !in v.refs
    case Begin(u, from, n) => u in v.owned && from !in v.parked && n !in v.records
    case Send(u, _) => u in v.proxies && v.proxies[u].AtSend?
    case Fail(u) => u in v.proxies && v.proxies[u].AtFailure?
    case Resume(_) => true
    case Respond(q, m) => q < |v.requests| && m !in v.refs
    case Reply(m, _) => m in v.handles && m in v.messages && !v.messages[m].req
    case Handle(m) => m in v.inbox
    case Discard(m) => m in v.inbox
    case Release(m) => m in v.queued
    case Keep(m) => m in v.refs
    case Drop(m) => m in v.handles
    case Finalize(u) => u !in v.proxies
  }

  predicate Counts(v: Calls, m: nat)
  {
    m in v.refs && v.refs[m] > 0
  }

  /** The messages and the records that the step uses exist. */
  predicate Alive(v: Calls, a: Action)
  {
    match a
    case Begin(u, _, _) => u in v.refs && u in v.messages
    case Send(u, _) => u in v.calls && u in v.refs
    case Fail(u) => u in v.calls && v.calls[u].node in v.records
    case Reply(m, _) => m in v.refs
    case Handle(m) =>
      m in v.refs && m in v.messages && (Finds(v, v.messages[m].uuid) ==> v.calls[v.messages[m].uuid].node in v.records)
    case Discard(m) => Counts(v, m)
    case Release(m) => Counts(v, m)
    case Drop(m) => Counts(v, m)
    case Finalize(u) => Ends(v, u) ==> Counts(v, u) && v.calls[u].node in v.records
    case _ => true
  }

  /** A record that leaves the pending table is in it: the handler asserts so, the error path of the proxy trusts so. */
  predicate Expected(v: Calls, a: Action)
  {
    match a
    case Fail(u) => Finds(v, u)
    case Handle(m) => m in v.messages && Finds(v, v.messages[m].uuid)
    case _ => true
  }

  predicate Enabled(v: Calls, a: Action)
  {
    Ready(v, a) && Alive(v, a) && Expected(v, a)
  }

  function Empty(): Calls
  {
    Calls(map[], map[], map[], map[], {}, map[], map[], {}, multiset{}, multiset{}, multiset{}, map[], map[], [], {},
      {})
  }

  /** eaf_msg_create_req. */
  function Created(v: Calls, u: nat): Calls
  {
    v.(messages := v.messages[u := Message(u, true, 0, 0, |v.requests|)], requests := v.requests + [u],
       owned := v.owned + {u}, refs := v.refs[u := 1])
  }

  /** The service from has yielded, and its request u is called. */
  function Begun(v: Calls, u: nat, from: nat, n: Node): Calls
    requires u in v.messages
  {
    v.(records := v.records[n := Record(u, u, None, from, SUCCESS)], pend := v.pend[n := u],
       calls := v.calls[u := Call(n, v.messages[u].serial, Open)], proxies := v.proxies[u := AtSend],
       parked := v.parked + {from}, owned := v.owned - {u})
  }

  /** The request is queued, with a reference of its own, or refused with an error. */
  function Sent(v: Calls, u: nat, ret: int): Calls
    requires u in v.calls && u in v.refs
  {
    if ret < 0 then v.(proxies := v.proxies[u := AtFailure(ret)])
    else v.(proxies := v.proxies - {u}, queued := v.queued + multiset{u}, refs := IncRef(v.refs, u),
            sent := v.sent + {v.calls[u].serial})
  }

  /** The record of u goes over to the ready table. */
  function Moved(v: Calls, u: nat, r: Record, p: Phase): Calls
    requires u in v.calls
  {
    var n := v.calls[u].node;
    v.(calls := v.calls[u := v.calls[u].(phase := p)], records := v.records[n := r], pend := v.pend - {n},
       ready := v.ready[n := u])
  }

  function Woken(v: Calls, from: nat): Calls
  {
    v.(parked := v.parked - {from})
  }

  /** The error path of the proxy, which has the error ret. */
  function Failed(v: Calls, u: nat, ret: int): Calls
    requires u in v.calls && v.calls[u].node in v.records
  {
    var r := v.records[v.calls[u].node];
    Woken(Moved(v, u, r.(ret := ret), Broken(ret)).(proxies := v.proxies - {u}), r.from)
  }

  /** eaf_msg_create_rsp, from the request with the given serial. */
  function Made(v: Calls, serial: nat, m: nat): Calls
    requires serial < |v.requests|
  {
    v.(messages := v.messages[m := Message(v.requests[serial], false, 0, 0, serial)],
       handles := v.handles + multiset{m}, refs := v.refs[m := 1])
  }

  /** The response m is queued for the message service. */
  function Posted(v: Calls, m: nat): Calls
    requires m in v.refs && m in v.messages
  {
    v.(inbox := v.inbox + multiset{m}, refs := IncRef(v.refs, m), posted := v.posted + {v.messages[m].serial})
  }

  /** The response m is handled: it comes to the record of the call with its identity, and the caller is resumed. */
  function Delivered(v: Calls, m: nat): Calls
    requires m in v.refs && m in v.messages && v.messages[m].uuid in v.calls
    requires v.calls[v.messages[m].uuid].node in v.records
  {
    var u := v.messages[m].uuid;
    var r := v.records[v.calls[u].node];
    Woken(Moved(v, u, r.(rsp := Some(m)), Answered(m)).(
            stored := v.stored[m := u], refs := IncRef(v.refs, m),
            inbox := v.inbox - multiset{m}, queued := v.queued + multiset{m}), r.from)
  }

  function Discarded(v: Calls, m: nat): Calls
    requires Counts(v, m)
  {
    v.(inbox := v.inbox - multiset{m}, refs := DecRef(v.refs, m))
  }

  function Released(v: Calls, m: nat): Calls
    requires Counts(v, m)
  {
    v.(queued := v.queued - multiset{m}, refs := DecRef(v.refs, m))
  }

  function Kept(v: Calls, m: nat): Calls
    requires m in v.refs
  {
    v.(handles := v.handles + multiset{m}, refs := IncRef(v.refs, m))
  }

  function Dropped(v: Calls, m: nat): Calls
    requires Counts(v, m)
  {
    v.(handles := v.handles - multiset{m}, refs := DecRef(v.refs, m))
  }

  /** The call is over: the record and its reference to the request go, the response passes to the caller. */
  function Finished(v: Calls, u: nat): Calls
    requires u in v.calls && Counts(v, u)
  {
    var (n, p) := (v.calls[u].node, v.calls[u].phase);
    v.(records := v.records - {n}, ready := v.ready - {n}, calls := v.calls - {u}, refs := DecRef(v.refs, u),
       stored := if p.Answered? then v.stored - {p.rsp} else v.stored,
       handles := if p.Answered? then v.handles + multiset{p.rsp} else v.handles)
  }

  function Next(v: Calls, a: Action): Calls
    requires Enabled(v, a)
  {
    match a
    case Create(u) => Created(v, u)
    case Begin(u, from, n) => Begun(v, u, from, n)
    case Send(u, r) => Sent(v, u, SendReq(r))
    case Fail(u) => Failed(v, u, v.proxies[u].error)
    case Resume(from) => Woken(v, from)
    case Respond(serial, m) => Made(v, serial, m)
    case Reply(m, r) => if SendRsp(r) < 0 then v else Posted(v, m)
    case Handle(m) => Delivered(v, m)
    case Discard(m) => Discarded(v, m)
    case Release(m) => Released(v, m)
    case Keep(m) => Kept(v, m)
    case Drop(m) => Dropped(v, m)
    case Finalize(u) => if Ends(v, u) then Finished(v, u) else v
  }

  // ---------- What the steps keep ----------

  /** From v to y only call u and its record at n change. */
  ghost predicate OnlyCall(v: Calls, y: Calls, u: nat, n: Node)
  {
    && (forall x :: x in v.calls.Keys + y.calls.Keys && x != u ==>
          x in v.calls && x in y.calls && y.calls[x] == v.calls[x])
    && (forall m: Node :: m in v.records.Keys + y.records.Keys && m != n ==>
          m in v.records && m in y.records && y.records[m] == v.records[m])
    && (forall m: Node :: m in v.pend.Keys + y.pend.Keys && m != n ==>
          m in v.pend && m in y.pend && y.pend[m] == v.pend[m])
    && (forall m: Node :: m in v.ready.Keys + y.ready.Keys && m != n ==>
          m in v.ready && m in y.ready && y.ready[m] == v.ready[m])
  }

  lemma OthersTabled(v: Calls, y: Calls, u: nat, n: Node)
    requires Consistent(v) && OnlyCall(v, y, u, n) && Matched(y)
    requires forall x :: x in v.calls && x != u ==> v.calls[x].node != n
    ensures forall x :: x in y.calls && x != u ==> Tabled(y, x)
  {
    hide Consistent, OnlyCall, Tabled;
    forall x | x in y.calls && x != u
      ensures Tabled(y, x)
    {
      OtherTabled(v, y, u, n, x);
    }
  }

  lemma OtherTabled(v: Calls, y: Calls, u: nat, n: Node, x: nat)
    requires Consistent(v) && OnlyCall(v, y, u, n) && Matched(y) && x in y.calls && x != u
    requires x in v.calls ==> v.calls[x].node != n
    ensures Tabled(y, x)
  {
    hide Counted, Pending, Ended, Stored, Labels, Proxies;
    assert Tabled(v, x);
  }

  lemma SameTables(v: Calls, y: Calls)
    requires Consistent(v) && y.records == v.records && y.pend == v.pend && y.ready == v.ready && y.calls == v.calls
    ensures Linked(y) && forall x :: x in y.calls ==> Tabled(y, x)
    ensures y.stored == v.stored ==> Stored(y)
  {
    hide Counted, Labels, Proxies;
    forall x | x in y.calls
      ensures Tabled(y, x)
    {
      assert Tabled(v, x);
    }
  }

  lemma SameHolders(v: Calls, y: Calls)
    requires Counted(v) && y.refs == v.refs && forall x :: Holders(y, x) == Holders(v, x)
    ensures Counted(y)
  {
    hide Holders;
  }

  /** The message m gains a reference and a holder. */
  lemma MoreHolders(v: Calls, y: Calls, m: nat)
    requires Counted(v) && m in v.refs && y.refs == IncRef(v.refs, m)
    requires forall x :: Holders(y, x) == Holders(v, x) + One(x == m)
    ensures Counted(y)
  {
    hide Holders;
  }

  lemma NewHolder(v: Calls, y: Calls, m: nat)
    requires Counted(v) && m !in v.refs && y.refs == v.refs[m := 1]
    requires forall x :: Holders(y, x) == Holders(v, x) + One(x == m)
    ensures Counted(y)
  {
    hide Holders;
  }

  lemma FewerHolders(v: Calls, y: Calls, m: nat)
    requires Counted(v) && Counts(v, m) && y.refs == DecRef(v.refs, m)
    requires forall x :: Holders(y, x) == Holders(v, x) - One(x == m)
    ensures Counted(y)
  {
    hide Holders;
  }

  /** A message that is not alive has no holder. */
  lemma Unheld(v: Calls, m: nat)
    requires Consistent(v) && m !in v.refs
    ensures m !in v.calls && m !in v.owned && m !in v.stored
    ensures v.queued[m] == 0 && v.inbox[m] == 0 && v.handles[m] == 0
  {
    hide Linked, Tabled, Stored, Labels, Proxies;
    assert Holders(v, m) == 0;
  }

  /** A message with a holder is alive. */
  lemma Held(v: Calls, m: nat)
    requires Consistent(v) && Holders(v, m) > 0
    ensures Counts(v, m) && Labelled(v.messages, v.requests, m)
  {
    hide Linked, Tabled, Stored, Holders, Proxies;
  }

  /** Labels stay when messages are not written, and nothing new is linked that was not labelled. */
  lemma SameLabels(v: Calls, y: Calls)
    requires Labels(v) && y.messages == v.messages && y.requests == v.requests && y.refs.Keys <= v.refs.Keys
    requires forall u :: u in y.owned || u in y.calls ==> u in v.owned || u in v.calls
    requires forall u :: u in y.calls ==> u in v.messages && y.calls[u].serial == v.messages[u].serial
    requires forall m :: m in y.inbox ==> m in v.inbox || (m in v.messages && !v.messages[m].req)
    requires forall m :: m in y.stored ==>
               m in v.messages && !v.messages[m].req && v.messages[m].uuid == y.stored[m]
    ensures Labels(y)
  {
    hide Labelled;
  }

  /** A new request has an address that no live message has, so no call under way has its identity. */
  lemma CreatedIsNew(v: Calls, u: nat)
    requires Consistent(v) && u !in v.refs
    ensures u !in v.calls && u !in v.owned && Consistent(Created(v, u))
  {
    hide Linked, Counted, Stored, Tabled, Labels;
    Unheld(v, u);
    NewHolder(v, Created(v, u), u);
    SameTables(v, Created(v, u));
    CreatedLabels(v, u);
  }

  lemma CreatedLabels(v: Calls, u: nat)
    requires Labels(v) && u !in v.refs && u !in v.calls && u !in v.owned && u !in v.stored && v.inbox[u] == 0
    ensures Labels(Created(v, u))
  {
    WrittenLabels(v, Created(v, u), u);
  }

  /** The message m is written, which nothing refers to but its new owner. */
  lemma WrittenLabels(v: Calls, y: Calls, m: nat)
    requires Labels(v) && m !in v.refs && m !in v.calls && m !in v.stored && v.inbox[m] == 0
    requires m in y.messages && y.messages == v.messages[m := y.messages[m]] && v.requests <= y.requests
    requires Labelled(y.messages, y.requests, m) && y.refs.Keys == v.refs.Keys + {m}
    requires y.calls == v.calls && y.inbox == v.inbox && y.stored == v.stored
    requires forall u :: u in y.owned ==> if u == m then y.messages[m].req else u in v.owned
    ensures Labels(y)
  {
    hide Labelled;
    forall x | x in v.refs
      ensures Labelled(y.messages, y.requests, x)
    {
      StillLabelled(v, y, m, x);
    }
  }

  lemma StillLabelled(v: Calls, y: Calls, m: nat, x: nat)
    requires Labelled(v.messages, v.requests, x) && x != m && v.requests <= y.requests
    requires m in y.messages && y.messages == v.messages[m := y.messages[m]]
    ensures Labelled(y.messages, y.requests, x)
  {
  }

  lemma MadeConsistent(v: Calls, serial: nat, m: nat)
    requires Consistent(v) && m !in v.refs && serial < |v.requests|
    ensures Consistent(Made(v, serial, m))
  {
    hide Linked, Counted, Stored, Tabled, Labels;
    Unheld(v, m);
    NewHolder(v, Made(v, serial, m), m);
    SameTables(v, Made(v, serial, m));
    MadeLabels(v, serial, m);
  }

  lemma MadeLabels(v: Calls, serial: nat, m: nat)
    requires Labels(v) && m !in v.refs && m !in v.calls && m !in v.owned && m !in v.stored && v.inbox[m] == 0
    requires serial < |v.requests|
    ensures Labels(Made(v, serial, m))
  {
    WrittenLabels(v, Made(v, serial, m), m);
  }

  /** The identity of a request that is about to be called is free in both tables. */
  lemma UuidFree(v: Calls, u: nat)
    requires Consistent(v) && u !in v.calls
    ensures forall m :: m in v.pend ==> v.pend[m] != u
    ensures forall m :: m in v.ready ==> v.ready[m] != u
  {
    hide Counted, Pending, Ended, Stored, Labels, Proxies;
    forall m | m in v.pend
      ensures v.pend[m] != u
    {
      assert Tabled(v, v.records[m].uuid);
    }
    forall m | m in v.ready
      ensures v.ready[m] != u
    {
      assert Tabled(v, v.records[m].uuid);
    }
  }

  lemma BegunShape(v: Calls, u: nat, from: nat, n: Node)
    requires Linked(v) && u !in v.calls && n !in v.records && u in v.messages
    ensures var y := Begun(v, u, from, n); Linked(y) && OnlyCall(v, y, u, n)
    ensures forall x :: x in v.calls && x != u ==> v.calls[x].node != n
  {
    hide OnlyCall, Linked;
    BegunOnly(v, u, from, n);
    BegunLinked(v, u, from, n);
  }

  lemma BegunLinked(v: Calls, u: nat, from: nat, n: Node)
    requires Linked(v) && u !in v.calls && n !in v.records && u in v.messages
    ensures Linked(Begun(v, u, from, n)) && forall x :: x in v.calls ==> v.calls[x].node != n
  {
  }

  lemma BegunOnly(v: Calls, u: nat, from: nat, n: Node)
    requires u in v.messages
    ensures OnlyCall(v, Begun(v, u, from, n), u, n)
  {
  }

  lemma BegunStored(v: Calls, u: nat, from: nat, n: Node)
    requires Stored(v) && u !in v.calls && u in v.messages
    ensures Stored(Begun(v, u, from, n))
  {
  }

  lemma BegunConsistent(v: Calls, u: nat, from: nat, n: Node)
    requires Consistent(v) && u in v.owned && n !in v.records
    ensures u !in v.calls && n !in v.pend && n !in v.ready && u in v.refs && Labelled(v.messages, v.requests, u)
    ensures Consistent(Begun(v, u, from, n))
  {
    hide Counted, Linked, OnlyCall, Stored, Labels, Holders, Labelled;
    OwnedHeld(v, u);
    var y := Begun(v, u, from, n);
    BegunHolders(v, u, from, n);
    SameHolders(v, y);
    BegunTabled(v, u, from, n);
    BegunStored(v, u, from, n);
    BegunLabels(v, u, from, n);
  }

  lemma OwnedHeld(v: Calls, u: nat)
    requires Consistent(v) && u in v.owned
    ensures u in v.refs && Labelled(v.messages, v.requests, u) && u in v.messages && u !in v.calls
  {
    hide Linked, Tabled, Stored, Proxies;
    Held(v, u);
  }

  lemma BegunHolders(v: Calls, u: nat, from: nat, n: Node)
    requires u in v.owned && u !in v.calls && u in v.messages
    ensures forall x :: Holders(Begun(v, u, from, n), x) == Holders(v, x)
  {
  }

  lemma BegunTabled(v: Calls, u: nat, from: nat, n: Node)
    requires Consistent(v) && u !in v.calls && n !in v.records && u in v.messages
    ensures n !in v.pend && n !in v.ready
    ensures var y := Begun(v, u, from, n); Linked(y) && forall x :: x in y.calls ==> Tabled(y, x)
  {
    hide Counted, Matched, OnlyCall, Stored, Labels, Proxies;
    BegunShape(v, u, from, n);
    OthersTabled(v, Begun(v, u, from, n), u, n);
  }

  lemma BegunLabels(v: Calls, u: nat, from: nat, n: Node)
    requires Labels(v) && u in v.owned && u in v.messages
    ensures Labels(Begun(v, u, from, n))
  {
    hide Labelled;
    SameLabels(v, Begun(v, u, from, n));
  }

  lemma SentConsistent(v: Calls, u: nat, ret: int)
    requires Consistent(v) && u in v.proxies
    ensures u in v.calls && u in v.refs && Consistent(Sent(v, u, ret))
  {
    hide Linked, Counted, Stored, Tabled, Labels, IncRef;
    Held(v, u);
    var y := Sent(v, u, ret);
    if ret < 0 {
      SameHolders(v, y);
    } else {
      MoreHolders(v, y, u);
    }
    SameTables(v, y);
    SentLabels(v, u, ret);
  }

  lemma SentLabels(v: Calls, u: nat, ret: int)
    requires Labels(v) && u in v.calls && u in v.refs
    ensures Labels(Sent(v, u, ret))
  {
    hide Labelled, Labels, IncRef;
    SentFields(v, u, ret);
    CallsLabelled(v);
    SameLabels(v, Sent(v, u, ret));
  }

  lemma CallsLabelled(v: Calls)
    requires Labels(v)
    ensures forall u :: u in v.calls ==> u in v.messages && v.calls[u].serial == v.messages[u].serial
    ensures forall m :: m in v.stored ==>
              m in v.messages && !v.messages[m].req && v.messages[m].uuid == v.stored[m]
  {
    hide Labelled;
  }

  /** Nothing is linked or written, and no message is freed. */
  predicate SameLinks(v: Calls, y: Calls)
  {
    && y.messages == v.messages && y.requests == v.requests && y.refs.Keys == v.refs.Keys
    && y.owned == v.owned && y.calls == v.calls && y.inbox == v.inbox && y.stored == v.stored
    && y.records == v.records && y.pend == v.pend && y.ready == v.ready && y.parked == v.parked
  }

  lemma SentFields(v: Calls, u: nat, ret: int)
    requires u in v.calls && u in v.refs
    ensures SameLinks(v, Sent(v, u, ret))
  {
    hide SameLinks, IncRef;
    if ret < 0 {
      RefusedFields(v, v.(proxies := v.proxies[u := AtFailure(ret)]));
    } else {
      AcceptedFields(v, u, Sent(v, u, ret));
    }
  }

  lemma RefusedFields(v: Calls, y: Calls)
    requires y == v.(proxies := y.proxies)
    ensures SameLinks(v, y)
  {
  }

  lemma AcceptedFields(v: Calls, u: nat, y: Calls)
    requires u in v.refs && y == v.(proxies := y.proxies, queued := y.queued, refs := IncRef(v.refs, u), sent := y.sent)
    ensures SameLinks(v, y)
  {
    hide IncRef;
    IncKeys(v.refs, u);
  }

  /** A step that moves no record, links no request or response, and writes no message. */
  lemma SameCalls(v: Calls, y: Calls)
    requires Consistent(v) && Counted(y) && y.refs.Keys <= v.refs.Keys
    requires y.records == v.records && y.pend == v.pend && y.ready == v.ready && y.calls == v.calls
    requires y.stored == v.stored && y.proxies == v.proxies && y.owned == v.owned
    requires y.messages == v.messages && y.requests == v.requests
    requires forall m :: m in y.inbox ==> m in v.inbox || (m in v.messages && !v.messages[m].req)
    ensures Consistent(y)
  {
    hide Linked, Counted, Stored, Tabled;
    SameTables(v, y);
    SameLabels(v, y);
  }

  lemma PostedConsistent(v: Calls, m: nat)
    requires Consistent(v) && m in v.handles && m in v.messages && !v.messages[m].req
    ensures m in v.refs && Consistent(Posted(v, m))
  {
    hide Consistent, Counted;
    Parts(v);
    Held(v, m);
    MoreHolders(v, Posted(v, m), m);
    SameCalls(v, Posted(v, m));
  }

  lemma KeptConsistent(v: Calls, m: nat)
    requires Consistent(v) && m in v.refs
    ensures Consistent(Kept(v, m))
  {
    hide Consistent, Counted;
    Parts(v);
    MoreHolders(v, Kept(v, m), m);
    SameCalls(v, Kept(v, m));
  }

  lemma DiscardedConsistent(v: Calls, m: nat)
    requires Consistent(v) && m in v.inbox
    ensures Counts(v, m) && Consistent(Discarded(v, m))
  {
    hide Consistent, Counted;
    Parts(v);
    Held(v, m);
    FewerHolders(v, Discarded(v, m), m);
    SameCalls(v, Discarded(v, m));
  }

  lemma ReleasedConsistent(v: Calls, m: nat)
    requires Consistent(v) && m in v.queued
    ensures Counts(v, m) && Consistent(Released(v, m))
  {
    hide Consistent, Counted;
    Parts(v);
    Held(v, m);
    FewerHolders(v, Released(v, m), m);
    SameCalls(v, Released(v, m));
  }

  lemma DroppedConsistent(v: Calls, m: nat)
    requires Consistent(v) && m in v.handles
    ensures Counts(v, m) && Consistent(Dropped(v, m))
  {
    hide Consistent, Counted;
    Parts(v);
    Held(v, m);
    FewerHolders(v, Dropped(v, m), m);
    SameCalls(v, Dropped(v, m));
  }

  lemma WokenConsistent(v: Calls, from: nat)
    requires Consistent(v)
    ensures Consistent(Woken(v, from))
  {
    hide Consistent, Counted;
    Parts(v);
    SameHolders(v, Woken(v, from));
    SameCalls(v, Woken(v, from));
  }

  lemma Parts(v: Calls)
    requires Consistent(v)
    ensures Counted(v) && Labels(v) && Stored(v) && Linked(v) && Proxies(v)
  {
    hide Linked, Counted, Stored, Tabled, Labels, Proxies;
  }

  /** Until the record is ready, it is pending, and empty. */
  lemma PendingAt(v: Calls, u: nat)
    requires Consistent(v) && Finds(v, u)
    ensures var n := v.calls[u].node;
            && n in v.pend && v.pend[n] == u && n !in v.ready && n in v.records && Pending(Open, v.records[n])
            && v.records[n].uuid == v.records[n].req == u
    ensures forall m :: m in v.ready ==> v.ready[m] != u
  {
    hide Counted, Stored, Labels, Proxies;
    assert Tabled(v, u);
    forall m | m in v.ready
      ensures v.ready[m] != u
    {
      assert Tabled(v, v.records[m].uuid);
    }
  }

  lemma MovedShape(v: Calls, u: nat, r: Record, p: Phase)
    requires Linked(v) && u in v.calls && r.uuid == r.req == u
    ensures var y := Moved(v, u, r, p); Linked(y) && OnlyCall(v, y, u, v.calls[u].node)
    ensures forall x :: x in v.calls && x != u ==> v.calls[x].node != v.calls[u].node
  {
    hide OnlyCall, Linked, Moved;
    NodesApart(v, u);
    MovedOnly(v, u, r, p);
    MovedLinked(v, u, r, p);
  }

  /** No two calls have the same record. */
  lemma NodesApart(v: Calls, u: nat)
    requires Linked(v) && u in v.calls
    ensures forall x :: x in v.calls && x != u ==> v.calls[x].node != v.calls[u].node
  {
  }

  lemma MovedLinked(v: Calls, u: nat, r: Record, p: Phase)
    requires Linked(v) && u in v.calls && r.uuid == r.req == u
    ensures Linked(Moved(v, u, r, p))
  {
    var y, n := Moved(v, u, r, p), v.calls[u].node;
    NodesApart(v, u);
    assert y.records == v.records[n := r] && y.calls == v.calls[u := v.calls[u].(phase := p)];
  }

  lemma MovedOnly(v: Calls, u: nat, r: Record, p: Phase)
    requires u in v.calls
    ensures OnlyCall(v, Moved(v, u, r, p), u, v.calls[u].node)
  {
  }

  /** A record moves to the ready table, with its response or error. */
  lemma MovedTables(v: Calls, y: Calls, u: nat, r: Record, p: Phase)
    requires Consistent(v) && Finds(v, u) && r.uuid == r.req == u && Ended(p, r)
    requires var x := Moved(v, u, r, p);
             y.records == x.records && y.pend == x.pend && y.ready == x.ready && y.calls == x.calls
    ensures Linked(y) && forall x :: x in y.calls ==> Tabled(y, x)
  {
    hide Counted, Matched, Stored, Labels, Proxies;
    var x := Moved(v, u, r, p);
    PendingAt(v, u);
    MovedShape(v, u, r, p);
    OthersTabled(v, x, u, v.calls[u].node);
    LikeTables(x, y);
  }

  lemma LikeTables(x: Calls, y: Calls)
    requires y.records == x.records && y.pend == x.pend && y.ready == x.ready && y.calls == x.calls
    requires Linked(x) && forall u :: u in x.calls ==> Tabled(x, u)
    ensures Linked(y) && forall u :: u in y.calls ==> Tabled(y, u)
  {
    forall u | u in y.calls
      ensures Tabled(y, u)
    {
      assert Tabled(x, u);
    }
  }

  /** The send has failed: the record is ready, with the error. */
  lemma FailedConsistent(v: Calls, u: nat, ret: int)
    requires Consistent(v) && Finds(v, u) && ret < 0
    ensures v.calls[u].node in v.records && Consistent(Failed(v, u, ret))
  {
    hide Counted, Linked, Stored, Labels, Tabled;
    PendingAt(v, u);
    var y := Failed(v, u, ret);
    SameHolders(v, y);
    MovedTables(v, y, u, v.records[v.calls[u].node].(ret := ret), Broken(ret));
    FailedStored(v, u, ret);
    FailedLabels(v, u, ret);
  }

  lemma FailedFields(v: Calls, u: nat, ret: int)
    requires u in v.calls && v.calls[u].node in v.records
    ensures var (y, n) := (Failed(v, u, ret), v.calls[u].node);
            && y.records == v.records[n := v.records[n].(ret := ret)]
            && y.pend == v.pend - {n} && y.ready == v.ready[n := u]
            && y.parked == v.parked - {v.records[n].from} && y.messages == v.messages
            && y.calls == v.calls[u := v.calls[u].(phase := Broken(ret))]
            && y.proxies == v.proxies - {u} && y.refs == v.refs
  {
  }

  lemma FailedStored(v: Calls, u: nat, ret: int)
    requires Stored(v) && Finds(v, u) && v.calls[u].node in v.records
    ensures Stored(Failed(v, u, ret))
  {
  }

  lemma FailedLabels(v: Calls, u: nat, ret: int)
    requires Labels(v) && u in v.calls && v.calls[u].node in v.records
    ensures Labels(Failed(v, u, ret))
  {
    hide Labelled;
    SameLabels(v, Failed(v, u, ret));
  }

  /** A response comes to a call that is open: the record is ready, with the response. */
  lemma DeliveredConsistent(v: Calls, m: nat)
    requires Consistent(v) && m in v.inbox
    ensures Counts(v, m) && Labelled(v.messages, v.requests, m)
    ensures Finds(v, v.messages[m].uuid) ==>
              m !in v.stored && v.calls[v.messages[m].uuid].node in v.records && Consistent(Delivered(v, m))
  {
    hide Counted, Linked, Stored, Tabled, Labels, IncRef, Holders, Labelled;
    InboxHeld(v, m);
    var u := v.messages[m].uuid;
    if Finds(v, u) {
      PendingAt(v, u);
      NotStored(v, m);
      var y := Delivered(v, m);
      DeliveredHolders(v, m);
      MoreHolders(v, y, m);
      MovedTables(v, y, u, v.records[v.calls[u].node].(rsp := Some(m)), Answered(m));
      DeliveredStored(v, m);
      DeliveredLabels(v, m);
    }
  }

  lemma InboxHeld(v: Calls, m: nat)
    requires Consistent(v) && m in v.inbox
    ensures Counts(v, m) && Labelled(v.messages, v.requests, m) && m in v.messages && !v.messages[m].req
  {
    hide Linked, Tabled, Stored, Proxies;
    Held(v, m);
  }

  lemma DeliveredHolders(v: Calls, m: nat)
    requires m in v.inbox && m in v.refs && m in v.messages && m !in v.stored && v.messages[m].uuid in v.calls
    requires v.calls[v.messages[m].uuid].node in v.records
    ensures forall x :: Holders(Delivered(v, m), x) == Holders(v, x) + One(x == m)
  {
    hide IncRef;
  }

  /** A response of an open call is stored nowhere. */
  lemma NotStored(v: Calls, m: nat)
    requires Stored(v) && Labels(v) && m in v.messages && Finds(v, v.messages[m].uuid)
    ensures m !in v.stored
  {
  }

  lemma DeliveredFields(v: Calls, m: nat)
    requires m in v.refs && m in v.messages && v.messages[m].uuid in v.calls
    requires v.calls[v.messages[m].uuid].node in v.records
    ensures var (y, u) := (Delivered(v, m), v.messages[m].uuid);
            var n := v.calls[u].node;
            && y.records == v.records[n := v.records[n].(rsp := Some(m))]
            && y.pend == v.pend - {n} && y.ready == v.ready[n := u]
            && y.parked == v.parked - {v.records[n].from} && y.messages == v.messages
            && y.calls == v.calls[u := v.calls[u].(phase := Answered(m))] && y.refs == v.refs[m := v.refs[m] + 1]
            && y.inbox == v.inbox - multiset{m} && y.queued == v.queued + multiset{m}
  {
  }

  lemma DeliveredStored(v: Calls, m: nat)
    requires Stored(v) && m in v.refs && m in v.messages && Finds(v, v.messages[m].uuid) && m !in v.stored
    requires v.calls[v.messages[m].uuid].node in v.records
    ensures Stored(Delivered(v, m))
  {
  }

  lemma DeliveredLabels(v: Calls, m: nat)
    requires Labels(v) && m in v.inbox && m in v.refs && m in v.messages && v.messages[m].uuid in v.calls
    requires v.calls[v.messages[m].uuid].node in v.records
    ensures Labels(Delivered(v, m))
  {
    hide Labelled;
    SameLabels(v, Delivered(v, m));
  }

  /** A ready record holds a response with the identity of its own request, or none when the send has failed. */
  lemma ReadyAt(v: Calls, n: Node)
    requires Consistent(v) && n in v.ready
    ensures var u := v.ready[n];
            && u >= 0 && n in v.records && v.records[n].uuid == u && u in v.calls && v.calls[u].node == n
            && Ended(v.calls[u].phase, v.records[n]) && Counts(v, u)
            && (v.records[n].rsp.Some? ==>
                  && v.records[n].rsp.value in v.refs && v.records[n].rsp.value in v.messages
                  && v.messages[v.records[n].rsp.value].uuid == u && !v.messages[v.records[n].rsp.value].req)
  {
    hide Counted, Proxies;
    var u := v.records[n].uuid;
    assert Tabled(v, u);
    Held(v, u);
    if v.records[n].rsp.Some? {
      Held(v, v.records[n].rsp.value);
    }
  }

  lemma FinishedShape(v: Calls, u: nat)
    requires Linked(v) && u in v.calls && Counts(v, u) && v.calls[u].node !in v.pend
    ensures var y := Finished(v, u); Linked(y) && OnlyCall(v, y, u, v.calls[u].node)
    ensures forall x :: x in v.calls && x != u ==> v.calls[x].node != v.calls[u].node
  {
    hide DecRef, OnlyCall;
    NodesApart(v, u);
    FinishedOnly(v, u);
  }

  lemma FinishedOnly(v: Calls, u: nat)
    requires u in v.calls && Counts(v, u)
    ensures OnlyCall(v, Finished(v, u), u, v.calls[u].node)
  {
    hide DecRef;
  }

  lemma FinishedFields(v: Calls, u: nat)
    requires u in v.calls && Counts(v, u)
    ensures var y := Finished(v, u);
            && y.records == v.records - {v.calls[u].node} && y.ready == v.ready - {v.calls[u].node}
            && y.pend == v.pend && y.parked == v.parked && y.messages == v.messages
            && y.calls == v.calls - {u} && y.refs == DecRef(v.refs, u)
            && y.handles == (if v.calls[u].phase.Answered? then v.handles + multiset{v.calls[u].phase.rsp}
                             else v.handles)
  {
    hide DecRef;
  }

  lemma FinishedStored(v: Calls, u: nat)
    requires Stored(v) && u in v.calls && Counts(v, u)
    ensures Stored(Finished(v, u))
    ensures v.calls[u].phase.Answered? ==> v.calls[u].phase.rsp in v.stored
  {
    hide DecRef;
  }

  lemma FinishedLabels(v: Calls, u: nat)
    requires Labels(v) && u in v.calls && Counts(v, u)
    ensures Labels(Finished(v, u))
  {
    hide Labelled;
    SameLabels(v, Finished(v, u));
  }

  lemma FinishedConsistent(v: Calls, u: nat)
    requires Consistent(v) && Ends(v, u) && u !in v.proxies
    ensures Counts(v, u) && v.calls[u].node in v.ready && v.calls[u].node in v.records
    ensures Consistent(Finished(v, u))
  {
    hide Counted, Matched, OnlyCall, Stored, DecRef, Labels;
    assert Tabled(v, u);
    Held(v, u);
    var y := Finished(v, u);
    FinishedShape(v, u);
    FinishedStored(v, u);
    FinishedLabels(v, u);
    FewerHolders(v, y, u);
    OthersTabled(v, y, u, v.calls[u].node);
  }

  lemma EmptyConsistent()
    ensures Consistent(Empty())
  {
  }
}
