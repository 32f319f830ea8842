/**
 powerpack message.c: the proxy that sends the request of a parked caller, the
 handler of the response, and finalize, on two maps and a table of records.
 Calls says what a step does to all that refers to a message, CallRuns what
 follows for whole runs.
 */
module MessageCall {
  import opened Errno
  import opened Messages
  import opened Trees
  import opened Wrappers
  import opened Calls
  import opened CallRuns
  import M = Map

  /** What the messages say of their identities. */
  function Uuids(messages: map<nat, Message>): map<nat, nat>
  {
    map m | m in messages :: messages[m].uuid
  }

  /**
   pp_message_ctx_t, and what its code sees of messages and services: the
   records, the identities of the messages, and the parked services. state is
   all that, and who refers to which message. Each method is one critical
   section of the lock, or a step of those around it.
   */
  class Service {
    const pend: M.Map<int>
    const ready: M.Map<int>
    var records: map<Node, Record>
    var uuids: map<nat, nat>
    var parked: set<nat>
    ghost var state: Calls

    constructor ()
      ensures Valid() && state == Empty()
    {
      hide M.Map.Valid, M.Map.Order;
      M.IntOrder();
      pend := new M.Map(M.CompareInt);
      ready := new M.Map(M.CompareInt);
      records, uuids, parked, state := map[], map[], {}, Empty();
      new;
      EmptyConsistent();
    }

    ghost predicate Tables()
      reads pend, pend.low, pend.low.nodes, ready, ready.low, ready.low.nodes
    {
      && pend.Valid() && ready.Valid() && pend.cmp == M.CompareInt && ready.cmp == M.CompareInt
      && pend != ready && pend.low != ready.low && pend.low.nodes !! ready.low.nodes
      && pend.low.nodes == pend.keys.Keys && ready.low.nodes == ready.keys.Keys
    }

    /** state is what the fields show. */
    ghost predicate Shown()
      reads this, pend, ready
    {
      && state.records == records && state.pend == pend.keys && state.ready == ready.keys
      && state.parked == parked && Uuids(state.messages) == uuids
    }

    ghost predicate Valid()
      reads this, pend, pend.low, pend.low.nodes, ready, ready.low, ready.low.nodes
    {
      Tables() && Shown() && Consistent(state)
    }

    lemma TableNodes()
      requires Tables()
      ensures pend.Valid() && ready.Valid() && pend.cmp == M.CompareInt && ready.cmp == M.CompareInt
      ensures pend.low.nodes == pend.keys.Keys && ready.low.nodes == ready.keys.Keys
      ensures pend != ready && pend.low != ready.low
    {
      hide pend.Valid;
    }

    /** eaf_map_insert into the pending table. */
    method LinkPend(n: Node, uuid: nat)
      requires Tables() && n !in pend.keys && n !in ready.keys && forall m :: m in pend.keys ==> pend.keys[m] != uuid
      modifies pend, pend.low, pend.low.nodes, n
      ensures Tables() && pend.keys == old(pend.keys)[n := uuid]
    {
      hide pend.Valid, pend.Order;
      var ret;
      ghost var at, cmps;
      ret, at, cmps := pend.Insert(n, uuid);
      assert ret == SUCCESS;
    }

    /** A record goes from the pending to the ready table. */
    method Promote(n: Node, uuid: nat)
      requires Tables() && n in pend.keys && forall m :: m in ready.keys ==> ready.keys[m] != uuid
      modifies pend, pend.low, pend.low.nodes, ready, ready.low, ready.low.nodes
      ensures Tables() && pend.keys == old(pend.keys) - {n} && ready.keys == old(ready.keys)[n := uuid]
    {
      hide pend.Valid, pend.Order;
      ghost var at := pend.Erase(n);
      var ret;
      ghost var cmps;
      ret, at, cmps := ready.Insert(n, uuid);
      assert ret == SUCCESS;
    }

    method Unlink(n: Node)
      requires Tables() && n in ready.keys
      modifies ready, ready.low, ready.low.nodes
      ensures Tables() && ready.keys == old(ready.keys) - {n}
    {
      hide pend.Valid, pend.Order;
      ghost var at := ready.Erase(n);
    }

    /** eaf_msg_create_req: the allocator returns an address that no live message has. */
    method Create(u: nat)
      requires Valid() && u !in state.refs
      modifies this`state, this`uuids
      ensures Valid() && state == Created(old(state), u) && u !in state.calls
      ensures uuids == old(uuids)[u := u] && state.owned == old(state.owned) + {u}
      ensures state.refs == old(state.refs)[u := 1] && state.requests == old(state.requests) + [u]
    {
      hide Tables, Consistent;
      CreatedIsNew(state, u);
      uuids, state := uuids[u := u], Created(state, u);
    }

    /**
     The service from has yielded; the first half of eaf_message_internal_proxy,
     its hook, up to the end of its critical section.
     */
    method Begin(u: nat, from: nat) returns (n: Node)
      requires Valid() && u in state.owned && from !in parked
      modifies this`records, this`parked, this`state, pend, pend.low, pend.low.nodes
      ensures Valid() && fresh(n) && u in old(state).messages && state == Begun(old(state), u, from, n)
      ensures records == old(records)[n := Record(u, u, None, from, SUCCESS)] && parked == old(parked) + {from}
      ensures pend.keys == old(pend.keys)[n := u] && ready.keys == old(ready.keys)
      ensures state.calls == old(state.calls)[u := Call(n, old(state).messages[u].serial, Open)]
      ensures state.proxies == old(state.proxies)[u := AtSend] && state.owned == old(state.owned) - {u}
      ensures state.refs == old(state.refs)
    {
      hide Tables, Consistent;
      n := new Node();
      BeginWith(n, u, from);
    }

    method BeginWith(n: Node, u: nat, from: nat)
      requires Valid() && u in state.owned && n !in records
      modifies this`records, this`parked, this`state, pend, pend.low, pend.low.nodes, n
      ensures Valid() && u in old(state).messages && state == Begun(old(state), u, from, n)
    {
      hide Tables, Consistent, pend.Valid, pend.Order, Labelled;
      TableNodes();
      OwnedUuid(state, u);
      BegunConsistent(state, u, from, n);
      UuidFree(state, u);
      var uuid := uuids[u];
      LinkPend(n, uuid);
      records := records[n := Record(uuid, u, None, from, SUCCESS)];
      parked := parked + {from};
      state := Begun(state, u, from, n);
    }

    /** eaf_send_req of the proxy: the request is queued, with a reference of its own, or refused by the receiver r. */
    ghost method Send(u: nat, r: Receiver) returns (ret: int)
      requires Valid() && Ready(state, Action.Send(u, r))
      modifies this`state
      ensures ret == SUCCESS <==> r.running && r.found && r.handled && r.queued < r.capacity && !r.exiting
      ensures ret == OVERFLOW <==> r.running && r.found && r.handled && r.queued >= r.capacity
      ensures ret == NOTFOUND <==> r.running && !(r.found && r.handled)
      ensures ret == STATE <==> !r.running || (r.found && r.handled && r.queued < r.capacity && r.exiting)
      ensures ret == SUCCESS || ret == OVERFLOW || ret == NOTFOUND || ret == STATE
      ensures Valid() && u in old(state).calls && u in old(state).refs
      ensures state == Sent(old(state), u, ret)
      ensures var v := old(state);
              state == if ret == SUCCESS
                       then v.(proxies := v.proxies - {u}, queued := v.queued + multiset{u},
                               refs := v.refs[u := v.refs[u] + 1], sent := v.sent + {v.calls[u].serial})
                       else v.(proxies := v.proxies[u := AtFailure(ret)])
    {
      hide Tables, Consistent;
      ret := SendReq(r);
      SentConsistent(state, u, ret);
      SentFields(state, u, ret);
      state := Sent(state, u, ret);
    }

    /**
     The error path of the proxy: its second critical section, and eaf_resume,
     whose result is not looked at. The source erases the record from the
     pending table without a look whether it is there.
     */
    method SendFailed(n: Node, ghost u: nat, ret: int)
      requires Valid() && Ready(state, Action.Fail(u)) && Expected(state, Action.Fail(u))
      requires state.proxies[u].error == ret && state.calls[u].node == n
      modifies this`records, this`parked, this`state, pend, pend.low, pend.low.nodes, ready, ready.low, ready.low.nodes
      ensures Valid() && n in old(state).records && state == Failed(old(state), u, ret)
      ensures records == old(records)[n := old(records)[n].(ret := ret)]
              && parked == old(parked) - {old(records)[n].from}
      ensures pend.keys == old(pend.keys) - {n} && ready.keys == old(ready.keys)[n := u]
      ensures state.calls == old(state.calls)[u := old(state).calls[u].(phase := Broken(ret))]
      ensures state.proxies == old(state.proxies) - {u} && state.refs == old(state.refs)
    {
      hide Tables, Consistent, Failed;
      PendingAt(state, u);
      FailedFields(state, u, ret);
      ProxyError(state, u);
      var from := records[n].from;
      Break(n, u, ret);
      var resumed := Wake(from);
    }

    /** That critical section; the state is the one after the resume. */
    method Break(n: Node, ghost u: nat, ret: int)
      requires Valid() && Finds(state, u) && state.calls[u].node == n && n in records && ret < 0
      modifies this`records, this`state, pend, pend.low, pend.low.nodes, ready, ready.low, ready.low.nodes
      ensures Tables() && Consistent(state) && state == Failed(old(state), u, ret)
      ensures state.records == records && state.pend == pend.keys && state.ready == ready.keys
      ensures state.parked == parked - {old(records)[n].from} && Uuids(state.messages) == uuids
    {
      hide Tables, Consistent, Failed, Pending;
      FailedFields(state, u, ret);
      FailedConsistent(state, u, ret);
      PendingAt(state, u);
      TableNodes();
      Promote(n, records[n].uuid);
      records := records[n := records[n].(ret := ret)];
      state := Failed(state, u, ret);
    }

    /** The state change of eaf_resume: it succeeds exactly when the service is parked. */
    method Wake(service: nat) returns (ret: int)
      modifies this`parked
      ensures ret == if service in old(parked) then SUCCESS else STATE
      ensures parked == old(parked) - {service}
    {
      ret := if service in parked then SUCCESS else STATE;
      parked := parked - {service};
    }

    /** eaf_resume, called by anybody, and an exit, which takes a parked service too. */
    method Resume(service: nat) returns (ret: int)
      requires Valid()
      modifies this`parked, this`state
      ensures Valid() && state == Woken(old(state), service) && state == old(state).(parked := parked)
      ensures parked == old(parked) - {service}
      ensures ret == if service in old(parked) then SUCCESS else STATE
    {
      hide Tables, Consistent;
      WokenConsistent(state, service);
      ret := Wake(service);
      state := Woken(state, service);
    }

    /**
     eaf_msg_create_rsp, from the request with the given serial or a copy of it,
     which may outlive the request. Only its identity is copied.
     */
    method Respond(ghost serial: nat, uuid: nat, m: nat)
      requires Valid() && Ready(state, Action.Respond(serial, m)) && uuid == state.requests[serial]
      modifies this`state, this`uuids
      ensures Valid() && state == Made(old(state), serial, m)
      ensures m in state.messages && state.messages[m] == Message(uuid, false, 0, 0, serial)
      ensures uuids == old(uuids)[m := uuid] && state.handles == old(state.handles) + multiset{m}
      ensures state.refs == old(state.refs)[m := 1]
    {
      hide Tables, Consistent;
      MadeConsistent(state, serial, m);
      uuids, state := uuids[m := uuid], Made(state, serial, m);
    }

    /** eaf_send_rsp: user code sends the response m, of which it has a handle, to the message service r. */
    ghost method Reply(m: nat, r: Receiver) returns (ret: int)
      requires Valid() && Ready(state, Action.Reply(m, r))
      modifies this`state
      ensures ret == SUCCESS <==> r.running && r.found && !r.exiting
      ensures ret == NOTFOUND <==> r.running && !r.found
      ensures ret == STATE <==> !r.running || (r.found && r.exiting)
      ensures ret == SUCCESS || ret == NOTFOUND || ret == STATE
      ensures Valid() && m in old(state).refs
      ensures state == if ret < 0 then old(state) else Posted(old(state), m)
      ensures var v := old(state);
              state == if ret == SUCCESS
                       then v.(inbox := v.inbox + multiset{m}, refs := v.refs[m := v.refs[m] + 1],
                               posted := v.posted + {v.messages[m].serial})
                       else v
    {
      hide Tables, Consistent;
      PostedConsistent(state, m);
      ret := SendRsp(r);
      if ret >= 0 {
        state := Posted(state, m);
      }
    }

    /** A response is destroyed in the queue of the message service, without having been handled. */
    ghost method Discard(m: nat)
      requires Valid() && m in state.inbox
      modifies this`state
      ensures Valid() && Counts(old(state), m) && state == Discarded(old(state), m)
      ensures state == old(state).(inbox := old(state.inbox) - multiset{m}, refs := DecRef(old(state.refs), m))
    {
      hide Tables, Consistent;
      DiscardedConsistent(state, m);
      state := Discarded(state, m);
    }

    /** A queue record that points to the message m, and has been handled, is destroyed. */
    ghost method Release(m: nat)
      requires Valid() && m in state.queued
      modifies this`state
      ensures Valid() && Counts(old(state), m) && state == Released(old(state), m)
      ensures state == old(state).(queued := old(state.queued) - multiset{m}, refs := DecRef(old(state.refs), m))
    {
      hide Tables, Consistent;
      ReleasedConsistent(state, m);
      state := Released(state, m);
    }

    /** User code takes a reference to a live message. */
    ghost method Keep(m: nat)
      requires Valid() && m in state.refs
      modifies this`state
      ensures Valid() && state == Kept(old(state), m)
      ensures state == old(state).(handles := old(state.handles) + multiset{m},
                                   refs := old(state.refs)[m := old(state).refs[m] + 1])
    {
      hide Tables, Consistent;
      KeptConsistent(state, m);
      state := Kept(state, m);
    }

    /** User code gives up a reference to the message m. */
    ghost method Drop(m: nat)
      requires Valid() && m in state.handles
      modifies this`state
      ensures Valid() && Counts(old(state), m) && state == Dropped(old(state), m)
      ensures state == old(state).(handles := old(state.handles) - multiset{m}, refs := DecRef(old(state.refs), m))
    {
      hide Tables, Consistent;
      DroppedConsistent(state, m);
      state := Dropped(state, m);
    }

    /**
     eaf_message_internal_response_handler, for the response m in the queue of
     the message service. The source asserts that a record is found: it is,
     exactly when a call with the identity of the response is open; and the
     record is that of the request the response was created from exactly when
     that one's call is open. Without a record the program ends. It asserts,
     too, that the caller could be resumed: it could, exactly when it is still
     parked.
     */
    method OnResponse(m: nat) returns (found: bool, ret: int)
      requires Valid() && m in state.inbox
      modifies this`records, this`parked, this`state
      modifies pend, pend.low, pend.low.nodes, ready, ready.low, ready.low.nodes
      ensures Valid() && m in old(state).messages && m in old(state).refs
      ensures found <==> Finds(old(state), old(state).messages[m].uuid)
      ensures FindsOwn(old(state), m) <==> OpenFor(old(state), old(state).messages[m].serial)
      ensures !found ==> state == old(state)
      ensures found ==>
                var n := old(state).calls[old(state).messages[m].uuid].node;
                && n in old(records) && state == Delivered(old(state), m)
                && ret == if old(records)[n].from in old(parked) then SUCCESS else STATE
      ensures found ==>
                var u := old(state).messages[m].uuid;
                var n := old(state).calls[u].node;
                && records == old(records)[n := old(records)[n].(rsp := Some(m))]
                && pend.keys == old(pend.keys) - {n} && ready.keys == old(ready.keys)[n := u]
                && parked == old(parked) - {old(records)[n].from}
                && state.calls == old(state.calls)[u := old(state).calls[u].(phase := Answered(m))]
                && state.refs == old(state.refs)[m := old(state).refs[m] + 1]
                && state.inbox == old(state.inbox) - multiset{m} && state.queued == old(state.queued) + multiset{m}
    {
      hide Tables, Consistent, Delivered, Pending, Labelled, OpenFor;
      InboxHeld(state, m);
      OwnIfOpen(state, m);
      if Finds(state, state.messages[m].uuid) {
        PendingAt(state, state.messages[m].uuid);
        DeliveredFields(state, m);
      }
      var uuid := uuids[m];
      var it := FindPend(uuid);
      found, ret := it != null, STATE;
      if it != null {
        PendingAt(state, uuid);
        var from := records[it].from;
        Deliver(it, m);
        ret := Wake(from);
      }
    }

    /** The critical section of the response handler, for a record that is found; the state is that after the resume. */
    method Deliver(it: Node, m: nat)
      requires Valid() && m in state.inbox && m in state.messages && m in state.refs && it in records
      requires Finds(state, state.messages[m].uuid) && it == state.calls[state.messages[m].uuid].node
      modifies this`records, this`state
      modifies pend, pend.low, pend.low.nodes, ready, ready.low, ready.low.nodes
      ensures Tables() && Consistent(state) && state == Delivered(old(state), m)
      ensures state.records == records && state.pend == pend.keys && state.ready == ready.keys
      ensures state.parked == parked - {old(records)[it].from} && Uuids(state.messages) == uuids
    {
      hide Tables, Consistent, Delivered, Pending;
      DeliveredFields(state, m);
      DeliveredConsistent(state, m);
      PendingAt(state, state.messages[m].uuid);
      TableNodes();
      Promote(it, records[it].uuid);
      records := records[it := records[it].(rsp := Some(m))];
      state := Delivered(state, m);
    }

    /** The search of the pending table. */
    method FindPend(uuid: nat) returns (it: Node?)
      requires Valid()
      ensures it != null <==> Finds(state, uuid)
      ensures it != null ==> it == state.calls[uuid].node
    {
      hide Tables, Consistent, M.CompareInt;
      TableNodes();
      ghost var cmps;
      it, cmps := pend.Find(uuid);
      PendFound(state, uuid, it);
    }

    /**
     eaf_message_internal_finalize, by the caller, whose proxy has returned: the
     response that came to the record, or none when the send has failed, once.
     It returns success in both cases: that is the result stored in the record
     exactly when a response has come.
     */
    method Finalize(uuid: nat) returns (ret: int, rsp: Option<nat>)
      requires Valid() && Ready(state, Action.Finalize(uuid))
      modifies this`records, this`state, ready, ready.low, ready.low.nodes
      ensures Valid()
      ensures ret == if Ends(old(state), uuid) then SUCCESS else NOTFOUND
      ensures ret == NOTFOUND ==> rsp == None && state == old(state)
      ensures ret == SUCCESS ==>
                var c := old(state).calls[uuid];
                && Counts(old(state), uuid) && state == Finished(old(state), uuid)
                && rsp == (if c.phase.Answered? then Some(c.phase.rsp) else None)
                && (rsp.Some? ==>
                      && rsp.value in state.handles && rsp.value in state.messages
                      && state.messages[rsp.value].uuid == uuid && !state.messages[rsp.value].req)
                && c.node in old(records) && (old(records)[c.node].ret == ret <==> c.phase.Answered?)
                && records == old(records) - {c.node} && ready.keys == old(ready.keys) - {c.node}
                && pend.keys == old(pend.keys) && parked == old(parked)
                && state.calls == old(state.calls) - {uuid} && state.refs == DecRef(old(state.refs), uuid)
                && state.handles == old(state.handles) + (if rsp.Some? then multiset{rsp.value} else multiset{})
    {
      hide Tables, Consistent, M.CompareInt, DecRef;
      var it := FindReady(uuid);
      if it == null {
        return NOTFOUND, None;
      }
      FinishedConsistent(state, uuid);
      FinishedFields(state, uuid);
      rsp := records[it].rsp;
      Take(it, uuid);
      ret := SUCCESS;
    }

    /** The search of the ready table. */
    method FindReady(uuid: nat) returns (it: Node?)
      requires Valid()
      ensures it != null <==> Ends(state, uuid)
      ensures it != null ==>
                var p := state.calls[uuid].phase;
                && it == state.calls[uuid].node && it in ready.keys && it in records
                && records[it].rsp == (if p.Answered? then Some(p.rsp) else None)
                && (p.Answered? ==>
                      p.rsp in state.messages && state.messages[p.rsp].uuid == uuid && !state.messages[p.rsp].req)
                && (records[it].ret == SUCCESS <==> p.Answered?)
    {
      hide Tables, Consistent, M.CompareInt;
      TableNodes();
      ghost var cmps;
      it, cmps := ready.Find(uuid);
      ReadyFound(state, uuid, it);
    }

    /** The record leaves the table and is freed. */
    method Take(it: Node, ghost uuid: nat)
      requires Valid() && Ends(state, uuid) && it == state.calls[uuid].node && it in ready.keys
      requires Counts(state, uuid) && Consistent(Finished(state, uuid))
      modifies this`records, this`state, ready, ready.low, ready.low.nodes
      ensures Valid() && state == Finished(old(state), uuid)
    {
      hide Tables, Consistent, Finished;
      FinishedFields(state, uuid);
      TableNodes();
      Unlink(it);
      records := records - {it};
      state := Finished(state, uuid);
    }
  }

  lemma OwnedUuid(v: Calls, u: nat)
    requires Consistent(v) && u in v.owned
    ensures u in v.messages && v.messages[u].uuid == u
  {
    hide Linked, Tabled, Stored, Proxies;
    Held(v, u);
  }

  lemma ProxyError(v: Calls, u: nat)
    requires Consistent(v) && u in v.proxies && v.proxies[u].AtFailure?
    ensures v.proxies[u].error < 0
  {
    hide Linked, Tabled, Stored, Counted, Labels;
  }

  /** The search of the pending table finds the record of the call, if the call is open. */
  lemma PendFound(v: Calls, u: nat, it: Node?)
    requires Consistent(v)
    requires it == null ==> forall n :: n in v.pend ==> M.CompareInt(u, v.pend[n]) != 0
    requires it != null ==> it in v.pend && M.CompareInt(u, v.pend[it]) == 0
    ensures it != null <==> Finds(v, u)
    ensures it != null ==> it == v.calls[u].node
  {
    hide Counted, Stored, Labels, Proxies;
    if u in v.calls {
      assert Tabled(v, u);
    }
    if it != null {
      assert Tabled(v, v.records[it].uuid);
    }
  }

  /** The search of the ready table finds the record of the call, if the call is at its end. */
  lemma ReadyFound(v: Calls, u: nat, it: Node?)
    requires Consistent(v)
    requires it == null ==> forall n :: n in v.ready ==> M.CompareInt(u, v.ready[n]) != 0
    requires it != null ==> it in v.ready && M.CompareInt(u, v.ready[it]) == 0
    ensures it != null <==> Ends(v, u)
    ensures it != null ==>
              var p := v.calls[u].phase;
              && it == v.calls[u].node && it in v.ready && it in v.records
              && v.records[it].rsp == (if p.Answered? then Some(p.rsp) else None)
              && (p.Answered? ==> p.rsp in v.messages && v.messages[p.rsp].uuid == u && !v.messages[p.rsp].req)
              && (v.records[it].ret == SUCCESS <==> p.Answered?)
  {
    hide Counted, Proxies;
    if u in v.calls {
      assert Tabled(v, u);
    }
    if it != null {
      assert Tabled(v, v.records[it].uuid);
    }
  }
}
