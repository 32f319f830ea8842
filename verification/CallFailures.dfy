/** Runs in which calls go wrong: a request answered twice, a caller resumed by somebody else, a send refused. */
module CallFailures {
  import opened Errno
  import opened Trees
  import opened Wrappers
  import opened Calls
  import opened CallRuns

  lemma Longer(vs: seq<Calls>, as_: seq<Action>, a: Action) returns (vs': seq<Calls>, as': seq<Action>)
    requires Run(vs, as_) && vs != [] && Enabled(vs[|vs| - 1], a)
    ensures vs' != [] && Run(vs', as') && vs'[|vs'| - 1] == Next(vs[|vs| - 1], a)
  {
    hide Enabled, Next;
    vs', as' := vs + [Next(vs[|vs| - 1], a)], as_ + [a];
  }

  /** A receiver that takes a message, and one whose queue is full. */
  const OPEN := Receiver(true, true, true, 0, 1, false)
  const FULL := Receiver(true, true, true, 1, 1, false)

  /** A service with number 7 calls the request 0, and its proxy is about to send. */
  lemma CallsRequest(n: Node) returns (vs: seq<Calls>, as_: seq<Action>)
    ensures vs != [] && Run(vs, as_)
    ensures vs[|vs| - 1] == Calls(map[n := Record(0, 0, None, 7, SUCCESS)], map[n := 0], map[],
                                  map[0 := Message(0, true, 0, 0, 0)], {7}, map[0 := Call(n, 0, Open)],
                                  map[0 := AtSend], {}, multiset{}, multiset{}, multiset{}, map[], map[0 := 1], [0],
                                  {}, {})
  {
    vs, as_ := [Empty()], [];
    vs, as_ := Longer(vs, as_, Create(0));
    vs, as_ := Longer(vs, as_, Begin(0, 7, n));
  }

  // ---------- A send that is refused ----------

  /** The queue of the receiver is full: the call ends with an error that finalize does not return. */
  lemma ErrorHidden(n: Node) returns (vs: seq<Calls>, as_: seq<Action>)
    ensures vs != [] && Run(vs, as_) && Ready(vs[|vs| - 1], Finalize(0))
    ensures var v := vs[|vs| - 1];
            0 in v.calls && v.calls[0] == Call(n, 0, Broken(OVERFLOW)) && n in v.records && v.records[n].ret == OVERFLOW
  {
    vs, as_ := CallsRequest(n);
    vs, as_ := Longer(vs, as_, Send(0, FULL));
    vs, as_ := Longer(vs, as_, Fail(0));
  }

  // ---------- A caller that is resumed by somebody else ----------

  /** The request has been sent. */
  predicate Waiting(v: Calls, n: Node)
  {
    && v.calls == map[0 := Call(n, 0, Open)] && v.proxies == map[] && v.owned == {}
    && n in v.records && v.records.Keys == {n} && v.records[n].from == 7 && 7 in v.parked
    && 0 in v.messages && v.messages[0].uuid == 0 && v.requests == [0] && v.queued == multiset{0}
    && v.inbox == multiset{} && v.handles == multiset{} && v.stored == map[] && v.refs == map[0 := 2]
  }

  lemma SendsRequest(n: Node) returns (vs: seq<Calls>, as_: seq<Action>)
    ensures vs != [] && Run(vs, as_) && Waiting(vs[|vs| - 1], n)
    ensures vs[|vs| - 1].parked == {7}
  {
    hide Run;
    vs, as_ := CallsRequest(n);
    vs, as_ := Longer(vs, as_, Send(0, OPEN));
  }

  /** The response finds the open call, but its caller is not parked any more: the asserted resume fails. */
  lemma ResumeFails(n: Node) returns (vs: seq<Calls>, as_: seq<Action>)
    ensures vs != [] && Run(vs, as_) && Enabled(vs[|vs| - 1], Handle(1))
    ensures var v := vs[|vs| - 1];
            && 1 in v.messages && v.messages[1].uuid == 0 && Finds(v, 0) && v.calls[0].node in v.records
            && v.records[v.calls[0].node].from !in v.parked
  {
    hide Run;
    vs, as_ := SendsRequest(n);
    vs, as_ := Longer(vs, as_, Resume(7));
    vs, as_ := Longer(vs, as_, Respond(0, 1));
    vs, as_ := Longer(vs, as_, Reply(1, OPEN));
  }

  // ---------- A request that is answered twice ----------

  /** m is a response to the first request. */
  predicate ToFirst(v: Calls, m: nat)
  {
    m in v.messages && v.messages[m] == Message(0, false, 0, 0, 0)
  }

  /** Two responses to the request 0 are created, at the addresses 1 and 2. */
  lemma CreatesTwo(n: Node) returns (vs: seq<Calls>, as_: seq<Action>)
    ensures vs != [] && Run(vs, as_)
    ensures var v := vs[|vs| - 1];
            && v.calls == map[0 := Call(n, 0, Open)] && v.proxies == map[] && v.owned == {} && v.parked == {7}
            && n in v.records && v.records.Keys == {n} && v.records[n].from == 7
            && ToFirst(v, 1) && ToFirst(v, 2) && v.requests == [0] && v.queued == multiset{0}
            && v.inbox == multiset{} && v.handles == multiset{1, 2} && v.stored == map[]
            && v.refs == map[0 := 2, 1 := 1, 2 := 1]
  {
    hide Run;
    vs, as_ := SendsRequest(n);
    vs, as_ := Longer(vs, as_, Respond(0, 1));
    vs, as_ := Longer(vs, as_, Respond(0, 2));
  }

  /** Both are on their way. */
  lemma AnswersTwice(n: Node) returns (vs: seq<Calls>, as_: seq<Action>)
    ensures vs != [] && Run(vs, as_)
    ensures var v := vs[|vs| - 1];
            && v.calls == map[0 := Call(n, 0, Open)] && v.proxies == map[] && v.owned == {} && v.parked == {7}
            && n in v.records && v.records.Keys == {n} && v.records[n].from == 7
            && ToFirst(v, 1) && ToFirst(v, 2) && v.requests == [0] && v.queued == multiset{0}
            && v.inbox == multiset{1, 2} && v.stored == map[] && v.refs == map[0 := 2, 1 := 2, 2 := 2]
  {
    hide Run;
    vs, as_ := CreatesTwo(n);
    vs, as_ := Longer(vs, as_, Reply(1, OPEN));
    vs, as_ := Longer(vs, as_, Reply(2, OPEN));
  }

  /** The first one comes to the record. */
  lemma FirstHandled(n: Node) returns (vs: seq<Calls>, as_: seq<Action>)
    ensures vs != [] && Run(vs, as_)
    ensures var v := vs[|vs| - 1];
            && v.calls == map[0 := Call(n, 0, Answered(1))] && v.proxies == map[] && v.owned == {} && v.parked == {}
            && n in v.records && v.records.Keys == {n} && ToFirst(v, 2) && v.requests == [0]
            && v.queued == multiset{0, 1} && v.inbox == multiset{2} && v.stored == map[1 := 0]
            && v.refs == map[0 := 2, 1 := 3, 2 := 2]
  {
    hide Run, Enabled, Next;
    vs, as_ := AnswersTwice(n);
    HandlesFirst(vs[|vs| - 1], n);
    vs, as_ := Longer(vs, as_, Handle(1));
  }

  lemma HandlesFirst(v: Calls, n: Node)
    requires v.calls == map[0 := Call(n, 0, Open)] && n in v.records && v.records.Keys == {n} && v.records[n].from == 7
    requires ToFirst(v, 1) && v.inbox == multiset{1, 2} && v.queued == multiset{0} && v.parked == {7}
    requires v.stored == map[] && v.refs == map[0 := 2, 1 := 2, 2 := 2]
    ensures Enabled(v, Handle(1))
    ensures var y := Next(v, Handle(1));
            && y.calls == map[0 := Call(n, 0, Answered(1))] && y.parked == {} && n in y.records && y.records.Keys == {n}
            && y.queued == multiset{0, 1} && y.inbox == multiset{2} && y.stored == map[1 := 0]
            && y.refs == map[0 := 2, 1 := 3, 2 := 2]
            && y == v.(records := y.records, pend := y.pend, ready := y.ready, parked := y.parked, calls := y.calls,
                       queued := y.queued, inbox := y.inbox, stored := y.stored, refs := y.refs)
  {
  }

  /** The call ends. */
  lemma FirstFinished(n: Node) returns (vs: seq<Calls>, as_: seq<Action>)
    ensures vs != [] && Run(vs, as_)
    ensures var v := vs[|vs| - 1];
            && v.calls == map[] && v.proxies == map[] && v.owned == {} && v.parked == {} && v.records == map[]
            && ToFirst(v, 2) && v.requests == [0] && v.queued == multiset{0, 1} && v.inbox == multiset{2}
            && v.stored == map[] && v.refs == map[0 := 1, 1 := 3, 2 := 2]
  {
    hide Run;
    vs, as_ := FirstHandled(n);
    vs, as_ := Longer(vs, as_, Finalize(0));
  }

  /** The request is freed. */
  lemma FirstFreed(n: Node) returns (vs: seq<Calls>, as_: seq<Action>)
    ensures vs != [] && Run(vs, as_)
    ensures var v := vs[|vs| - 1];
            && v.calls == map[] && v.proxies == map[] && v.owned == {} && v.parked == {} && v.records == map[]
            && ToFirst(v, 2) && v.requests == [0] && v.inbox == multiset{2} && v.stored == map[]
            && v.refs == map[1 := 3, 2 := 2]
  {
    hide Run;
    vs, as_ := FirstFinished(n);
    vs, as_ := Longer(vs, as_, Release(0));
  }

  /** The next request has its address; service 8 calls it, and its proxy is about to send. */
  lemma CallsNext(n: Node) returns (vs: seq<Calls>, as_: seq<Action>)
    ensures vs != [] && Run(vs, as_)
    ensures var v := vs[|vs| - 1];
            && v.calls == map[0 := Call(n, 1, Open)] && v.proxies == map[0 := AtSend]
            && n in v.records && ToFirst(v, 2) && v.inbox == multiset{2} && 0 in v.refs && 2 in v.refs
  {
    hide Run;
    vs, as_ := FirstFreed(n);
    vs, as_ := Longer(vs, as_, Create(0));
    vs, as_ := Longer(vs, as_, Begin(0, 8, n));
  }

  /** The second response to the first request finds this call. */
  lemma Crosses(n: Node) returns (vs: seq<Calls>, as_: seq<Action>)
    ensures vs != [] && Run(vs, as_)
    ensures var v := vs[|vs| - 1];
            && v.calls == map[0 := Call(n, 1, Answered(2))] && v.proxies == map[0 := AtSend]
            && ToFirst(v, 2) && n in v.ready && n !in v.pend && 0 in v.refs
  {
    hide Run;
    vs, as_ := CallsNext(n);
    vs, as_ := Longer(vs, as_, Handle(2));
  }

  /** The second call sends its request, and finalize hands it the response that was created from the first one. */
  lemma WrongResponse(n: Node) returns (vs: seq<Calls>, as_: seq<Action>)
    ensures vs != [] && Run(vs, as_) && Ready(vs[|vs| - 1], Finalize(0))
    ensures var v := vs[|vs| - 1];
            && 0 in v.calls && v.calls[0] == Call(n, 1, Answered(2))
            && 2 in v.messages && !v.messages[2].req && v.messages[2].serial == 0
  {
    hide Run;
    vs, as_ := Crosses(n);
    vs, as_ := Longer(vs, as_, Send(0, OPEN));
  }

  /** The send is refused, and the error path takes a record of the ready table for one of the pending table. */
  lemma WrongTable(n: Node) returns (vs: seq<Calls>, as_: seq<Action>)
    ensures vs != [] && Run(vs, as_) && Ready(vs[|vs| - 1], Fail(0)) && !Expected(vs[|vs| - 1], Fail(0))
    ensures var v := vs[|vs| - 1]; 0 in v.calls && v.calls[0].node in v.ready && v.calls[0].node !in v.pend
  {
    hide Run;
    vs, as_ := Crosses(n);
    vs, as_ := Longer(vs, as_, Send(0, FULL));
  }
}
