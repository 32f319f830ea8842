/**
 The capacity check is made outside the lock, so a queue may hold more requests
 than its capacity: by at most one less than the number of concurrent senders.
 */
module SchedCapacity {
  import opened Messages
  import opened Scheduler
  import opened SchedLists

  function Reqs(queue: seq<Rec>): (n: nat)
    ensures n <= |queue|
  {
    if queue == [] then 0 else (if queue[0].req then 1 else 0) + Reqs(queue[1..])
  }

  /** The thread has passed the capacity check of service j with a request, and has not pushed it yet. */
  predicate Passing(pc: Pc, j: nat)
  {
    match pc
    case SendAddRef(i, _, req) => i == j && req
    case SendPush(i, rec) => i == j && rec.req
    case _ => false
  }

  /** The number of threads that are past the check of service j. */
  function Senders(threads: seq<Thread>, j: nat): nat
  {
    if threads == [] then 0 else (if Passing(threads[0].pc, j) then 1 else 0) + Senders(threads[1..], j)
  }

  lemma {:induction false} SendersUpdate(threads: seq<Thread>, t: nat, th: Thread, j: nat)
    requires t < |threads|
    ensures Senders(threads[t := th], j) + (if Passing(threads[t].pc, j) then 1 else 0)
            == Senders(threads, j) + (if Passing(th.pc, j) then 1 else 0)
  {
    if t > 0 {
      assert threads[t := th][1..] == threads[1..][t - 1 := th];
      SendersUpdate(threads[1..], t - 1, th, j);
    } else {
      assert threads[t := th][1..] == threads[1..];
    }
  }

  lemma {:induction false} SendersBound(threads: seq<Thread>, j: nat)
    ensures Senders(threads, j) <= |threads|
  {
    if threads != [] {
      SendersBound(threads[1..], j);
    }
  }

  lemma {:induction false} ReqsAppend(queue: seq<Rec>, rec: Rec)
    ensures Reqs(queue + [rec]) == Reqs(queue) + (if rec.req then 1 else 0)
  {
    if queue == [] {
      assert queue + [rec] == [rec];
    } else {
      assert (queue + [rec])[1..] == queue[1..] + [rec];
      ReqsAppend(queue[1..], rec);
    }
  }

  /** The requests of service j that are queued or on their way, when at most k threads send at a time. */
  predicate Bounded(s: State, j: nat, k: nat)
  {
    j < |s.group.svcs| && Reqs(s.group.svcs[j].queue) + Senders(s.threads, j) < s.group.svcs[j].capacity + k
  }

  /** A change appends the accepted record at most, and never alters the capacity. */
  lemma ChangedReqs(g: Group, c: Change, j: nat)
    requires InGroup(g, c) && j < |g.svcs|
    requires c.Edit? ==> c.v.capacity == g.svcs[c.i].capacity && Reqs(c.v.queue) <= Reqs(g.svcs[c.i].queue)
    ensures j < |Apply(g, c).svcs|
    ensures var v := Apply(g, c).svcs[j];
            && v.capacity == g.svcs[j].capacity
            && Reqs(v.queue) <= Reqs(g.svcs[j].queue) + (if c.Accept? && c.i == j && c.rec.req then 1 else 0)
  {
    hide Apply, Reqs;
    ApplySize(g, c);
    Touches(g, c, j);
    if c.Accept? {
      ReqsAppend(g.svcs[c.i].queue, c.rec);
    }
  }

  lemma TargetReqs(v: Svc, i: nat, w: Worker, choice: bool)
    ensures var c := TargetChange(v, i, w, choice);
            !c.Accept? && (c.Edit? ==> c.i == i && c.v.capacity == v.capacity && Reqs(c.v.queue) <= Reqs(v.queue))
  {
  }

  lemma WorkerBounded(s: State, choice: bool, j: nat, k: nat)
    requires WorkerEnabled(s, choice) && Bounded(s, j, k)
    ensures Bounded(WorkerNext(s, choice), j, k)
  {
    hide Apply, TargetChange, WorkerPc, Target, WorkerReady, Counted, Reqs, Senders, Destroys;
    var i := Target(s.worker, |s.group.svcs|);
    if i.Some? {
      TargetReqs(s.group.svcs[i.value], i.value, s.worker, choice);
    }
    ChangedReqs(s.group, WorkerChange(s, choice), j);
  }

  /** A thread joins the senders by passing the check, and leaves them by pushing its request. */
  lemma PcBounded(s: State, t: nat, j: nat, k: nat)
    requires ThreadEnabled(s, t, Continue) && Bounded(s, j, k) && Senders(PcStep(s, t).threads, j) <= k
    ensures Bounded(PcStep(s, t), j, k)
  {
    hide Apply, Reqs, Senders, MayCall, Counted, PcRefs;
    var pc := s.threads[t].pc;
    SendersUpdate(s.threads, t, PcStep(s, t).threads[t], j);
    ChangedReqs(s.group, PcChange(s.group, pc), j);
  }

  lemma CallBounded(s: State, t: nat, op: Op, j: nat, k: nat)
    requires ThreadEnabled(s, t, op) && op != Continue && Bounded(s, j, k)
    ensures Bounded(ThreadNext(s, t, op), j, k)
  {
    hide Reqs, Senders, ThreadSafe, IncRef, DecRef;
    SendersUpdate(s.threads, t, ThreadNext(s, t, op).threads[t], j);
  }

  lemma BoundedStep(s: State, a: Action, j: nat, k: nat)
    requires Enabled(s, a) && Bounded(s, j, k) && Senders(Next(s, a).threads, j) <= k
    ensures Bounded(Next(s, a), j, k)
  {
    hide PcStep, WorkerNext, WorkerEnabled, ThreadEnabled, Bounded, Senders;
    match a
    case WorkerStep(choice) => WorkerBounded(s, choice, j, k);
    case ThreadStep(t, op) =>
      if op == Continue {
        PcBounded(s, t, j, k);
      } else {
        CallBounded(s, t, op, j, k);
      }
  }
}
