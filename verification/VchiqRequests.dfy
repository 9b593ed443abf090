/** The await and dequeue requests of one VCHIQ service, and how often each of them is completed.

    Requests are numbered in the order in which they come in.  A request waits in one of the two queues until it is
    served or refused; completing it is a call of the framework that the driver must make exactly once.
  */
module VchiqRequests {

  /** An await-completion request: the size of each message buffer and their number. */
  datatype Await = Await(id: nat, msgBufSize: nat, msgBufCount: nat)

  /** A dequeue-message request with the size of its buffer. */
  datatype Dequeue = Dequeue(id: nat, bufSize: nat)

  // ---------- how often a request is completed ----------

  function AwaitIds(q: seq<Await>): (ids: seq<nat>)
    ensures |ids| == |q| && forall i | 0 <= i < |q| :: ids[i] == q[i].id
  {
    seq(|q|, i requires 0 <= i < |q| => q[i].id)
  }

  function DequeueIds(q: seq<Dequeue>): (ids: seq<nat>)
    ensures |ids| == |q| && forall i | 0 <= i < |q| :: ids[i] == q[i].id
  {
    seq(|q|, i requires 0 <= i < |q| => q[i].id)
  }

  function Ids(q: seq<Dequeue>): multiset<nat> {
    multiset(DequeueIds(q))
  }

  /** The await and dequeue requests that wait. */
  function Waiting(awaits: seq<Await>, dequeues: seq<Dequeue>): multiset<nat> {
    multiset(AwaitIds(awaits)) + Ids(dequeues)
  }

  /** Of the requests numbered below `issued` each waits or has been completed, and those of `failed`, whose own IOCTL
      has ended with an error after they had been put into a queue, have been completed once more. */
  ghost predicate Accounted(calls: multiset<nat>, waiting: multiset<nat>, issued: nat, failed: set<nat>) {
    forall id: nat ::
      && calls[id] + waiting[id] == (if id < issued then 1 else 0) + (if id in failed then 1 else 0)
      && waiting[id] <= 1 && (id in failed ==> id < issued)
  }

  lemma IssueKeeps(calls: multiset<nat>, waiting: multiset<nat>, issued: nat, failed: set<nat>)
    requires Accounted(calls, waiting, issued, failed)
    ensures issued !in failed
    ensures Accounted(calls, waiting + multiset{issued}, issued + 1, failed)
    ensures Accounted(calls + multiset{issued}, waiting, issued + 1, failed)
  {
    assert calls[issued] + waiting[issued] == 0;
  }

  lemma CompleteKeeps(calls: multiset<nat>, waiting: multiset<nat>, issued: nat, failed: set<nat>, id: nat)
    requires Accounted(calls, waiting + multiset{id}, issued, failed)
    ensures Accounted(calls + multiset{id}, waiting, issued, failed)
  {
    var was := waiting + multiset{id};
    forall x: nat
      ensures && (calls + multiset{id})[x] + waiting[x] == (if x < issued then 1 else 0) + (if x in failed then 1 else 0)
              && waiting[x] <= 1 && (x in failed ==> x < issued)
    {
      assert calls[x] + was[x] == (if x < issued then 1 else 0) + (if x in failed then 1 else 0);
    }
  }

  lemma FailKeeps(calls: multiset<nat>, waiting: multiset<nat>, issued: nat, failed: set<nat>, id: nat)
    requires Accounted(calls, waiting, issued, failed) && id < issued && id !in failed
    ensures Accounted(calls + multiset{id}, waiting, issued, failed + {id})
  {
    forall x: nat
      ensures && (calls + multiset{id})[x] + waiting[x] == (if x < issued then 1 else 0) + (if x in failed + {id} then 1 else 0)
              && waiting[x] <= 1 && (x in failed + {id} ==> x < issued)
    {
      assert calls[x] + waiting[x] == (if x < issued then 1 else 0) + (if x in failed then 1 else 0);
    }
  }

  lemma LastAwait(awaits: seq<Await>, dequeues: seq<Dequeue>, a: Await)
    ensures Waiting(awaits + [a], dequeues) == Waiting(awaits, dequeues) + multiset{a.id}
  {
    assert AwaitIds(awaits + [a]) == AwaitIds(awaits) + [a.id];
  }

  lemma LastDequeue(awaits: seq<Await>, dequeues: seq<Dequeue>, d: Dequeue)
    ensures Waiting(awaits, dequeues + [d]) == Waiting(awaits, dequeues) + multiset{d.id}
  {
    assert DequeueIds(dequeues + [d]) == DequeueIds(dequeues) + [d.id];
  }

  lemma FirstAwait(awaits: seq<Await>, dequeues: seq<Dequeue>)
    requires awaits != []
    ensures Waiting(awaits, dequeues) == Waiting(awaits[1..], dequeues) + multiset{awaits[0].id}
  {
    assert AwaitIds(awaits) == [awaits[0].id] + AwaitIds(awaits[1..]);
  }

  lemma FirstDequeue(awaits: seq<Await>, dequeues: seq<Dequeue>)
    requires dequeues != []
    ensures Waiting(awaits, dequeues) == Waiting(awaits, dequeues[1..]) + multiset{dequeues[0].id}
  {
    assert DequeueIds(dequeues) == [dequeues[0].id] + DequeueIds(dequeues[1..]);
  }

  lemma NoIds(requests: seq<Dequeue>)
    ensures Ids(requests[..0]) == multiset{}
  {
  }

  lemma OneMoreId(calls: multiset<nat>, requests: seq<Dequeue>, k: nat)
    requires k < |requests|
    ensures calls + Ids(requests[..k]) + multiset{requests[k].id} == calls + Ids(requests[..k + 1])
  {
    assert DequeueIds(requests[..k + 1]) == DequeueIds(requests[..k]) + [requests[k].id];
  }

  /** How often a request has been completed: while it waits, not at all, and once it has left its queue, exactly once,
      unless its own IOCTL has failed; then once more. */
  lemma CompletedExactly(calls: multiset<nat>, waiting: multiset<nat>, issued: nat, failed: set<nat>, id: nat)
    requires Accounted(calls, waiting, issued, failed)
    ensures calls[id] == if id >= issued then 0 else (if id in waiting then 0 else 1) + (if id in failed then 1 else 0)
    ensures calls[id] <= 2
  {
    assert calls[id] + waiting[id] == (if id < issued then 1 else 0) + (if id in failed then 1 else 0);
  }
}
