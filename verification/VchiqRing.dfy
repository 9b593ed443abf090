/** The circular queue of slot numbers through which a receiver hands slots back to the writer.

    Queue entries are numbered from 0 over the whole run; entry `j` sits at position `j % 64` until entry `j + 64`
    overwrites it.  `supply[j]` is the slot that was put into entry `j`, `claims` the number of entries the writer has
    taken, and `held` the taken entries whose slot has not been handed back.
  */
module VchiqRing {

  const QUEUE_LEN := 64

  /** Entry `j` stands for a slot that is in the queue or with the receiver. */
  predicate Live(supply: seq<nat>, claims: nat, held: set<nat>, j: nat) {
    j < |supply| && (j in held || claims <= j)
  }

  ghost predicate Ring(first: nat, last: nat, queue: seq<nat>, supply: seq<nat>, claims: nat, held: set<nat>) {
    && first < last <= first + QUEUE_LEN
    && |queue| == QUEUE_LEN
    && claims <= |supply|
    && (forall k | k in held :: k < claims)
       // every slot but the last of the range is in the queue or with the receiver, exactly once
    && |held| + (|supply| - claims) == last - first
    && (forall j: nat | Live(supply, claims, held, j) :: first <= supply[j] < last)
    && (forall i: nat, j: nat | Live(supply, claims, held, i) && Live(supply, claims, held, j) && i != j :: supply[i] != supply[j])
       // the last 64 entries are still in the queue
    && (forall j | 0 <= j < |supply| && |supply| <= j + QUEUE_LEN :: queue[j % QUEUE_LEN] == supply[j])
  }

  /** An entry the writer has not taken yet is in range, distinct from all slots in use, and still readable. */
  lemma ClaimKeepsRing(first: nat, last: nat, queue: seq<nat>, supply: seq<nat>, claims: nat, held: set<nat>)
    requires Ring(first, last, queue, supply, claims, held) && claims < |supply|
    ensures |queue| == QUEUE_LEN && queue[claims % QUEUE_LEN] == supply[claims]
    ensures first <= supply[claims] < last
    ensures forall k | k in held :: supply[k] != supply[claims]
    ensures Ring(first, last, queue, supply, claims + 1, held + {claims})
  {
    assert Live(supply, claims, held, claims);
    forall k | k in held ensures supply[k] != supply[claims] {
      assert Live(supply, claims, held, k);
    }
    assert claims !in held;
    assert |held + {claims}| == |held| + 1;
    assert forall j: nat :: Live(supply, claims + 1, held + {claims}, j) ==> Live(supply, claims, held, j);
  }

  lemma RingShape(first: nat, last: nat, queue: seq<nat>, supply: seq<nat>, claims: nat, held: set<nat>)
    requires Ring(first, last, queue, supply, claims, held)
    ensures |queue| == QUEUE_LEN && claims <= |supply| && |supply| - claims <= last - first
  {
  }

  lemma SameResidue(i: nat, j: nat)
    requires i < j < i + QUEUE_LEN
    ensures i % QUEUE_LEN != j % QUEUE_LEN
  {
  }

  /** Handing back a held slot puts it at the next entry. */
  lemma RecycleKeepsRing(first: nat, last: nat, queue: seq<nat>, supply: seq<nat>, claims: nat, held: set<nat>, k: nat)
    requires Ring(first, last, queue, supply, claims, held) && k in held
    ensures Ring(first, last, queue[|supply| % QUEUE_LEN := supply[k]], supply + [supply[k]], claims, held - {k})
  {
    var supply', held' := supply + [supply[k]], held - {k};
    var n := |supply|;
    assert |held'| == |held| - 1;
    assert Live(supply, claims, held, k);
    forall j: nat | Live(supply', claims, held', j) && j < n ensures Live(supply, claims, held, j) && j != k {
    }
    forall j | 0 <= j < n + 1 && n + 1 <= j + QUEUE_LEN
      ensures queue[n % QUEUE_LEN := supply[k]][j % QUEUE_LEN] == supply'[j]
    {
      if j < n {
        SameResidue(j, n);
      }
    }
  }

  lemma {:induction false} IntervalInside(lo: nat, hi: nat, s: set<nat>)
    requires lo <= hi && forall j | lo <= j < hi :: j in s
    ensures hi - lo <= |s|
    decreases hi - lo
  {
    if lo < hi {
      IntervalInside(lo, hi - 1, s - {hi - 1});
    }
  }

  /** While the receiver holds every slot from entry `lo` on, none of these entries has been overwritten. */
  lemma HeldEntryReadable(first: nat, last: nat, queue: seq<nat>, supply: seq<nat>, claims: nat, held: set<nat>,
                          lo: nat, k: nat)
    requires Ring(first, last, queue, supply, claims, held)
    requires lo <= k < claims && forall j | lo <= j < claims :: j in held
    ensures |queue| == QUEUE_LEN && queue[k % QUEUE_LEN] == supply[k] && first <= supply[k] < last
  {
    IntervalInside(lo, claims, held);
    assert Live(supply, claims, held, k);
  }
}
