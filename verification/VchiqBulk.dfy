/** The bulk transfers of one direction of a VCHIQ service: the pending bulk list and the request queue, and which DONE
    of the peer speaks for which submission.
  */
module VchiqBulk {

  datatype Mode = Callback | Blocking | NoCallback | WaitingMode

  /** VCHIQ_PENDING_BULK_MSG: what the client wants to be told when its transfer is done. */
  datatype Bulk = Bulk(userData: nat, mode: Mode)

  /** A bulk request, kept on a request queue until the peer reports the transfer done. */
  datatype Request = Request(id: nat, bulk: Bulk)

  function BulksOf(requests: seq<Request>): (b: seq<Bulk>)
    ensures |b| == |requests|
    ensures forall i | 0 <= i < |requests| :: b[i] == requests[i].bulk
  {
    seq(|requests|, i requires 0 <= i < |requests| => requests[i].bulk)
  }

  /** The history of one direction: the requests accepted, and those completed by a DONE that went on to the data
      list.  A request is gone when it was cancelled while it waited, or when its DONE could not be put into the data
      list; `alive` and `gone` hold the positions, in the order of acceptance, of the other requests and of those. */
  datatype Lane = Lane(accepted: seq<Request>, completed: seq<Request>, alive: seq<nat>, gone: set<nat>,
                       reported: seq<Bulk>)

  const NEW_LANE := Lane([], [], [], {}, [])

  /** `queue` is the request queue, `list` the pending bulk list, and `dones` the DONEs that wait in the data list. */
  ghost predicate LaneInv(l: Lane, list: seq<Bulk>, queue: seq<Request>, dones: nat) {
    && l.reported + list == BulksOf(l.accepted)
    && |l.completed| == |l.reported| + dones
    && |l.alive| == |l.completed| + |queue|
    && (forall j | 0 <= j < |l.alive| :: l.alive[j] < |l.accepted| && l.accepted[l.alive[j]] == (l.completed + queue)[j])
    && (forall i, j | 0 <= i < j < |l.alive| :: l.alive[i] < l.alive[j])
    && (forall p: nat | p < |l.accepted| :: p in l.alive <==> p !in l.gone)
    && (forall c | c in l.gone :: c < |l.accepted|)
  }

  lemma {:induction false} AliveGap(alive: seq<nat>, i: nat, j: nat)
    requires i <= j < |alive| && forall x, y | 0 <= x < y < |alive| :: alive[x] < alive[y]
    ensures alive[i] + (j - i) <= alive[j]
  {
    if i < j {
      AliveGap(alive, i, j - 1);
    }
  }

  lemma {:induction false} AliveInPlace(alive: seq<nat>, k: nat)
    requires k < |alive| && forall i, j | 0 <= i < j < |alive| :: alive[i] < alive[j]
    ensures alive[k] == k <==> forall p: nat | p <= k :: p in alive
  {
    if alive[k] == k {
      forall p: nat | p <= k ensures p in alive {
        AliveGap(alive, 0, p);
        AliveGap(alive, p, k);
        assert alive[p] == p;
      }
    } else if forall p: nat | p <= k :: p in alive {
      assert k in alive;
      var j :| 0 <= j < |alive| && alive[j] == k;
      AliveGap(alive, 0, k);
      if j < k {
        AliveInPlace(alive, j);
        assert false;
      }
    }
  }

  /** Bulk completion pairing.  Report number `k` gives the user data and mode of the k-th accepted submission; the
      request its DONE has completed is number `alive[k]`, and that is the k-th too if and only if no request accepted
      up to then is gone. */
  lemma PairedExactly(l: Lane, list: seq<Bulk>, queue: seq<Request>, dones: nat, k: nat)
    requires LaneInv(l, list, queue, dones) && k < |l.reported|
    ensures k < |l.completed| && k < |l.accepted| && l.reported[k] == l.accepted[k].bulk
    ensures l.alive[k] < |l.accepted| && l.completed[k] == l.accepted[l.alive[k]]
    ensures l.alive[k] == k <==> forall c | c in l.gone :: c > k
  {
    assert (l.reported + list)[k] == l.reported[k];
    assert (l.completed + queue)[k] == l.completed[k];
    AliveInPlace(l.alive, k);
    if forall c | c in l.gone :: c > k {
      assert forall p: nat | p <= k :: p in l.alive;
    }
  }

  // ---------- lanes across steps ----------

  lemma AcceptKeepsLane(l: Lane, list: seq<Bulk>, queue: seq<Request>, dones: nat, r: Request)
    requires LaneInv(l, list, queue, dones)
    ensures LaneInv(l.(accepted := l.accepted + [r], alive := l.alive + [|l.accepted|]), list + [r.bulk], queue + [r], dones)
  {
    var l' := l.(accepted := l.accepted + [r], alive := l.alive + [|l.accepted|]);
    assert BulksOf(l'.accepted) == BulksOf(l.accepted) + [r.bulk];
    assert l'.reported + (list + [r.bulk]) == l.reported + list + [r.bulk];
    assert l'.completed + (queue + [r]) == l.completed + queue + [r];
    forall p: nat | p < |l'.accepted| ensures p in l'.alive <==> p !in l'.gone {
      if p < |l.accepted| {
        assert p in l.alive <==> p in l'.alive;
      } else {
        assert l'.alive[|l.alive|] == p;
      }
    }
  }

  /** A DONE completes the request at the head of the queue, which is gone when the DONE is then dropped. */
  function Completed(l: Lane, r: Request, dropped: bool): (after: Lane)
    requires dropped ==> |l.completed| < |l.alive|
    ensures after.reported == l.reported && after.accepted == l.accepted
  {
    if dropped then CancelAt(l, 0) else l.(completed := l.completed + [r])
  }

  lemma CompleteKeepsLane(l: Lane, list: seq<Bulk>, queue: seq<Request>, dones: nat, dropped: bool)
    requires LaneInv(l, list, queue, dones) && queue != []
    ensures |l.completed| < |l.alive|
    ensures LaneInv(Completed(l, queue[0], dropped), list, queue[1..], dones + if dropped then 0 else 1)
  {
    assert l.completed + [queue[0]] + queue[1..] == l.completed + queue;
    assert Without(queue, 0) == queue[1..];
    if dropped {
      CancelKeepsLane(l, list, queue, dones, 0);
    }
  }

  /** A DONE that waits in the data list always finds a pending bulk. */
  lemma DoneFindsBulk(l: Lane, list: seq<Bulk>, queue: seq<Request>, dones: nat)
    requires LaneInv(l, list, queue, dones)
    ensures dones <= |list|
  {
    assert |l.reported + list| == |l.accepted|;
    if l.alive != [] {
      AliveGap(l.alive, 0, |l.alive| - 1);
    }
  }

  lemma ReportKeepsLane(l: Lane, list: seq<Bulk>, queue: seq<Request>, dones: nat, n: nat)
    requires LaneInv(l, list, queue, dones) && n <= dones && n <= |list|
    ensures LaneInv(l.(reported := l.reported + list[..n]), list[n..], queue, dones - n)
  {
    assert l.reported + list[..n] + list[n..] == l.reported + list;
  }

  function Without<T>(s: seq<T>, j: nat): (t: seq<T>)
    requires j < |s|
    ensures |t| == |s| - 1
    ensures forall x | 0 <= x < |t| :: t[x] == s[if x < j then x else x + 1]
  {
    s[..j] + s[j + 1..]
  }

  lemma WithoutAscending(s: seq<nat>, j: nat)
    requires j < |s| && forall x, y | 0 <= x < y < |s| :: s[x] < s[y]
    ensures forall x, y | 0 <= x < y < |s| - 1 :: Without(s, j)[x] < Without(s, j)[y]
    ensures forall p: nat :: p in Without(s, j) <==> p in s && p != s[j]
  {
    hide Without;
    var t := Without(s, j);
    forall p: nat | p in s && p != s[j] ensures p in t {
      var x :| 0 <= x < |s| && s[x] == p;
      assert t[if x < j then x else x - 1] == p;
    }
  }

  function CancelAt(l: Lane, i: nat): Lane
    requires |l.completed| + i < |l.alive|
  {
    var j := |l.completed| + i;
    l.(alive := Without(l.alive, j), gone := l.gone + {l.alive[j]})
  }

  lemma WithoutBehind<T>(a: seq<T>, b: seq<T>, i: nat)
    requires i < |b|
    ensures a + Without(b, i) == Without(a + b, |a| + i)
  {
  }

  lemma CancelKeepsLane(l: Lane, list: seq<Bulk>, queue: seq<Request>, dones: nat, i: nat)
    requires LaneInv(l, list, queue, dones) && i < |queue|
    ensures LaneInv(CancelAt(l, i), list, Without(queue, i), dones)
  {
    var j := |l.completed| + i;
    AliveWithout(l.alive, l.accepted, l.completed + queue, j);
    WithoutAscending(l.alive, j);
    WithoutBehind(l.completed, queue, i);
    hide Without;
  }

  /** Taking out an element here and its request there keeps the positions. */
  lemma AliveWithout(alive: seq<nat>, accepted: seq<Request>, requests: seq<Request>, j: nat)
    requires j < |alive| == |requests|
    requires forall x | 0 <= x < |alive| :: alive[x] < |accepted| && accepted[alive[x]] == requests[x]
    ensures forall x | 0 <= x < |alive| - 1 ::
              Without(alive, j)[x] < |accepted| && accepted[Without(alive, j)[x]] == Without(requests, j)[x]
  {
  }

  /** How a cancellation shifts the pairing: from its place on, every DONE completes a later request than the one it will
      be reported for. */
  lemma CancelShifts(l: Lane, list: seq<Bulk>, queue: seq<Request>, dones: nat, i: nat, k: nat)
    requires LaneInv(l, list, queue, dones) && i < |queue|
    requires |l.completed| + i <= k < |CancelAt(l, i).alive|
    ensures CancelAt(l, i).alive[k] > k
  {
    AliveGap(l.alive, 0, k + 1);
  }
}
