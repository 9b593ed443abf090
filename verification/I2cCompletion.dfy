/** Who completes an I2C request: the dispatch routine, the DPC or the cancel routine.

    Each step is what one agent does under the cancel lock, or between two of its acquisitions: starting a request,
    the framework's cancellation, the two halves of OnRequestCancel, and the three parts of OnInterruptDpc.  Any number
    of requests, cancellations and DPC instances interleave freely, and a DPC may be queued at any time, so that stale
    ones are covered.  The framework starts a request only when every earlier one has been completed.
  */
module I2cCompletion {
  import opened Runs

  datatype Current = NoRequest | Request(r: nat)

  datatype CancelRoutine = NotCalled | Entered | Claimed | Returned

  /** A request as the framework and its cancel routine see it. */
  datatype Spb = Spb(started: bool, marked: bool, cancelRequested: bool, routine: CancelRoutine, completions: nat)

  /** The next part of a DPC instance. */
  datatype Dpc = Off | Enter | ResetHardware(r: nat) | Complete(r: nat)

  datatype State = State(requests: seq<Spb>, current: Current, dpcs: seq<Dpc>, dpcQueued: bool)

  datatype Action =
    | Start(r: nat, refused: bool)
    | Cancel(r: nat)
    | CancelClaim(r: nat)
    | CancelComplete(r: nat)
    | QueueDpc
    | DpcStart(d: nat)
    | DpcStep(d: nat)

  predicate Init(s: State) {
    && (forall r | 0 <= r < |s.requests| :: s.requests[r] == Spb(false, false, false, NotCalled, 0))
    && s.current == NoRequest && !s.dpcQueued
    && (forall d | 0 <= d < |s.dpcs| :: s.dpcs[d] == Off)
  }

  predicate Enabled(s: State, a: Action) {
    match a
    case Start(r, _) =>
      && r < |s.requests| && !s.requests[r].started
      && forall q | 0 <= q < |s.requests| && s.requests[q].started :: s.requests[q].completions > 0
    case Cancel(r) => r < |s.requests| && !s.requests[r].cancelRequested && s.requests[r].completions == 0
    case CancelClaim(r) => r < |s.requests| && s.requests[r].routine == Entered
    case CancelComplete(r) => r < |s.requests| && s.requests[r].routine == Claimed
    case QueueDpc => true
    case DpcStart(d) => s.dpcQueued && d < |s.dpcs| && s.dpcs[d] == Off
    case DpcStep(d) =>
      && d < |s.dpcs| && s.dpcs[d] != Off
      && (s.current.Request? ==> s.current.r < |s.requests|)
      && (s.dpcs[d].Complete? ==> s.dpcs[d].r < |s.requests|)
  }

  function Apply(s: State, a: Action): State
    requires Enabled(s, a)
  {
    match a
    case Start(r, refused) => StartRequest(s, r, refused)
    case Cancel(r) =>
      // a cancelable request has its cancel routine called
      var q := s.requests[r];
      WithRequest(s, r, q.(cancelRequested := true, marked := false, routine := if q.marked then Entered else q.routine))
    case CancelClaim(r) =>
      // OnRequestCancel under the lock: nothing to cancel, or reset and take the request
      var q := s.requests[r];
      if s.current == NoRequest then WithRequest(s, r, q.(routine := Returned))
      else WithRequest(s, r, q.(routine := Claimed)).(current := NoRequest)
    case CancelComplete(r) =>
      var q := s.requests[r];
      WithRequest(s, r, q.(routine := Returned, completions := q.completions + 1))
    case QueueDpc => s.(dpcQueued := true)
    case DpcStart(d) => s.(dpcQueued := false, dpcs := s.dpcs[d := Enter])
    case DpcStep(d) => DpcPart(s, d)
  }

  function WithRequest(s: State, r: nat, q: Spb): State
    requires r < |s.requests|
  {
    s.(requests := s.requests[r := q])
  }

  /** OnRead, OnWrite or OnSequence: refused outright, or set up and marked cancelable; marking fails for a request
      whose cancellation has been asked for, and it is then completed on the spot. */
  function StartRequest(s: State, r: nat, refused: bool): State
    requires r < |s.requests|
  {
    var q := s.requests[r].(started := true);
    if refused then WithRequest(s, r, q.(completions := q.completions + 1))
    else if q.cancelRequested then WithRequest(s, r, q.(completions := q.completions + 1)).(current := NoRequest)
    else WithRequest(s, r, q.(marked := true)).(current := Request(r))
  }

  /** OnInterruptDpc: claim the current request under the lock, reset the hardware, complete it. */
  function DpcPart(s: State, d: nat): State
    requires Enabled(s, DpcStep(d))
  {
    match s.dpcs[d]
    case Enter =>
      if s.current == NoRequest then s.(dpcs := s.dpcs[d := Off])
      else
        var r := s.current.r;
        var q := s.requests[r];
        if q.marked
        then WithRequest(s, r, q.(marked := false)).(current := NoRequest, dpcs := s.dpcs[d := ResetHardware(r)])
        else if q.cancelRequested then s.(dpcs := s.dpcs[d := Off])
        else s.(current := NoRequest, dpcs := s.dpcs[d := Complete(r)])
    case ResetHardware(r) => s.(current := NoRequest, dpcs := s.dpcs[d := Complete(r)])
    case Complete(r) =>
      var q := s.requests[r];
      WithRequest(s, r, q.(completions := q.completions + 1)).(dpcs := s.dpcs[d := Off])
  }

  function Next(s: State, a: Action): Option<State> {
    if Enabled(s, a) then Some(Apply(s, a)) else None
  }

  // ---------- the invariant ----------

  predicate Owns(d: Dpc) {
    d.ResetHardware? || d.Complete?
  }

  ghost predicate OwnedByDpc(dpcs: seq<Dpc>, r: nat) {
    exists d :: 0 <= d < |dpcs| && Owns(dpcs[d]) && dpcs[d].r == r
  }

  /** A started request has one owner: it is current, a DPC or the cancel routine has claimed it, or it is completed. */
  ghost predicate OneOwner(s: State, r: nat)
    requires r < |s.requests|
  {
    var q := s.requests[r];
    && (q.marked ==> s.current == Request(r) && !q.cancelRequested)
    && (q.routine == Entered ==> s.current == Request(r))
    && (!q.started ==> q.routine == NotCalled)
    && (s.current == Request(r) ==>
          q.started && q.completions == 0 && !OwnedByDpc(s.dpcs, r)
          && (if q.marked then q.routine == NotCalled else q.routine == Entered && q.cancelRequested))
    && (OwnedByDpc(s.dpcs, r) ==> q.started && q.completions == 0 && q.routine != Claimed)
    && (q.routine == Claimed ==> q.started && q.completions == 0)
    && q.completions <= 1
    && (q.completions == 1 ==> q.started)
    && (q.started && q.completions == 0 ==>
          s.current == Request(r) || OwnedByDpc(s.dpcs, r) || q.routine == Claimed)
  }

  ghost predicate Inv(s: State) {
    && (s.current.Request? ==> s.current.r < |s.requests|)
    && (forall d | 0 <= d < |s.dpcs| && Owns(s.dpcs[d]) :: s.dpcs[d].r < |s.requests|)
    && (forall d, e | 0 <= d < |s.dpcs| && 0 <= e < |s.dpcs| && Owns(s.dpcs[d]) && Owns(s.dpcs[e]) :: d == e)
    && (forall r: nat | r < |s.requests| :: OneOwner(s, r))
       // the framework hands over one request at a time
    && (forall q: nat, r: nat | Open(s, q) && Open(s, r) :: q == r)
  }

  predicate Open(s: State, r: nat) {
    r < |s.requests| && s.requests[r].started && s.requests[r].completions == 0
  }

  lemma DpcOwners(dpcs: seq<Dpc>, d: nat, x: Dpc, r: nat)
    requires d < |dpcs|
    ensures OwnedByDpc(dpcs[d := x], r)
            <==> (Owns(x) && x.r == r) || exists e :: 0 <= e < |dpcs| && e != d && Owns(dpcs[e]) && dpcs[e].r == r
    ensures OwnedByDpc(dpcs, r)
            <==> (Owns(dpcs[d]) && dpcs[d].r == r) || exists e :: 0 <= e < |dpcs| && e != d && Owns(dpcs[e]) && dpcs[e].r == r
  {
    var t := dpcs[d := x];
    if OwnedByDpc(t, r) {
      var e :| 0 <= e < |t| && Owns(t[e]) && t[e].r == r;
      assert e != d ==> dpcs[e] == t[e];
    }
    if Owns(x) && x.r == r {
      assert t[d] == x;
    } else if e :| 0 <= e < |dpcs| && e != d && Owns(dpcs[e]) && dpcs[e].r == r {
      assert t[e] == dpcs[e];
    }
  }

  lemma RequestStepKeepsInv(s: State, a: Action)
    requires Inv(s) && Enabled(s, a) && !a.DpcStart? && !a.DpcStep?
    ensures Inv(Apply(s, a))
  {
    var t := Apply(s, a);
    assert t.dpcs == s.dpcs;
    assert s.current.Request? ==> OneOwner(s, s.current.r) && Open(s, s.current.r);
    assert a.Start? || a.CancelClaim? || a.Cancel? || a.CancelComplete? ==> OneOwner(s, a.r);
    forall q: nat | Open(t, q) ensures Open(s, q) || (a.Start? && q == a.r) {
    }
    forall q: nat | a.Start? && Open(s, q) ensures false {
    }
    forall r: nat | r < |t.requests| ensures OneOwner(t, r) {
      assert OneOwner(s, r);
    }
  }

  lemma DpcStepKeepsInv(s: State, a: Action)
    requires Inv(s) && Enabled(s, a) && (a.DpcStart? || a.DpcStep?)
    ensures Inv(Apply(s, a))
  {
    var t := Apply(s, a);
    var d := a.d;
    assert t.dpcs == s.dpcs[d := t.dpcs[d]];
    assert s.current.Request? ==> OneOwner(s, s.current.r) && Open(s, s.current.r);
    forall e | 0 <= e < |s.dpcs| && Owns(s.dpcs[e])
      ensures OneOwner(s, s.dpcs[e].r) && OwnedByDpc(s.dpcs, s.dpcs[e].r) && Open(s, s.dpcs[e].r)
    {
    }
    forall q: nat | Open(t, q) ensures Open(s, q) {
    }
    forall r: nat | r < |t.requests| ensures OneOwner(t, r) {
      assert OneOwner(s, r);
      DpcOwners(s.dpcs, d, t.dpcs[d], r);
    }
  }

  lemma {:induction false} RunKeepsInv(s: State, actions: seq<Action>, t: State)
    requires Inv(s) && IsRun(Next, s, actions, t)
    ensures Inv(t)
    decreases |actions|
  {
    if actions != [] {
      if actions[0].DpcStart? || actions[0].DpcStep? {
        DpcStepKeepsInv(s, actions[0]);
      } else {
        RequestStepKeepsInv(s, actions[0]);
      }
      RunKeepsInv(Apply(s, actions[0]), actions[1..], t);
    }
  }

  // ---------- exactly once ----------

  /** Nobody has anything left to do. */
  predicate Settled(s: State) {
    && (forall d | 0 <= d < |s.dpcs| :: s.dpcs[d] == Off)
    && (forall r | 0 <= r < |s.requests| :: s.requests[r].routine == NotCalled || s.requests[r].routine == Returned)
  }

  /** In every run each request is completed at most once, never before it is started, and, once the DPCs and cancel
      routines have returned, exactly once unless it is still current and can be cancelled. */
  lemma ExactlyOnce(s: State, actions: seq<Action>, t: State, r: nat)
    requires Init(s) && IsRun(Next, s, actions, t) && r < |t.requests|
    ensures t.requests[r].completions <= 1
    ensures !t.requests[r].started ==> t.requests[r].completions == 0
    ensures Settled(t) && t.requests[r].started ==>
              if t.current == Request(r) then t.requests[r].marked && t.requests[r].completions == 0
              else t.requests[r].completions == 1
  {
    RunKeepsInv(s, actions, t);
    assert OneOwner(t, r);
  }

  lemma AtMostOnce(s: State)
    requires Inv(s)
    ensures forall r: nat | r < |s.requests| :: s.requests[r].completions <= 1
  {
    forall r: nat | r < |s.requests| ensures s.requests[r].completions <= 1 {
      assert OneOwner(s, r);
    }
  }

  /** A DPC that finds its request cancelled changes nothing but its own progress. */
  lemma DpcAfterCancel(s: State, d: nat)
    requires Inv(s) && Enabled(s, DpcStep(d)) && s.dpcs[d] == Enter
    requires s.current.Request? ==> s.requests[s.current.r].cancelRequested
    ensures Apply(s, DpcStep(d)) == s.(dpcs := s.dpcs[d := Off])
  {
    if s.current.Request? {
      assert OneOwner(s, s.current.r);
    }
  }

  lemma DpcOwner(s: State, d: nat)
    requires Inv(s) && d < |s.dpcs| && Owns(s.dpcs[d])
    ensures Open(s, s.dpcs[d].r) && s.current == NoRequest
    ensures forall e | 0 <= e < |s.dpcs| && Owns(s.dpcs[e]) :: e == d
  {
    assert OneOwner(s, s.dpcs[d].r) && OwnedByDpc(s.dpcs, s.dpcs[d].r) && Open(s, s.dpcs[d].r);
    assert s.current.Request? ==> OneOwner(s, s.current.r) && Open(s, s.current.r);
  }

  /** A request is started only when nobody has anything left to do with an earlier one. */
  lemma StartFindsIdle(s: State, r: nat, refused: bool)
    requires Inv(s) && Enabled(s, Start(r, refused))
    ensures s.current == NoRequest && forall d | 0 <= d < |s.dpcs| :: !Owns(s.dpcs[d])
    ensures s.requests[r].completions == 0 && s.requests[r].routine == NotCalled
  {
    assert OneOwner(s, r);
    assert s.current.Request? ==> OneOwner(s, s.current.r);
    forall d | 0 <= d < |s.dpcs| && Owns(s.dpcs[d]) ensures false {
      DpcOwner(s, d);
    }
  }

  /** The current request is marked cancelable or in the hands of its cancel routine, and no DPC owns any. */
  lemma CurrentAlone(s: State)
    requires Inv(s) && s.current.Request?
    ensures s.current.r < |s.requests|
    ensures var q := s.requests[s.current.r]; if q.marked then q.routine == NotCalled else q.routine == Entered && q.cancelRequested
    ensures forall d | 0 <= d < |s.dpcs| :: !Owns(s.dpcs[d])
  {
    assert OneOwner(s, s.current.r);
    forall d | 0 <= d < |s.dpcs| && Owns(s.dpcs[d]) ensures false {
      DpcOwner(s, d);
    }
  }

  /** A reset of the hardware never hits a request other than the one being finished. */
  lemma ResetHitsNoOther(s: State, a: Action)
    requires Inv(s) && Enabled(s, a)
    requires a.CancelClaim? || (a.DpcStep? && s.dpcs[a.d].ResetHardware?)
    ensures var r := if a.CancelClaim? then a.r else s.dpcs[a.d].r;
            && r < |s.requests| && s.requests[r].started && s.requests[r].completions == 0
            && (a.CancelClaim? ==> s.current == Request(r))
            && (a.DpcStep? ==> s.current == NoRequest)
  {
    if a.CancelClaim? {
      assert OneOwner(s, a.r);
    } else {
      var r := s.dpcs[a.d].r;
      assert OneOwner(s, r) && OwnedByDpc(s.dpcs, r) && Open(s, r);
      if s.current.Request? {
        assert OneOwner(s, s.current.r) && Open(s, s.current.r);
      }
    }
  }
}
