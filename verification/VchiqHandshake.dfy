/** The Armed/Fired doorbell handshake that wakes a VCHIQ worker thread.

    Three kinds of agent share one remote event: peers that publish a position and signal it
    (the mirror image of VchiqSignalVC), the doorbell interrupt with its DPCs (VchiqIsr, VchiqDpc), and the
    worker thread (VchiqTriggerThreadRoutine with VchiqProcessRxSlot, or VchiqRecycleThreadRoutine with
    VchiqProcessRecycleTxSlot).  Every shared read and every shared write is a step of its own, steps of any
    number of peers and of any number of concurrently running DPC instances interleave freely, and memory is
    sequentially consistent.
  */
module VchiqHandshake {
  import opened Runs

  /** Which event the worker serves; the two workers compare positions differently. */
  datatype Event = Trigger | Recycle

  /** The next shared access of a peer. */
  datatype PeerPc = Idle | Fire | TestArmed | Ring

  /** The next shared access of a DPC instance. */
  datatype DpcPc = Off | ReadArmed | ReadFired | ClearArmed | SetEvent

  /** The next shared access of the worker. */
  datatype WorkerPc = TestSignal | Waiting | TestPosition | Consume | Reset | Arm | LateReset

  /** `resetLate` selects a variant of the worker that the driver does not use: Fired is cleared once, after the
      event has been armed, instead of after each message and before arming. */
  datatype State = State(
    event: Event, resetLate: bool,
    peers: seq<PeerPc>, dpcs: seq<DpcPc>, worker: WorkerPc,
    tx: int, rx: int, armed: bool, fired: bool,
    bell: bool, dpcQueued: bool, wake: bool)

  datatype Action =
    | Publish(peer: nat, position: int)
    | Signal(peer: nat)
    | Isr
    | DpcStart(dpc: nat)
    | DpcStep(dpc: nat)
    | Work(newRx: int)

  /** The worker's loop condition: slots.c compares stream positions with `<` and recycle indices with `!=`. */
  predicate Unread(s: State) {
    if s.event.Trigger? then s.rx < s.tx else s.rx != s.tx
  }

  /** VchiqInit arms the event before the threads start. */
  predicate Init(s: State) {
    && s.worker == TestSignal && s.armed && !s.fired && !s.bell && !s.dpcQueued && !s.wake
    && !Unread(s)
    && (forall i | 0 <= i < |s.peers| :: s.peers[i] == Idle)
    && (forall d | 0 <= d < |s.dpcs| :: s.dpcs[d] == Off)
  }

  predicate Enabled(s: State, a: Action) {
    match a
    case Publish(i, _) => i < |s.peers| && s.peers[i] == Idle
    case Signal(i) => i < |s.peers| && s.peers[i] != Idle
    case Isr => s.bell
    case DpcStart(d) => s.dpcQueued && d < |s.dpcs| && s.dpcs[d] == Off
    case DpcStep(d) => d < |s.dpcs| && s.dpcs[d] != Off
    case Work(_) => s.worker == Waiting ==> s.wake
  }

  function Apply(s: State, a: Action): State
    requires Enabled(s, a)
  {
    match a
    case Publish(i, p) => s.(tx := p, peers := s.peers[i := Fire])
    case Signal(i) => PeerStep(s, i)
    case Isr => s.(bell := false, dpcQueued := true)
    case DpcStart(d) => s.(dpcQueued := false, dpcs := s.dpcs[d := ReadArmed])
    case DpcStep(d) => DpcAccess(s, d)
    case Work(newRx) => WorkerStep(s, newRx)
  }

  /** The worker's place in its loop and both positions are the same. */
  predicate SameWork(s: State, t: State) {
    t.worker == s.worker && t.event == s.event && t.rx == s.rx && t.tx == s.tx && |t.dpcs| == |s.dpcs|
  }

  /** VchiqSignalVC as the peer runs it: Fired := 1, test Armed, ring the doorbell. */
  function PeerStep(s: State, i: nat): (t: State)
    requires i < |s.peers| && s.peers[i] != Idle
    ensures SameWork(s, t)
  {
    match s.peers[i]
    case Fire => s.(fired := true, peers := s.peers[i := TestArmed])
    case TestArmed => s.(peers := s.peers[i := if s.armed then Ring else Idle])
    case Ring => s.(bell := true, peers := s.peers[i := Idle])
  }

  /** VchiqDpc for one event: `if (Armed && Fired) { Armed = 0; KeSetEvent(..) }`, read by read. */
  function DpcAccess(s: State, d: nat): (t: State)
    requires d < |s.dpcs| && s.dpcs[d] != Off
    ensures SameWork(s, t)
  {
    match s.dpcs[d]
    case ReadArmed => s.(dpcs := s.dpcs[d := if s.armed then ReadFired else Off])
    case ReadFired => s.(dpcs := s.dpcs[d := if s.fired then ClearArmed else Off])
    case ClearArmed => s.(armed := false, dpcs := s.dpcs[d := SetEvent])
    case SetEvent => s.(wake := true, dpcs := s.dpcs[d := Off])
  }

  /** The thread routine and the drain loop it runs. The wait is on an auto-reset event. */
  function WorkerStep(s: State, newRx: int): State
    requires s.worker == Waiting ==> s.wake
  {
    match s.worker
    case TestSignal => s.(worker := if s.fired then TestPosition else Waiting)
    case Waiting => s.(wake := false, worker := TestPosition)
    case TestPosition => s.(worker := if Unread(s) then Consume else Arm)
    case Consume => s.(rx := newRx, worker := if s.resetLate then TestPosition else Reset)
    case Reset => s.(fired := false, worker := TestPosition)
    case Arm => s.(armed := true, worker := if s.resetLate then LateReset else TestSignal)
    case LateReset => s.(fired := false, worker := TestSignal)
  }

  // ---------- runs ----------

  function Next(s: State, a: Action): Option<State> {
    if Enabled(s, a) then Some(Apply(s, a)) else None
  }

  // ---------- safety ----------

  ghost predicate PeerAt(peers: seq<PeerPc>, pc: PeerPc) {
    exists i :: 0 <= i < |peers| && peers[i] == pc
  }

  ghost predicate DpcAt(dpcs: seq<DpcPc>, pc: DpcPc) {
    exists d :: 0 <= d < |dpcs| && dpcs[d] == pc
  }

  /** The worker sleeps on an unset event although there is something to read. */
  predicate Blocked(s: State) {
    s.worker == Waiting && !s.wake && Unread(s)
  }

  /** A peer that has published, or a doorbell or DPC that has not yet looked at the event. */
  ghost predicate SignalCarried(s: State) {
    || PeerAt(s.peers, TestArmed) || PeerAt(s.peers, Ring)
    || s.bell || s.dpcQueued
    || DpcAt(s.dpcs, ReadArmed) || DpcAt(s.dpcs, ReadFired)
  }

  /** A DPC that will set the worker's event whatever happens. */
  ghost predicate EventCertain(s: State) {
    DpcAt(s.dpcs, ClearArmed) || DpcAt(s.dpcs, SetEvent)
  }

  /** Someone who will still look at, or act on, the signal is on the way. */
  ghost predicate WakeUpUnderWay(s: State) {
    PeerAt(s.peers, Fire) || SignalCarried(s) || EventCertain(s)
  }

  ghost predicate Inv(s: State) {
    && !s.resetLate && s.worker != LateReset
       // a worker past arming finds the event armed unless a wake-up is certain
    && (s.worker in {TestSignal, Waiting} && !s.wake && !DpcAt(s.dpcs, SetEvent) ==> s.armed)
       // before it tests Fired, unread data is either flagged or about to be flagged
    && (s.worker in {Arm, TestSignal} && Unread(s) && !s.fired ==> PeerAt(s.peers, Fire))
       // once it sleeps, the flag is up and someone is carrying it
    && (Blocked(s) && !EventCertain(s) ==> PeerAt(s.peers, Fire) || (s.fired && SignalCarried(s)))
  }

  lemma PeersAfter(p: seq<PeerPc>, i: nat, pc: PeerPc, q: PeerPc)
    requires i < |p|
    ensures PeerAt(p[i := pc], pc)
    ensures q != p[i] && PeerAt(p, q) ==> PeerAt(p[i := pc], q)
  {
    var t := p[i := pc];
    assert t[i] == pc;
    if q != p[i] && PeerAt(p, q) {
      var j :| 0 <= j < |p| && p[j] == q;
      assert t[j] == q;
    }
  }

  lemma DpcsAfter(p: seq<DpcPc>, d: nat, pc: DpcPc, q: DpcPc)
    requires d < |p|
    ensures DpcAt(p[d := pc], pc)
    ensures q != p[d] && DpcAt(p, q) ==> DpcAt(p[d := pc], q)
  {
    var t := p[d := pc];
    assert t[d] == pc;
    if q != p[d] && DpcAt(p, q) {
      var j :| 0 <= j < |p| && p[j] == q;
      assert t[j] == q;
    }
  }

  lemma PeerStepKeepsInv(s: State, a: Action)
    requires Inv(s) && Enabled(s, a) && (a.Publish? || a.Signal?)
    ensures Inv(Apply(s, a))
  {
    var t := Apply(s, a);
    var i := a.peer;
    PeersAfter(s.peers, i, t.peers[i], Fire);
    PeersAfter(s.peers, i, t.peers[i], TestArmed);
    PeersAfter(s.peers, i, t.peers[i], Ring);
  }

  lemma DpcStepKeepsInv(s: State, a: Action)
    requires Inv(s) && Enabled(s, a) && (a.DpcStart? || a.DpcStep?)
    ensures Inv(Apply(s, a))
  {
    var t := Apply(s, a);
    var d := a.dpc;
    assert DpcAt(s.dpcs, s.dpcs[d]);
    DpcsAfter(s.dpcs, d, t.dpcs[d], ReadArmed);
    DpcsAfter(s.dpcs, d, t.dpcs[d], ReadFired);
    DpcsAfter(s.dpcs, d, t.dpcs[d], ClearArmed);
    DpcsAfter(s.dpcs, d, t.dpcs[d], SetEvent);
  }

  lemma WorkerStepKeepsInv(s: State, a: Action)
    requires Inv(s) && Enabled(s, a) && a.Work?
    ensures Inv(Apply(s, a))
  {
  }

  lemma StepKeepsInv(s: State, a: Action)
    requires Inv(s) && Enabled(s, a)
    ensures Inv(Apply(s, a))
  {
    if a.Publish? || a.Signal? {
      PeerStepKeepsInv(s, a);
    } else if a.DpcStart? || a.DpcStep? {
      DpcStepKeepsInv(s, a);
    } else if a.Work? {
      WorkerStepKeepsInv(s, a);
    }
  }

  lemma {:induction false} RunKeepsInv(s: State, actions: seq<Action>, t: State)
    requires Inv(s) && IsRun(Next, s, actions, t)
    ensures Inv(t)
    decreases |actions|
  {
    if actions != [] {
      StepKeepsInv(s, actions[0]);
      RunKeepsInv(Apply(s, actions[0]), actions[1..], t);
    }
  }

  /** No lost wake-up: in every reachable state, a worker that sleeps on unread data has a wake-up under way. */
  lemma NoLostWakeUp(s: State, actions: seq<Action>, t: State)
    requires Init(s) && !s.resetLate && IsRun(Next, s, actions, t)
    ensures Blocked(t) ==> WakeUpUnderWay(t)
  {
    RunKeepsInv(s, actions, t);
  }

  // ---------- the wake-up arrives ----------

  /** Steps of signalling peers, of the interrupt and of DPCs: everything but new publications and the worker. */
  predicate Quiet(a: Action) {
    !a.Publish? && !a.Work?
  }

  function PeerRank(pc: PeerPc): nat {
    match pc case Idle => 0 case Fire => 9 case TestArmed => 8 case Ring => 7
  }

  function DpcRank(pc: DpcPc): nat {
    match pc case Off => 0 case ReadArmed => 4 case ReadFired => 3 case ClearArmed => 2 case SetEvent => 1
  }

  function PeersRank(p: seq<PeerPc>): nat {
    if p == [] then 0 else PeerRank(p[0]) + PeersRank(p[1..])
  }

  function DpcsRank(p: seq<DpcPc>): nat {
    if p == [] then 0 else DpcRank(p[0]) + DpcsRank(p[1..])
  }

  /** How many signalling steps are left at most. */
  function Rank(s: State): nat {
    PeersRank(s.peers) + DpcsRank(s.dpcs) + (if s.bell then 6 else 0) + (if s.dpcQueued then 5 else 0)
  }

  lemma {:induction false} PeersRankUpdate(p: seq<PeerPc>, i: nat, pc: PeerPc)
    requires i < |p|
    ensures PeersRank(p[i := pc]) == PeersRank(p) - PeerRank(p[i]) + PeerRank(pc)
  {
    if i == 0 {
      assert p[i := pc][1..] == p[1..];
    } else {
      assert p[i := pc][1..] == p[1..][i - 1 := pc];
      PeersRankUpdate(p[1..], i - 1, pc);
    }
  }

  lemma {:induction false} DpcsRankUpdate(p: seq<DpcPc>, i: nat, pc: DpcPc)
    requires i < |p|
    ensures DpcsRank(p[i := pc]) == DpcsRank(p) - DpcRank(p[i]) + DpcRank(pc)
  {
    if i == 0 {
      assert p[i := pc][1..] == p[1..];
    } else {
      assert p[i := pc][1..] == p[1..][i - 1 := pc];
      DpcsRankUpdate(p[1..], i - 1, pc);
    }
  }

  lemma PeerStepLowersRank(s: State, i: nat)
    requires i < |s.peers| && s.peers[i] != Idle
    ensures Rank(PeerStep(s, i)) < Rank(s)
  {
    var pc := PeerStep(s, i).peers[i];
    assert PeerStep(s, i).peers == s.peers[i := pc] && PeerStep(s, i).dpcs == s.dpcs;
    PeersRankUpdate(s.peers, i, pc);
  }

  lemma DpcStepLowersRank(s: State, d: nat)
    requires d < |s.dpcs| && s.dpcs[d] != Off
    ensures Rank(DpcAccess(s, d)) < Rank(s)
  {
    var pc := DpcAccess(s, d).dpcs[d];
    assert DpcAccess(s, d).dpcs == s.dpcs[d := pc] && DpcAccess(s, d).peers == s.peers;
    DpcsRankUpdate(s.dpcs, d, pc);
  }

  lemma DpcStartLowersRank(s: State, d: nat)
    requires s.dpcQueued && d < |s.dpcs| && s.dpcs[d] == Off
    ensures Rank(s.(dpcQueued := false, dpcs := s.dpcs[d := ReadArmed])) < Rank(s)
  {
    DpcsRankUpdate(s.dpcs, d, ReadArmed);
  }

  lemma QuietStepLowersRank(s: State, a: Action)
    requires Enabled(s, a) && Quiet(a)
    ensures Rank(Apply(s, a)) < Rank(s)
  {
    if a.Signal? {
      PeerStepLowersRank(s, a.peer);
    } else if a.DpcStart? {
      DpcStartLowersRank(s, a.dpc);
    } else if a.DpcStep? {
      DpcStepLowersRank(s, a.dpc);
    }
  }

  ghost predicate Exhausted(s: State) {
    forall a :: Quiet(a) ==> !Enabled(s, a)
  }

  lemma BlockedIsNotExhausted(s: State)
    requires Inv(s) && Blocked(s) && |s.dpcs| > 0
    ensures !Exhausted(s)
  {
    if s.bell {
      assert Enabled(s, Isr);
    } else if i :| 0 <= i < |s.peers| && s.peers[i] != Idle {
      assert Enabled(s, Signal(i));
    } else if d :| 0 <= d < |s.dpcs| && s.dpcs[d] != Off {
      assert Enabled(s, DpcStep(d));
    } else {
      assert s.dpcQueued && Enabled(s, DpcStart(0));
    }
  }

  /** A sleeping worker is woken: signalling steps alone cannot go on for ever, and once none is left the event of
      a worker that sleeps on unread data has been set. */
  lemma {:induction false} WakeUpArrives(s: State, actions: seq<Action>, t: State)
    requires Inv(s) && s.worker == Waiting && Unread(s) && |s.dpcs| > 0
    requires IsRun(Next, s, actions, t) && forall k | 0 <= k < |actions| :: Quiet(actions[k])
    ensures |actions| <= Rank(s)
    ensures Exhausted(t) ==> t.worker == Waiting && t.wake
    decreases |actions|
  {
    if actions == [] {
      if !s.wake {
        BlockedIsNotExhausted(s);
      }
    } else {
      var u := Apply(s, actions[0]);
      assert Quiet(actions[0]);
      QuietStepLowersRank(s, actions[0]);
      assert SameWork(s, u);
      StepKeepsInv(s, actions[0]);
      WakeUpArrives(u, actions[1..], t);
    }
  }

  // ---------- why Fired is cleared before arming ----------

  /** The late-resetting worker goes to sleep and one message rings the doorbell. */
  lemma FirstMessageRings(s: State) returns (actions: seq<Action>, t: State)
    requires Init(s) && s.resetLate && s.event == Trigger && s.rx == s.tx
    requires s.peers == [Idle] && s.dpcs == [Off]
    ensures IsRun(Next, s, actions, t)
    ensures t == s.(tx := s.tx + 8, fired := true, worker := Waiting, bell := true)
  {
    actions, t := [], s;
    actions, t := Then(Next, s, actions, t, Work(0));
    actions, t := Then(Next, s, actions, t, Publish(0, s.tx + 8));
    actions, t := Then(Next, s, actions, t, Signal(0));
    actions, t := Then(Next, s, actions, t, Signal(0));
    actions, t := Then(Next, s, actions, t, Signal(0));
  }

  /** The DPC clears Armed and sets the event. */
  lemma FirstMessageWakes(s: State) returns (actions: seq<Action>, t: State)
    requires Init(s) && s.resetLate && s.event == Trigger && s.rx == s.tx
    requires s.peers == [Idle] && s.dpcs == [Off]
    ensures IsRun(Next, s, actions, t)
    ensures t == s.(tx := s.tx + 8, fired := true, armed := false, worker := Waiting, wake := true)
  {
    actions, t := FirstMessageRings(s);
    actions, t := Then(Next, s, actions, t, Isr);
    actions, t := Then(Next, s, actions, t, DpcStart(0));
    actions, t := Then(Next, s, actions, t, DpcStep(0));
    actions, t := Then(Next, s, actions, t, DpcStep(0));
    actions, t := Then(Next, s, actions, t, DpcStep(0));
    actions, t := Then(Next, s, actions, t, DpcStep(0));
  }

  /** The worker drains the message and is about to arm. */
  lemma FirstMessageDrained(s: State) returns (actions: seq<Action>, t: State)
    requires Init(s) && s.resetLate && s.event == Trigger && s.rx == s.tx
    requires s.peers == [Idle] && s.dpcs == [Off]
    ensures IsRun(Next, s, actions, t)
    ensures t == s.(tx := s.tx + 8, rx := s.tx + 8, fired := true, armed := false, worker := Arm)
  {
    actions, t := FirstMessageWakes(s);
    actions, t := Then(Next, s, actions, t, Work(0));
    actions, t := Then(Next, s, actions, t, Work(0));
    actions, t := Then(Next, s, actions, t, Work(s.tx + 8));
    actions, t := Then(Next, s, actions, t, Work(0));
  }

  /** The second message is published while the event is not armed, so nobody rings. */
  lemma SecondMessageUnheard(s: State) returns (actions: seq<Action>, t: State)
    requires Init(s) && s.resetLate && s.event == Trigger && s.rx == s.tx
    requires s.peers == [Idle] && s.dpcs == [Off]
    ensures IsRun(Next, s, actions, t)
    ensures t == s.(tx := s.tx + 16, rx := s.tx + 8, fired := true, armed := false, worker := Arm)
  {
    actions, t := FirstMessageDrained(s);
    actions, t := Then(Next, s, actions, t, Publish(0, s.tx + 16));
    actions, t := Then(Next, s, actions, t, Signal(0));
    actions, t := Then(Next, s, actions, t, Signal(0));
  }

  /** Then the late reset clears the flag of that message, and the worker goes to sleep. */
  lemma ArmsAndSleeps(s: State) returns (actions: seq<Action>, t: State)
    requires Init(s) && s.resetLate && s.event == Trigger && s.rx == s.tx
    requires s.peers == [Idle] && s.dpcs == [Off]
    ensures IsRun(Next, s, actions, t)
    ensures t == s.(tx := s.tx + 16, rx := s.tx + 8, worker := Waiting)
  {
    actions, t := SecondMessageUnheard(s);
    hide Init, IsRun;
    actions, t := Then(Next, s, actions, t, Work(0));
    actions, t := Then(Next, s, actions, t, Work(0));
    actions, t := Then(Next, s, actions, t, Work(0));
  }

  /** Clearing Fired after arming would lose wake-ups: one message published between the last position test and the
      arming leaves the worker asleep with nobody left to wake it. */
  lemma LateResetLosesWakeUp(s: State)
    requires Init(s) && s.resetLate && s.event == Trigger && s.rx == s.tx
    requires s.peers == [Idle] && s.dpcs == [Off]
    ensures exists actions, t :: IsRun(Next, s, actions, t) && Blocked(t) && !WakeUpUnderWay(t)
  {
    var actions, t := ArmsAndSleeps(s);
    assert Blocked(t) && !WakeUpUnderWay(t);
  }
}
