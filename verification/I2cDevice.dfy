/** An I2C controller: its interrupt context together with the protocol by which requests are completed, so that what a
    request is completed with can be stated for whole runs.

    Requests, cancellations, interrupts and any number of DPC instances interleave as in `I2cCompletion`; the statuses
    that interrupts start from are up to the device.
  */
module I2cDevice {
  import opened Bytes
  import opened I2cTransfer
  import Protocol = I2cCompletion

  datatype Transfer =
    | Read(buffer: seq<byte>)
    | Write(buffer: seq<byte>)
    | Sequence(transferCount: nat, write: Descriptor, read: Descriptor)

  predicate WellFormed(t: Transfer) {
    match t
    case Read(buffer) => buffer != []
    case Write(buffer) => buffer != []
    case Sequence(_, write, read) => NonEmpty(write.chain) && NonEmpty(read.chain)
  }

  /** What a request is completed with; its length, whether an error bit had been captured, and whether no DPC was
      pending when it was started. */
  datatype Outcome = Outcome(status: NtStatus, information: nat, length: nat, errorBit: bool, clean: bool)

  /** A DPC is queued, or runs and has not yet looked for a request. */
  ghost predicate Pending(s: Protocol.State) {
    s.dpcQueued || exists d :: 0 <= d < |s.dpcs| && s.dpcs[d] == Protocol.Enter
  }

  /** Some request is current, or claimed by a DPC that has not yet processed it. */
  ghost predicate Busy(s: Protocol.State) {
    s.current.Request? || exists d :: 0 <= d < |s.dpcs| && s.dpcs[d].ResetHardware?
  }

  /** Success without an error bit means the full length, provided that no DPC was pending at the start. */
  ghost predicate Sound(o: Outcome) {
    && o.information <= o.length && (o.status != Success ==> o.information == 0)
    && (o.status == Success && !o.errorBit && o.clean ==> o.information == o.length)
  }

  /** Whatever has been completed, or is about to be by a DPC, has an outcome. */
  ghost predicate Recorded(requests: seq<Protocol.Spb>, dpcs: seq<Protocol.Dpc>, outcomes: map<nat, Outcome>) {
    && (forall r: nat | r < |requests| && requests[r].completions > 0 :: r in outcomes)
    && (forall d | 0 <= d < |dpcs| && dpcs[d].Complete? :: dpcs[d].r in outcomes)
    && (forall r | r in outcomes :: Sound(outcomes[r]))
  }

  /** The first of the actions that is possible, if any. */
  predicate Moves(s: Protocol.State, first: Protocol.Action, second: Protocol.Action, t: Protocol.State) {
    if Protocol.Enabled(s, first) then t == Protocol.Apply(s, first)
    else if Protocol.Enabled(s, second) then t == Protocol.Apply(s, second)
    else t == s
  }

  lemma EitherWay(s: Protocol.State, r: nat)
    ensures Protocol.Enabled(s, Protocol.Start(r, false)) <==> Protocol.Enabled(s, Protocol.Start(r, true))
  {
  }

  class Device {
    const context: InterruptContext
    var protocol: Protocol.State

    // history
    ghost var outcomes: map<nat, Outcome>
    ghost var length: nat               // of the request that was started last
    ghost var clean: bool               // no DPC was pending when it was

    ghost predicate Ready()
      reads context
    {
      context.errorFlag || WaitsForDone(context.state)
    }

    ghost predicate Valid()
      reads this, context
    {
      && context.Valid() && Protocol.Inv(protocol) && Recorded(protocol.requests, protocol.dpcs, outcomes)
      && (Busy(protocol) ==>
            && context.state != Invalid && context.RequestLength() == length
            && (clean && (protocol.current.Request? ==> Pending(protocol)) ==> Ready()))
    }

    constructor (beyond: byte, requests: nat, dpcs: nat)
      ensures Valid() && fresh(context) && outcomes == map[]
      ensures protocol == Protocol.State(seq(requests, i => Protocol.Spb(false, false, false, Protocol.NotCalled, 0)),
                                         Protocol.NoRequest, seq(dpcs, i => Protocol.Off), false)
    {
      context := new InterruptContext(beyond);
      protocol := Protocol.State(seq(requests, i => Protocol.Spb(false, false, false, Protocol.NotCalled, 0)),
                                 Protocol.NoRequest, seq(dpcs, i => Protocol.Off), false);
      outcomes, length, clean := map[], 0, true;
    }

    /** The context holds the transfer, with none of its memory received yet: what is to be sent is what the client gave,
        and what is to be filled is the client's memory. */
    ghost predicate Started(t: Transfer)
      reads context
    {
      && !context.errorFlag
      && match t
         case Read(buffer) =>
           && context.state == Receiving && context.readBuffer == context.original == buffer && context.currentRead == 0
           && context.pushed == context.popped == [] && context.RequestLength() == |buffer|
         case Write(buffer) =>
           && context.state == (if context.pushed == buffer then SendingWaitForDone else Sending)
           && context.writeBuffer == buffer && context.pushed <= buffer && context.popped == []
           && context.RequestLength() == |buffer|
         case Sequence(transferCount, write, read) =>
           && transferCount == 2 && write.toDevice && !read.toDevice
           && context.state == (if |Concat(write.chain)| == 1 then ReceivingSequence else SendingSequence)
           && context.writeMdls == write.chain && context.readMdls == read.chain && context.original == Concat(read.chain)
           && context.pushed <= Concat(write.chain) && |context.pushed| == 1 && context.popped == []
           && context.RequestLength() == |Concat(write.chain)| + |Concat(read.chain)|
    }

    /** The dispatch routine for the kind of transfer. */
    method Dispatch(t: Transfer, marked: bool) returns (status: NtStatus)
      requires context.Valid() && WellFormed(t)
      modifies context
      ensures context.Valid() && (status == Success ==> marked && context.state != Invalid && Started(t))
      ensures status == Cancelled ==> !marked
      ensures t.Read? && |t.buffer| <= MAX_TRANSFER_LENGTH && marked ==> status == Success
    {
      hide InterruptContext.Valid;
      match t {
        case Read(buffer) => status := context.OnRead(buffer, marked);
        case Write(buffer) => status := context.OnWrite(buffer, marked);
        case Sequence(transferCount, write, read) => status := context.OnSequence(transferCount, write, read, marked);
      }
    }

    /** OnRead, OnWrite or OnSequence; marking the request cancelable fails if its cancellation has been asked for. */
    method Start(r: nat, t: Transfer) returns (status: NtStatus)
      requires Valid() && Protocol.Enabled(protocol, Protocol.Start(r, false)) && WellFormed(t)
      modifies this, context
      ensures Valid() && clean == !old(Pending(protocol))
      ensures protocol == Protocol.Apply(old(protocol), Protocol.Start(r, status != Success && status != Cancelled))
      ensures status == Success ==> !old(protocol).requests[r].cancelRequested && outcomes == old(outcomes)
      ensures status == Success ==> Started(t) && length == context.RequestLength()
      ensures t.Read? && |t.buffer| <= MAX_TRANSFER_LENGTH && !old(protocol).requests[r].cancelRequested ==> status == Success
      ensures status != Success ==> outcomes == old(outcomes)[r := Outcome(status, 0, 0, false, clean)]
    {
      hide Protocol.Inv, Recorded, InterruptContext.Valid;
      ghost var before := protocol;
      Protocol.StartFindsIdle(protocol, r, false);
      clean := !Pending(protocol);
      var marked := !protocol.requests[r].cancelRequested;
      status := Dispatch(t, marked);
      length := context.RequestLength();
      var refused := status != Success && status != Cancelled;
      Protocol.RequestStepKeepsInv(protocol, Protocol.Start(r, refused));
      protocol := Protocol.Apply(protocol, Protocol.Start(r, refused));
      if status != Success {
        outcomes := outcomes[r := Outcome(status, 0, 0, false, clean)];
      }
      StartRecorded(before, r, refused, old(outcomes), Outcome(status, 0, 0, false, clean));
    }

    /** An interrupt that starts from the given status. */
    method Interrupt(statusReg: Status) returns (dpc: bool)
      requires Valid()
      modifies this`protocol, context
      ensures Valid() && protocol == if dpc then old(protocol).(dpcQueued := true) else old(protocol)
      ensures (statusReg.rxr || statusReg.txw) && statusReg.err && !statusReg.done && old(context.state) != Invalid ==> dpc
      ensures (statusReg.rxr || statusReg.txw || statusReg.done) && old(context.state) != Invalid && !old(context.errorFlag) ==>
                if statusReg.clkt || statusReg.err
                then context.errorFlag && context.capturedStatus == statusReg
                     && (dpc <==> (statusReg.done ==> !context.lastStatus.ta))
                else && (context.state == old(context.state) ==> context.Paused())
                     && (dpc <==> WaitsForDone(old(context.state))) && (dpc ==> context.capturedStatus == statusReg)
    {
      hide Protocol.Inv, Recorded, InterruptContext.Valid;
      var claimed;
      claimed, dpc := context.ServeInterrupt(statusReg);
      if dpc {
        Protocol.RequestStepKeepsInv(protocol, Protocol.QueueDpc);
        protocol := Protocol.Apply(protocol, Protocol.QueueDpc);
      }
    }

    /** The framework's cancellation, and the two halves of OnRequestCancel. */
    method Cancel(r: nat)
      requires Valid() && Protocol.Enabled(protocol, Protocol.Cancel(r))
      modifies this`protocol
      ensures Valid() && protocol == Protocol.Apply(old(protocol), Protocol.Cancel(r))
    {
      Protocol.RequestStepKeepsInv(protocol, Protocol.Cancel(r));
      hide Protocol.Inv, InterruptContext.Valid;
      protocol := Protocol.Apply(protocol, Protocol.Cancel(r));
    }

    method CancelClaim(r: nat)
      requires Valid() && Protocol.Enabled(protocol, Protocol.CancelClaim(r))
      modifies this`protocol, context
      ensures Valid() && protocol == Protocol.Apply(old(protocol), Protocol.CancelClaim(r))
      ensures if old(protocol).current != Protocol.NoRequest then context.state == Invalid else unchanged(context)
    {
      hide Protocol.Inv, InterruptContext.Valid;
      Protocol.RequestStepKeepsInv(protocol, Protocol.CancelClaim(r));
      if protocol.current != Protocol.NoRequest {
        Protocol.CurrentAlone(protocol);
        context.Reset();
      }
      protocol := Protocol.Apply(protocol, Protocol.CancelClaim(r));
    }

    method CancelComplete(r: nat)
      requires Valid() && Protocol.Enabled(protocol, Protocol.CancelComplete(r))
      modifies this`protocol, this`outcomes
      ensures Valid() && protocol == Protocol.Apply(old(protocol), Protocol.CancelComplete(r))
      ensures outcomes == old(outcomes)[r := Outcome(Cancelled, 0, length, false, clean)]
    {
      hide Protocol.Inv, InterruptContext.Valid;
      Protocol.RequestStepKeepsInv(protocol, Protocol.CancelComplete(r));
      protocol := Protocol.Apply(protocol, Protocol.CancelComplete(r));
      outcomes := outcomes[r := Outcome(Cancelled, 0, length, false, clean)];
    }

    method DpcStart(d: nat)
      requires Valid() && Protocol.Enabled(protocol, Protocol.DpcStart(d))
      modifies this`protocol
      ensures Valid() && protocol == Protocol.Apply(old(protocol), Protocol.DpcStart(d))
    {
      hide Protocol.Inv, InterruptContext.Valid;
      Protocol.DpcStepKeepsInv(protocol, Protocol.DpcStart(d));
      ghost var before := protocol;
      protocol := Protocol.Apply(protocol, Protocol.DpcStart(d));
      assert protocol.dpcs[d] == Protocol.Enter;
      assert forall e | 0 <= e < |before.dpcs| && e != d :: protocol.dpcs[e] == before.dpcs[e];
    }

    /** One part of OnInterruptDpc; the second computes what the request is completed with and resets the hardware. */
    method DpcStep(d: nat)
      requires Valid() && Protocol.Enabled(protocol, Protocol.DpcStep(d))
      modifies this`protocol, this`outcomes, context
      ensures Valid() && protocol == Protocol.Apply(old(protocol), Protocol.DpcStep(d))
      ensures var dpc := old(protocol).dpcs[d];
              outcomes == if dpc.ResetHardware?
                          then var result := old(context.ProcessRequestCompletion());
                               old(outcomes)[dpc.r := Outcome(result.0, result.1, length, old(context.errorFlag), clean)]
                          else old(outcomes)
      ensures old(protocol).dpcs[d].ResetHardware? ==> context.state == Invalid
      ensures !old(protocol).dpcs[d].ResetHardware? ==>
                context.state == old(context.state) && context.errorFlag == old(context.errorFlag)
                && context.currentRead == old(context.currentRead)
    {
      hide Protocol.Inv, Recorded, Busy, Pending, InterruptContext.Valid;
      Protocol.DpcStepKeepsInv(protocol, Protocol.DpcStep(d));
      DpcStaysBusy(protocol, d);
      if protocol.dpcs[d].ResetHardware? {
        var result := context.ProcessRequestCompletion();
        ghost var o := Outcome(result.0, result.1, length, context.errorFlag, clean);
        DpcRecorded(protocol, d, outcomes, o);
        outcomes := outcomes[protocol.dpcs[d].r := o];
        context.Reset();
      } else {
        DpcRecorded(protocol, d, outcomes, Outcome(Cancelled, 0, 0, false, false));
      }
      protocol := Protocol.Apply(protocol, Protocol.DpcStep(d));
    }

    /** One step of a run; steps that are not possible change nothing. */
    method Step(op: Op)
      requires Valid() && (op.Begin? ==> WellFormed(op.t))
      modifies this, context
      ensures Valid()
      ensures match op
              case Begin(r, t) =>
                if Protocol.Enabled(old(protocol), Protocol.Start(r, false))
                then exists refused ::
                       Protocol.Enabled(old(protocol), Protocol.Start(r, refused))
                       && protocol == Protocol.Apply(old(protocol), Protocol.Start(r, refused))
                else protocol == old(protocol)
              case Isr(statusReg) => protocol == old(protocol) || protocol == old(protocol).(dpcQueued := true)
              case FrameworkCancels(r) => Moves(old(protocol), Protocol.Cancel(r), Protocol.Cancel(r), protocol)
              case CancelRoutine(r) => Moves(old(protocol), Protocol.CancelClaim(r), Protocol.CancelComplete(r), protocol)
              case Dpc(d) => Moves(old(protocol), Protocol.DpcStart(d), Protocol.DpcStep(d), protocol)
    {
      hide Protocol.Inv, Recorded, InterruptContext.Valid, Protocol.Enabled, Protocol.Apply;
      match op {
        case Begin(r, t) =>
          if Protocol.Enabled(protocol, Protocol.Start(r, false)) {
            EitherWay(protocol, r);
            var status := Start(r, t);
            ghost var refused := status != Success && status != Cancelled;
            assert protocol == Protocol.Apply(old(protocol), Protocol.Start(r, refused));
          }
        case Isr(statusReg) => var _ := Interrupt(statusReg);
        case FrameworkCancels(r) =>
          if Protocol.Enabled(protocol, Protocol.Cancel(r)) {
            Cancel(r);
          }
        case CancelRoutine(r) =>
          if Protocol.Enabled(protocol, Protocol.CancelClaim(r)) {
            CancelClaim(r);
          } else if Protocol.Enabled(protocol, Protocol.CancelComplete(r)) {
            CancelComplete(r);
          }
        case Dpc(d) =>
          if Protocol.Enabled(protocol, Protocol.DpcStart(d)) {
            DpcStart(d);
          } else if Protocol.Enabled(protocol, Protocol.DpcStep(d)) {
            DpcStep(d);
          }
      }
    }

    /** Any interleaving of requests, cancellations, interrupts and DPCs: each request is completed at most once, and if
        no DPC was pending when it was started, success without an error bit means its full length. */
    method Run(script: seq<Op>)
      requires Valid() && forall i | 0 <= i < |script| :: script[i].Begin? ==> WellFormed(script[i].t)
      modifies this, context
      ensures Valid()
      ensures forall r: nat | r < |protocol.requests| ::
                && protocol.requests[r].completions <= 1
                && (protocol.requests[r].completions == 1 ==> r in outcomes && Sound(outcomes[r]))
    {
      hide Protocol.Inv, InterruptContext.Valid, Sound;
      for i := 0 to |script|
        invariant Valid()
      {
        Step(script[i]);
      }
      Protocol.AtMostOnce(protocol);
    }
  }

  /** One step of a run of the device. */
  datatype Op =
    | Begin(r: nat, t: Transfer)
    | Isr(statusReg: Status)
    | FrameworkCancels(r: nat)
    | CancelRoutine(r: nat)
    | Dpc(d: nat)

  // ---------- DPCs that outlive their request ----------

  /** Whatever has happened before: a DPC that is pending when a read is started, and runs before any further interrupt,
      completes the read at once, with success and without a byte. */
  method PendingDpcEndsRead(dev: Device, r: nat, d: nat, buffer: seq<byte>)
    requires dev.Valid() && Protocol.Enabled(dev.protocol, Protocol.Start(r, false)) && d < |dev.protocol.dpcs|
    requires dev.protocol.dpcs[d] == Protocol.Enter || (dev.protocol.dpcQueued && dev.protocol.dpcs[d] == Protocol.Off)
    requires !dev.protocol.requests[r].cancelRequested && 0 < |buffer| <= MAX_TRANSFER_LENGTH
    modifies dev, dev.context
    ensures dev.Valid() && r < |dev.protocol.requests| == |old(dev.protocol.requests)|
    ensures dev.protocol.requests[r].completions == 1
    ensures r in dev.outcomes && dev.outcomes[r] == Outcome(Success, 0, |buffer|, false, false)
  {
    hide Protocol.Inv, Recorded;
    Protocol.StartFindsIdle(dev.protocol, r, false);
    assert Pending(dev.protocol);
    var status := dev.Start(r, Read(buffer));
    assert dev.protocol.current == Protocol.Request(r) && dev.protocol.requests[r].marked;
    if dev.protocol.dpcs[d] == Protocol.Off {
      dev.DpcStart(d);
    }
    dev.DpcStep(d);
    assert dev.protocol.dpcs[d] == Protocol.ResetHardware(r);
    dev.DpcStep(d);
    assert dev.protocol.dpcs[d] == Protocol.Complete(r);
    dev.DpcStep(d);
  }

  const ADDRESS_NOT_ACKNOWLEDGED := Status(false, true, false, false, true, false, false, false)

  /** The interrupt of a first read queues the DPC. */
  method ReadInterrupted(beyond: byte) returns (dev: Device)
    ensures fresh(dev) && fresh(dev.context) && dev.Valid()
    ensures dev.protocol == Protocol.State([Protocol.Spb(true, true, false, Protocol.NotCalled, 0),
                                            Protocol.Spb(false, false, false, Protocol.NotCalled, 0)],
                                           Protocol.Request(0), [Protocol.Off], true)
  {
    hide Protocol.Inv, Recorded, InterruptContext.Valid;
    dev := new Device(beyond, 2, 1);
    var status := dev.Start(0, Read([0]));
    var dpc := dev.Interrupt(ADDRESS_NOT_ACKNOWLEDGED);
  }

  /** How a DPC outlives its request: the read is cancelled before it runs. */
  method CancelledBeforeDpc(beyond: byte) returns (dev: Device)
    ensures fresh(dev) && fresh(dev.context) && dev.Valid() && dev.protocol.current == Protocol.NoRequest
    ensures |dev.protocol.requests| == 2 && dev.protocol.requests[0].completions == 1
    ensures dev.protocol.requests[1] == Protocol.Spb(false, false, false, Protocol.NotCalled, 0)
    ensures dev.protocol.dpcs == [Protocol.Enter]
  {
    dev := ReadInterrupted(beyond);
    hide Protocol.Inv, Recorded, InterruptContext.Valid, Device.Valid;
    dev.Cancel(0);
    dev.CancelClaim(0);
    dev.CancelComplete(0);
    dev.DpcStart(0);
  }

  /** The next read is then completed by that DPC, short of all its bytes but reported as a success. */
  method StaleDpcEndsNextRead(beyond: byte, buffer: seq<byte>) returns (dev: Device)
    requires 0 < |buffer| <= MAX_TRANSFER_LENGTH
    ensures fresh(dev) && dev.Valid() && |dev.protocol.requests| == 2 && dev.protocol.requests[1].completions == 1
    ensures 1 in dev.outcomes && dev.outcomes[1] == Outcome(Success, 0, |buffer|, false, false)
  {
    dev := CancelledBeforeDpc(beyond);
    hide Protocol.Inv, Recorded, InterruptContext.Valid;
    PendingDpcEndsRead(dev, 1, 0, buffer);
  }

  /** A DPC leaves the device busy only with what it was busy with, and takes up a request only if it was pending. */
  lemma DpcStaysBusy(s: Protocol.State, d: nat)
    requires Protocol.Inv(s) && Protocol.Enabled(s, Protocol.DpcStep(d))
    ensures var t := Protocol.Apply(s, Protocol.DpcStep(d));
            && (s.dpcs[d].ResetHardware? ==> Busy(s) && !s.current.Request? && !Busy(t))
            && (Busy(t) ==> Busy(s))
            && (Busy(t) && (t.current.Request? ==> Pending(t)) ==> s.current.Request? ==> Pending(s))
  {
    hide Protocol.Inv;
    var t := Protocol.Apply(s, Protocol.DpcStep(d));
    if s.current.Request? {
      Protocol.CurrentAlone(s);
    }
    if Protocol.Owns(s.dpcs[d]) {
      Protocol.DpcOwner(s, d);
    }
    assert forall e | 0 <= e < |s.dpcs| && e != d :: t.dpcs[e] == s.dpcs[e];
    assert s.dpcs[d] == Protocol.Enter ==> Pending(s);
  }

  lemma DpcRecorded(s: Protocol.State, d: nat, outcomes: map<nat, Outcome>, o: Outcome)
    requires Protocol.Inv(s) && Protocol.Enabled(s, Protocol.DpcStep(d)) && Recorded(s.requests, s.dpcs, outcomes) && Sound(o)
    ensures var t := Protocol.Apply(s, Protocol.DpcStep(d));
            Recorded(t.requests, t.dpcs, if s.dpcs[d].ResetHardware? then outcomes[s.dpcs[d].r := o] else outcomes)
  {
    hide Protocol.Inv;
    if s.current.Request? {
      Protocol.CurrentAlone(s);
    }
  }

  lemma StartRecorded(s: Protocol.State, r: nat, refused: bool, outcomes: map<nat, Outcome>, o: Outcome)
    requires Protocol.Enabled(s, Protocol.Start(r, refused)) && Recorded(s.requests, s.dpcs, outcomes) && Sound(o)
    ensures var t := Protocol.Apply(s, Protocol.Start(r, refused));
            Recorded(t.requests, t.dpcs, if refused || s.requests[r].cancelRequested then outcomes[r := o] else outcomes)
  {
  }
}
