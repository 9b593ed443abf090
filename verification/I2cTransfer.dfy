/** An I2C transfer from its start in a dispatch routine, through any number of interrupts, to its accounting in the
    DPC.

    The device is unpredictable: every read of the status, data-length and data registers returns any value.  Buffer
    pointers are offsets; `beyond` stands for whatever lies in memory behind a buffer.
  */
module I2cTransfer {
  import opened Bytes

  const MAX_TRANSFER_LENGTH := 0xFFFF

  datatype TransferState =
    | Invalid
    | Sending
    | Receiving
    | SendingSequence
    | ReceivingSequence
    | SendingWaitForDone
    | ReceivingWaitForDone
    | ReceivingSequenceWaitForDone

  /** The status register. */
  datatype Status = Status(clkt: bool, err: bool, rxd: bool, txd: bool, rxr: bool, txw: bool, done: bool, ta: bool)

  const NO_STATUS := Status(false, false, false, false, false, false, false, false)

  datatype NtStatus = Success | NotSupported | InsufficientResources | Cancelled | IoTimeout | NoSuchDevice | InternalError

  /** SPB_TRANSFER_DESCRIPTOR with its buffer chain; `mapped` says whether the chain can be mapped. */
  datatype Descriptor = Descriptor(toDevice: bool, delayInUs: nat, chain: seq<seq<byte>>, mapped: bool)

  predicate WaitsForDone(s: TransferState) {
    s.SendingWaitForDone? || s.ReceivingWaitForDone? || s.ReceivingSequenceWaitForDone?
  }

  /** The state a transfer goes on to when all the bytes of its present state have been moved. */
  function After(s: TransferState): TransferState {
    match s
    case Sending => SendingWaitForDone
    case Receiving => ReceivingWaitForDone
    case SendingSequence => ReceivingSequence
    case ReceivingSequence => ReceivingSequenceWaitForDone
    case _ => s
  }

  // ---------- the write half of a sequence ----------

  /** The last byte of the chain lies in the buffer in which the sending loop stops. */
  predicate LastByteReachable(chain: seq<seq<byte>>)
    requires chain != []
  {
    |chain| == 1 || |chain[|chain| - 1]| >= 2
  }

  /** The bytes a write of the whole chain hands to the FIFO. */
  function Queued(chain: seq<seq<byte>>, beyond: byte): seq<byte>
    requires chain != [] && Concat(chain) != []
  {
    var all := Concat(chain);
    all[..|all| - 1] + [if LastByteReachable(chain) then all[|all| - 1] else beyond]
  }

  /** The sending position: `off` bytes of buffer `cur`, `written` bytes in all. */
  ghost predicate At(chain: seq<seq<byte>>, cur: nat, off: nat, written: nat) {
    cur < |chain| && off <= |chain[cur]| && written == Before(chain, cur) + off
  }

  lemma PushInBuffer(chain: seq<seq<byte>>, cur: nat, off: nat, written: nat, n: nat)
    requires At(chain, cur, off, written) && off + n <= |chain[cur]|
    ensures At(chain, cur, off + n, written + n) && written + n <= |Concat(chain)|
    ensures Concat(chain)[..written] + chain[cur][off..off + n] == Concat(chain)[..written + n]
  {
    hide Concat, Before;
    BufferInConcat(chain, cur);
    assert chain[cur][off..off + n] == Concat(chain)[written..written + n];
  }

  /** After `rest` bytes of the current buffer there is exactly one byte left in the chain just when the position is
      before the last byte of the last buffer, or at the end of the last buffer but one and the last holds one. */
  lemma OneByteLeft(chain: seq<seq<byte>>, cur: nat, off: nat, written: nat)
    requires NonEmpty(chain) && At(chain, cur, off, written)
    requires off == if cur + 1 < |chain| then |chain[cur]| else |chain[cur]| - 1
    requires cur + 1 == |chain| ==> LastByteReachable(chain)
    ensures cur < |chain| && off <= |chain[cur]| && written < |Concat(chain)|
    ensures written + 1 == |Concat(chain)| ==> (off < |chain[cur]| <==> LastByteReachable(chain))
    ensures written + 1 == |Concat(chain)| && off < |chain[cur]| ==> chain[cur][off] == Concat(chain)[written]
    ensures written + 1 != |Concat(chain)| ==> cur + 1 < |chain| && At(chain, cur + 1, 0, written)
                                               && (cur + 2 == |chain| ==> LastByteReachable(chain))
  {
    hide Concat, Before;
    BufferInConcat(chain, cur);
    BeforeNext(chain, cur);
    if cur + 1 < |chain| {
      BytesAfter(chain, cur + 1);
    }
  }

  /** From the start of buffer `i` on there is at least a byte per buffer, and for the last one exactly its own. */
  lemma BytesAfter(chain: seq<seq<byte>>, i: nat)
    requires NonEmpty(chain) && i < |chain|
    ensures Before(chain, i) + |chain[i]| <= |Concat(chain)|
    ensures if i + 1 == |chain| then Before(chain, i) + |chain[i]| == |Concat(chain)|
            else Before(chain, i) + |chain[i]| < |Concat(chain)|
  {
    BufferInConcat(chain, i);
    BeforeNext(chain, i);
    if i + 1 < |chain| {
      BufferInConcat(chain, i + 1);
    }
  }

  /** A buffer that is not the last leaves at least a byte behind it, and the last at least the one it holds back. */
  lemma RestOfChain(chain: seq<seq<byte>>, cur: nat, off: nat, written: nat)
    requires NonEmpty(chain) && At(chain, cur, off, written)
    ensures cur + 1 == |chain| ==> written + (|chain[cur]| - off) == |Concat(chain)|
    ensures cur + 1 < |chain| ==> written + (|chain[cur]| - off) < |Concat(chain)|
  {
    BytesAfter(chain, cur);
  }

  lemma LastHasByte(chain: seq<seq<byte>>, cur: nat, off: nat, written: nat)
    requires NonEmpty(chain) && At(chain, cur, off, written) && written < |Concat(chain)|
    ensures cur + 1 == |chain| ==> off < |chain[cur]|
  {
    BytesAfter(chain, cur);
  }

  // ---------- the read half of a sequence ----------

  /** The chain holds the bytes received so far, in order, and behind them what it held before. */
  ghost predicate Received(chain: seq<seq<byte>>, popped: seq<byte>, original: seq<byte>) {
    |popped| <= |original| && Concat(chain) == popped + original[|popped|..]
  }

  ghost predicate SameShape(a: seq<seq<byte>>, b: seq<seq<byte>>) {
    && |a| == |b|
    && (forall j | 0 <= j < |a| :: |a[j]| == |b[j]|)
    && (forall j | 0 <= j <= |a| :: Before(a, j) == Before(b, j))
  }

  lemma StoreNext(chain: seq<seq<byte>>, cur: nat, off: nat, popped: seq<byte>, original: seq<byte>, b: byte)
    requires Received(chain, popped, original) && At(chain, cur, off, |popped|) && off < |chain[cur]|
    ensures Received(SetByte(chain, cur, off, b), popped + [b], original)
    ensures SameShape(SetByte(chain, cur, off, b), chain)
  {
    SetInConcat(chain, cur, off, b);
  }

  lemma ShapeOfChain(a: seq<seq<byte>>, b: seq<seq<byte>>)
    requires SameShape(a, b) && NonEmpty(b)
    ensures NonEmpty(a) && |Concat(a)| == |Concat(b)|
  {
    assert a[..|a|] == a && b[..|b|] == b;
    assert Before(a, |a|) == Before(b, |b|);
  }

  // ---------- what the fields of a transfer say ----------

  ghost predicate BufferSent(buffer: seq<byte>, n: nat, pushed: seq<byte>) {
    n <= |buffer| && pushed == buffer[..n]
  }

  ghost predicate BufferFilled(buffer: seq<byte>, n: nat, popped: seq<byte>, original: seq<byte>) {
    n <= |buffer| == |original| && buffer[..n] == popped && buffer[n..] == original[n..]
  }

  ghost predicate ChainSending(chain: seq<seq<byte>>, cur: nat, off: nat, toWrite: nat, written: nat, pushed: seq<byte>) {
    && NonEmpty(chain) && toWrite == |Concat(chain)| && At(chain, cur, off, written)
    && (cur + 1 == |chain| ==> LastByteReachable(chain))
    && 0 < written < toWrite && pushed == Concat(chain)[..written]
  }

  ghost predicate ChainSent(chain: seq<seq<byte>>, cur: nat, toWrite: nat, written: nat, pushed: seq<byte>, beyond: byte) {
    && NonEmpty(chain) && written == toWrite == |Concat(chain)| && toWrite > 0 && cur == |chain|
    && pushed == Queued(chain, beyond)
  }

  ghost predicate ChainUnread(chain: seq<seq<byte>>, cur: nat, off: nat, toRead: nat, read: nat, original: seq<byte>) {
    NonEmpty(chain) && toRead == |Concat(chain)| && cur == off == read == 0 && Concat(chain) == original
  }

  ghost predicate ChainReceiving(chain: seq<seq<byte>>, toRead: nat, read: nat, popped: seq<byte>, original: seq<byte>) {
    && NonEmpty(chain) && toRead == |original| == |Concat(chain)|
    && |popped| == read && Received(chain, popped, original)
  }

  /** The reading position is before a byte still to be received. */
  ghost predicate ReadsOn(chain: seq<seq<byte>>, cur: nat, off: nat, toRead: nat, read: nat) {
    At(chain, cur, off, read) && off < |chain[cur]| && read < toRead
  }

  lemma ReadStarts(chain: seq<seq<byte>>, cur: nat, off: nat, toRead: nat, read: nat, original: seq<byte>)
    requires ChainUnread(chain, cur, off, toRead, read, original)
    ensures ChainReceiving(chain, toRead, read, [], original) && ReadsOn(chain, cur, off, toRead, read)
  {
    ChainStart(chain);
  }

  lemma BeforeRead(chain: seq<seq<byte>>, cur: nat, off: nat, toRead: nat, read: nat, popped: seq<byte>, original: seq<byte>)
    requires ChainReceiving(chain, toRead, read, popped, original) && ReadsOn(chain, cur, off, toRead, read)
    ensures Received(chain, popped, original) && At(chain, cur, off, |popped|) && cur < |chain| && |popped| == read < toRead
  {
  }

  /** Filling the current buffer leaves the position in it, at the start of the next, or behind the last. */
  lemma AfterRead(chain: seq<seq<byte>>, was: seq<seq<byte>>, cur: nat, off: nat, n: nat, toRead: nat, read: nat,
                  before: seq<byte>, popped: seq<byte>, original: seq<byte>)
    requires ChainReceiving(was, toRead, read, before, original) && ReadsOn(was, cur, off, toRead, read)
    requires SameShape(chain, was) && Received(chain, popped, original) && |popped| == read + n
    requires cur < |chain| ==> off + n <= |chain[cur]|
    ensures cur < |chain| == |was| && ChainReceiving(chain, toRead, read + n, popped, original)
    ensures if off + n < |chain[cur]| then ReadsOn(chain, cur, off + n, toRead, read + n) && read + n < toRead
            else if cur + 1 < |chain| then ReadsOn(chain, cur + 1, 0, toRead, read + n)
            else read + n == toRead
  {
    hide Concat, Before, Received;
    ShapeOfChain(chain, was);
    AfterBuffer(chain, cur, off + n, read + n);
  }

  /** The last byte: what the position holds or, with the position at the end of a buffer, what lies behind it. */
  lemma LastByteOut(chain: seq<seq<byte>>, cur: nat, off: nat, toWrite: nat, written: nat, pushed: seq<byte>, beyond: byte)
    requires ChainSending(chain, cur, off, toWrite, written, pushed) && written + 1 == toWrite
    requires off < |chain[cur]| <==> LastByteReachable(chain)
    requires off < |chain[cur]| ==> chain[cur][off] == Concat(chain)[written]
    ensures ChainSent(chain, |chain|, toWrite, written + 1, pushed + [if off < |chain[cur]| then chain[cur][off] else beyond], beyond)
  {
  }

  // ---------- the interrupt context ----------

  class InterruptContext {
    const beyond: byte

    var state: TransferState
    var errorFlag: bool                 // ERROR_FLAG in State
    var capturedStatus: Status
    var capturedDataLength: nat

    // WRITE_CONTEXT
    var writeBuffer: seq<byte>
    var currentWrite: nat

    // READ_CONTEXT
    var readBuffer: seq<byte>
    var currentRead: nat

    // SEQUENCE_CONTEXT
    var writeMdls: seq<seq<byte>>
    var currentWriteMdl: nat            // |writeMdls| when CurrentWriteMdl is null
    var currentWriteMdlOffset: nat
    var bytesToWrite: nat
    var bytesWritten: nat
    var readMdls: seq<seq<byte>>
    var currentReadMdl: nat             // |readMdls| when CurrentReadMdl is null
    var currentReadMdlOffset: nat
    var bytesToRead: nat
    var bytesRead: nat

    // what the device has seen of the current transfer
    ghost var pushed: seq<byte>         // bytes written to the FIFO
    ghost var popped: seq<byte>         // bytes read from it
    ghost var readsProgrammed: nat
    ghost var lastStatus: Status        // the last status read
    ghost var lastDataLength: nat       // the last data length read
    ghost var original: seq<byte>       // the receive memory before the transfer

    ghost predicate Chains()
      reads this
    {
      && NonEmpty(writeMdls) && NonEmpty(readMdls)
      && bytesToWrite == |Concat(writeMdls)| && bytesToRead == |Concat(readMdls)|
    }

    ghost predicate NothingCaptured()
      reads this
    {
      !errorFlag && capturedStatus == NO_STATUS && capturedDataLength == 0
    }

    ghost predicate Valid()
      reads this
    {
      && (if state == Invalid then !errorFlag else errorFlag <==> capturedStatus.clkt || capturedStatus.err)
      && (state != Invalid && !errorFlag && !WaitsForDone(state) ==> NothingCaptured())
      && match state
         case Invalid => true
         case Sending =>
           BufferSent(writeBuffer, currentWrite, pushed) && currentWrite < |writeBuffer| && popped == [] && readsProgrammed == 0
         case SendingWaitForDone =>
           BufferSent(writeBuffer, currentWrite, pushed) && currentWrite == |writeBuffer| && popped == [] && readsProgrammed == 0
         case Receiving => BufferFilled(readBuffer, currentRead, popped, original) && currentRead < |readBuffer| && pushed == []
         case ReceivingWaitForDone =>
           BufferFilled(readBuffer, currentRead, popped, original) && currentRead == |readBuffer| && pushed == []
         case SendingSequence =>
           && ChainSending(writeMdls, currentWriteMdl, currentWriteMdlOffset, bytesToWrite, bytesWritten, pushed)
           && ChainUnread(readMdls, currentReadMdl, currentReadMdlOffset, bytesToRead, bytesRead, original)
           && popped == [] && readsProgrammed == 0
         case ReceivingSequence =>
           && ChainSent(writeMdls, currentWriteMdl, bytesToWrite, bytesWritten, pushed, beyond) && readsProgrammed == 1
           && ChainReceiving(readMdls, bytesToRead, bytesRead, popped, original)
           && ReadsOn(readMdls, currentReadMdl, currentReadMdlOffset, bytesToRead, bytesRead)
         case ReceivingSequenceWaitForDone =>
           && ChainSent(writeMdls, currentWriteMdl, bytesToWrite, bytesWritten, pushed, beyond) && readsProgrammed == 1
           && ChainReceiving(readMdls, bytesToRead, bytesRead, popped, original) && bytesRead == bytesToRead
    }

    ghost function RequestLength(): nat
      reads this
    {
      match state
      case Sending => |writeBuffer|
      case SendingWaitForDone => |writeBuffer|
      case Receiving => |readBuffer|
      case ReceivingWaitForDone => |readBuffer|
      case Invalid => 0
      case _ => bytesToWrite + bytesToRead
    }

    /** The device cannot take or give the next byte the state is waiting for. */
    ghost predicate Paused()
      reads this
    {
      match state
      case Sending => !lastStatus.txd
      case Receiving => !lastStatus.rxd
      case SendingSequence => if bytesWritten + 1 < bytesToWrite then !lastStatus.txd else !lastStatus.txw
      case ReceivingSequence => !lastStatus.rxd
      case _ => true
    }

    constructor (behindBuffers: byte)
      ensures Valid() && state == Invalid && beyond == behindBuffers
    {
      beyond := behindBuffers;
      state, errorFlag, capturedStatus, capturedDataLength := Invalid, false, NO_STATUS, 0;
    }

    // ---------- registers ----------

    method ReadStatus() returns (s: Status)
      modifies this`lastStatus
      ensures lastStatus == s
    {
      s := *;
      lastStatus := s;
    }

    method ReadDataLength() returns (n: nat)
      modifies this`lastDataLength
      ensures n == lastDataLength <= MAX_TRANSFER_LENGTH
    {
      n :| n <= MAX_TRANSFER_LENGTH;
      lastDataLength := n;
    }

    method PushData(b: byte)
      modifies this`pushed
      ensures pushed == old(pushed) + [b]
    {
      pushed := pushed + [b];
    }

    method PopData() returns (b: byte)
      modifies this`popped
      ensures popped == old(popped) + [b]
    {
      b := *;
      popped := popped + [b];
    }

    /** WriteFifo: push until the data is used up or the FIFO is full. */
    method WriteFifo(data: seq<byte>) returns (bytesWritten: nat)
      modifies this`pushed, this`lastStatus
      ensures bytesWritten <= |data| && pushed == old(pushed) + data[..bytesWritten]
      ensures bytesWritten < |data| ==> !lastStatus.txd
    {
      bytesWritten := 0;
      while bytesWritten != |data|
        invariant bytesWritten <= |data| && pushed == old(pushed) + data[..bytesWritten]
        decreases |data| - bytesWritten
      {
        var statusReg := ReadStatus();
        if !statusReg.txd {
          break;
        }
        PushData(data[bytesWritten]);
        bytesWritten := bytesWritten + 1;
      }
    }

    // ---------- the interrupt service routine, state by state ----------

    /** SENDING: more of the write buffer. */
    method Send()
      requires Valid() && state == Sending && !errorFlag
      modifies this`state, this`currentWrite, this`pushed, this`lastStatus
      ensures Valid() && old(currentWrite) <= currentWrite && old(pushed) <= pushed
      ensures if currentWrite < |writeBuffer| then state == Sending && !lastStatus.txd else state == SendingWaitForDone
    {
      hide BufferFilled, ChainSending, ChainSent, ChainUnread, ChainReceiving, ReadsOn;
      var dataPtr := currentWrite;
      while true
        invariant state == Sending && dataPtr < |writeBuffer| && pushed == writeBuffer[..dataPtr] && old(currentWrite) <= dataPtr
        decreases |writeBuffer| - dataPtr
      {
        var tempStatusReg := ReadStatus();
        if !tempStatusReg.txd {
          currentWrite := dataPtr;
          return;
        }
        PushData(writeBuffer[dataPtr]);
        dataPtr := dataPtr + 1;
        if dataPtr == |writeBuffer| {
          break;
        }
      }
      currentWrite := dataPtr;
      state := SendingWaitForDone;
    }

    /** RECEIVING: more of the read buffer. */
    method Receive()
      requires Valid() && state == Receiving && !errorFlag
      modifies this`state, this`currentRead, this`readBuffer, this`popped, this`lastStatus
      ensures Valid() && old(currentRead) <= currentRead && old(popped) <= popped && |readBuffer| == |old(readBuffer)|
      ensures if currentRead < |readBuffer| then state == Receiving && !lastStatus.rxd else state == ReceivingWaitForDone
    {
      hide BufferSent, ChainSending, ChainSent, ChainUnread, ChainReceiving, ReadsOn;
      var dataPtr := currentRead;
      while true
        invariant state == Receiving && dataPtr < |readBuffer| == |old(readBuffer)| == |original| && old(currentRead) <= dataPtr && old(popped) <= popped
        invariant readBuffer[..dataPtr] == popped && readBuffer[dataPtr..] == original[dataPtr..]
        decreases |readBuffer| - dataPtr
      {
        var tempStatusReg := ReadStatus();
        if !tempStatusReg.rxd {
          currentRead := dataPtr;
          return;
        }
        var b := PopData();
        ghost var was := readBuffer;
        readBuffer := readBuffer[..dataPtr] + [b] + readBuffer[dataPtr + 1..];
        assert readBuffer[dataPtr + 1..] == was[dataPtr..][1..] == original[dataPtr..][1..];
        dataPtr := dataPtr + 1;
        if dataPtr == |readBuffer| {
          break;
        }
      }
      currentRead := dataPtr;
      state := ReceivingWaitForDone;
    }

    /** SENDING_SEQUENCE: all but the last byte of the chain, then, with room in the FIFO, the read and that byte. */
    method SendSequence()
      requires Valid() && state == SendingSequence && !errorFlag
      modifies this`state, this`currentWriteMdl, this`currentWriteMdlOffset, this`bytesWritten, this`pushed,
               this`lastStatus, this`readsProgrammed
      ensures Valid() && old(pushed) <= pushed
      ensures state == SendingSequence || state == ReceivingSequence
      ensures state == SendingSequence ==>
                if bytesWritten + 1 < bytesToWrite then !lastStatus.txd else !lastStatus.txw
      ensures state == ReceivingSequence ==> lastStatus.txw
    {
      hide BufferSent, BufferFilled, ChainSent, ChainUnread, ChainReceiving, ReadsOn, LastByteReachable, NonEmpty, Concat, At;
      while true
        invariant ChainSending(writeMdls, currentWriteMdl, currentWriteMdlOffset, bytesToWrite, bytesWritten, pushed)
        invariant state == SendingSequence && readsProgrammed == 0 && old(pushed) <= pushed
        decreases |writeMdls| - currentWriteMdl
      {
        var complete := WriteCurrentMdl();
        if !complete {
          return;
        }
        OneByteLeft(writeMdls, currentWriteMdl, currentWriteMdlOffset, bytesWritten);
        if bytesWritten + 1 == bytesToWrite {
          break;
        }
        currentWriteMdl := currentWriteMdl + 1;
        currentWriteMdlOffset := 0;
      }
      var tempStatusReg := ReadStatus();
      if tempStatusReg.txw {
        ProgramRead();
      }
    }

    /** Push what the current buffer has left, but for the last byte of the last buffer. */
    method WriteCurrentMdl() returns (complete: bool)
      requires ChainSending(writeMdls, currentWriteMdl, currentWriteMdlOffset, bytesToWrite, bytesWritten, pushed)
      modifies this`currentWriteMdlOffset, this`bytesWritten, this`pushed, this`lastStatus
      ensures ChainSending(writeMdls, currentWriteMdl, currentWriteMdlOffset, bytesToWrite, bytesWritten, pushed)
      ensures old(pushed) <= pushed
      ensures if complete
              then currentWriteMdlOffset == |writeMdls[currentWriteMdl]| - if currentWriteMdl + 1 < |writeMdls| then 0 else 1
              else bytesWritten + 1 < bytesToWrite && !lastStatus.txd
    {
      hide Concat;
      LastHasByte(writeMdls, currentWriteMdl, currentWriteMdlOffset, bytesWritten);
      var current := writeMdls[currentWriteMdl];
      var remaining := |current| - currentWriteMdlOffset;
      var currentMdlBytesToWrite := if currentWriteMdl + 1 < |writeMdls| then remaining else remaining - 1;
      ghost var off := currentWriteMdlOffset;
      var n := WriteFifo(current[currentWriteMdlOffset..currentWriteMdlOffset + currentMdlBytesToWrite]);
      assert current[off..off + currentMdlBytesToWrite][..n] == current[off..off + n];
      PushInBuffer(writeMdls, currentWriteMdl, off, bytesWritten, n);
      RestOfChain(writeMdls, currentWriteMdl, off + n, bytesWritten + n);
      bytesWritten := bytesWritten + n;
      currentWriteMdlOffset := currentWriteMdlOffset + n;
      complete := n == currentMdlBytesToWrite;
    }

    /** Program the read and push the byte at the current position. */
    method ProgramRead()
      requires bytesWritten + 1 == bytesToWrite && NothingCaptured() && popped == [] && readsProgrammed == 0
      requires ChainSending(writeMdls, currentWriteMdl, currentWriteMdlOffset, bytesToWrite, bytesWritten, pushed)
      requires ChainUnread(readMdls, currentReadMdl, currentReadMdlOffset, bytesToRead, bytesRead, original)
      requires currentWriteMdl < |writeMdls| && currentWriteMdlOffset <= |writeMdls[currentWriteMdl]|
      requires currentWriteMdlOffset < |writeMdls[currentWriteMdl]| <==> LastByteReachable(writeMdls)
      requires currentWriteMdlOffset < |writeMdls[currentWriteMdl]|
               ==> writeMdls[currentWriteMdl][currentWriteMdlOffset] == Concat(writeMdls)[bytesWritten]
      modifies this`state, this`currentWriteMdl, this`currentWriteMdlOffset, this`bytesWritten, this`pushed,
               this`readsProgrammed
      ensures Valid() && state == ReceivingSequence && old(pushed) <= pushed
    {
      hide ChainSending, ChainSent, ChainUnread, ChainReceiving, ReadsOn, LastByteReachable, Concat, Valid;
      ReadStarts(readMdls, currentReadMdl, currentReadMdlOffset, bytesToRead, bytesRead, original);
      LastByteOut(writeMdls, currentWriteMdl, currentWriteMdlOffset, bytesToWrite, bytesWritten, pushed, beyond);
      readsProgrammed := readsProgrammed + 1;
      PushData(if currentWriteMdlOffset < |writeMdls[currentWriteMdl]|
               then writeMdls[currentWriteMdl][currentWriteMdlOffset] else beyond);
      bytesWritten, currentWriteMdlOffset := bytesWritten + 1, currentWriteMdlOffset + 1;
      currentWriteMdl, state := |writeMdls|, ReceivingSequence;
      ValidWhileReading();
    }

    /** ReadFifoMdl: fill the current buffer from its offset until it is full or the FIFO is empty. */
    method ReadFifoMdl() returns (n: nat)
      requires Received(readMdls, popped, original) && At(readMdls, currentReadMdl, currentReadMdlOffset, |popped|)
      modifies this`readMdls, this`popped, this`lastStatus
      ensures SameShape(readMdls, old(readMdls)) && Received(readMdls, popped, original)
      ensures old(popped) <= popped && |popped| == |old(popped)| + n
      ensures currentReadMdlOffset + n <= |readMdls[currentReadMdl]|
      ensures currentReadMdlOffset + n < |readMdls[currentReadMdl]| ==> !lastStatus.rxd
    {
      hide Received, Before;
      n := 0;
      while currentReadMdlOffset + n != |readMdls[currentReadMdl]|
        invariant SameShape(readMdls, old(readMdls)) && Received(readMdls, popped, original)
        invariant old(popped) <= popped && |popped| == |old(popped)| + n
        invariant At(readMdls, currentReadMdl, currentReadMdlOffset + n, |popped|)
        decreases |readMdls[currentReadMdl]| - n
      {
        var statusReg := ReadStatus();
        if !statusReg.rxd {
          break;
        }
        ghost var before := popped;
        var b := PopData();
        StoreNext(readMdls, currentReadMdl, currentReadMdlOffset + n, before, original, b);
        readMdls := SetByte(readMdls, currentReadMdl, currentReadMdlOffset + n, b);
        n := n + 1;
      }
    }

    /** RECEIVING_SEQUENCE: fill buffer after buffer. */
    method ReceiveSequence()
      requires Valid() && state == ReceivingSequence && !errorFlag
      modifies this`state, this`readMdls, this`currentReadMdl, this`currentReadMdlOffset, this`bytesRead, this`popped,
               this`lastStatus
      ensures Valid() && old(popped) <= popped
      ensures if bytesRead < bytesToRead then state == ReceivingSequence && !lastStatus.rxd
              else state == ReceivingSequenceWaitForDone
    {
      hide ChainSent, ChainReceiving, ReadsOn, Valid;
      ValidWhileReading();
      while true
        invariant ChainReceiving(readMdls, bytesToRead, bytesRead, popped, original) && state == ReceivingSequence
        invariant ReadsOn(readMdls, currentReadMdl, currentReadMdlOffset, bytesToRead, bytesRead) && old(popped) <= popped
        decreases |readMdls| - currentReadMdl
      {
        var full := FillCurrentMdl();
        if !full {
          ValidWhileReading();
          return;
        }
        currentReadMdl := currentReadMdl + 1;
        currentReadMdlOffset := 0;
        if currentReadMdl == |readMdls| {
          break;
        }
      }
      state := ReceivingSequenceWaitForDone;
      ValidWhileReading();
    }

    /** Fill what the current buffer has left. */
    method FillCurrentMdl() returns (full: bool)
      requires ChainReceiving(readMdls, bytesToRead, bytesRead, popped, original)
      requires ReadsOn(readMdls, currentReadMdl, currentReadMdlOffset, bytesToRead, bytesRead)
      modifies this`readMdls, this`currentReadMdlOffset, this`bytesRead, this`popped, this`lastStatus
      ensures ChainReceiving(readMdls, bytesToRead, bytesRead, popped, original)
      ensures currentReadMdl < |readMdls| == |old(readMdls)| && old(popped) <= popped
      ensures full <==> currentReadMdlOffset == |readMdls[currentReadMdl]|
      ensures if !full then ReadsOn(readMdls, currentReadMdl, currentReadMdlOffset, bytesToRead, bytesRead)
                            && bytesRead < bytesToRead && !lastStatus.rxd
              else if currentReadMdl + 1 < |readMdls| then ReadsOn(readMdls, currentReadMdl + 1, 0, bytesToRead, bytesRead)
              else bytesRead == bytesToRead
    {
      hide ChainReceiving, ReadsOn, Received, At, SameShape;
      ghost var chain, before := readMdls, popped;
      BeforeRead(readMdls, currentReadMdl, currentReadMdlOffset, bytesToRead, bytesRead, popped, original);
      var n := ReadFifoMdl();
      AfterRead(readMdls, chain, currentReadMdl, currentReadMdlOffset, n, bytesToRead, bytesRead, before, popped, original);
      bytesRead := bytesRead + n;
      currentReadMdlOffset := currentReadMdlOffset + n;
      full := currentReadMdlOffset == |readMdls[currentReadMdl]|;
    }

    /** The invariant in the reading states of a sequence. */
    lemma ValidWhileReading()
      requires state == ReceivingSequence || state == ReceivingSequenceWaitForDone
      ensures Valid() <==>
                && (errorFlag <==> capturedStatus.clkt || capturedStatus.err)
                && (state == ReceivingSequence && !errorFlag ==> NothingCaptured())
                && ChainSent(writeMdls, currentWriteMdl, bytesToWrite, bytesWritten, pushed, beyond) && readsProgrammed == 1
                && ChainReceiving(readMdls, bytesToRead, bytesRead, popped, original)
                && if state == ReceivingSequence
                   then ReadsOn(readMdls, currentReadMdl, currentReadMdlOffset, bytesToRead, bytesRead)
                   else bytesRead == bytesToRead
    {
      hide ChainSent, ChainReceiving, ReadsOn;
    }

    // ---------- starting a transfer, one step each ----------

    /** ResetHardwareAndRequestContext. */
    method Reset()
      modifies this`state, this`errorFlag
      ensures Valid() && state == Invalid
    {
      state, errorFlag := Invalid, false;
    }

    method OnRead(buffer: seq<byte>, marked: bool) returns (status: NtStatus)
      requires |buffer| >= 1
      modifies this
      ensures status == if |buffer| > MAX_TRANSFER_LENGTH then NotSupported else if marked then Success else Cancelled
      ensures status == NotSupported ==> unchanged(this)
      ensures status == Cancelled ==> Valid() && state == Invalid
      ensures status == Success ==> Valid() && state == Receiving && original == buffer && popped == [] && RequestLength() == |buffer|
      ensures status == Success ==> !errorFlag && readBuffer == buffer && currentRead == 0 && pushed == []
    {
      hide BufferSent, ChainSending, ChainSent, ChainUnread, ChainReceiving, ReadsOn;
      if |buffer| > MAX_TRANSFER_LENGTH {
        return NotSupported;
      }
      NewRequest(Receiving, buffer);
      readBuffer, currentRead := buffer, 0;
      if !marked {
        Reset();
        return Cancelled;
      }
      return Success;
    }

    method OnWrite(buffer: seq<byte>, marked: bool) returns (status: NtStatus)
      requires |buffer| >= 1
      modifies this
      ensures status == if |buffer| > MAX_TRANSFER_LENGTH then NotSupported else if marked then Success else Cancelled
      ensures status == NotSupported ==> unchanged(this)
      ensures status == Cancelled ==> Valid() && state == Invalid
      ensures status == Success ==> Valid() && writeBuffer == buffer && state == if pushed == buffer then SendingWaitForDone else Sending
      ensures status == Success ==> pushed <= buffer && popped == [] && !errorFlag
      ensures status == Success && state == Sending ==> !lastStatus.txd
    {
      hide BufferFilled, ChainSending, ChainSent, ChainUnread, ChainReceiving, ReadsOn;
      if |buffer| > MAX_TRANSFER_LENGTH {
        return NotSupported;
      }
      pushed, popped, readsProgrammed := [], [], 0;
      var bytesWritten := WriteFifo(buffer);
      state := if bytesWritten == |buffer| then SendingWaitForDone else Sending;
      errorFlag, capturedStatus, capturedDataLength := false, NO_STATUS, 0;
      writeBuffer, currentWrite := buffer, bytesWritten;
      if !marked {
        Reset();
        return Cancelled;
      }
      return Success;
    }

    /** OnSequence: only a write followed by a read, without delays and each of at most the maximal length. */
    method OnSequence(transferCount: nat, write: Descriptor, read: Descriptor, marked: bool) returns (status: NtStatus)
      requires NonEmpty(write.chain) && NonEmpty(read.chain)
      modifies this
      ensures status == NotSupported <==>
                || transferCount != 2 || !write.toDevice || read.toDevice || write.delayInUs != 0 || read.delayInUs != 0
                || |Concat(write.chain)| > MAX_TRANSFER_LENGTH || |Concat(read.chain)| > MAX_TRANSFER_LENGTH
      ensures status == InsufficientResources <==> status != NotSupported && !(write.mapped && read.mapped)
      ensures status == NotSupported || status == InsufficientResources ==> unchanged(this)
      ensures status == IoTimeout || status == NoSuchDevice ==> |Concat(write.chain)| == 1 && !lastStatus.ta
      ensures status == NoSuchDevice ==> lastStatus.err && !lastStatus.clkt
      ensures status == IoTimeout || status == NoSuchDevice || status == Cancelled ==> Valid() && state == Invalid
      ensures status == Cancelled ==> !marked
      ensures status == Success ==>
                && marked && Valid() && writeMdls == write.chain && readMdls == read.chain && original == Concat(read.chain)
                && state == (if |Concat(write.chain)| == 1 then ReceivingSequence else SendingSequence)
                && RequestLength() == |Concat(write.chain)| + |Concat(read.chain)|
                && pushed <= Concat(write.chain) && |pushed| == 1 && popped == [] && !errorFlag
      ensures status != InternalError
    {
      hide Concat, Valid, NonEmpty;
      if transferCount != 2 || !write.toDevice || |Concat(write.chain)| > MAX_TRANSFER_LENGTH || write.delayInUs != 0 {
        return NotSupported;
      }
      if read.toDevice || |Concat(read.chain)| > MAX_TRANSFER_LENGTH || read.delayInUs != 0 {
        return NotSupported;
      }
      if !write.mapped || !read.mapped {
        return InsufficientResources;
      }
      NewRequest(SendingSequence, Concat(read.chain));
      SetUpSequence(write.chain, read.chain);
      status := StartSequenceWrite(marked);
      if status != Success {
        Reset();
      }
    }

    /** WaitForTransferActive: up to ten thousand looks at the status. */
    method WaitForTransferActive() returns (status: NtStatus)
      modifies this`lastStatus
      ensures status == Success || status == IoTimeout || status == NoSuchDevice
      ensures status == Success <==> lastStatus.ta
      ensures status == NoSuchDevice <==> !lastStatus.ta && !lastStatus.clkt && lastStatus.err
    {
      var count := 10000;
      while true
        invariant 0 < count <= 10000
        decreases count
      {
        var statusReg := ReadStatus();
        if statusReg.ta {
          return Success;
        } else if statusReg.clkt {
          return IoTimeout;
        } else if statusReg.err {
          return NoSuchDevice;
        }
        count := count - 1;
        if count == 0 {
          break;
        }
      }
      return IoTimeout;
    }

    /** The request context: no byte moved, no error. `memory` is what the receive memory holds. */
    method NewRequest(first: TransferState, memory: seq<byte>)
      modifies this`pushed, this`popped, this`readsProgrammed, this`original, this`state, this`errorFlag,
               this`capturedStatus, this`capturedDataLength
      ensures pushed == [] && popped == [] && readsProgrammed == 0 && original == memory
      ensures state == first && NothingCaptured()
    {
      pushed, popped, readsProgrammed, original := [], [], 0, memory;
      state, errorFlag, capturedStatus, capturedDataLength := first, false, NO_STATUS, 0;
    }

    /** The sequence context: both chains from their start. */
    method SetUpSequence(writeChain: seq<seq<byte>>, readChain: seq<seq<byte>>)
      requires NonEmpty(writeChain) && NonEmpty(readChain)
      modifies this`writeMdls, this`currentWriteMdl, this`currentWriteMdlOffset, this`bytesToWrite, this`bytesWritten,
               this`readMdls, this`currentReadMdl, this`currentReadMdlOffset, this`bytesToRead, this`bytesRead
      ensures Chains() && writeMdls == writeChain && readMdls == readChain
      ensures currentWriteMdl == 0 && currentWriteMdlOffset == 0 && bytesWritten == 0
      ensures currentReadMdl == 0 && currentReadMdlOffset == 0 && bytesRead == 0
    {
      hide Concat, NonEmpty;
      writeMdls, currentWriteMdl, currentWriteMdlOffset := writeChain, 0, 0;
      bytesToWrite, bytesWritten := |Concat(writeChain)|, 0;
      readMdls, currentReadMdl, currentReadMdlOffset := readChain, 0, 0;
      bytesToRead, bytesRead := |Concat(readChain)|, 0;
    }

    /** StartSequenceWrite: the first byte, and with a single byte to write the read as well. */
    method StartSequenceWrite(marked: bool) returns (status: NtStatus)
      requires Chains() && state == SendingSequence && NothingCaptured()
      requires currentWriteMdl == currentWriteMdlOffset == bytesWritten == 0
      requires currentReadMdl == currentReadMdlOffset == bytesRead == 0 && original == Concat(readMdls)
      requires pushed == [] && popped == [] && readsProgrammed == 0
      modifies this`pushed, this`bytesWritten, this`currentWriteMdl, this`currentWriteMdlOffset, this`readsProgrammed,
               this`state, this`lastStatus
      ensures status == Success || status == Cancelled || status == IoTimeout || status == NoSuchDevice
      ensures status == Success || status == Cancelled ==> (status == Success <==> marked) && (bytesToWrite == 1 ==> lastStatus.ta)
      ensures status == IoTimeout || status == NoSuchDevice ==> bytesToWrite == 1 && !lastStatus.ta
      ensures status == NoSuchDevice ==> lastStatus.err && !lastStatus.clkt
      ensures status == Success ==> Valid() && state == if bytesToWrite == 1 then ReceivingSequence else SendingSequence
      ensures status == Success ==> pushed <= Concat(writeMdls) && |pushed| == 1
    {
      hide Concat, Valid, NonEmpty;
      FirstByte(writeMdls, beyond);
      if bytesToWrite == 1 {
        status := WaitForTransferActive();
        if status != Success {
          return;
        }
      }
      PushFirstByte();
      status := if marked then Success else Cancelled;
    }

    /** The first byte goes out, and with a single byte the read is programmed. */
    method PushFirstByte()
      requires Chains() && state == SendingSequence && NothingCaptured()
      requires currentWriteMdl == currentWriteMdlOffset == bytesWritten == 0
      requires currentReadMdl == currentReadMdlOffset == bytesRead == 0 && original == Concat(readMdls)
      requires pushed == [] && popped == [] && readsProgrammed == 0
      modifies this`pushed, this`bytesWritten, this`currentWriteMdl, this`currentWriteMdlOffset, this`readsProgrammed,
               this`state
      ensures Valid() && pushed == [writeMdls[0][0]]
      ensures state == if bytesToWrite == 1 then ReceivingSequence else SendingSequence
    {
      hide Concat, Valid, NonEmpty;
      ChainStart(writeMdls);
      PushData(writeMdls[0][0]);
      bytesWritten, currentWriteMdlOffset := 1, 1;
      if bytesToWrite == 1 {
        readsProgrammed := 1;
        currentWriteMdl := |writeMdls|;
        state := ReceivingSequence;
      }
      SequenceStarted();
    }

    /** What holds of the fields once the first byte is out. */
    lemma SequenceStarted()
      requires Chains() && NothingCaptured()
      requires currentReadMdl == currentReadMdlOffset == bytesRead == 0 && original == Concat(readMdls)
      requires pushed == [writeMdls[0][0]] && popped == [] && bytesWritten == currentWriteMdlOffset == 1
      requires if bytesToWrite == 1
               then readsProgrammed == 1 && currentWriteMdl == |writeMdls| && state == ReceivingSequence
               else readsProgrammed == 0 && currentWriteMdl == 0 && state == SendingSequence
      ensures Valid()
    {
      hide BufferSent, BufferFilled, Concat, Queued, LastByteReachable, At, Received, NonEmpty;
      FirstByte(writeMdls, beyond);
      ChainStart(readMdls);
    }

    // ---------- the interrupt service routine ----------

    /** HandleInterrupt. `statusReg` is the status it starts from; `dpc` tells whether it queues the DPC. */
    method HandleInterrupt() returns (statusReg: Status, claimed: bool, dpc: bool)
      requires Valid()
      modifies this
      ensures Valid() && (state == old(state) || state == After(old(state)))
      ensures claimed <==> statusReg.rxr || statusReg.txw || statusReg.done
      ensures dpc ==> errorFlag || WaitsForDone(state)
      ensures claimed && old(state) != Invalid && !old(errorFlag) ==>
                if statusReg.clkt || statusReg.err
                then && errorFlag && capturedStatus == statusReg && capturedDataLength == lastDataLength
                     && state == old(state) && (dpc <==> (statusReg.done ==> !lastStatus.ta))
                else && !errorFlag && dpc == WaitsForDone(old(state)) && (state == old(state) ==> Paused())
                     && (dpc ==> capturedStatus == statusReg && capturedDataLength == lastDataLength)
      ensures claimed && old(errorFlag) ==> dpc
      ensures old(pushed) <= pushed && old(popped) <= popped && original == old(original)
      ensures writeBuffer == old(writeBuffer) && writeMdls == old(writeMdls) && RequestLength() == old(RequestLength())
      ensures old(errorFlag) ==> errorFlag && capturedStatus == old(capturedStatus) && capturedDataLength == old(capturedDataLength)
      ensures !claimed ==> state == old(state) && errorFlag == old(errorFlag) && pushed == old(pushed) && popped == old(popped)
    {
      hide BufferSent, BufferFilled, ChainSending, ChainSent, ChainUnread, ChainReceiving, ReadsOn;
      statusReg := ReadStatus();
      claimed, dpc := ServeInterrupt(statusReg);
    }

    /** HandleInterrupt once it has read the status. */
    method ServeInterrupt(statusReg: Status) returns (claimed: bool, dpc: bool)
      requires Valid()
      modifies this
      ensures Valid() && (state == old(state) || state == After(old(state)))
      ensures claimed <==> statusReg.rxr || statusReg.txw || statusReg.done
      ensures dpc ==> errorFlag || WaitsForDone(state)
      ensures claimed && old(state) != Invalid && !old(errorFlag) ==>
                if statusReg.clkt || statusReg.err
                then && errorFlag && capturedStatus == statusReg && capturedDataLength == lastDataLength
                     && state == old(state) && (dpc <==> (statusReg.done ==> !lastStatus.ta))
                else && !errorFlag && dpc == WaitsForDone(old(state)) && (state == old(state) ==> Paused())
                     && (dpc ==> capturedStatus == statusReg && capturedDataLength == lastDataLength)
      ensures claimed && old(errorFlag) ==> dpc
      ensures old(pushed) <= pushed && old(popped) <= popped && original == old(original)
      ensures writeBuffer == old(writeBuffer) && writeMdls == old(writeMdls) && RequestLength() == old(RequestLength())
      ensures old(errorFlag) ==> errorFlag && capturedStatus == old(capturedStatus) && capturedDataLength == old(capturedDataLength)
      ensures !claimed ==> state == old(state) && errorFlag == old(errorFlag) && pushed == old(pushed) && popped == old(popped)
    {
      hide BufferSent, BufferFilled, ChainSending, ChainSent, ChainUnread, ChainReceiving, ReadsOn;
      claimed, dpc := true, false;
      if !statusReg.rxr && !statusReg.txw && !statusReg.done {
        claimed := false;
        return;
      }
      if state == Invalid {
        return;
      }
      if errorFlag {
        dpc := true;
        return;
      }
      var dataLength := ReadDataLength();
      if statusReg.clkt || statusReg.err {
        dpc := RecordError(statusReg, dataLength);
        return;
      }
      dpc := Dispatch(statusReg, dataLength);
    }

    /** An error bit is set: note it, and with DONE and TA both asserted wait for the next DONE. */
    method RecordError(statusReg: Status, dataLength: nat) returns (dpc: bool)
      requires Valid() && state != Invalid && !errorFlag && (statusReg.clkt || statusReg.err)
      modifies this`errorFlag, this`capturedStatus, this`capturedDataLength, this`lastStatus
      ensures Valid() && errorFlag && capturedStatus == statusReg && capturedDataLength == dataLength
      ensures if statusReg.done then dpc == !lastStatus.ta else dpc
    {
      hide BufferSent, BufferFilled, ChainSending, ChainSent, ChainUnread, ChainReceiving, ReadsOn;
      errorFlag, capturedStatus, capturedDataLength := true, statusReg, dataLength;
      dpc := true;
      if statusReg.done {
        var tempStatusReg := ReadStatus();
        dpc := !tempStatusReg.ta;
      }
    }

    /** The switch over the transfer state. */
    method Dispatch(statusReg: Status, dataLength: nat) returns (dpc: bool)
      requires Valid() && state != Invalid && !errorFlag && !statusReg.clkt && !statusReg.err
      modifies this
      ensures Valid() && state != Invalid && !errorFlag
      ensures if state == old(state) then Paused() else state == After(old(state))
      ensures dpc == WaitsForDone(old(state)) && (dpc ==> state == old(state) && capturedStatus == statusReg && capturedDataLength == dataLength)
      ensures old(pushed) <= pushed && old(popped) <= popped && original == old(original)
      ensures writeBuffer == old(writeBuffer) && writeMdls == old(writeMdls) && RequestLength() == old(RequestLength())
      ensures lastDataLength == old(lastDataLength)
    {
      hide Valid;
      dpc := false;
      if state == Sending {
        Send();
      } else if state == Receiving {
        Receive();
      } else if state == SendingSequence {
        SendSequence();
      } else if state == ReceivingSequence {
        ReceiveSequence();
      } else {
        CaptureDone(statusReg, dataLength);
        dpc := true;
      }
    }

    /** DONE: status and data length are kept for the DPC. */
    method CaptureDone(statusReg: Status, dataLength: nat)
      requires Valid() && WaitsForDone(state) && !errorFlag && !statusReg.clkt && !statusReg.err
      modifies this`capturedStatus, this`capturedDataLength
      ensures Valid() && capturedStatus == statusReg && capturedDataLength == dataLength
    {
      hide BufferSent, BufferFilled, ChainSending, ChainSent, ChainUnread, ChainReceiving, ReadsOn;
      capturedStatus, capturedDataLength := statusReg, dataLength;
    }

    // ---------- completion ----------

    /** ProcessRequestCompletion, in whatever state the DPC finds the request.

        With no error bit captured, the receiving states succeed as they are, and a write only once its DONE has been
        captured with nothing left to send; success is the full length if and only if the state waits for DONE.

        With an error bit captured, a count of bytes left that exceeds the write is an internal error, and otherwise a
        clock stretch timeout is a timeout.  Any other error is a missing device if nothing of a write was sent, for
        every read, and for a sequence that is reading if DONE is set with a data length left; else it is a partial
        success, with the bytes of the write sent less the one refused, or 0 for a sequence that is reading. */
    function ProcessRequestCompletion(): (r: (NtStatus, nat))
      requires Valid()
      reads this
      ensures r.1 <= RequestLength()
      ensures r.0 in {Success, InternalError, IoTimeout, NoSuchDevice} && (r.0 != Success ==> r.1 == 0)
      ensures !errorFlag ==> r.0 == Success || r.0 == InternalError
      ensures !errorFlag ==>
                (r.0 == Success <==>
                  || state in {Receiving, ReceivingWaitForDone, ReceivingSequence, ReceivingSequenceWaitForDone}
                  || (state == SendingWaitForDone && capturedStatus.done && capturedDataLength == 0))
      ensures r.0 == Success && !errorFlag ==> (r.1 == RequestLength() <==> WaitsForDone(state))
      ensures errorFlag ==> state != Invalid && (capturedStatus.clkt || capturedStatus.err)
      ensures errorFlag && state in {Sending, SendingWaitForDone, SendingSequence} ==>
                var toWrite := if state == SendingSequence then |Concat(writeMdls)| else |writeBuffer|;
                if toWrite < capturedDataLength then r.0 == InternalError
                else if capturedStatus.clkt then r.0 == IoTimeout
                else if capturedDataLength == toWrite then r.0 == NoSuchDevice
                else r.0 == Success && r.1 + 1 + capturedDataLength == toWrite
      ensures errorFlag && state in {Receiving, ReceivingWaitForDone} ==>
                r.0 == if capturedStatus.clkt then IoTimeout else NoSuchDevice
      ensures errorFlag && state in {ReceivingSequence, ReceivingSequenceWaitForDone} ==>
                && (r.0 == IoTimeout <==> capturedStatus.clkt)
                && (r.0 == NoSuchDevice <==> !capturedStatus.clkt && capturedStatus.done && capturedDataLength != 0)
                && (r.0 == Success <==> !capturedStatus.clkt && (!capturedStatus.done || capturedDataLength == 0))
                && r.1 == 0
      ensures r.0 == Success && errorFlag ==> !capturedStatus.clkt && capturedStatus.err && r.1 < RequestLength()
    {
      match state
      case Invalid => (InternalError, 0)
      case Sending => Sent(|writeBuffer|)
      case SendingWaitForDone => Sent(|writeBuffer|)
      case SendingSequence => Sent(bytesToWrite)
      case Receiving => Got()
      case ReceivingWaitForDone => Got()
      case ReceivingSequence => Exchanged()
      case ReceivingSequenceWaitForDone => Exchanged()
    }

    function Sent(toWrite: nat): (NtStatus, nat)
      reads this
    {
      if capturedDataLength > toWrite then (InternalError, 0)
      else
        var bytesSent := toWrite - capturedDataLength;
        if capturedStatus.clkt then (IoTimeout, 0)
        else if capturedStatus.err then if bytesSent == 0 then (NoSuchDevice, 0) else (Success, bytesSent - 1)
        else if capturedStatus.done && bytesSent == toWrite then (Success, bytesSent)
        else (InternalError, 0)
    }

    function Got(): (NtStatus, nat)
      reads this
    {
      if capturedStatus.clkt then (IoTimeout, 0)
      else if capturedStatus.err then (NoSuchDevice, 0)
      else (Success, currentRead)
    }

    function Exchanged(): (NtStatus, nat)
      reads this
    {
      if capturedStatus.clkt then (IoTimeout, 0)
      else if capturedStatus.err then
        if !capturedStatus.done || capturedDataLength == 0 then (Success, 0) else (NoSuchDevice, 0)
      else (Success, bytesWritten + bytesRead)
    }

    /** The order of a write-read sequence: until the read is programmed a proper prefix of the chain has been handed
        over; from then on the read has been programmed once, behind all but one byte, and the whole chain has been
        handed over if and only if its last byte was within reach or happens to be what lies behind the buffer. */
    lemma SequenceOrder()
      requires Valid()
      requires state == SendingSequence || state == ReceivingSequence || state == ReceivingSequenceWaitForDone
      ensures NonEmpty(writeMdls) && Concat(writeMdls) != []
      ensures var all := Concat(writeMdls);
              if state == SendingSequence then readsProgrammed == 0 && popped == [] && pushed < all
              else && readsProgrammed == 1 && |pushed| == |all| && pushed[..|all| - 1] == all[..|all| - 1]
                   && (pushed == all <==> LastByteReachable(writeMdls) || beyond == all[|all| - 1])
    {
      BytesAfter(writeMdls, 0);
      var all := Concat(writeMdls);
      if state != SendingSequence {
        assert all == all[..|all| - 1] + [all[|all| - 1]];
        assert pushed[|all| - 1] == if LastByteReachable(writeMdls) then all[|all| - 1] else beyond;
      }
    }

    lemma FirstByteSent()
      requires Valid() && state == SendingSequence
      ensures 0 < |pushed| < |Concat(writeMdls)|
    {
    }

    /** Once the read is programmed the whole chain has been sent, whatever lies behind its buffers, if it is a single
        buffer or its last buffer holds at least two bytes, and otherwise what lies behind the last buffer but one has
        been sent in place of the last byte. */
    lemma WholeChainSent()
      requires Valid() && (state == ReceivingSequence || state == ReceivingSequenceWaitForDone)
      ensures writeMdls != [] && Concat(writeMdls) != []
      ensures var all := Concat(writeMdls);
              if LastByteReachable(writeMdls) then pushed == all else pushed == all[..|all| - 1] + [beyond]
    {
      BytesAfter(writeMdls, 0);
      var all := Concat(writeMdls);
      assert all == all[..|all| - 1] + [all[|all| - 1]];
    }

    /** A transfer reported as successful with no error bit captured: if the state waits for DONE it has done all it was
        asked for, every byte of the write has been handed over in order, and the receive memory holds exactly the bytes
        that came in; otherwise it is a read that has not received all its bytes, and what is reported are those handed
        over and received so far. */
    lemma SuccessMeansDone()
      requires Valid() && !errorFlag && ProcessRequestCompletion().0 == Success
      ensures state == SendingWaitForDone ==> pushed == writeBuffer
      ensures state == ReceivingWaitForDone ==> readBuffer == popped
      ensures state == ReceivingSequenceWaitForDone ==>
                && Concat(readMdls) == popped && readsProgrammed == 1 && NonEmpty(writeMdls) && Concat(writeMdls) != []
                && pushed == Queued(writeMdls, beyond)
      ensures !WaitsForDone(state) ==>
                && (state == Receiving || state == ReceivingSequence)
                && ProcessRequestCompletion().1 == |pushed| + |popped| < RequestLength()
    {
    }
  }

  /** Two buffers of one byte each, for any device and any number of interrupts: the second byte is never sent, but what
      lies behind the first buffer is. */
  method SingleByteTailIsLost(beyond: byte, readChain: seq<seq<byte>>, interrupts: nat) returns (c: InterruptContext)
    requires NonEmpty(readChain) && |Concat(readChain)| <= MAX_TRANSFER_LENGTH
    ensures fresh(c) && c.Valid()
    ensures c.pushed == if c.state == SendingSequence then [1] else [1, beyond]
    ensures c.state in {SendingSequence, ReceivingSequence, ReceivingSequenceWaitForDone}
  {
    c := new InterruptContext(beyond);
    TwoSingles();
    hide Concat, Queued, InterruptContext.Valid;
    var _ := c.OnSequence(2, Descriptor(true, 0, [[1], [2]], true), Descriptor(false, 0, readChain, true), true);
    for i := 0 to interrupts
      invariant fresh(c) && c.Valid() && c.beyond == beyond && c.writeMdls == [[1], [2]]
      invariant c.state in {SendingSequence, ReceivingSequence, ReceivingSequenceWaitForDone}
    {
      var _, _, _ := c.HandleInterrupt();
    }
    if c.state == SendingSequence {
      c.SequenceOrder();
      c.FirstByteSent();
    } else {
      c.WholeChainSent();
    }
  }

  lemma TwoSingles()
    ensures Concat([[1], [2]]) == [1, 2] && NonEmpty([[1], [2]]) && !LastByteReachable([[1], [2]])
  {
    assert [[1], [2]][..1] == [[1]] && Concat([[1]]) == [1];
  }

  /** Where filling a buffer leaves off. */
  lemma AfterBuffer(chain: seq<seq<byte>>, cur: nat, off: nat, filled: nat)
    requires NonEmpty(chain) && At(chain, cur, off, filled)
    ensures off < |chain[cur]| ==> filled < |Concat(chain)|
    ensures off == |chain[cur]| && cur + 1 < |chain| ==> At(chain, cur + 1, 0, filled) && filled < |Concat(chain)|
    ensures off == |chain[cur]| && cur + 1 == |chain| ==> filled == |Concat(chain)|
  {
    BytesAfter(chain, cur);
    BeforeNext(chain, cur);
  }

  lemma FirstByte(chain: seq<seq<byte>>, beyond: byte)
    requires NonEmpty(chain)
    ensures |Concat(chain)| >= 1 && Concat(chain)[..1] == [chain[0][0]] && At(chain, 0, 1, 1)
    ensures |Concat(chain)| == 1 ==> Queued(chain, beyond) == [chain[0][0]]
    ensures |chain| == 1 ==> LastByteReachable(chain)
  {
    BytesAfter(chain, 0);
    BufferInConcat(chain, 0);
    BeforeNext(chain, 0);
  }

  lemma ChainStart(chain: seq<seq<byte>>)
    requires NonEmpty(chain)
    ensures chain != [] && chain[0] != [] && At(chain, 0, 0, 0) && Received(chain, [], Concat(chain)) && Concat(chain) != []
  {
    BeforeNext(chain, 0);
    BytesAfter(chain, 0);
  }
}
