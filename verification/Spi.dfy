/** The SPI controller's polled transfer: bytes go out of one buffer chain while bytes come into another.

    The device is a script of polls: whether the request has been cancelled, whether the transmit FIFO has room, and
    whether the receive FIFO has a byte, and which.  When the script is used up the driver is still polling.
  */
module Spi {
  import opened Bytes

  datatype Direction = ToDevice | FromDevice | FullDuplex

  datatype Status = Success | Cancelled | InvalidParameter | InfoLengthMismatch | StillPolling

  datatype Poll = Poll(cancelled: bool, txd: bool, rxd: bool, rx: byte)

  function Min(a: nat, b: nat): nat {
    if a < b then a else b
  }

  function Max(a: nat, b: nat): nat {
    if a < b then b else a
  }

  function Zeros(n: nat): (z: seq<byte>)
    ensures |z| == n && forall i | 0 <= i < n :: z[i] == 0
  {
    seq(n, i => 0)
  }

  function TxPolls(polls: seq<Poll>): nat {
    if polls == [] then 0 else TxPolls(polls[..|polls| - 1]) + if polls[|polls| - 1].txd then 1 else 0
  }

  /** The bytes the receive FIFO holds out, in order. */
  function RxBytes(polls: seq<Poll>): seq<byte> {
    if polls == [] then []
    else RxBytes(polls[..|polls| - 1]) + if polls[|polls| - 1].rxd then [polls[|polls| - 1].rx] else []
  }

  /** Those of them a transfer of `most` bytes reads. */
  function Read(polls: seq<Poll>, most: nat): (bytes: seq<byte>)
    ensures |bytes| == Min(|RxBytes(polls)|, most) && bytes <= RxBytes(polls)
  {
    RxBytes(polls)[..Min(|RxBytes(polls)|, most)]
  }

  /** What has gone out: the write chain's bytes in order, then zeros. */
  ghost predicate SentInOrder(write: seq<byte>, w: nat, sent: seq<byte>) {
    var n := Min(|sent|, w);
    n <= |write| && sent == write[..n] + Zeros(|sent| - n)
  }

  /** What has come in: the first `r` bytes in order in the read chain, the rest dropped. */
  ghost predicate StoredInOrder(now: seq<byte>, was: seq<byte>, r: nat, received: seq<byte>) {
    var n := Min(|received|, r);
    n <= |was| && now == received[..n] + was[n..]
  }

  lemma SendByte(write: seq<byte>, w: nat, sent: seq<byte>, b: byte)
    requires SentInOrder(write, w, sent)
    requires if |sent| < w then |sent| < |write| && b == write[|sent|] else b == 0
    ensures SentInOrder(write, w, sent + [b])
  {
  }

  lemma StoreByte(now: seq<byte>, was: seq<byte>, r: nat, received: seq<byte>, b: byte)
    requires StoredInOrder(now, was, r, received)
    ensures |received| < r && |received| < |was| ==> |now| == |was| && StoredInOrder(now[|received| := b], was, r, received + [b])
    ensures |received| >= r ==> StoredInOrder(now, was, r, received + [b])
  {
  }

  /** The whole write buffer has gone out, then zeros up to the longer of the two lengths, and the first bytes that came
      in fill the read buffer. */
  ghost predicate Complete(write: seq<byte>, now: seq<byte>, was: seq<byte>, w: nat, r: nat, sent: seq<byte>, received: seq<byte>) {
    && |sent| == |received| == Max(w, r)
    && w <= |write| && sent == write[..w] + Zeros(Max(w, r) - w)
    && r <= |was| == |now| && now[..r] == received[..r] && now[r..] == was[r..]
  }

  /** The bytes still to be written from the buffer, then as zeros, and to be read into the buffer, then away. */
  datatype Left = Left(toWrite: nat, zeros: nat, toRead: nat, toDiscard: nat)

  const NOTHING_LEFT := Left(0, 0, 0, 0)

  ghost predicate Balanced(write: seq<byte>, now: seq<byte>, was: seq<byte>, w: nat, r: nat, sent: seq<byte>,
                           received: seq<byte>, left: Left, most: nat)
  {
    && |sent| + left.toWrite + left.zeros == most && |received| + left.toRead + left.toDiscard == most
    && w - left.toWrite == Min(|sent|, w) && r - left.toRead == Min(|received|, r)
    && SentInOrder(write, w, sent) && StoredInOrder(now, was, r, received) && |now| == |was|
  }

  lemma StartBalanced(write: seq<byte>, read: seq<byte>, w: nat, r: nat)
    ensures Balanced(write, read, read, w, r, [], [], Left(w, Max(w, r) - w, r, Max(w, r) - r), Max(w, r))
  {
  }

  lemma MovedSoFar(write: seq<byte>, now: seq<byte>, was: seq<byte>, w: nat, r: nat, sent: seq<byte>, received: seq<byte>,
                   left: Left)
    requires Balanced(write, now, was, w, r, sent, received, left, Max(w, r))
    ensures SentInOrder(write, w, sent) && StoredInOrder(now, was, r, received) && |now| == |was|
    ensures left.toWrite <= w && left.toRead <= r
    ensures (r - left.toRead) + (w - left.toWrite) == Min(|received|, r) + Min(|sent|, w)
    ensures left == NOTHING_LEFT <==> |sent| == |received| == Max(w, r)
    ensures left == NOTHING_LEFT <==> Complete(write, now, was, w, r, sent, received)
  {
    MovedEverything(write, now, was, w, r, sent, received);
    hide SentInOrder, StoredInOrder;
  }

  /** Of transfers in order, those that have moved everything are complete, and no others. */
  lemma MovedEverything(write: seq<byte>, now: seq<byte>, was: seq<byte>, w: nat, r: nat, sent: seq<byte>, received: seq<byte>)
    requires SentInOrder(write, w, sent) && StoredInOrder(now, was, r, received)
    ensures Complete(write, now, was, w, r, sent, received) <==> |sent| == |received| == Max(w, r)
  {
  }

  /** MdlGetByte: walk the chain to the byte at `index`. */
  method MdlGetByte(mdl: seq<seq<byte>>, index: nat, length: nat) returns (status: Status, b: byte)
    ensures status == (if index < length && index < |Concat(mdl)| then Success else InfoLengthMismatch)
    ensures status == Success ==> b == Concat(mdl)[index]
  {
    status, b := InfoLengthMismatch, 0;
    if index < length {
      var currentOffset: nat, i := index, 0;
      while i < |mdl|
        invariant i <= |mdl| && Before(mdl, i) + currentOffset == index
        invariant i == |mdl| ==> index >= |Concat(mdl)|
      {
        BufferInConcat(mdl, i);
        BeforeNext(mdl, i);
        if currentOffset < |mdl[i]| {
          assert Concat(mdl)[Before(mdl, i)..Before(mdl, i) + |mdl[i]|][currentOffset] == mdl[i][currentOffset];
          return Success, mdl[i][currentOffset];
        }
        currentOffset, i := currentOffset - |mdl[i]|, i + 1;
      }
    }
  }

  /** MdlSetByte: walk the chain to the byte at `index` and store there. */
  method MdlSetByte(mdl: seq<seq<byte>>, index: nat, length: nat, b: byte) returns (status: Status, after: seq<seq<byte>>)
    ensures status == (if index < length && index < |Concat(mdl)| then Success else InfoLengthMismatch)
    ensures status != Success ==> after == mdl
    ensures status == Success ==> Concat(after) == Concat(mdl)[index := b]
    ensures |after| == |mdl| && forall j | 0 <= j < |mdl| :: |after[j]| == |mdl[j]|
  {
    status, after := InfoLengthMismatch, mdl;
    if index < length {
      var currentOffset: nat, i := index, 0;
      while i < |mdl|
        invariant i <= |mdl| && Before(mdl, i) + currentOffset == index
        invariant i == |mdl| ==> index >= |Concat(mdl)|
      {
        BeforeNext(mdl, i);
        if currentOffset < |mdl[i]| {
          SetInConcat(mdl, i, currentOffset, b);
          return Success, SetByte(mdl, i, currentOffset, b);
        }
        currentOffset, i := currentOffset - |mdl[i]|, i + 1;
      }
    }
  }

  /** PBC_REQUEST. */
  class Request {
    var direction: Direction
    var writeMdlChain: seq<seq<byte>>
    var writeLength: nat
    var readMdlChain: seq<seq<byte>>
    var readLength: nat
    var information: nat
    var totalInformation: nat
    var transferIndex: nat

    // what the wire has seen of the current transfer
    ghost var sent: seq<byte>
    ghost var received: seq<byte>

    constructor ()
      ensures totalInformation == 0 && transferIndex == 0
    {
      direction, writeMdlChain, readMdlChain := ToDevice, [], [];
      writeLength, readLength, information, totalInformation, transferIndex := 0, 0, 0, 0, 0;
    }

    /** PbcRequestSetNthTransferInfo leaves the length of the other direction at zero. */
    predicate Configured()
      reads this
    {
      (direction == ToDevice ==> readLength == 0) && (direction == FromDevice ==> writeLength == 0)
    }

    /** ControllerDoOneTransferPollMode; `n` is the number of polls it has completed. */
    method DoOneTransferPollMode(polls: seq<Poll>) returns (status: Status, n: nat)
      requires Configured()
      modifies this`readMdlChain, this`information, this`sent, this`received
      ensures n <= |polls| && (status == StillPolling ==> n == |polls|)
      ensures status == Cancelled ==> n < |polls| && polls[n].cancelled
      ensures SentInOrder(Concat(writeMdlChain), writeLength, sent)
      ensures status != InvalidParameter
              ==> StoredInOrder(Concat(readMdlChain), old(Concat(readMdlChain)), readLength, received)
      ensures status != InvalidParameter ==>
                && |sent| == Min(TxPolls(polls[..n]), Max(writeLength, readLength))
                && received == Read(polls[..n], Max(writeLength, readLength))
      ensures status != InvalidParameter ==>
                (status == Success <==> |sent| == |received| == Max(writeLength, readLength))
      ensures status == Success ==>
                Complete(Concat(writeMdlChain), Concat(readMdlChain), old(Concat(readMdlChain)), writeLength, readLength,
                         sent, received)
      ensures status == Success || status == Cancelled
              ==> information == Min(|received|, readLength) + Min(|sent|, writeLength)
      ensures status == InvalidParameter || status == StillPolling ==> information == old(information)
      ensures status == InvalidParameter ==>
                || (|sent| == |Concat(writeMdlChain)| < writeLength
                    && StoredInOrder(Concat(readMdlChain), old(Concat(readMdlChain)), readLength, received))
                || (|received| == |old(Concat(readMdlChain))| + 1 <= readLength
                    && Concat(readMdlChain) == received[..|received| - 1])
      ensures status == InvalidParameter ==> n < |polls| && received <= RxBytes(polls[..n + 1])
      ensures status != InfoLengthMismatch && received <= RxBytes(polls)
      ensures |Concat(readMdlChain)| == |old(Concat(readMdlChain))|
    {
      hide Concat, SentInOrder, StoredInOrder, TxPolls, RxBytes, Read, Min, Complete, Balanced;
      sent, received := [], [];
      NothingMoved(Concat(writeMdlChain), Concat(readMdlChain), writeLength, readLength, polls);
      var bytesToWrite: nat := if direction == FromDevice then 0 else writeLength;
      var bytesToRead: nat := if direction == ToDevice then 0 else readLength;
      var transferByteLength := Max(bytesToWrite, bytesToRead);
      StartBalanced(Concat(writeMdlChain), Concat(readMdlChain), bytesToWrite, bytesToRead);
      ghost var was := Concat(readMdlChain);
      var left := Left(bytesToWrite, transferByteLength - bytesToWrite, bytesToRead, transferByteLength - bytesToRead);
      status, n, left := Poll(polls, left, was, transferByteLength);
      if status != InvalidParameter {
        MovedSoFar(Concat(writeMdlChain), Concat(readMdlChain), was, writeLength, readLength, sent, received, left);
      }
      RxPrefix(polls, if n < |polls| then n + 1 else n);
      RxPrefix(polls, n);
      if status == Success || status == Cancelled {
        information := (readLength - left.toRead) + (writeLength - left.toWrite);
      }
    }

    /** The polling loop. */
    method Poll(polls: seq<Poll>, bytes: Left, ghost was: seq<byte>, transferByteLength: nat)
        returns (status: Status, n: nat, left: Left)
      requires Moving(was, bytes, transferByteLength) && sent == [] && received == []
      modifies this`readMdlChain, this`sent, this`received
      ensures n <= |polls| && (status == StillPolling ==> n == |polls|)
      ensures status == Cancelled ==> n < |polls| && polls[n].cancelled
      ensures status in {Success, Cancelled, StillPolling, InvalidParameter}
      ensures status != InvalidParameter ==>
                && Moving(was, left, transferByteLength) && (status == Success <==> left == NOTHING_LEFT)
                && |sent| == Min(TxPolls(polls[..n]), transferByteLength)
                && received == Read(polls[..n], transferByteLength)
      ensures status == InvalidParameter ==> Short(was) && n < |polls| && received <= RxBytes(polls[..n + 1])
    {
      NothingMoved([], [], 0, transferByteLength, polls);
      hide Concat, Balanced, TxPolls, RxBytes, Read, Min;
      status, n, left := Success, 0, bytes;
      while left != NOTHING_LEFT
        invariant n <= |polls| && status == Success && Moving(was, left, transferByteLength)
        invariant |sent| == Min(TxPolls(polls[..n]), transferByteLength)
        invariant received == Read(polls[..n], transferByteLength)
        decreases |polls| - n
      {
        if n == |polls| {
          status := StillPolling;
          return;
        }
        if polls[n].cancelled {
          status := Cancelled;
          return;
        }
        CountPoll(polls, n, transferByteLength);
        ReadNext(polls, n, transferByteLength);
        var ok;
        ok, left := ServePoll(polls[n], left, was, transferByteLength);
        if !ok {
          status := InvalidParameter;
          return;
        }
        n := n + 1;
      }
    }

    /** A chain has turned out to be shorter than its length. */
    ghost predicate Short(was: seq<byte>)
      reads this
    {
      && SentInOrder(Concat(writeMdlChain), writeLength, sent) && |Concat(readMdlChain)| == |was|
      && (|| (|sent| == |Concat(writeMdlChain)| < writeLength
              && StoredInOrder(Concat(readMdlChain), was, readLength, received))
          || (|received| == |was| + 1 <= readLength && Concat(readMdlChain) == received[..|received| - 1]))
    }

    /** What has been moved and what is left to move add up, in both directions. */
    ghost predicate Moving(was: seq<byte>, left: Left, transferByteLength: nat)
      reads this
    {
      Balanced(Concat(writeMdlChain), Concat(readMdlChain), was, writeLength, readLength, sent, received, left,
               transferByteLength)
    }

    /** The two halves of a poll. */
    method ServePoll(poll: Poll, bytes: Left, ghost was: seq<byte>, transferByteLength: nat) returns (ok: bool, left: Left)
      requires Moving(was, bytes, transferByteLength)
      modifies this`readMdlChain, this`sent, this`received
      ensures ok ==> Moving(was, left, transferByteLength)
      ensures ok ==> |sent| == |old(sent)| + if poll.txd && |old(sent)| < transferByteLength then 1 else 0
      ensures ok ==> received == old(received) + if poll.rxd && |old(received)| < transferByteLength then [poll.rx] else []
      ensures !ok ==> Short(was)
      ensures !ok ==> (received == old(received)
                       || (poll.rxd && |old(received)| < transferByteLength && received == old(received) + [poll.rx]))
    {
      MinAtMost(|sent|, writeLength);
      MinAtMost(|received|, readLength);
      hide Concat, SentInOrder, StoredInOrder, Min;
      var bytesToWrite, zeroBytesToWrite, bytesToRead, readBytesToDiscard :=
        bytes.toWrite, bytes.zeros, bytes.toRead, bytes.toDiscard;
      ok, left := true, bytes;
      if poll.txd {
        ok, bytesToWrite, zeroBytesToWrite := Transmit(bytesToWrite, zeroBytesToWrite);
        if !ok {
          return;
        }
      }
      if poll.rxd {
        ok, bytesToRead, readBytesToDiscard := Receive(bytesToRead, readBytesToDiscard, poll.rx, was);
      }
      left := Left(bytesToWrite, zeroBytesToWrite, bytesToRead, readBytesToDiscard);
    }

    /** The transmit FIFO has room: the next byte of the client's buffer, or a zero. */
    method Transmit(bytesToWrite: nat, zeroBytesToWrite: nat) returns (ok: bool, bytesLeft: nat, zerosLeft: nat)
      requires SentInOrder(Concat(writeMdlChain), writeLength, sent) && bytesToWrite <= writeLength
      requires writeLength - bytesToWrite == Min(|sent|, writeLength)
      modifies this`sent
      ensures SentInOrder(Concat(writeMdlChain), writeLength, sent) && bytesLeft <= bytesToWrite
      ensures ok ==> |sent| + bytesLeft + zerosLeft == |old(sent)| + bytesToWrite + zeroBytesToWrite
      ensures ok ==> |sent| == |old(sent)| + if bytesToWrite + zeroBytesToWrite > 0 then 1 else 0
      ensures ok ==> writeLength - bytesLeft == Min(|sent|, writeLength)
      ensures !ok ==> sent == old(sent) && |sent| == |Concat(writeMdlChain)| < writeLength
    {
      hide Concat;
      ok, bytesLeft, zerosLeft := true, bytesToWrite, zeroBytesToWrite;
      if bytesToWrite > 0 {
        var got, nextByte := MdlGetByte(writeMdlChain, writeLength - bytesToWrite, writeLength);
        if got != Success {
          return false, bytesLeft, zerosLeft;
        }
        SendByte(Concat(writeMdlChain), writeLength, sent, nextByte);
        sent := sent + [nextByte];
        bytesLeft := bytesToWrite - 1;
      } else if zeroBytesToWrite > 0 {
        SendByte(Concat(writeMdlChain), writeLength, sent, 0);
        sent := sent + [0];
        zerosLeft := zeroBytesToWrite - 1;
      }
    }

    /** The receive FIFO holds a byte: into the client's buffer while there is room, then away. */
    method Receive(bytesToRead: nat, readBytesToDiscard: nat, nextByte: byte, ghost was: seq<byte>)
        returns (ok: bool, bytesLeft: nat, discardLeft: nat)
      requires StoredInOrder(Concat(readMdlChain), was, readLength, received) && bytesToRead <= readLength
      requires readLength - bytesToRead == Min(|received|, readLength)
      modifies this`readMdlChain, this`received
      ensures |Concat(readMdlChain)| == |was| && bytesLeft <= bytesToRead
      ensures ok ==> StoredInOrder(Concat(readMdlChain), was, readLength, received)
      ensures ok ==> |received| + bytesLeft + discardLeft == |old(received)| + bytesToRead + readBytesToDiscard
      ensures received == old(received) + if bytesToRead + readBytesToDiscard > 0 then [nextByte] else []
      ensures ok ==> readLength - bytesLeft == Min(|received|, readLength)
      ensures !ok ==> |received| == |was| + 1 <= readLength && Concat(readMdlChain) == received[..|received| - 1]
    {
      hide Concat;
      ok, bytesLeft, discardLeft := true, bytesToRead, readBytesToDiscard;
      if bytesToRead > 0 {
        StoreByte(Concat(readMdlChain), was, readLength, received, nextByte);
        received := received + [nextByte];
        var stored, chain := MdlSetByte(readMdlChain, readLength - bytesToRead, readLength, nextByte);
        if stored != Success {
          return false, bytesLeft, discardLeft;
        }
        readMdlChain := chain;
        bytesLeft := bytesToRead - 1;
      } else if readBytesToDiscard > 0 {
        StoreByte(Concat(readMdlChain), was, readLength, received, nextByte);
        received := received + [nextByte];
        discardLeft := readBytesToDiscard - 1;
      }
    }

    /** A full-duplex request: a write and a read prepared together and run as one transfer. */
    method OnFullDuplexPollMode(write: Transfer, read: Transfer, polls: seq<Poll>) returns (complete: bool, status: Status)
      requires transferIndex == 0 && totalInformation == 0
      modifies this
      ensures complete <==> status != StillPolling
      ensures writeMdlChain == write.chain
      ensures status == Success ==>
                && totalInformation == write.length + read.length
                && Complete(Concat(write.chain), Concat(readMdlChain), Concat(read.chain), write.length, read.length, sent, received)
      ensures received <= RxBytes(polls)
      ensures status == Cancelled ==> totalInformation == Min(|received|, read.length) + Min(|sent|, write.length)
      ensures status == InvalidParameter || status == StillPolling ==> totalInformation == 0
    {
      hide Concat, SentInOrder, StoredInOrder, TxPolls, RxBytes, Read;
      information, direction := 0, FullDuplex;
      writeMdlChain, writeLength := write.chain, write.length;
      readMdlChain, readLength := read.chain, read.length;
      var n;
      status, n := DoOneTransferPollMode(polls);
      complete := false;
      if status != StillPolling {
        complete := CompleteTransfer(1, status);
      }
    }

    // ---------- a request of several transfers ----------

    /** PbcRequestSetNthTransferInfo for a plain or sequence request. */
    method SetNthTransferInfo(t: Transfer)
      modifies this`information, this`direction, this`readMdlChain, this`readLength, this`writeMdlChain, this`writeLength
      ensures Configured() && information == 0 && direction == if t.read then FromDevice else ToDevice
      ensures if t.read then readMdlChain == t.chain && readLength == t.length && writeLength == 0
              else writeMdlChain == t.chain && writeLength == t.length && readLength == 0 && readMdlChain == old(readMdlChain)
    {
      information, readLength, writeLength := 0, 0, 0;
      if t.read {
        direction, readMdlChain, readLength := FromDevice, t.chain, t.length;
      } else {
        direction, writeMdlChain, writeLength := ToDevice, t.chain, t.length;
      }
    }

    /** ControllerCompleteTransfer: the request is completed after its last transfer or a cancelled one. */
    method CompleteTransfer(transferCount: nat, status: Status) returns (complete: bool)
      modifies this`information, this`totalInformation, this`transferIndex
      ensures totalInformation == old(totalInformation) + old(information) && information == 0
      ensures transferIndex == old(transferIndex) + 1
      ensures complete <==> transferIndex >= transferCount || status == Cancelled
    {
      totalInformation := totalInformation + information;
      information := 0;
      transferIndex := transferIndex + 1;
      complete := !(transferIndex < transferCount && status != Cancelled);
    }

    method DoNthTransfer(t: Transfer) returns (status: Status)
      modifies this`information, this`direction, this`readMdlChain, this`readLength, this`writeMdlChain, this`writeLength,
               this`sent, this`received
      ensures status != StillPolling ==> Served(t, Outcome(status, information, sent, received, Concat(readMdlChain)))
      ensures !t.read && status != StillPolling ==> Concat(readMdlChain) == old(Concat(readMdlChain))
    {
      hide Concat, SentInOrder, StoredInOrder, TxPolls, RxBytes, Read, Complete;
      SetNthTransferInfo(t);
      ghost var was := Concat(readMdlChain);
      var n;
      status, n := DoOneTransferPollMode(t.polls);
      NthTransfer(t, was, Concat(writeMdlChain), status, n, Outcome(status, information, sent, received, Concat(readMdlChain)));
    }

    /** OnRequestPollMode.  The request reports the bytes moved by all its transfers; a transfer whose buffer is too
        short reports none, and the sequence goes on behind it. */
    method OnRequestPollMode(transfers: seq<Transfer>) returns (complete: bool, status: Status, ghost outcomes: seq<Outcome>)
      requires transfers != [] && transferIndex == 0 && totalInformation == 0
      modifies this
      ensures |outcomes| <= |transfers| && totalInformation == Moved(outcomes)
      ensures forall i | 0 <= i < |outcomes| :: Served(transfers[i], outcomes[i])
      ensures forall i | 0 <= i < |outcomes| - 1 :: outcomes[i].status != Cancelled
      ensures complete ==> outcomes != [] && outcomes[|outcomes| - 1].status == status
                           && (|outcomes| == |transfers| || status == Cancelled)
      ensures !complete ==> |outcomes| < |transfers| && status == StillPolling
    {
      hide Served;
      complete, status, outcomes := false, Success, [];
      while !complete
        invariant |outcomes| == transferIndex && (!complete ==> transferIndex < |transfers|)
        invariant |outcomes| <= |transfers| && totalInformation == Moved(outcomes)
        invariant forall i | 0 <= i < |outcomes| :: Served(transfers[i], outcomes[i])
        invariant forall i | 0 <= i < |outcomes| - 1 :: outcomes[i].status != Cancelled
        invariant !complete && outcomes != [] ==> outcomes[|outcomes| - 1].status != Cancelled
        invariant complete ==> outcomes != [] && outcomes[|outcomes| - 1].status == status
                               && (|outcomes| == |transfers| || status == Cancelled)
        decreases |transfers| - |outcomes|, !complete
      {
        status := DoNthTransfer(transfers[transferIndex]);
        if status == StillPolling {
          return;
        }
        ghost var o := Outcome(status, information, sent, received, Concat(readMdlChain));
        MovedNext(outcomes, o);
        outcomes := outcomes + [o];
        complete := CompleteTransfer(|transfers|, status);
      }
    }
  }

  datatype Transfer = Transfer(read: bool, chain: seq<seq<byte>>, length: nat, polls: seq<Poll>)

  /** What a finished transfer reports, what has gone over the wire, and what the read memory then holds. */
  datatype Outcome = Outcome(status: Status, moved: nat, sent: seq<byte>, received: seq<byte>, memory: seq<byte>)

  /** A finished transfer of a plain or sequence request: a read sends zeros and stores the bytes that come in, in order; a
      write sends its buffer in order; both report their bytes. */
  ghost predicate Served(t: Transfer, o: Outcome) {
    && o.moved <= t.length && (o.status == InvalidParameter ==> o.moved == 0)
    && o.received <= RxBytes(t.polls)
    && (if t.read
        then && o.sent == Zeros(|o.sent|) && |o.memory| == |Concat(t.chain)|
             && (o.status != InvalidParameter ==>
                   o.moved == |o.received| <= |o.memory| && o.memory == o.received + Concat(t.chain)[|o.received|..])
        else o.sent <= Concat(t.chain) && (o.status != InvalidParameter ==> o.moved == |o.sent|))
    && (o.status == Success ==> |o.sent| == |o.received| == o.moved == t.length)
  }

  lemma NthTransfer(t: Transfer, was: seq<byte>, write: seq<byte>, status: Status, n: nat, o: Outcome)
    requires status == o.status && status != InfoLengthMismatch
    requires t.read ==> was == Concat(t.chain)
    requires !t.read ==> write == Concat(t.chain)
    requires SentInOrder(write, if t.read then 0 else t.length, o.sent) && |o.memory| == |was|
    requires o.received <= RxBytes(t.polls)
    requires !t.read || status != InvalidParameter ==> StoredInOrder(o.memory, was, if t.read then t.length else 0, o.received)
    requires status != InvalidParameter ==> |o.sent| <= t.length && |o.received| <= t.length
    requires status == Success ==> |o.sent| == |o.received| == t.length
    requires status == Success || status == Cancelled ==> o.moved == if t.read then |o.received| else |o.sent|
    requires status == InvalidParameter ==> o.moved == 0
    requires status == InvalidParameter && !t.read ==> |o.sent| <= t.length
    ensures status != StillPolling ==> Served(t, o)
    ensures !t.read ==> o.memory == was
  {
  }

  /** The bytes all transfers have moved. */
  ghost function Moved(outcomes: seq<Outcome>): nat {
    if outcomes == [] then 0 else Moved(outcomes[..|outcomes| - 1]) + outcomes[|outcomes| - 1].moved
  }

  lemma MovedNext(outcomes: seq<Outcome>, o: Outcome)
    ensures Moved(outcomes + [o]) == Moved(outcomes) + o.moved
  {
    assert (outcomes + [o])[..|outcomes|] == outcomes;
  }

  lemma NothingMoved(write: seq<byte>, read: seq<byte>, w: nat, r: nat, polls: seq<Poll>)
    ensures SentInOrder(write, w, []) && StoredInOrder(read, read, r, [])
    ensures Min(0, w) == 0 && Min(0, r) == 0 && Min(0, Max(w, r)) == 0
    ensures TxPolls(polls[..0]) == 0 && Read(polls[..0], Max(w, r)) == []
  {
  }

  lemma MinAtMost(a: nat, b: nat)
    ensures Min(a, b) <= a && Min(a, b) <= b
  {
  }

  lemma CountPoll(polls: seq<Poll>, n: nat, most: nat)
    requires n < |polls|
    ensures Min(TxPolls(polls[..n + 1]), most)
         == Min(TxPolls(polls[..n]), most) + if polls[n].txd && Min(TxPolls(polls[..n]), most) < most then 1 else 0
  {
    assert polls[..n + 1][..n] == polls[..n];
  }

  lemma {:induction false} RxPrefix(polls: seq<Poll>, n: nat)
    requires n <= |polls|
    ensures RxBytes(polls[..n]) <= RxBytes(polls)
  {
    if n == |polls| {
      assert polls[..n] == polls;
    } else {
      RxPrefix(polls[..|polls| - 1], n);
      assert polls[..|polls| - 1][..n] == polls[..n];
    }
  }

  lemma ReadNext(polls: seq<Poll>, n: nat, most: nat)
    requires n < |polls|
    ensures var before := Read(polls[..n], most);
            && Read(polls[..n + 1], most) == before + (if polls[n].rxd && |before| < most then [polls[n].rx] else [])
            && before <= RxBytes(polls[..n + 1])
            && (polls[n].rxd && |before| < most ==> before + [polls[n].rx] <= RxBytes(polls[..n + 1]))
  {
    assert polls[..n + 1][..n] == polls[..n];
  }
}
