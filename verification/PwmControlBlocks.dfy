/** How the PWM driver cuts its DMA buffer into packets and builds two control blocks and one link entry for each.

    Addresses are unbounded numbers; the allocations lie below 4 GB, so that no address wraps around.
  */
module PwmControlBlocks {
  import opened PwmRing

  const DMA_BUFFER_SIZE := 65536
  const PAGE_SIZE := 4096
  const LAST_CHUNK := 32          // AUDIO_PACKET_LAST_CHUNK_SIZE
  const SAMPLE := 8               // bytes of a PWM stereo sample
  const DROP_AFTER := 5320        // samples after which one is dropped

  /** Where a control block reads, how much, and which block follows (0: none). */
  datatype ControlBlock = ControlBlock(sourceAd: nat, txfrLen: int, nextConbk: nat, inten: bool)

  /** The control block whose NEXTCONBK links the packet in, and the value to write there. */
  datatype LinkInfo = LinkInfo(linkPtr: nat, linkValue: nat)

  datatype Status = Success | Unsuccessful | OperationInProgress

  /** The sizes of a configuration that passes the checks of AllocateDmaBuffer and InitializeAudio. */
  predicate Accepted(packetSize: nat, linkSize: nat) {
    && (linkSize == 8 || linkSize == 16)
    && LAST_CHUNK < packetSize <= DMA_BUFFER_SIZE
    && NumPackets(packetSize) <= MaxPackets(linkSize)
  }

  function MaxPackets(linkSize: nat): nat {
    PAGE_SIZE / (2 * CB_SIZE + linkSize)
  }

  function NumPackets(packetSize: nat): nat
    requires packetSize > 0
  {
    DMA_BUFFER_SIZE / packetSize
  }

  /** The packet that is one sample short; -1 stands for the driver's unsigned wrap-around and means none. */
  function DropIndex(packetSize: nat): int
    requires packetSize >= SAMPLE
  {
    var count := DROP_AFTER / (packetSize / SAMPLE);
    if count > NumPackets(packetSize) then NumPackets(packetSize) - 1 else count - 1
  }

  /** Offset in the DMA buffer and length of the `i`-th control block's data. */
  function Start(i: nat, packetSize: nat): int {
    i / 2 * packetSize + if i % 2 == 0 then 0 else packetSize - LAST_CHUNK
  }

  function Length(i: nat, packetSize: nat): int
    requires packetSize >= SAMPLE
  {
    if i % 2 == 1 then LAST_CHUNK
    else packetSize - LAST_CHUNK - if i / 2 == DropIndex(packetSize) then SAMPLE else 0
  }

  function End(i: nat, packetSize: nat): int
    requires packetSize >= SAMPLE
  {
    Start(i, packetSize) + Length(i, packetSize)
  }

  predicate Covers(i: nat, packetSize: nat, b: int)
    requires packetSize >= SAMPLE
  {
    Start(i, packetSize) <= b < End(i, packetSize)
  }

  /** Byte `b` belongs to the dropped sample. */
  predicate Dropped(packetSize: nat, b: int)
    requires packetSize >= SAMPLE
  {
    var d := DropIndex(packetSize);
    d >= 0 && (d + 1) * packetSize - LAST_CHUNK - SAMPLE <= b < (d + 1) * packetSize - LAST_CHUNK
  }

  // ---------- the page and the buffer are large enough ----------

  lemma PacketsFitBuffer(packetSize: nat)
    requires packetSize > 0
    ensures NumPackets(packetSize) * packetSize <= DMA_BUFFER_SIZE < (NumPackets(packetSize) + 1) * packetSize
  {
  }

  /** Control blocks and link table share one page, and packets are accepted exactly from 1150 bytes (1261 bytes with
      64-bit pointers) on. */
  lemma ControlPageFits(packetSize: nat, linkSize: nat)
    requires linkSize == 8 || linkSize == 16
    requires 0 < packetSize <= DMA_BUFFER_SIZE
    ensures 2 * MaxPackets(linkSize) * CB_SIZE + MaxPackets(linkSize) * linkSize <= PAGE_SIZE
    ensures Accepted(packetSize, linkSize) <==> packetSize >= if linkSize == 8 then 1150 else 1261
  {
    PacketsFitBuffer(packetSize);
    var n := NumPackets(packetSize);
    var max := MaxPackets(linkSize);
    assert max == if linkSize == 8 then 56 else 51;
    if n <= max {
      MulMonotone(n + 1, max + 1, packetSize);
    } else {
      MulMonotone(max + 1, n, packetSize);
    }
  }

  lemma MulMonotone(a: int, b: nat, c: nat)
    requires a <= b
    ensures a * c <= b * c
  {
    assert b * c == a * c + (b - a) * c;
  }

  // ---------- the control blocks tile the packets ----------

  lemma DropIndexInRange(packetSize: nat)
    requires LAST_CHUNK + SAMPLE <= packetSize <= DMA_BUFFER_SIZE
    ensures -1 <= DropIndex(packetSize) < NumPackets(packetSize)
    ensures DropIndex(packetSize) >= 0 <==> DROP_AFTER / (packetSize / SAMPLE) >= 1
  {
    PacketsFitBuffer(packetSize);
  }

  /** Blocks are in order, disjoint and inside the packets, and the packets inside the buffer. */
  lemma BlocksInOrder(packetSize: nat, i: nat, j: nat)
    requires LAST_CHUNK + SAMPLE <= packetSize <= DMA_BUFFER_SIZE && i < j < 2 * NumPackets(packetSize)
    ensures 0 <= Start(i, packetSize) <= End(i, packetSize) <= Start(j, packetSize)
    ensures End(j, packetSize) <= NumPackets(packetSize) * packetSize <= DMA_BUFFER_SIZE
  {
    hide DropIndex, NumPackets;
    PacketsFitBuffer(packetSize);
    MulMonotone(j / 2 + 1, NumPackets(packetSize), packetSize);
    MultipleOrder(i / 2, j / 2, packetSize);
    assert (i / 2 + 1) * packetSize == i / 2 * packetSize + packetSize;
    assert (j / 2 + 1) * packetSize == j / 2 * packetSize + packetSize;
  }

  /** Every byte of every packet is played by exactly one control block, but for the eight bytes of the one dropped
      sample, which no block plays. */
  lemma BlocksTile(packetSize: nat, b: nat)
    requires LAST_CHUNK + SAMPLE <= packetSize <= DMA_BUFFER_SIZE && b < NumPackets(packetSize) * packetSize
    ensures var i := Owner(packetSize, b);
            i < 2 * NumPackets(packetSize) && (Covers(i, packetSize, b) <==> !Dropped(packetSize, b))
    ensures forall j: nat | j < 2 * NumPackets(packetSize) && Covers(j, packetSize, b) :: j == Owner(packetSize, b)
  {
    var p := b / packetSize;
    var n := NumPackets(packetSize);
    assert p * packetSize <= b < (p + 1) * packetSize;
    if p >= n {
      MulMonotone(n, p, packetSize);
      assert false;
    }
    OwnerCovers(packetSize, b, p);
    forall j: nat | j < 2 * n && Covers(j, packetSize, b) ensures j == Owner(packetSize, b) {
      OwnerUnique(packetSize, b, p, j);
    }
  }

  /** The block whose packet and half hold byte `b`. */
  function Owner(packetSize: nat, b: nat): nat
    requires packetSize > 0
  {
    2 * (b / packetSize) + if b % packetSize < packetSize - LAST_CHUNK then 0 else 1
  }

  lemma OwnerCovers(packetSize: nat, b: nat, p: nat)
    requires LAST_CHUNK + SAMPLE <= packetSize && p == b / packetSize && p * packetSize <= b < (p + 1) * packetSize
    ensures Covers(Owner(packetSize, b), packetSize, b) <==> !Dropped(packetSize, b)
  {
    var d := DropIndex(packetSize);
    hide DropIndex;
    assert b % packetSize == b - p * packetSize;
    assert Owner(packetSize, b) / 2 == p;
    assert (p + 1) * packetSize == p * packetSize + packetSize;
    if d < p {
      MulMonotone(d + 1, p, packetSize);
    } else if d > p {
      MulMonotone(p + 2, d + 1, packetSize);
      assert (p + 2) * packetSize == (p + 1) * packetSize + packetSize;
    }
  }

  lemma OwnerUnique(packetSize: nat, b: nat, p: nat, j: nat)
    requires LAST_CHUNK + SAMPLE <= packetSize && p == b / packetSize && p * packetSize <= b < (p + 1) * packetSize
    requires Covers(j, packetSize, b)
    ensures j == Owner(packetSize, b)
  {
    hide DropIndex;
    assert b % packetSize == b - p * packetSize;
    assert (p + 1) * packetSize == p * packetSize + packetSize;
    assert (j / 2 + 1) * packetSize == j / 2 * packetSize + packetSize;
    MultipleOrder(j / 2, p, packetSize);
    MultipleOrder(p, j / 2, packetSize);
  }

  lemma MultipleOrder(a: nat, b: nat, c: nat)
    ensures a < b ==> (a + 1) * c <= b * c
  {
    if a < b {
      MulMonotone(a + 1, b, c);
    }
  }

  // ---------- the loop that builds them ----------

  /** The `i`-th control block. */
  function Block(i: nat, packetSize: nat, bufferPa: nat, cbPa: nat, uncached: nat): ControlBlock
    requires LAST_CHUNK <= packetSize
  {
    ControlBlock(bufferPa + Start(i, packetSize) + uncached, Length(i, packetSize),
                 if i % 2 == 0 then cbPa + (i + 1) * CB_SIZE + uncached else 0, i % 2 == 1)
  }

  function LinkOf(k: nat, n: nat, cbPa: nat): LinkInfo
    requires n > 0
  {
    LinkInfo(2 * Previous(k, n) + 1, FirstCb(cbPa, k))
  }

  // ---------- what the DMA makes of the blocks ----------

  /** The block at a bus address, or -1. */
  function BlockAt(ad: int, cbPa: nat): int {
    if ad >= cbPa && (ad - cbPa) % CB_SIZE == 0 then (ad - cbPa) / CB_SIZE else -1
  }

  /** The blocks the DMA visits from block `i` on, for at most `more` blocks behind it; it stops at a successor of zero. */
  function Visits(blocks: seq<ControlBlock>, i: int, cbPa: nat, uncached: nat, more: nat): seq<nat>
    decreases more
  {
    if !(0 <= i < |blocks|) then []
    else if blocks[i].nextConbk == 0 || more == 0 then [i]
    else [i] + Visits(blocks, BlockAt(blocks[i].nextConbk - uncached, cbPa), cbPa, uncached, more - 1)
  }

  function Offsets(lo: int, hi: int): seq<int> {
    seq(if lo <= hi then hi - lo else 0, j => lo + j)
  }

  /** The buffer offsets a run over these blocks reads, in order. */
  function Reads(blocks: seq<ControlBlock>, visits: seq<nat>, bufferPa: nat, uncached: nat): seq<int>
    requires forall i | 0 <= i < |visits| :: visits[i] < |blocks|
  {
    if visits == [] then []
    else
      var b := blocks[visits[|visits| - 1]];
      var from := b.sourceAd - uncached - bufferPa;
      Reads(blocks, visits[..|visits| - 1], bufferPa, uncached) + Offsets(from, from + b.txfrLen)
  }

  /** Packet `p` is the last to end within the first 5320 samples of the ring, or the ring's last packet. */
  predicate Drops(p: nat, n: nat, packetSize: nat) {
    var samples := packetSize / SAMPLE;
    (p + 1) * samples <= DROP_AFTER && (p == n - 1 || (p + 2) * samples > DROP_AFTER)
  }

  /** The DMA enters packet `p` at its link value, runs through two blocks and stops; it interrupts at the second only; and
      it reads the packet's bytes in order, less the sample in front of the last chunk if the packet is to drop one. */
  ghost predicate Plays(blocks: seq<ControlBlock>, link: LinkInfo, p: nat, n: nat, packetSize: nat,
                        bufferPa: nat, cbPa: nat, uncached: nat)
  {
    && 2 * p + 1 < |blocks|
    && (forall more: nat :: more > 0 ==> Visits(blocks, BlockAt(link.linkValue, cbPa), cbPa, uncached, more) == [2 * p, 2 * p + 1])
    && !blocks[2 * p].inten && blocks[2 * p + 1].inten
    && var end := (p + 1) * packetSize;
       Reads(blocks, [2 * p, 2 * p + 1], bufferPa, uncached)
         == Offsets(p * packetSize, end - LAST_CHUNK - if Drops(p, n, packetSize) then SAMPLE else 0)
            + Offsets(end - LAST_CHUNK, end)
  }

  lemma BlocksPlay(blocks: seq<ControlBlock>, link: LinkInfo, p: nat, n: nat, packetSize: nat,
                   bufferPa: nat, cbPa: nat, uncached: nat)
    requires LAST_CHUNK + SAMPLE <= packetSize <= DMA_BUFFER_SIZE && p < n == NumPackets(packetSize) && 2 * n <= |blocks|
    requires blocks[2 * p] == Block(2 * p, packetSize, bufferPa, cbPa, uncached)
    requires blocks[2 * p + 1] == Block(2 * p + 1, packetSize, bufferPa, cbPa, uncached)
    requires link == LinkOf(p, n, cbPa)
    ensures Plays(blocks, link, p, n, packetSize, bufferPa, cbPa, uncached)
  {
    BlockPair(p, packetSize);
    DropIndexDrops(p, packetSize);
    hide DropIndex, Drops, NumPackets, Start, Length;
    BlockNumber(cbPa, 2 * p);
    assert FirstCb(cbPa, p) == cbPa + 2 * p * CB_SIZE;
    forall more: nat | more > 0
      ensures Visits(blocks, BlockAt(link.linkValue, cbPa), cbPa, uncached, more) == [2 * p, 2 * p + 1]
    {
      VisitsTwo(blocks, 2 * p, cbPa, uncached, more);
    }
    hide Visits, BlockAt, Reads, Offsets;
    ReadsTwo(blocks, 2 * p, 2 * p + 1, bufferPa, uncached);
    assert (p + 1) * packetSize == p * packetSize + packetSize;
  }

  lemma VisitsTwo(blocks: seq<ControlBlock>, i: nat, cbPa: nat, uncached: nat, more: nat)
    requires i + 1 < |blocks| && more > 0
    requires blocks[i].nextConbk == cbPa + (i + 1) * CB_SIZE + uncached && blocks[i + 1].nextConbk == 0
    ensures Visits(blocks, i, cbPa, uncached, more) == [i, i + 1]
  {
    BlockNumber(cbPa, i + 1);
    hide BlockAt;
    assert Visits(blocks, i + 1, cbPa, uncached, more - 1) == [i + 1];
  }

  lemma BlockNumber(cbPa: nat, i: nat)
    ensures BlockAt(cbPa + i * CB_SIZE, cbPa) == i
  {
  }

  lemma ReadsTwo(blocks: seq<ControlBlock>, i: nat, j: nat, bufferPa: nat, uncached: nat)
    requires i < |blocks| && j < |blocks|
    ensures var from, then_ := blocks[i].sourceAd - uncached - bufferPa, blocks[j].sourceAd - uncached - bufferPa;
            Reads(blocks, [i, j], bufferPa, uncached)
              == Offsets(from, from + blocks[i].txfrLen) + Offsets(then_, then_ + blocks[j].txfrLen)
  {
    assert [i, j][..1] == [i] && [i][..0] == [] && Reads(blocks, [i][..0], bufferPa, uncached) == [];
    hide Offsets;
  }

  lemma DropIndexDrops(p: nat, packetSize: nat)
    requires LAST_CHUNK + SAMPLE <= packetSize <= DMA_BUFFER_SIZE && p < NumPackets(packetSize)
    ensures p == DropIndex(packetSize) <==> Drops(p, NumPackets(packetSize), packetSize)
  {
    var samples := packetSize / SAMPLE;
    Quotient(p + 1, DROP_AFTER, samples);
    Quotient(p + 2, DROP_AFTER, samples);
    hide NumPackets;
  }

  lemma Quotient(k: nat, a: nat, b: nat)
    requires b > 0
    ensures k * b <= a <==> k <= a / b
  {
    assert a / b * b <= a < (a / b + 1) * b;
    MultipleOrder(a / b, k, b);
    if k <= a / b {
      MulMonotone(k, a / b, b);
    }
  }

  /** Linking in the packet that follows `p` in the ring writes into the second block of `p`. */
  lemma LinkFollows(n: nat, cbPa: nat, p: nat)
    requires p < n
    ensures (p + 1) % n < n && LinkOf((p + 1) % n, n, cbPa).linkPtr == 2 * p + 1
  {
    SmallMod(p, n);
  }

  /** The link entry of the packet that follows `p` in the ring names the second block of `p`. */
  predicate FollowedBy(links: seq<LinkInfo>, n: nat, p: nat) {
    n > 0 && (p + 1) % n < |links| && links[(p + 1) % n].linkPtr == 2 * p + 1
  }

  /** Of equal packets in a row the address lies in, or just behind, the one before the first that begins at or behind it. */
  lemma StopsBehind(first: nat, packetSize: nat, n: nat, current: nat, p: nat, ad: nat)
    requires packetSize > 0 && p < n && current <= n
    requires current < n ==> ad <= first + current * packetSize
    requires current > 0 ==> first + (current - 1) * packetSize < ad
    requires first + p * packetSize < ad <= first + p * packetSize + packetSize
    ensures current == p + 1
  {
    assert (p + 1) * packetSize == p * packetSize + packetSize;
    if current <= p {
      MulMonotone(current, p, packetSize);
    } else if current > p + 1 {
      MulMonotone(p + 1, current - 1, packetSize);
    }
  }

  class DeviceContext {
    const dmaBufferPa: nat
    const dmaCbPa: nat
    const memUncachedOffset: nat
    const dmaMaxPackets: nat
    const dmaCb: array<ControlBlock>
    const dmaPacketLinkInfo: array<LinkInfo>
    var dmaNumPackets: nat

    predicate Valid() {
      && dmaCb.Length == 2 * dmaMaxPackets && dmaPacketLinkInfo.Length == dmaMaxPackets
      && (dmaMaxPackets == MaxPackets(8) || dmaMaxPackets == MaxPackets(16))
    }

    /** AllocateDmaBuffer: one page of control data decides how many packets there can be. */
    constructor (bufferPa: nat, cbPa: nat, uncached: nat, linkSize: nat)
      requires linkSize == 8 || linkSize == 16
      ensures Valid() && dmaMaxPackets == MaxPackets(linkSize)
      ensures dmaBufferPa == bufferPa && dmaCbPa == cbPa && memUncachedOffset == uncached
    {
      dmaBufferPa, dmaCbPa, memUncachedOffset := bufferPa, cbPa, uncached;
      dmaMaxPackets := PAGE_SIZE / (2 * CB_SIZE + linkSize);
      dmaCb := new ControlBlock[2 * (PAGE_SIZE / (2 * CB_SIZE + linkSize))](_ => ControlBlock(0, 0, 0, false));
      dmaPacketLinkInfo := new LinkInfo[PAGE_SIZE / (2 * CB_SIZE + linkSize)](_ => LinkInfo(0, 0));
      dmaNumPackets := 0;
    }

    /** Blocks and link table are those of this packet size. */
    ghost predicate Built(packetSize: nat)
      reads this, dmaCb, dmaPacketLinkInfo
    {
      && LAST_CHUNK < packetSize && 2 * dmaNumPackets <= dmaCb.Length && dmaNumPackets <= dmaPacketLinkInfo.Length
      && (forall i: nat | i < 2 * dmaNumPackets ::
            dmaCb[i] == Block(i, packetSize, dmaBufferPa, dmaCbPa, memUncachedOffset))
      && (forall k: nat | k < dmaNumPackets :: dmaPacketLinkInfo[k] == LinkOf(k, dmaNumPackets, dmaCbPa))
    }

    /** HandleUnderflow: the last packet whose first block's source address is below that of the register.  When the DMA
        has stopped behind packet `p` the register shows the end of that packet's data, also behind the last one. */
    method FindCompletedPacket(sourceAd: nat, ghost packetSize: nat) returns (completedPacket: nat)
      requires Valid() && dmaNumPackets > 0 && Built(packetSize)
      ensures completedPacket < dmaNumPackets
      ensures forall p: nat | p < dmaNumPackets && dmaCb[2 * p].sourceAd < sourceAd <= dmaCb[2 * p].sourceAd + packetSize ::
                completedPacket == p
    {
      var currentPacket := 0;
      while currentPacket < dmaNumPackets
        invariant currentPacket <= dmaNumPackets
        invariant forall i | 0 <= i < currentPacket :: dmaCb[2 * i].sourceAd < sourceAd
      {
        if sourceAd > dmaCb[2 * currentPacket].sourceAd {
          currentPacket := currentPacket + 1;
          continue;
        }
        break;
      }
      completedPacket := if currentPacket != 0 then currentPacket - 1 else dmaNumPackets - 1;
      forall p: nat | p < dmaNumPackets && dmaCb[2 * p].sourceAd < sourceAd <= dmaCb[2 * p].sourceAd + packetSize
        ensures completedPacket == p
      {
        hide Built;
        SourceOf(p, packetSize);
        if currentPacket < dmaNumPackets {
          SourceOf(currentPacket, packetSize);
        }
        if currentPacket > 0 {
          SourceOf(currentPacket - 1, packetSize);
        }
        StopsBehind(dmaBufferPa + memUncachedOffset, packetSize, dmaNumPackets, currentPacket, p, sourceAd);
      }
    }

    lemma SourceOf(p: nat, packetSize: nat)
      requires Built(packetSize) && p < dmaNumPackets
      ensures dmaCb[2 * p].sourceAd == dmaBufferPa + memUncachedOffset + p * packetSize
    {
      BlockPair(p, packetSize);
      hide Length, Start;
    }

    /** InitializeAudio: two control blocks and a link entry for each packet.  A packet size of zero, for which the
        driver would divide by zero, is up to the caller. */
    method InitializeAudio(requestedBufferSize: nat, notificationsPerBuffer: nat, running: bool) returns (status: Status)
      requires Valid()
      requires notificationsPerBuffer > 0
      requires requestedBufferSize <= DMA_BUFFER_SIZE ==> requestedBufferSize / notificationsPerBuffer > 0
      modifies this`dmaNumPackets, dmaCb, dmaPacketLinkInfo
      ensures status == Success <==>
                && requestedBufferSize <= DMA_BUFFER_SIZE && !running
                && NumPackets(requestedBufferSize / notificationsPerBuffer) <= dmaMaxPackets
      ensures status != Success ==> dmaCb[..] == old(dmaCb[..]) && dmaPacketLinkInfo[..] == old(dmaPacketLinkInfo[..])
      ensures status == Success ==>
                var packetSize := requestedBufferSize / notificationsPerBuffer;
                && dmaNumPackets == NumPackets(packetSize) <= dmaMaxPackets && packetSize >= 1150
                && Built(packetSize)
                && (forall p: nat | p < dmaNumPackets ::
                      Plays(dmaCb[..], dmaPacketLinkInfo[p], p, dmaNumPackets, packetSize, dmaBufferPa, dmaCbPa, memUncachedOffset))
                && (forall p: nat | p < dmaNumPackets :: FollowedBy(dmaPacketLinkInfo[..], dmaNumPackets, p))
    {
      if requestedBufferSize > DMA_BUFFER_SIZE {
        return Unsuccessful;
      }
      var packetSize := requestedBufferSize / notificationsPerBuffer;
      QuotientAtMost(requestedBufferSize, notificationsPerBuffer);
      dmaNumPackets := DMA_BUFFER_SIZE / packetSize;
      SmallPacketsAreMany(packetSize);
      if dmaMaxPackets < dmaNumPackets {
        return Unsuccessful;
      }
      if running {
        return OperationInProgress;
      }
      var packetFirstChunkSize := packetSize - LAST_CHUNK;
      var samplesPerPacket := packetSize / SAMPLE;
      var correctionDropPacketCount := DROP_AFTER / samplesPerPacket;
      var correctionDropPacketIndex :=
        if correctionDropPacketCount > dmaNumPackets then dmaNumPackets - 1 else correctionDropPacketCount - 1;
      hide DropIndex;
      DropIndexIs(packetSize, correctionDropPacketIndex);
      var packetIndex, currentCb := 0, 0;
      while packetIndex < dmaNumPackets
        invariant currentCb == 2 * packetIndex && packetIndex <= dmaNumPackets == NumPackets(packetSize)
        invariant forall i: nat | i < currentCb ::
                    dmaCb[i] == Block(i, packetSize, dmaBufferPa, dmaCbPa, memUncachedOffset)
        invariant forall k: nat | k < packetIndex :: dmaPacketLinkInfo[k] == LinkOf(k, dmaNumPackets, dmaCbPa)
      {
        BlockPair(packetIndex, packetSize);
        dmaCb[currentCb] := ControlBlock(
          dmaBufferPa + packetIndex * packetSize + memUncachedOffset,
          if packetIndex == correctionDropPacketIndex then packetFirstChunkSize - SAMPLE else packetFirstChunkSize,
          dmaCbPa + (currentCb + 1) * CB_SIZE + memUncachedOffset, false);
        currentCb := currentCb + 1;
        dmaCb[currentCb] := ControlBlock(
          dmaBufferPa + packetIndex * packetSize + packetFirstChunkSize + memUncachedOffset, LAST_CHUNK, 0, true);
        dmaPacketLinkInfo[packetIndex] := LinkInfo(
          if packetIndex == 0 then 2 * (dmaNumPackets - 1) + 1 else 2 * (packetIndex - 1) + 1,
          dmaCbPa + packetIndex * 2 * CB_SIZE);
        packetIndex, currentCb := packetIndex + 1, currentCb + 1;
      }
      PacketsPlay(packetSize);
      status := Success;
    }

    lemma PacketsPlay(packetSize: nat)
      requires Valid() && Built(packetSize) && dmaNumPackets == NumPackets(packetSize) <= dmaMaxPackets
      requires packetSize <= DMA_BUFFER_SIZE
      ensures packetSize >= 1150
      ensures forall p: nat | p < dmaNumPackets ::
                Plays(dmaCb[..], dmaPacketLinkInfo[p], p, dmaNumPackets, packetSize, dmaBufferPa, dmaCbPa, memUncachedOffset)
      ensures forall p: nat | p < dmaNumPackets :: FollowedBy(dmaPacketLinkInfo[..], dmaNumPackets, p)
    {
      ControlPageFits(packetSize, if dmaMaxPackets == MaxPackets(8) then 8 else 16);
      hide Block, LinkOf, Plays, NumPackets;
      forall p: nat | p < dmaNumPackets
        ensures Plays(dmaCb[..], dmaPacketLinkInfo[p], p, dmaNumPackets, packetSize, dmaBufferPa, dmaCbPa, memUncachedOffset)
        ensures FollowedBy(dmaPacketLinkInfo[..], dmaNumPackets, p)
      {
        BlocksPlay(dmaCb[..], dmaPacketLinkInfo[p], p, dmaNumPackets, packetSize, dmaBufferPa, dmaCbPa, memUncachedOffset);
        LinkFollows(dmaNumPackets, dmaCbPa, p);
      }
    }
  }

  /** Packets no larger than the last chunk are too many for the control page. */
  lemma SmallPacketsAreMany(packetSize: nat)
    requires packetSize > 0
    ensures packetSize <= LAST_CHUNK ==> NumPackets(packetSize) > MaxPackets(8) >= MaxPackets(16)
  {
    PacketsFitBuffer(packetSize);
    var n := NumPackets(packetSize);
    if packetSize <= LAST_CHUNK && n <= 56 {
      MulMonotone(n + 1, 57, packetSize);
    }
  }

  lemma QuotientAtMost(a: nat, b: nat)
    requires b > 0
    ensures a / b <= a
  {
    MulMonotone(1, b, a / b);
  }

  lemma DropIndexIs(packetSize: nat, d: int)
    requires packetSize >= SAMPLE
    requires d == (if DROP_AFTER / (packetSize / SAMPLE) > DMA_BUFFER_SIZE / packetSize then DMA_BUFFER_SIZE / packetSize - 1
                   else DROP_AFTER / (packetSize / SAMPLE) - 1)
    ensures d == DropIndex(packetSize)
  {
  }

  lemma BlockPair(p: nat, packetSize: nat)
    requires packetSize >= LAST_CHUNK
    ensures Start(2 * p, packetSize) == p * packetSize
    ensures Length(2 * p, packetSize) == packetSize - LAST_CHUNK - if p == DropIndex(packetSize) then SAMPLE else 0
    ensures Start(2 * p + 1, packetSize) == p * packetSize + packetSize - LAST_CHUNK
    ensures Length(2 * p + 1, packetSize) == LAST_CHUNK
  {
  }
}
