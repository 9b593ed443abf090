/** The ring of audio packets that the PWM driver's DMA plays: the interrupt routine counts and unlinks the packets that
    have been played while the audio driver links new ones.

    A packet has two control blocks; the second one's NEXTCONBK is the link to the following packet.  Positions are
    absolute packet numbers, so that packet `k` uses control blocks and link entry `k % n`.  Every shared access of the
    audio driver and of the interrupt routine is a step of its own.
  */
module PwmRing {
  import opened Runs

  const CB_SIZE := 32
  const U32 := 0x1_0000_0000
  const NO_LAST_COMPLETED_PACKET := 0xFFFF_FFFF

  // ---------- index arithmetic of the interrupt routine ----------

  /** PREVIOUS_PACKET_INDEX; a scan that runs off the end comes back to the last packet. */
  function Previous(packet: nat, n: nat): nat
    requires n > 0
  {
    if packet != 0 then packet - 1 else n - 1
  }

  /** FIRST_CB_ADDRESS_OF_PACKET. */
  function FirstCb(base: nat, packet: nat): nat {
    base + 2 * packet * CB_SIZE
  }

  function GetNumberOfProcessedPackets(completed: nat, lastKnown: nat, n: nat): int {
    if lastKnown == NO_LAST_COMPLETED_PACKET then completed + 1
    else if completed > lastKnown then completed - lastKnown
    else completed + n - lastKnown
  }

  /** What the routine remembers after `counted` packets in all. */
  function LastKnown(counted: nat, n: nat): nat
    requires n > 0
  {
    if counted == 0 then NO_LAST_COMPLETED_PACKET else (counted - 1) % n
  }

  lemma SmallMod(k: nat, n: nat)
    requires n > 0
    ensures k % n < n
    ensures k < n ==> k % n == k
    ensures (k + 1) % n == if k % n + 1 == n then 0 else k % n + 1
  {
    var q, r := k / n, k % n;
    assert k == q * n + r;
    if r + 1 == n {
      assert k + 1 == (q + 1) * n;
      MultipleMod(q + 1, n);
    } else {
      assert k + 1 == q * n + (r + 1);
      RemainderUnique(q, r + 1, n);
    }
    if k < n {
      RemainderUnique(0, k, n);
    }
  }

  lemma RemainderUnique(q: nat, r: nat, n: nat)
    requires r < n
    ensures (q * n + r) % n == r
  {
    var k := q * n + r;
    var q', r' := k / n, k % n;
    assert k == q' * n + r';
    MultiplesApart(q' - q, n);
    assert (q' - q) * n == q' * n - q * n;
  }

  lemma MultiplesApart(d: int, n: nat)
    ensures d == 0 || d * n >= n || d * n + n <= 0
  {
    if d > 0 {
      AtLeastOnce(d, n);
    } else if d < 0 {
      AtLeastOnce(-d, n);
      assert (-d) * n == -(d * n);
    }
  }

  lemma {:induction false} AtLeastOnce(d: nat, n: nat)
    requires d > 0
    ensures d * n >= n
  {
    if d > 1 {
      AtLeastOnce(d - 1, n);
      assert d * n == (d - 1) * n + n;
    }
  }

  lemma MultipleMod(q: nat, n: nat)
    requires n > 0
    ensures (q * n) % n == 0
  {
    RemainderUnique(q, 0, n);
  }

  lemma PreviousIsBefore(k: nat, n: nat)
    requires n > 0 && k > 0
    ensures Previous(k % n, n) == (k - 1) % n
  {
    SmallMod(k - 1, n);
  }

  /** `d` steps further on the index has moved by `d`, less one turn of the ring if it wraps. */
  lemma {:induction false} ModStep(k: nat, d: nat, n: nat)
    requires d < n
    ensures (k + d) % n == if k % n + d < n then k % n + d else k % n + d - n
  {
    if d == 0 {
      SmallMod(k, n);
    } else {
      ModStep(k, d - 1, n);
      SmallMod(k + d - 1, n);
    }
  }

  lemma FullTurn(k: nat, n: nat)
    requires n > 0
    ensures (k + n) % n == k % n
  {
    ModStep(k, n - 1, n);
    SmallMod(k + n - 1, n);
  }

  /** Fewer than `n` apart means different indices. */
  lemma DifferentIndices(j: nat, k: nat, n: nat)
    requires n > 0 && j < k < j + n
    ensures j % n != k % n
  {
    ModStep(j, k - j, n);
  }

  /** The modular difference counts exactly, across wrap-around and on the first call, as long as between one and `n`
      packets have been completed since the last call. */
  lemma ModularCountIsExact(counted: nat, playing: nat, n: nat)
    requires 0 < n < NO_LAST_COMPLETED_PACKET && counted < playing <= counted + n
    ensures GetNumberOfProcessedPackets(Previous(playing % n, n), LastKnown(counted, n), n) == playing - counted
  {
    PreviousIsBefore(playing, n);
    if counted == 0 {
      SmallMod(playing - 1, n);
    } else {
      SmallMod(counted - 1, n);
      if playing - counted < n {
        ModStep(counted - 1, playing - counted, n);
      } else {
        FullTurn(counted - 1, n);
      }
    }
  }

  /** The first packet from `i` on whose first control block is not below the address, or `n`. */
  function Scan(conblk: nat, base: nat, i: nat, n: nat): nat
    requires i <= n
    decreases n - i
  {
    if i == n || conblk <= FirstCb(base, i) then i else Scan(conblk, base, i + 1, n)
  }

  /** The address scan of the interrupt routine. */
  method FindCurrentPacket(conblk: nat, base: nat, n: nat) returns (currentPacket: nat)
    ensures currentPacket == Scan(conblk, base, 0, n)
    ensures currentPacket <= n
    ensures forall i | 0 <= i < currentPacket :: FirstCb(base, i) < conblk
    ensures currentPacket < n ==> conblk <= FirstCb(base, currentPacket)
  {
    currentPacket := 0;
    while currentPacket < n
      invariant currentPacket <= n && Scan(conblk, base, 0, n) == Scan(conblk, base, currentPacket, n)
      invariant forall i | 0 <= i < currentPacket :: FirstCb(base, i) < conblk
    {
      if conblk > FirstCb(base, currentPacket) {
        currentPacket := currentPacket + 1;
        continue;
      }
      break;
    }
  }

  lemma {:induction false} ScanStops(conblk: nat, base: nat, i: nat, n: nat)
    requires i <= n && (i > 0 ==> FirstCb(base, i - 1) < conblk)
    ensures var j := Scan(conblk, base, i, n);
            i <= j <= n && (j > 0 ==> FirstCb(base, j - 1) < conblk) && (j < n ==> conblk <= FirstCb(base, j))
    decreases n - i
  {
    if i < n && conblk > FirstCb(base, i) {
      ScanStops(conblk, base, i + 1, n);
    }
  }

  /** Whatever the address register shows, the scan makes the predecessor of packet `p` the last one completed if and
      only if the value lies behind the first block of packet `p - 1` and not behind that of `p`; for packet 0 also any
      value behind all first blocks will do. */
  lemma ScanFindsPredecessor(conblk: nat, base: nat, n: nat, p: nat)
    requires p < n
    ensures Previous(Scan(conblk, base, 0, n), n) == Previous(p, n)
            <==> if p == 0 then conblk <= base || FirstCb(base, n - 1) < conblk
                 else FirstCb(base, p - 1) < conblk <= FirstCb(base, p)
  {
    ScanStops(conblk, base, 0, n);
  }

  /** The addresses at which the DMA is made to read control blocks: a packet's first block through the link the audio
      driver writes, the very first block by StartDma, and a second block through its first.  Only the link leaves out
      the offset of the uncached alias. */
  datatype BlockAddress = ByLink | ByStart | Second

  function ConblkAd(base: nat, uncached: nat, p: nat, kind: BlockAddress): nat {
    match kind
    case ByLink => FirstCb(base, p)
    case ByStart => FirstCb(base, p) + uncached
    case Second => FirstCb(base, p) + CB_SIZE + uncached
  }

  /** For the addresses the driver writes: a first block reached through its link always identifies the packet; the first
      block the DMA was started with does so exactly without an offset or with one that leads behind all first blocks;
      and a second block does only for packet 0 with such an address. */
  lemma ScanOfDriverAddresses(base: nat, uncached: nat, n: nat, p: nat, kind: BlockAddress)
    requires p < n && (kind == ByStart ==> p == 0)
    ensures Previous(Scan(ConblkAd(base, uncached, p, kind), base, 0, n), n) == Previous(p, n)
            <==> match kind
                 case ByLink => true
                 case ByStart => uncached == 0 || FirstCb(base, n - 1) < base + uncached
                 case Second => p == 0 && FirstCb(base, n - 1) < base + CB_SIZE + uncached
  {
    ScanFindsPredecessor(ConblkAd(base, uncached, p, kind), base, n, p);
  }

  // ---------- the audio driver, the interrupt routine and the DMA ----------

  datatype Producer = Ready | Linking | Counting

  datatype Isr = Idle | Unlinking(processedPackets: nat, packetToUnlink: nat, ul: nat)

  /** `playing` and `linked` are the absolute numbers of the packet that plays and of the next one to be linked, `noted`
      is the packet that played when the interrupt routine last read the address register, and `counted` is the sum of
      what the routine has counted.

      `late` lets the DMA get as far as a whole ring ahead of the last interrupt.  `lowerFirst` selects a variant the
      driver does not use: the in-use count is lowered before the links are cleared. */
  datatype State = State(
    n: nat, base: nat, late: bool, lowerFirst: bool,
    links: seq<nat>,       // NEXTCONBK by the packet it leads to: 0 or the address of its first control block
    inUse: int, processed: nat, lastKnown: nat,
    producer: Producer, isr: Isr,
    playing: nat, linked: nat, noted: nat, counted: nat)

  datatype Action = Advance | Check | Link | Count | Interrupt | Unlink | Lower

  predicate Init(s: State) {
    && 0 < s.n < NO_LAST_COMPLETED_PACKET && s.base > 0
    && s.links == seq(s.n, i => 0) && s.inUse == 0 && s.processed == 0 && s.lastKnown == NO_LAST_COMPLETED_PACKET
    && s.producer == Ready && s.isr == Idle && s.playing == s.linked == s.noted == s.counted == 0
  }

  predicate Enabled(s: State, a: Action) {
    && 0 < s.n == |s.links|
    && match a
       case Advance =>
         // the DMA follows the link behind the packet it plays
         && s.links[(s.playing + 1) % s.n] != 0
         && if s.late then s.playing + 1 <= s.noted + s.n else s.playing + 1 < s.counted + s.n
       case Check => s.producer == Ready && s.inUse != s.n
       case Link => s.producer == Linking
       case Count => s.producer == Counting
       case Interrupt => s.isr == Idle && s.playing > s.noted
       case Unlink => s.isr.Unlinking? && s.isr.ul < s.isr.processedPackets && s.isr.packetToUnlink < s.n
       case Lower => s.isr.Unlinking? && s.isr.ul >= s.isr.processedPackets
  }

  function Apply(s: State, a: Action): State
    requires Enabled(s, a)
  {
    match a
    case Advance => s.(playing := s.playing + 1)
    case Check => s.(producer := Linking)
    case Link =>
      // AddPacketToDma
      var i := s.linked % s.n;
      s.(links := s.links[i := FirstCb(s.base, i)], linked := s.linked + 1, producer := Counting)
    case Count => s.(inUse := s.inUse + 1, producer := Ready)
    case Interrupt =>
      // the register shows the first block of the packet that plays, reached through its link
      var completed := Previous(Scan(ConblkAd(s.base, 0, s.playing % s.n, ByLink), s.base, 0, s.n), s.n);
      var processedPackets := GetNumberOfProcessedPackets(completed, s.lastKnown, s.n);
      var t := s.(lastKnown := completed, noted := s.playing,
                  isr := Unlinking(if processedPackets > 0 then processedPackets else 0, completed, 0));
      if s.lowerFirst then t.(inUse := s.inUse - processedPackets) else t
    case Unlink =>
      var i := s.isr.packetToUnlink;
      s.(links := s.links[i := 0], isr := s.isr.(packetToUnlink := Previous(i, s.n), ul := s.isr.ul + 1))
    case Lower =>
      var k := s.isr.processedPackets;
      s.(inUse := if s.lowerFirst then s.inUse else s.inUse - k, processed := (s.processed + k) % U32,
         counted := s.counted + k, isr := Idle)
  }

  function Next(s: State, a: Action): Option<State> {
    if Enabled(s, a) then Some(Apply(s, a)) else None
  }

  // ---------- counting ----------

  /** What the routine has counted, with what it is about to count, is where the DMA was when it last looked. */
  ghost predicate CountsRight(s: State) {
    && 0 < s.n < NO_LAST_COMPLETED_PACKET
    && s.noted <= s.playing <= s.noted + s.n
    && s.processed == s.counted % U32
    && s.lastKnown == LastKnown(s.noted, s.n)
    && s.counted + (if s.isr.Unlinking? then s.isr.processedPackets else 0) == s.noted
  }

  lemma WrappedSum(a: nat, k: nat)
    ensures (a % U32 + k) % U32 == (a + k) % U32
  {
  }

  /** The interrupt counts exactly the packets played since the last one looked. */
  lemma InterruptCounts(s: State)
    requires CountsRight(s) && Enabled(s, Interrupt)
    ensures var t := Apply(s, Interrupt);
            t.isr == Unlinking(s.playing - s.noted, (s.playing - 1) % s.n, 0) && t.lastKnown == (s.playing - 1) % s.n
  {
    SmallMod(s.playing, s.n);
    ScanOfDriverAddresses(s.base, 0, s.n, s.playing % s.n, ByLink);
    ModularCountIsExact(s.noted, s.playing, s.n);
    PreviousIsBefore(s.playing, s.n);
  }

  lemma StepKeepsCounting(s: State, a: Action)
    requires CountsRight(s) && Enabled(s, a)
    ensures CountsRight(Apply(s, a))
  {
    if a == Interrupt {
      InterruptCounts(s);
    } else if a == Lower {
      WrappedSum(s.counted, s.isr.processedPackets);
    }
    hide LastKnown;
  }

  lemma {:induction false} RunKeepsCounting(s: State, actions: seq<Action>, t: State)
    requires CountsRight(s) && IsRun(Next, s, actions, t)
    ensures CountsRight(t)
    decreases |actions|
  {
    if actions != [] {
      StepKeepsCounting(s, actions[0]);
      RunKeepsCounting(Apply(s, actions[0]), actions[1..], t);
    }
  }

  /** The packet count over whole runs, however long, with interrupts from one packet to a whole ring apart: between
      interrupts it is, modulo 2^32, the number of packets completed when the routine last looked; while it unlinks, the
      rest is what it has computed and not yet added. */
  lemma CountersAreExact(s: State, actions: seq<Action>, t: State)
    requires Init(s) && IsRun(Next, s, actions, t)
    ensures t.noted <= t.playing <= t.noted + t.n
    ensures t.isr == Idle ==> t.processed == t.noted % U32
    ensures t.isr.Unlinking? ==> (t.processed + t.isr.processedPackets) % U32 == t.noted % U32
  {
    RunKeepsCounting(s, actions, t);
    if t.isr.Unlinking? {
      WrappedSum(t.counted, t.isr.processedPackets);
    }
  }

  // ---------- unlinking ----------

  /** Packet `k` is linked: queued, and neither counted nor unlinked by the interrupt in progress. */
  predicate Linked(s: State, k: nat) {
    && s.counted <= k < s.linked
    && (s.isr.Unlinking? ==> k + s.isr.ul < s.counted + s.isr.processedPackets || k >= s.counted + s.isr.processedPackets)
  }

  ghost predicate LinksAre(s: State) {
    && 0 < s.n == |s.links|
    && forall k: nat | s.counted <= k < s.counted + s.n ::
         k % s.n < s.n && s.links[k % s.n] == if Linked(s, k) then FirstCb(s.base, k % s.n) else 0
  }

  ghost predicate Inv(s: State) {
    && !s.late && !s.lowerFirst && s.base > 0 && CountsRight(s)
    && s.counted <= s.linked <= s.counted + s.n && (s.playing < s.linked || s.playing == s.linked == 0)
    && s.inUse == s.linked - s.counted - (if s.producer == Counting then 1 else 0)
    && (s.producer == Counting ==> s.linked > 0)
    && (s.producer == Linking ==> s.linked < s.counted + s.n)
    && LinksAre(s)
    && (s.isr.Unlinking? ==>
          && s.isr.ul <= s.isr.processedPackets
          && (s.isr.ul < s.isr.processedPackets ==>
                s.isr.packetToUnlink == (s.counted + s.isr.processedPackets - 1 - s.isr.ul) % s.n))
  }

  /** The DMA moves on exactly to queued packets: while it is less than a ring ahead of the count, the link behind the
      packet it plays is set if and only if another packet is queued. */
  lemma DmaFollowsQueue(s: State)
    requires Inv(s) && s.playing + 1 < s.counted + s.n
    ensures Enabled(s, Advance) <==> s.playing + 1 < s.linked
  {
    SmallMod(s.playing + 1, s.n);
    assert Linked(s, s.playing + 1) <==> s.playing + 1 < s.linked;
  }

  lemma LinkKeeps(s: State)
    requires Inv(s) && Enabled(s, Link)
    ensures Inv(Apply(s, Link))
  {
    var t := Apply(s, Link);
    forall k: nat | t.counted <= k < t.counted + t.n
      ensures k % t.n < t.n && t.links[k % t.n] == if Linked(t, k) then FirstCb(t.base, k % t.n) else 0
    {
      SmallMod(k, s.n);
      if k < s.linked {
        DifferentIndices(k, s.linked, s.n);
      } else if s.linked < k {
        DifferentIndices(s.linked, k, s.n);
      }
      assert Linked(t, k) <==> Linked(s, k) || k == s.linked;
    }
  }

  lemma UnlinkKeepsLinks(s: State)
    requires Inv(s) && Enabled(s, Unlink)
    ensures LinksAre(Apply(s, Unlink))
  {
    hide LastKnown;
    var t := Apply(s, Unlink);
    var gone := s.counted + s.isr.processedPackets - 1 - s.isr.ul;
    forall k: nat | t.counted <= k < t.counted + t.n
      ensures k % t.n < t.n && t.links[k % t.n] == if Linked(t, k) then FirstCb(t.base, k % t.n) else 0
    {
      SmallMod(k, s.n);
      if k < gone {
        DifferentIndices(k, gone, s.n);
      } else if gone < k {
        DifferentIndices(gone, k, s.n);
      }
      assert Linked(t, k) <==> Linked(s, k) && k != gone;
    }
  }

  lemma UnlinkKeeps(s: State)
    requires Inv(s) && Enabled(s, Unlink)
    ensures Inv(Apply(s, Unlink))
  {
    UnlinkKeepsLinks(s);
    StepKeepsCounting(s, Unlink);
    if s.isr.ul + 1 < s.isr.processedPackets {
      PreviousIsBefore(s.counted + s.isr.processedPackets - 1 - s.isr.ul, s.n);
    }
    hide LinksAre, CountsRight;
  }

  lemma LowerKeepsLinks(s: State)
    requires Inv(s) && Enabled(s, Lower)
    ensures LinksAre(Apply(s, Lower))
  {
    hide LastKnown;
    var t := Apply(s, Lower);
    forall k: nat | t.counted <= k < t.counted + t.n
      ensures k % t.n < t.n && t.links[k % t.n] == if Linked(t, k) then FirstCb(t.base, k % t.n) else 0
    {
      SmallMod(k, s.n);
      if k >= s.counted + s.n {
        FullTurn(k - s.n, s.n);
        assert !Linked(s, k - s.n) && !Linked(t, k);
      } else {
        assert Linked(t, k) <==> Linked(s, k);
      }
    }
  }

  lemma LowerKeeps(s: State)
    requires Inv(s) && Enabled(s, Lower)
    ensures Inv(Apply(s, Lower))
  {
    LowerKeepsLinks(s);
    StepKeepsCounting(s, Lower);
    hide LinksAre, CountsRight;
  }

  lemma InterruptKeeps(s: State)
    requires Inv(s) && Enabled(s, Interrupt)
    ensures Inv(Apply(s, Interrupt))
  {
    var t := Apply(s, Interrupt);
    InterruptCounts(s);
    StepKeepsCounting(s, Interrupt);
    assert forall k: nat :: Linked(t, k) <==> Linked(s, k);
  }

  lemma AdvanceKeeps(s: State)
    requires Inv(s) && Enabled(s, Advance)
    ensures Inv(Apply(s, Advance))
  {
    DmaFollowsQueue(s);
    StepKeepsCounting(s, Advance);
    hide CountsRight;
    assert forall k: nat :: Linked(Apply(s, Advance), k) <==> Linked(s, k);
  }

  lemma StepKeepsInv(s: State, a: Action)
    requires Inv(s) && Enabled(s, a)
    ensures Inv(Apply(s, a))
  {
    match a
    case Link => LinkKeeps(s);
    case Unlink => UnlinkKeeps(s);
    case Lower => LowerKeeps(s);
    case Interrupt => InterruptKeeps(s);
    case Advance => AdvanceKeeps(s);
    case _ => assert forall k: nat :: Linked(Apply(s, a), k) <==> Linked(s, k);
  }

  lemma InitKeepsInv(s: State)
    requires Init(s) && !s.late && !s.lowerFirst
    ensures Inv(s)
  {
    forall k: nat | k < s.n ensures k % s.n < s.n {
      SmallMod(k, s.n);
    }
  }

  lemma {:induction false} RunKeepsInv(s: State, actions: seq<Action>, t: State)
    requires Inv(s) && IsRun(Next, s, actions, t)
    ensures Inv(t)
    decreases |actions|
  {
    if actions != [] {
      StepKeepsInv(s, actions[0]);
      RunKeepsInv(Apply(s, actions[0]), actions[1..], t);
    }
  }

  // ---------- what the invariant means ----------

  /** The packets the DMA visits when it follows the links from packet index `i`, for at most `steps` packets. */
  function Walk(links: seq<nat>, i: nat, steps: nat): seq<nat>
    requires i < |links|
    decreases steps
  {
    if steps == 0 then [i]
    else
      var next := if i + 1 == |links| then 0 else i + 1;
      if links[next] == 0 then [i] else [i] + Walk(links, next, steps - 1)
  }

  function Indices(lo: nat, hi: nat, n: nat): seq<nat>
    requires n > 0 && lo <= hi
  {
    seq(hi - lo, j requires 0 <= j => (lo + j) % n)
  }

  /** The DMA, wherever it is, still plays exactly the queued packets in ring order, and comes to a zero link behind
      the last one if and only if the ring is not full or the interrupt in progress has already unlinked the packet
      that plays a whole ring earlier. */
  lemma WalkVisitsQueue(s: State)
    requires Inv(s) && s.playing < s.linked
    ensures s.playing % s.n < s.n == |s.links|
    ensures Walk(s.links, s.playing % s.n, s.linked - 1 - s.playing) == Indices(s.playing, s.linked, s.n)
    ensures s.linked % s.n < s.n
    ensures s.links[s.linked % s.n] == 0 <==> s.linked < s.counted + s.n || !Linked(s, s.counted)
  {
    SmallMod(s.playing, s.n);
    WalkFrom(s, s.playing);
    SmallMod(s.linked, s.n);
    if s.linked == s.counted + s.n {
      FullTurn(s.counted, s.n);
    }
  }

  lemma {:induction false} WalkFrom(s: State, k: nat)
    requires Inv(s) && s.playing <= k < s.linked
    ensures k % s.n < s.n == |s.links|
    ensures Walk(s.links, k % s.n, s.linked - 1 - k) == Indices(k, s.linked, s.n)
    decreases s.linked - k
  {
    SmallMod(k, s.n);
    FirstIndex(k, s.linked, s.n);
    hide Indices;
    if k + 1 < s.linked {
      LinkAhead(s, k + 1);
      hide Inv;
      WalkFrom(s, k + 1);
    }
  }

  lemma LinkAhead(s: State, k: nat)
    requires Inv(s) && s.playing < k < s.linked
    ensures k % s.n < s.n == |s.links| && s.links[k % s.n] != 0
  {
    assert Linked(s, k);
  }

  lemma FirstIndex(lo: nat, hi: nat, n: nat)
    requires n > 0 && lo < hi
    ensures Indices(lo, hi, n) == [lo % n] + Indices(lo + 1, hi, n) && Indices(hi, hi, n) == []
  {
  }

  /** Unlink safety over whole runs in which the DMA stays less than a ring ahead of the count: the in-use count is that
      of packets linked and not counted, and the DMA plays queued packets only and stops early at none. */
  lemma UnlinkSafety(s: State, actions: seq<Action>, t: State)
    requires Init(s) && !s.late && !s.lowerFirst && IsRun(Next, s, actions, t)
    ensures 0 <= t.inUse <= t.n && t.inUse == t.linked - t.counted - (if t.producer == Counting then 1 else 0)
    ensures t.playing < t.linked || t.playing == t.linked == 0
    ensures t.playing + 1 < t.linked && t.playing + 1 < t.counted + t.n ==> Enabled(t, Advance)
  {
    InitKeepsInv(s);
    RunKeepsInv(s, actions, t);
    if t.playing + 1 < t.counted + t.n {
      DmaFollowsQueue(t);
    }
  }

  /** Between interrupts exactly the links into queued packets are set that had not been completed when the routine last
      looked. */
  lemma InterruptClearsCounted(s: State, k: nat)
    requires Inv(s) && s.isr == Idle && s.noted <= k < s.noted + s.n
    ensures k % s.n < s.n && s.links[k % s.n] == if k < s.linked then s.base + k % s.n * 64 else 0
    ensures s.links[k % s.n] != 0 <==> k < s.linked
  {
    SmallMod(k, s.n);
    assert Linked(s, k) <==> k < s.linked;
    assert FirstCb(s.base, k % s.n) == s.base + k % s.n * 64;
  }

  // ---------- why the links are cleared first ----------

  /** If the in-use count were lowered first, the audio driver could link a packet whose link the interrupt routine
      then clears: the packet counts as in use and the DMA is not a ring ahead, but it cannot move on to it. */
  lemma LoweringFirstLosesPacket(s: State) returns (actions: seq<Action>, t: State)
    requires Init(s) && !s.late && s.lowerFirst && s.n == 2
    ensures IsRun(Next, s, actions, t)
    ensures t.isr == Idle && t.producer == Ready && t.inUse == t.linked - t.counted == 2
    ensures t.playing + 1 < t.linked && t.playing + 1 < t.counted + t.n && !Enabled(t, Advance)
  {
    hide IsRun;
    actions, t := TwoLinked(s);
    actions, t := Then(Next, s, actions, t, Advance);
    actions, t := Then(Next, s, actions, t, Interrupt);
    actions, t := Then(Next, s, actions, t, Check);
    actions, t := Then(Next, s, actions, t, Link);
    actions, t := Then(Next, s, actions, t, Count);
    actions, t := Then(Next, s, actions, t, Unlink);
    actions, t := Then(Next, s, actions, t, Lower);
  }

  lemma TwoLinked(s: State) returns (actions: seq<Action>, t: State)
    requires Init(s) && s.n == 2
    ensures IsRun(Next, s, actions, t)
    ensures t == s.(links := [FirstCb(s.base, 0), FirstCb(s.base, 1)], linked := 2, inUse := 2)
  {
    actions, t := [], s;
    actions, t := Then(Next, s, actions, t, Check);
    actions, t := Then(Next, s, actions, t, Link);
    actions, t := Then(Next, s, actions, t, Count);
    actions, t := Then(Next, s, actions, t, Check);
    actions, t := Then(Next, s, actions, t, Link);
    actions, t := Then(Next, s, actions, t, Count);
  }
}
