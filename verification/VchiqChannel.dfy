/** One direction of the VCHIQ slot transport: the writer, the shared slots and slot queue, and the receiver.

    The writer is VchiqAcquireTxSpace, VchiqQueueMessageAsync and VchiqProcessRecycleTxSlot; the receiver is
    VchiqProcessRxSlot, VchiqAddRefMsg, VchiqReleaseMsg, VchiqRecycleSlot and the pending-message lists.  The firmware
    runs the mirror image of the driver, so the same class describes both directions.  Every method is one step.
  */
module VchiqChannel {
  import opened Bytes
  import opened VchiqStream
  import opened VchiqRing

  datatype Status = Success | InsufficientResources | Unsuccessful

  /** VCHIQ_PENDING_MSG: the slot number and the place of the message in it. */
  datatype MsgRef = MsgRef(slot: nat, off: nat)

  // ---------- the parts of the invariant, over plain values ----------

  /** Every record whose slot has not been handed back can still be read from its slot. */
  ghost predicate Memory(slots: seq<seq<byte>>, sent: seq<Record>, supply: seq<nat>, held: set<nat>) {
    && (forall x | 0 <= x < |slots| :: |slots[x]| == SLOT_SIZE)
    && (forall i | 0 <= i < |sent| && sent[i].k in held ::
          && sent[i].k < |supply| && supply[sent[i].k] < |slots|
          && Stored(slots[supply[sent[i].k]], sent[i]))
  }

  /** The writer: claimed slots are those the stream has entered, and tokens pay for the entries not yet claimed. */
  ghost predicate Writer(sent: seq<Record>, supply: seq<nat>, claims: nat, txPos: nat, current: nat,
                         tokens: nat, recycleIndex: nat) {
    && Stream(sent)
    && claims == (txPos + SLOT_SIZE - 1) / SLOT_SIZE
    && (forall i | 0 <= i < |sent| :: sent[i].k < claims)
    && tokens + claims == recycleIndex
    && recycleIndex <= |supply|
    && (txPos % SLOT_SIZE != 0 ==> current == supply[claims - 1])
  }

  /** The receiver has parsed the first `parsed` records and keeps every slot from its current one on. */
  ghost predicate Reader(sent: seq<Record>, supply: seq<nat>, claims: nat, held: set<nat>,
                         parsed: nat, rxPos: nat, hasSlot: bool, slot: nat) {
    && parsed <= |sent|
    && rxPos == PosAt(sent, parsed)
    && (rxPos % SLOT_SIZE != 0 ==> hasSlot)
    && (hasSlot ==> rxPos / SLOT_SIZE < claims && rxPos / SLOT_SIZE < |supply| && slot == supply[rxPos / SLOT_SIZE])
    && (forall j | rxPos / SLOT_SIZE <= j < claims :: j in held)
  }

  /** The pending entries among `keys` that point into the `k`-th claimed slot. */
  function On(keys: set<nat>, sent: seq<Record>, k: nat): set<nat> {
    set r | r in keys && r < |sent| && sent[r].k == k
  }

  /** Every entry of a pending list points to a parsed message whose slot has not been handed back. */
  ghost predicate Pointers(list: map<nat, MsgRef>, sent: seq<Record>, supply: seq<nat>, held: set<nat>, parsed: nat) {
    parsed <= |sent| && forall r | r in list ::
      && r < parsed && sent[r].Message? && sent[r].k in held
      && sent[r].k < |supply| && list[r] == MsgRef(supply[sent[r].k], sent[r].off)
  }

  /** Reference counts count the entries of both lists, and only the receiver's current slot is in use. */
  ghost predicate Counts(refCount: seq<int>, inUse: seq<bool>, data: set<nat>, vchi: set<nat>, sent: seq<Record>,
                         supply: seq<nat>, held: set<nat>, hasSlot: bool, slot: nat) {
    && |inUse| == |refCount|
    && (forall k | k in held :: k < |supply| && supply[k] < |refCount|
          && refCount[supply[k]] == |On(data, sent, k)| + |On(vchi, sent, k)|)
    && (forall x | 0 <= x < |refCount| && (forall k | k in held :: k < |supply| && supply[k] != x) :: refCount[x] == 0)
    && (forall x | 0 <= x < |inUse| :: inUse[x] == (hasSlot && x == slot))
  }

  /** A slot the receiver has parsed to its end is kept only while a pending entry points into it. */
  ghost predicate KeptForReference(data: set<nat>, vchi: set<nat>, sent: seq<Record>, held: set<nat>, rxPos: nat) {
    forall k | k in held && k < rxPos / SLOT_SIZE :: On(data, sent, k) + On(vchi, sent, k) != {}
  }

  // ---------- a record is appended ----------

  lemma AlignedEnd(sent: seq<Record>)
    requires Stream(sent)
    ensures EndOf(sent) % 8 == 0
  {
  }

  /** `r` continues a stream of `sent` records that ends at `PosOf(r)`. */
  lemma AppendKeepsStream(sent: seq<Record>, r: Record)
    requires Stream(sent) && WellPlaced(r) && PosOf(r) == EndOf(sent) && r.off < SLOT_SIZE
    ensures Stream(sent + [r])
    ensures EndOf(sent + [r]) == PosOf(r) + Span(r)
    ensures forall i | 0 <= i <= |sent| :: PosAt(sent + [r], i) == PosAt(sent, i)
    ensures forall i | 0 <= i < |sent| && sent[i].k == r.k :: sent[i].off + Span(sent[i]) <= r.off
  {
    if sent != [] {
      assert Follows(sent[|sent| - 1], r);
    }
    forall i | 0 <= i < |sent| && sent[i].k == r.k ensures sent[i].off + Span(sent[i]) <= r.off {
      EarlierEndsBefore(sent, i);
    }
  }

  lemma AppendKeepsMemory(first: nat, last: nat, queue: seq<nat>, claims: nat,
                          slots: seq<seq<byte>>, sent: seq<Record>, supply: seq<nat>, held: set<nat>,
                          r: Record, slot: seq<byte>)
    requires Memory(slots, sent, supply, held) && Ring(first, last, queue, supply, claims, held)
    requires r.k in held && supply[r.k] < |slots| && Written(slots[supply[r.k]], slot, r)
    requires forall i | 0 <= i < |sent| && sent[i].k == r.k :: sent[i].off + Span(sent[i]) <= r.off
    ensures Memory(slots[supply[r.k] := slot], sent + [r], supply, held)
  {
    var slots', sent' := slots[supply[r.k] := slot], sent + [r];
    forall i | 0 <= i < |sent'| && sent'[i].k in held
      ensures sent'[i].k < |supply| && supply[sent'[i].k] < |slots'| && Stored(slots'[supply[sent'[i].k]], sent'[i])
    {
      assert Live(supply, claims, held, r.k);
      if i < |sent| {
        assert Live(supply, claims, held, sent[i].k);
      }
    }
  }

  lemma AppendKeepsPositions(sent: seq<Record>, supply: seq<nat>, claims: nat, held: set<nat>,
                             txPos: nat, current: nat, tokens: nat, recycleIndex: nat,
                             parsed: nat, rxPos: nat, hasSlot: bool, slot: nat, r: Record)
    requires Writer(sent, supply, claims, txPos, current, tokens, recycleIndex)
    requires Reader(sent, supply, claims, held, parsed, rxPos, hasSlot, slot)
    requires WellPlaced(r) && PosOf(r) == EndOf(sent) && r.off < SLOT_SIZE && r.k < claims
    ensures Writer(sent + [r], supply, claims, txPos, current, tokens, recycleIndex)
    ensures Reader(sent + [r], supply, claims, held, parsed, rxPos, hasSlot, slot)
  {
    hide WellPlaced;
    AppendKeepsStream(sent, r);
  }

  lemma AppendKeepsOn(keys: set<nat>, sent: seq<Record>, r: Record)
    requires forall x | x in keys :: x < |sent|
    ensures forall k :: On(keys, sent + [r], k) == On(keys, sent, k)
  {
    forall k ensures On(keys, sent + [r], k) == On(keys, sent, k) {
      assert forall x | x in keys :: (sent + [r])[x] == sent[x];
    }
  }

  lemma AppendKeepsPointers(list: map<nat, MsgRef>, sent: seq<Record>, supply: seq<nat>, held: set<nat>, parsed: nat,
                            r: Record)
    requires Pointers(list, sent, supply, held, parsed)
    ensures Pointers(list, sent + [r], supply, held, parsed)
  {
  }

  lemma AppendKeepsCounts(refCount: seq<int>, inUse: seq<bool>, data: set<nat>, vchi: set<nat>, sent: seq<Record>,
                          supply: seq<nat>, held: set<nat>, rxPos: nat, hasSlot: bool, slot: nat, r: Record)
    requires Counts(refCount, inUse, data, vchi, sent, supply, held, hasSlot, slot)
    requires KeptForReference(data, vchi, sent, held, rxPos)
    requires forall x | x in data || x in vchi :: x < |sent|
    ensures Counts(refCount, inUse, data, vchi, sent + [r], supply, held, hasSlot, slot)
    ensures KeptForReference(data, vchi, sent + [r], held, rxPos)
  {
    AppendKeepsOn(data, sent, r);
    AppendKeepsOn(vchi, sent, r);
    hide On;
  }

  lemma PointersBelow(list: map<nat, MsgRef>, sent: seq<Record>, supply: seq<nat>, held: set<nat>, parsed: nat)
    requires Pointers(list, sent, supply, held, parsed)
    ensures forall x | x in list.Keys :: x < parsed <= |sent|
  {
  }

  /** The entries of a pending list that name slot `x`. */
  function Naming(list: map<nat, MsgRef>, x: nat): set<nat> {
    set r | r in list && list[r].slot == x
  }

  lemma NamingIsOn(list: map<nat, MsgRef>, sent: seq<Record>, supply: seq<nat>, held: set<nat>, parsed: nat,
                   x: nat, k: nat)
    requires Pointers(list, sent, supply, held, parsed) && k in held && k < |supply| && supply[k] == x
    requires forall j | j in held && j != k :: j < |supply| && supply[j] != x
    ensures Naming(list, x) == On(list.Keys, sent, k)
  {
  }

  lemma NamingNothing(list: map<nat, MsgRef>, sent: seq<Record>, supply: seq<nat>, held: set<nat>, parsed: nat, x: nat)
    requires Pointers(list, sent, supply, held, parsed)
    requires forall j | j in held :: j < |supply| && supply[j] != x
    ensures Naming(list, x) == {}
  {
  }

  // ---------- space is reserved ----------

  /** A request either starts at the next slot boundary or fits behind what is in the current slot. */
  lemma PlaceCases(txPos: nat, request: nat)
    requires txPos % 8 == 0 && HEADER_SIZE <= request && AlignUp(request) <= SLOT_SIZE
    ensures var avail, pos := SLOT_SIZE - txPos % SLOT_SIZE, Place(txPos, request);
            if AlignUp(request) > avail then txPos % SLOT_SIZE != 0 && pos == txPos + avail && pos % SLOT_SIZE == 0
            else pos == txPos && (txPos % SLOT_SIZE != 0 ==> txPos % SLOT_SIZE + AlignUp(request) <= SLOT_SIZE)
  {
  }

  lemma MessageShape(pos: nat, id: nat, payload: seq<byte>)
    requires pos % 8 == 0 && id < U32 && MsgType(id) != MSG_PADDING
    requires pos % SLOT_SIZE + AlignUp(HEADER_SIZE + |payload|) <= SLOT_SIZE
    ensures var r := Message(pos / SLOT_SIZE, pos % SLOT_SIZE, id, payload);
            WellPlaced(r) && PosOf(r) == pos && Span(r) == AlignUp(HEADER_SIZE + |payload|)
    ensures pos % SLOT_SIZE + HEADER_SIZE + |payload| <= SLOT_SIZE
  {
    hide MsgType, AlignUp;
    OffsetAligned(pos);
  }

  lemma OffsetAligned(pos: nat)
    requires pos % 8 == 0
    ensures pos % SLOT_SIZE % 8 == 0 && SLOT_SIZE * (pos / SLOT_SIZE) + pos % SLOT_SIZE == pos
  {
  }

  /** The padding that fills the rest of a slot. */
  lemma PaddingShape(txPos: nat)
    requires txPos % 8 == 0 && txPos % SLOT_SIZE != 0
    ensures var avail := SLOT_SIZE - txPos % SLOT_SIZE;
            && HEADER_SIZE <= avail < SLOT_SIZE
            && var r := Padding(txPos / SLOT_SIZE, txPos % SLOT_SIZE, avail - HEADER_SIZE);
               WellPlaced(r) && PosOf(r) == txPos && Span(r) == avail
  {
  }

  /** A request larger than a slot is placed at the next boundary and enters two slots or more. */
  lemma PlaceTooMuch(txPos: nat, request: nat)
    requires txPos % 8 == 0 && AlignUp(request) > SLOT_SIZE
    ensures var pos := Place(txPos, request);
            && pos == txPos + (SLOT_SIZE - txPos % SLOT_SIZE) && pos % SLOT_SIZE == 0
            && SLOT_SIZE - txPos % SLOT_SIZE >= HEADER_SIZE
            && (pos + SLOT_SIZE - 1) / SLOT_SIZE
               == (txPos + SLOT_SIZE - 1) / SLOT_SIZE + (if txPos % SLOT_SIZE == 0 then 1 else 0)
            && (pos + AlignUp(request) + SLOT_SIZE - 1) / SLOT_SIZE >= (pos + SLOT_SIZE - 1) / SLOT_SIZE + 2
  {
    hide AlignUp;
    SlotsEntered(txPos);
    EntersMore(txPos / SLOT_SIZE + 1, AlignUp(request));
  }

  lemma SlotsEntered(txPos: nat)
    requires txPos % 8 == 0
    ensures txPos + (SLOT_SIZE - txPos % SLOT_SIZE) == (txPos / SLOT_SIZE + 1) * SLOT_SIZE
    ensures SLOT_SIZE - txPos % SLOT_SIZE >= HEADER_SIZE
    ensures (txPos + SLOT_SIZE - 1) / SLOT_SIZE == txPos / SLOT_SIZE + if txPos % SLOT_SIZE == 0 then 0 else 1
  {
  }

  lemma EntersMore(q: nat, size: nat)
    requires size > SLOT_SIZE
    ensures (q * SLOT_SIZE) % SLOT_SIZE == 0 && (q * SLOT_SIZE + SLOT_SIZE - 1) / SLOT_SIZE == q
    ensures (q * SLOT_SIZE + size + SLOT_SIZE - 1) / SLOT_SIZE >= q + 2
  {
  }

  lemma PlaceFits(txPos: nat, request: nat)
    requires txPos % 8 == 0 && HEADER_SIZE <= request && AlignUp(request) <= SLOT_SIZE
    ensures var pos := Place(txPos, request); pos % 8 == 0 && pos % SLOT_SIZE + AlignUp(request) <= SLOT_SIZE
  {
    hide AlignUp;
    RequestInsideOneSlot(txPos, request);
  }

  /** Slots entered before and after `size` bytes from `txPos`, all within one slot. */
  lemma ClaimCount(txPos: nat, size: nat)
    requires 0 < size && txPos % SLOT_SIZE + size <= SLOT_SIZE
    ensures (txPos + size + SLOT_SIZE - 1) / SLOT_SIZE == txPos / SLOT_SIZE + 1
    ensures (txPos + SLOT_SIZE - 1) / SLOT_SIZE == txPos / SLOT_SIZE + if txPos % SLOT_SIZE == 0 then 0 else 1
  {
  }

  lemma AdvanceKeepsWriter(sent: seq<Record>, supply: seq<nat>, claims: nat, txPos: nat, current: nat,
                           tokens: nat, recycleIndex: nat, size: nat)
    requires Writer(sent, supply, claims, txPos, current, tokens, recycleIndex)
    requires 0 < size && txPos % SLOT_SIZE != 0 && txPos % SLOT_SIZE + size <= SLOT_SIZE
    ensures Writer(sent, supply, claims, txPos + size, current, tokens, recycleIndex)
  {
    ClaimCount(txPos, size);
  }

  lemma ClaimKeepsWriter(sent: seq<Record>, supply: seq<nat>, claims: nat, txPos: nat, current: nat,
                         tokens: nat, recycleIndex: nat, size: nat)
    requires Writer(sent, supply, claims, txPos, current, tokens, recycleIndex)
    requires 0 < size <= SLOT_SIZE && txPos % SLOT_SIZE == 0 && tokens > 0
    ensures claims == txPos / SLOT_SIZE && claims < |supply|
    ensures Writer(sent, supply, claims + 1, txPos + size, supply[claims], tokens - 1, recycleIndex)
  {
    ClaimCount(txPos, size);
  }

  lemma ClaimKeepsRest(slots: seq<seq<byte>>, sent: seq<Record>, supply: seq<nat>, claims: nat, held: set<nat>,
                       parsed: nat, rxPos: nat, hasSlot: bool, slot: nat, seen: nat,
                       data: map<nat, MsgRef>, vchi: map<nat, MsgRef>)
    requires Memory(slots, sent, supply, held) && Reader(sent, supply, claims, held, parsed, rxPos, hasSlot, slot)
    requires Pointers(data, sent, supply, held, seen) && Pointers(vchi, sent, supply, held, seen)
    requires forall i | 0 <= i < |sent| :: sent[i].k < claims
    ensures Memory(slots, sent, supply, held + {claims})
    ensures Reader(sent, supply, claims + 1, held + {claims}, parsed, rxPos, hasSlot, slot)
    ensures Pointers(data, sent, supply, held + {claims}, seen)
    ensures Pointers(vchi, sent, supply, held + {claims}, seen)
  {
  }

  // ---------- a slot is claimed ----------

  lemma ClaimKeepsCounts(first: nat, last: nat, queue: seq<nat>, claims: nat,
                         refCount: seq<int>, inUse: seq<bool>, data: set<nat>, vchi: set<nat>,
                         sent: seq<Record>, supply: seq<nat>, held: set<nat>,
                         rxPos: nat, hasSlot: bool, slot: nat)
    requires Counts(refCount, inUse, data, vchi, sent, supply, held, hasSlot, slot)
    requires KeptForReference(data, vchi, sent, held, rxPos)
    requires Ring(first, last, queue, supply, claims, held) && claims < |supply| && last <= |refCount|
    requires forall i | 0 <= i < |sent| :: sent[i].k < claims
    requires rxPos / SLOT_SIZE <= claims
    ensures Counts(refCount, inUse, data, vchi, sent, supply, held + {claims}, hasSlot, slot)
    ensures KeptForReference(data, vchi, sent, held + {claims}, rxPos)
  {
    ClaimKeepsRing(first, last, queue, supply, claims, held);
    assert On(data, sent, claims) == {} && On(vchi, sent, claims) == {};
    assert refCount[supply[claims]] == 0;
    var held' := held + {claims};
    forall x | 0 <= x < |refCount| && (forall k | k in held' :: k < |supply| && supply[k] != x)
      ensures refCount[x] == 0
    {
      assert forall k | k in held :: k in held';
    }
  }

  // ---------- an entry joins or leaves a pending list ----------

  /** An entry joins one of the lists and its slot's count goes up. */
  lemma AddRefKeepsCounts(refCount: seq<int>, inUse: seq<bool>, data: set<nat>, vchi: set<nat>, sent: seq<Record>,
                          supply: seq<nat>, held: set<nat>, hasSlot: bool, slot: nat,
                          first: nat, last: nat, queue: seq<nat>, claims: nat, r: nat, toVchi: bool)
    requires Counts(refCount, inUse, data, vchi, sent, supply, held, hasSlot, slot)
    requires Ring(first, last, queue, supply, claims, held)
    requires r < |sent| && sent[r].k in held && r !in (if toVchi then vchi else data)
    ensures var s := supply[sent[r].k];
            s < |refCount| &&
            Counts(refCount[s := refCount[s] + 1], inUse, if toVchi then data else data + {r},
                   if toVchi then vchi + {r} else vchi, sent, supply, held, hasSlot, slot)
  {
    var keys := if toVchi then vchi else data;
    var s := supply[sent[r].k];
    OnAdd(keys, sent, r);
    SupplyInjective(first, last, queue, supply, claims, held);
    hide On, Ring;
  }

  /** An entry leaves the data list (or the VCHI list) and its slot's count goes down. */
  lemma ReleaseKeepsCounts(refCount: seq<int>, inUse: seq<bool>, data: set<nat>, vchi: set<nat>, sent: seq<Record>,
                           supply: seq<nat>, held: set<nat>, hasSlot: bool, slot: nat,
                           first: nat, last: nat, queue: seq<nat>, claims: nat, r: nat, fromVchi: bool)
    requires Counts(refCount, inUse, data, vchi, sent, supply, held, hasSlot, slot)
    requires Ring(first, last, queue, supply, claims, held)
    requires r < |sent| && sent[r].k in held && r in (if fromVchi then vchi else data)
    ensures var s := supply[sent[r].k];
            s < |refCount| &&
            Counts(refCount[s := refCount[s] - 1], inUse, if fromVchi then data else data - {r},
                   if fromVchi then vchi - {r} else vchi, sent, supply, held, hasSlot, slot)
  {
    var keys := if fromVchi then vchi else data;
    var s := supply[sent[r].k];
    OnAdd(keys - {r}, sent, r);
    assert keys - {r} + {r} == keys;
    SupplyInjective(first, last, queue, supply, claims, held);
    hide On, Ring;
  }

  lemma OnAdd(keys: set<nat>, sent: seq<Record>, r: nat)
    requires r < |sent| && r !in keys
    ensures |On(keys + {r}, sent, sent[r].k)| == |On(keys, sent, sent[r].k)| + 1
    ensures forall k | k != sent[r].k :: On(keys + {r}, sent, k) == On(keys, sent, k)
  {
    assert On(keys + {r}, sent, sent[r].k) == On(keys, sent, sent[r].k) + {r};
  }

  lemma SupplyInjective(first: nat, last: nat, queue: seq<nat>, supply: seq<nat>, claims: nat, held: set<nat>)
    requires Ring(first, last, queue, supply, claims, held)
    ensures forall k | k in held :: k < |supply|
    ensures forall j, k | j in held && k in held && j != k :: supply[j] != supply[k]
  {
    forall j, k | j in held && k in held && j != k ensures supply[j] != supply[k] {
      assert Live(supply, claims, held, j) && Live(supply, claims, held, k);
    }
  }

  lemma AddPointer(list: map<nat, MsgRef>, sent: seq<Record>, supply: seq<nat>, held: set<nat>, parsed: nat,
                   slot: nat, off: nat)
    requires Pointers(list, sent, supply, held, parsed) && parsed < |sent|
    ensures parsed !in list
    ensures Pointers(list, sent, supply, held, parsed + 1)
    ensures sent[parsed].Message? && sent[parsed].k in held && sent[parsed].k < |supply|
            && slot == supply[sent[parsed].k] && off == sent[parsed].off
            ==> Pointers(list[parsed := MsgRef(slot, off)], sent, supply, held, parsed + 1)
  {
  }

  lemma MoreKept(data: set<nat>, vchi: set<nat>, sent: seq<Record>, held: set<nat>, rxPos: nat, r: nat)
    requires KeptForReference(data, vchi, sent, held, rxPos)
    ensures KeptForReference(data + {r}, vchi, sent, held, rxPos)
  {
    forall k | k in held && k < rxPos / SLOT_SIZE ensures On(data + {r}, sent, k) + On(vchi, sent, k) != {} {
      var x :| x in On(data, sent, k) + On(vchi, sent, k);
      assert x in On(data + {r}, sent, k) + On(vchi, sent, k);
    }
  }

  // ---------- the receiver moves on ----------

  lemma ShowNext(sent: seq<Record>, i: nat)
    requires i < |sent|
    ensures MsgsOf(sent[..i + 1]) == MsgsOf(sent[..i]) + if sent[i].Message? then [Msg(sent[i].id, sent[i].payload)] else []
  {
    assert sent[..i + 1] == sent[..i] + [sent[i]];
    MsgsOfSnoc(sent[..i], sent[i]);
  }

  lemma MoveInSlot(sent: seq<Record>, supply: seq<nat>, claims: nat, held: set<nat>, parsed: nat, rxPos: nat, slot: nat)
    requires Reader(sent, supply, claims, held, parsed, rxPos, true, slot) && Stream(sent) && parsed < |sent|
    requires (rxPos + Span(sent[parsed])) % SLOT_SIZE != 0
    ensures (rxPos + Span(sent[parsed])) / SLOT_SIZE == rxPos / SLOT_SIZE
    ensures Reader(sent, supply, claims, held, parsed + 1, rxPos + Span(sent[parsed]), true, slot)
  {
    assert WellPlaced(sent[parsed]);
    NextPos(sent, parsed);
    hide Stream, Span;
    StaysInSlot(rxPos, Span(sent[parsed]));
  }

  lemma StaysInSlot(pos: nat, size: nat)
    requires pos % SLOT_SIZE + size <= SLOT_SIZE && (pos + size) % SLOT_SIZE != 0
    ensures (pos + size) / SLOT_SIZE == pos / SLOT_SIZE && pos % SLOT_SIZE + size < SLOT_SIZE
  {
  }

  lemma MoveToNextSlot(sent: seq<Record>, supply: seq<nat>, claims: nat, held: set<nat>, parsed: nat, rxPos: nat,
                       slot: nat, s: nat)
    requires Reader(sent, supply, claims, held, parsed, rxPos, true, slot) && Stream(sent) && parsed < |sent|
    requires (rxPos + Span(sent[parsed])) % SLOT_SIZE == 0
    ensures (rxPos + Span(sent[parsed])) / SLOT_SIZE == rxPos / SLOT_SIZE + 1
    ensures Reader(sent, supply, claims, held, parsed + 1, rxPos + Span(sent[parsed]), false, slot)
    ensures Reader(sent, supply + [s], claims, held - {rxPos / SLOT_SIZE}, parsed + 1, rxPos + Span(sent[parsed]), false, slot)
  {
    assert WellPlaced(sent[parsed]);
    NextPos(sent, parsed);
    hide Stream, Span;
  }

  /** What has been parsed to its end and is referenced is kept for that reference. */
  lemma KeptAfterSlot(data: set<nat>, vchi: set<nat>, sent: seq<Record>, held: set<nat>, rxPos: nat, rxPos': nat, k: nat)
    requires KeptForReference(data, vchi, sent, held, rxPos)
    requires k == rxPos / SLOT_SIZE && rxPos' / SLOT_SIZE == k + 1
    ensures KeptForReference(data, vchi, sent, held - {k}, rxPos')
    ensures On(data, sent, k) + On(vchi, sent, k) != {} ==> KeptForReference(data, vchi, sent, held, rxPos')
  {
  }

  lemma NoLongerInUse(refCount: seq<int>, inUse: seq<bool>, data: set<nat>, vchi: set<nat>, sent: seq<Record>,
                      supply: seq<nat>, held: set<nat>, slot: nat, k: nat)
    requires Counts(refCount, inUse, data, vchi, sent, supply, held, true, slot)
    requires k in held && slot == supply[k]
    ensures slot < |refCount| == |inUse|
    ensures Counts(refCount, inUse[slot := false], data, vchi, sent, supply, held, false, slot)
    ensures refCount[slot] != 0 ==> On(data, sent, k) + On(vchi, sent, k) != {}
  {
    hide On;
    EmptyUnion(On(data, sent, k), On(vchi, sent, k));
  }

  lemma EmptyUnion(a: set<nat>, b: set<nat>)
    ensures a + b == {} ==> |a| + |b| == 0
  {
    assert a <= a + b && b <= a + b;
  }

  /** Taking entry `r` out of the lists: other finished slots stay referenced, and its own does if anything is left. */
  lemma TakeKeepsKept(data: set<nat>, vchi: set<nat>, data': set<nat>, vchi': set<nat>, sent: seq<Record>,
                      held: set<nat>, rxPos: nat, r: nat)
    requires KeptForReference(data, vchi, sent, held, rxPos) && r < |sent|
    requires data - {r} <= data' && vchi - {r} <= vchi'
    ensures KeptForReference(data', vchi', sent, held - {sent[r].k}, rxPos)
    ensures On(data', sent, sent[r].k) + On(vchi', sent, sent[r].k) != {} || rxPos / SLOT_SIZE <= sent[r].k
            ==> KeptForReference(data', vchi', sent, held, rxPos)
  {
    forall k | k in held && k < rxPos / SLOT_SIZE && k != sent[r].k
      ensures On(data', sent, k) + On(vchi', sent, k) != {}
    {
      var x :| x in On(data, sent, k) + On(vchi, sent, k);
      assert x in On(data', sent, k) + On(vchi', sent, k);
    }
  }

  lemma TakePointers(list: map<nat, MsgRef>, sent: seq<Record>, supply: seq<nat>, held: set<nat>, parsed: nat,
                     r: nat, ref: MsgRef)
    requires Pointers(list, sent, supply, held, parsed)
    ensures Pointers(list - {r}, sent, supply, held, parsed)
    ensures r < parsed && sent[r].Message? && sent[r].k in held && sent[r].k < |supply|
            && ref == MsgRef(supply[sent[r].k], sent[r].off)
            ==> Pointers(list[r := ref], sent, supply, held, parsed)
  {
  }

  /** A count above zero means an entry; an unused slot of a parsed message has been parsed to its end. */
  lemma CountMeansEntry(refCount: seq<int>, inUse: seq<bool>, data: set<nat>, vchi: set<nat>, sent: seq<Record>,
                        supply: seq<nat>, held: set<nat>, hasSlot: bool, slot: nat, k: nat)
    requires Counts(refCount, inUse, data, vchi, sent, supply, held, hasSlot, slot) && k in held
    ensures k < |supply| && supply[k] < |refCount| == |inUse|
    ensures refCount[supply[k]] != 0 ==> On(data, sent, k) + On(vchi, sent, k) != {}
    ensures inUse[supply[k]] == (hasSlot && supply[k] == slot)
  {
    hide On;
    EmptyUnion(On(data, sent, k), On(vchi, sent, k));
  }

  lemma ParsedBehind(sent: seq<Record>, supply: seq<nat>, claims: nat, held: set<nat>, parsed: nat, rxPos: nat,
                     hasSlot: bool, slot: nat, r: nat)
    requires Reader(sent, supply, claims, held, parsed, rxPos, hasSlot, slot) && Stream(sent)
    requires r < parsed || (r == parsed < |sent| && hasSlot)
    ensures sent[r].k <= rxPos / SLOT_SIZE
    ensures sent[r].k == rxPos / SLOT_SIZE ==> hasSlot && slot == supply[sent[r].k]
  {
    PosGrows(sent, r, parsed);
    assert WellPlaced(sent[r]);
  }

  // ---------- a slot is handed back ----------

  lemma RecycleKeepsCounts(refCount: seq<int>, inUse: seq<bool>, data: set<nat>, vchi: set<nat>, sent: seq<Record>,
                           supply: seq<nat>, held: set<nat>, hasSlot: bool, slot: nat, k: nat, s: nat)
    requires Counts(refCount, inUse, data, vchi, sent, supply, held, hasSlot, slot)
    requires k in held && refCount[supply[k]] == 0
    ensures On(data, sent, k) == {} && On(vchi, sent, k) == {}
    ensures Counts(refCount, inUse, data, vchi, sent, supply + [s], held - {k}, hasSlot, slot)
  {
    hide On;
    var supply', held' := supply + [s], held - {k};
    forall x | 0 <= x < |refCount| && (forall j | j in held' :: j < |supply'| && supply'[j] != x)
      ensures refCount[x] == 0
    {
      if x != supply[k] {
        forall j | j in held ensures supply[j] != x {
          if j != k {
            assert j in held';
          }
        }
      }
    }
  }

  lemma RecycleKeepsRest(slots: seq<seq<byte>>, sent: seq<Record>, supply: seq<nat>, held: set<nat>, claims: nat,
                         data: map<nat, MsgRef>, vchi: map<nat, MsgRef>, parsed: nat,
                         txPos: nat, current: nat, tokens: nat, recycleIndex: nat, k: nat, s: nat)
    requires Memory(slots, sent, supply, held)
    requires Pointers(data, sent, supply, held, parsed) && Pointers(vchi, sent, supply, held, parsed)
    requires Writer(sent, supply, claims, txPos, current, tokens, recycleIndex) && claims <= |supply|
    requires On(data.Keys, sent, k) == {} && On(vchi.Keys, sent, k) == {}
    ensures Memory(slots, sent, supply + [s], held - {k})
    ensures Pointers(data, sent, supply + [s], held - {k}, parsed)
    ensures Pointers(vchi, sent, supply + [s], held - {k}, parsed)
    ensures Writer(sent, supply + [s], claims, txPos, current, tokens, recycleIndex)
  {
    forall r | r in data ensures sent[r].k != k {
      assert r in On(data.Keys, sent, sent[r].k);
    }
    forall r | r in vchi ensures sent[r].k != k {
      assert r in On(vchi.Keys, sent, sent[r].k);
    }
    hide Stream, Stored;
  }

  class Channel {
    const slotFirst: nat
    const slotLast: nat

    // shared memory
    var slots: seq<seq<byte>>
    var slotQueue: seq<nat>
    var slotQueueRecycle: nat
    var txPos: nat

    // writer
    var currentTxPos: nat
    var slaveCurrentSlot: nat
    var availableTxSlot: nat
    var recycleTxSlotIndex: nat

    // receiver
    var currentRxPos: nat
    var hasCurrentSlot: bool
    var masterCurrentSlotIndex: nat
    var refCount: seq<int>
    var slotInUse: seq<bool>
    var dataMsgs: map<nat, MsgRef>
    var vchiMsgs: map<nat, MsgRef>
    var received: seq<Msg>  // what the message handlers have been shown
    var entered: nat // messages given to their handlers so far; it names the pending entries, as their addresses do
    var parsed: nat  // messages the position has moved past; one less than entered inside a handler

    // history
    ghost var sent: seq<Record>
    ghost var supply: seq<nat>
    ghost var held: set<nat>
    ghost var published: nat
    ghost var queued: seq<Msg>

    ghost function Claims(): nat
      reads this
    {
      (currentTxPos + SLOT_SIZE - 1) / SLOT_SIZE
    }

    /** The invariant, with `end` the end of the stream: behind `currentTxPos` while space is reserved. */
    ghost predicate ValidTo(end: nat)
      reads this
    {
      && ValidBut(end, entered, entered)
      && parsed <= entered <= parsed + 1
      && (entered > parsed ==> parsed < published && hasCurrentSlot)
    }

    /** Pending entries are among the first `seen` records while a message is given to its handler. */
    ghost predicate ValidWith(end: nat, seen: nat)
      reads this
    {
      ValidBut(end, seen, parsed)
    }

    /** `shown` is the number of records whose messages the handlers have been shown. */
    ghost predicate ValidBut(end: nat, seen: nat, shown: nat)
      reads this
    {
      && slotLast < |slots|
      && |refCount| == |slots|
      && |supply| == slotQueueRecycle
      && end == EndOf(sent) && end <= currentTxPos
      && Ring(slotFirst, slotLast, slotQueue, supply, Claims(), held)
      && Memory(slots, sent, supply, held)
      && Writer(sent, supply, Claims(), currentTxPos, slaveCurrentSlot, availableTxSlot, recycleTxSlotIndex)
      && Reader(sent, supply, Claims(), held, parsed, currentRxPos, hasCurrentSlot, masterCurrentSlotIndex)
      && parsed <= published <= |sent| && txPos == PosAt(sent, published)
      && Pointers(dataMsgs, sent, supply, held, seen)
      && Pointers(vchiMsgs, sent, supply, held, seen)
      && dataMsgs.Keys !! vchiMsgs.Keys
      && Counts(refCount, slotInUse, dataMsgs.Keys, vchiMsgs.Keys, sent, supply, held, hasCurrentSlot, masterCurrentSlotIndex)
      && KeptForReference(dataMsgs.Keys, vchiMsgs.Keys, sent, held, currentRxPos)
      && queued == MsgsOf(sent)
      && shown <= |sent| && received == MsgsOf(sent[..shown])
    }

    ghost predicate Valid()
      reads this
    {
      ValidTo(currentTxPos)
    }

    /** VchiqInit: fill the slot queue with first..last, but start tokens and recycle index one short. */
    constructor (first: nat, last: nat, slotCount: nat)
      requires first < last < slotCount && last < first + QUEUE_LEN
      ensures Valid()
      ensures slotFirst == first && slotLast == last
      ensures queued == [] && received == []
      ensures availableTxSlot == recycleTxSlotIndex == slotQueueRecycle == last - first
    {
      slotFirst, slotLast := first, last;
      slots := seq(slotCount, x => seq(SLOT_SIZE, y => 0));
      var queue: seq<nat> := seq(QUEUE_LEN, x => 0);
      var i := 0;
      var slotCounter := first;
      while slotCounter <= last
        invariant slotCounter == first + i <= last + 1
        invariant |queue| == QUEUE_LEN
        invariant forall j | 0 <= j < i :: queue[j] == first + j
      {
        queue := queue[i := slotCounter];
        slotCounter, i := slotCounter + 1, i + 1;
      }
      var totalTxSlot := i - 1;
      slotQueue := queue;
      availableTxSlot := totalTxSlot;
      recycleTxSlotIndex := totalTxSlot;
      slotQueueRecycle := totalTxSlot;
      txPos, currentTxPos, slaveCurrentSlot := 0, 0, 0;
      currentRxPos, hasCurrentSlot, masterCurrentSlotIndex := 0, false, 0;
      refCount := seq(slotCount, x => 0);
      slotInUse := seq(slotCount, x => false);
      dataMsgs, vchiMsgs := map[], map[];
      sent, supply, held := [], seq(totalTxSlot, j requires 0 <= j => first + j), {};
      published, entered, parsed, queued, received := 0, 0, 0, [], [];
    }

    // ---------- writer ----------

    lemma EndAligned()
      requires Valid()
      ensures currentTxPos % 8 == 0
    {
      AlignedEnd(sent);
    }

    /** VchiqAcquireTxSpace: pad out the current slot when the request does not fit, claim a fresh slot at a slot
        boundary, and reserve the space.  The wait takes a token when there is one; otherwise it ends with the
        timeout or with the file's stop event.  Tokens go on paying for the slots entered if and only if the request
        fits a slot, or nothing but the rest of a slot has been padded. */
    method AcquireTxSpace(request: nat, stopped: bool) returns (status: Status, header: nat)
      requires Valid() && HEADER_SIZE <= request
      modifies this`slots, this`currentTxPos, this`slaveCurrentSlot, this`availableTxSlot, this`sent, this`held
      ensures var pos := Place(old(currentTxPos), request);
              && status == (if pos % SLOT_SIZE != 0 || old(availableTxSlot) > 0 then Success
                            else if stopped then Unsuccessful else InsufficientResources)
              && currentTxPos == (if status == Success then pos + AlignUp(request) else pos)
              && availableTxSlot == old(availableTxSlot) - (if status == Success && pos % SLOT_SIZE == 0 then 1 else 0)
              && (status == Success ==> header == pos % SLOT_SIZE)
              && (AlignUp(request) <= SLOT_SIZE ==> ValidTo(pos) && (status == Success ==> InCurrentSlot(pos)))
      ensures TokensPay() <==>
                AlignUp(request) <= SLOT_SIZE || (status != Success && old(currentTxPos) % SLOT_SIZE != 0)
      ensures sent == old(sent) || (exists r: Record :: r.Padding? && sent == old(sent) + [r])
    {
      if AlignUp(request) > SLOT_SIZE {
        status, header := AcquireTooMuch(request, stopped);
      } else {
        status, header := AcquireInSlot(request, stopped);
        ValidTokensPay(Place(old(currentTxPos), request));
      }
    }

    /** Tokens and slots entered by the stream make up the recycle index. */
    ghost predicate TokensPay()
      reads this
    {
      availableTxSlot + Claims() == recycleTxSlotIndex
    }

    lemma ValidTokensPay(end: nat)
      requires ValidTo(end) || Valid()
      ensures TokensPay()
    {
      hide Ring, Memory, Counts, KeptForReference, Pointers, Reader, Stream;
    }

    /** A request larger than a slot: whatever is left of the current slot is padded, or at its boundary a whole slot
        that has not been claimed, and one slot is claimed for a reservation that reaches beyond it. */
    method AcquireTooMuch(request: nat, stopped: bool) returns (status: Status, header: nat)
      requires Valid() && AlignUp(request) > SLOT_SIZE
      modifies this`slots, this`currentTxPos, this`slaveCurrentSlot, this`availableTxSlot
      ensures var pos := Place(old(currentTxPos), request);
              && pos % SLOT_SIZE == 0
              && status == (if old(availableTxSlot) > 0 then Success
                            else if stopped then Unsuccessful else InsufficientResources)
              && currentTxPos == (if status == Success then pos + AlignUp(request) else pos)
              && availableTxSlot == old(availableTxSlot) - (if status == Success then 1 else 0)
              && (status == Success ==> header == 0)
      ensures TokensPay() <==> status != Success && old(currentTxPos) % SLOT_SIZE != 0
    {
      hide Valid, WriteHeader, AlignUp, Place;
      EndAligned();
      ValidTokensPay(currentTxPos);
      QueueShape();
      SlotSize(slaveCurrentSlot);
      header := 0;
      var availSlotSpace := SLOT_SIZE - currentTxPos % SLOT_SIZE;
      PlaceTooMuch(currentTxPos, request);
      if slaveCurrentSlot < |slots| {
        var slot := WriteHeader(slots[slaveCurrentSlot], currentTxPos % SLOT_SIZE, MSG_PADDING, availSlotSpace - HEADER_SIZE);
        slots := slots[slaveCurrentSlot := slot];
      }
      currentTxPos := currentTxPos + availSlotSpace;
      if availableTxSlot == 0 {
        status := if stopped then Unsuccessful else InsufficientResources;
        return;
      }
      availableTxSlot := availableTxSlot - 1;
      slaveCurrentSlot := slotQueue[(currentTxPos / SLOT_SIZE) % QUEUE_LEN];
      currentTxPos := currentTxPos + AlignUp(request);
      status := Success;
    }

    lemma QueueShape()
      requires Valid()
      ensures |slotQueue| == QUEUE_LEN
    {
      hide Memory, Counts, KeptForReference, Pointers, Reader, Writer;
    }

    lemma SlotSize(i: nat)
      requires Valid()
      ensures i < |slots| ==> |slots[i]| == SLOT_SIZE
    {
      hide Ring, Counts, KeptForReference, Pointers, Reader, Writer, Stored;
    }

    /** A request that fits a slot. */
    method AcquireInSlot(request: nat, stopped: bool) returns (status: Status, header: nat)
      requires Valid() && HEADER_SIZE <= request && AlignUp(request) <= SLOT_SIZE
      modifies this`slots, this`currentTxPos, this`slaveCurrentSlot, this`availableTxSlot, this`sent, this`held
      ensures var pos := Place(old(currentTxPos), request);
              && status == (if pos % SLOT_SIZE != 0 || old(availableTxSlot) > 0 then Success
                            else if stopped then Unsuccessful else InsufficientResources)
              && ValidTo(pos)
              && currentTxPos == (if status == Success then pos + AlignUp(request) else pos)
              && availableTxSlot == old(availableTxSlot) - (if status == Success && pos % SLOT_SIZE == 0 then 1 else 0)
              && (status == Success ==> InCurrentSlot(pos) && header == pos % SLOT_SIZE)
      ensures sent == old(sent) || (exists r: Record :: r.Padding? && sent == old(sent) + [r])
    {
      hide Ring, Memory, Counts, KeptForReference, Pointers, Reader, Writer;
      EndAligned();
      PlaceCases(currentTxPos, request);
      var actualBufferSize := AlignUp(request);
      var availSlotSpace := SLOT_SIZE - currentTxPos % SLOT_SIZE;
      if actualBufferSize > availSlotSpace {
        WritePadding(availSlotSpace);
      }
      header := currentTxPos % SLOT_SIZE;
      if currentTxPos % SLOT_SIZE == 0 {
        if availableTxSlot == 0 {
          status := if stopped then Unsuccessful else InsufficientResources;
          return;
        }
        ClaimSlot(actualBufferSize);
      } else {
        CurrentSlotHeld();
        AdvanceKeepsWriter(sent, supply, Claims(), currentTxPos, slaveCurrentSlot, availableTxSlot,
                           recycleTxSlotIndex, actualBufferSize);
        ClaimCount(currentTxPos, actualBufferSize);
        currentTxPos := currentTxPos + actualBufferSize;
      }
      status := Success;
    }

    /** `pos` lies in the slot the writer is filling, which the receiver has not handed back. */
    ghost predicate InCurrentSlot(pos: nat)
      reads this
    {
      var k := pos / SLOT_SIZE;
      && k + 1 == Claims() && k in held && k < |supply|
      && slaveCurrentSlot == supply[k] && supply[k] < |slots| && |slots[supply[k]]| == SLOT_SIZE
    }

    lemma CurrentSlotHeld()
      requires Valid() && currentTxPos % SLOT_SIZE != 0
      ensures InCurrentSlot(currentTxPos)
    {
      ClaimCount(currentTxPos, SLOT_SIZE - currentTxPos % SLOT_SIZE);
      PosGrows(sent, parsed, |sent|);
      assert Live(supply, Claims(), held, Claims() - 1);
    }

    /** The padding header that fills the rest of the current slot. */
    method WritePadding(availSlotSpace: nat)
      requires Valid() && currentTxPos % SLOT_SIZE != 0 && availSlotSpace == SLOT_SIZE - currentTxPos % SLOT_SIZE
      modifies this`slots, this`currentTxPos, this`sent
      ensures Valid()
      ensures currentTxPos == old(currentTxPos) + availSlotSpace
      ensures exists r: Record :: r.Padding? && sent == old(sent) + [r]
    {
      hide Ring, Memory, Counts, KeptForReference, Pointers, Reader, Writer, WriteHeader;
      ghost var r := PaddingKeeps(availSlotSpace);
      var slot := WriteHeader(slots[slaveCurrentSlot], currentTxPos % SLOT_SIZE, MSG_PADDING, availSlotSpace - HEADER_SIZE);
      slots := slots[slaveCurrentSlot := slot];
      currentTxPos := currentTxPos + availSlotSpace;
      sent := sent + [r];
    }

    lemma PaddingKeeps(avail: nat) returns (r: Record)
      requires Valid() && currentTxPos % SLOT_SIZE != 0 && avail == SLOT_SIZE - currentTxPos % SLOT_SIZE
      ensures avail >= HEADER_SIZE && r.Padding?
      ensures slaveCurrentSlot < |slots| && |slots[slaveCurrentSlot]| == SLOT_SIZE
      ensures var slot := WriteHeader(slots[slaveCurrentSlot], currentTxPos % SLOT_SIZE, MSG_PADDING, avail - HEADER_SIZE);
              Appended(r, slot, currentTxPos + avail)
      ensures (currentTxPos + avail + SLOT_SIZE - 1) / SLOT_SIZE == Claims()
      ensures EndOf(sent + [r]) == currentTxPos + avail
    {
      hide Ring, Memory, Counts, KeptForReference, Pointers, Reader, Writer, Written, WriteHeader, Stream, WellPlaced, Span,
           MsgsOf, EndOf, PosAt;
      EndAligned();
      CurrentSlotHeld();
      var off := currentTxPos % SLOT_SIZE;
      PaddingShape(currentTxPos);
      r := Padding(currentTxPos / SLOT_SIZE, off, avail - HEADER_SIZE);
      PaddingIsWritten(slots[slaveCurrentSlot], r);
      AppendKeeps(currentTxPos, r, WriteHeader(slots[slaveCurrentSlot], off, MSG_PADDING, avail - HEADER_SIZE));
      AdvanceKeepsWriter(sent + [r], supply, Claims(), currentTxPos, slaveCurrentSlot, availableTxSlot,
                         recycleTxSlotIndex, avail);
      ClaimCount(currentTxPos, avail);
    }

    /** The parts of the invariant once `slot` replaces the current slot, `r` is appended, and the writer is at `tx`. */
    ghost predicate Appended(r: Record, slot: seq<byte>, tx: nat)
      requires slaveCurrentSlot < |slots|
      reads this
    {
      && Memory(slots[slaveCurrentSlot := slot], sent + [r], supply, held)
      && Writer(sent + [r], supply, Claims(), tx, slaveCurrentSlot, availableTxSlot, recycleTxSlotIndex)
      && Reader(sent + [r], supply, Claims(), held, parsed, currentRxPos, hasCurrentSlot, masterCurrentSlotIndex)
      && published <= |sent| && txPos == PosAt(sent + [r], published)
      && Pointers(dataMsgs, sent + [r], supply, held, entered) && Pointers(vchiMsgs, sent + [r], supply, held, entered)
      && Counts(refCount, slotInUse, dataMsgs.Keys, vchiMsgs.Keys, sent + [r], supply, held, hasCurrentSlot, masterCurrentSlotIndex)
      && KeptForReference(dataMsgs.Keys, vchiMsgs.Keys, sent + [r], held, currentRxPos)
      && MsgsOf(sent + [r]) == queued + (if r.Message? then [Msg(r.id, r.payload)] else [])
      && entered <= |sent| && received == MsgsOf((sent + [r])[..entered])
    }

    lemma WriterStream()
      requires Writer(sent, supply, Claims(), currentTxPos, slaveCurrentSlot, availableTxSlot, recycleTxSlotIndex)
      ensures Stream(sent)
    {
    }

    /** Appending a record that the current slot now holds keeps every part of the invariant. */
    lemma AppendKeeps(end: nat, r: Record, slot: seq<byte>)
      requires ValidTo(end) && InCurrentSlot(end)
      requires PosOf(r) == end && r.off < SLOT_SIZE && WellPlaced(r) && Written(slots[slaveCurrentSlot], slot, r)
      ensures EndOf(sent + [r]) == end + Span(r)
      ensures Appended(r, slot, currentTxPos)
    {
      hide Ring, Memory, Writer, Reader, Counts, KeptForReference, Pointers, Written, WellPlaced, Stream, MsgsOf, EndOf, PosAt;
      assert r.k == end / SLOT_SIZE;
      WriterStream();
      AppendKeepsStream(sent, r);
      AppendKeepsPositions(sent, supply, Claims(), held, currentTxPos, slaveCurrentSlot, availableTxSlot,
                           recycleTxSlotIndex, parsed, currentRxPos, hasCurrentSlot, masterCurrentSlotIndex, r);
      AppendKeepsMemory(slotFirst, slotLast, slotQueue, Claims(), slots, sent, supply, held, r, slot);
      AppendKeepsPointers(dataMsgs, sent, supply, held, entered, r);
      AppendKeepsPointers(vchiMsgs, sent, supply, held, entered, r);
      PointersBelow(dataMsgs, sent, supply, held, entered);
      PointersBelow(vchiMsgs, sent, supply, held, entered);
      AppendKeepsCounts(refCount, slotInUse, dataMsgs.Keys, vchiMsgs.Keys, sent, supply, held,
                        currentRxPos, hasCurrentSlot, masterCurrentSlotIndex, r);
      MsgsOfSnoc(sent, r);
      assert (sent + [r])[..entered] == sent[..entered];
    }

    /** VCHIQ_GET_NEXT_TX_SLOT_INDEX and the advance over the reserved space. */
    method ClaimSlot(actualBufferSize: nat)
      requires Valid() && currentTxPos % SLOT_SIZE == 0 && availableTxSlot > 0
      requires 0 < actualBufferSize <= SLOT_SIZE
      modifies this`currentTxPos, this`slaveCurrentSlot, this`availableTxSlot, this`held
      ensures ValidTo(old(currentTxPos)) && InCurrentSlot(old(currentTxPos))
      ensures currentTxPos == old(currentTxPos) + actualBufferSize && availableTxSlot == old(availableTxSlot) - 1
      ensures held == old(held) + {old(Claims())}
    {
      hide Ring, Memory, Counts, KeptForReference, Pointers, Reader, Writer;
      ghost var claims := Claims();
      ClaimKeeps(actualBufferSize);
      availableTxSlot := availableTxSlot - 1;
      slaveCurrentSlot := slotQueue[(currentTxPos / SLOT_SIZE) % QUEUE_LEN];
      currentTxPos := currentTxPos + actualBufferSize;
      held := held + {claims};
    }

    lemma ClaimKeeps(size: nat)
      requires Valid() && currentTxPos % SLOT_SIZE == 0 && availableTxSlot > 0 && 0 < size <= SLOT_SIZE
      ensures Claims() == currentTxPos / SLOT_SIZE < |supply| && supply[Claims()] < |slots|
      ensures |slots[supply[Claims()]]| == SLOT_SIZE
      ensures (currentTxPos + size + SLOT_SIZE - 1) / SLOT_SIZE == Claims() + 1
      ensures |slotQueue| == QUEUE_LEN && slotQueue[Claims() % QUEUE_LEN] == supply[Claims()]
      ensures Ring(slotFirst, slotLast, slotQueue, supply, Claims() + 1, held + {Claims()})
      ensures Writer(sent, supply, Claims() + 1, currentTxPos + size, supply[Claims()], availableTxSlot - 1, recycleTxSlotIndex)
      ensures Memory(slots, sent, supply, held + {Claims()})
      ensures Reader(sent, supply, Claims() + 1, held + {Claims()}, parsed, currentRxPos, hasCurrentSlot, masterCurrentSlotIndex)
      ensures Pointers(dataMsgs, sent, supply, held + {Claims()}, entered)
      ensures Pointers(vchiMsgs, sent, supply, held + {Claims()}, entered)
      ensures Counts(refCount, slotInUse, dataMsgs.Keys, vchiMsgs.Keys, sent, supply, held + {Claims()}, hasCurrentSlot, masterCurrentSlotIndex)
      ensures KeptForReference(dataMsgs.Keys, vchiMsgs.Keys, sent, held + {Claims()}, currentRxPos)
    {
      hide Ring, Counts, KeptForReference, Pointers, Stored;
      ClaimCount(currentTxPos, size);
      PosGrows(sent, parsed, |sent|);
      ClaimKeepsWriter(sent, supply, Claims(), currentTxPos, slaveCurrentSlot, availableTxSlot, recycleTxSlotIndex, size);
      ClaimKeepsRing(slotFirst, slotLast, slotQueue, supply, Claims(), held);
      ClaimKeepsCounts(slotFirst, slotLast, slotQueue, Claims(), refCount, slotInUse, dataMsgs.Keys, vchiMsgs.Keys,
                       sent, supply, held, currentRxPos, hasCurrentSlot, masterCurrentSlotIndex);
      ClaimKeepsRest(slots, sent, supply, Claims(), held, parsed, currentRxPos, hasCurrentSlot, masterCurrentSlotIndex,
                     entered, dataMsgs, vchiMsgs);
    }

    /** VchiqQueueMessageAsync: acquire space, write header and payload, publish the new position. */
    method QueueMessageAsync(id: nat, payload: seq<byte>, stopped: bool) returns (status: Status)
      requires Valid() && id < U32 && MsgType(id) != MSG_PADDING
      requires AlignUp(HEADER_SIZE + |payload|) <= SLOT_SIZE
      modifies this`slots, this`currentTxPos, this`slaveCurrentSlot, this`availableTxSlot, this`txPos,
               this`sent, this`held, this`queued, this`published
      ensures Valid()
      ensures var pos := Place(old(currentTxPos), HEADER_SIZE + |payload|);
              && status == (if pos % SLOT_SIZE != 0 || old(availableTxSlot) > 0 then Success
                            else if stopped then Unsuccessful else InsufficientResources)
              && currentTxPos == (if status == Success then pos + AlignUp(HEADER_SIZE + |payload|) else pos)
              && txPos == (if status == Success then currentTxPos else old(txPos))
      ensures queued == old(queued) + if status == Success then [Msg(id, payload)] else []
      ensures old(sent) <= sent
      ensures status == Success ==> published == |sent|
    {
      hide ValidTo;
      hide Place;
      ghost var pos := Place(currentTxPos, HEADER_SIZE + |payload|);
      AlignedPlace(HEADER_SIZE + |payload|);
      var msgHeader: nat;
      status, msgHeader := AcquireTxSpace(HEADER_SIZE + |payload|, stopped);
      if status != Success {
        return;
      }
      StoreAndPublish(msgHeader, id, payload, pos);
    }

    lemma AlignedPlace(request: nat)
      requires Valid() && HEADER_SIZE <= request && AlignUp(request) <= SLOT_SIZE
      ensures var pos := Place(currentTxPos, request); pos % 8 == 0 && pos % SLOT_SIZE + AlignUp(request) <= SLOT_SIZE
    {
      hide Ring, Memory, Counts, KeptForReference, Pointers, Reader, Writer, Place, AlignUp;
      EndAligned();
      PlaceFits(currentTxPos, request);
    }

    /** Header and payload into the reserved space, then the new position into shared memory. */
    method StoreAndPublish(msgHeader: nat, id: nat, payload: seq<byte>, ghost pos: nat)
      requires ValidTo(pos) && InCurrentSlot(pos) && id < U32 && MsgType(id) != MSG_PADDING && pos % 8 == 0
      requires pos % SLOT_SIZE + AlignUp(HEADER_SIZE + |payload|) <= SLOT_SIZE
      requires msgHeader == pos % SLOT_SIZE && currentTxPos == pos + AlignUp(HEADER_SIZE + |payload|)
      modifies this`slots, this`txPos, this`sent, this`queued, this`published
      ensures Valid()
      ensures txPos == currentTxPos
      ensures exists r: Record :: r.Message? && r.id == id && r.payload == payload && sent == old(sent) + [r]
      ensures queued == old(queued) + [Msg(id, payload)] && published == |sent|
    {
      hide Ring, Memory, Counts, KeptForReference, Pointers, Reader, Writer, WriteHeader, Patch, AlignUp;
      ghost var r := MessageKeeps(pos, id, payload);
      var slot := WriteHeader(slots[slaveCurrentSlot], msgHeader, id, |payload|);
      slot := Patch(slot, msgHeader + HEADER_SIZE, payload);
      slots := slots[slaveCurrentSlot := slot];
      sent, queued := sent + [r], queued + [Msg(id, payload)];
      txPos := currentTxPos;
      published := |sent|;
    }

    lemma MessageKeeps(pos: nat, id: nat, payload: seq<byte>) returns (r: Record)
      requires ValidTo(pos) && InCurrentSlot(pos) && id < U32 && MsgType(id) != MSG_PADDING && pos % 8 == 0
      requires pos % SLOT_SIZE + AlignUp(HEADER_SIZE + |payload|) <= SLOT_SIZE
      ensures r.Message? && r.id == id && r.payload == payload
      ensures slaveCurrentSlot < |slots| && |slots[slaveCurrentSlot]| == SLOT_SIZE
      ensures var slot := WriteHeader(slots[slaveCurrentSlot], pos % SLOT_SIZE, id, |payload|);
              |slot| == SLOT_SIZE && Appended(r, Patch(slot, pos % SLOT_SIZE + HEADER_SIZE, payload), currentTxPos)
      ensures EndOf(sent + [r]) == pos + AlignUp(HEADER_SIZE + |payload|)
    {
      MessageShape(pos, id, payload);
      hide Ring, Memory, Counts, KeptForReference, Pointers, Reader, Writer, Written, WriteHeader, Stream, Patch, WellPlaced,
           Span, AlignUp, MsgsOf, EndOf, PosAt;
      var off := pos % SLOT_SIZE;
      r := Message(pos / SLOT_SIZE, off, id, payload);
      MessageIsWritten(slots[slaveCurrentSlot], r);
      AppendKeeps(pos, r, Patch(WriteHeader(slots[slaveCurrentSlot], off, id, |payload|), off + HEADER_SIZE, payload));
    }

    // ---------- writer: slots come back ----------

    /** VchiqProcessRecycleTxSlot: one token for each entry added to the slot queue since the last time. */
    method ProcessRecycleTxSlot()
      requires Valid()
      modifies this`availableTxSlot, this`recycleTxSlotIndex
      ensures Valid()
      ensures recycleTxSlotIndex == slotQueueRecycle
      ensures availableTxSlot == old(availableTxSlot) + (slotQueueRecycle - old(recycleTxSlotIndex))
    {
      hide Memory, Counts, KeptForReference, Pointers, Reader, Stream;
      var currentAvailableSlot := recycleTxSlotIndex;
      while currentAvailableSlot != slotQueueRecycle
        invariant old(recycleTxSlotIndex) <= currentAvailableSlot <= slotQueueRecycle
        invariant availableTxSlot == old(availableTxSlot) + (currentAvailableSlot - old(recycleTxSlotIndex))
        decreases slotQueueRecycle - currentAvailableSlot
      {
        // the semaphore's limit is the number of message slots
        assert availableTxSlot + 1 <= slotLast - slotFirst;
        availableTxSlot := availableTxSlot + 1;
        currentAvailableSlot := currentAvailableSlot + 1;
      }
      recycleTxSlotIndex := currentAvailableSlot;
    }

    // ---------- receiver ----------

    /** VchiqRecycleSlot: hand the slot back to the writer when it is neither in use nor referenced. */
    method RecycleSlot(slotNumber: nat, releaseSlot: bool, ghost k: nat)
      requires slotNumber < |refCount| == |slotInUse| && |slotQueue| == QUEUE_LEN
      modifies this`slotInUse, this`slotQueue, this`slotQueueRecycle, this`supply, this`held
      ensures slotInUse == if releaseSlot then old(slotInUse)[slotNumber := false] else old(slotInUse)
      ensures if refCount[slotNumber] == 0 && !slotInUse[slotNumber]
              then HandedBack(old(slotQueue), old(slotQueueRecycle), old(supply), old(held), slotNumber, k)
              else slotQueue == old(slotQueue) && slotQueueRecycle == old(slotQueueRecycle)
                   && supply == old(supply) && held == old(held)
    {
      if releaseSlot {
        slotInUse := slotInUse[slotNumber := false];
      }
      var curSlotRefCount := refCount[slotNumber];
      if curSlotRefCount == 0 && slotInUse[slotNumber] == false {
        slotQueue := slotQueue[slotQueueRecycle % QUEUE_LEN := slotNumber];
        slotQueueRecycle := slotQueueRecycle + 1;
        supply, held := supply + [slotNumber], held - {k};
      }
    }

    /** The `k`-th claimed slot has become the next entry of the slot queue. */
    ghost predicate HandedBack(queue: seq<nat>, recycle: nat, oldSupply: seq<nat>, oldHeld: set<nat>, s: nat, k: nat)
      requires |queue| == QUEUE_LEN
      reads this
    {
      && slotQueue == queue[recycle % QUEUE_LEN := s] && slotQueueRecycle == recycle + 1
      && supply == oldSupply + [s] && held == oldHeld - {k}
    }

    /** VchiqAddRefMsg. */
    method AddRefMsg(slotNumber: nat)
      requires slotNumber < |refCount|
      modifies this`refCount
      ensures refCount == old(refCount)[slotNumber := old(refCount)[slotNumber] + 1]
    {
      refCount := refCount[slotNumber := refCount[slotNumber] + 1];
    }

    /** VchiqReleaseMsg. */
    method ReleaseMsg(slotNumber: nat, ghost k: nat)
      requires slotNumber < |refCount| == |slotInUse| && |slotQueue| == QUEUE_LEN
      modifies this`refCount, this`slotInUse, this`slotQueue, this`slotQueueRecycle, this`supply, this`held
      ensures refCount == old(refCount)[slotNumber := old(refCount)[slotNumber] - 1]
      ensures slotInUse == old(slotInUse)
      ensures if refCount[slotNumber] == 0 && !slotInUse[slotNumber]
              then HandedBack(old(slotQueue), old(slotQueueRecycle), old(supply), old(held), slotNumber, k)
              else slotQueue == old(slotQueue) && slotQueueRecycle == old(slotQueueRecycle)
                   && supply == old(supply) && held == old(held)
    {
      refCount := refCount[slotNumber := refCount[slotNumber] - 1];
      RecycleSlot(slotNumber, false, k);
    }

    /** The handlers keep a message pending when it is data for an open port, or a bulk completion whose request could
        be retrieved; `refused` says that the retrieval or the list allocation failed. */
    static predicate Tracked(id: nat, size: nat, openPorts: set<nat>, refused: bool) {
      && id % 4096 in openPorts && !refused
      && ((MsgType(id) == MSG_DATA && size != 0) || MsgType(id) == MSG_BULK_RX_DONE || MsgType(id) == MSG_BULK_TX_DONE)
    }

    /** The first part of the loop body in VchiqProcessRxSlot: look the next message up in the receiver's current slot
        and give it to its handler, which perhaps adds it to the pending data list; `refused` tells for which ids it
        cannot. */
    method BeginMessage(openPorts: set<nat>, refused: nat -> bool)
      requires Valid() && entered == parsed && currentRxPos < txPos
      modifies this`hasCurrentSlot, this`masterCurrentSlotIndex, this`refCount, this`slotInUse, this`dataMsgs,
               this`received, this`entered
      ensures Valid() && entered == parsed + 1 <= |sent|
      ensures var r := sent[parsed];
              && received == old(received) + (if r.Message? then [Msg(r.id, r.payload)] else [])
              && dataMsgs.Keys == old(dataMsgs.Keys)
                   + (if Tracked(IdOf(r), SizeOf(r), openPorts, refused(IdOf(r))) then {parsed} else {})
    {
      hide ValidBut;
      OpenSlot();
      HeaderReadable();
      var off := currentRxPos % SLOT_SIZE;
      var id := ReadId(slots[masterCurrentSlotIndex], off);
      var size := ReadSize(slots[masterCurrentSlotIndex], off);
      if Tracked(id, size, openPorts, refused(id)) {
        AddPendingMsg(masterCurrentSlotIndex, off);
      } else {
        MorePointers();
      }
      Show(id, size, off);
    }

    /** The rest of the loop body: advance by the size in the header, and release the slot after its last message. */
    method EndMessage()
      requires Valid() && entered == parsed + 1
      modifies this`currentRxPos, this`hasCurrentSlot, this`parsed, this`slotInUse, this`slotQueue, this`slotQueueRecycle,
               this`supply, this`held
      ensures Valid() && parsed == old(parsed) + 1 && old(currentRxPos) < currentRxPos <= txPos
    {
      hide ValidBut;
      InHandler();
      HeaderReadable();
      Advance(ReadSize(slots[masterCurrentSlotIndex], currentRxPos % SLOT_SIZE));
    }

    /** One message, with what clients do while it is in its handler. */
    method ParseNext(openPorts: set<nat>, refused: bool, clients: seq<Client>) returns (taken: seq<(nat, Msg)>)
      requires Valid() && entered == parsed && currentRxPos < txPos
      modifies this`currentRxPos, this`hasCurrentSlot, this`masterCurrentSlotIndex, this`refCount, this`slotInUse,
               this`dataMsgs, this`vchiMsgs, this`entered, this`parsed, this`slotQueue, this`slotQueueRecycle,
               this`supply, this`held, this`received
      ensures Valid() && entered == parsed == old(parsed) + 1 <= |sent|
      ensures old(currentRxPos) < currentRxPos <= txPos
      ensures var r := sent[old(parsed)];
              && received == old(received) + (if r.Message? then [Msg(r.id, r.payload)] else [])
              && dataMsgs.Keys == old(dataMsgs.Keys)
                   + (if Tracked(IdOf(r), SizeOf(r), openPorts, refused) then {old(parsed)} else {}) - TakeKeys(clients)
      ensures AsSent(taken)
    {
      hide ValidBut;
      BeginMessage(openPorts, id => refused);
      taken := Serve(clients);
      EndMessage();
    }

    /** What clients have taken is what the writer put there. */
    ghost predicate AsSent(taken: seq<(nat, Msg)>)
      reads this`sent
    {
      forall i | 0 <= i < |taken| :: taken[i].0 < |sent| && sent[taken[i].0].Message?
        && taken[i].1 == Msg(sent[taken[i].0].id, sent[taken[i].0].payload)
    }

    /** Clients take entries out of the pending lists, between messages or while one is in its handler. */
    method Serve(clients: seq<Client>) returns (taken: seq<(nat, Msg)>)
      requires Valid()
      modifies this`dataMsgs, this`vchiMsgs, this`refCount, this`slotInUse, this`slotQueue, this`slotQueueRecycle,
               this`supply, this`held
      ensures Valid() && AsSent(taken) && dataMsgs.Keys == old(dataMsgs.Keys) - TakeKeys(clients)
    {
      hide ValidTo;
      taken := [];
      var i := 0;
      while i < |clients|
        invariant i <= |clients| && Valid() && AsSent(taken)
        invariant dataMsgs.Keys == old(dataMsgs.Keys) - TakeKeys(clients[..i])
      {
        TakeKeysNext(clients, i);
        match clients[i] {
          case Take(key, isVchi, kept) =>
            if key in dataMsgs {
              var msg := RemovePendingMsg(key, isVchi, kept);
              taken := taken + [(key, msg)];
            }
          case Dequeue(key) =>
            if key in vchiMsgs {
              var msg := RemovePendingVchiMsg(key);
              taken := taken + [(key, msg)];
            }
        }
        i := i + 1;
      }
      assert clients[..|clients|] == clients;
    }

    /** The handlers see the header and, behind it, the payload; padding has no handler. */
    method Show(id: nat, size: nat, off: nat)
      requires ValidWith(currentTxPos, parsed + 1) && parsed < published && hasCurrentSlot
      requires masterCurrentSlotIndex < |slots| && Stored(slots[masterCurrentSlotIndex], sent[parsed])
      requires off == sent[parsed].off && id == IdOf(sent[parsed]) && size == SizeOf(sent[parsed]) && WellPlaced(sent[parsed])
      modifies this`received, this`entered
      ensures Valid() && entered == parsed + 1
      ensures var r := sent[parsed];
              received == old(received) + (if r.Message? then [Msg(r.id, r.payload)] else [])
    {
      hide Ring, Memory, KeptForReference, Pointers, Writer, Reader, Counts, Stream;
      ShowNext(sent, parsed);
      if MsgType(id) != MSG_PADDING {
        received := received + [Msg(id, slots[masterCurrentSlotIndex][off + HEADER_SIZE..off + HEADER_SIZE + size])];
      }
      entered := parsed + 1;
    }

    /** Inside a handler the message is still ahead of the position. */
    lemma InHandler()
      requires Valid() && entered == parsed + 1
      ensures currentRxPos < txPos && Handled()
    {
      hide Ring, Memory, KeptForReference, Pointers, Writer, Counts;
      WriterStreamTo();
      PosGrows(sent, parsed, published);
    }

    lemma WriterStreamTo()
      requires Valid()
      ensures Stream(sent)
    {
    }

    /** The header the receiver is about to read is the one the writer wrote for this record. */
    lemma HeaderReadable()
      requires Valid() && currentRxPos < txPos && hasCurrentSlot
      ensures parsed < published <= |sent| && masterCurrentSlotIndex < |slots| == |refCount|
      ensures var off := currentRxPos % SLOT_SIZE;
              && off == sent[parsed].off && off + HEADER_SIZE <= |slots[masterCurrentSlotIndex]|
              && ReadId(slots[masterCurrentSlotIndex], off) == IdOf(sent[parsed])
              && ReadSize(slots[masterCurrentSlotIndex], off) == SizeOf(sent[parsed])
              && Stored(slots[masterCurrentSlotIndex], sent[parsed])
      ensures WellPlaced(sent[parsed])
    {
      NextSlotReadable();
      hide Ring, KeptForReference, Pointers, Counts, Writer;
    }

    /** VCHIQ_GET_NEXT_RX_SLOT_INDEX when no slot is open. */
    method OpenSlot()
      requires Valid() && currentRxPos < txPos
      modifies this`hasCurrentSlot, this`masterCurrentSlotIndex, this`slotInUse
      ensures Valid() && hasCurrentSlot
    {
      hide Ring, Memory, KeptForReference, Pointers, Writer, Reader, Counts;
      if !hasCurrentSlot {
        OpenKeeps();
        masterCurrentSlotIndex := slotQueue[(currentRxPos / SLOT_SIZE) % QUEUE_LEN];
        hasCurrentSlot := true;
        slotInUse := slotInUse[masterCurrentSlotIndex := true];
      }
    }

    lemma OpenKeeps()
      requires Valid() && currentRxPos < txPos && !hasCurrentSlot
      ensures |slotQueue| == QUEUE_LEN
      ensures var s := slotQueue[(currentRxPos / SLOT_SIZE) % QUEUE_LEN];
              && s < |slotInUse|
              && Reader(sent, supply, Claims(), held, parsed, currentRxPos, true, s)
              && Counts(refCount, slotInUse[s := true], dataMsgs.Keys, vchiMsgs.Keys, sent, supply, held, true, s)
    {
      hide On;
      NextSlotReadable();
      hide Ring, Memory, KeptForReference, Pointers, Writer;
    }

    lemma NextSlotReadable()
      requires Valid() && currentRxPos < txPos
      ensures parsed < published && currentRxPos == PosOf(sent[parsed]) && WellPlaced(sent[parsed])
      ensures sent[parsed].k == currentRxPos / SLOT_SIZE < Claims() && sent[parsed].off == currentRxPos % SLOT_SIZE
      ensures currentRxPos / SLOT_SIZE in held && currentRxPos / SLOT_SIZE < |supply|
      ensures |slotQueue| == QUEUE_LEN
      ensures slotQueue[(currentRxPos / SLOT_SIZE) % QUEUE_LEN] == supply[currentRxPos / SLOT_SIZE] < |slots|
      ensures hasCurrentSlot ==> masterCurrentSlotIndex == supply[currentRxPos / SLOT_SIZE]
    {
      hide Memory, KeptForReference, Pointers, Counts, Ring;
      assert WellPlaced(sent[parsed]);
      HeldEntryReadable(slotFirst, slotLast, slotQueue, supply, Claims(), held, currentRxPos / SLOT_SIZE, currentRxPos / SLOT_SIZE);
    }

    /** VchiqAddPendingMsg for the message at hand: a list entry and a reference to its slot. */
    method AddPendingMsg(slotNumber: nat, off: nat)
      requires Valid() && entered == parsed && currentRxPos < txPos && hasCurrentSlot && parsed < |sent| && sent[parsed].Message?
      requires slotNumber == masterCurrentSlotIndex && off == currentRxPos % SLOT_SIZE
      modifies this`dataMsgs, this`refCount
      ensures ValidWith(currentTxPos, parsed + 1)
      ensures dataMsgs == old(dataMsgs)[parsed := MsgRef(slotNumber, off)]
    {
      hide Ring, Memory, KeptForReference, Pointers, Writer, Reader, Counts;
      AddPendingKeeps();
      dataMsgs := dataMsgs[parsed := MsgRef(slotNumber, off)];
      AddRefMsg(slotNumber);
    }

    lemma AddPendingKeeps()
      requires Valid() && entered == parsed && currentRxPos < txPos && hasCurrentSlot && parsed < |sent| && sent[parsed].Message?
      ensures masterCurrentSlotIndex < |refCount| && parsed !in dataMsgs.Keys && parsed !in vchiMsgs.Keys
      ensures dataMsgs[parsed := MsgRef(masterCurrentSlotIndex, currentRxPos % SLOT_SIZE)].Keys == dataMsgs.Keys + {parsed}
      ensures Pointers(dataMsgs[parsed := MsgRef(masterCurrentSlotIndex, currentRxPos % SLOT_SIZE)], sent, supply, held, parsed + 1)
      ensures Pointers(vchiMsgs, sent, supply, held, parsed + 1)
      ensures Counts(refCount[masterCurrentSlotIndex := refCount[masterCurrentSlotIndex] + 1], slotInUse,
                     dataMsgs.Keys + {parsed}, vchiMsgs.Keys, sent, supply, held, hasCurrentSlot, masterCurrentSlotIndex)
      ensures KeptForReference(dataMsgs.Keys + {parsed}, vchiMsgs.Keys, sent, held, currentRxPos)
    {
      hide Ring, Counts, Memory, Writer, KeptForReference, Reader, On;
      NextSlotReadable();
      AddPointer(dataMsgs, sent, supply, held, parsed, masterCurrentSlotIndex, currentRxPos % SLOT_SIZE);
      AddPointer(vchiMsgs, sent, supply, held, parsed, masterCurrentSlotIndex, currentRxPos % SLOT_SIZE);
      AddRefKeepsCounts(refCount, slotInUse, dataMsgs.Keys, vchiMsgs.Keys, sent, supply, held, hasCurrentSlot,
                        masterCurrentSlotIndex, slotFirst, slotLast, slotQueue, Claims(), parsed, false);
      MoreKept(dataMsgs.Keys, vchiMsgs.Keys, sent, held, currentRxPos, parsed);
    }

    lemma MorePointers()
      requires Valid() && entered == parsed < |sent|
      ensures ValidWith(currentTxPos, parsed + 1)
    {
      hide Ring, Counts, Memory, Writer, Reader, KeptForReference;
    }

    /** Everything but the count of parsed messages is as it is between two messages. */
    ghost predicate Handled()
      reads this
    {
      && parsed < published && hasCurrentSlot && currentRxPos < txPos
      && ValidBut(currentTxPos, parsed + 1, parsed + 1)
    }

    /** The position moves behind the message; after the last message of a slot the slot is released. */
    method Advance(size: nat)
      requires Handled() && entered == parsed + 1 && size == SizeOf(sent[parsed])
      modifies this`currentRxPos, this`hasCurrentSlot, this`parsed, this`slotInUse, this`slotQueue, this`slotQueueRecycle,
               this`supply, this`held
      ensures Valid() && parsed == old(parsed) + 1 && currentRxPos == old(currentRxPos) + AlignUp(size + HEADER_SIZE) <= txPos
    {
      hide Ring, Memory, KeptForReference, Pointers, Writer, Reader, Counts, PosAt, MsgsOf, AlignUp;
      AdvanceFacts();
      if (currentRxPos + AlignUp(size + HEADER_SIZE)) % SLOT_SIZE == 0 {
        FinishSlot(size);
      } else {
        InSlotKeeps();
        currentRxPos := currentRxPos + AlignUp(size + HEADER_SIZE);
        parsed := parsed + 1;
      }
    }

    method FinishSlot(size: nat)
      requires Handled() && entered == parsed + 1 && size == SizeOf(sent[parsed]) && (currentRxPos + Span(sent[parsed])) % SLOT_SIZE == 0
      modifies this`currentRxPos, this`hasCurrentSlot, this`parsed, this`slotInUse, this`slotQueue, this`slotQueueRecycle,
               this`supply, this`held
      ensures Valid() && parsed == old(parsed) + 1 && currentRxPos == old(currentRxPos) + AlignUp(size + HEADER_SIZE)
    {
      hide Ring, Memory, KeptForReference, Pointers, Writer, Reader, Counts, PosAt, EndOf, MsgsOf, AlignUp;
      AdvanceFacts();
      SlotFinishedKeeps();
      ghost var k := currentRxPos / SLOT_SIZE;
      currentRxPos := currentRxPos + AlignUp(size + HEADER_SIZE);
      parsed := parsed + 1;
      RecycleSlot(masterCurrentSlotIndex, true, k);
      hasCurrentSlot := false;
    }

    lemma AdvanceFacts()
      requires Handled()
      ensures masterCurrentSlotIndex < |refCount| == |slotInUse| && |slotQueue| == QUEUE_LEN
      ensures currentRxPos + Span(sent[parsed]) == PosAt(sent, parsed + 1) <= txPos
      ensures currentRxPos / SLOT_SIZE in held && currentRxPos / SLOT_SIZE < |supply|
      ensures masterCurrentSlotIndex == supply[currentRxPos / SLOT_SIZE]
    {
      hide Memory, KeptForReference, Pointers;
      NextPos(sent, parsed);
      PosGrows(sent, parsed + 1, published);
    }

    lemma InSlotKeeps()
      requires Handled() && (currentRxPos + Span(sent[parsed])) % SLOT_SIZE != 0
      ensures Reader(sent, supply, Claims(), held, parsed + 1, currentRxPos + Span(sent[parsed]), true, masterCurrentSlotIndex)
      ensures KeptForReference(dataMsgs.Keys, vchiMsgs.Keys, sent, held, currentRxPos + Span(sent[parsed]))
    {
      hide Ring, Memory, Pointers, Counts, Reader, Stream;
      MoveInSlot(sent, supply, Claims(), held, parsed, currentRxPos, masterCurrentSlotIndex);
    }

    lemma SlotFinishedKeeps()
      requires Handled() && (currentRxPos + Span(sent[parsed])) % SLOT_SIZE == 0
      ensures masterCurrentSlotIndex < |refCount| == |slotInUse|
      ensures var rxPos, s, k := currentRxPos + Span(sent[parsed]), masterCurrentSlotIndex, currentRxPos / SLOT_SIZE;
              if refCount[s] == 0
              then && AfterHandBack(k, s, slotInUse[s := false], dataMsgs, vchiMsgs, refCount, parsed + 1, false)
                   && Reader(sent, supply + [s], Claims(), held - {k}, parsed + 1, rxPos, false, s)
                   && KeptForReference(dataMsgs.Keys, vchiMsgs.Keys, sent, held - {k}, rxPos)
              else && Reader(sent, supply, Claims(), held, parsed + 1, rxPos, false, s)
                   && KeptForReference(dataMsgs.Keys, vchiMsgs.Keys, sent, held, rxPos)
                   && Counts(refCount, slotInUse[s := false], dataMsgs.Keys, vchiMsgs.Keys, sent, supply, held, false, s)
    {
      hide Ring, Memory, Pointers, Counts, Reader, Stream, KeptForReference, Writer;
      AdvanceFacts();
      WriterStream();
      var rxPos, s, k := currentRxPos + Span(sent[parsed]), masterCurrentSlotIndex, currentRxPos / SLOT_SIZE;
      MoveToNextSlot(sent, supply, Claims(), held, parsed, currentRxPos, s, s);
      NoLongerInUse(refCount, slotInUse, dataMsgs.Keys, vchiMsgs.Keys, sent, supply, held, s, k);
      KeptAfterSlot(dataMsgs.Keys, vchiMsgs.Keys, sent, held, currentRxPos, rxPos, k);
      if refCount[s] == 0 {
        HandBackKeeps(k, s, slotInUse[s := false], dataMsgs, vchiMsgs, refCount, parsed + 1, false);
      }
    }

    /** The parts of the invariant that do not mention the receive position, once slot `s`, the `k`-th claimed, has
        been handed back. */
    ghost predicate AfterHandBack(k: nat, s: nat, inUse: seq<bool>, data: map<nat, MsgRef>, vchi: map<nat, MsgRef>,
                                  refs: seq<int>, seen: nat, hasSlot: bool)
      reads this
    {
      && |slotQueue| == QUEUE_LEN && |supply| == slotQueueRecycle
      && Ring(slotFirst, slotLast, slotQueue[slotQueueRecycle % QUEUE_LEN := s], supply + [s], Claims(), held - {k})
      && Memory(slots, sent, supply + [s], held - {k})
      && Writer(sent, supply + [s], Claims(), currentTxPos, slaveCurrentSlot, availableTxSlot, recycleTxSlotIndex)
      && Pointers(data, sent, supply + [s], held - {k}, seen)
      && Pointers(vchi, sent, supply + [s], held - {k}, seen)
      && Counts(refs, inUse, data.Keys, vchi.Keys, sent, supply + [s], held - {k}, hasSlot, masterCurrentSlotIndex)
    }

    lemma HandBackKeeps(k: nat, s: nat, inUse: seq<bool>, data: map<nat, MsgRef>, vchi: map<nat, MsgRef>,
                        refs: seq<int>, seen: nat, hasSlot: bool)
      requires k in held && k < |supply| == slotQueueRecycle && s == supply[k] < |refs| && refs[s] == 0
      requires Ring(slotFirst, slotLast, slotQueue, supply, Claims(), held)
      requires Memory(slots, sent, supply, held)
      requires Writer(sent, supply, Claims(), currentTxPos, slaveCurrentSlot, availableTxSlot, recycleTxSlotIndex)
      requires Pointers(data, sent, supply, held, seen) && Pointers(vchi, sent, supply, held, seen)
      requires Counts(refs, inUse, data.Keys, vchi.Keys, sent, supply, held, hasSlot, masterCurrentSlotIndex)
      ensures AfterHandBack(k, s, inUse, data, vchi, refs, seen, hasSlot)
    {
      RingShape(slotFirst, slotLast, slotQueue, supply, Claims(), held);
      hide Ring, Memory, Writer, Pointers, Counts, On;
      RecycleKeepsRing(slotFirst, slotLast, slotQueue, supply, Claims(), held, k);
      RecycleKeepsCounts(refs, inUse, data.Keys, vchi.Keys, sent, supply, held, hasSlot, masterCurrentSlotIndex, k, s);
      RecycleKeepsRest(slots, sent, supply, held, Claims(), data, vchi, seen, currentTxPos, slaveCurrentSlot,
                       availableTxSlot, recycleTxSlotIndex, k, s);
    }

    /** VchiqProcessRxSlot: parse everything that has been published.  `clients` says what clients do while a message is
        in its handler. */
    method ProcessRxSlot(openPorts: set<nat>, refused: set<nat>, clients: nat -> seq<Client>) returns (taken: seq<(nat, Msg)>)
      requires Valid() && entered == parsed
      modifies this`currentRxPos, this`hasCurrentSlot, this`masterCurrentSlotIndex, this`refCount, this`slotInUse,
               this`dataMsgs, this`vchiMsgs, this`entered, this`parsed, this`slotQueue, this`slotQueueRecycle,
               this`supply, this`held, this`received
      ensures Valid() && entered == parsed == published && AsSent(taken)
      ensures published == |sent| ==> received == queued
      ensures dataMsgs.Keys <= old(dataMsgs.Keys) + Arrivals(openPorts, refused, old(parsed), parsed)
      ensures (forall i :: TakeKeys(clients(i)) == {})
              ==> dataMsgs.Keys == old(dataMsgs.Keys) + Arrivals(openPorts, refused, old(parsed), parsed)
    {
      hide ValidBut;
      SentCoversParsed();
      taken := [];
      while currentRxPos < txPos
        invariant Valid() && old(parsed) <= parsed == entered <= |sent| && AsSent(taken)
        invariant dataMsgs.Keys <= old(dataMsgs.Keys) + Arrivals(openPorts, refused, old(parsed), parsed)
        invariant (forall i :: TakeKeys(clients(i)) == {})
                  ==> dataMsgs.Keys == old(dataMsgs.Keys) + Arrivals(openPorts, refused, old(parsed), parsed)
        decreases txPos - currentRxPos
      {
        var more := ParseNext(openPorts, parsed in refused, clients(parsed));
        taken := taken + more;
      }
      AllParsed();
    }

    /** The messages among those numbered from `lo` to `hi` that are put into the data list. */
    ghost function Arrivals(openPorts: set<nat>, refused: set<nat>, lo: nat, hi: nat): set<nat>
      requires hi <= |sent|
      reads this`sent
    {
      set i | lo <= i < hi && Tracked(IdOf(sent[i]), SizeOf(sent[i]), openPorts, i in refused)
    }

    lemma SentCoversParsed()
      requires Valid()
      ensures parsed <= |sent|
    {
    }

    lemma AllParsed()
      requires Valid() && currentRxPos >= txPos
      ensures parsed == published
      ensures published == |sent| ==> received == queued
    {
      hide Ring, Memory, Counts, KeptForReference, Pointers;
      PosGrows(sent, parsed, published);
      assert sent[..|sent|] == sent;
    }

    /** What taking entry `key` out of its list leaves behind. */
    ghost predicate AfterTake(key: nat, data: map<nat, MsgRef>, vchi: map<nat, MsgRef>, refs: seq<int>)
      requires key < |sent| && sent[key].k < |supply|
      reads this
    {
      var k := sent[key].k;
      var s := supply[k];
      && data.Keys !! vchi.Keys && |slotQueue| == QUEUE_LEN && s < |slotInUse| == |refs|
      && if refs[s] == 0 && !slotInUse[s]
         then && AfterHandBack(k, s, slotInUse, data, vchi, refs, entered, hasCurrentSlot)
              && Reader(sent, supply + [s], Claims(), held - {k}, parsed, currentRxPos, hasCurrentSlot, masterCurrentSlotIndex)
              && KeptForReference(data.Keys, vchi.Keys, sent, held - {k}, currentRxPos)
         else && Pointers(data, sent, supply, held, entered) && Pointers(vchi, sent, supply, held, entered)
              && Counts(refs, slotInUse, data.Keys, vchi.Keys, sent, supply, held, hasCurrentSlot, masterCurrentSlotIndex)
              && KeptForReference(data.Keys, vchi.Keys, sent, held, currentRxPos)
    }

    /** A pending pointer still reads the message the writer queued, and its slot has not been handed back. */
    lemma PointerReadable(key: nat)
      requires Valid() && (key in dataMsgs || key in vchiMsgs)
      ensures key < entered <= |sent| && sent[key].Message? && sent[key].k in held && sent[key].k < |supply|
      ensures var ref := if key in dataMsgs then dataMsgs[key] else vchiMsgs[key];
              && ref == MsgRef(supply[sent[key].k], sent[key].off) && ref.slot < |slots| == |refCount| == |slotInUse|
              && Stored(slots[ref.slot], sent[key])
    {
      hide Ring, Writer, Reader, KeptForReference, Stream;
    }

    lemma TakeKeeps(key: nat, data: map<nat, MsgRef>, vchi: map<nat, MsgRef>, refs: seq<int>)
      requires Valid() && (key in dataMsgs || key in vchiMsgs)
      requires key < |sent| && sent[key].k in held && sent[key].k < |supply|
      requires data.Keys !! vchi.Keys && dataMsgs.Keys - {key} <= data.Keys && vchiMsgs.Keys - {key} <= vchi.Keys
      requires Pointers(data, sent, supply, held, entered) && Pointers(vchi, sent, supply, held, entered)
      requires Counts(refs, slotInUse, data.Keys, vchi.Keys, sent, supply, held, hasCurrentSlot, masterCurrentSlotIndex)
      ensures AfterTake(key, data, vchi, refs)
    {
      PointerReadable(key);
      RingShape(slotFirst, slotLast, slotQueue, supply, Claims(), held);
      hide Ring, Writer, Memory, Counts, KeptForReference, Stream, Pointers, Reader, On;
      var k := sent[key].k;
      var s := supply[k];
      CountMeansEntry(refs, slotInUse, data.Keys, vchi.Keys, sent, supply, held, hasCurrentSlot, masterCurrentSlotIndex, k);
      WriterStream();
      ParsedBehind(sent, supply, Claims(), held, parsed, currentRxPos, hasCurrentSlot, masterCurrentSlotIndex, key);
      TakeKeepsKept(dataMsgs.Keys, vchiMsgs.Keys, data.Keys, vchi.Keys, sent, held, currentRxPos, key);
      if refs[s] == 0 && !slotInUse[s] {
        HandBackKeeps(k, s, slotInUse, data, vchi, refs, entered, hasCurrentSlot);
        HandBackKeepsReader(k, s);
      }
    }

    lemma HandBackKeepsReader(k: nat, s: nat)
      requires Reader(sent, supply, Claims(), held, parsed, currentRxPos, hasCurrentSlot, masterCurrentSlotIndex)
      requires k < currentRxPos / SLOT_SIZE
      ensures Reader(sent, supply + [s], Claims(), held - {k}, parsed, currentRxPos, hasCurrentSlot, masterCurrentSlotIndex)
    {
    }

    /** The parts of the invariant that do not mention the pending lists. */
    ghost predicate RestValid()
      reads this
    {
      && slotLast < |slots| && |refCount| == |slots| && |supply| == slotQueueRecycle && currentTxPos == EndOf(sent)
      && Ring(slotFirst, slotLast, slotQueue, supply, Claims(), held)
      && Memory(slots, sent, supply, held)
      && Writer(sent, supply, Claims(), currentTxPos, slaveCurrentSlot, availableTxSlot, recycleTxSlotIndex)
      && Reader(sent, supply, Claims(), held, parsed, currentRxPos, hasCurrentSlot, masterCurrentSlotIndex)
      && parsed <= published <= |sent| && txPos == PosAt(sent, published)
      && queued == MsgsOf(sent) && entered <= |sent| && received == MsgsOf(sent[..entered])
      && parsed <= entered <= parsed + 1 && (entered > parsed ==> parsed < published && hasCurrentSlot)
    }

    /** An entry has left its list: its reference goes, and with the last one the slot. */
    method DropReference(key: nat, slot: nat)
      requires RestValid() && key < |sent| && sent[key].k < |supply| && slot == supply[sent[key].k] < |refCount|
      requires AfterTake(key, dataMsgs, vchiMsgs, refCount[slot := refCount[slot] - 1])
      modifies this`refCount, this`slotInUse, this`slotQueue, this`slotQueueRecycle, this`supply, this`held
      ensures Valid()
    {
      hide Ring, Writer, Memory, Counts, KeptForReference, Pointers, Reader, MsgsOf, PosAt, EndOf;
      ReleaseMsg(slot, sent[key].k);
    }

    /** VchiqRemovePendingMsg for one entry: copy the message out, track a DATA message of a VCHI service again, and
        drop the reference. */
    method RemovePendingMsg(key: nat, isVchi: bool, kept: bool) returns (msg: Msg)
      requires Valid() && key in dataMsgs
      modifies this`dataMsgs, this`vchiMsgs, this`refCount, this`slotInUse, this`slotQueue, this`slotQueueRecycle,
               this`supply, this`held
      ensures Valid()
      ensures key < |sent| && sent[key].Message? && msg == Msg(sent[key].id, sent[key].payload)
      ensures dataMsgs == old(dataMsgs) - {key}
      ensures vchiMsgs == if isVchi && kept && MsgType(msg.id) == MSG_DATA then old(vchiMsgs)[key := old(dataMsgs)[key]]
                          else old(vchiMsgs)
    {
      hide Ring, Writer, Memory, Counts, KeptForReference, Pointers, Reader, MsgsOf, PosAt, EndOf;
      var ref := dataMsgs[key];
      msg := CopyMessage(key, ref);
      TakeOut(key, ref, isVchi && kept && MsgType(msg.id) == MSG_DATA);
    }

    /** The message an entry points to. */
    method CopyMessage(key: nat, ref: MsgRef) returns (msg: Msg)
      requires Valid() && ((key in dataMsgs && ref == dataMsgs[key]) || (key in vchiMsgs && ref == vchiMsgs[key]))
      ensures key < |sent| && sent[key].Message? && msg == Msg(sent[key].id, sent[key].payload)
    {
      hide Ring, Writer, Memory, Counts, KeptForReference, Pointers, Reader, MsgsOf, PosAt, EndOf;
      PointerReadable(key);
      var id := ReadId(slots[ref.slot], ref.off);
      var size := ReadSize(slots[ref.slot], ref.off);
      msg := Msg(id, slots[ref.slot][ref.off + HEADER_SIZE..ref.off + HEADER_SIZE + size]);
    }

    /** An entry leaves the data list, for the VCHI list or for good. */
    method TakeOut(key: nat, ref: MsgRef, toVchi: bool)
      requires Valid() && key in dataMsgs && ref == dataMsgs[key]
      modifies this`dataMsgs, this`vchiMsgs, this`refCount, this`slotInUse, this`slotQueue, this`slotQueueRecycle,
               this`supply, this`held
      ensures Valid() && dataMsgs == old(dataMsgs) - {key}
      ensures vchiMsgs == if toVchi then old(vchiMsgs)[key := ref] else old(vchiMsgs)
    {
      hide Ring, Writer, Memory, Counts, KeptForReference, Pointers, Reader, MsgsOf, PosAt, EndOf;
      EntrySlot(key);
      MoveKeeps(key, toVchi);
      dataMsgs := dataMsgs - {key};
      if toVchi {
        vchiMsgs := vchiMsgs[key := ref];
        AddRefMsg(ref.slot);
      }
      DropReference(key, ref.slot);
    }

    lemma EntrySlot(key: nat)
      requires Valid() && (key in dataMsgs || key in vchiMsgs)
      ensures key < |sent| && sent[key].k < |supply| && supply[sent[key].k] < |refCount|
      ensures key in dataMsgs ==> dataMsgs[key].slot == supply[sent[key].k]
      ensures key in vchiMsgs ==> vchiMsgs[key].slot == supply[sent[key].k]
    {
      hide Ring, Writer, Memory, Counts, KeptForReference, Pointers, Reader, MsgsOf, PosAt, EndOf;
      PointerReadable(key);
    }

    lemma KeysApart(key: nat)
      requires Valid()
      ensures dataMsgs.Keys !! vchiMsgs.Keys
      ensures key in dataMsgs ==> dataMsgs.Keys - {key} !! vchiMsgs.Keys + {key}
    {
    }

    lemma MoveKeeps(key: nat, toVchi: bool)
      requires Valid() && key in dataMsgs
      ensures key < |sent| && sent[key].k < |supply| && supply[sent[key].k] < |refCount|
      ensures var s := supply[sent[key].k];
              var refs := if toVchi then refCount[s := refCount[s] + 1] else refCount;
              AfterTake(key, dataMsgs - {key}, if toVchi then vchiMsgs[key := dataMsgs[key]] else vchiMsgs,
                        refs[s := refs[s] - 1])
    {
      hide Ring, Writer, Memory, Counts, KeptForReference, Stream, Pointers, Reader, On, AfterTake;
      PointerReadable(key);
      KeysApart(key);
      var s := supply[sent[key].k];
      var vchi := if toVchi then vchiMsgs[key := dataMsgs[key]] else vchiMsgs;
      assert vchi.Keys == if toVchi then vchiMsgs.Keys + {key} else vchiMsgs.Keys;
      assert (dataMsgs - {key}).Keys == dataMsgs.Keys - {key};
      TakePointers(dataMsgs, sent, supply, held, entered, key, dataMsgs[key]);
      TakePointers(vchiMsgs, sent, supply, held, entered, key, dataMsgs[key]);
      var refs := refCount;
      if toVchi {
        AddRefKeepsCounts(refCount, slotInUse, dataMsgs.Keys, vchiMsgs.Keys, sent, supply, held, hasCurrentSlot,
                          masterCurrentSlotIndex, slotFirst, slotLast, slotQueue, Claims(), key, true);
        refs := refCount[s := refCount[s] + 1];
      }
      ReleaseKeepsCounts(refs, slotInUse, dataMsgs.Keys, vchi.Keys, sent, supply, held, hasCurrentSlot,
                         masterCurrentSlotIndex, slotFirst, slotLast, slotQueue, Claims(), key, false);
      TakeKeeps(key, dataMsgs - {key}, vchi, refs[s := refs[s] - 1]);
    }

    /** VchiqRemovePendingVchiMsg for one entry. */
    method RemovePendingVchiMsg(key: nat) returns (msg: Msg)
      requires Valid() && key in vchiMsgs
      modifies this`vchiMsgs, this`refCount, this`slotInUse, this`slotQueue, this`slotQueueRecycle, this`supply, this`held
      ensures Valid()
      ensures key < |sent| && sent[key].Message? && msg == Msg(sent[key].id, sent[key].payload)
      ensures vchiMsgs == old(vchiMsgs) - {key}
    {
      hide Ring, Writer, Memory, Counts, KeptForReference, Pointers, Reader, MsgsOf, PosAt, EndOf;
      var ref := vchiMsgs[key];
      msg := CopyMessage(key, ref);
      EntrySlot(key);
      DequeueKeeps(key);
      vchiMsgs := vchiMsgs - {key};
      DropReference(key, ref.slot);
    }

    lemma DequeueKeeps(key: nat)
      requires Valid() && key in vchiMsgs
      ensures key < |sent| && sent[key].k < |supply| && supply[sent[key].k] < |refCount|
      ensures var s := supply[sent[key].k];
              AfterTake(key, dataMsgs, vchiMsgs - {key}, refCount[s := refCount[s] - 1])
    {
      hide Ring, Writer, Memory, Counts, KeptForReference, Stream, Pointers, Reader, On, AfterTake;
      PointerReadable(key);
      KeysApart(key);
      var s := supply[sent[key].k];
      assert (vchiMsgs - {key}).Keys == vchiMsgs.Keys - {key};
      TakePointers(vchiMsgs, sent, supply, held, entered, key, vchiMsgs[key]);
      ReleaseKeepsCounts(refCount, slotInUse, dataMsgs.Keys, vchiMsgs.Keys, sent, supply, held, hasCurrentSlot,
                         masterCurrentSlotIndex, slotFirst, slotLast, slotQueue, Claims(), key, true);
      TakeKeeps(key, dataMsgs, vchiMsgs - {key}, refCount[s := refCount[s] - 1]);
    }

    // ---------- what the invariant says ----------

    /** Transmit-slot conservation.  Tokens pay for exactly the queue entries that have come back and not been
        claimed; all slots of the range but one are either waiting in the queue or with the receiver; and no entry
        that can still be claimed has been overwritten. */
    lemma Conservation()
      requires Valid()
      ensures availableTxSlot + (currentTxPos + SLOT_SIZE - 1) / SLOT_SIZE == recycleTxSlotIndex <= slotQueueRecycle
      ensures availableTxSlot <= slotLast - slotFirst
      ensures |held| + (slotQueueRecycle - Claims()) == slotLast - slotFirst
      ensures forall j | Claims() <= j < slotQueueRecycle ::
                |slotQueue| == QUEUE_LEN && |supply| == slotQueueRecycle && slotQueue[j % QUEUE_LEN] == supply[j]
                && slotFirst <= supply[j] < slotLast && (forall k | k in held :: k < |supply| && supply[k] != supply[j])
    {
      hide Memory, Counts, KeptForReference, Pointers, Reader, Stream;
      forall j, k | Claims() <= j < slotQueueRecycle && k in held ensures supply[k] != supply[j] {
        assert Live(supply, Claims(), held, j) && Live(supply, Claims(), held, k);
      }
      forall j | Claims() <= j < slotQueueRecycle ensures slotFirst <= supply[j] < slotLast {
        assert Live(supply, Claims(), held, j);
      }
    }

    /** A claimed slot has been handed back if and only if the position has moved past its end and no pending entry
        refers to it; all its messages have then been parsed. */
    lemma HandedBackExactly(k: nat)
      requires Valid() && k < Claims()
      ensures k !in held <==>
                && (k + 1) * SLOT_SIZE <= currentRxPos
                && (forall r | r in dataMsgs || r in vchiMsgs :: r < |sent| && sent[r].k != k)
      ensures k !in held ==> forall i | 0 <= i < |sent| && sent[i].k == k :: i < parsed
    {
      hide Ring, Memory, Counts, MsgsOf;
      if k in held {
        if k < currentRxPos / SLOT_SIZE {
          var r :| r in On(dataMsgs.Keys, sent, k) + On(vchiMsgs.Keys, sent, k);
          assert r in dataMsgs || r in vchiMsgs;
        }
      } else {
        assert k < currentRxPos / SLOT_SIZE;
        forall i | 0 <= i < |sent| && sent[i].k == k ensures i < parsed {
          assert WellPlaced(sent[i]);
          if parsed <= i {
            PosGrows(sent, parsed, i);
          }
        }
      }
    }

    /** The last slot of the range, put into the slot queue at the start, is never handed out. */
    lemma LastSlotNeverHandedOut()
      requires Valid()
      ensures forall k | k in held :: k < |supply| && supply[k] != slotLast
      ensures currentTxPos % SLOT_SIZE != 0 ==> slaveCurrentSlot != slotLast
      ensures forall r | r in dataMsgs :: dataMsgs[r].slot != slotLast
      ensures forall r | r in vchiMsgs :: vchiMsgs[r].slot != slotLast
    {
      hide Memory, Counts, KeptForReference, Reader, Stream;
      forall k | k in held ensures k < |supply| && supply[k] != slotLast {
        assert Live(supply, Claims(), held, k);
      }
      if currentTxPos % SLOT_SIZE != 0 {
        CurrentSlotHeld();
      }
    }

    /** Receive-slot reference counting: a slot's count is the number of pending entries that name it. */
    lemma RefCountIsEntries(x: nat)
      requires Valid() && x < |refCount|
      ensures refCount[x] == |Naming(dataMsgs, x)| + |Naming(vchiMsgs, x)|
    {
      SupplyInjective(slotFirst, slotLast, slotQueue, supply, Claims(), held);
      hide Ring, Memory, KeptForReference, Reader, Writer, On, Pointers, Naming;
      if k :| k in held && supply[k] == x {
        NamingIsOn(dataMsgs, sent, supply, held, entered, x, k);
        NamingIsOn(vchiMsgs, sent, supply, held, entered, x, k);
      } else {
        NamingNothing(dataMsgs, sent, supply, held, entered, x);
        NamingNothing(vchiMsgs, sent, supply, held, entered, x);
      }
    }

    /** The receiver has been shown a prefix of what was queued, and all of it once everything published is parsed. */
    lemma ReceivedIsPrefix()
      requires Valid()
      ensures received <= queued
      ensures parsed == |sent| ==> received == queued
    {
      hide Ring, Memory, Counts, KeptForReference, Reader, Writer, Pointers;
      MsgsOfPrefix(sent, entered);
      assert sent[..|sent|] == sent;
    }

    /** A pending entry is in one of the lists and stands for a message that has been given to its handler. */
    lemma EntriesBelow()
      requires Valid()
      ensures dataMsgs.Keys !! vchiMsgs.Keys
      ensures forall x | x in dataMsgs.Keys || x in vchiMsgs.Keys :: x < entered <= |sent| && sent[x].Message?
    {
      hide Ring, Memory, Counts, KeptForReference, Reader, Writer;
    }

    /** Any interleaving of the operations of writer, recycle thread, receive thread and clients, in which writer and
        clients may also act while a message is in its handler: what has been received is a prefix of what has been
        queued, and every message a client took out of a pending list is, byte for byte, the one the writer put there. */
    method Run(script: seq<Op>) returns (taken: seq<(nat, Msg)>)
      requires Valid()
      requires forall i | 0 <= i < |script| :: Acceptable(script[i])
      modifies this
      ensures Valid() && received <= queued && old(queued) <= queued && AsSent(taken)
    {
      hide ValidBut;
      taken := [];
      for i := 0 to |script|
        invariant Valid() && old(queued) <= queued && AsSent(taken)
      {
        assert Acceptable(script[i]);
        match script[i]
        case Queue(id, payload, stopped) =>
          var _ := QueueMessageAsync(id, payload, stopped);
        case RecycleTx =>
          ProcessRecycleTxSlot();
        case Begin(openPorts, refused) =>
          if entered == parsed && currentRxPos < txPos {
            BeginMessage(openPorts, id => refused);
          }
        case End =>
          if entered > parsed {
            EndMessage();
          }
        case Act(client) =>
          var more := Serve([client]);
          taken := taken + more;
      }
      ReceivedIsPrefix();
    }
  }

  /** What a client does. */
  datatype Client =
    | Take(key: nat, isVchi: bool, kept: bool)
    | Dequeue(key: nat)

  function TakeKeys(clients: seq<Client>): set<nat> {
    set c | c in clients && c.Take? :: c.key
  }

  lemma TakeKeysNext(clients: seq<Client>, i: nat)
    requires i < |clients|
    ensures TakeKeys(clients[..i + 1]) == TakeKeys(clients[..i]) + if clients[i].Take? then {clients[i].key} else {}
    ensures TakeKeys(clients[..0]) == {}
  {
    assert clients[..i + 1] == clients[..i] + [clients[i]];
  }

  datatype Op =
    | Queue(id: nat, payload: seq<byte>, stopped: bool)
    | RecycleTx
    | Begin(openPorts: set<nat>, refused: bool)
    | End
    | Act(client: Client)

  predicate Acceptable(op: Op) {
    op.Queue? ==> op.id < U32 && MsgType(op.id) != MSG_PADDING && AlignUp(HEADER_SIZE + |op.payload|) <= SLOT_SIZE
  }
}
