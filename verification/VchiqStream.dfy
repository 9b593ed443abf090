/** The byte stream that crosses the shared slots: alignment, headers, and the records a writer lays down. */
module VchiqStream {
  import opened Bytes

  const SLOT_SIZE := 4096
  const HEADER_SIZE := 8
  const U32 := 0x1_0000_0000
  const MSG_PADDING := 0
  const MSG_DATA := 5
  const MSG_BULK_RX_DONE := 8
  const MSG_BULK_TX_DONE := 9

  /** A message as its sender or its receiver sees it. */
  datatype Msg = Msg(id: nat, payload: seq<byte>)

  /** What the writer puts at offset `off` of the `k`-th slot it claims. */
  datatype Record =
    | Message(k: nat, off: nat, id: nat, payload: seq<byte>)
    | Padding(k: nat, off: nat, size: nat)

  /** Slot messages start on multiples of eight: `(Size + 7) & ~7`. */
  function AlignUp(size: nat): (r: nat)
    ensures r % 8 == 0 && size <= r < size + 8
  {
    (size + 7) / 8 * 8
  }

  /** VCHIQ_MSG_TYPE. */
  function MsgType(id: nat): nat {
    id / 0x100_0000
  }

  function IdOf(r: Record): nat {
    if r.Message? then r.id else MSG_PADDING
  }

  function SizeOf(r: Record): nat {
    if r.Message? then |r.payload| else r.size
  }

  /** The bytes of stream a record takes up. */
  function Span(r: Record): nat {
    AlignUp(HEADER_SIZE + SizeOf(r))
  }

  function PosOf(r: Record): nat {
    SLOT_SIZE * r.k + r.off
  }

  predicate WellPlaced(r: Record) {
    && r.off % 8 == 0 && r.off + Span(r) <= SLOT_SIZE
    && IdOf(r) < U32
    && (r.Message? ==> MsgType(r.id) != MSG_PADDING)
  }

  /** `b` starts where `a` ends: in the same slot, or at the start of the next one when `a` fills its slot. */
  predicate Follows(a: Record, b: Record) {
    if a.off + Span(a) == SLOT_SIZE then b.k == a.k + 1 && b.off == 0
    else b.k == a.k && b.off == a.off + Span(a)
  }

  /** Records back to back from position 0, none crossing a slot boundary. */
  ghost predicate Stream(sent: seq<Record>) {
    && (forall i | 0 <= i < |sent| :: WellPlaced(sent[i]))
    && (forall i, j | 0 <= i && j == i + 1 && j < |sent| :: Follows(sent[i], sent[j]))
    && (sent != [] ==> sent[0].k == 0 && sent[0].off == 0)
  }

  function EndOf(sent: seq<Record>): nat {
    if sent == [] then 0 else var r := sent[|sent| - 1]; PosOf(r) + Span(r)
  }

  /** The stream position of the `i`-th record, or of the end. */
  function PosAt(sent: seq<Record>, i: nat): nat
    requires i <= |sent|
  {
    if i < |sent| then PosOf(sent[i]) else EndOf(sent)
  }

  lemma NextPos(sent: seq<Record>, i: nat)
    requires Stream(sent) && i < |sent|
    ensures PosAt(sent, i + 1) == PosAt(sent, i) + Span(sent[i])
  {
    if i + 1 < |sent| {
      assert Follows(sent[i], sent[i + 1]);
    }
  }

  lemma {:induction false} PosGrows(sent: seq<Record>, i: nat, j: nat)
    requires Stream(sent) && i <= j <= |sent|
    ensures PosAt(sent, i) + (j - i) <= PosAt(sent, j)
    decreases j - i
  {
    if i < j {
      NextPos(sent, i);
      PosGrows(sent, i + 1, j);
    }
  }

  lemma EarlierEndsBefore(sent: seq<Record>, i: nat)
    requires Stream(sent) && i < |sent|
    ensures PosOf(sent[i]) + Span(sent[i]) <= EndOf(sent)
  {
    NextPos(sent, i);
    PosGrows(sent, i + 1, |sent|);
  }

  // ---------- the messages in a stream ----------

  function MsgsOf(sent: seq<Record>): seq<Msg> {
    if sent == [] then []
    else
      var r := sent[|sent| - 1];
      MsgsOf(sent[..|sent| - 1]) + if r.Message? then [Msg(r.id, r.payload)] else []
  }

  lemma MsgsOfSnoc(sent: seq<Record>, r: Record)
    ensures MsgsOf(sent + [r]) == MsgsOf(sent) + if r.Message? then [Msg(r.id, r.payload)] else []
  {
    assert (sent + [r])[..|sent|] == sent;
  }

  lemma {:induction false} MsgsOfPrefix(sent: seq<Record>, i: nat)
    requires i <= |sent|
    ensures MsgsOf(sent[..i]) <= MsgsOf(sent)
  {
    if i == |sent| {
      assert sent[..i] == sent;
    } else {
      var rest := sent[..|sent| - 1];
      assert rest[..i] == sent[..i];
      MsgsOfPrefix(rest, i);
    }
  }

  // ---------- bytes ----------

  function EncodeU32(v: nat): (b: seq<byte>)
    requires v < U32
    ensures |b| == 4
  {
    [v % 256, v / 256 % 256, v / 0x1_0000 % 256, v / 0x100_0000]
  }

  function DecodeU32(b: seq<byte>): nat
    requires |b| == 4
  {
    b[0] as int + 256 * (b[1] as int) + 0x1_0000 * (b[2] as int) + 0x100_0000 * (b[3] as int)
  }

  lemma U32RoundTrip(v: nat)
    requires v < U32
    ensures DecodeU32(EncodeU32(v)) == v
  {
    var a, b := v / 256, v / 0x1_0000;
    assert a / 256 == b;
    assert b / 256 == v / 0x100_0000;
    assert v == 256 * a + v % 256;
    assert a == 256 * b + a % 256;
    assert b == 256 * (b / 256) + b % 256;
  }

  /** `bytes` copied over `slot` at `off`. */
  function Patch(slot: seq<byte>, off: nat, bytes: seq<byte>): (t: seq<byte>)
    requires off + |bytes| <= |slot|
    ensures |t| == |slot|
    ensures t[off..off + |bytes|] == bytes
    ensures forall i, j | 0 <= i <= j <= |slot| && (j <= off || off + |bytes| <= i) :: t[i..j] == slot[i..j]
  {
    slot[..off] + bytes + slot[off + |bytes|..]
  }

  function ReadId(slot: seq<byte>, off: nat): nat
    requires off + HEADER_SIZE <= |slot|
  {
    DecodeU32(slot[off..off + 4])
  }

  function ReadSize(slot: seq<byte>, off: nat): nat
    requires off + HEADER_SIZE <= |slot|
  {
    DecodeU32(slot[off + 4..off + 8])
  }

  function WriteHeader(slot: seq<byte>, off: nat, id: nat, size: nat): (t: seq<byte>)
    requires off + HEADER_SIZE <= |slot| && id < U32 && size < U32
    ensures |t| == |slot|
  {
    Patch(Patch(slot, off, EncodeU32(id)), off + 4, EncodeU32(size))
  }

  lemma HeaderRoundTrip(slot: seq<byte>, off: nat, id: nat, size: nat)
    requires off + HEADER_SIZE <= |slot| && id < U32 && size < U32
    ensures var t := WriteHeader(slot, off, id, size);
            |t| == |slot| && ReadId(t, off) == id && ReadSize(t, off) == size
  {
    U32RoundTrip(id);
    U32RoundTrip(size);
  }

  /** The slot holds the record: its header reads back, and so does a message's payload. */
  ghost predicate Stored(slot: seq<byte>, r: Record) {
    && |slot| == SLOT_SIZE
    && r.off + HEADER_SIZE + SizeOf(r) <= SLOT_SIZE
    && ReadId(slot, r.off) == IdOf(r)
    && ReadSize(slot, r.off) == SizeOf(r)
    && (r.Message? ==> slot[r.off + 8..r.off + 8 + |r.payload|] == r.payload)
  }

  /** The slot `t` results from writing `r` into `slot`: it holds `r` and every record that ends before `r` starts. */
  ghost predicate Written(slot: seq<byte>, t: seq<byte>, r: Record) {
    && Stored(t, r)
    && (forall e | Stored(slot, e) && e.off + Span(e) <= r.off :: Stored(t, e))
  }

  lemma PaddingIsWritten(slot: seq<byte>, r: Record)
    requires |slot| == SLOT_SIZE && r.Padding? && WellPlaced(r)
    ensures Written(slot, WriteHeader(slot, r.off, MSG_PADDING, r.size), r)
  {
    HeaderRoundTrip(slot, r.off, MSG_PADDING, r.size);
  }

  lemma MessageIsWritten(slot: seq<byte>, r: Record)
    requires |slot| == SLOT_SIZE && r.Message? && WellPlaced(r)
    ensures Written(slot, Patch(WriteHeader(slot, r.off, r.id, |r.payload|), r.off + 8, r.payload), r)
  {
    HeaderRoundTrip(slot, r.off, r.id, |r.payload|);
  }

  // ---------- where a request is placed ----------

  /** The stream position at which VchiqAcquireTxSpace places a request: here, or at the next slot boundary. */
  function Place(txPos: nat, request: nat): nat {
    if AlignUp(request) > SLOT_SIZE - txPos % SLOT_SIZE then txPos + (SLOT_SIZE - txPos % SLOT_SIZE) else txPos
  }

  /** A request stays inside one slot exactly when its aligned size is at most the slot size; nothing checks this
      before the space is taken. */
  lemma RequestInsideOneSlot(txPos: nat, request: nat)
    requires txPos % 8 == 0
    ensures Place(txPos, request) % SLOT_SIZE + AlignUp(request) <= SLOT_SIZE <==> AlignUp(request) <= SLOT_SIZE
  {
    hide AlignUp;
    var p := Place(txPos, request);
    if p != txPos {
      NextBoundary(txPos);
    }
  }

  lemma NextBoundary(txPos: nat)
    ensures (txPos + (SLOT_SIZE - txPos % SLOT_SIZE)) % SLOT_SIZE == 0
  {
    assert txPos + (SLOT_SIZE - txPos % SLOT_SIZE) == (txPos / SLOT_SIZE + 1) * SLOT_SIZE;
  }
}
