/** How VchiqInit divides its allocation into slots, and how message ids are packed. */
module VchiqLayout {
  import opened VchiqStream

  const TOTAL_SLOTS := 65           // VCHIQ_DEFAULT_TOTAL_SLOTS: slot zero, 32 receive slots, 32 transmit slots
  const SLOT_ZERO_SLOTS := 1        // VCHIQ_SLOT_ZERO fits one slot
  const MAX_FRAGMENTS := 64
  const SLOT_MEMORY := TOTAL_SLOTS * SLOT_SIZE
  const FRAGMENT_MEMORY := 2 * 32 * MAX_FRAGMENTS
  const TOTAL_MEMORY := SLOT_MEMORY + FRAGMENT_MEMORY

  /** Bytes skipped so that slot zero starts on a slot boundary. */
  function MemAlign(address: nat): nat {
    (SLOT_SIZE - address % SLOT_SIZE) % SLOT_SIZE
  }

  /** Message slots left after slot zero. */
  function NumSlots(address: nat): int {
    (TOTAL_MEMORY - MemAlign(address)) / SLOT_SIZE - SLOT_ZERO_SLOTS
  }

  function SlaveFirst(address: nat): int {
    SLOT_ZERO_SLOTS + NumSlots(address) / 2 + 1
  }

  function SlaveLast(address: nat): int {
    SLOT_ZERO_SLOTS + NumSlots(address) - 1
  }

  /** Byte addresses of slot `x` and of the fragment table. */
  function SlotStart(address: nat, x: int): int {
    address + MemAlign(address) + x * SLOT_SIZE
  }

  function FragmentStart(address: nat): int {
    address + MemAlign(address) + SLOT_MEMORY
  }

  /** Of the slots laid out, exactly the last slave slot of a slot-aligned allocation shares bytes with the fragment
      table, and it then occupies the very same bytes. */
  lemma LastSlotIsFragmentTable(address: nat, x: int)
    requires 0 <= x <= SlaveLast(address)
    ensures SlotStart(address, x) < FragmentStart(address) + FRAGMENT_MEMORY
            && FragmentStart(address) < SlotStart(address, x) + SLOT_SIZE
            <==> x == SlaveLast(address) && address % SLOT_SIZE == 0
    ensures x == SlaveLast(address) && address % SLOT_SIZE == 0
            ==> SlotStart(address, x) == FragmentStart(address) && FRAGMENT_MEMORY == SLOT_SIZE
  {
    NumSlotsByAlignment(address);
  }

  lemma NumSlotsByAlignment(address: nat)
    ensures NumSlots(address) == if address % SLOT_SIZE == 0 then 65 else 64
  {
  }

  /** The fragment table stays inside the allocation exactly when the allocation is slot-aligned. */
  lemma FragmentTableInsideAllocation(address: nat)
    ensures FragmentStart(address) + FRAGMENT_MEMORY <= address + TOTAL_MEMORY <==> address % SLOT_SIZE == 0
  {
  }

  /** The slave's range leaves between 1 and 63 message slots beside its last one, as the slot queue needs. */
  lemma SlaveRangeFitsQueue(address: nat)
    ensures 0 <= SlaveFirst(address) < SlaveLast(address) < SlaveFirst(address) + 64
    ensures SlaveLast(address) - SlaveFirst(address) == if address % SLOT_SIZE == 0 then 31 else 30
  {
    NumSlotsByAlignment(address);
  }

  // ---------- message ids ----------

  function MakeMsg(kind: bv32, srcPort: bv32, dstPort: bv32): bv32 {
    (kind << 24) | (srcPort << 12) | dstPort
  }

  function TypeOf(id: bv32): bv32 {
    id >> 24
  }

  function SrcPort(id: bv32): bv32 {
    (id >> 12) & 0xfff
  }

  function DstPort(id: bv32): bv32 {
    (id & 0xffff) & 0xfff
  }

  /** Packing loses nothing exactly when each field fits its place. */
  lemma MsgIdRoundTrip(kind: bv32, srcPort: bv32, dstPort: bv32)
    ensures var id := MakeMsg(kind, srcPort, dstPort);
            TypeOf(id) == kind && SrcPort(id) == srcPort && DstPort(id) == dstPort
            <==> kind < 0x100 && srcPort < 0x1000 && dstPort < 0x1000
  {
  }

  /** Every id is the packing of its fields, so different ids differ in a field. */
  lemma MsgIdFields(id: bv32)
    ensures MakeMsg(TypeOf(id), SrcPort(id), DstPort(id)) == id
  {
  }
}
