/** Packed arrays of small elements in 32-bit words, bit for bit. */
module GpioBits {

  const WORD_BITS := 32

  /** A 32-bit word, least significant bit first. */
  type word = w: seq<bool> | |w| == WORD_BITS witness seq(WORD_BITS, i => false)

  function ShiftLeft(x: word, k: nat): word {
    seq(WORD_BITS, i requires 0 <= i < WORD_BITS => i >= k && x[i - k])
  }

  function ShiftRight(x: word, k: nat): word {
    seq(WORD_BITS, i requires 0 <= i < WORD_BITS => i + k < WORD_BITS && x[i + k])
  }

  function And(x: word, y: word): word {
    seq(WORD_BITS, i requires 0 <= i < WORD_BITS => x[i] && y[i])
  }

  function Or(x: word, y: word): word {
    seq(WORD_BITS, i requires 0 <= i < WORD_BITS => x[i] || y[i])
  }

  function Not(x: word): word {
    seq(WORD_BITS, i requires 0 <= i < WORD_BITS => !x[i])
  }

  /** The `bits` lowest bits: `(1 << bits) - 1`. */
  function ValueMask(bits: nat): word {
    seq(WORD_BITS, i => i < bits)
  }

  predicate Fits(v: word, bits: nat) {
    And(v, ValueMask(bits)) == v
  }

  /** The number the bits stand for, lowest bit first. */
  function Value(bits: seq<bool>): nat {
    if bits == [] then 0 else (if bits[0] then 1 else 0) + 2 * Value(bits[1..])
  }

  lemma {:induction false} ZeroValue(bits: seq<bool>)
    requires forall i | 0 <= i < |bits| :: !bits[i]
    ensures Value(bits) == 0
  {
    if bits != [] {
      ZeroValue(bits[1..]);
    }
  }

  /** A word of at most three bits. */
  lemma ThreeBitValue(v: word)
    requires forall i | 3 <= i < WORD_BITS :: !v[i]
    ensures Value(v) == (if v[0] then 1 else 0) + (if v[1] then 2 else 0) + (if v[2] then 4 else 0)
  {
    assert v[1..][1..] == v[2..] && v[2..][1..] == v[3..];
    ZeroValue(v[3..]);
    assert Value(v[2..]) == if v[2] then 1 else 0;
    assert Value(v[1..]) == (if v[1] then 1 else 0) + 2 * Value(v[2..]);
  }

  // ---------- BITFIELD_ARRAY ----------

  /** Widths for which the mask fits a word. */
  predicate Width(bits: nat) {
    0 < bits < WORD_BITS
  }

  function PerWord(bits: nat): nat
    requires Width(bits)
  {
    WORD_BITS / bits
  }

  function WordsFor(count: nat, bits: nat): nat
    requires Width(bits)
  {
    (count + PerWord(bits) - 1) / PerWord(bits)
  }

  /** MakeIndex. */
  function StorageIndex(index: nat, bits: nat): nat
    requires Width(bits)
  {
    index / PerWord(bits)
  }

  function BitPosition(index: nat, bits: nat): nat
    requires Width(bits)
  {
    index % PerWord(bits) * bits
  }

  predicate Holds(storage: seq<word>, bits: nat, index: nat) {
    Width(bits) && StorageIndex(index, bits) < |storage|
  }

  function Get(storage: seq<word>, bits: nat, index: nat): word
    requires Holds(storage, bits, index)
  {
    And(ShiftRight(storage[StorageIndex(index, bits)], BitPosition(index, bits)), ValueMask(bits))
  }

  function SetIn(storage: seq<word>, bits: nat, index: nat, v: word): (after: seq<word>)
    requires Holds(storage, bits, index)
    ensures |after| == |storage|
  {
    var i, p := StorageIndex(index, bits), BitPosition(index, bits);
    var value: word := And(storage[i], Not(ShiftLeft(ValueMask(bits), p)));
    var merged: word := Or(value, ShiftLeft(And(v, ValueMask(bits)), p));
    storage[i := merged]
  }

  lemma Scaled(a: nat, b: nat, c: nat)
    requires a < b
    ensures a * c + c <= b * c
  {
    assert b * c == a * c + (b - a) * c;
    assert (b - a) * c == (b - a - 1) * c + c;
  }

  lemma InsideWord(index: nat, bits: nat)
    requires Width(bits)
    ensures BitPosition(index, bits) + bits <= WORD_BITS
  {
    Scaled(index % PerWord(bits), PerWord(bits), bits);
    assert PerWord(bits) * bits <= WORD_BITS;
  }

  /** Two elements of one word do not overlap. */
  lemma Apart(i: nat, j: nat, bits: nat)
    requires Width(bits) && i != j && StorageIndex(i, bits) == StorageIndex(j, bits)
    ensures BitPosition(i, bits) + bits <= BitPosition(j, bits) || BitPosition(j, bits) + bits <= BitPosition(i, bits)
  {
    var n := PerWord(bits);
    assert i == i / n * n + i % n && j == j / n * n + j % n;
    if i % n < j % n {
      Scaled(i % n, j % n, bits);
    } else {
      Scaled(j % n, i % n, bits);
    }
  }

  /** An element reads back what was stored in it, cut to its width, and no other element changes: for every width
      and every length the packed storage behaves like a plain array. */
  lemma GetAfterSet(storage: seq<word>, bits: nat, i: nat, v: word, j: nat)
    requires Holds(storage, bits, i) && Holds(storage, bits, j)
    ensures Get(SetIn(storage, bits, i, v), bits, j) == if i == j then And(v, ValueMask(bits)) else Get(storage, bits, j)
  {
    var p, q := BitPosition(i, bits), BitPosition(j, bits);
    InsideWord(i, bits);
    InsideWord(j, bits);
    if i != j && StorageIndex(i, bits) == StorageIndex(j, bits) {
      Apart(i, j, bits);
    }
    var before, after := storage[StorageIndex(j, bits)], SetIn(storage, bits, i, v)[StorageIndex(j, bits)];
    hide BitPosition, StorageIndex;
    assert forall k | q <= k < q + bits && i != j :: after[k] == before[k];
    assert forall k | 0 <= k < bits && i == j :: after[q + k] == v[k];
  }

  /** Where an element lies: `32 / bits` elements to a word, from the lowest bits up.  Storing writes these bits of this word
      and no others, and reading gives them back. */
  lemma ElementBits(storage: seq<word>, bits: nat, index: nat, v: word)
    requires Width(bits) && index / (32 / bits) < |storage|
    ensures Holds(storage, bits, index) && index % (32 / bits) * bits + bits <= 32
    ensures var w, low := index / (32 / bits), index % (32 / bits) * bits;
            var after := SetIn(storage, bits, index, v);
            && (forall b | 0 <= b < bits :: after[w][low + b] == v[b])
            && (forall k, b | 0 <= k < |storage| && 0 <= b < 32 && !(k == w && low <= b < low + bits) ::
                  after[k][b] == storage[k][b])
            && (forall b | 0 <= b < bits :: Get(storage, bits, index)[b] == storage[w][low + b])
  {
    InsideWord(index, bits);
  }

  /** What an element reads as fits its width. */
  lemma GetFits(storage: seq<word>, bits: nat, i: nat)
    requires Holds(storage, bits, i)
    ensures Fits(Get(storage, bits, i), bits)
  {
  }

  /** BITFIELD_ARRAY<count, bits>. */
  class BitfieldArray {
    const count: nat
    const bits: nat
    const storage: array<word>

    predicate Valid() {
      Width(bits) && storage.Length == WordsFor(count, bits)
    }

    constructor (elements: nat, width: nat)
      requires elements != 0 && Width(width)
      ensures Valid() && count == elements && bits == width && fresh(storage)
      ensures forall i: nat | i < count :: Holds(storage[..], bits, i) && Get(storage[..], bits, i) == ValueMask(0)
    {
      count, bits := elements, width;
      storage := new word[WordsFor(elements, width)](i => ValueMask(0));
      new;
      forall i: nat | i < count
        ensures Holds(storage[..], bits, i) && Get(storage[..], bits, i) == ValueMask(0)
      {
        InRange(count, bits, i);
      }
    }

    /** Element `index` becomes `v`; everything else stays. */
    method Set(index: nat, v: word)
      requires Valid() && index < count && Fits(v, bits)
      modifies storage
      ensures Holds(storage[..], bits, index) && Get(storage[..], bits, index) == v
      ensures forall j: nat | j < count && j != index ::
                Holds(storage[..], bits, j) && old(Holds(storage[..], bits, j))
                && Get(storage[..], bits, j) == old(Get(storage[..], bits, j))
      ensures index / (32 / bits) < storage.Length && index % (32 / bits) * bits + bits <= 32
      ensures forall b | 0 <= b < bits :: storage[index / (32 / bits)][index % (32 / bits) * bits + b] == v[b]
      ensures forall k, b | 0 <= k < storage.Length && 0 <= b < 32
                && !(k == index / (32 / bits) && index % (32 / bits) * bits <= b < index % (32 / bits) * bits + bits) ::
                storage[k][b] == old(storage[k])[b]
    {
      InRange(count, bits, index);
      ElementBits(storage[..], bits, index, v);
      var i, p := StorageIndex(index, bits), BitPosition(index, bits);
      var value: word := And(storage[i], Not(ShiftLeft(ValueMask(bits), p)));
      value := Or(value, ShiftLeft(And(v, ValueMask(bits)), p));
      storage[i] := value;
      hide And, Or, Not, ShiftLeft, ShiftRight, ValueMask, Get;
      assert storage[..] == SetIn(old(storage[..]), bits, index, v);
      forall j: nat | j < count
        ensures Holds(storage[..], bits, j)
                && Get(storage[..], bits, j) == if j == index then v else Get(old(storage[..]), bits, j)
      {
        InRange(count, bits, j);
        GetAfterSet(old(storage[..]), bits, index, v, j);
      }
    }
  }

  lemma InRange(count: nat, bits: nat, i: nat)
    requires Width(bits) && i < count
    ensures StorageIndex(i, bits) < WordsFor(count, bits)
  {
    var n := PerWord(bits);
    var m := WordsFor(count, bits);
    assert count <= m * n;
    assert i == i / n * n + i % n;
    if i / n >= m {
      Scaled(m, i / n + 1, n);
      assert false;
    }
  }
}
