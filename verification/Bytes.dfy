/** Bytes, and chains of buffers as the kernel's memory descriptor lists string them together. */
module Bytes {

  type byte = x: int | 0 <= x < 256

  /** The bytes of a chain of buffers, in chain order. */
  function Concat(chain: seq<seq<byte>>): seq<byte> {
    if chain == [] then [] else Concat(chain[..|chain| - 1]) + chain[|chain| - 1]
  }

  /** The number of bytes before the `i`-th buffer. */
  function Before(chain: seq<seq<byte>>, i: nat): nat
    requires i <= |chain|
  {
    |Concat(chain[..i])|
  }

  predicate NonEmpty(chain: seq<seq<byte>>) {
    chain != [] && forall i | 0 <= i < |chain| :: chain[i] != []
  }

  lemma BeforeNext(chain: seq<seq<byte>>, i: nat)
    requires i < |chain|
    ensures Before(chain, i + 1) == Before(chain, i) + |chain[i]|
    ensures Before(chain, 0) == 0 && Before(chain, |chain|) == |Concat(chain)|
  {
    assert chain[..i + 1][..i] == chain[..i] && chain[..|chain|] == chain;
  }

  /** The `i`-th buffer sits in the concatenation behind everything before it. */
  lemma {:induction false} BufferInConcat(chain: seq<seq<byte>>, i: nat)
    requires i < |chain|
    ensures Before(chain, i) + |chain[i]| <= |Concat(chain)|
    ensures Concat(chain)[Before(chain, i)..Before(chain, i) + |chain[i]|] == chain[i]
    ensures Concat(chain)[..Before(chain, i)] == Concat(chain[..i])
  {
    var n := |chain| - 1;
    if i < n {
      BufferInConcat(chain[..n], i);
      assert chain[..n][..i] == chain[..i];
    }
  }

  function SetByte(chain: seq<seq<byte>>, i: nat, off: nat, b: byte): (t: seq<seq<byte>>)
    requires i < |chain| && off < |chain[i]|
    ensures |t| == |chain| && forall j | 0 <= j < |t| :: |t[j]| == |chain[j]|
  {
    var buffer: seq<byte> := chain[i][off := b];
    chain[i := buffer]
  }

  lemma {:induction false} SetConcat(chain: seq<seq<byte>>, i: nat, off: nat, b: byte)
    requires i < |chain| && off < |chain[i]|
    ensures Before(chain, i) + off < |Concat(chain)|
    ensures Concat(SetByte(chain, i, off, b)) == Concat(chain)[Before(chain, i) + off := b]
  {
    var n := |chain| - 1;
    var t := SetByte(chain, i, off, b);
    BufferInConcat(chain, i);
    if i < n {
      SetConcat(chain[..n], i, off, b);
      assert t[..n] == SetByte(chain[..n], i, off, b);
      assert chain[..n][..i] == chain[..i];
    } else {
      assert t[..n] == chain[..n];
    }
  }

  lemma SetBefore(chain: seq<seq<byte>>, i: nat, off: nat, b: byte, j: nat)
    requires i < |chain| && off < |chain[i]| && j <= |chain|
    ensures Before(SetByte(chain, i, off, b), j) == Before(chain, j)
  {
    if i < j {
      SetConcat(chain[..j], i, off, b);
      assert SetByte(chain, i, off, b)[..j] == SetByte(chain[..j], i, off, b);
    } else {
      assert SetByte(chain, i, off, b)[..j] == chain[..j];
    }
  }

  /** Writing one byte of one buffer writes that byte of the concatenation. */
  lemma SetInConcat(chain: seq<seq<byte>>, i: nat, off: nat, b: byte)
    requires i < |chain| && off < |chain[i]|
    ensures Before(chain, i) + off < |Concat(chain)|
    ensures Concat(SetByte(chain, i, off, b)) == Concat(chain)[Before(chain, i) + off := b]
    ensures forall j | 0 <= j <= |chain| :: Before(SetByte(chain, i, off, b), j) == Before(chain, j)
  {
    SetConcat(chain, i, off, b);
    forall j | 0 <= j <= |chain| ensures Before(SetByte(chain, i, off, b), j) == Before(chain, j) {
      SetBefore(chain, i, off, b, j);
    }
  }
}
