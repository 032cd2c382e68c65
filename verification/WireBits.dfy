/** Bitfields as bytes, the most significant bit first (peer_protocol/msg.go,
    peer_protocol/decoder.go). */
module WireBits {
  import opened Arithmetic
  import opened Bytes

  /** c >> k. */
  function Shift(c: nat, k: nat): nat {
    if k == 0 then c else Shift(c / 2, k - 1)
  }

  /** (c >> k) & 1 == 1. */
  predicate Bit(c: nat, k: nat) {
    Shift(c, k) % 2 == 1
  }

  /** c | 1 << k. */
  function SetBit(c: nat, k: nat): nat {
    if Bit(c, k) then c else c + Pow2(k)
  }

  /** Flags as a number, the most significant first. */
  function Pack(w: seq<bool>): (c: nat)
    ensures c < Pow2(|w|)
  {
    if w == [] then 0 else 2 * Pack(w[..|w| - 1]) + if w[|w| - 1] then 1 else 0
  }

  function PackByte(w: seq<bool>): byte
    requires |w| == 8
  {
    assert Pow2(8) == 256 by { assert Pow2(4) == 16; }
    Pack(w)
  }

  lemma {:induction false} ShiftPack(w: seq<bool>, k: nat)
    requires k <= |w|
    ensures Shift(Pack(w), k) == Pack(w[..|w| - k])
    decreases k
  {
    if k == 0 {
      assert w[..|w|] == w;
    } else {
      var v := w[..|w| - 1];
      ShiftPack(v, k - 1);
      assert v[..|v| - (k - 1)] == w[..|w| - k];
    }
  }

  lemma {:induction false} BitPack(w: seq<bool>, k: nat)
    requires k < |w|
    ensures Bit(Pack(w), |w| - 1 - k) == w[k]
  {
    ShiftPack(w, |w| - 1 - k);
    assert w[..k + 1][k] == w[k];
  }

  /** Setting a flag that is clear sets its bit. */
  lemma {:induction false} PackSet(w: seq<bool>, k: nat)
    requires k < |w| && !w[k]
    ensures Pack(w[k := true]) == Pack(w) + Pow2(|w| - 1 - k)
  {
    var v, n := w[k := true], |w| - 1;
    if k < n {
      PackSet(w[..n], k);
      assert v[..n] == w[..n][k := true];
    } else {
      assert v[..n] == w[..n];
    }
  }

  lemma {:induction false} SetBitPack(w: seq<bool>, k: nat)
    requires k < |w| && !w[k]
    ensures SetBit(Pack(w), |w| - 1 - k) == Pack(w[k := true])
  {
    BitPack(w, k);
    PackSet(w, k);
  }

  /** The n low bits, the most significant first. */
  function Unpack(c: nat, n: nat): (w: seq<bool>)
    ensures |w| == n
  {
    if n == 0 then [] else Unpack(c / 2, n - 1) + [c % 2 == 1]
  }

  lemma {:induction false} UnpackBit(c: nat, n: nat, k: nat)
    requires k < n
    ensures Unpack(c, n)[k] == Bit(c, n - 1 - k)
  {
    if k < n - 1 { UnpackBit(c / 2, n - 1, k); }
  }

  lemma {:induction false} PackUnpack(c: nat, n: nat)
    requires c < Pow2(n)
    ensures Pack(Unpack(c, n)) == c
  {
    if n > 0 {
      PackUnpack(c / 2, n - 1);
      assert Unpack(c, n)[..n - 1] == Unpack(c / 2, n - 1);
    }
  }

  // ---------- bitfields ----------

  /** Byte j's flags among the first n; the rest are clear. */
  function Window(bits: seq<bool>, n: nat, j: nat): (w: seq<bool>)
    requires n <= |bits|
    ensures |w| == 8
  {
    seq(8, k requires 0 <= k < 8 => 8 * j + k < n && bits[8 * j + k])
  }

  function Marshal(bits: seq<bool>): seq<byte> {
    seq((|bits| + 7) / 8, j requires 0 <= j < (|bits| + 7) / 8 => PackByte(Window(bits, |bits|, j)))
  }

  function Unmarshal(b: seq<byte>): seq<bool> {
    seq(8 * |b|, i requires 0 <= i < 8 * |b| => Bit(b[i / 8], 7 - i % 8))
  }

  /** A bitfield padded with clear flags to whole bytes. */
  function Padded(bits: seq<bool>): seq<bool> {
    seq(8 * ((|bits| + 7) / 8), i requires 0 <= i => i < |bits| && bits[i])
  }

  /** Reading a written bitfield gives it back, padded to whole bytes. */
  lemma {:induction false} UnmarshalMarshal(bits: seq<bool>)
    ensures Unmarshal(Marshal(bits)) == Padded(bits)
  {
    var b := Marshal(bits);
    forall i | 0 <= i < 8 * |b| ensures Unmarshal(b)[i] == Padded(bits)[i] {
      BitPack(Window(bits, |bits|, i / 8), i % 8);
      assert 8 * (i / 8) + i % 8 == i;
    }
  }

  /** Writing what was read gives the bytes back. */
  lemma {:induction false} MarshalUnmarshal(b: seq<byte>)
    ensures Marshal(Unmarshal(b)) == b
  {
    var bits := Unmarshal(b);
    assert (|bits| + 7) / 8 == |b|;
    forall j | 0 <= j < |b| ensures Marshal(bits)[j] == b[j] {
      forall k | 0 <= k < 8 ensures Window(bits, |bits|, j)[k] == Unpack(b[j], 8)[k] {
        UnpackBit(b[j], 8, k);
        assert (8 * j + k) / 8 == j && (8 * j + k) % 8 == k;
      }
      assert Window(bits, |bits|, j) == Unpack(b[j], 8);
      assert Pow2(8) == 256 by { assert Pow2(4) == 16; }
      PackUnpack(b[j], 8);
    }
  }

  lemma {:induction false} PaddedOnce(bits: seq<bool>)
    requires |bits| % 8 == 0
    ensures Padded(bits) == bits
  {
  }

  // ---------- the loops ----------

  /** The bytes after the first i flags. */
  function Partial(bits: seq<bool>, i: nat): seq<byte>
    requires i <= |bits|
  {
    seq((|bits| + 7) / 8, j requires 0 <= j < (|bits| + 7) / 8 => PackByte(Window(bits, i, j)))
  }

  lemma {:induction false} NothingPartial(bits: seq<bool>, j: nat)
    requires j < (|bits| + 7) / 8
    ensures Partial(bits, 0)[j] == 0
  {
    var w := Window(bits, 0, j);
    AllClear(w);
  }

  lemma {:induction false} AllClear(w: seq<bool>)
    requires forall k :: 0 <= k < |w| ==> !w[k]
    ensures Pack(w) == 0
  {
    if w != [] { AllClear(w[..|w| - 1]); }
  }

  /** One more flag changes one byte. */
  lemma {:induction false} PartialStep(bits: seq<bool>, i: nat)
    requires i < |bits|
    ensures var j, k := i / 8, i % 8;
            var c := Partial(bits, i)[j];
            var c' := if bits[i] then SetBit(c, 7 - k) else c;
            c' < 256 && Partial(bits, i + 1) == Partial(bits, i)[j := c']
  {
    var j, k := i / 8, i % 8;
    assert 8 * j + k == i;
    var w := Window(bits, i, j);
    forall j' | 0 <= j' < |Partial(bits, i)| && j' != j
      ensures Window(bits, i + 1, j') == Window(bits, i, j')
    {
      WindowElsewhere(bits, i, j');
    }
    assert Window(bits, i + 1, j) == w[k := bits[i]];
    if bits[i] {
      SetBitPack(w, k);
    } else {
      assert w[k := bits[i]] == w;
    }
  }

  lemma {:induction false} WindowElsewhere(bits: seq<bool>, i: nat, j: nat)
    requires i < |bits| && j != i / 8
    ensures Window(bits, i + 1, j) == Window(bits, i, j)
  {
    forall k | 0 <= k < 8 ensures Window(bits, i + 1, j)[k] == Window(bits, i, j)[k] {
      assert 8 * j + k != i by { assert (8 * j + k) / 8 == j; }
    }
  }

  /** marshalBitfield. */
  method MarshalBitfield(bits: seq<bool>) returns (s: seq<byte>)
    ensures s == Marshal(bits)
  {
    var b := new byte[(|bits| + 7) / 8](_ => 0);
    forall j | 0 <= j < b.Length ensures b[j] == Partial(bits, 0)[j] { NothingPartial(bits, j); }
    assert b[..] == Partial(bits, 0);
    var i := 0;
    while i < |bits|
      invariant i <= |bits| && b[..] == Partial(bits, i)
    {
      PartialStep(bits, i);
      if bits[i] {
        var c := b[i / 8];
        b[i / 8] := SetBit(c, 7 - i % 8);
      }
      i := i + 1;
    }
    s := b[..];
  }

  /** unmarshalBitfield. */
  method UnmarshalBitfield(b: seq<byte>) returns (bits: seq<bool>)
    ensures bits == Unmarshal(b)
  {
    bits := [];
    var j := 0;
    while j < |b|
      invariant j <= |b| && bits == Unmarshal(b)[..8 * j]
    {
      var i := 7;
      while i >= 0
        invariant -1 <= i <= 7 && bits == Unmarshal(b)[..8 * j + 7 - i]
      {
        bits := bits + [Bit(b[j], i)];
        i := i - 1;
      }
      j := j + 1;
    }
  }
}
