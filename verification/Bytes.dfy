/** Bytes and big-endian integers, shared by the codecs. */
module Bytes {

  type byte = x: int | 0 <= x < 256

  const UINT16 := 0x1_0000
  const UINT32 := 0x1_0000_0000

  function Zeroes(n: nat): seq<byte> {
    seq(n, _ => 0)
  }

  function BE16(n: nat): (s: seq<byte>)
    requires n < UINT16
    ensures |s| == 2
  {
    [n / 0x100, n % 0x100]
  }

  function FromBE16(s: seq<byte>): (n: nat)
    requires |s| == 2
    ensures n < UINT16
  {
    (s[0] as int) * 0x100 + s[1] as int
  }

  function BE32(n: nat): (s: seq<byte>)
    requires n < UINT32
    ensures |s| == 4
  {
    BE16(n / UINT16) + BE16(n % UINT16)
  }

  function FromBE32(s: seq<byte>): (n: nat)
    requires |s| == 4
    ensures n < UINT32
  {
    FromBE16(s[..2]) * UINT16 + FromBE16(s[2..])
  }

  /** Concatenation regrouped, stated apart from where it is needed. */
  lemma {:induction false} Regroup(a: seq<byte>, b: seq<byte>, c: seq<byte>)
    ensures a + (b + c) == (a + b) + c
  {
  }

  lemma {:induction false} Regroup4(a: seq<byte>, b: seq<byte>, c: seq<byte>, d: seq<byte>)
    ensures (a + b + c) + d == a + (b + c + d)
  {
  }

  lemma {:induction false} Regroup5(a: seq<byte>, b: seq<byte>, c: seq<byte>, d: seq<byte>, e: seq<byte>)
    ensures (a + b + c) + d + e == a + (b + (c + d + e))
  {
  }

  lemma {:induction false} BE16RoundTrip(n: nat)
    requires n < UINT16
    ensures FromBE16(BE16(n)) == n
  {
  }

  lemma {:induction false} BE32RoundTrip(n: nat)
    requires n < UINT32
    ensures FromBE32(BE32(n)) == n
  {
    BE16RoundTrip(n / UINT16);
    BE16RoundTrip(n % UINT16);
    assert BE32(n)[..2] == BE16(n / UINT16) && BE32(n)[2..] == BE16(n % UINT16);
  }

  lemma {:induction false} BE16Back(s: seq<byte>)
    requires |s| == 2
    ensures BE16(FromBE16(s)) == s
  {
  }

  lemma {:induction false} BE32Back(s: seq<byte>)
    requires |s| == 4
    ensures BE32(FromBE32(s)) == s
  {
    BE16Back(s[..2]);
    BE16Back(s[2..]);
    assert s == s[..2] + s[2..];
  }
}
