/** Decimal integers as bencode reads and writes them (bencode/decode.go, bencode/encode.go). */
module Decimal {
  import opened Bytes
  import opened Outcomes

  const ZERO: byte := 48
  const NINE: byte := 57
  const MINUS: byte := 45

  predicate IsDigit(b: byte) {
    ZERO <= b <= NINE
  }

  predicate AllDigits(s: seq<byte>) {
    forall i :: 0 <= i < |s| ==> IsDigit(s[i])
  }

  /** strconv.AppendInt for a natural number. */
  function Digits(n: nat): (s: seq<byte>)
    ensures |s| > 0 && AllDigits(s)
    ensures n > 0 ==> s[0] != ZERO
  {
    if n < 10 then [n + 48] else Digits(n / 10) + [n % 10 + 48]
  }

  function Write(n: int): seq<byte> {
    if n < 0 then [MINUS] + Digits(-n) else Digits(n)
  }

  function Value(s: seq<byte>): nat
    requires AllDigits(s)
  {
    if s == [] then 0
    else
      assert IsDigit(s[|s| - 1]);
      Value(s[..|s| - 1]) * 10 + (s[|s| - 1] - ZERO)
  }

  /** checkBufferedInt: past one byte, the first digit must not be zero. */
  predicate LeadingOk(s: seq<byte>) {
    |s| <= 1 ||
    var b := if s[0] == MINUS then s[1..] else s;
    49 <= b[0] <= NINE
  }

  /** strconv.ParseInt without a width: an optional sign, then digits. */
  function Parse(s: seq<byte>): Option<int> {
    var neg := |s| > 0 && s[0] == MINUS;
    var signed := |s| > 0 && (s[0] == MINUS || s[0] == 43);
    var b := if signed then s[1..] else s;
    if b == [] || !AllDigits(b) then None else Some(if neg then 0 - Value(b) else Value(b))
  }

  /** What the decoder accepts as an integer. */
  function Read(s: seq<byte>): Option<int> {
    if LeadingOk(s) then Parse(s) else None
  }

  lemma {:induction false} ValueDigits(n: nat)
    ensures Value(Digits(n)) == n
  {
    if n >= 10 {
      ValueDigits(n / 10);
      var s := Digits(n);
      assert s[..|s| - 1] == Digits(n / 10);
    }
  }

  lemma {:induction false} ValuePositive(s: seq<byte>)
    requires s != [] && s[0] != ZERO && AllDigits(s)
    ensures Value(s) > 0
  {
    if |s| > 1 { ValuePositive(s[..|s| - 1]); }
  }

  lemma {:induction false} DigitsValue(s: seq<byte>)
    requires s != [] && (|s| > 1 ==> s[0] != ZERO) && AllDigits(s)
    ensures Digits(Value(s)) == s
  {
    var t := s[..|s| - 1];
    assert s == t + [s[|s| - 1]];
    if |s| > 1 {
      ValuePositive(t);
      DigitsValue(t);
    } else {
      assert Value(t) == 0 && Value(s) == s[0] - ZERO;
    }
  }

  /** What is written is read back. */
  lemma {:induction false} ReadWrite(n: int)
    ensures Read(Write(n)) == Some(n)
  {
    if n < 0 {
      ValueDigits(-n);
      assert Write(n)[1..] == Digits(-n);
    } else {
      ValueDigits(n);
    }
  }

  /** What is read is what would have been written: an integer has one accepted form. */
  lemma {:induction false} WriteRead(s: seq<byte>)
    requires Read(s).Some?
    ensures s == Write(Read(s).value)
  {
    if s[0] == MINUS {
      ValuePositive(s[1..]);
      DigitsValue(s[1..]);
      assert s == [MINUS] + s[1..];
    } else {
      DigitsValue(s);
    }
  }
}
