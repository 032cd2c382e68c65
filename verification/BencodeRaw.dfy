/** The reader that finds the bytes of one value without decoding it, for values that decode
    themselves (bencode/decode.go). */
module BencodeRaw {
  import opened Bencode
  import opened BencodeLaws
  import opened ByteOrder
  import opened Bytes
  import opened Outcomes
  import Decimal

  /** What is left after a value, an end mark that is left there, or a failure. */
  datatype Raw = Took(rest: seq<byte>) | AtEnd | BadRaw

  /** Both readers leave the tail of what they were given. */
  predicate Tail(s: seq<byte>, rest: seq<byte>) {
    |rest| < |s| && s[|s| - |rest|..] == rest
  }

  /** The bytes before what was left. */
  function Before(s: seq<byte>, rest: seq<byte>): seq<byte>
    requires |rest| <= |s|
  {
    s[..|s| - |rest|]
  }

  /** Reading from s to rest put the bytes between into the buffer. */
  ghost predicate Reads(was: seq<byte>, s: seq<byte>, now: seq<byte>, rest: seq<byte>) {
    |rest| <= |s| && s[|s| - |rest|..] == rest && now == was + Before(s, rest)
  }

  lemma {:induction false} ReadsNothing(was: seq<byte>, s: seq<byte>)
    ensures Reads(was, s, was, s)
  {
    assert Before(s, s) == [];
  }

  /** The next n bytes. */
  lemma {:induction false} ReadsNext(was: seq<byte>, s: seq<byte>, n: nat)
    requires n <= |s|
    ensures Reads(was, s, was + s[..n], s[n..])
  {
  }

  lemma {:induction false} ReadsMore(was: seq<byte>, s: seq<byte>, mid: seq<byte>, left: seq<byte>, now: seq<byte>, rest: seq<byte>)
    requires Reads(was, s, mid, left) && Reads(mid, left, now, rest)
    ensures Reads(was, s, now, rest)
  {
    assert s == Before(s, left) + left;
    assert Before(s, rest) == Before(s, left) + Before(left, rest);
    Regroup(was, Before(s, left), Before(left, rest));
  }

  /** The length and bytes of a string; a length may begin with zeroes here. */
  function ReadString(s: seq<byte>, lim: Limits): (r: Raw)
    requires s != [] && Decimal.IsDigit(s[0])
    ensures !r.AtEnd? && (r.Took? ==> Tail(s, r.rest))
  {
    var i := Until(s, COLON);
    if i == |s| then BadRaw
    else match Decimal.Parse(s[..i])
      case None => BadRaw
      case Some(n) => if n < 0 || n > lim.Str() || i + 1 + n > |s| then BadRaw else Took(s[i + 1 + n..])
  }

  /** readOneValue: an integer is whatever comes before its end mark, and a dict or list is any values. */
  function ReadOne(s: seq<byte>, depth: nat, lim: Limits): (r: Raw)
    ensures r.Took? ==> Tail(s, r.rest)
    ensures r.AtEnd? <==> s != [] && s[0] == E
    decreases |s|, 0
  {
    if s == [] then BadRaw
    else if s[0] == E then AtEnd
    else if s[0] == D || s[0] == L then
      if depth + 1 > lim.Depth() then BadRaw else ReadMany(s[1..], depth + 1, lim)
    else if s[0] == I then
      var text := s[1..];
      var i := Until(text, E);
      if i == |text| then BadRaw else Took(text[i + 1..])
    else if Decimal.IsDigit(s[0]) then ReadString(s, lim)
    else BadRaw
  }

  /** Values up to an end mark, and the mark. */
  function ReadMany(s: seq<byte>, depth: nat, lim: Limits): (r: Raw)
    ensures !r.AtEnd? && (r.Took? ==> Tail(s, r.rest))
    decreases |s|, 1
  {
    match ReadOne(s, depth, lim)
    case BadRaw => BadRaw
    case AtEnd => Took(s[1..])
    case Took(rest) => ReadMany(rest, depth, lim)
  }

  lemma {:induction false} ManyStep(s: seq<byte>, depth: nat, lim: Limits)
    ensures var r := ReadOne(s, depth, lim);
            && (r.BadRaw? ==> ReadMany(s, depth, lim) == BadRaw)
            && (r.AtEnd? ==> s != [] && s[0] == E && ReadMany(s, depth, lim) == Took(s[1..]))
            && (r.Took? ==> ReadMany(s, depth, lim) == ReadMany(r.rest, depth, lim))
  {
  }

  // ---------- on encodings ----------

  /** What reading should give: the rest if the value is within the limits. */
  function If(ok: bool, rest: seq<byte>): Raw {
    if ok then Took(rest) else BadRaw
  }

  lemma {:induction false} RawInt(n: int, s: seq<byte>, rest: seq<byte>, depth: nat, lim: Limits)
    requires s == [I] + Decimal.Write(n) + [E] + rest
    ensures ReadOne(s, depth, lim) == Took(rest)
  {
    var text := Decimal.Write(n);
    assert s[1..] == text + [E] + rest;
    DigitsPlain(if n < 0 then -n else n);
    UntilFirst(text, E, rest);
    assert s[1..][|text| + 1..] == rest;
  }

  lemma {:induction false} RawString(t: Text, s: seq<byte>, rest: seq<byte>, depth: nat, lim: Limits)
    requires s == EncodeString(t) + rest
    ensures ReadOne(s, depth, lim) == If(|t| <= lim.Str(), rest)
  {
    var text := Decimal.Digits(|t|);
    DigitsPlain(|t|);
    assert s == text + [COLON] + (t + rest);
    UntilFirst(text, COLON, t + rest);
    assert s[..|text|] == text && s[|text| + 1 + |t|..] == rest;
    Decimal.ReadWrite(|t|);
  }

  lemma {:induction false} RawContainer(b: byte, c: seq<byte>, s: seq<byte>, rest: seq<byte>, depth: nat, lim: Limits, ok: bool)
    requires (b == D || b == L) && s == [b] + c + [E] + rest
    requires depth + 1 <= lim.Depth() ==> ReadMany(c + [E] + rest, depth + 1, lim) == If(ok, rest)
    ensures ReadOne(s, depth, lim) == If(depth + 1 <= lim.Depth() && ok, rest)
  {
    DropFirst(b, c, rest);
  }

  lemma {:induction false} RawNone(s: seq<byte>, rest: seq<byte>, depth: nat, lim: Limits)
    requires s == [] + [E] + rest
    ensures ReadMany(s, depth, lim) == Took(rest)
  {
    assert s[1..] == rest;
  }

  lemma {:induction false} RawNext(s: seq<byte>, tail: seq<byte>, rest: seq<byte>, depth: nat, lim: Limits, first: bool, others: bool)
    requires ReadOne(s, depth, lim) == If(first, tail) && ReadMany(tail, depth, lim) == If(others, rest)
    ensures ReadMany(s, depth, lim) == If(first && others, rest)
  {
  }

  ghost predicate ItemsWithin(items: seq<Value>, i: nat, depth: nat, lim: Limits) {
    forall j :: i <= j < |items| ==> Within(items[j], depth, lim)
  }

  ghost predicate EntriesWithin(m: map<Text, Value>, ks: seq<Text>, depth: nat, lim: Limits) {
    forall k :: k in ks && k in m ==> |k| <= lim.Str() && Within(m[k], depth, lim)
  }

  /** On the encoding of any value, followed by any bytes, the reader takes exactly the encoding if the
      value is within the limits at this depth, and fails if it is not. */
  lemma {:induction false} RawEncode(v: Value, s: seq<byte>, rest: seq<byte>, depth: nat, lim: Limits)
    requires s == Encode(v) + rest
    ensures ReadOne(s, depth, lim) == If(Within(v, depth, lim), rest)
    decreases v
  {
    match v
    case Int(n) => RawInt(n, s, rest, depth, lim);
    case Str(t) => RawString(t, s, rest, depth, lim);
    case List(items) =>
      var c := EncodeItems(v, 0);
      RawItems(v, 0, c + [E] + rest, rest, depth + 1, lim);
      RawContainer(L, c, s, rest, depth, lim, ItemsWithin(items, 0, depth + 1, lim));
    case Dict(m) =>
      var ks := InOrder(m.Keys);
      InOrderSorted(m.Keys);
      var c := EncodeEntries(v, ks);
      RawEntries(v, ks, c + [E] + rest, rest, depth + 1, lim);
      RawContainer(D, c, s, rest, depth, lim, EntriesWithin(m, ks, depth + 1, lim));
  }

  lemma {:induction false} RawItems(v: Value, i: nat, s: seq<byte>, rest: seq<byte>, depth: nat, lim: Limits)
    requires v.List? && i <= |v.items| && s == EncodeItems(v, i) + [E] + rest
    ensures ReadMany(s, depth, lim) == If(ItemsWithin(v.items, i, depth, lim), rest)
    decreases v, |v.items| - i
  {
    hide ReadOne, ReadMany, Within;
    if i == |v.items| {
      RawNone(s, rest, depth, lim);
    } else {
      var x, tail := v.items[i], EncodeItems(v, i + 1) + [E] + rest;
      Regroup4(Encode(x), EncodeItems(v, i + 1), [E], rest);
      RawEncode(x, s, tail, depth, lim);
      RawItems(v, i + 1, tail, rest, depth, lim);
      RawNext(s, tail, rest, depth, lim, Within(x, depth, lim), ItemsWithin(v.items, i + 1, depth, lim));
    }
  }

  lemma {:induction false} RawEntries(v: Value, ks: seq<Text>, s: seq<byte>, rest: seq<byte>, depth: nat, lim: Limits)
    requires v.Dict? && (forall k :: k in ks ==> k in v.entries) && s == EncodeEntries(v, ks) + [E] + rest
    ensures ReadMany(s, depth, lim) == If(EntriesWithin(v.entries, ks, depth, lim), rest)
    decreases v, |ks|
  {
    hide ReadOne, ReadMany, Within;
    if ks == [] {
      RawNone(s, rest, depth, lim);
    } else {
      assert ks[0] in ks;
      var k, x, ks' := ks[0], v.entries[ks[0]], ks[1..];
      var tail := EncodeEntries(v, ks') + [E] + rest;
      var s' := Encode(x) + tail;
      Regroup5(EncodeString(k), Encode(x), EncodeEntries(v, ks'), [E], rest);
      RawString(k, s, s', depth, lim);
      RawEncode(x, s', tail, depth, lim);
      RawEntries(v, ks', tail, rest, depth, lim);
      var others := EntriesWithin(v.entries, ks', depth, lim);
      RawNext(s', tail, rest, depth, lim, Within(x, depth, lim), others);
      RawNext(s, s', rest, depth, lim, |k| <= lim.Str(), Within(x, depth, lim) && others);
      EntriesWithinCons(v.entries, ks, depth, lim);
    }
  }

  lemma {:induction false} EntriesWithinCons(m: map<Text, Value>, ks: seq<Text>, depth: nat, lim: Limits)
    requires ks != [] && ks[0] in m
    ensures EntriesWithin(m, ks, depth, lim) <==>
            |ks[0]| <= lim.Str() && Within(m[ks[0]], depth, lim) && EntriesWithin(m, ks[1..], depth, lim)
  {
    assert ks == [ks[0]] + ks[1..];
  }

  // ---------- beside the parser ----------

  /** Less deep is still within the limits. */
  lemma {:induction false} Shallower(v: Value, depth: nat, depth': nat, lim: Limits)
    requires Within(v, depth, lim) && depth' <= depth
    ensures Within(v, depth', lim)
    decreases v
  {
    match v
    case Int(_) =>
    case Str(_) =>
    case List(items) =>
      forall i | 0 <= i < |items| ensures Within(items[i], depth' + 1, lim) {
        Shallower(items[i], depth + 1, depth' + 1, lim);
      }
    case Dict(m) =>
      forall k | k in m ensures Within(m[k], depth' + 1, lim) { Shallower(m[k], depth + 1, depth' + 1, lim); }
  }

  /** Whatever the parser accepts, the reader takes the same bytes of. */
  lemma {:induction false} RawFollowsParse(s: seq<byte>, depth: nat, lim: Limits)
    ensures Parse(s, depth, lim).Got? ==> ReadOne(s, depth, lim) == Took(Parse(s, depth, lim).rest)
    ensures Parse(s, depth, lim).End? <==> ReadOne(s, depth, lim).AtEnd?
  {
    var r := Parse(s, depth, lim);
    if r.Got? {
      EncodeParse(s, depth, lim);
      RawEncode(r.value, s, r.rest, depth, lim);
    }
  }

  /** Main result: finding a value's bytes and then parsing them alone, from the top, gives a value
      exactly when parsing in place does, and the same one; the depth is counted once and in the same
      way. */
  lemma {:induction false} RawThenParse(s: seq<byte>, v: Value, rest: seq<byte>, depth: nat, lim: Limits)
    ensures Parse(s, depth, lim) == Got(v, rest) <==>
            ReadOne(s, depth, lim) == Took(rest) && Parse(Before(s, rest), 0, lim) == Got(v, [])
  {
    if Parse(s, depth, lim) == Got(v, rest) {
      EncodeParse(s, depth, lim);
      RawEncode(v, s, rest, depth, lim);
      Shallower(v, depth, 0, lim);
      assert Before(s, rest) == Encode(v) + [];
      ParseEncode(v, Before(s, rest), [], 0, lim);
    }
    if ReadOne(s, depth, lim) == Took(rest) && Parse(Before(s, rest), 0, lim) == Got(v, []) {
      EncodeParse(Before(s, rest), 0, lim);
      assert s == Before(s, rest) + rest && Encode(v) + [] == Encode(v);
      RawEncode(v, s, rest, depth, lim);
      ParseEncode(v, s, rest, depth, lim);
    }
  }

  // ---------- the limits ----------

  /** The parser takes the encoding of a value, whatever follows it, exactly if the value is within the limits. */
  lemma {:induction false} ParsesExactly(v: Value, s: seq<byte>, rest: seq<byte>, depth: nat, lim: Limits)
    requires s == Encode(v) + rest
    ensures Parse(s, depth, lim).Got? <==> Within(v, depth, lim)
  {
    RawEncode(v, s, rest, depth, lim);
    RawFollowsParse(s, depth, lim);
    if Within(v, depth, lim) { ParseEncode(v, s, rest, depth, lim); }
  }

  /** A number inside n lists, one inside the other. */
  function Nested(n: nat): Value {
    if n == 0 then Int(0) else List([Nested(n - 1)])
  }

  lemma {:induction false} NestedWithin(n: nat, depth: nat, lim: Limits)
    ensures Within(Nested(n), depth, lim) <==> n == 0 || depth + n <= lim.Depth()
  {
    if n > 0 {
      NestedWithin(n - 1, depth + 1, lim);
      assert [Nested(n - 1)][0] == Nested(n - 1);
    }
  }

  /** Lists may be nested as deep as the limit says, or 64 deep if it is not given. */
  lemma {:induction false} DepthLimit(n: nat, rest: seq<byte>, lim: Limits)
    ensures Parse(Encode(Nested(n)) + rest, 0, lim).Got? <==> n == 0 || n <= if lim.maxDepth == 0 then 64 else lim.maxDepth
  {
    ParsesExactly(Nested(n), Encode(Nested(n)) + rest, rest, 0, lim);
    NestedWithin(n, 0, lim);
  }

  /** A string may be as long as the limit says, or a byte short of 128 MiB if it is not given. */
  lemma {:induction false} StringLimit(t: Text, rest: seq<byte>, lim: Limits)
    ensures Parse(EncodeString(t) + rest, 0, lim).Got?
            <==> |t| <= if lim.maxStrLen == 0 then 134217727 else lim.maxStrLen
  {
    ParsesExactly(Str(t), EncodeString(t) + rest, rest, 0, lim);
  }

  /** By itself the reader takes more: an integer without digits. */
  lemma {:induction false} RawTakesMore(lim: Limits)
    ensures var s := [I, 120, E]; ReadOne(s, 0, lim) == Took([]) && Parse(s, 0, lim) == Error
  {
    var s := [I, 120, E];
    assert s[1..] == [120] + [E] + [];
    UntilFirst([120], E, []);
    assert s[1..][..1] == [120] && s[1..][2..] == [];
    assert !Decimal.IsDigit(120);
  }
}
