/** The generic bencode value tree: its encoding and the parser that reads it back
    (bencode/encode.go, bencode/decode.go). */
module Bencode {
  import opened ByteOrder
  import opened Bytes
  import opened Outcomes
  import Decimal

  datatype Value = Int(n: int) | Str(s: Text) | List(items: seq<Value>) | Dict(entries: map<Text, Value>)

  const E: byte := 101
  const I: byte := 105
  const L: byte := 108
  const D: byte := 100
  const COLON: byte := 58

  // ---------- encoding ----------

  /** reflectString: a length prefix, then the bytes. */
  function EncodeString(s: Text): seq<byte> {
    Decimal.Digits(|s|) + [COLON] + s
  }

  /** reflectValue: a dict is written in the order of its keys. */
  ghost function Encode(v: Value): seq<byte>
    decreases v
  {
    match v
    case Int(n) => [I] + Decimal.Write(n) + [E]
    case Str(s) => EncodeString(s)
    case List(_) => [L] + EncodeItems(v, 0) + [E]
    case Dict(m) => [D] + EncodeEntries(v, InOrder(m.Keys)) + [E]
  }

  ghost function EncodeItems(v: Value, i: nat): seq<byte>
    requires v.List? && i <= |v.items|
    decreases v, |v.items| - i
  {
    if i == |v.items| then [] else Encode(v.items[i]) + EncodeItems(v, i + 1)
  }

  ghost function EncodeEntries(v: Value, ks: seq<Text>): seq<byte>
    requires v.Dict? && forall k :: k in ks ==> k in v.entries
    decreases v, |ks|
  {
    if ks == [] then []
    else
      assert ks[0] in v.entries;
      EncodeString(ks[0]) + Encode(v.entries[ks[0]]) + EncodeEntries(v, ks[1..])
  }

  // ---------- parsing ----------

  /** The decoder's limits; zero stands for the default. */
  datatype Limits = Limits(maxStrLen: int, maxDepth: int) {
    function Str(): int {
      if maxStrLen == 0 then 0x7FF_FFFF else maxStrLen
    }

    function Depth(): int {
      if maxDepth == 0 then 64 else maxDepth
    }
  }

  datatype Parsed = Got(value: Value, rest: seq<byte>) | End(rest: seq<byte>) | Error
  datatype ParsedItems = Items(items: seq<Value>, rest: seq<byte>) | BadItems
  datatype ParsedEntries = Entries(entries: map<Text, Value>, rest: seq<byte>) | BadEntries

  /** readUntil: where the separator is, or the length. */
  function Until(s: seq<byte>, sep: byte): (i: nat)
    ensures i <= |s| && (i < |s| ==> s[i] == sep)
    ensures forall j :: 0 <= j < i ==> s[j] != sep
  {
    if s == [] || s[0] == sep then 0 else 1 + Until(s[1..], sep)
  }

  /** parseIntInterface, after the 'i'. */
  function ParseInt(s: seq<byte>): (r: Parsed)
    ensures r.Got? ==> |r.rest| < |s|
  {
    var i := Until(s, E);
    if i == |s| then Error
    else match Decimal.Read(s[..i])
      case None => Error
      case Some(n) => Got(Int(n), s[i + 1..])
  }

  /** parseStringInterface, from the first digit of the length. */
  function ParseString(s: seq<byte>, lim: Limits): (r: Parsed)
    requires s != [] && Decimal.IsDigit(s[0])
    ensures r.Got? ==> |r.rest| < |s|
  {
    var i := Until(s, COLON);
    if i == |s| then Error
    else match Decimal.Read(s[..i])
      case None => Error
      case Some(n) =>
        if n < 0 || n > lim.Str() || i + 1 + n > |s| then Error
        else Got(Str(s[i + 1..i + 1 + n]), s[i + 1 + n..])
  }

  /** parseValueInterface. */
  function Parse(s: seq<byte>, depth: nat, lim: Limits): (r: Parsed)
    ensures !r.Error? ==> |r.rest| < |s|
    decreases |s|, 0
  {
    if s == [] then Error
    else if s[0] == E then End(s[1..])
    else if s[0] == D then
      if depth + 1 > lim.Depth() then Error
      else match ParseEntries(s[1..], depth + 1, lim, None)
        case BadEntries => Error
        case Entries(m, rest) => Got(Dict(m), rest)
    else if s[0] == L then
      if depth + 1 > lim.Depth() then Error
      else match ParseItems(s[1..], depth + 1, lim)
        case BadItems => Error
        case Items(items, rest) => Got(List(items), rest)
    else if s[0] == I then ParseInt(s[1..])
    else if Decimal.IsDigit(s[0]) then ParseString(s, lim)
    else Error
  }

  /** parseListInterface. */
  function ParseItems(s: seq<byte>, depth: nat, lim: Limits): (r: ParsedItems)
    ensures r.Items? ==> |r.rest| < |s|
    decreases |s|, 1
  {
    match Parse(s, depth, lim)
    case Error => BadItems
    case End(rest) => Items([], rest)
    case Got(v, rest) =>
      match ParseItems(rest, depth, lim)
      case BadItems => BadItems
      case Items(items, rest') => Items([v] + items, rest')
  }

  predicate InSequence(last: Option<Text>, key: Text) {
    last.None? || Less(last.value, key)
  }

  /** parseDictInterface: keys are strings and strictly increase. */
  function ParseEntries(s: seq<byte>, depth: nat, lim: Limits, last: Option<Text>): (r: ParsedEntries)
    ensures r.Entries? ==> |r.rest| < |s|
    decreases |s|, 1
  {
    match Parse(s, depth, lim)
    case Error => BadEntries
    case End(rest) => Entries(map[], rest)
    case Got(k, rest) =>
      if !k.Str? || !InSequence(last, k.s) then BadEntries
      else match Parse(rest, depth, lim)
        case Error => BadEntries
        case End(_) => BadEntries
        case Got(v, rest') =>
          match ParseEntries(rest', depth, lim, Some(k.s))
          case BadEntries => BadEntries
          case Entries(m, rest'') => Entries(m[k.s := v], rest'')
  }

  /** The value is within the decoder's limits at this depth. */
  predicate Within(v: Value, depth: nat, lim: Limits)
    decreases v
  {
    match v
    case Int(_) => true
    case Str(s) => |s| <= lim.Str()
    case List(items) =>
      depth + 1 <= lim.Depth() && forall i :: 0 <= i < |items| ==> Within(items[i], depth + 1, lim)
    case Dict(m) =>
      depth + 1 <= lim.Depth() && forall k :: k in m ==> |k| <= lim.Str() && Within(m[k], depth + 1, lim)
  }
}
