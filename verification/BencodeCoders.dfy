/** The bencode decoder and encoder as the objects that consume and produce bytes
    (bencode/decode.go, bencode/encode.go). A decoding panic is the result Failed. */
module BencodeCoders {
  import opened Bencode
  import opened ByteOrder
  import opened Bytes
  import opened Outcomes
  import opened BencodeRaw
  import BencodeLaws
  import Decimal

  datatype Step = Value(value: Bencode.Value) | NoValue | Failed

  /** Items read before the rest of a list. */
  function Prepend(items: seq<Bencode.Value>, r: ParsedItems): ParsedItems {
    if r.BadItems? then r else Items(items + r.items, r.rest)
  }

  /** Entries read before the rest of a dict. */
  function Merge(m: map<Text, Bencode.Value>, r: ParsedEntries): ParsedEntries {
    if r.BadEntries? then r else Entries(m + r.entries, r.rest)
  }

  lemma {:induction false} PrependStep(
    items: seq<Bencode.Value>, s: seq<byte>, depth: nat, lim: Limits, v: Bencode.Value, rest: seq<byte>)
    requires Parse(s, depth, lim) == Got(v, rest)
    ensures Prepend(items, ParseItems(s, depth, lim)) == Prepend(items + [v], ParseItems(rest, depth, lim))
  {
    var r := ParseItems(rest, depth, lim);
    if r.Items? { assert items + ([v] + r.items) == (items + [v]) + r.items; }
  }

  lemma {:induction false} MergeStep(
    m: map<Text, Bencode.Value>, s: seq<byte>, depth: nat, lim: Limits, last: Option<Text>, k: Text, s': seq<byte>,
    v: Bencode.Value, rest: seq<byte>)
    requires Parse(s, depth, lim) == Got(Str(k), s') && InSequence(last, k) && Parse(s', depth, lim) == Got(v, rest)
    ensures Merge(m, ParseEntries(s, depth, lim, last)) == Merge(m[k := v], ParseEntries(rest, depth, lim, Some(k)))
  {
    var r := ParseEntries(rest, depth, lim, Some(k));
    if r.Entries? {
      BencodeLaws.EntriesFollow(rest, depth, lim, Some(k));
      Trichotomy(k, k);
      MergePut(m, r.entries, k, v);
    }
  }

  lemma {:induction false} MergePut(m: map<Text, Bencode.Value>, m': map<Text, Bencode.Value>, k: Text, v: Bencode.Value)
    requires k !in m'
    ensures m + m'[k := v] == m[k := v] + m'
  {
  }

  lemma {:induction false} NothingMore(items: seq<Bencode.Value>, m: map<Text, Bencode.Value>, rest: seq<byte>)
    ensures Prepend(items, Items([], rest)) == Items(items, rest) && Merge(m, Entries(map[], rest)) == Entries(m, rest)
  {
  }

  lemma {:induction false} SliceOfTail(s: seq<byte>, i: nat, n: nat)
    requires i + n <= |s|
    ensures s[i..][..n] == s[i..i + n] && s[i..][n..] == s[i + n..]
  {
  }

  /** Reading on from the second byte, up to the i-th after it. */
  lemma {:induction false} FromSecond(s: seq<byte>, i: nat)
    requires i + 1 < |s|
    ensures [s[0]] + s[1..][..i] == s[..i + 1] && s[1..][i + 1..] == s[i + 2..]
  {
  }

  class Decoder {
    const input: seq<byte>
    const lim: Limits
    var offset: nat
    var depth: nat
    var buf: seq<byte>

    constructor (input: seq<byte>, lim: Limits)
      ensures this.input == input && this.lim == lim && Valid() && depth == 0 && buf == [] && Rest() == input
    {
      this.input := input;
      this.lim := lim;
      offset, depth, buf := 0, 0, [];
    }

    predicate Valid()
      reads this
    {
      offset <= |input|
    }

    function Rest(): seq<byte>
      requires Valid()
      reads this
    {
      input[offset..]
    }

    method ReadByte() returns (b: Option<byte>)
      requires Valid()
      modifies this`offset
      ensures Valid()
      ensures old(Rest()) == [] ==> b == None && offset == old(offset)
      ensures old(Rest()) != [] ==> b == Some(old(Rest())[0]) && Rest() == old(Rest())[1..] && offset == old(offset) + 1
    {
      if offset == |input| { return None; }
      b := Some(input[offset]);
      offset := offset + 1;
    }

    /** Reads into the buffer up to the separator, which is consumed. */
    method ReadUntil(sep: byte) returns (ok: bool)
      requires Valid()
      modifies this`offset, this`buf
      ensures Valid() && offset >= old(offset)
      ensures var s := old(Rest());
              var i := Until(s, sep);
              ok == (i < |s|) && (ok ==> buf == old(buf) + s[..i] && Rest() == s[i + 1..])
    {
      ghost var s := Rest();
      ghost var i := 0;
      while true
        invariant Valid() && i <= |s| && Rest() == s[i..] && offset == old(offset) + i
        invariant buf == old(buf) + s[..i] && forall j :: 0 <= j < i ==> s[j] != sep
        decreases |input| - offset
      {
        var b := ReadByte();
        if b.None? { return false; }
        if b.value == sep { return true; }
        buf := buf + [b.value];
        i := i + 1;
      }
    }

    /** parseIntInterface. */
    method ParseInteger() returns (r: Step)
      requires Valid() && buf == []
      modifies this`offset, this`buf
      ensures Valid() && offset >= old(offset)
      ensures var p := Bencode.ParseInt(old(Rest()));
              if p.Got? then r == Value(p.value) && Rest() == p.rest && buf == [] else r == Failed
    {
      ghost var s := Rest();
      var ok := ReadUntil(E);
      assert ok ==> buf == s[..Until(s, E)];
      if !ok || !Decimal.LeadingOk(buf) { return Failed; }
      var n := Decimal.Parse(buf);
      if n.None? { return Failed; }
      buf := [];
      r := Value(Int(n.value));
    }

    /** parseStringLength, the first digit already in the buffer. */
    method ParseStringLength(ghost s: seq<byte>) returns (n: Option<nat>)
      requires Valid() && s != [] && Decimal.IsDigit(s[0]) && buf == [s[0]] && Rest() == s[1..]
      modifies this`offset, this`buf
      ensures Valid() && offset >= old(offset)
      ensures var i := Until(s, COLON);
              var read := if i < |s| then Decimal.Read(s[..i]) else None;
              if read.Some? && 0 <= read.value <= lim.Str() then n == Some(read.value) && Rest() == s[i + 1..] && buf == []
              else n == None
    {
      ghost var i := Until(s[1..], COLON);
      var ok := ReadUntil(COLON);
      assert Until(s, COLON) == i + 1;
      if !ok { return None; }
      FromSecond(s, i);
      if !Decimal.LeadingOk(buf) { return None; }
      var read := Decimal.Parse(buf);
      if read.None? || read.value < 0 || read.value > lim.Str() { return None; }
      buf := [];
      n := Some(read.value);
    }

    /** parseStringInterface. */
    method ParseText(ghost s: seq<byte>) returns (r: Step)
      requires Valid() && s != [] && Decimal.IsDigit(s[0]) && buf == [s[0]] && Rest() == s[1..]
      modifies this`offset, this`buf
      ensures Valid() && offset >= old(offset)
      ensures var p := ParseString(s, lim);
              if p.Got? then r == Value(p.value) && Rest() == p.rest && buf == [] else r == Failed
    {
      var n := ParseStringLength(s);
      if n.None? { return Failed; }
      if offset + n.value > |input| { return Failed; }
      ghost var tail := Rest();
      SliceOfTail(s, Until(s, COLON) + 1, n.value);
      r := Value(Str(input[offset..offset + n.value]));
      assert input[offset..offset + n.value] == tail[..n.value];
      offset := offset + n.value;
      assert Rest() == tail[n.value..];
    }

    /** parseValueInterface. The depth is the same afterwards, whatever happened. */
    method ParseValue() returns (r: Step)
      requires Valid() && buf == []
      modifies this
      ensures Valid() && depth == old(depth) && offset >= old(offset)
      ensures match Parse(old(Rest()), old(depth), lim)
              case Got(v, rest) => r == Value(v) && Rest() == rest && buf == []
              case End(rest) => r == NoValue && Rest() == rest && buf == []
              case Error => r == Failed
      decreases |input| - offset, 0
    {
      ghost var s := Rest();
      var b := ReadByte();
      if b.None? { return Failed; }
      if b.value == E { return NoValue; }
      if b.value == D {
        depth := depth + 1;
        if depth > lim.Depth() {
          r := Failed;
        } else {
          r := ParseDict();
        }
        depth := depth - 1;
      } else if b.value == L {
        depth := depth + 1;
        if depth > lim.Depth() {
          r := Failed;
        } else {
          r := ParseList();
        }
        depth := depth - 1;
      } else if b.value == I {
        r := ParseInteger();
      } else if Decimal.IsDigit(b.value) {
        buf := buf + [b.value];
        r := ParseText(s);
      } else {
        r := Failed;
      }
    }

    /** parseListInterface. */
    method ParseList() returns (r: Step)
      requires Valid() && buf == []
      modifies this
      ensures Valid() && depth == old(depth) && offset >= old(offset)
      ensures match ParseItems(old(Rest()), old(depth), lim)
              case Items(items, rest) => r == Value(List(items)) && Rest() == rest && buf == []
              case BadItems => r == Failed
      decreases |input| - offset, 1
    {
      ghost var all := ParseItems(Rest(), depth, lim);
      var items := [];
      while true
        invariant Valid() && depth == old(depth) && offset >= old(offset) && buf == []
        invariant Prepend(items, ParseItems(Rest(), depth, lim)) == all
        decreases |input| - offset
      {
        ghost var before := Rest();
        var step := ParseValue();
        if step.Failed? { return Failed; }
        NothingMore(items, map[], Rest());
        if step.NoValue? { return Value(List(items)); }
        PrependStep(items, before, depth, lim, step.value, Rest());
        items := items + [step.value];
      }
    }

    /** parseDictInterface. */
    method ParseDict() returns (r: Step)
      requires Valid() && buf == []
      modifies this
      ensures Valid() && depth == old(depth) && offset >= old(offset)
      ensures match ParseEntries(old(Rest()), old(depth), lim, None)
              case Entries(m, rest) => r == Value(Dict(m)) && Rest() == rest && buf == []
              case BadEntries => r == Failed
      decreases |input| - offset, 1
    {
      ghost var all := ParseEntries(Rest(), depth, lim, None);
      var dict: map<Text, Bencode.Value> := map[];
      var last: Option<Text> := None;
      while true
        invariant Valid() && depth == old(depth) && offset >= old(offset) && buf == []
        invariant Merge(dict, ParseEntries(Rest(), depth, lim, last)) == all
        decreases |input| - offset
      {
        ghost var before := Rest();
        var key := ParseValue();
        if key.Failed? { return Failed; }
        NothingMore([], dict, Rest());
        if key.NoValue? { return Value(Dict(dict)); }
        if !key.value.Str? { return Failed; }
        if last.Some? && !Less(last.value, key.value.s) { return Failed; }
        ghost var between := Rest();
        var elem := ParseValue();
        if !elem.Value? { return Failed; }
        MergeStep(dict, before, depth, lim, last, key.value.s, between, elem.value, Rest());
        last := Some(key.value.s);
        dict := dict[key.value.s := elem.value];
      }
    }

    /** readOneValue: the bytes of a value into the buffer. None is a failure, and false an end mark,
        which is left. The depth is the same afterwards, whatever happened. */
    method ReadOneValue() returns (r: Option<bool>)
      requires Valid()
      modifies this
      ensures Valid() && depth == old(depth) && offset >= old(offset)
      ensures match ReadOne(old(Rest()), old(depth), lim)
              case Took(rest) => r == Some(true) && Rest() == rest && Reads(old(buf), old(Rest()), buf, rest)
              case AtEnd => r == Some(false) && Rest() == old(Rest()) && buf == old(buf)
              case BadRaw => r == None
      decreases |input| - offset, 0
    {
      hide Reads, Until, ReadMany, ReadString;
      ghost var s := Rest();
      var b := ReadByte();
      if b.None? { return None; }
      if b.value == E {
        offset := offset - 1;
        return Some(false);
      }
      ReadsNext(buf, s, 1);
      buf := buf + [b.value];
      assert s[..1] == [b.value];
      ghost var first, left := buf, Rest();
      if b.value == D || b.value == L {
        depth := depth + 1;
        var ok := false;
        if depth <= lim.Depth() { ok := ReadValues(); }
        depth := depth - 1;
        if !ok { return None; }
      } else if b.value == I {
        var ok := ReadRawInt();
        if !ok { return None; }
      } else if Decimal.IsDigit(b.value) {
        var ok := ReadText(s);
        if !ok { return None; }
      } else {
        return None;
      }
      ReadsMore(old(buf), s, first, left, buf, Rest());
      r := Some(true);
    }

    /** The integer in readOneValue, after its mark. */
    method ReadRawInt() returns (ok: bool)
      requires Valid()
      modifies this`offset, this`buf
      ensures Valid() && offset >= old(offset)
      ensures var s := old(Rest());
              var i := Until(s, E);
              ok == (i < |s|) && (ok ==> Rest() == s[i + 1..] && Reads(old(buf), s, buf, Rest()))
    {
      ghost var s := Rest();
      ok := ReadUntil(E);
      if ok {
        ghost var i := Until(s, E);
        ReadsNext(old(buf), s, i + 1);
        assert s[..i + 1] == s[..i] + [E];
        Regroup(old(buf), s[..i], [E]);
        buf := buf + [E];
      }
    }

    /** A string's length in readOneValue, its first digit already in the buffer. */
    method ReadRawLength(ghost s: seq<byte>) returns (n: Option<nat>)
      requires Valid() && s != [] && Decimal.IsDigit(s[0]) && Rest() == s[1..]
      requires buf != [] && buf[|buf| - 1] == s[0]
      modifies this`offset, this`buf
      ensures Valid() && offset >= old(offset)
      ensures var i := Until(s, COLON);
              var read := if i < |s| then Decimal.Parse(s[..i]) else None;
              if read.Some? && 0 <= read.value <= lim.Str()
              then n == Some(read.value) && i > 0 && Rest() == s[i + 1..] && buf == old(buf) + s[1..][..i - 1] + [COLON]
              else n == None
    {
      var start := |buf| - 1;
      ghost var i := Until(s[1..], COLON);
      var ok := ReadUntil(COLON);
      assert Until(s, COLON) == i + 1;
      if !ok { return None; }
      FromSecond(s, i);
      LastOf(old(buf), s[1..][..i]);
      var read := Decimal.Parse(buf[start..]);
      if read.None? || read.value < 0 || read.value > lim.Str() { return None; }
      buf := buf + [COLON];
      n := Some(read.value);
    }

    /** The string in readOneValue, the first digit of its length already in the buffer. */
    method ReadText(ghost s: seq<byte>) returns (ok: bool)
      requires Valid() && s != [] && Decimal.IsDigit(s[0]) && Rest() == s[1..]
      requires buf != [] && buf[|buf| - 1] == s[0]
      modifies this`offset, this`buf
      ensures Valid() && offset >= old(offset)
      ensures match ReadString(s, lim)
              case Took(rest) => ok && Rest() == rest && Reads(old(buf), s[1..], buf, rest)
              case BadRaw => !ok
    {
      hide Reads;
      var n := ReadRawLength(s);
      if n.None? { return false; }
      ghost var i, tail := Until(s, COLON), Rest();
      ok := CopyN(n.value);
      if ok { RawText(old(buf), s, i, n.value, tail); }
    }

    /** io.CopyN of the input into the buffer. */
    method CopyN(n: nat) returns (ok: bool)
      requires Valid()
      modifies this`offset, this`buf
      ensures Valid() && offset >= old(offset) && ok == (n <= |old(Rest())|)
      ensures ok ==> buf == old(buf) + old(Rest())[..n] && Rest() == old(Rest())[n..]
    {
      if offset + n > |input| { return false; }
      SliceOfTail(input, offset, n);
      buf, offset := buf + input[offset..offset + n], offset + n;
      ok := true;
    }

    /** The loop of readOneValue over a container, and its end mark. */
    method ReadValues() returns (ok: bool)
      requires Valid()
      modifies this
      ensures Valid() && depth == old(depth) && offset >= old(offset)
      ensures match ReadMany(old(Rest()), old(depth), lim)
              case Took(rest) => ok && Rest() == rest && Reads(old(buf), old(Rest()), buf, rest)
              case BadRaw => !ok
      decreases |input| - offset, 1
    {
      hide Reads, ReadMany, ReadOne;
      ghost var s := Rest();
      ReadsNothing(buf, s);
      while true
        invariant Valid() && depth == old(depth) && offset >= old(offset)
        invariant Reads(old(buf), s, buf, Rest()) && ReadMany(Rest(), depth, lim) == ReadMany(s, depth, lim)
        decreases |input| - offset
      {
        ghost var mid, left := buf, Rest();
        ManyStep(left, depth, lim);
        var more := ReadOneValue();
        if more.None? { return false; }
        if !more.value { break; }
        ReadsMore(old(buf), s, mid, left, buf, Rest());
      }
      ghost var mid, left := buf, Rest();
      var b := ReadByte();
      ReadsNext(mid, left, 1);
      assert left[..1] == [b.value];
      buf := buf + [b.value];
      ReadsMore(old(buf), s, mid, left, buf, Rest());
      ok := true;
    }
  }

  lemma {:induction false} LastOf(a: seq<byte>, b: seq<byte>)
    requires a != []
    ensures (a + b)[|a| - 1..] == [a[|a| - 1]] + b
  {
  }

  /** The rest of a length, its colon, and the string. */
  lemma {:induction false} RawText(was: seq<byte>, s: seq<byte>, i: nat, n: nat, tail: seq<byte>)
    requires 0 < i && i + 1 + n <= |s| && s[i] == COLON && tail == s[i + 1..]
    ensures Reads(was, s[1..], was + s[1..][..i - 1] + [COLON] + tail[..n], tail[n..]) && tail[n..] == s[i + 1 + n..]
  {
    var t := s[1..];
    ReadsNext(was, t, i + n);
    assert t[..i + n] == t[..i - 1] + [COLON] + tail[..n] && t[i + n..] == tail[n..];
    Regroup4(was, t[..i - 1], [COLON], tail[..n]);
  }

  // ---------- encoding ----------

  method Least(s: set<Text>) returns (k: Text)
    requires s != {}
    ensures IsLeast(k, s)
  {
    k :| k in s;
    var left := s - {k};
    while left != {}
      invariant left < s && k in s && k !in left && IsLeast(k, s - left)
      decreases |left|
    {
      var x :| x in left;
      Trichotomy(x, k);
      ghost var was := k;
      if Less(x, k) {
        forall k' | k' in s - left ensures Less(x, k') {
          if k' != k { Transitive(x, k, k'); }
        }
        k := x;
      }
      left := left - {x};
      assert IsLeast(k, s - left);
    }
    assert s - left == s;
  }

  method SortKeys(s: set<Text>) returns (ks: seq<Text>)
    ensures ks == InOrder(s)
  {
    ks := [];
    var left := s;
    while left != {}
      invariant ks + InOrder(left) == InOrder(s)
      decreases |left|
    {
      var k := Least(left);
      InOrderFirst(left, k);
      AppendKey(ks, k, InOrder(left - {k}));
      ks := ks + [k];
      left := left - {k};
    }
  }

  lemma {:induction false} AppendKey(a: seq<Text>, k: Text, b: seq<Text>)
    ensures a + ([k] + b) == (a + [k]) + b
  {
  }

  lemma {:induction false} InOrderFirst(s: set<Text>, k: Text)
    requires IsLeast(k, s)
    ensures InOrder(s) == [k] + InOrder(s - {k})
  {
    LeastExists(s);
    var k' := InOrder(s)[0];
    LeastUnique(k, k', s);
  }

  class Encoder {
    var out: seq<byte>

    constructor ()
      ensures out == []
    {
      out := [];
    }

    method Write(s: seq<byte>)
      modifies this
      ensures out == old(out) + s
    {
      out := out + s;
    }

    /** Copies through the scratch buffer, sixty-four bytes at a time. */
    method WriteString(s: seq<byte>)
      modifies this
      ensures out == old(out) + s
    {
      var i := 0;
      while i < |s|
        invariant i <= |s| && out == old(out) + s[..i]
      {
        var n := if |s| - i < 64 then |s| - i else 64;
        Write(s[i..i + n]);
        assert s[..i + n] == s[..i] + s[i..i + n];
        i := i + n;
      }
      assert s[..i] == s;
    }

    method ReflectString(s: Text)
      modifies this
      ensures out == old(out) + EncodeString(s)
    {
      Write(Decimal.Digits(|s|));
      WriteString([COLON]);
      WriteString(s);
    }

    /** reflectValue: appends the value's encoding. */
    method ReflectValue(v: Bencode.Value)
      modifies this
      ensures out == old(out) + Encode(v)
      decreases v
    {
      match v
      case Int(n) =>
        WriteString([I]);
        Write(Decimal.Write(n));
        WriteString([E]);
      case Str(s) =>
        ReflectString(s);
      case List(_) =>
        WriteString([L]);
        ReflectItems(v);
        WriteString([E]);
      case Dict(m) =>
        WriteString([D]);
        ReflectEntries(v);
        WriteString([E]);
    }

    method ReflectItems(v: Bencode.Value)
      requires v.List?
      modifies this
      ensures out == old(out) + EncodeItems(v, 0)
      decreases v, 0
    {
      var i := 0;
      while i < |v.items|
        invariant i <= |v.items| && out + EncodeItems(v, i) == old(out) + EncodeItems(v, 0)
      {
        ghost var was := out;
        ReflectValue(v.items[i]);
        Regroup(was, Encode(v.items[i]), EncodeItems(v, i + 1));
        i := i + 1;
      }
    }

    method ReflectEntries(v: Bencode.Value)
      requires v.Dict?
      modifies this
      ensures out == old(out) + EncodeEntries(v, InOrder(v.entries.Keys)) && Ascending(InOrder(v.entries.Keys))
      decreases v, 0
    {
      InOrderAscends(v.entries.Keys);
      var ks := SortKeys(v.entries.Keys);
      var i := 0;
      while i < |ks|
        invariant i <= |ks| && out + EncodeEntries(v, ks[i..]) == old(out) + EncodeEntries(v, ks)
      {
        ghost var was := out;
        assert ks[i] in ks && ks[i..][1..] == ks[i + 1..];
        ReflectString(ks[i]);
        ReflectValue(v.entries[ks[i]]);
        Regroup4(was, EncodeString(ks[i]), Encode(v.entries[ks[i]]), EncodeEntries(v, ks[i + 1..]));
        i := i + 1;
      }
    }
  }
}
