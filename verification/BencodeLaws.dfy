/** The bencode parser undoes the encoder, and accepts nothing else. */
module BencodeLaws {
  import opened Bencode
  import opened ByteOrder
  import opened Bytes
  import opened Outcomes
  import Decimal

  // ---------- parsing what was encoded ----------

  lemma {:induction false} UntilFirst(pre: seq<byte>, sep: byte, post: seq<byte>)
    requires sep !in pre
    ensures Until(pre + [sep] + post, sep) == |pre|
  {
    var s := pre + [sep] + post;
    if pre != [] {
      assert s[1..] == pre[1..] + [sep] + post;
      UntilFirst(pre[1..], sep, post);
    }
  }

  lemma {:induction false} DigitsPlain(n: nat)
    ensures E !in Decimal.Digits(n) && COLON !in Decimal.Digits(n)
  {
    assert forall i :: 0 <= i < |Decimal.Digits(n)| ==> Decimal.IsDigit(Decimal.Digits(n)[i]);
  }

  lemma {:induction false} IntParses(n: int, rest: seq<byte>)
    ensures ParseInt(Decimal.Write(n) + [E] + rest) == Got(Int(n), rest)
  {
    var text := Decimal.Write(n);
    var s := text + [E] + rest;
    DigitsPlain(if n < 0 then -n else n);
    UntilFirst(text, E, rest);
    assert s[..|text|] == text && s[|text| + 1..] == rest;
    Decimal.ReadWrite(n);
  }

  lemma {:induction false} StringParses(t: Text, rest: seq<byte>, lim: Limits)
    requires |t| <= lim.Str()
    ensures var s := EncodeString(t) + rest;
            s != [] && Decimal.IsDigit(s[0]) && ParseString(s, lim) == Got(Str(t), rest)
  {
    var text := Decimal.Digits(|t|);
    var s := EncodeString(t) + rest;
    DigitsPlain(|t|);
    assert s == text + [COLON] + (t + rest);
    UntilFirst(text, COLON, t + rest);
    assert s[..|text|] == text;
    assert s[|text| + 1..] == t + rest;
    Decimal.ReadWrite(|t|);
    assert s[|text| + 1..|text| + 1 + |t|] == t && s[|text| + 1 + |t|..] == rest;
  }

  lemma {:induction false} ListParses(s: seq<byte>, depth: nat, lim: Limits, items: seq<Value>, rest: seq<byte>)
    requires s != [] && s[0] == L && depth + 1 <= lim.Depth() && ParseItems(s[1..], depth + 1, lim) == Items(items, rest)
    ensures Parse(s, depth, lim) == Got(List(items), rest)
  {
  }

  lemma {:induction false} DictParses(s: seq<byte>, depth: nat, lim: Limits, m: map<Text, Value>, rest: seq<byte>)
    requires s != [] && s[0] == D && depth + 1 <= lim.Depth()
    requires ParseEntries(s[1..], depth + 1, lim, None) == Entries(m, rest)
    ensures Parse(s, depth, lim) == Got(Dict(m), rest)
  {
  }

  lemma {:induction false} ItemParses(s: seq<byte>, depth: nat, lim: Limits, v: Value, tail: seq<byte>, items: seq<Value>, rest: seq<byte>)
    requires Parse(s, depth, lim) == Got(v, tail) && ParseItems(tail, depth, lim) == Items(items, rest)
    ensures ParseItems(s, depth, lim) == Items([v] + items, rest)
  {
  }

  lemma {:induction false} EntryParses(
    s: seq<byte>, depth: nat, lim: Limits, last: Option<Text>, k: Text, s': seq<byte>, v: Value, tail: seq<byte>,
    m: map<Text, Value>, rest: seq<byte>)
    requires Parse(s, depth, lim) == Got(Str(k), s') && InSequence(last, k) && Parse(s', depth, lim) == Got(v, tail)
    requires ParseEntries(tail, depth, lim, Some(k)) == Entries(m, rest)
    ensures ParseEntries(s, depth, lim, last) == Entries(m[k := v], rest)
  {
  }

  lemma {:induction false} EndParses(s: seq<byte>, depth: nat, lim: Limits, last: Option<Text>)
    requires s != [] && s[0] == E
    ensures ParseItems(s, depth, lim) == Items([], s[1..])
    ensures ParseEntries(s, depth, lim, last) == Entries(map[], s[1..])
  {
  }

  lemma {:induction false} DropFirst(b: byte, c: seq<byte>, d: seq<byte>)
    ensures ([b] + c + [E] + d)[1..] == c + [E] + d
  {
  }

  lemma {:induction false} SliceCons(items: seq<Value>, i: nat)
    requires i < |items|
    ensures items[i..] == [items[i]] + items[i + 1..]
  {
  }

  lemma {:induction false} RestrictCons(m: map<Text, Value>, ks: seq<Text>)
    requires ks != [] && forall k :: k in ks ==> k in m
    ensures ks[0] in m && (forall k :: k in ks[1..] ==> k in m)
    ensures Restrict(m, ks) == Restrict(m, ks[1..])[ks[0] := m[ks[0]]]
  {
    assert ks == [ks[0]] + ks[1..];
  }

  /** Decoding an encoding followed by any bytes returns the value and leaves the bytes. */
  lemma {:induction false} ParseEncode(v: Value, s: seq<byte>, rest: seq<byte>, depth: nat, lim: Limits)
    requires Within(v, depth, lim) && s == Encode(v) + rest
    ensures Parse(s, depth, lim) == Got(v, rest)
    decreases v
  {
    match v
    case Int(n) =>
      assert s[1..] == Decimal.Write(n) + [E] + rest;
      IntParses(n, rest);
    case Str(t) =>
      StringParses(t, rest, lim);
    case List(items) =>
      DropFirst(L, EncodeItems(v, 0), rest);
      ParseEncodeItems(v, 0, s[1..], rest, depth + 1, lim);
      assert items[0..] == items;
      ListParses(s, depth, lim, items, rest);
    case Dict(m) =>
      var ks := InOrder(m.Keys);
      InOrderSorted(m.Keys);
      DropFirst(D, EncodeEntries(v, ks), rest);
      ParseEncodeEntries(v, ks, None, s[1..], rest, depth + 1, lim);
      assert Restrict(m, ks) == m;
      DictParses(s, depth, lim, m, rest);
  }

  lemma {:induction false} ParseEncodeItems(
    v: Value, i: nat, s: seq<byte>, rest: seq<byte>, depth: nat, lim: Limits)
    requires v.List? && i <= |v.items| && forall j :: 0 <= j < |v.items| ==> Within(v.items[j], depth, lim)
    requires s == EncodeItems(v, i) + [E] + rest
    ensures ParseItems(s, depth, lim) == Items(v.items[i..], rest)
    decreases v, |v.items| - i
  {
    if i == |v.items| {
      assert s[1..] == rest;
      EndParses(s, depth, lim, None);
    } else {
      var x, tail := v.items[i], EncodeItems(v, i + 1) + [E] + rest;
      Regroup4(Encode(x), EncodeItems(v, i + 1), [E], rest);
      ParseEncode(x, s, tail, depth, lim);
      ParseEncodeItems(v, i + 1, tail, rest, depth, lim);
      ItemParses(s, depth, lim, x, tail, v.items[i + 1..], rest);
      SliceCons(v.items, i);
    }
  }

  function Restrict(m: map<Text, Value>, ks: seq<Text>): map<Text, Value>
    requires forall k :: k in ks ==> k in m
  {
    map k | k in ks :: m[k]
  }

  lemma {:induction false} SortedTail(ks: seq<Text>, k': Text)
    requires Sorted(ks) && ks != [] && k' in ks[1..]
    ensures Less(ks[0], k') && k' in ks
  {
    var j :| 0 <= j < |ks[1..]| && ks[1..][j] == k';
    assert ks[1..][j] == ks[j + 1];
  }

  lemma {:induction false} ParseEncodeEntries(
    v: Value, ks: seq<Text>, last: Option<Text>, s: seq<byte>, rest: seq<byte>, depth: nat, lim: Limits)
    requires v.Dict? && (forall k :: k in ks ==> k in v.entries && InSequence(last, k)) && Sorted(ks)
    requires forall k :: k in v.entries ==> |k| <= lim.Str() && Within(v.entries[k], depth, lim)
    requires s == EncodeEntries(v, ks) + [E] + rest
    ensures ParseEntries(s, depth, lim, last) == Entries(Restrict(v.entries, ks), rest)
    decreases v, |ks|
  {
    if ks == [] {
      assert s[1..] == rest;
      EndParses(s, depth, lim, last);
    } else {
      assert ks[0] in ks;
      var k, x, ks' := ks[0], v.entries[ks[0]], ks[1..];
      forall k' | k' in ks' ensures k' in v.entries && InSequence(Some(k), k') { SortedTail(ks, k'); }
      var tail := EncodeEntries(v, ks') + [E] + rest;
      var s' := Encode(x) + tail;
      Regroup5(EncodeString(k), Encode(x), EncodeEntries(v, ks'), [E], rest);
      KeyParses(k, s, s', depth, lim);
      ParseEncode(x, s', tail, depth, lim);
      ParseEncodeEntries(v, ks', Some(k), tail, rest, depth, lim);
      EntryParses(s, depth, lim, last, k, s', x, tail, Restrict(v.entries, ks'), rest);
      RestrictCons(v.entries, ks);
    }
  }

  lemma {:induction false} KeyParses(k: Text, s: seq<byte>, s': seq<byte>, depth: nat, lim: Limits)
    requires |k| <= lim.Str() && s == EncodeString(k) + s'
    ensures Parse(s, depth, lim) == Got(Str(k), s')
  {
    StringParses(k, s', lim);
  }

  // ---------- what parses was encoded ----------

  lemma {:induction false} IntWasEncoded(s: seq<byte>)
    requires ParseInt(s).Got?
    ensures var r := ParseInt(s);
            r.value.Int? && s == Decimal.Write(r.value.n) + [E] + r.rest
  {
    var i := Until(s, E);
    Decimal.WriteRead(s[..i]);
    assert s == s[..i] + [s[i]] + s[i + 1..];
  }

  lemma {:induction false} FourParts(s: seq<byte>, i: nat, j: nat)
    requires i < j <= |s|
    ensures s == s[..i] + [s[i]] + s[i + 1..j] + s[j..]
  {
    assert s[..j] == s[..i] + [s[i]] + s[i + 1..j];
    assert s == s[..j] + s[j..];
  }

  lemma {:induction false} StringWasEncoded(s: seq<byte>, lim: Limits)
    requires s != [] && Decimal.IsDigit(s[0]) && ParseString(s, lim).Got?
    ensures var r := ParseString(s, lim);
            r.value.Str? && |r.value.s| <= lim.Str() && s == EncodeString(r.value.s) + r.rest
  {
    var i := Until(s, COLON);
    var n := Decimal.Read(s[..i]).value;
    Decimal.WriteRead(s[..i]);
    FourParts(s, i, i + 1 + n);
  }

  /** Any input the parser accepts is the encoding of its result, followed by what it left,
      so a value has one accepted form; and the result is within the limits. */
  lemma {:induction false} EncodeParse(s: seq<byte>, depth: nat, lim: Limits)
    requires Parse(s, depth, lim).Got?
    ensures var r := Parse(s, depth, lim); s == Encode(r.value) + r.rest && Within(r.value, depth, lim)
    decreases |s|, 0
  {
    var r := Parse(s, depth, lim);
    assert s == [s[0]] + s[1..];
    if s[0] == D {
      EncodeParseEntries(s[1..], depth + 1, lim, None);
      DictForm(r.value, s[1..], r.rest);
    } else if s[0] == L {
      EncodeParseItems(s[1..], depth + 1, lim);
      ListForm(r.value, s[1..], r.rest);
    } else if s[0] == I {
      IntWasEncoded(s[1..]);
      Regroup4([I], Decimal.Write(r.value.n), [E], r.rest);
    } else {
      StringWasEncoded(s, lim);
    }
  }

  lemma {:induction false} ListForm(v: Value, s: seq<byte>, rest: seq<byte>)
    requires v.List? && s == EncodeItems(v, 0) + [E] + rest
    ensures [L] + s == Encode(v) + rest
  {
  }

  lemma {:induction false} DictForm(v: Value, s: seq<byte>, rest: seq<byte>)
    requires v.Dict? && s == EncodeEntries(v, InOrder(v.entries.Keys)) + [E] + rest
    ensures [D] + s == Encode(v) + rest
  {
  }

  lemma {:induction false} EncodeParseItems(s: seq<byte>, depth: nat, lim: Limits)
    requires ParseItems(s, depth, lim).Items?
    ensures var r := ParseItems(s, depth, lim);
            && s == EncodeItems(List(r.items), 0) + [E] + r.rest
            && forall i :: 0 <= i < |r.items| ==> Within(r.items[i], depth, lim)
    decreases |s|, 1
  {
    var first, r := Parse(s, depth, lim), ParseItems(s, depth, lim);
    if first.Got? {
      EncodeParse(s, depth, lim);
      EncodeParseItems(first.rest, depth, lim);
      var items := ParseItems(first.rest, depth, lim).items;
      ItemsShift(List(items), List(r.items), 0);
      Regroup4(Encode(first.value), EncodeItems(List(items), 0), [E], r.rest);
    } else {
      assert s == [s[0]] + s[1..];
    }
  }

  /** One more item in front only moves the others along. */
  lemma {:induction false} ItemsShift(v: Value, w: Value, i: nat)
    requires v.List? && w.List? && |w.items| == |v.items| + 1 && w.items[1..] == v.items && i <= |v.items|
    ensures EncodeItems(w, i + 1) == EncodeItems(v, i)
    decreases |v.items| - i
  {
    if i < |v.items| {
      assert w.items[1..][i] == w.items[i + 1];
      ItemsShift(v, w, i + 1);
    }
  }

  /** Keys that parse are in sequence. */
  lemma {:induction false} EntriesFollow(s: seq<byte>, depth: nat, lim: Limits, last: Option<Text>)
    requires ParseEntries(s, depth, lim, last).Entries?
    ensures forall k :: k in ParseEntries(s, depth, lim, last).entries ==> InSequence(last, k)
    ensures last.Some? ==> forall k :: k in ParseEntries(s, depth, lim, last).entries ==> Precedes(last.value, k)
    decreases |s|
  {
    if last.Some? { forall k ensures Less(last.value, k) <==> Precedes(last.value, k) { LessIs(last.value, k); } }
    var first := Parse(s, depth, lim);
    if first.Got? {
      var k, second := first.value.s, Parse(first.rest, depth, lim);
      EntriesFollow(second.rest, depth, lim, Some(k));
      KeysFollow(last, k, ParseEntries(second.rest, depth, lim, Some(k)).entries);
    }
  }

  ghost predicate AllWithin(m: map<Text, Value>, depth: nat, lim: Limits) {
    forall k :: k in m ==> |k| <= lim.Str() && Within(m[k], depth, lim)
  }

  /** s is the entries of m, the end mark, and rest. */
  ghost predicate EntriesIn(s: seq<byte>, m: map<Text, Value>, rest: seq<byte>) {
    s == EncodeEntries(Dict(m), InOrder(m.Keys)) + [E] + rest
  }

  lemma {:induction false} NoEntriesIn(s: seq<byte>)
    requires s != [] && s[0] == E
    ensures EntriesIn(s, map[], s[1..])
  {
    var m: map<Text, Value> := map[];
    assert m.Keys == {};
    assert EncodeEntries(Dict(m), InOrder(m.Keys)) == [];
    assert s == [s[0]] + s[1..];
  }

  lemma {:induction false} EncodeParseEntries(s: seq<byte>, depth: nat, lim: Limits, last: Option<Text>)
    requires ParseEntries(s, depth, lim, last).Entries?
    ensures var r := ParseEntries(s, depth, lim, last); EntriesIn(s, r.entries, r.rest) && AllWithin(r.entries, depth, lim)
    decreases |s|, 1
  {
    var first, r := Parse(s, depth, lim), ParseEntries(s, depth, lim, last);
    if first.Got? {
      var k, second := first.value.s, Parse(first.rest, depth, lim);
      var tail := ParseEntries(second.rest, depth, lim, Some(k));
      EncodeParse(s, depth, lim);
      EncodeParse(first.rest, depth, lim);
      EncodeParseEntries(second.rest, depth, lim, Some(k));
      EntriesFollow(second.rest, depth, lim, Some(k));
      EntryWasEncoded(s, k, first.rest, second.value, second.rest, tail.entries, r.rest);
      WithinPut(tail.entries, k, second.value, depth, lim);
    } else {
      NoEntriesIn(s);
    }
  }

  lemma {:induction false} WithinPut(m: map<Text, Value>, k: Text, v: Value, depth: nat, lim: Limits)
    requires AllWithin(m, depth, lim) && |k| <= lim.Str() && Within(v, depth, lim)
    ensures AllWithin(m[k := v], depth, lim)
  {
  }

  lemma {:induction false} EntryWasEncoded(
    s: seq<byte>, k: Text, s': seq<byte>, v: Value, tail: seq<byte>, m: map<Text, Value>, rest: seq<byte>)
    requires s == EncodeString(k) + s' && s' == Encode(v) + tail && forall k' :: k' in m ==> Less(k, k')
    requires EntriesIn(tail, m, rest)
    ensures EntriesIn(s, m[k := v], rest)
  {
    EntryForm(m, k, v);
    Regroup5(EncodeString(k), Encode(v), EncodeEntries(Dict(m), InOrder(m.Keys)), [E], rest);
  }

  lemma {:induction false} KeysFollow(last: Option<Text>, k: Text, m: map<Text, Value>)
    requires InSequence(last, k) && forall k' :: k' in m ==> Less(k, k')
    ensures forall k' :: k' in m ==> InSequence(last, k')
  {
    if last.Some? {
      forall k' | k' in m ensures Less(last.value, k') { Transitive(last.value, k, k'); }
    }
  }

  /** A key below all the others comes first. */
  lemma {:induction false} EntryForm(m: map<Text, Value>, k: Text, v: Value)
    requires forall k' :: k' in m ==> Less(k, k')
    ensures var m' := m[k := v];
            EncodeEntries(Dict(m'), InOrder(m'.Keys)) ==
            EncodeString(k) + Encode(v) + EncodeEntries(Dict(m), InOrder(m.Keys))
  {
    var m', ks := m[k := v], InOrder(m.Keys);
    InOrderSorted(m.Keys);
    InOrderSorted(m'.Keys);
    assert Sorted([k] + ks) by {
      forall j | 0 <= j < |ks| ensures Less(k, ks[j]) { assert ks[j] in ks; }
    }
    SortedUnique(InOrder(m'.Keys), [k] + ks);
    assert ([k] + ks)[1..] == ks;
    assert k !in m by { Trichotomy(k, k); }
    EntriesAgree(Dict(m), Dict(m'), ks);
  }

  lemma {:induction false} EntriesAgree(v: Value, w: Value, ks: seq<Text>)
    requires v.Dict? && w.Dict? && forall k :: k in ks ==> k in v.entries && k in w.entries && v.entries[k] == w.entries[k]
    ensures EncodeEntries(v, ks) == EncodeEntries(w, ks)
    decreases |ks|
  {
    if ks != [] {
      assert ks[0] in ks;
      EntriesAgree(v, w, ks[1..]);
    }
  }

  /** The entries of a dict, one after the other, by the keys given. */
  ghost function EntriesBytes(m: map<Text, Value>, ks: seq<Text>): seq<byte>
    requires forall k :: k in ks ==> k in m
  {
    if ks == [] then []
    else
      assert ks[|ks| - 1] in ks;
      EntriesBytes(m, ks[..|ks| - 1]) + (EncodeString(ks[|ks| - 1]) + Encode(m[ks[|ks| - 1]]))
  }

  /** A dict is written, and only accepted, with its keys in the order of byte strings. */
  lemma {:induction false} DictInOrder(m: map<Text, Value>, ks: seq<Text>)
    requires Ascending(ks) && forall k :: k in ks <==> k in m
    ensures Encode(Dict(m)) == [D] + EntriesBytes(m, ks) + [E]
  {
    InOrderSorted(m.Keys);
    assert Sorted(ks) by {
      forall i, j | 0 <= i < j < |ks| ensures Less(ks[i], ks[j]) { LessIs(ks[i], ks[j]); }
    }
    SortedUnique(ks, InOrder(m.Keys));
    EntriesBytesAre(m, ks);
  }

  lemma {:induction false} EntriesBytesAre(m: map<Text, Value>, ks: seq<Text>)
    requires forall k :: k in ks ==> k in m
    ensures EncodeEntries(Dict(m), ks) == EntriesBytes(m, ks)
    decreases |ks|
  {
    if ks != [] {
      var n := |ks| - 1;
      assert ks[n] in ks;
      EntriesBytesAre(m, ks[..n]);
      EntriesAppend(m, ks[..n], ks[n]);
      hide Encode, EncodeString, EncodeEntries;
      assert ks == ks[..n] + [ks[n]];
    }
  }

  lemma {:induction false} EntriesAppend(m: map<Text, Value>, ks: seq<Text>, k: Text)
    requires k in m && forall x :: x in ks ==> x in m
    ensures EncodeEntries(Dict(m), ks + [k]) == EncodeEntries(Dict(m), ks) + (EncodeString(k) + Encode(m[k]))
    decreases |ks|
  {
    var all := ks + [k];
    if ks == [] {
      assert all[1..] == [] && all[0] == k;
      assert EncodeEntries(Dict(m), all[1..]) == [];
    } else {
      assert all[0] == ks[0] && all[1..] == ks[1..] + [k];
      EntriesAppend(m, ks[1..], k);
      Regroup(EncodeString(ks[0]) + Encode(m[ks[0]]), EncodeEntries(Dict(m), ks[1..]), EncodeString(k) + Encode(m[k]));
    }
  }

  lemma {:induction false} TwoEntries(m: map<Text, Value>, k1: Text, k2: Text, x: seq<byte>, y: seq<byte>)
    requires PrecedesAt(k1, k2, 0) && k1 in m && k2 in m && forall k :: k in m ==> k == k1 || k == k2
    requires x == EncodeString(k1) + Encode(m[k1]) && y == EncodeString(k2) + Encode(m[k2])
    ensures Encode(Dict(m)) == [D] + (x + y) + [E]
  {
    hide Encode, EncodeString, EncodeEntries;
    var ks := [k1, k2];
    DictInOrder(m, ks);
    assert ks[..1] == [k1] && [k1][..0] == [];
    assert EntriesBytes(m, []) == [] && EntriesBytes(m, [k1]) == [] + x;
    assert [] + x == x && EntriesBytes(m, ks) == EntriesBytes(m, [k1]) + y;
  }

  /** As in {"a": 1, "b": 2}. */
  lemma {:induction false} TwoKeys(m: map<Text, Value>)
    requires m == map[[97] := Int(1), [98] := Int(2)]
    ensures Encode(Dict(m)) == [100, 49, 58, 97, 105, 49, 101, 49, 58, 98, 105, 50, 101, 101]
  {
    hide Encode, EncodeString;
    OneEntry(1, 97);
    OneEntry(2, 98);
    TwoEntries(m, [97], [98], [49, 58, 97] + [105, 49, 101], [49, 58, 98] + [105, 50, 101]);
  }

  lemma {:induction false} OneEntry(n: nat, b: byte)
    requires n < 10
    ensures Encode(Int(n)) == [105, 48 + n, 101] && EncodeString([b]) == [49, 58, b]
  {
    assert Decimal.Digits(n) == [48 + n] && Decimal.Digits(1) == [49];
  }

  /** The whole law: the parser returns a value and a remainder exactly for the value's
      encoding followed by that remainder, the value being within the limits. */
  lemma {:induction false} OneForm(s: seq<byte>, v: Value, rest: seq<byte>, depth: nat, lim: Limits)
    ensures Parse(s, depth, lim) == Got(v, rest) <==> s == Encode(v) + rest && Within(v, depth, lim)
  {
    if Parse(s, depth, lim) == Got(v, rest) { EncodeParse(s, depth, lim); }
    if s == Encode(v) + rest && Within(v, depth, lim) { ParseEncode(v, s, rest, depth, lim); }
  }
}
