/** The order of byte strings, and a set of them in that order. */
module ByteOrder {
  import opened Bytes

  type Text = seq<byte>

  predicate Less(a: Text, b: Text) {
    b != [] && (a == [] || a[0] < b[0] || (a[0] == b[0] && Less(a[1..], b[1..])))
  }

  /** a is a proper front of b, or is smaller at the first byte where they differ. */
  ghost predicate Precedes(a: Text, b: Text) {
    exists k: nat :: PrecedesAt(a, b, k)
  }

  predicate PrecedesAt(a: Text, b: Text, k: nat) {
    k <= |a| && k < |b| && a[..k] == b[..k] && (k == |a| || a[k] < b[k])
  }

  /** The order is that of byte strings. */
  lemma {:induction false} LessIs(a: Text, b: Text)
    ensures Less(a, b) <==> Precedes(a, b)
  {
    if Less(a, b) { var k := LessAt(a, b); }
    if Precedes(a, b) {
      var k: nat :| PrecedesAt(a, b, k);
      AtLess(a, b, k);
    }
  }

  lemma {:induction false} LessAt(a: Text, b: Text) returns (k: nat)
    requires Less(a, b)
    ensures PrecedesAt(a, b, k)
  {
    k := 0;
    if a != [] && a[0] == b[0] {
      k := LessAt(a[1..], b[1..]);
      assert a[..k + 1] == [a[0]] + a[1..][..k] && b[..k + 1] == [b[0]] + b[1..][..k];
      k := k + 1;
    }
  }

  lemma {:induction false} AtLess(a: Text, b: Text, k: nat)
    requires PrecedesAt(a, b, k)
    ensures Less(a, b)
  {
    if k > 0 {
      assert a[0] == a[..k][0] == b[..k][0] == b[0];
      assert a[1..][..k - 1] == a[..k][1..] == b[..k][1..] == b[1..][..k - 1];
      AtLess(a[1..], b[1..], k - 1);
    }
  }

  lemma {:induction false} Trichotomy(a: Text, b: Text)
    ensures a == b || Less(a, b) || Less(b, a)
    ensures !(Less(a, b) && Less(b, a)) && (a == b ==> !Less(a, b))
  {
    if a != [] && b != [] && a[0] == b[0] {
      Trichotomy(a[1..], b[1..]);
      assert a == [a[0]] + a[1..] && b == [b[0]] + b[1..];
    }
  }

  lemma {:induction false} Transitive(a: Text, b: Text, c: Text)
    requires Less(a, b) && Less(b, c)
    ensures Less(a, c)
  {
    if a != [] && a[0] == b[0] && b[0] == c[0] { Transitive(a[1..], b[1..], c[1..]); }
  }

  predicate Sorted(ks: seq<Text>) {
    forall i, j :: 0 <= i < j < |ks| ==> Less(ks[i], ks[j])
  }

  predicate IsLeast(k: Text, s: set<Text>) {
    k in s && forall k' :: k' in s && k' != k ==> Less(k, k')
  }

  lemma {:induction false} LeastExists(s: set<Text>)
    requires s != {}
    ensures exists k :: IsLeast(k, s)
    decreases |s|
  {
    var x :| x in s;
    var rest := s - {x};
    if rest == {} {
      assert s == {x};
      assert IsLeast(x, s);
    } else {
      LeastExists(rest);
      var k :| IsLeast(k, rest);
      Trichotomy(x, k);
      var m := if Less(x, k) then x else k;
      forall k' | k' in s && k' != m ensures Less(m, k') {
        if Less(x, k) && k' != k { Transitive(x, k, k'); }
      }
      assert IsLeast(m, s);
    }
  }

  lemma {:induction false} LeastUnique(a: Text, b: Text, s: set<Text>)
    requires IsLeast(a, s) && IsLeast(b, s)
    ensures a == b
  {
    Trichotomy(a, b);
  }

  /** sort.Sort of a map's keys. */
  ghost function InOrder(s: set<Text>): (ks: seq<Text>)
    ensures |ks| == |s| && forall k :: k in ks <==> k in s
    decreases |s|
  {
    if s == {} then []
    else
      LeastExists(s);
      var k :| IsLeast(k, s);
      [k] + InOrder(s - {k})
  }

  lemma {:induction false} InOrderSorted(s: set<Text>)
    ensures Sorted(InOrder(s))
    decreases |s|
  {
    if s != {} {
      LeastExists(s);
      var k := InOrder(s)[0];
      assert IsLeast(k, s);
      var rest := InOrder(s - {k});
      assert InOrder(s) == [k] + rest;
      InOrderSorted(s - {k});
      assert forall j :: 0 <= j < |rest| ==> rest[j] in rest;
    }
  }

  /** Keys in the order of byte strings, each once. */
  ghost predicate Ascending(ks: seq<Text>) {
    forall i, j :: 0 <= i < j < |ks| ==> Precedes(ks[i], ks[j])
  }

  lemma {:induction false} InOrderAscends(s: set<Text>)
    ensures Ascending(InOrder(s))
  {
    InOrderSorted(s);
    var ks := InOrder(s);
    forall i, j | 0 <= i < j < |ks| ensures Precedes(ks[i], ks[j]) { LessIs(ks[i], ks[j]); }
  }

  /** A set has one sorted listing. */
  lemma {:induction false} SortedUnique(a: seq<Text>, b: seq<Text>)
    requires Sorted(a) && Sorted(b) && forall k :: k in a <==> k in b
    ensures a == b
  {
    if a == [] {
      assert forall i :: 0 <= i < |b| ==> b[i] in b;
    } else {
      assert a[0] in a && a[0] in b;
      assert b != [];
      assert b[0] in b && b[0] in a;
      Trichotomy(a[0], b[0]);
      var i :| 0 <= i < |b| && b[i] == a[0];
      var j :| 0 <= j < |a| && a[j] == b[0];
      assert a[0] == b[0];
      forall k ensures k in a[1..] <==> k in b[1..] {
        TailMember(a, k);
        TailMember(b, k);
      }
      SortedUnique(a[1..], b[1..]);
      assert a == [a[0]] + a[1..] && b == [b[0]] + b[1..];
    }
  }

  lemma {:induction false} TailMember(a: seq<Text>, k: Text)
    requires a != [] && Sorted(a)
    ensures k in a[1..] <==> k in a && k != a[0]
  {
    assert a == [a[0]] + a[1..];
    Trichotomy(a[0], a[0]);
  }
}
