/** Stream resynchronisation (mse/mse.go, suffixMatchLen and readUntil). */
module ReadUntil {

  /** b stands in s at position k. */
  predicate OccursAt<T(==)>(s: seq<T>, b: seq<T>, k: int) {
    0 <= k && k + |b| <= |s| && s[k..k + |b|] == b
  }

  /** The last i elements of a are the first i of b. */
  predicate SuffixIsPrefix<T(==)>(a: seq<T>, b: seq<T>, i: int) {
    0 <= i <= |a| && i <= |b| && a[|a| - i..] == b[..i]
  }

  /** The length of the longest suffix of a that is a prefix of b. */
  method SuffixMatchLen<T(==)>(a: seq<T>, b: seq<T>) returns (n: nat)
    ensures SuffixIsPrefix(a, b, n)
    ensures forall i :: n < i ==> !SuffixIsPrefix(a, b, i)
  {
    var i := if |b| > |a| then |a| else |b|;
    while i > 0
      invariant 0 <= i <= |a| && i <= |b|
      invariant forall x :: i < x ==> !SuffixIsPrefix(a, b, x)
    {
      var j := 0;
      while j < i && b[i - 1 - j] == a[|a| - 1 - j]
        invariant 0 <= j <= i
        invariant a[|a| - j..] == b[i - j..i]
      {
        assert a[|a| - j - 1..] == [a[|a| - 1 - j]] + a[|a| - j..];
        assert b[i - j - 1..i] == [b[i - 1 - j]] + b[i - j..i];
        j := j + 1;
      }
      if j == i {
        assert b[0..i] == b[..i];
        return j;
      }
      assert a[|a| - i..][i - 1 - j] != b[..i][i - 1 - j];
      i := i - 1;
    }
    assert a[|a|..] == b[..0];
    return 0;
  }

  /** i is the longest suffix of a that is a prefix of b. */
  ghost predicate Longest<T>(a: seq<T>, b: seq<T>, i: nat) {
    SuffixIsPrefix(a, b, i) && forall x :: i < x ==> !SuffixIsPrefix(a, b, x)
  }

  /** No occurrence of b begins before n. */
  ghost predicate NoneBefore<T>(s: seq<T>, b: seq<T>, n: int) {
    forall k :: 0 <= k < n ==> !OccursAt(s, b, k)
  }

  /** The window w is the last |b| elements read, and i of them are kept as a partial
      match. No occurrence can begin before the kept ones: it would extend the match. */
  lemma {:induction false} NoneSkipped<T>(s: seq<T>, b: seq<T>, w: seq<T>, q: nat, i: nat)
    requires |b| <= q <= |s| && i < |b| && w == s[q - |b|..q] && Longest(w, b, i)
    requires NoneBefore(s, b, q - |b|)
    ensures NoneBefore(s, b, q - i)
  {
    forall k | q - |b| <= k < q - i
      ensures !OccursAt(s, b, k)
    {
      var x := q - k;
      if OccursAt(s, b, k) {
        assert w[|w| - x..] == s[k..q] == s[k..k + |b|][..x];
        assert SuffixIsPrefix(w, b, x);
      }
    }
  }

  /** Reads until b has been seen, keeping only |b| elements. The stream is consumed
      exactly through the end of the first occurrence; without one, the read fails. */
  method ReadUntil<T(==)>(s: seq<T>, b: seq<T>) returns (found: bool, consumed: nat)
    ensures found ==> |b| <= consumed && OccursAt(s, b, consumed - |b|) && NoneBefore(s, b, consumed - |b|)
    ensures !found ==> forall k :: !OccursAt(s, b, k)
  {
    if |s| < |b| { return false, 0; }
    consumed := |b|;
    var window := s[..|b|];
    var i := SuffixMatchLen(window, b);
    while i != |b|
      invariant |b| <= consumed <= |s| && window == s[consumed - |b|..consumed]
      invariant Longest(window, b, i) && NoneBefore(s, b, consumed - |b|)
      decreases |s| - consumed
    {
      NoneSkipped(s, b, window, consumed, i);
      var need := |b| - i;
      if consumed + need > |s| { return false, consumed; }
      window := window[|b| - i..] + s[consumed..consumed + need];
      consumed := consumed + need;
      i := SuffixMatchLen(window, b);
    }
    assert window[0..] == window && b[..|b|] == b;
    found := true;
  }
}
