/** BitTorrent v2 Merkle trees (merkle/merkle.go, merkle/hash.go, metainfo/bep52.go).

    The hash functions are parameters: all results hold for any pair hash, any
    block hash and any zero hash. */
module Merkle {
  import opened Arithmetic
  import opened Bytes
  import opened Outcomes

  /** sha256 of a pair of hashes, sha256 of a block, the all-zero hash, and sha256 of nothing. */
  datatype Hasher<!T> = Hasher(node: (T, T) -> T, leaf: seq<byte> -> T, zero: T, nil: T)

  const BLOCK_SIZE := 16384

  // ---------- powers of two ----------

  /** bits.Len. */
  function BitLen(n: nat): nat {
    if n == 0 then 0 else 1 + BitLen(n / 2)
  }

  /** The machine's & on non-negative numbers. */
  function BitAnd(a: nat, b: nat): nat {
    if a == 0 || b == 0 then 0 else 2 * BitAnd(a / 2, b / 2) + (a % 2) * (b % 2)
  }

  predicate IsPowerOfTwo(n: int) {
    n > 0 && BitAnd(n, n - 1) == 0
  }

  function RoundUpToPowerOfTwo(n: nat): nat
    requires n > 0
  {
    Pow2(BitLen(n - 1))
  }

  lemma {:induction false} Pow2Mono(i: nat, j: nat)
    requires i <= j
    ensures Pow2(i) <= Pow2(j)
    decreases j - i
  {
    if i < j { Pow2Mono(i + 1, j); }
  }

  lemma {:induction false} Pow2Add(i: nat, j: nat)
    ensures Pow2(i + j) == Pow2(i) * Pow2(j)
    decreases i
  {
    if i > 0 {
      Pow2Add(i - 1, j);
      assert 2 * (Pow2(i - 1) * Pow2(j)) == Pow2(i) * Pow2(j);
    }
  }

  lemma {:induction false} BitLenBounds(n: nat)
    ensures n < Pow2(BitLen(n))
    ensures n > 0 ==> Pow2(BitLen(n) - 1) <= n
  {
    if n > 0 { BitLenBounds(n / 2); }
  }

  /** Rounding up gives the least power of two that is not smaller. */
  lemma {:induction false} RoundUpLeast(n: nat)
    requires n > 0
    ensures n <= RoundUpToPowerOfTwo(n)
    ensures forall k: nat :: n <= Pow2(k) ==> RoundUpToPowerOfTwo(n) <= Pow2(k)
  {
    BitLenBounds(n - 1);
    forall k: nat | n <= Pow2(k)
      ensures RoundUpToPowerOfTwo(n) <= Pow2(k)
    {
      var b := BitLen(n - 1);
      if k < b { Pow2Mono(k, b - 1); }
      Pow2Mono(b, if k < b then b else k);
    }
  }

  lemma {:induction false} RoundUpIs(n: nat, k: nat)
    requires k > 0 && Pow2(k - 1) < n <= Pow2(k)
    ensures RoundUpToPowerOfTwo(n) == Pow2(k)
  {
    BitLenBounds(n - 1);
    var b := BitLen(n - 1);
    if b < k { Pow2Mono(b, k - 1); }
    if b > k { Pow2Mono(k, b - 1); }
  }

  lemma {:induction false} AndSelf(n: nat)
    ensures BitAnd(n, n) == n
  {
    if n > 0 { AndSelf(n / 2); }
  }

  /** Halving an even number keeps the bit test. */
  lemma {:induction false} TestHalves(m: nat)
    requires m > 0
    ensures IsPowerOfTwo(2 * m) <==> IsPowerOfTwo(m)
  {
    assert (2 * m) / 2 == m && (2 * m) % 2 == 0;
    assert (2 * m - 1) / 2 == m - 1 && (2 * m - 1) % 2 == 1;
    assert BitAnd(2 * m, 2 * m - 1) == 2 * BitAnd(m, m - 1);
  }

  /** An odd number above one fails the bit test. */
  lemma {:induction false} TestOdd(m: nat)
    requires m > 0
    ensures !IsPowerOfTwo(2 * m + 1)
  {
    var n := 2 * m + 1;
    assert n / 2 == m && (n - 1) / 2 == m && (n - 1) % 2 == 0;
    AndSelf(m);
    assert BitAnd(n, n - 1) == 2 * BitAnd(m, m);
  }

  lemma {:induction false} TestSound(n: nat) returns (k: nat)
    requires IsPowerOfTwo(n)
    ensures n == Pow2(k)
  {
    var m := n / 2;
    if n % 2 == 0 {
      assert n == 2 * m;
      TestHalves(m);
      k := TestSound(m);
      k := k + 1;
    } else {
      assert n == 1 by {
        if m > 0 { TestOdd(m); }
      }
      k := 0;
    }
  }

  lemma {:induction false} TestComplete(j: nat)
    ensures IsPowerOfTwo(Pow2(j))
  {
    if j > 0 {
      TestComplete(j - 1);
      TestHalves(Pow2(j - 1));
    }
  }

  /** n & (n-1) == 0 is the test for a power of two, and gives its exponent. */
  lemma {:induction false} PowerTest(n: nat) returns (k: nat)
    requires n > 0
    ensures IsPowerOfTwo(n) <==> n == Pow2(k)
    ensures IsPowerOfTwo(n) <==> (exists j: nat :: n == Pow2(j))
  {
    forall j: nat | n == Pow2(j) ensures IsPowerOfTwo(n) { TestComplete(j); }
    k := 0;
    if IsPowerOfTwo(n) { k := TestSound(n); }
  }

  /** Either branch of RootWithPadHash pads to the same length. */
  lemma {:induction false} PowerRoundsToItself(n: nat)
    requires n > 0 && IsPowerOfTwo(n)
    ensures RoundUpToPowerOfTwo(n) == n
  {
    var k := PowerTest(n);
    if k > 0 { RoundUpIs(n, k); }
  }

  // ---------- trees ----------

  function Repeat<T>(x: T, n: nat): seq<T> {
    seq(n, _ => x)
  }

  function Pad<T>(s: seq<T>, x: T, n: nat): seq<T> {
    if |s| >= n then s else s + Repeat(x, n - |s|)
  }

  /** The reference definition: the root of a complete tree over 2^k leaves. */
  function Tree<T>(node: (T, T) -> T, s: seq<T>, k: nat): T
    requires |s| == Pow2(k)
  {
    if k == 0 then s[0]
    else node(Tree(node, s[..Pow2(k - 1)], k - 1), Tree(node, s[Pow2(k - 1)..], k - 1))
  }

  /** One level up: hashes of neighbouring pairs. */
  function Reduce<T>(node: (T, T) -> T, s: seq<T>): seq<T> {
    seq(|s| / 2, i requires 0 <= i < |s| / 2 => node(s[2 * i], s[2 * i + 1]))
  }

  /** Level by level, as the in-place loop goes. */
  function LevelRoot<T>(node: (T, T) -> T, s: seq<T>): T
    requires s != []
    decreases |s|
  {
    if |s| == 1 then s[0] else LevelRoot(node, Reduce(node, s))
  }

  lemma {:induction false} ReduceTree<T>(node: (T, T) -> T, s: seq<T>, k: nat)
    requires k > 0 && |s| == Pow2(k)
    ensures |Reduce(node, s)| == Pow2(k - 1)
    ensures Tree(node, s, k) == Tree(node, Reduce(node, s), k - 1)
    decreases k
  {
    var h := Pow2(k - 1);
    if k > 1 {
      ReduceTree(node, s[..h], k - 1);
      ReduceTree(node, s[h..], k - 1);
      var r := Reduce(node, s);
      assert h == 2 * Pow2(k - 2);
      assert r[..Pow2(k - 2)] == Reduce(node, s[..h]);
      assert r[Pow2(k - 2)..] == Reduce(node, s[h..]);
    }
  }

  /** Level reduction computes the tree root. */
  lemma {:induction false} LevelRootIsTree<T>(node: (T, T) -> T, s: seq<T>, k: nat)
    requires |s| == Pow2(k)
    ensures LevelRoot(node, s) == Tree(node, s, k)
    decreases k
  {
    if k > 0 {
      ReduceTree(node, s, k);
      LevelRootIsTree(node, Reduce(node, s), k - 1);
    }
  }

  /** RootWithPadHash; `nil` is the hash of no data at all. */
  function RootWithPadHash<T>(h: Hasher<T>, hashes: seq<T>, padHash: T): T {
    if hashes == [] then h.nil
    else if |hashes| == 1 then hashes[0]
    else
      var target := if IsPowerOfTwo(|hashes|) then |hashes| else RoundUpToPowerOfTwo(|hashes|);
      LevelRoot(h.node, Pad(hashes, padHash, target))
  }

  /** Root: the same without padding; a number of hashes that is no power of two is a panic. */
  function Root<T>(h: Hasher<T>, hashes: seq<T>): Outcome<T> {
    if hashes == [] then Ok(h.nil)
    else if |hashes| == 1 then Ok(hashes[0])
    else if |hashes| != RoundUpToPowerOfTwo(|hashes|) then Panic
    else Ok(LevelRoot(h.node, hashes))
  }

  /** HashForPiecePad: the tree over a piece's worth of zero hashes. */
  function HashForPiecePad<T>(h: Hasher<T>, pieceLength: nat): Outcome<T> {
    Root(h, Repeat(h.zero, pieceLength / BLOCK_SIZE))
  }

  /** Root gives what padding would, exactly when there is nothing to pad. */
  lemma {:induction false} RootExact<T>(h: Hasher<T>, hashes: seq<T>, padHash: T)
    ensures Root(h, hashes).Ok? <==> hashes == [] || IsPowerOfTwo(|hashes|)
    ensures Root(h, hashes).Ok? ==> Root(h, hashes).value == RootWithPadHash(h, hashes, padHash)
  {
    var n := |hashes|;
    if n == 1 {
      TestComplete(0);
    } else if n > 1 {
      if IsPowerOfTwo(n) { PowerRoundsToItself(n); }
      if n == RoundUpToPowerOfTwo(n) {
        TestComplete(BitLen(n - 1));
        assert Pad(hashes, padHash, n) == hashes;
      }
    }
  }

  /** For one or more hashes the result is the root of the padded complete tree. */
  lemma {:induction false} RootIsPaddedTree<T>(h: Hasher<T>, hashes: seq<T>, padHash: T, k: nat)
    requires hashes != [] && RoundUpToPowerOfTwo(|hashes|) == Pow2(k)
    ensures |Pad(hashes, padHash, Pow2(k))| == Pow2(k)
    ensures RootWithPadHash(h, hashes, padHash) == Tree(h.node, Pad(hashes, padHash, Pow2(k)), k)
  {
    RoundUpLeast(|hashes|);
    if |hashes| == 1 {
      assert BitLen(0) == 0 && Pow2(0) == 1;
      assert k == 0;
    } else {
      if IsPowerOfTwo(|hashes|) { PowerRoundsToItself(|hashes|); }
      LevelRootIsTree(h.node, Pad(hashes, padHash, Pow2(k)), k);
    }
  }

  // ---------- splitting into chunks ----------

  /** Consecutive pieces of n elements, the last one possibly shorter. */
  function Chunks<T>(s: seq<T>, n: nat): seq<seq<T>>
    requires n > 0
    decreases |s|
  {
    if s == [] then []
    else if |s| <= n then [s]
    else [s[..n]] + Chunks(s[n..], n)
  }

  function Map<A, B>(f: A -> B, s: seq<A>): seq<B> {
    seq(|s|, i requires 0 <= i < |s| => f(s[i]))
  }

  lemma {:induction false} MapCons<A, B>(f: A -> B, x: A, s: seq<A>)
    ensures Map(f, [x] + s) == [f(x)] + Map(f, s)
  {
  }

  lemma {:induction false} MapAppend<A, B>(f: A -> B, s: seq<A>, t: seq<A>)
    ensures Map(f, s + t) == Map(f, s) + Map(f, t)
  {
  }

  lemma {:induction false} ChunksAppend<T>(a: seq<T>, b: seq<T>, n: nat)
    requires n > 0 && |a| % n == 0
    ensures Chunks(a + b, n) == Chunks(a, n) + Chunks(b, n)
    decreases |a|
  {
    if a == [] {
      assert a + b == b;
    } else {
      assert |a| >= n;
      assert (a + b)[..n] == a[..n] && (a + b)[n..] == a[n..] + b;
      assert |a[n..]| % n == 0 by { SubMod(|a|, n); }
      ChunksAppend(a[n..], b, n);
      if |a| == n {
        assert a[n..] == [] && a[..n] == a;
        if b == [] { assert a + b == a; }
      } else {
        assert Chunks(a, n) == [a[..n]] + Chunks(a[n..], n);
      }
    }
  }

  /** A chunk count k means more than k-1 and at most k chunks' worth of elements. */
  lemma {:induction false} ChunkCount<T>(s: seq<T>, n: nat)
    requires n > 0
    ensures var k := |Chunks(s, n)|; |s| <= k * n && (s != [] ==> k > 0 && (k - 1) * n < |s|)
    decreases |s|
  {
    if |s| > n {
      ChunkCount(s[n..], n);
      var k := |Chunks(s[n..], n)|;
      assert (k + 1) * n == k * n + n && k * n == (k - 1) * n + n;
    }
  }

  // ---------- trees of trees ----------

  ghost predicate AllLength<T>(ss: seq<seq<T>>, n: nat) {
    forall i :: 0 <= i < |ss| ==> |ss[i]| == n
  }

  /** The roots of equal-sized groups of leaves. */
  function Roots<T>(node: (T, T) -> T, groups: seq<seq<T>>, p: nat): seq<T>
    requires AllLength(groups, Pow2(p))
  {
    seq(|groups|, i requires 0 <= i < |groups| => Tree(node, groups[i], p))
  }

  lemma {:induction false} EvenChunks<T>(s: seq<T>, n: nat, m: nat)
    requires n > 0 && |s| == m * n
    ensures |Chunks(s, n)| == m && AllLength(Chunks(s, n), n)
    decreases m
  {
    if m == 1 {
      assert s != [];
    } else if m > 1 {
      assert m * n == (m - 1) * n + n;
      MulMono(1, m - 1, n, n);
      EvenChunks(s[n..], n, m - 1);
    }
  }

  lemma {:induction false} RootsAppend<T>(node: (T, T) -> T, a: seq<seq<T>>, b: seq<seq<T>>, p: nat)
    requires AllLength(a, Pow2(p)) && AllLength(b, Pow2(p))
    ensures AllLength(a + b, Pow2(p))
    ensures Roots(node, a + b, p) == Roots(node, a, p) + Roots(node, b, p)
  {
  }

  /** A tree over 2^(j+p) leaves is a tree over the 2^j roots of its groups of 2^p. */
  lemma {:induction false} TreeOfTrees<T>(node: (T, T) -> T, s: seq<T>, j: nat, p: nat)
    requires |s| == Pow2(j + p)
    ensures var g := Chunks(s, Pow2(p));
            && |g| == Pow2(j) && AllLength(g, Pow2(p))
            && Tree(node, s, j + p) == Tree(node, Roots(node, g, p), j)
    decreases j
  {
    Pow2Add(j, p);
    EvenChunks(s, Pow2(p), Pow2(j));
    if j > 0 {
      var h := Pow2(j - 1 + p);
      TreeOfTrees(node, s[..h], j - 1, p);
      TreeOfTrees(node, s[h..], j - 1, p);
      RootsSplit(node, s, j, p);
      TreeAppend(node, Roots(node, Chunks(s[..h], Pow2(p)), p), Roots(node, Chunks(s[h..], Pow2(p)), p), j);
    }
  }

  lemma {:induction false} TreeAppend<T>(node: (T, T) -> T, a: seq<T>, b: seq<T>, j: nat)
    requires j > 0 && |a| == Pow2(j - 1) && |b| == Pow2(j - 1)
    ensures |a + b| == Pow2(j) && Tree(node, a + b, j) == node(Tree(node, a, j - 1), Tree(node, b, j - 1))
  {
    assert (a + b)[..Pow2(j - 1)] == a && (a + b)[Pow2(j - 1)..] == b;
  }

  /** The roots of the groups of both halves are those of the groups of the whole. */
  lemma {:induction false} RootsSplit<T>(node: (T, T) -> T, s: seq<T>, j: nat, p: nat)
    requires j > 0 && |s| == Pow2(j + p)
    requires var h := Pow2(j - 1 + p);
             AllLength(Chunks(s[..h], Pow2(p)), Pow2(p)) && AllLength(Chunks(s[h..], Pow2(p)), Pow2(p))
    ensures var h := Pow2(j - 1 + p);
            && AllLength(Chunks(s, Pow2(p)), Pow2(p))
            && Roots(node, Chunks(s, Pow2(p)), p) ==
               Roots(node, Chunks(s[..h], Pow2(p)), p) + Roots(node, Chunks(s[h..], Pow2(p)), p)
  {
    var h, n := Pow2(j - 1 + p), Pow2(p);
    Pow2Add(j - 1, p);
    MulMod(Pow2(j - 1), n);
    ChunksAppend(s[..h], s[h..], n);
    assert s[..h] + s[h..] == s;
    RootsAppend(node, Chunks(s[..h], n), Chunks(s[h..], n), p);
  }

  // ---------- piece layers ----------

  function PadEach<T>(cs: seq<seq<T>>, x: T, n: nat): seq<seq<T>> {
    seq(|cs|, i requires 0 <= i < |cs| => Pad(cs[i], x, n))
  }

  lemma {:induction false} OneChunk<T>(s: seq<T>, n: nat, t: seq<T>)
    requires n > 0 && |s| == n
    ensures Chunks(s + t, n) == [s] + Chunks(t, n)
  {
    ChunksAppend(s, t, n);
  }

  lemma {:induction false} AllPadding<T>(x: T, n: nat, m: nat)
    requires n > 0
    ensures Chunks(Repeat(x, m * n), n) == Repeat(Repeat(x, n), m)
    decreases m
  {
    if m > 0 {
      assert m * n == (m - 1) * n + n;
      assert Repeat(x, m * n) == Repeat(x, n) + Repeat(x, (m - 1) * n);
      OneChunk(Repeat(x, n), n, Repeat(x, (m - 1) * n));
      AllPadding(x, n, m - 1);
      assert Repeat(Repeat(x, n), m) == [Repeat(x, n)] + Repeat(Repeat(x, n), m - 1);
    }
  }

  /** Padding all leaves at once is padding the last group and adding groups of padding. */
  lemma {:induction false} PadChunks<T>(s: seq<T>, x: T, n: nat, m: nat)
    requires n > 0 && |Chunks(s, n)| <= m && |s| <= m * n
    ensures Chunks(Pad(s, x, m * n), n) ==
            PadEach(Chunks(s, n), x, n) + Repeat(Repeat(x, n), m - |Chunks(s, n)|)
    decreases |s|
  {
    if s == [] {
      assert Pad(s, x, m * n) == Repeat(x, m * n);
      AllPadding(x, n, m);
    } else {
      assert m * n == (m - 1) * n + n;
      MulMono(0, m - 1, 0, n);
      if |s| <= n {
        assert Pad(s, x, m * n) == Pad(s, x, n) + Repeat(x, (m - 1) * n);
        OneChunk(Pad(s, x, n), n, Repeat(x, (m - 1) * n));
        AllPadding(x, n, m - 1);
      } else {
        assert Pad(s, x, m * n) == s[..n] + Pad(s[n..], x, (m - 1) * n);
        OneChunk(s[..n], n, Pad(s[n..], x, (m - 1) * n));
        PadChunks(s[n..], x, n, m - 1);
        assert PadEach(Chunks(s, n), x, n) == [s[..n]] + PadEach(Chunks(s[n..], n), x, n);
      }
    }
  }

  /** The hash of one piece: its leaves padded to a whole piece of zero hashes. */
  function PieceRoot<T>(h: Hasher<T>, leaves: seq<T>, n: nat): T {
    RootWithPadHash(h, Pad(leaves, h.zero, n), h.zero)
  }

  lemma {:induction false} PieceRootIsTree<T>(h: Hasher<T>, leaves: seq<T>, p: nat)
    requires |leaves| <= Pow2(p)
    ensures |Pad(leaves, h.zero, Pow2(p))| == Pow2(p)
    ensures PieceRoot(h, leaves, Pow2(p)) == Tree(h.node, Pad(leaves, h.zero, Pow2(p)), p)
  {
    var s := Pad(leaves, h.zero, Pow2(p));
    PowTwoRoundsToItself(p);
    RootIsPaddedTree(h, s, h.zero, p);
    assert Pad(s, h.zero, Pow2(p)) == s;
  }

  lemma {:induction false} PowTwoRoundsToItself(p: nat)
    ensures RoundUpToPowerOfTwo(Pow2(p)) == Pow2(p)
  {
    if p > 0 { RoundUpIs(Pow2(p), p); }
  }
}
