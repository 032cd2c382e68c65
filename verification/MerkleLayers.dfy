/** Piece layers: the root over per-piece hashes is the root over all leaf hashes
    (the "piece layers" key of BEP 52, checked by metainfo.ValidatePieceLayers). */
module MerkleLayers {
  import opened Arithmetic
  import opened Bytes
  import opened Outcomes
  import opened Merkle

  /** The hash of every piece, from the groups of its leaf hashes. */
  function PieceRoots<T>(h: Hasher<T>, groups: seq<seq<T>>, n: nat): seq<T> {
    seq(|groups|, i requires 0 <= i < |groups| => PieceRoot(h, groups[i], n))
  }

  lemma {:induction false} ChunksAtMost<T>(s: seq<T>, n: nat)
    requires n > 0
    ensures forall i :: 0 <= i < |Chunks(s, n)| ==> 0 < |Chunks(s, n)[i]| <= n
    decreases |s|
  {
    if |s| > n { ChunksAtMost(s[n..], n); }
  }

  /** k pieces of leaves round up to as many leaves as k rounds up to pieces. */
  lemma {:induction false} LeavesRoundUp<T>(leaves: seq<T>, p: nat, j: nat)
    requires |Chunks(leaves, Pow2(p))| >= 2
    requires RoundUpToPowerOfTwo(|Chunks(leaves, Pow2(p))|) == Pow2(j)
    ensures |Chunks(leaves, Pow2(p))| <= Pow2(j)
    ensures RoundUpToPowerOfTwo(|leaves|) == Pow2(j + p) == Pow2(j) * Pow2(p) && |leaves| <= Pow2(j + p)
  {
    var n, k := Pow2(p), |Chunks(leaves, Pow2(p))|;
    ChunkCount(leaves, n);
    RoundUpLeast(k);
    assert j > 0 by { assert Pow2(0) == 1; }
    var i: nat := j - 1;
    assert Pow2(j) == 2 * Pow2(i) && !(k <= Pow2(i));
    Pow2Add(j, p);
    Pow2Add(j - 1, p);
    MulMono(k, Pow2(j), n, n);
    MulMono(Pow2(j - 1), k - 1, n, n);
    RoundUpIs(|leaves|, j + p);
  }

  /** The hash of a piece of padding exists exactly when a piece has a power of two of blocks, or
      none. */
  lemma {:induction false} PadHashExact<T>(h: Hasher<T>, pieceLength: nat)
    ensures HashForPiecePad(h, pieceLength).Ok? <==>
            pieceLength / BLOCK_SIZE == 0 || IsPowerOfTwo(pieceLength / BLOCK_SIZE)
  {
    RootExact(h, Repeat(h.zero, pieceLength / BLOCK_SIZE), h.zero);
  }

  /** Pieces of 48 KiB, three blocks, have none: the panic of Root is reached. */
  lemma {:induction false} PadHashPanics<T>(h: Hasher<T>)
    ensures HashForPiecePad(h, 3 * BLOCK_SIZE) == Panic
  {
    assert BitAnd(3, 2) == 2 * BitAnd(1, 1) && BitAnd(1, 1) == 1;
    PadHashExact(h, 3 * BLOCK_SIZE);
  }

  /** It is then the root of the tree of its zero hashes. */
  lemma {:induction false} PadHashIsTree<T>(h: Hasher<T>, p: nat)
    ensures |Repeat(h.zero, Pow2(p))| == Pow2(p)
    ensures HashForPiecePad(h, Pow2(p) * BLOCK_SIZE) == Ok(Tree(h.node, Repeat(h.zero, Pow2(p)), p))
  {
    MulMod(Pow2(p), BLOCK_SIZE);
    TestComplete(p);
    RootExact(h, Repeat(h.zero, Pow2(p)), h.zero);
    PowTwoRoundsToItself(p);
    var z := Repeat(h.zero, Pow2(p));
    RootIsPaddedTree(h, z, h.zero, p);
    assert Pad(z, h.zero, Pow2(p)) == z;
  }

  lemma {:induction false} PaddedPieces<T>(h: Hasher<T>, groups: seq<seq<T>>, p: nat)
    requires forall i :: 0 <= i < |groups| ==> |groups[i]| <= Pow2(p)
    ensures AllLength(PadEach(groups, h.zero, Pow2(p)), Pow2(p))
    ensures Roots(h.node, PadEach(groups, h.zero, Pow2(p)), p) == PieceRoots(h, groups, Pow2(p))
  {
    forall i | 0 <= i < |groups|
      ensures |Pad(groups[i], h.zero, Pow2(p))| == Pow2(p)
      ensures PieceRoot(h, groups[i], Pow2(p)) == Tree(h.node, Pad(groups[i], h.zero, Pow2(p)), p)
    {
      PieceRootIsTree(h, groups[i], p);
    }
  }

  lemma {:induction false} PaddingPieces<T>(h: Hasher<T>, p: nat, m: nat)
    ensures AllLength(Repeat(Repeat(h.zero, Pow2(p)), m), Pow2(p))
    ensures HashForPiecePad(h, Pow2(p) * BLOCK_SIZE).Ok?
    ensures Roots(h.node, Repeat(Repeat(h.zero, Pow2(p)), m), p)
            == Repeat(HashForPiecePad(h, Pow2(p) * BLOCK_SIZE).value, m)
  {
    PadHashIsTree(h, p);
  }

  /** The groups of the padded leaves hash to the padded piece hashes. */
  lemma {:induction false} GroupRoots<T>(h: Hasher<T>, groups: seq<seq<T>>, p: nat, m: nat)
    requires |groups| <= m && forall i :: 0 <= i < |groups| ==> |groups[i]| <= Pow2(p)
    ensures var n := Pow2(p);
            var padded := PadEach(groups, h.zero, n) + Repeat(Repeat(h.zero, n), m - |groups|);
            && AllLength(padded, n) && HashForPiecePad(h, n * BLOCK_SIZE).Ok?
            && Roots(h.node, padded, p) == Pad(PieceRoots(h, groups, n), HashForPiecePad(h, n * BLOCK_SIZE).value, m)
  {
    PaddedPieces(h, groups, p);
    PaddingPieces(h, p, m - |groups|);
    RootsAppend(h.node, PadEach(groups, h.zero, Pow2(p)), Repeat(Repeat(h.zero, Pow2(p)), m - |groups|), p);
  }

  /** Main result: for two or more pieces of 2^p blocks, the root over the piece hashes,
      padded with the hash of a piece of padding, is the root over all leaf hashes,
      padded with zero hashes. */
  lemma {:induction false} LayersAgree<T>(h: Hasher<T>, leaves: seq<T>, p: nat)
    requires |Chunks(leaves, Pow2(p))| >= 2
    ensures HashForPiecePad(h, Pow2(p) * BLOCK_SIZE).Ok?
    ensures RootWithPadHash(h, PieceRoots(h, Chunks(leaves, Pow2(p)), Pow2(p)), HashForPiecePad(h, Pow2(p) * BLOCK_SIZE).value)
         == RootWithPadHash(h, leaves, h.zero)
  {
    var n, groups := Pow2(p), Chunks(leaves, Pow2(p));
    var j := BitLen(|groups| - 1);
    var m := Pow2(j);
    LeavesRoundUp(leaves, p, j);
    RootIsPaddedTree(h, leaves, h.zero, j + p);
    TreeOfTrees(h.node, Pad(leaves, h.zero, Pow2(j + p)), j, p);
    PadChunks(leaves, h.zero, n, m);
    ChunksAtMost(leaves, n);
    GroupRoots(h, groups, p, m);
    RootIsPaddedTree(h, PieceRoots(h, groups, n), HashForPiecePad(h, n * BLOCK_SIZE).value, j);
  }

  // ---------- from data ----------

  /** The leaf hashes of some data: one per block, the last block possibly short. */
  function LeafHashes<T>(h: Hasher<T>, data: seq<byte>): seq<T> {
    Map(h.leaf, Chunks(data, BLOCK_SIZE))
  }

  /** Grouping leaf hashes by piece is hashing the pieces' data. */
  lemma {:induction false} LeavesByPiece<T>(h: Hasher<T>, data: seq<byte>, n: nat)
    requires n > 0
    ensures Chunks(LeafHashes(h, data), n) == Map((d: seq<byte>) => LeafHashes(h, d), Chunks(data, n * BLOCK_SIZE))
    decreases |data|
  {
    var f := (d: seq<byte>) => LeafHashes(h, d);
    var size := n * BLOCK_SIZE;
    if data == [] {
    } else if |data| <= size {
      ChunkCount(data, BLOCK_SIZE);
      MulCancel(|Chunks(data, BLOCK_SIZE)| - 1, n, BLOCK_SIZE);
    } else {
      var head, rest := data[..size], data[size..];
      assert data == head + rest;
      MulMod(n, BLOCK_SIZE);
      ChunksAppend(head, rest, BLOCK_SIZE);
      MapAppend(h.leaf, Chunks(head, BLOCK_SIZE), Chunks(rest, BLOCK_SIZE));
      EvenChunks(head, BLOCK_SIZE, n);
      OneChunk(LeafHashes(h, head), n, LeafHashes(h, rest));
      LeavesByPiece(h, rest, n);
      MapCons(f, head, Chunks(rest, size));
    }
  }

  /** SumMinLength: the root over some data's leaves, extended by zero hashes to a length. */
  function PieceHash<T>(h: Hasher<T>, piece: seq<byte>, length: nat): T {
    PieceRoot(h, LeafHashes(h, piece), (length + BLOCK_SIZE - 1) / BLOCK_SIZE)
  }

  /** The hashes of the pieces of some data. */
  function PieceHashes<T>(h: Hasher<T>, pieces: seq<seq<byte>>, length: nat): seq<T> {
    seq(|pieces|, i requires 0 <= i < |pieces| => PieceHash(h, pieces[i], length))
  }

  lemma {:induction false} PieceHashesAreRoots<T>(h: Hasher<T>, pieces: seq<seq<byte>>, n: nat)
    ensures PieceHashes(h, pieces, n * BLOCK_SIZE)
         == PieceRoots(h, Map((d: seq<byte>) => LeafHashes(h, d), pieces), n)
  {
    DivModUnique(n * BLOCK_SIZE + BLOCK_SIZE - 1, BLOCK_SIZE, n, BLOCK_SIZE - 1);
  }

  /** For any file longer than one piece, hashing it whole and hashing it by pieces of
      2^p blocks give the same root. */
  lemma {:induction false} FileHashByPieces<T>(h: Hasher<T>, data: seq<byte>, p: nat)
    requires |data| > Pow2(p) * BLOCK_SIZE
    ensures var pieceLength := Pow2(p) * BLOCK_SIZE;
            var pad := HashForPiecePad(h, pieceLength);
            && pad.Ok?
            && RootWithPadHash(h, PieceHashes(h, Chunks(data, pieceLength), pieceLength), pad.value)
               == RootWithPadHash(h, LeafHashes(h, data), h.zero)
  {
    var n := Pow2(p);
    var pieceLength := n * BLOCK_SIZE;
    LeavesByPiece(h, data, n);
    assert |Chunks(data, pieceLength)| >= 2 by { assert data[pieceLength..] != []; }
    PieceHashesAreRoots(h, Chunks(data, pieceLength), n);
    LayersAgree(h, LeafHashes(h, data), p);
  }
}
