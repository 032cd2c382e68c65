/** The Merkle hash as it runs: the in-place level loop of merkle/merkle.go and the
    incremental block hasher of merkle/hash.go. */
module MerkleHash {
  import opened Arithmetic
  import opened Bytes
  import opened Merkle
  import opened MerkleLayers

  /** One round of rootInPlace: the front half becomes the next level. */
  method ReduceInPlace<T>(node: (T, T) -> T, level: array<T>, n: nat)
    requires n <= level.Length
    modifies level
    ensures level[..n / 2] == Reduce(node, old(level[..n]))
  {
    ghost var was := level[..n];
    ghost var next := Reduce(node, was);
    for i := 0 to n / 2
      invariant level[..i] == next[..i] && level[i..n] == was[i..]
    {
      assert level[2 * i] == level[i..n][i] == was[2 * i] && level[2 * i + 1] == level[i..n][i + 1] == was[2 * i + 1];
      level[i] := node(level[2 * i], level[2 * i + 1]);
      assert level[i + 1..n] == was[i + 1..];
    }
  }

  /** rootInPlace: overwrite the level with the next one until one hash is left. */
  method RootInPlace<T>(node: (T, T) -> T, level: array<T>, ghost k: nat) returns (root: T)
    requires level.Length == Pow2(k)
    modifies level
    ensures root == Tree(node, old(level[..]), k)
  {
    LevelRootIsTree(node, level[..], k);
    var n := level.Length;
    assert level[..n] == level[..];
    while n > 1
      invariant 0 < n <= level.Length
      invariant LevelRoot(node, level[..n]) == LevelRoot(node, old(level[..]))
      decreases n
    {
      ReduceInPlace(node, level, n);
      n := n / 2;
    }
    root := level[0];
  }

  /** A working copy of the hashes, filled up with the pad hash. */
  method PaddedCopy<T(0)>(hashes: seq<T>, padHash: T, targetLen: nat) returns (working: array<T>)
    requires |hashes| <= targetLen
    ensures fresh(working) && working[..] == Pad(hashes, padHash, targetLen)
  {
    working := new T[targetLen];
    for i := 0 to |hashes|
      invariant forall x :: 0 <= x < i ==> working[x] == hashes[x]
    {
      working[i] := hashes[i];
    }
    for i := |hashes| to targetLen
      invariant forall x :: 0 <= x < |hashes| ==> working[x] == hashes[x]
      invariant forall x :: |hashes| <= x < i ==> working[x] == padHash
    {
      working[i] := padHash;
    }
  }

  method RootPadded<T(0)>(h: Hasher<T>, hashes: seq<T>, padHash: T) returns (root: T)
    ensures root == RootWithPadHash(h, hashes, padHash)
  {
    if hashes == [] { return h.nil; }
    if |hashes| == 1 { return hashes[0]; }
    var targetLen := |hashes|;
    if !IsPowerOfTwo(targetLen) {
      targetLen := RoundUpToPowerOfTwo(targetLen);
    } else {
      PowerRoundsToItself(targetLen);
    }
    RoundUpLeast(|hashes|);
    RootIsPaddedTree(h, hashes, padHash, BitLen(|hashes| - 1));
    var working := PaddedCopy(hashes, padHash, targetLen);
    root := RootInPlace(h.node, working, BitLen(|hashes| - 1));
  }

  /** One more full block of data is one more leaf hash. */
  lemma {:induction false} LeafSnoc<T>(h: Hasher<T>, done: seq<byte>, block: seq<byte>)
    requires |done| % BLOCK_SIZE == 0 && |block| == BLOCK_SIZE
    ensures LeafHashes(h, done + block) == LeafHashes(h, done) + [h.leaf(block)]
  {
    ChunksAppend(done, block, BLOCK_SIZE);
    assert Chunks(block, BLOCK_SIZE) == [block];
    MapAppend(h.leaf, Chunks(done, BLOCK_SIZE), [block]);
  }

  /** A short last block is one more leaf hash too. */
  lemma {:induction false} LeafTail<T>(h: Hasher<T>, done: seq<byte>, tail: seq<byte>)
    requires |done| % BLOCK_SIZE == 0 && 0 < |tail| <= BLOCK_SIZE
    ensures LeafHashes(h, done + tail) == LeafHashes(h, done) + [h.leaf(tail)]
  {
    ChunksAppend(done, tail, BLOCK_SIZE);
    assert Chunks(tail, BLOCK_SIZE) == [tail];
    MapAppend(h.leaf, Chunks(done, BLOCK_SIZE), [tail]);
  }

  /** Full blocks are hashed as they complete; the rest waits in a block buffer. */
  class Hash<T(0)> {
    const h: Hasher<T>
    var blocks: seq<T>
    const nextBlock: array<byte>
    var nextBlockWritten: nat
    /** The data of the hashed blocks; what was written is this and the buffered bytes. */
    ghost var hashed: seq<byte>

    ghost predicate Valid()
      reads this, nextBlock
    {
      && nextBlock.Length == BLOCK_SIZE && nextBlockWritten < BLOCK_SIZE
      && |hashed| % BLOCK_SIZE == 0 && blocks == LeafHashes(h, hashed)
    }

    /** Everything written since the last reset. */
    ghost function Written(): seq<byte>
      requires Valid()
      reads this, nextBlock
    {
      hashed + nextBlock[..nextBlockWritten]
    }

    constructor (h: Hasher<T>)
      ensures Valid() && this.h == h && Written() == [] && fresh(nextBlock)
    {
      this.h := h;
      blocks := [];
      nextBlock := new byte[BLOCK_SIZE];
      nextBlockWritten := 0;
      hashed := [];
    }

    /** copy(nextBlock[at:], p), for p that fits. */
    method Copy(at: nat, p: seq<byte>)
      requires nextBlock.Length == BLOCK_SIZE && at + |p| <= BLOCK_SIZE
      modifies nextBlock
      ensures nextBlock[..at] == old(nextBlock[..at]) && nextBlock[at..at + |p|] == p
    {
      for i := 0 to |p|
        invariant forall x :: 0 <= x < at ==> nextBlock[x] == old(nextBlock[x])
        invariant forall x :: 0 <= x < i ==> nextBlock[at + x] == p[x]
      {
        nextBlock[at + i] := p[i];
      }
    }

    /** A full block bypasses the buffer. */
    method PutBlock(block: seq<byte>)
      requires Valid() && nextBlockWritten == 0 && |block| == BLOCK_SIZE
      modifies this
      ensures Valid() && nextBlockWritten == 0 && Written() == old(Written()) + block
    {
      LeafSnoc(h, hashed, block);
      blocks := blocks + [h.leaf(block)];
      hashed := hashed + block;
    }

    /** Top up a started block, and hash it if that completes it. */
    method TopUp(p: seq<byte>) returns (n1: nat)
      requires Valid()
      modifies this, nextBlock
      ensures Valid() && n1 <= |p| && Written() == old(Written()) + p[..n1]
      ensures n1 < |p| ==> nextBlockWritten == 0
    {
      n1 := 0;
      if nextBlockWritten != 0 {
        var room := BLOCK_SIZE - nextBlockWritten;
        n1 := if |p| < room then |p| else room;
        Copy(nextBlockWritten, p[..n1]);
        ghost var filled := nextBlock[..nextBlockWritten + n1];
        assert filled == old(nextBlock[..nextBlockWritten]) + p[..n1];
        nextBlockWritten := nextBlockWritten + n1;
        if nextBlockWritten == BLOCK_SIZE {
          assert nextBlock[..] == filled;
          LeafSnoc(h, hashed, nextBlock[..]);
          blocks := blocks + [h.leaf(nextBlock[..])];
          hashed := hashed + nextBlock[..];
          nextBlockWritten := 0;
        }
      }
    }

    /** Appends p to what was written, however the data is split over calls. */
    method Write(p: seq<byte>) returns (n: nat)
      requires Valid()
      modifies this, nextBlock
      ensures Valid() && Written() == old(Written()) + p && n == |p|
    {
      n := TopUp(p);
      var rest := p[n..];
      while |rest| >= BLOCK_SIZE
        invariant Valid() && (rest != [] ==> nextBlockWritten == 0)
        invariant n <= |p| && rest == p[n..] && Written() == old(Written()) + p[..n]
      {
        PutBlock(rest[..BLOCK_SIZE]);
        assert p[..n] + rest[..BLOCK_SIZE] == p[..n + BLOCK_SIZE];
        rest := rest[BLOCK_SIZE..];
        n := n + BLOCK_SIZE;
      }
      assert p[..n] + rest == p;
      if rest != [] {
        assert nextBlock[..0] == [] && hashed == Written();
        Copy(0, rest);
        nextBlockWritten := |rest|;
        n := n + |rest|;
      }
    }

    /** The leaf hashes of everything written. */
    method CurBlocks() returns (ret: seq<T>)
      requires Valid()
      ensures ret == LeafHashes(h, Written())
    {
      if nextBlockWritten == 0 {
        assert Written() == hashed;
        return blocks;
      }
      LeafTail(h, hashed, nextBlock[..nextBlockWritten]);
      return blocks + [h.leaf(nextBlock[..nextBlockWritten])];
    }

    /** The Merkle root of everything written. */
    method Sum() returns (root: T)
      requires Valid()
      ensures root == RootWithPadHash(h, LeafHashes(h, Written()), h.zero)
    {
      var cur := CurBlocks();
      root := RootPadded(h, cur, h.zero);
    }

    /** The root of everything written, extended by zero hashes to a length of data. */
    method SumMinLength(length: nat) returns (root: T)
      requires Valid()
      ensures root == PieceHash(h, Written(), length)
    {
      hide RootWithPadHash, LeafHashes;
      var cur := CurBlocks();
      var minBlocks := (length + BLOCK_SIZE - 1) / BLOCK_SIZE;
      if minBlocks > |cur| {
        cur := cur + Repeat(h.zero, minBlocks - |cur|);
      }
      root := RootPadded(h, cur, h.zero);
    }

    method Reset()
      requires Valid()
      modifies this
      ensures Valid() && Written() == []
    {
      blocks := [];
      hashed := [];
      nextBlockWritten := 0;
    }

    /** A copy with the same content and no shared buffer. */
    constructor Clone(of: Hash<T>)
      requires of.Valid()
      ensures Valid() && h == of.h && Written() == of.Written() && fresh(nextBlock)
    {
      h := of.h;
      blocks := of.blocks;
      nextBlock := new byte[BLOCK_SIZE];
      nextBlockWritten := of.nextBlockWritten;
      hashed := of.hashed;
      new;
      Copy(0, of.nextBlock[..of.nextBlockWritten]);
    }
  }
}
