/** The shared cache of zero-prefix hashes and the writer that defers leading zeroes
    (hashing.go, hash-writer.go, internal/zeroio).

    A hash is modelled by what it has absorbed: absorption is deterministic, so
    two hashers that absorbed the same bytes give the same sum. */
module ZeroHashCache {
  import opened Bytes

  lemma {:induction false} ZeroesPlus(m: nat, n: nat)
    ensures Zeroes(m) + Zeroes(n) == Zeroes(m + n)
  {
  }

  class Hasher {
    var absorbed: seq<byte>

    constructor ()
      ensures absorbed == []
    {
      absorbed := [];
    }

    method Write(p: seq<byte>)
      modifies this
      ensures absorbed == old(absorbed) + p
    {
      absorbed := absorbed + p;
    }

    /** A separate hasher that has absorbed the same bytes. */
    constructor Clone(of: Hasher)
      ensures absorbed == of.absorbed
    {
      absorbed := of.absorbed;
    }
  }

  const ZERO_BUFFER_SIZE := 4096

  /** n zeroes from the shared buffer, a bufferful at a time. */
  method WriteZeroesNoFastPath(w: Hasher, n: nat) returns (written: nat)
    modifies w
    ensures written == n && w.absorbed == old(w.absorbed) + Zeroes(n)
  {
    written := 0;
    assert old(w.absorbed) + Zeroes(0) == w.absorbed;
    while written < n
      invariant written <= n && w.absorbed == old(w.absorbed) + Zeroes(written)
    {
      var w1 := if ZERO_BUFFER_SIZE < n - written then ZERO_BUFFER_SIZE else n - written;
      w.Write(Zeroes(w1));
      ZeroesPlus(written, w1);
      assert w.absorbed == old(w.absorbed) + (Zeroes(written) + Zeroes(w1));
      written := written + w1;
    }
  }

  method FirstNonZero(p: seq<byte>) returns (i: nat)
    ensures i <= |p| && p[..i] == Zeroes(i)
    ensures i < |p| ==> p[i] != 0
  {
    i := 0;
    while i < |p| && p[i] == 0
      invariant i <= |p| && forall x :: 0 <= x < i ==> p[x] == 0
    {
      i := i + 1;
    }
  }

  datatype Entry = Entry(prefixLen: nat, hash: Hasher)

  /** Lengths ascend from zero. */
  ghost predicate Ascending(entries: seq<Entry>) {
    && entries != [] && entries[0].prefixLen == 0
    && (forall i, j :: 0 <= i < j < |entries| ==> entries[i].prefixLen < entries[j].prefixLen)
  }

  /** An entry put where its length belongs. */
  lemma {:induction false} InsertAscends(entries: seq<Entry>, i: nat, e: Entry, entries': seq<Entry>)
    requires Ascending(entries) && 0 < i <= |entries| && entries' == entries[..i] + [e] + entries[i..]
    requires forall x :: 0 <= x < i ==> entries[x].prefixLen < e.prefixLen
    requires forall x :: i <= x < |entries| ==> entries[x].prefixLen > e.prefixLen
    ensures Ascending(entries') && |entries'| == |entries| + 1
    ensures forall x :: 0 <= x < |entries'| ==>
              entries'[x] == if x < i then entries[x] else if x == i then e else entries[x - 1]
  {
  }

  ghost function HashersOf(entries: seq<Entry>): set<Hasher> {
    set i | 0 <= i < |entries| :: entries[i].hash
  }

  lemma {:induction false} InsertHashers(entries: seq<Entry>, i: nat, e: Entry, entries': seq<Entry>)
    requires i <= |entries| && entries' == entries[..i] + [e] + entries[i..]
    ensures HashersOf(entries') == HashersOf(entries) + {e.hash}
  {
    assert entries'[i] == e;
    forall x | 0 <= x < |entries| ensures entries[x].hash in HashersOf(entries') {
      assert entries'[if x < i then x else x + 1] == entries[x];
    }
  }

  /** Memoized zero prefixes, ascending by length and seeded with the empty one. */
  class Cache {
    var entries: seq<Entry>

    ghost function Hashers(): set<Hasher>
      reads this
    {
      HashersOf(entries)
    }

    /** Ascending lengths from zero, each entry holding exactly its length of zeroes. */
    ghost predicate Valid()
      reads this, Hashers()
    {
      && Ascending(entries)
      && (forall i :: 0 <= i < |entries| ==> entries[i].hash.absorbed == Zeroes(entries[i].prefixLen))
    }

    constructor ()
      ensures Valid() && fresh(Hashers()) && |entries| == 1
    {
      var seed := new Hasher();
      entries := [Entry(0, seed)];
      new;
      assert entries[0].hash.absorbed == Zeroes(0);
    }

    /** The place of a prefix length: where it is, or where it would be inserted. */
    method Search(prefixLen: nat) returns (i: nat, found: bool)
      requires Valid()
      ensures i <= |entries|
      ensures forall x :: 0 <= x < i ==> entries[x].prefixLen < prefixLen
      ensures forall x :: i <= x < |entries| ==> entries[x].prefixLen >= prefixLen
      ensures found == (i < |entries| && entries[i].prefixLen == prefixLen)
    {
      var lo, hi := 0, |entries|;
      while lo < hi
        invariant 0 <= lo <= hi <= |entries|
        invariant forall x :: 0 <= x < lo ==> entries[x].prefixLen < prefixLen
        invariant forall x :: hi <= x < |entries| ==> entries[x].prefixLen >= prefixLen
      {
        var mid := (lo + hi) / 2;
        if entries[mid].prefixLen < prefixLen { lo := mid + 1; } else { hi := mid; }
      }
      i := lo;
      found := i < |entries| && entries[i].prefixLen == prefixLen;
    }

    /** slices.Insert of a new prefix at its place. */
    method Insert(i: nat, e: Entry)
      requires Valid() && 0 < i <= |entries|
      requires forall x :: 0 <= x < i ==> entries[x].prefixLen < e.prefixLen
      requires forall x :: i <= x < |entries| ==> entries[x].prefixLen > e.prefixLen
      requires e.hash.absorbed == Zeroes(e.prefixLen)
      modifies this
      ensures Valid() && entries == old(entries)[..i] + [e] + old(entries)[i..]
      ensures Hashers() == old(Hashers()) + {e.hash}
    {
      ghost var before := entries;
      entries := entries[..i] + [e] + entries[i..];
      InsertAscends(before, i, e, entries);
      InsertHashers(before, i, e, entries);
    }

    /** The predecessor's hash, extended by the missing zeroes. */
    method Extend(pred: Entry, prefixLen: nat) returns (extended: Hasher)
      requires pred.hash.absorbed == Zeroes(pred.prefixLen) && pred.prefixLen < prefixLen
      ensures fresh(extended) && extended.absorbed == Zeroes(prefixLen)
    {
      extended := new Hasher.Clone(pred.hash);
      var missing := prefixLen - pred.prefixLen;
      var written := WriteZeroesNoFastPath(extended, missing);
      assert written == missing;
      ZeroesPlus(pred.prefixLen, missing);
    }

    /** A hasher that absorbed prefixLen zeroes and is the caller's alone: it is new, and
        so is the hasher of any entry added. Entries already there stay. */
    method ClonePrefix(prefixLen: nat) returns (h: Hasher)
      requires Valid()
      modifies this
      ensures Valid() && fresh(h) && h.absorbed == Zeroes(prefixLen)
      ensures h !in Hashers() && old(Hashers()) <= Hashers() && fresh(Hashers() - old(Hashers()))
    {
      var i, found := Search(prefixLen);
      if found {
        h := new Hasher.Clone(entries[i].hash);
        return;
      }
      assert i > 0;                       // the seeded entry is never larger
      var extended := Extend(entries[i - 1], prefixLen);
      Insert(i, Entry(prefixLen, extended));
      h := new Hasher.Clone(extended);
    }
  }

  /** A writer that counts leading zeroes and starts hashing at the first other byte. */
  class HashWriter {
    var leadingZeroes: nat
    var startedNonZeroes: bool
    const hashCache: Cache
    var activeHash: Hasher?
    /** Everything written so far. */
    ghost var written: seq<byte>

    ghost function Owned(): set<object>
      reads this
    {
      if activeHash == null then {this} else {this, activeHash}
    }

    ghost predicate Valid()
      reads this, activeHash, hashCache
    {
      if startedNonZeroes then
        activeHash != null && activeHash.absorbed == written && activeHash !in hashCache.Hashers()
      else
        activeHash == null && written == Zeroes(leadingZeroes)
    }

    constructor (cache: Cache)
      ensures Valid() && hashCache == cache && written == [] && activeHash == null
    {
      leadingZeroes := 0;
      startedNonZeroes := false;
      hashCache := cache;
      activeHash := null;
      written := [];
    }

    /** Switch from counting zeroes to hashing, with the counted zeroes absorbed. */
    method Start()
      requires Valid() && hashCache.Valid() && !startedNonZeroes
      modifies this, hashCache
      ensures Valid() && hashCache.Valid() && startedNonZeroes && written == old(written)
      ensures fresh(activeHash) && fresh(hashCache.Hashers() - old(hashCache.Hashers()))
      ensures leadingZeroes == old(leadingZeroes)
    {
      activeHash := hashCache.ClonePrefix(leadingZeroes);
      startedNonZeroes := true;
    }

    method Write(p: seq<byte>) returns (n: nat)
      requires Valid() && hashCache.Valid()
      modifies Owned(), hashCache
      ensures Valid() && hashCache.Valid() && written == old(written) + p && n == |p|
      ensures fresh(Owned() - old(Owned())) && fresh(hashCache.Hashers() - old(hashCache.Hashers()))
    {
      n := |p|;
      var rest := p;
      if !startedNonZeroes {
        var i := FirstNonZero(p);
        ZeroesPlus(leadingZeroes, i);
        leadingZeroes := leadingZeroes + i;
        written := written + p[..i];
        if i == |p| {
          assert p[..i] == p;
          return;
        }
        Start();
        rest := p[i..];
        assert p[..i] + rest == p;
      }
      activeHash.Write(rest);
      written := written + rest;
    }

    method WriteZeroes(count: nat) returns (n: nat)
      requires Valid() && hashCache.Valid()
      modifies Owned()
      ensures Valid() && hashCache.Valid() && written == old(written) + Zeroes(count) && n == count
      ensures Owned() == old(Owned())
    {
      if !startedNonZeroes {
        ZeroesPlus(leadingZeroes, count);
        leadingZeroes := leadingZeroes + count;
        written := written + Zeroes(count);
        return count;
      }
      n := WriteZeroesNoFastPath(activeHash, count);
      written := written + Zeroes(count);
    }

    /** The hash of everything written: what absorbing it directly would give. */
    method Materialize() returns (h: Hasher)
      requires Valid() && hashCache.Valid()
      modifies Owned(), hashCache
      ensures Valid() && hashCache.Valid() && written == old(written)
      ensures h == activeHash && h.absorbed == written
      ensures fresh(Owned() - old(Owned())) && fresh(hashCache.Hashers() - old(hashCache.Hashers()))
    {
      if !startedNonZeroes {
        Start();
      }
      h := activeHash;
    }
  }

  // ---------- many writers, one cache ----------

  /** Writer w is given data, or a run of zeroes it need not see, or is asked for its hash. */
  datatype Op = Data(w: nat, p: seq<byte>) | Zero(w: nat, count: nat) | Sum(w: nat)

  function BytesOf(op: Op): seq<byte> {
    match op
    case Data(_, p) => p
    case Zero(_, count) => Zeroes(count)
    case Sum(_) => []
  }

  /** What an operation gives writer i. */
  function Given(op: Op, i: nat): seq<byte> {
    if op.w == i then BytesOf(op) else []
  }

  /** All that writer i was given, in order. */
  function Content(ops: seq<Op>, i: nat): seq<byte> {
    if ops == [] then [] else Given(ops[0], i) + Content(ops[1..], i)
  }

  /** The writers are sound and share nothing but the cache. */
  ghost predicate Separate(ws: seq<HashWriter>, cache: Cache)
    reads ws, cache, cache.Hashers(), set i | 0 <= i < |ws| && ws[i].activeHash != null :: ws[i].activeHash
  {
    && cache.Valid()
    && (forall i :: 0 <= i < |ws| ==> ws[i].hashCache == cache && ws[i].Valid())
    && (forall i, j :: 0 <= i < j < |ws| ==> ws[i].Owned() !! ws[j].Owned())
  }

  /** Data for one writer; the others are as they were. */
  method Give(ws: seq<HashWriter>, cache: Cache, w: nat, p: seq<byte>)
    requires Separate(ws, cache) && w < |ws|
    modifies cache, AllOwned(ws)
    ensures Separate(ws, cache)
    ensures forall i :: 0 <= i < |ws| ==> ws[i].written == old(ws[i].written) + Given(Data(w, p), i)
    ensures fresh(AllOwned(ws) - old(AllOwned(ws)))
  {
    var n := ws[w].Write(p);
  }

  /** Zeroes for one writer; the others are as they were. */
  method GiveZeroes(ws: seq<HashWriter>, cache: Cache, w: nat, count: nat)
    requires Separate(ws, cache) && w < |ws|
    modifies cache, AllOwned(ws)
    ensures Separate(ws, cache)
    ensures forall i :: 0 <= i < |ws| ==> ws[i].written == old(ws[i].written) + Given(Zero(w, count), i)
    ensures fresh(AllOwned(ws) - old(AllOwned(ws)))
  {
    var n := ws[w].WriteZeroes(count);
  }

  /** Asking one writer for its hash; the others are as they were. */
  method Ask(ws: seq<HashWriter>, cache: Cache, w: nat) returns (sum: seq<byte>)
    requires Separate(ws, cache) && w < |ws|
    modifies cache, AllOwned(ws)
    ensures Separate(ws, cache) && sum == old(ws[w].written)
    ensures forall i :: 0 <= i < |ws| ==> ws[i].written == old(ws[i].written) + Given(Sum(w), i)
    ensures fresh(AllOwned(ws) - old(AllOwned(ws)))
  {
    var h := ws[w].Materialize();
    sum := h.absorbed;
  }

  method NewWriters(cache: Cache, writers: nat) returns (ws: seq<HashWriter>)
    requires cache.Valid()
    ensures |ws| == writers && Separate(ws, cache)
    ensures forall i :: 0 <= i < |ws| ==> ws[i].written == [] && fresh(ws[i].Owned())
  {
    ws := [];
    while |ws| < writers
      invariant |ws| <= writers && Separate(ws, cache)
      invariant forall i :: 0 <= i < |ws| ==> ws[i].written == [] && ws[i].activeHash == null && fresh(ws[i].Owned())
    {
      var w := new HashWriter(cache);
      ws := ws + [w];
    }
  }

  /** Everything a set of writers may change. */
  ghost function AllOwned(ws: seq<HashWriter>): set<object>
    reads ws
  {
    set i, o | 0 <= i < |ws| && o in ws[i].Owned() :: o
  }

  /** All the operations, and the hash that each one that asks is given. */
  method ApplyAll(ws: seq<HashWriter>, cache: Cache, ops: seq<Op>) returns (sums: seq<seq<byte>>)
    requires Separate(ws, cache) && forall k :: 0 <= k < |ops| ==> ops[k].w < |ws|
    modifies cache, AllOwned(ws)
    ensures Separate(ws, cache)
    ensures |sums| == |ops|
    ensures forall k :: 0 <= k < |ops| && ops[k].Sum? ==>
              sums[k] == old(ws[ops[k].w].written) + Content(ops[..k], ops[k].w)
    decreases |ops|
  {
    if ops == [] {
      sums := [];
    } else {
      var sum := [];
      match ops[0] {
        case Data(w, p) => Give(ws, cache, w, p);
        case Zero(w, count) => GiveZeroes(ws, cache, w, count);
        case Sum(w) => sum := Ask(ws, cache, w);
      }
      var rest := ApplyAll(ws, cache, ops[1..]);
      sums := [sum] + rest;
      forall k | 0 <= k < |ops| && ops[k].Sum?
        ensures sums[k] == old(ws[ops[k].w].written) + Content(ops[..k], ops[k].w)
      {
        if k > 0 {
          ContentFrom(ops, k, ops[k].w);
          assert sums[k] == rest[k - 1] && ops[1..][k - 1] == ops[k];
          Regroup(old(ws[ops[k].w].written), Given(ops[0], ops[k].w), Content(ops[1..][..k - 1], ops[k].w));
        }
      }
    }
  }

  lemma {:induction false} ContentFrom(ops: seq<Op>, k: nat, i: nat)
    requires 0 < k <= |ops|
    ensures Content(ops[..k], i) == Given(ops[0], i) + Content(ops[1..][..k - 1], i)
  {
    assert ops[..k][1..] == ops[1..][..k - 1];
  }

  /** Main result: any interleaving of writes by any number of writers sharing a cache, who may
      ask for their hash at any time and go on writing. Whoever asks, whenever, the hash is that of
      their own content so far, as if it had been absorbed directly. */
  method HashesOf(writers: nat, ops: seq<Op>) returns (sums: seq<seq<byte>>)
    requires forall k :: 0 <= k < |ops| ==> ops[k].w < writers
    ensures |sums| == |ops|
    ensures forall k :: 0 <= k < |ops| && ops[k].Sum? ==> sums[k] == Content(ops[..k], ops[k].w)
  {
    var cache := new Cache();
    var ws := NewWriters(cache, writers);
    sums := ApplyAll(ws, cache, ops);
  }
}
