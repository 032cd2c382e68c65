/** A span of memory maps read and written as one flat byte array
    (mmap-span/mmap-span.go over segments/index.go).

    A map's bytes are a sequence that a write replaces, so two spans sharing memory are not
    modelled. */
module MmapSpan {
  import opened Arithmetic
  import opened Bytes
  import opened Outcomes
  import opened Segments

  // ---------- the index over map lengths ----------

  /** Where segment i starts: the lengths before it added up. */
  function Pos(lens: seq<nat>, i: nat): nat
    requires i <= |lens|
  {
    if i == 0 then 0 else Pos(lens, i - 1) + lens[i - 1]
  }

  lemma {:induction false} PosMono(lens: seq<nat>, i: nat, j: nat)
    requires i <= j <= |lens|
    ensures Pos(lens, i) <= Pos(lens, j)
    decreases j - i
  {
    if i < j { PosMono(lens, i, j - 1); }
  }

  /** The bytes from segment i on. */
  function Left(lens: seq<nat>, i: nat): nat
    decreases |lens| - i
  {
    if i >= |lens| then 0 else lens[i] + Left(lens, i + 1)
  }

  lemma {:induction false} LeftIs(lens: seq<nat>, i: nat)
    requires i <= |lens|
    ensures Pos(lens, i) + Left(lens, i) == Pos(lens, |lens|)
    decreases |lens| - i
  {
    if i < |lens| { LeftIs(lens, i + 1); }
  }

  function Index(lens: seq<nat>): seq<Extent> {
    seq(|lens|, i requires 0 <= i < |lens| => Extent(Pos(lens, i), lens[i]))
  }

  lemma {:induction false} IndexOrdered(lens: seq<nat>)
    ensures Ordered(Index(lens))
  {
    var segs := Index(lens);
    forall i, j | 0 <= i < j < |segs|
      ensures segs[i].End() <= segs[j].start
    {
      PosMono(lens, i + 1, j);
    }
  }

  /** NewIndex: segments laid end to end. */
  method NewIndex(lens: seq<nat>) returns (segs: seq<Extent>)
    ensures segs == Index(lens) && Ordered(segs)
  {
    segs := [];
    var start, i := 0, 0;
    while i < |lens|
      invariant 0 <= i <= |lens| && start == Pos(lens, i) && segs == Index(lens)[..i]
    {
      segs := segs + [Extent(start, lens[i])];
      start := start + lens[i];
      i := i + 1;
    }
    IndexOrdered(lens);
  }

  // ---------- the copies made for the hits ----------

  /** The hit lies within its segment and starts at flat offset a. */
  predicate Placed(h: Hit, lens: seq<nat>, a: int) {
    && h.index < |lens| && 0 <= h.extent.start && 0 <= h.extent.length && h.extent.End() <= lens[h.index]
    && Pos(lens, h.index) + h.extent.start == a
  }

  /** The bytes in the hits, when they lie end to end from flat offset a. */
  function Run(hits: seq<Hit>, lens: seq<nat>, a: int): Option<nat> {
    if hits == [] then Some(0)
    else if !Placed(hits[0], lens, a) then None
    else
      var rest := Run(hits[1..], lens, a + hits[0].extent.length);
      if rest.None? then None else Some(hits[0].extent.length + rest.value)
  }

  /** No copy panics: with r bytes of the argument left, each copies its extent's length. */
  predicate Exact(hits: seq<Hit>, lens: seq<nat>, r: int) {
    hits == [] ||
    var h := hits[0];
    && h.index < |lens| && 0 <= h.extent.start <= lens[h.index]
    && Min(r, lens[h.index] - h.extent.start) == h.extent.length
    && Exact(hits[1..], lens, r - h.extent.length)
  }

  lemma {:induction false} RunCons(h: Hit, rest: seq<Hit>, lens: seq<nat>, a: int)
    requires Placed(h, lens, a) && Run(rest, lens, a + h.extent.length).Some?
    ensures Run([h] + rest, lens, a) == Some(h.extent.length + Run(rest, lens, a + h.extent.length).value)
  {
    assert ([h] + rest)[1..] == rest;
  }

  lemma {:induction false} ExactCons(h: Hit, rest: seq<Hit>, lens: seq<nat>, r: int)
    requires h.index < |lens| && 0 <= h.extent.start <= lens[h.index]
    ensures Exact([h] + rest, lens, r) <==>
            Min(r, lens[h.index] - h.extent.start) == h.extent.length && Exact(rest, lens, r - h.extent.length)
  {
    assert ([h] + rest)[1..] == rest;
  }

  /** Segments laid end to end are relative to each other at zero. */
  lemma {:induction false} CutContiguous(len: nat, ns: nat, nl: int)
    requires ns <= len
    ensures var needle, l := Extent(ns, nl), Extent(0, len);
            && Cut(needle, l) == Extent(ns, Max(Min(len - ns, nl), 0))
            && Advance(needle, l) == Extent(0, nl - Max(Min(len - ns, nl), 0))
  {
  }

  /** Whether a segment is yielded, k bytes of it wanted and left bytes after them. */
  predicate Yields(k: int, left: int, started: bool) {
    k > 0 || (started && left != 0)
  }

  /** The scan over segments laid end to end: ns into segment i, nl bytes wanted. */
  function Walk(lens: seq<nat>, i: nat, ns: nat, nl: int, started: bool): seq<Hit>
    decreases |lens| - i
  {
    if i >= |lens| || nl == 0 then []
    else
      var k := Max(Min(lens[i] - ns, nl), 0);
      var hit := Yields(k, nl - k, started);
      var rest := Walk(lens, i + 1, 0, nl - k, started || hit);
      if hit then [Hit(i, Extent(ns, k))] + rest else rest
  }

  /** One step of the scan at a segment that starts where the last one ended. */
  lemma {:induction false} ScanContiguous(
    segs: seq<Extent>, i: nat, lastEnd: Option<int>, ns: nat, nl: int, started: bool)
    requires i < |segs| && ns <= segs[i].length && nl != 0 && (lastEnd.Some? ==> lastEnd.value == segs[i].start)
    ensures var k := Max(Min(segs[i].length - ns, nl), 0);
            var hit := Yields(k, nl - k, started);
            var rest := Scan(segs, i + 1, Some(segs[i].End()), Extent(0, nl - k), started || hit);
            Scan(segs, i, lastEnd, Extent(ns, nl), started) == if hit then [Hit(i, Extent(ns, k))] + rest else rest
  {
    CutContiguous(segs[i].length, ns, nl);
    assert Relative(segs[i], lastEnd) == Extent(0, segs[i].length);
    ScanUnfolds(segs, i, lastEnd, Extent(ns, nl), started);
  }

  /** The walk is the scan; both are given by name so that one step of each is at issue. */
  lemma {:induction false} WalkIsScan(
    lens: seq<nat>, i: nat, lastEnd: Option<int>, ns: nat, nl: int, started: bool, w: seq<Hit>, z: seq<Hit>)
    requires i <= |lens| && (i < |lens| ==> ns <= lens[i]) && (lastEnd.Some? ==> lastEnd.value == Pos(lens, i))
    requires w == Walk(lens, i, ns, nl, started) && z == Scan(Index(lens), i, lastEnd, Extent(ns, nl), started)
    ensures w == z
    decreases |lens| - i
  {
    hide Scan;
    if i < |lens| && nl != 0 {
      var segs, k := Index(lens), Max(Min(lens[i] - ns, nl), 0);
      var hit := Yields(k, nl - k, started);
      var w1 := Walk(lens, i + 1, 0, nl - k, started || hit);
      var z1 := Scan(segs, i + 1, Some(Pos(lens, i + 1)), Extent(0, nl - k), started || hit);
      assert segs[i] == Extent(Pos(lens, i), lens[i]) && segs[i].End() == Pos(lens, i + 1);
      ScanContiguous(segs, i, lastEnd, ns, nl, started);
      WalkIsScan(lens, i + 1, Some(Pos(lens, i + 1)), 0, nl - k, started || hit, w1, z1);
      var h := Hit(i, Extent(ns, k));
      assert w == if hit then [h] + w1 else w1;
      assert z == if hit then [h] + z1 else z1;
    } else {
      ScanEnds(Index(lens), i, lastEnd, Extent(ns, nl), started);
    }
  }

  lemma {:induction false} WalkEnds(lens: seq<nat>, i: nat, ns: nat, nl: nat, started: bool)
    requires i >= |lens| || nl == 0
    ensures Walk(lens, i, ns, nl, started) == []
  {
  }

  /** The first segment is not used up. */
  lemma {:induction false} WalkPart(lens: seq<nat>, i: nat, ns: nat, nl: nat, started: bool)
    requires i < |lens| && 0 < nl && ns + nl < lens[i]
    ensures Walk(lens, i, ns, nl, started) == [Hit(i, Extent(ns, nl))]
  {
    assert Walk(lens, i + 1, 0, 0, true) == [];
  }

  /** The first segment is used up. */
  lemma {:induction false} WalkFull(lens: seq<nat>, i: nat, ns: nat, nl: nat, started: bool)
    requires i < |lens| && 0 < nl && ns <= lens[i] <= ns + nl
    ensures var k := lens[i] - ns;
            var hit := Yields(k, nl - k, started);
            var rest := Walk(lens, i + 1, 0, nl - k, started || hit);
            Walk(lens, i, ns, nl, started) == if hit then [Hit(i, Extent(ns, k))] + rest else rest
  {
  }

  lemma {:induction false} WalkSpent(lens: seq<nat>, i: nat, ns: nat, nl: int)
    requires nl <= 0 && (i < |lens| ==> ns <= lens[i])
    ensures Walk(lens, i, ns, nl, false) == []
    decreases |lens| - i
  {
    if i < |lens| && nl < 0 { WalkSpent(lens, i + 1, 0, nl); }
  }

  /** nl bytes from segment i on do not stop inside a segment. */
  predicate Whole(lens: seq<nat>, i: nat, nl: nat)
    decreases |lens| - i
  {
    i >= |lens| || nl == 0 || (lens[i] <= nl && Whole(lens, i + 1, nl - lens[i]))
  }

  lemma {:induction false} FullRun(h: Hit, hit: bool, rest: seq<Hit>, w: seq<Hit>, lens: seq<nat>, a: int, n: nat)
    requires Placed(h, lens, a) && (!hit ==> h.extent.length == 0)
    requires Run(rest, lens, a + h.extent.length) == Some(n) && w == if hit then [h] + rest else rest
    ensures Run(w, lens, a) == Some(h.extent.length + n)
  {
    if hit { RunCons(h, rest, lens, a); }
  }

  /** Hits for a walk, given as w so that only their sum is at issue. */
  lemma {:induction false} WalkRun(
    lens: seq<nat>, i: nat, ns: nat, nl: nat, started: bool, a: int, w: seq<Hit>)
    requires i <= |lens| && ns <= (if i < |lens| then lens[i] else 0) && a == Pos(lens, i) + ns
    requires w == Walk(lens, i, ns, nl, started)
    ensures Run(w, lens, a) == Some(Min(nl, Left(lens, i) - ns))
    decreases |lens| - i
  {
    hide Walk;
    if i == |lens| || nl == 0 {
      WalkEnds(lens, i, ns, nl, started);
    } else if nl < lens[i] - ns {
      WalkPart(lens, i, ns, nl, started);
      PartRun(Hit(i, Extent(ns, nl)), w, lens, a);
    } else {
      var k := lens[i] - ns;
      var hit := Yields(k, nl - k, started);
      var rest := Walk(lens, i + 1, 0, nl - k, started || hit);
      WalkFull(lens, i, ns, nl, started);
      WalkRun(lens, i + 1, 0, nl - k, started || hit, a + k, rest);
      FullRun(Hit(i, Extent(ns, k)), hit, rest, w, lens, a, Min(nl - k, Left(lens, i + 1)));
    }
  }

  lemma {:induction false} PartRun(h: Hit, w: seq<Hit>, lens: seq<nat>, a: int)
    requires Placed(h, lens, a) && w == [h]
    ensures Run(w, lens, a) == Some(h.extent.length)
  {
    assert [h] + [] == [h];
    RunCons(h, [], lens, a);
  }

  /** With exactly the wanted bytes left of the argument, every copy is exact. */
  lemma {:induction false} WalkExact(lens: seq<nat>, i: nat, ns: nat, nl: nat, started: bool)
    requires i < |lens| ==> ns <= lens[i]
    ensures Exact(Walk(lens, i, ns, nl, started), lens, nl)
    decreases |lens| - i
  {
    if i < |lens| && nl > 0 {
      var k := Min(lens[i] - ns, nl);
      var hit := Yields(k, nl - k, started);
      WalkExact(lens, i + 1, 0, nl - k, started || hit);
      if hit { ExactCons(Hit(i, Extent(ns, k)), Walk(lens, i + 1, 0, nl - k, true), lens, nl); }
    }
  }

  /** With more left than is wanted, the copies are exact unless the last of them stops
      inside a segment. */
  lemma {:induction false} WalkOver(lens: seq<nat>, i: nat, nl: nat, started: bool, over: nat)
    requires over > 0
    ensures Exact(Walk(lens, i, 0, nl, started), lens, nl + over) <==> Whole(lens, i, nl)
    decreases |lens| - i
  {
    if i < |lens| && 0 < nl < lens[i] {
      WalkPart(lens, i, 0, nl, started);
    } else if i < |lens| && nl > 0 {
      var k := lens[i];
      var hit := Yields(k, nl - k, started);
      var rest := Walk(lens, i + 1, 0, nl - k, started || hit);
      WalkFull(lens, i, 0, nl, started);
      WalkOver(lens, i + 1, nl - k, started || hit, over);
      if hit { ExactCons(Hit(i, Extent(0, k)), rest, lens, nl + over); }
    }
  }

  /** Flat offset x is where one of the segments from i on starts, or the end. */
  ghost predicate Stop(lens: seq<nat>, i: nat, x: int) {
    exists k :: i <= k <= |lens| && Pos(lens, k) == x
  }

  lemma {:induction false} StopNext(lens: seq<nat>, i: nat, x: int)
    requires i < |lens| && Pos(lens, i) < x
    ensures Stop(lens, i, x) <==> Pos(lens, i + 1) <= x && Stop(lens, i + 1, x)
  {
    forall k | i <= k <= |lens| && Pos(lens, k) == x ensures k > i && Pos(lens, i + 1) <= x {
      assert k > i;
      PosMono(lens, i + 1, k);
    }
  }

  lemma {:induction false} WholeIs(lens: seq<nat>, i: nat, nl: nat)
    requires i <= |lens|
    ensures Whole(lens, i, nl) <==> nl >= Left(lens, i) || Stop(lens, i, Pos(lens, i) + nl)
    decreases |lens| - i
  {
    if nl == 0 {
      assert Stop(lens, i, Pos(lens, i));
    } else if i < |lens| {
      StopNext(lens, i, Pos(lens, i) + nl);
      if lens[i] <= nl { WholeIs(lens, i + 1, nl - lens[i]); }
    }
  }

  // ---------- what a copy at an offset moves ----------

  /** The bytes a copy of len bytes at offset off moves. */
  function Count(lens: seq<nat>, off: int, len: nat): nat {
    Max(0, Min(off + len, Pos(lens, |lens|)) - Max(off, 0))
  }

  /** When a copy does not panic. A negative offset shortens what is located but not what
      is copied, so the copy must stop where a segment does. */
  ghost predicate Safe(lens: seq<nat>, off: int, len: nat) {
    || off >= 0 || off + len <= 0 || off + len >= Pos(lens, |lens|)
    || Stop(lens, 0, off + len)
  }

  lemma {:induction false} LocateFrom(lens: seq<nat>, off: nat, len: nat)
    ensures var hits, i := Locate(Index(lens), Extent(off, len)), First(Index(lens), off, 0);
            if i == |lens| then hits == [] && Pos(lens, |lens|) <= off
            else Pos(lens, i) <= off < Pos(lens, i) + lens[i] && hits == Walk(lens, i, off - Pos(lens, i), len, false)
  {
    var segs, i := Index(lens), First(Index(lens), off, 0);
    if i > 0 { assert segs[i - 1].End() == Pos(lens, i); }
    if i < |lens| {
      var ns := off - Pos(lens, i);
      WalkIsScan(lens, i, None, ns, len, false, Walk(lens, i, ns, len, false), Locate(segs, Extent(off, len)));
    }
  }

  lemma {:induction false} LocateBefore(lens: seq<nat>, off: int, len: nat)
    requires off < 0
    ensures Locate(Index(lens), Extent(off, len)) == if off + len <= 0 then [] else Walk(lens, 0, 0, off + len, false)
  {
    if off + len <= 0 { LocateNone(lens, off, len); } else { LocateSome(lens, off, len); }
  }

  lemma {:induction false} LocateNone(lens: seq<nat>, off: int, len: nat)
    requires off < 0 && off + len <= 0
    ensures Locate(Index(lens), Extent(off, len)) == []
  {
    if |lens| > 0 {
      ScanFromStart(lens, off, len);
      WalkIsScan(lens, 0, None, 0, off + len, false,
                 Walk(lens, 0, 0, off + len, false), Locate(Index(lens), Extent(off, len)));
      WalkSpent(lens, 0, 0, off + len);
    }
  }

  lemma {:induction false} LocateSome(lens: seq<nat>, off: int, len: nat)
    requires off < 0 < off + len
    ensures Locate(Index(lens), Extent(off, len)) == Walk(lens, 0, 0, off + len, false)
  {
    if |lens| > 0 {
      ScanFromStart(lens, off, len);
      WalkIsScan(lens, 0, None, 0, off + len, false,
                 Walk(lens, 0, 0, off + len, false), Locate(Index(lens), Extent(off, len)));
    }
  }

  lemma {:induction false} ScanFromStart(lens: seq<nat>, off: int, len: nat)
    requires off < 0 && |lens| > 0
    ensures Locate(Index(lens), Extent(off, len)) == Scan(Index(lens), 0, None, Extent(0, off + len), false)
  {
    var segs := Index(lens);
    assert segs[0] == Extent(0, lens[0]);
    assert First(segs, off, 0) == 0;
    assert Needle(Extent(off, len), segs[0]) == Extent(0, off + len);
  }

  lemma {:induction false} RunFrom(lens: seq<nat>, off: nat, len: nat)
    ensures Run(Locate(Index(lens), Extent(off, len)), lens, off) ==
            Some(Max(0, Min(off + len, Pos(lens, |lens|)) - off))
  {
    LocateFrom(lens, off, len);
    var i := First(Index(lens), off, 0);
    LeftIs(lens, i);
    if i < |lens| {
      WalkRun(lens, i, off - Pos(lens, i), len, false, off, Locate(Index(lens), Extent(off, len)));
    }
  }

  lemma {:induction false} RunBefore(lens: seq<nat>, off: int, len: nat)
    requires off < 0
    ensures Run(Locate(Index(lens), Extent(off, len)), lens, 0) == Some(Max(0, Min(off + len, Pos(lens, |lens|))))
  {
    LocateBefore(lens, off, len);
    if off + len > 0 { RunStart(lens, off + len); }
  }

  lemma {:induction false} RunStart(lens: seq<nat>, nl: nat)
    ensures Run(Walk(lens, 0, 0, nl, false), lens, 0) == Some(Min(nl, Pos(lens, |lens|)))
  {
    WalkRun(lens, 0, 0, nl, false, 0, Walk(lens, 0, 0, nl, false));
    LeftIs(lens, 0);
  }

  /** What is located lies end to end and is what the argument and the maps have in common. */
  lemma {:induction false} LocateRun(lens: seq<nat>, off: int, len: nat)
    ensures Run(Locate(Index(lens), Extent(off, len)), lens, Max(off, 0)) == Some(Count(lens, off, len))
  {
    if off < 0 { RunBefore(lens, off, len); } else { RunFrom(lens, off, len); }
  }

  lemma {:induction false} ExactFrom(lens: seq<nat>, off: nat, len: nat)
    ensures Exact(Locate(Index(lens), Extent(off, len)), lens, len)
  {
    LocateFrom(lens, off, len);
    var i := First(Index(lens), off, 0);
    if i < |lens| { WalkExact(lens, i, off - Pos(lens, i), len, false); }
  }

  lemma {:induction false} ExactBefore(lens: seq<nat>, off: int, len: nat)
    requires off < 0 < off + len
    ensures Exact(Locate(Index(lens), Extent(off, len)), lens, len) <==> Whole(lens, 0, off + len)
  {
    LocateBefore(lens, off, len);
    WalkOver(lens, 0, off + len, false, -off);
  }

  /** No copy panics exactly when the offset is not negative, or the copy is none, reaches
      the end, or stops where a segment does. */
  lemma {:induction false} CopiesExact(lens: seq<nat>, off: int, len: nat)
    ensures Exact(Locate(Index(lens), Extent(off, len)), lens, len) <==> Safe(lens, off, len)
  {
    if off >= 0 {
      ExactFrom(lens, off, len);
    } else if off + len > 0 {
      ExactBefore(lens, off, len);
      WholeIs(lens, 0, off + len);
      LeftIs(lens, 0);
    } else {
      LocateBefore(lens, off, len);
    }
  }

  lemma {:induction false} NotSafe(lens: seq<nat>)
    requires lens == [5]
    ensures !Safe(lens, -1, 2)
  {
    assert Pos(lens, 0) == 0 && Pos(lens, 1) == 5;
    forall k | 0 <= k <= |lens| ensures Pos(lens, k) != 1 {
      assert k == 0 || k == 1;
    }
  }

  /** One map of five bytes, two bytes read a byte before it: the extent located is one byte
      long and the copy moves two. */
  lemma {:induction false} NegativeOffsetNotExact(lens: seq<nat>)
    requires lens == [5]
    ensures !Exact(Locate(Index(lens), Extent(-1, 2)), lens, 2)
  {
    CopiesExact(lens, -1, 2);
    NotSafe(lens);
  }

  /** The hits still to copy: end to end from a, n bytes in all, each copied whole with r
      bytes of the argument left. */
  predicate Ready(hits: seq<Hit>, lens: seq<nat>, a: int, r: int, n: int) {
    if hits == [] then n == 0
    else
      var h, k := hits[0], hits[0].extent.length;
      && Placed(h, lens, a) && k <= n && k == Min(r, lens[h.index] - h.extent.start)
      && Ready(hits[1..], lens, a + k, r - k, n - k)
  }

  lemma {:induction false} ReadyIs(hits: seq<Hit>, lens: seq<nat>, a: int, r: int, n: nat)
    requires Exact(hits, lens, r) && Run(hits, lens, a) == Some(n)
    ensures Ready(hits, lens, a, r, n)
  {
    if hits != [] {
      var k := hits[0].extent.length;
      ReadyIs(hits[1..], lens, a + k, r - k, n - k);
    }
  }

  // ---------- the flat array ----------

  predicate Fits(maps: seq<seq<byte>>, lens: seq<nat>) {
    |maps| == |lens| && forall i :: 0 <= i < |lens| ==> |maps[i]| == lens[i]
  }

  /** The first k maps as one array. */
  function Flat(maps: seq<seq<byte>>, k: nat): seq<byte>
    requires k <= |maps|
  {
    if k == 0 then [] else Flat(maps, k - 1) + maps[k - 1]
  }

  lemma {:induction false} FlatLength(maps: seq<seq<byte>>, lens: seq<nat>, k: nat)
    requires Fits(maps, lens) && k <= |maps|
    ensures |Flat(maps, k)| == Pos(lens, k)
  {
    if k > 0 { FlatLength(maps, lens, k - 1); }
  }

  lemma {:induction false} SliceLeft(x: seq<byte>, y: seq<byte>, i: nat, j: nat)
    requires i <= j <= |x|
    ensures (x + y)[i..j] == x[i..j]
  {
  }

  lemma {:induction false} SliceRight(x: seq<byte>, y: seq<byte>, i: nat, j: nat)
    requires i <= j <= |y|
    ensures (x + y)[|x| + i..|x| + j] == y[i..j]
  {
  }

  /** A stretch of map i is the same stretch of the flat array. */
  lemma {:induction false} FlatSlice(maps: seq<seq<byte>>, lens: seq<nat>, k: nat, i: nat, from: nat, to: nat)
    requires Fits(maps, lens) && i < k <= |maps| && from <= to <= lens[i]
    ensures Pos(lens, i) + to <= |Flat(maps, k)|
    ensures Flat(maps, k)[Pos(lens, i) + from..Pos(lens, i) + to] == maps[i][from..to]
  {
    var x, y := Flat(maps, k - 1), maps[k - 1];
    FlatLength(maps, lens, k - 1);
    if i < k - 1 {
      FlatSlice(maps, lens, k - 1, i, from, to);
      SliceLeft(x, y, Pos(lens, i) + from, Pos(lens, i) + to);
    } else {
      SliceRight(x, y, from, to);
    }
  }

  function Splice(s: seq<byte>, at: nat, piece: seq<byte>): seq<byte>
    requires at + |piece| <= |s|
  {
    s[..at] + piece + s[at + |piece|..]
  }

  lemma {:induction false} SpliceLeft(x: seq<byte>, y: seq<byte>, at: nat, piece: seq<byte>)
    requires at + |piece| <= |x|
    ensures Splice(x + y, at, piece) == Splice(x, at, piece) + y
  {
  }

  lemma {:induction false} SpliceRight(x: seq<byte>, y: seq<byte>, at: nat, piece: seq<byte>)
    requires at + |piece| <= |y|
    ensures Splice(x + y, |x| + at, piece) == x + Splice(y, at, piece)
  {
  }

  lemma {:induction false} FlatSame(maps: seq<seq<byte>>, maps': seq<seq<byte>>, k: nat)
    requires k <= |maps| && k <= |maps'| && maps[..k] == maps'[..k]
    ensures Flat(maps, k) == Flat(maps', k)
  {
    if k > 0 {
      assert maps[..k - 1] == maps[..k][..k - 1] == maps'[..k - 1];
      assert maps[k - 1] == maps[..k][k - 1];
      FlatSame(maps, maps', k - 1);
    }
  }

  /** Writing into map i is writing into the flat array. */
  lemma {:induction false} FlatSplice(
    maps: seq<seq<byte>>, lens: seq<nat>, k: nat, i: nat, from: nat, piece: seq<byte>)
    requires Fits(maps, lens) && i < k <= |maps| && from + |piece| <= lens[i]
    ensures var maps' := maps[i := Splice(maps[i], from, piece)];
            && Fits(maps', lens) && Pos(lens, i) + from + |piece| <= |Flat(maps, k)|
            && Flat(maps', k) == Splice(Flat(maps, k), Pos(lens, i) + from, piece)
  {
    var maps' := maps[i := Splice(maps[i], from, piece)];
    var x, y := Flat(maps, k - 1), maps[k - 1];
    FlatLength(maps, lens, k - 1);
    if i < k - 1 {
      FlatSplice(maps, lens, k - 1, i, from, piece);
      SpliceLeft(x, y, Pos(lens, i) + from, piece);
    } else {
      FlatSame(maps, maps', i);
      SpliceRight(x, y, from, piece);
    }
  }

  /** The flat array after the bytes put were written from a on. */
  predicate Put(flat: seq<byte>, a: nat, put: seq<byte>, flat': seq<byte>) {
    if put == [] then flat' == flat else a + |put| <= |flat| && flat' == Splice(flat, a, put)
  }

  lemma {:induction false} PutMore(flat: seq<byte>, a: nat, put: seq<byte>, flat': seq<byte>, more: seq<byte>)
    requires Put(flat, a, put, flat') && a + |put| + |more| <= |flat'|
    ensures Put(flat, a, put + more, Splice(flat', a + |put|, more))
  {
    if put == [] {
      assert put + more == more;
      assert more == [] ==> Splice(flat', a, more) == flat';
    } else {
      assert Splice(Splice(flat, a, put), a + |put|, more) == Splice(flat, a, put + more);
    }
  }

  /** The n bytes read so far are those of the flat array from a on. */
  predicate Got(got: seq<byte>, flat: seq<byte>, a: nat) {
    got == [] || (a + |got| <= |flat| && got == flat[a..a + |got|])
  }

  lemma {:induction false} GotMore(got: seq<byte>, flat: seq<byte>, a: nat, more: seq<byte>)
    requires Got(got, flat, a)
    requires a + |got| + |more| <= |flat| && more == flat[a + |got|..a + |got| + |more|]
    ensures Got(got + more, flat, a)
  {
  }

  /** Bytes written and then read at the same place come back. */
  lemma {:induction false} ReadBack(flat: seq<byte>, a: nat, put: seq<byte>, flat': seq<byte>, got: seq<byte>)
    requires Put(flat, a, put, flat') && Got(got, flat', a) && |got| == |put|
    ensures got == put
  {
    if put != [] { assert Splice(flat, a, put)[a..a + |put|] == put; }
  }

  /** Go's copy: as much as both have, into the buffer from n on. */
  method Copy(p: array<byte>, n: nat, src: seq<byte>) returns (copied: nat)
    requires n <= p.Length
    modifies p
    ensures copied == Min(p.Length - n, |src|)
    ensures p[..n + copied] == old(p[..n]) + src[..copied] && p[n + copied..] == old(p[n + copied..])
  {
    copied := Min(p.Length - n, |src|);
    forall k | 0 <= k < copied { p[n + k] := src[k]; }
  }

  /** What locateCopy iterates over for a copy of len bytes at off. */
  method Located(lens: seq<nat>, off: int, len: nat) returns (hits: seq<Hit>)
    requires Safe(lens, off, len)
    ensures Ready(hits, lens, Max(off, 0), len, Count(lens, off, len))
  {
    var segs := NewIndex(lens);
    hits := LocateIter(segs, Extent(off, len));
    LocateRun(lens, off, len);
    CopiesExact(lens, off, len);
    ReadyIs(hits, lens, Max(off, 0), len, Count(lens, off, len));
  }

  // ---------- the span ----------

  datatype Error = Nil | Closed | Eof | ShortWrite

  class MMapSpan {
    var closed: bool
    var mMaps: seq<seq<byte>>
    const lens: seq<nat>

    ghost predicate Valid()
      reads this
    {
      if closed then mMaps == [] else Fits(mMaps, lens)
    }

    ghost function Bytes(): seq<byte>
      requires Valid()
      reads this
    {
      Flat(mMaps, |mMaps|)
    }

    constructor (maps: seq<seq<byte>>)
      ensures Valid() && !closed && mMaps == maps && Bytes() == Flat(maps, |maps|)
    {
      closed := false;
      mMaps := maps;
      lens := seq(|maps|, i requires 0 <= i < |maps| => |maps[i]|);
    }

    method Close()
      modifies this
      ensures Valid() && closed && Bytes() == []
    {
      mMaps := [];
      closed := true;
    }

    method CopyHitOut(p: array<byte>, n: nat, h: Hit, ghost a: nat) returns (copied: nat)
      requires Valid() && !closed && n <= p.Length && Placed(h, lens, a + n)
      requires h.extent.length == Min(p.Length - n, lens[h.index] - h.extent.start) && Got(p[..n], Bytes(), a)
      modifies p
      ensures copied == h.extent.length && n + copied <= p.Length
      ensures p[n + copied..] == old(p[n + copied..]) && Got(p[..n + copied], Bytes(), a)
    {
      FlatSlice(mMaps, lens, |mMaps|, h.index, h.extent.start, h.extent.End());
      ghost var was := p[..n];
      var src := mMaps[h.index][h.extent.start..];
      copied := Copy(p, n, src);
      assert src[..copied] == mMaps[h.index][h.extent.start..h.extent.End()];
      GotMore(was, Bytes(), a, src[..copied]);
    }

    /** locateCopy from the maps into the buffer. */
    method CopyOut(p: array<byte>, located: seq<Hit>, ghost a: nat, ghost total: nat) returns (n: nat)
      requires Valid() && !closed && Ready(located, lens, a, p.Length, total)
      modifies p
      ensures n == total <= p.Length && p[n..] == old(p[n..]) && Got(p[..n], Bytes(), a)
    {
      n := 0;
      ghost var left, room: nat, at := total, p.Length, a;
      var hits := located;
      while hits != []
        invariant n + left == total && n + room == p.Length && at == a + n
        invariant Ready(hits, lens, at, room, left)
        invariant Got(p[..n], Bytes(), a) && p[n..] == old(p[n..])
        decreases |hits|
      {
        var copied := CopyHitOut(p, n, hits[0], a);
        n, left, room, at := n + copied, left - copied, room - copied, at + copied;
        hits := hits[1..];
      }
    }

    method CopyHitIn(p: seq<byte>, n: nat, h: Hit, ghost flat: seq<byte>, ghost a: nat) returns (copied: nat)
      requires Valid() && !closed && n <= |p| && Placed(h, lens, a + n)
      requires h.extent.length == Min(|p| - n, lens[h.index] - h.extent.start) && Put(flat, a, p[..n], Bytes())
      modifies this
      ensures Valid() && !closed && copied == h.extent.length && n + copied <= |p|
      ensures Put(flat, a, p[..n + copied], Bytes())
    {
      copied := Min(|p| - n, |mMaps[h.index]| - h.extent.start);
      var piece := p[n..n + copied];
      FlatSplice(mMaps, lens, |mMaps|, h.index, h.extent.start, piece);
      PutMore(flat, a, p[..n], Bytes(), piece);
      assert p[..n + copied] == p[..n] + piece;
      mMaps := mMaps[h.index := Splice(mMaps[h.index], h.extent.start, piece)];
    }

    /** locateCopy from the argument into the maps. */
    method CopyIn(p: seq<byte>, located: seq<Hit>, ghost a: nat, ghost total: nat) returns (n: nat)
      requires Valid() && !closed && Ready(located, lens, a, |p|, total)
      modifies this
      ensures Valid() && !closed && n == total <= |p| && Put(old(Bytes()), a, p[..n], Bytes())
    {
      n := 0;
      ghost var left, room: nat, at := total, |p|, a;
      var hits := located;
      while hits != []
        invariant Valid() && !closed
        invariant n + left == total && n + room == |p| && at == a + n
        invariant Ready(hits, lens, at, room, left)
        invariant Put(old(Bytes()), a, p[..n], Bytes())
        decreases |hits|
      {
        var copied := CopyHitIn(p, n, hits[0], old(Bytes()), a);
        n, left, room, at := n + copied, left - copied, room - copied, at + copied;
        hits := hits[1..];
      }
    }

    /** Fills the buffer from the flat array and reports how much there was. */
    method ReadAt(p: array<byte>, off: int) returns (n: nat, err: Error)
      requires Valid() && (closed || Safe(lens, off, p.Length))
      modifies p
      ensures closed ==> n == 0 && err == Closed
      ensures !closed ==> n == Count(lens, off, p.Length) && err == if n == p.Length then Nil else Eof
      ensures n <= p.Length && p[n..] == old(p[n..]) && Got(p[..n], Bytes(), Max(off, 0))
    {
      if closed { return 0, Closed; }
      var hits := Located(lens, off, p.Length);
      n := CopyOut(p, hits, Max(off, 0), Count(lens, off, p.Length));
      err := if n != p.Length then Eof else Nil;
    }

    /** Writes the bytes into the flat array and leaves the rest of it alone. */
    method WriteAt(p: seq<byte>, off: int) returns (n: nat, err: Error)
      requires Valid() && (closed || Safe(lens, off, |p|))
      modifies this
      ensures Valid() && closed == old(closed)
      ensures closed ==> n == 0 && err == Closed
      ensures !closed ==> n == Count(lens, off, |p|) && err == if n == |p| then Nil else ShortWrite
      ensures n <= |p| && Put(old(Bytes()), Max(off, 0), p[..n], Bytes())
    {
      if closed { return 0, Closed; }
      var hits := Located(lens, off, |p|);
      n := CopyIn(p, hits, Max(off, 0), Count(lens, off, |p|));
      err := if n != |p| then ShortWrite else Nil;
    }
  }
}
