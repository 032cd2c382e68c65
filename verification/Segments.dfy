/** Locating an extent in an ordered list of segments (segments/index.go). */
module Segments {
  import opened Arithmetic
  import opened Outcomes

  datatype Extent = Extent(start: int, length: int) {
    function End(): int {
      start + length
    }
  }

  /** What the locater yields: a segment, and the extent within it. */
  datatype Hit = Hit(index: nat, extent: Extent)

  /** Segments in order and disjoint; gaps and empty segments are allowed. */
  ghost predicate Ordered(segs: seq<Extent>) {
    && (forall i :: 0 <= i < |segs| ==> segs[i].length >= 0)
    && (forall i, j :: 0 <= i < j < |segs| ==> segs[i].End() <= segs[j].start)
  }

  // ---------- the scan ----------

  /** The part of segment l, given relative to where the needle's coordinates start, that
      the needle covers. */
  function Cut(needle: Extent, l: Extent): Extent {
    var start := Max(needle.start - l.start, 0);
    Extent(start, Max(Min(l.length, needle.End() - l.start) - start, 0))
  }

  /** The needle left after segment l, relative to the end of l. */
  function Advance(needle: Extent, l: Extent): Extent {
    Extent(Max(0, needle.start - l.End()), needle.length - (Cut(needle, l).length + l.start))
  }

  /** A segment relative to the end of the one before it, if there was one. */
  function Relative(cur: Extent, lastEnd: Option<int>): Extent {
    Extent(if lastEnd.None? then 0 else cur.start - lastEnd.value, cur.length)
  }

  function Scan(segs: seq<Extent>, i: nat, lastEnd: Option<int>, needle: Extent, started: bool): seq<Hit>
    decreases |segs| - i
  {
    if i >= |segs| || needle.length == 0 then []
    else
      var l := Relative(segs[i], lastEnd);
      var e1, left := Cut(needle, l), Advance(needle, l);
      var hit := e1.length > 0 || (started && left.length != 0);
      var rest := Scan(segs, i + 1, Some(segs[i].End()), left, started || hit);
      if hit then [Hit(i, e1)] + rest else rest
  }

  /** The least index from i on whose segment ends after the target. */
  function First(segs: seq<Extent>, target: int, i: nat): (k: nat)
    requires i <= |segs|
    ensures i <= k <= |segs|
    ensures forall j :: i <= j < k ==> segs[j].End() <= target
    ensures k < |segs| ==> target < segs[k].End()
    decreases |segs| - i
  {
    if i == |segs| || segs[i].End() > target then i else First(segs, target, i + 1)
  }

  /** The needle relative to the first segment: what lies before that segment is dropped. */
  function Needle(e: Extent, first: Extent): Extent {
    var start := e.start - first.start;
    if start < 0 then Extent(0, e.length + start) else Extent(start, e.length)
  }

  function Locate(segs: seq<Extent>, e: Extent): seq<Hit> {
    var first := First(segs, e.start, 0);
    if first == |segs| then [] else Scan(segs, first, None, Needle(e, segs[first]), false)
  }

  // ---------- what it should find ----------

  /** The part of a segment inside [a, b), relative to the segment. */
  function Overlap(seg: Extent, a: int, b: int): Extent {
    Extent(Max(a, seg.start) - seg.start, Min(b, seg.End()) - Max(a, seg.start))
  }

  /** Every non-empty intersection of [a, b) with a segment, in order. */
  function Overlaps(segs: seq<Extent>, i: nat, a: int, b: int): seq<Hit>
    decreases |segs| - i
  {
    if i >= |segs| then []
    else
      var o := Overlap(segs[i], a, b);
      (if o.length > 0 then [Hit(i, o)] else []) + Overlaps(segs, i + 1, a, b)
  }

  function NonEmpty(hits: seq<Hit>): seq<Hit> {
    if hits == [] then []
    else (if hits[0].extent.length > 0 then [hits[0]] else []) + NonEmpty(hits[1..])
  }

  lemma {:induction false} NonEmptyCons(h: Hit, rest: seq<Hit>)
    ensures NonEmpty([h] + rest) == (if h.extent.length > 0 then [h] else []) + NonEmpty(rest)
  {
    assert ([h] + rest)[1..] == rest;
  }

  lemma {:induction false} NoOverlaps(segs: seq<Extent>, i: nat, a: int, b: int)
    requires Ordered(segs) && (i < |segs| ==> b <= Max(a, segs[i].start))
    ensures Overlaps(segs, i, a, b) == []
    decreases |segs| - i
  {
    if i < |segs| { NoOverlaps(segs, i + 1, a, b); }
  }

  lemma {:induction false} OverlapsFrom(segs: seq<Extent>, i: nat, k: nat, a: int, b: int)
    requires i <= k <= |segs| && forall j :: i <= j < k ==> segs[j].End() <= a
    ensures Overlaps(segs, i, a, b) == Overlaps(segs, k, a, b)
    decreases k - i
  {
    if i < k { OverlapsFrom(segs, i + 1, k, a, b); }
  }

  lemma {:induction false} NonEmptyStep(hit: bool, h: Hit, o: Hit, rest: seq<Hit>)
    requires h.extent.length > 0 <==> o.extent.length > 0
    requires h.extent.length > 0 ==> hit && h == o
    ensures NonEmpty(if hit then [h] + rest else rest) == (if o.extent.length > 0 then [o] else []) + NonEmpty(rest)
  {
    if hit { NonEmptyCons(h, rest); }
  }

  /** How a needle of length nl stands for [a, b) once segments up to p are scanned. Past b
      its length may go negative, and stays so. */
  predicate Tracks(p: int, nl: int, a: int, b: int) {
    a < p && (nl == b - p || (b <= p && nl <= 0))
  }

  lemma {:induction false} CutFirst(seg: Extent, a: int, b: int)
    requires seg.length >= 0 && a < seg.End()
    ensures var needle, l, o := Needle(Extent(a, b - a), seg), Relative(seg, None), Overlap(seg, a, b);
            var e1, left := Cut(needle, l), Advance(needle, l);
            && (e1.length > 0 <==> o.length > 0) && (e1.length > 0 ==> e1 == o)
            && left.start == 0 && Tracks(seg.End(), left.length, a, b)
            && (needle.length == 0 ==> b <= Max(a, seg.start))
  {
  }

  lemma {:induction false} CutLater(seg: Extent, p: int, nl: int, a: int, b: int)
    requires seg.length >= 0 && p <= seg.start && Tracks(p, nl, a, b)
    ensures var needle, l, o := Extent(0, nl), Relative(seg, Some(p)), Overlap(seg, a, b);
            var e1, left := Cut(needle, l), Advance(needle, l);
            && (e1.length > 0 <==> o.length > 0) && (e1.length > 0 ==> e1 == o)
            && left.start == 0 && Tracks(seg.End(), left.length, a, b)
  {
  }

  lemma {:induction false} ScanFinds(segs: seq<Extent>, i: nat, p: int, nl: int, started: bool, a: int, b: int)
    requires Ordered(segs) && Tracks(p, nl, a, b) && (i < |segs| ==> p <= segs[i].start)
    ensures NonEmpty(Scan(segs, i, Some(p), Extent(0, nl), started)) == Overlaps(segs, i, a, b)
    decreases |segs| - i
  {
    if i < |segs| && nl == 0 {
      NoOverlaps(segs, i, a, b);
    } else if i < |segs| {
      var needle, l := Extent(0, nl), Relative(segs[i], Some(p));
      var e1, left := Cut(needle, l), Advance(needle, l);
      var hit := e1.length > 0 || (started && left.length != 0);
      CutLater(segs[i], p, nl, a, b);
      ScanFinds(segs, i + 1, segs[i].End(), left.length, started || hit, a, b);
      var rest := Scan(segs, i + 1, Some(segs[i].End()), left, started || hit);
      NonEmptyStep(hit, Hit(i, e1), Hit(i, Overlap(segs[i], a, b)), rest);
    }
  }

  lemma {:induction false} FirstFinds(segs: seq<Extent>, i: nat, a: int, b: int)
    requires Ordered(segs) && i < |segs| && a < segs[i].End()
    ensures NonEmpty(Scan(segs, i, None, Needle(Extent(a, b - a), segs[i]), false)) == Overlaps(segs, i, a, b)
  {
    var needle, l := Needle(Extent(a, b - a), segs[i]), Relative(segs[i], None);
    CutFirst(segs[i], a, b);
    if needle.length == 0 {
      NoOverlaps(segs, i, a, b);
    } else {
      var e1, left := Cut(needle, l), Advance(needle, l);
      ScanFinds(segs, i + 1, segs[i].End(), left.length, e1.length > 0, a, b);
      var rest := Scan(segs, i + 1, Some(segs[i].End()), left, e1.length > 0);
      NonEmptyStep(e1.length > 0, Hit(i, e1), Hit(i, Overlap(segs[i], a, b)), rest);
    }
  }

  /** The locater yields, apart from empty extents, exactly the non-empty intersections of
      the target with the segments, in order. */
  lemma {:induction false} LocateFinds(segs: seq<Extent>, e: Extent)
    requires Ordered(segs)
    ensures NonEmpty(Locate(segs, e)) == Overlaps(segs, 0, e.start, e.End())
  {
    var i := First(segs, e.start, 0);
    OverlapsFrom(segs, 0, i, e.start, e.End());
    if i < |segs| { FirstFinds(segs, i, e.start, e.End()); }
  }

  // ---------- the loops ----------

  /** The binary search for the first segment that ends after the target. */
  method Search(segs: seq<Extent>, target: int) returns (i: nat)
    requires Ordered(segs)
    ensures i == First(segs, target, 0)
  {
    i := 0;
    var j := |segs|;
    while i < j
      invariant 0 <= i <= j <= |segs|
      invariant forall k :: 0 <= k < i ==> segs[k].End() <= target
      invariant j < |segs| ==> target < segs[j].End()
    {
      var h := (i + j) / 2;
      if segs[h].End() < target + 1 { i := h + 1; } else { j := h; }
    }
  }

  /** What was yielded and what is still to come make up the whole. */
  lemma {:induction false} Yielded(hits: seq<Hit>, rest: seq<Hit>, all: seq<Hit>, hit: bool, h: Hit, next: seq<Hit>)
    requires hits + rest == all && rest == if hit then [h] + next else next
    ensures (if hit then hits + [h] else hits) + next == all
  {
    if hit { assert hits + ([h] + next) == (hits + [h]) + next; }
  }

  lemma {:induction false} ScanUnfolds(segs: seq<Extent>, i: nat, lastEnd: Option<int>, needle: Extent, started: bool)
    requires i < |segs| && needle.length != 0
    ensures var e1, left := Cut(needle, Relative(segs[i], lastEnd)), Advance(needle, Relative(segs[i], lastEnd));
            var hit := e1.length > 0 || (started && left.length != 0);
            var next := Scan(segs, i + 1, Some(segs[i].End()), left, started || hit);
            Scan(segs, i, lastEnd, needle, started) == if hit then [Hit(i, e1)] + next else next
  {
  }

  lemma {:induction false} ScanEnds(segs: seq<Extent>, i: nat, lastEnd: Option<int>, needle: Extent, started: bool)
    requires i >= |segs| || needle.length == 0
    ensures Scan(segs, i, lastEnd, needle, started) == []
  {
  }

  /** The arithmetic of one turn of the loop. */
  method ScanOne(cur: Extent, lastEnd: Option<int>, needle: Extent) returns (e1: Extent, left: Extent)
    ensures e1 == Cut(needle, Relative(cur, lastEnd)) && left == Advance(needle, Relative(cur, lastEnd))
  {
    var l := Extent(cur.start - (if lastEnd.None? then cur.start else lastEnd.value), cur.length);
    var start := Max(needle.start - l.start, 0);
    e1 := Extent(start, Max(Min(l.length, needle.End() - l.start) - start, 0));
    left := Extent(Max(0, needle.start - l.End()), needle.length - (e1.length + l.start));
  }

  method LocateIter(segs: seq<Extent>, e: Extent) returns (hits: seq<Hit>)
    requires Ordered(segs)
    ensures hits == Locate(segs, e)
  {
    hide Scan;
    var first := Search(segs, e.start);
    hits := [];
    if first == |segs| { return; }
    var start, length := e.start - segs[first].start, e.length;
    if start < 0 { start, length := 0, length + start; }
    var needle, startedNeedle, i := Extent(start, length), false, first;
    var lastEnd: Option<int> := None;
    assert needle == Needle(e, segs[first]);
    ghost var all := Locate(segs, e);
    ghost var rest := all;
    assert hits + rest == all;
    while i < |segs|
      invariant first <= i <= |segs|
      invariant rest == Scan(segs, i, lastEnd, needle, startedNeedle) && hits + rest == all
    {
      if needle.length == 0 {
        ScanEnds(segs, i, lastEnd, needle, startedNeedle);
        return;
      }
      ScanUnfolds(segs, i, lastEnd, needle, startedNeedle);
      var e1, left := ScanOne(segs[i], lastEnd, needle);
      lastEnd, needle := Some(segs[i].End()), left;
      var hit := e1.length > 0 || (startedNeedle && needle.length != 0);
      ghost var next := Scan(segs, i + 1, lastEnd, needle, startedNeedle || hit);
      Yielded(hits, rest, all, hit, Hit(i, e1), next);
      rest := next;
      if hit {
        hits := hits + [Hit(i, e1)];
        startedNeedle := true;
      }
      i := i + 1;
    }
    ScanEnds(segs, i, lastEnd, needle, startedNeedle);
  }

  // ---------- single offsets ----------

  predicate Contains(seg: Extent, off: int) {
    seg.start <= off < seg.End()
  }

  lemma {:induction false} HitAt(segs: seq<Extent>, i: nat, off: int)
    requires i < |segs| && Contains(segs[i], off)
    ensures Scan(segs, i, None, Needle(Extent(off, 1), segs[i]), false) == [Hit(i, Extent(off - segs[i].start, 1))]
  {
    var needle, l := Extent(off - segs[i].start, 1), Relative(segs[i], None);
    assert Needle(Extent(off, 1), segs[i]) == needle;
    assert Cut(needle, l) == needle && Advance(needle, l).length == 0;
    ScanUnfolds(segs, i, None, needle, false);
    assert Scan(segs, i + 1, Some(segs[i].End()), Advance(needle, l), true) == [];
  }

  /** An extent of length one is found in at most one piece. */
  lemma {:induction false} OneHit(segs: seq<Extent>, off: int)
    requires Ordered(segs)
    ensures var hits, first := Locate(segs, Extent(off, 1)), First(segs, off, 0);
            if first < |segs| && segs[first].start <= off
            then hits == [Hit(first, Extent(off - segs[first].start, 1))]
            else hits == [] && forall i :: 0 <= i < |segs| ==> !Contains(segs[i], off)
  {
    var first := First(segs, off, 0);
    if first < |segs| && segs[first].start <= off {
      HitAt(segs, first, off);
    } else if first < |segs| {
      NothingLeft(segs, first, None, Needle(Extent(off, 1), segs[first]));
    }
  }

  /** A needle that has run out yields nothing before the first hit. */
  lemma {:induction false} NothingLeft(segs: seq<Extent>, i: nat, lastEnd: Option<int>, needle: Extent)
    requires Ordered(segs) && needle.start == 0 && needle.length <= 0
    requires lastEnd.Some? && i < |segs| ==> lastEnd.value <= segs[i].start
    ensures Scan(segs, i, lastEnd, needle, false) == []
    decreases |segs| - i
  {
    if i < |segs| && needle.length != 0 {
      var l := Relative(segs[i], lastEnd);
      NothingLeft(segs, i + 1, Some(segs[i].End()), Advance(needle, l));
    }
  }

  datatype IndexAndOffset = IndexAndOffset(index: nat, offset: int)

  /** LocateOffset: neither of its panics is reached, and it returns the segment that
      contains the offset, if one does. */
  method LocateOffset(segs: seq<Extent>, off: int) returns (ret: Option<IndexAndOffset>)
    requires Ordered(segs)
    ensures ret.Some? ==>
              && ret.value.index < |segs| && Contains(segs[ret.value.index], off)
              && segs[ret.value.index].start + ret.value.offset == off
    ensures ret.None? ==> forall i :: 0 <= i < |segs| ==> !Contains(segs[i], off)
  {
    ret := None;
    var hits := LocateIter(segs, Extent(off, 1));
    OneHit(segs, off);
    var i := 0;
    while i < |hits|
      invariant 0 <= i <= |hits|
      invariant if i == 0 then ret == None else ret == Some(IndexAndOffset(hits[0].index, hits[0].extent.start))
    {
      assert ret.None?;
      assert hits[i].extent.length == 1;
      ret := Some(IndexAndOffset(hits[i].index, hits[i].extent.start));
      i := i + 1;
    }
  }
}
