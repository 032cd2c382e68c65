/** Runs of reads, writes and a close on an mmap span, beside the same run on one flat array
    (mmap-span/mmap-span.go). */
module MmapRuns {
  import opened Arithmetic
  import opened Bytes
  import opened MmapSpan

  /** A file as one array. */
  datatype File = File(bytes: seq<byte>, closed: bool)

  datatype Op = Read(off: int, len: nat) | Write(off: int, p: seq<byte>) | Shut

  /** The count and error returned, and the bytes read. */
  datatype Answer = Answer(n: nat, err: Error, data: seq<byte>)

  /** How much of len bytes at an offset a file of some size has. */
  function Room(size: nat, off: int, len: nat): (n: nat)
    ensures n <= len && (n > 0 ==> Max(off, 0) + n <= size)
  {
    Max(0, Min(off + len, size) - Max(off, 0))
  }

  function Reply(f: File, op: Op): Answer {
    if op.Shut? then Answer(0, Nil, [])
    else if f.closed then Answer(0, Closed, [])
    else
      match op
      case Read(off, len) =>
        var n := Room(|f.bytes|, off, len);
        Answer(n, if n == len then Nil else Eof, Slice(f.bytes, Max(off, 0), n))
      case Write(off, p) =>
        var n := Room(|f.bytes|, off, |p|);
        Answer(n, if n == |p| then Nil else ShortWrite, [])
  }

  function Slice(s: seq<byte>, at: nat, n: nat): seq<byte>
    requires n > 0 ==> at + n <= |s|
  {
    if n == 0 then [] else s[at..at + n]
  }

  function Overwrite(s: seq<byte>, at: nat, piece: seq<byte>): seq<byte>
    requires piece != [] ==> at + |piece| <= |s|
  {
    if piece == [] then s else Splice(s, at, piece)
  }

  function After(f: File, op: Op): File {
    match op
    case Read(_, _) => f
    case Write(off, p) =>
      if f.closed then f else f.(bytes := Overwrite(f.bytes, Max(off, 0), p[..Room(|f.bytes|, off, |p|)]))
    case Shut => File([], true)
  }

  function AfterAll(f: File, ops: seq<Op>): File {
    if ops == [] then f else After(AfterAll(f, ops[..|ops| - 1]), ops[|ops| - 1])
  }

  // ---------- the span does the same ----------

  /** The copy does not panic. */
  ghost predicate Allowed(lens: seq<nat>, f: File, op: Op) {
    match op
    case Read(off, len) => f.closed || Safe(lens, off, len)
    case Write(off, p) => f.closed || Safe(lens, off, |p|)
    case Shut => true
  }

  ghost predicate IsRun(lens: seq<nat>, f: File, ops: seq<Op>) {
    forall k :: 0 <= k < |ops| ==> Allowed(lens, AfterAll(f, ops[..k]), ops[k])
  }

  /** An offset that is not negative is always allowed. */
  lemma {:induction false} PlainRun(lens: seq<nat>, f: File, ops: seq<Op>)
    requires forall k :: 0 <= k < |ops| && !ops[k].Shut? ==> ops[k].off >= 0
    ensures IsRun(lens, f, ops)
  {
  }

  ghost function FileOf(ms: MMapSpan): File
    requires ms.Valid()
    reads ms
  {
    File(ms.Bytes(), ms.closed)
  }

  method DoRead(ms: MMapSpan, off: int, len: nat) returns (a: Answer)
    requires ms.Valid() && (ms.closed || Safe(ms.lens, off, len))
    ensures a == Reply(FileOf(ms), Read(off, len))
  {
    var p := new byte[len];
    var n, err := ms.ReadAt(p, off);
    if !ms.closed { FlatLength(ms.mMaps, ms.lens, |ms.mMaps|); }
    a := Answer(n, err, p[..n]);
  }

  method DoWrite(ms: MMapSpan, off: int, p: seq<byte>) returns (a: Answer)
    requires ms.Valid() && (ms.closed || Safe(ms.lens, off, |p|))
    modifies ms
    ensures ms.Valid() && FileOf(ms) == After(old(FileOf(ms)), Write(off, p))
    ensures a == Reply(old(FileOf(ms)), Write(off, p))
  {
    if !ms.closed { FlatLength(ms.mMaps, ms.lens, |ms.mMaps|); }
    var n, err := ms.WriteAt(p, off);
    a := Answer(n, err, []);
  }

  method Do(ms: MMapSpan, op: Op) returns (a: Answer)
    requires ms.Valid() && Allowed(ms.lens, FileOf(ms), op)
    modifies ms
    ensures ms.Valid() && FileOf(ms) == After(old(FileOf(ms)), op) && a == Reply(old(FileOf(ms)), op)
  {
    match op
    case Read(off, len) => a := DoRead(ms, off, len);
    case Write(off, p) => a := DoWrite(ms, off, p);
    case Shut =>
      ms.Close();
      a := Answer(0, Nil, []);
  }

  lemma {:induction false} AfterNone(f: File, ops: seq<Op>)
    requires ops == []
    ensures AfterAll(f, ops) == f
  {
  }

  lemma {:induction false} AfterNext(f: File, ops: seq<Op>, i: nat)
    requires i < |ops|
    ensures AfterAll(f, ops[..i + 1]) == After(AfterAll(f, ops[..i]), ops[i])
  {
    assert ops[..i + 1][..i] == ops[..i];
  }

  /** Main result: any sequence of reads and writes, with a close anywhere, gets from the span every answer
      it would get from one flat array, and leaves the same bytes. */
  method RunOps(ms: MMapSpan, ops: seq<Op>) returns (answers: seq<Answer>)
    requires ms.Valid() && IsRun(ms.lens, FileOf(ms), ops)
    modifies ms
    ensures ms.Valid() && FileOf(ms) == AfterAll(old(FileOf(ms)), ops) && |answers| == |ops|
    ensures forall k :: 0 <= k < |ops| ==> answers[k] == Reply(AfterAll(old(FileOf(ms)), ops[..k]), ops[k])
  {
    hide Reply, After, AfterAll, Allowed;
    ghost var f := FileOf(ms);
    assert AfterAll(f, ops[..0]) == f by { AfterNone(f, ops[..0]); }
    answers := [];
    for i := 0 to |ops|
      invariant ms.Valid() && FileOf(ms) == AfterAll(f, ops[..i]) && |answers| == i
      invariant forall k :: 0 <= k < i ==> answers[k] == Reply(AfterAll(f, ops[..k]), ops[k])
    {
      assert Allowed(ms.lens, AfterAll(f, ops[..i]), ops[i]);
      AfterNext(f, ops, i);
      var a := Do(ms, ops[i]);
      answers := answers + [a];
    }
    assert ops[..|ops|] == ops;
  }

  // ---------- and a flat array remembers ----------

  /** The byte at a place: the one the last write that reached it put there, if any did. */
  function Latest(flat: seq<byte>, ops: seq<Op>, i: nat): byte
    requires i < |flat|
  {
    if ops == [] then flat[i]
    else
      var op := ops[|ops| - 1];
      if op.Write? && Max(op.off, 0) <= i < Max(op.off, 0) + Room(|flat|, op.off, |op.p|) then op.p[i - Max(op.off, 0)]
      else Latest(flat, ops[..|ops| - 1], i)
  }

  predicate StaysOpen(ops: seq<Op>) {
    forall k :: 0 <= k < |ops| ==> !ops[k].Shut?
  }

  lemma {:induction false} OverwriteAt(s: seq<byte>, at: nat, piece: seq<byte>, i: nat)
    requires (piece != [] ==> at + |piece| <= |s|) && i < |s|
    ensures |Overwrite(s, at, piece)| == |s|
    ensures Overwrite(s, at, piece)[i] == if at <= i < at + |piece| then piece[i - at] else s[i]
  {
  }

  lemma {:induction false} HoldsLatest(flat: seq<byte>, ops: seq<Op>, i: nat)
    requires StaysOpen(ops) && i < |flat|
    ensures var f := AfterAll(File(flat, false), ops); !f.closed && |f.bytes| == |flat| && f.bytes[i] == Latest(flat, ops, i)
  {
    if ops != [] {
      var before, op := ops[..|ops| - 1], ops[|ops| - 1];
      HoldsLatest(flat, before, i);
      var f := AfterAll(File(flat, false), before);
      if op.Write? { OverwriteAt(f.bytes, Max(op.off, 0), op.p[..Room(|flat|, op.off, |op.p|)], i); }
    }
  }

  /** Every byte a read returns is the latest written there, over any run before it. */
  lemma {:induction false} ReadsLatest(flat: seq<byte>, ops: seq<Op>, off: int, len: nat, j: nat)
    requires StaysOpen(ops) && j < Reply(AfterAll(File(flat, false), ops), Read(off, len)).n
    ensures var a := Reply(AfterAll(File(flat, false), ops), Read(off, len));
            && Max(off, 0) + j < |flat| && |a.data| == a.n && a.data[j] == Latest(flat, ops, Max(off, 0) + j)
  {
    var f := AfterAll(File(flat, false), ops);
    SameSize(flat, ops);
    HoldsLatest(flat, ops, Max(off, 0) + j);
  }

  lemma {:induction false} SameSize(flat: seq<byte>, ops: seq<Op>)
    requires StaysOpen(ops)
    ensures var f := AfterAll(File(flat, false), ops); !f.closed && |f.bytes| == |flat|
  {
    if ops != [] { SameSize(flat, ops[..|ops| - 1]); }
  }
}
