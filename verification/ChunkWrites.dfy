/** Accepting chunks, writing them with the lock released, and queueing the piece for
    hashing (peer.go, piece.go, torrent.go).

    A chunk is marked dirty when it is accepted and before it is written. Any number of
    peers have writes in flight; whichever finishes last must queue the check. */
module ChunkWrites {
  import opened Outcomes
  import opened Sets

  type Chunk = nat

  /** Where the check of a piece is. */
  datatype Check = Idle | Queued | Hashing | Marking(passed: bool)

  datatype Piece = Piece(
    numChunks: nat,
    haveHash: bool,
    dirty: set<Chunk>,
    pendingWrites: int,
    inFlight: set<Chunk>,              // chunks some peer holds a pendingChunkWrite for
    stored: set<Chunk>,                // chunks whose write succeeded since the last check
    check: Check,
    complete: bool)

  predicate HaveChunk(p: Piece, c: Chunk) {
    p.complete || c in p.dirty
  }

  predicate AllChunksDirty(p: Piece) {
    |p.dirty| == p.numChunks
  }

  /** receiveChunkPrologue for a valid chunk: redundant, or a write to be done. */
  function Prologue(p: Piece, c: Chunk): Piece {
    if HaveChunk(p, c) then p
    else p.(pendingWrites := p.pendingWrites + 1, dirty := p.dirty + {c}, inFlight := p.inFlight + {c})
  }

  function QueuePieceCheck(p: Piece): Piece {
    if !p.haveHash || p.check == Queued then p else p.(check := Queued)
  }

  /** receiveChunkEpilogue for a finished write; a negative count is a panic. */
  function Epilogue(p: Piece, c: Chunk, written: bool): Outcome<Piece> {
    var p1 := p.(pendingWrites := p.pendingWrites - 1, inFlight := p.inFlight - {c});
    if p1.pendingWrites < 0 then Panic
    else if !written then Ok(p1.(dirty := p1.dirty - {c}))
    else Ok(QueueIfLast(p1.(stored := p1.stored + {c})))
  }

  /** The last writer of a piece with every chunk dirty queues the check. */
  function QueueIfLast(p: Piece): Piece {
    if AllChunksDirty(p) && p.pendingWrites == 0 then QueuePieceCheck(p) else p
  }

  /** getPieceToHash takes queued pieces that are not hashing or marking. */
  function StartHash(p: Piece): Piece {
    if p.check == Queued then p.(check := Hashing) else p
  }

  /** The hash is known; marking the storage happens with the lock released. */
  function FinishHash(p: Piece, passed: bool): Piece {
    if p.check == Hashing then p.(check := Marking(passed)) else p
  }

  /** pieceHashed after the storage was marked. */
  function FinishMark(p: Piece): Piece {
    match p.check
    case Marking(true) => p.(dirty := {}, stored := {}, complete := true, check := Idle)
    case Marking(false) =>
      if AllChunksDirty(p) then p.(dirty := {}, stored := {}, complete := false, check := Idle)
      else p.(complete := false, check := Idle)
    case _ => p
  }

  /** A piece nothing has happened to. */
  function Fresh(numChunks: nat, haveHash: bool): Piece {
    Piece(numChunks, haveHash, {}, 0, {}, {}, Idle, false)
  }

  // ---------- the invariant ----------

  /** The chunks of a piece. */
  function Chunks(p: Piece): set<Chunk> {
    Below(p.numChunks)
  }

  /** Every chunk has been written. */
  ghost predicate AllStored(p: Piece) {
    |p.stored| == p.numChunks
  }

  /** Dirty chunks are the disjoint union of written and in-flight ones, the pending
      count is the number in flight, and a check is somewhere between queued and marked
      exactly when every chunk is written (and the hash to check against is known). */
  ghost predicate Inv(p: Piece) {
    && p.numChunks > 0
    && (forall c :: c in p.dirty ==> c < p.numChunks)
    && p.dirty == p.stored + p.inFlight && p.stored !! p.inFlight
    && p.pendingWrites == |p.inFlight|
    && (p.complete ==> p.dirty == {})
    && (p.check != Idle <==> AllStored(p) && p.haveHash)
  }

  lemma {:induction false} Counts(p: Piece)
    requires Inv(p)
    ensures |p.dirty| == |p.stored| + p.pendingWrites && |p.dirty| <= p.numChunks
    ensures AllStored(p) <==> p.stored == Chunks(p)
  {
    SubsetCard(p.dirty, Chunks(p));
    SubsetCard(p.stored, Chunks(p));
  }

  /** A chunk that is neither dirty nor part of a complete piece becomes dirty, with one
      more write in flight and counted. Any other changes nothing. */
  lemma {:induction false} PrologueOk(p: Piece, c: Chunk)
    requires Inv(p) && c < p.numChunks
    ensures Inv(Prologue(p, c))
    ensures p.complete || c in p.dirty ==> Prologue(p, c) == p
    ensures !p.complete && c !in p.dirty ==>
      var p' := Prologue(p, c);
      && p'.dirty == p.dirty + {c} && p'.inFlight == p.inFlight + {c} && p'.pendingWrites == p.pendingWrites + 1
      && p' == p.(dirty := p'.dirty, inFlight := p'.inFlight, pendingWrites := p'.pendingWrites)
  {
    if !HaveChunk(p, c) {
      assert c !in p.inFlight && c !in p.stored;
    }
  }

  /** After a failed write: the sets, and that not every chunk is stored. */
  lemma {:induction false} FailedSets(p: Piece, c: Chunk)
    requires Inv(p) && c in p.inFlight
    ensures p.check == Idle && |p.stored| < p.numChunks && |p.inFlight - {c}| == p.pendingWrites - 1
    ensures p.dirty - {c} == p.stored + (p.inFlight - {c})
  {
    Counts(p);
    assert |p.inFlight - {c}| == |p.inFlight| - 1;
  }

  lemma {:induction false} EpilogueFailed(p: Piece, c: Chunk)
    requires Inv(p) && c in p.inFlight
    ensures p.check == Idle && Epilogue(p, c, false).Ok? && Inv(Epilogue(p, c, false).value)
    ensures Epilogue(p, c, false).value.check == Idle
  {
    FailedSets(p, c);
  }

  /** After a write: the sets, and how many chunks are stored. */
  lemma {:induction false} EpilogueSets(p: Piece, c: Chunk)
    requires Inv(p) && c in p.inFlight
    ensures p.check == Idle && c !in p.stored && |p.stored + {c}| == |p.stored| + 1 <= p.numChunks
    ensures p.dirty == (p.stored + {c}) + (p.inFlight - {c}) && |p.inFlight - {c}| == p.pendingWrites - 1
    ensures |p.stored| + 1 == p.numChunks <==> p.stored + {c} == Chunks(p)
    ensures |p.dirty| == p.numChunks && p.pendingWrites == 1 <==> |p.stored| + 1 == p.numChunks
  {
    Counts(p);
    assert c in p.dirty && c !in p.stored;
    SubsetCard(p.stored + {c}, Chunks(p));
  }

  /** The write count never goes negative and drops by one. A written chunk is stored and
      stays dirty; a chunk whose write failed is clean again. A check is queued exactly at
      the epilogue that leaves every chunk written. */
  lemma {:induction false} EpilogueOk(p: Piece, c: Chunk, written: bool)
    requires Inv(p) && c in p.inFlight
    ensures Epilogue(p, c, written).Ok? && Inv(Epilogue(p, c, written).value)
    ensures p.check == Idle
    ensures var p' := Epilogue(p, c, written).value;
            && (p'.check == Queued <==> p.haveHash && written && p.stored + {c} == Chunks(p))
            && (p'.check != Queued ==> p'.check == Idle)
            && p'.inFlight == p.inFlight - {c} && p'.pendingWrites == p.pendingWrites - 1
            && p'.stored == (if written then p.stored + {c} else p.stored)
            && p'.dirty == (if written then p.dirty else p.dirty - {c})
            && p'.complete == p.complete && p'.numChunks == p.numChunks && p'.haveHash == p.haveHash
  {
    if written { EpilogueSets(p, c); } else { EpilogueFailed(p, c); }
  }

  /** While a check is queued, hashing or marking, every chunk counts as had: nothing a
      peer sends starts a write, and no write is in flight to be waited for. */
  lemma {:induction false} NoWriteDuringCheck(p: Piece, c: Chunk)
    requires Inv(p) && c < p.numChunks && p.check != Idle
    ensures Prologue(p, c) == p
    ensures p.pendingWrites == 0 && p.inFlight == {}
  {
    Counts(p);
    assert c in p.stored;
  }

  /** Recording a verdict ends the check with it, in any state; if it failed with chunks still to come, those that came
      stay dirty. */
  lemma {:induction false} FinishMarkIs(p: Piece)
    requires p.check.Marking?
    ensures FinishMark(p).check == Idle && FinishMark(p).complete == p.check.passed
    ensures FinishMark(p).dirty == if p.check.passed || |p.dirty| == p.numChunks then {} else p.dirty
    ensures FinishMark(p).inFlight == p.inFlight && FinishMark(p).pendingWrites == p.pendingWrites
  {
    if p.check.passed { assert p.check == Marking(true); } else { assert p.check == Marking(false); }
  }

  /** A check ends with every chunk clean, and the piece complete if it passed. */
  lemma {:induction false} FinishMarkOk(p: Piece)
    requires Inv(p) && p.check.Marking?
    ensures Inv(FinishMark(p))
    ensures FinishMark(p).dirty == {} && FinishMark(p).check == Idle && FinishMark(p).complete == p.check.passed
  {
    Counts(p);
  }

  /** A check, from the hash being known to its being recorded: whatever the verdict, every
      chunk is clean afterwards, and the piece is complete exactly if it passed. */
  lemma {:induction false} CheckOk(p: Piece, passed: bool)
    requires Inv(p) && p.check == Hashing
    ensures FinishMark(FinishHash(p, passed)) == p.(dirty := {}, stored := {}, complete := passed, check := Idle)
    ensures p.inFlight == {} && p.pendingWrites == 0
  {
    Counts(p);
  }

  /** A queued check, run to its end. */
  lemma {:induction false} WholeCheckOk(p: Piece, passed: bool)
    requires Inv(p) && p.check == Queued
    ensures FinishMark(FinishHash(StartHash(p), passed))
            == Fresh(p.numChunks, p.haveHash).(complete := passed)
  {
    StartHashOk(p);
    CheckOk(StartHash(p), passed);
  }

  lemma {:induction false} StartHashOk(p: Piece)
    requires Inv(p)
    ensures Inv(StartHash(p))
  {
    Counts(p);
  }

  // ---------- runs ----------

  datatype Op =
    | Accept(i: nat, c: Chunk)
    | Written(i: nat, c: Chunk, ok: bool)
    | Start(i: nat)
    | Hashed(i: nat, passed: bool)
    | Marked(i: nat)

  type Torrent = seq<Piece>

  /** A received chunk is one of its piece's; only a write in flight finishes. */
  ghost predicate Allowed(t: Torrent, op: Op) {
    && op.i < |t|
    && (op.Accept? ==> op.c < t[op.i].numChunks)
    && (op.Written? ==> op.c in t[op.i].inFlight)
  }

  function PieceStep(p: Piece, op: Op): Outcome<Piece> {
    match op
    case Accept(_, c) => Ok(Prologue(p, c))
    case Written(_, c, ok) => Epilogue(p, c, ok)
    case Start(_) => Ok(StartHash(p))
    case Hashed(_, passed) => Ok(FinishHash(p, passed))
    case Marked(_) => Ok(FinishMark(p))
  }

  function Step(t: Torrent, op: Op): Outcome<Torrent>
    requires op.i < |t|
  {
    var p :- PieceStep(t[op.i], op);
    Ok(t[op.i := p])
  }

  ghost predicate AllInv(t: Torrent) {
    forall i :: 0 <= i < |t| ==> Inv(t[i])
  }

  lemma {:induction false} PieceStepOk(p: Piece, op: Op)
    requires Inv(p) && (op.Accept? ==> op.c < p.numChunks) && (op.Written? ==> op.c in p.inFlight)
    ensures PieceStep(p, op).Ok? && Inv(PieceStep(p, op).value)
  {
    match op
    case Accept(_, c) => PrologueOk(p, c);
    case Written(_, c, ok) => EpilogueOk(p, c, ok);
    case Start(_) => StartHashOk(p);
    case Hashed(_, _) => StartHashOk(p);
    case Marked(_) => if p.check.Marking? { FinishMarkOk(p); }
  }

  lemma {:induction false} StepOk(t: Torrent, op: Op)
    requires AllInv(t) && Allowed(t, op)
    ensures Step(t, op).Ok? && AllInv(Step(t, op).value)
  {
    PieceStepOk(t[op.i], op);
  }

  ghost predicate IsRun(t: Torrent, ops: seq<Op>)
    decreases |ops|
  {
    ops == [] || (Allowed(t, ops[0]) && (Step(t, ops[0]).Ok? ==> IsRun(Step(t, ops[0]).value, ops[1..])))
  }

  ghost function Run(t: Torrent, ops: seq<Op>): Outcome<Torrent>
    requires IsRun(t, ops)
    decreases |ops|
  {
    if ops == [] then Ok(t)
    else if Step(t, ops[0]).Panic? then Panic
    else Run(Step(t, ops[0]).value, ops[1..])
  }

  lemma {:induction false} RunOk(t: Torrent, ops: seq<Op>)
    requires AllInv(t) && IsRun(t, ops)
    ensures Run(t, ops).Ok? && AllInv(Run(t, ops).value)
    decreases |ops|
  {
    if ops != [] {
      StepOk(t, ops[0]);
      RunOk(Step(t, ops[0]).value, ops[1..]);
    }
  }

  /** Main result: for every interleaving of acceptances, successful or failed writes and
      checks by any number of peers on any number of pieces, the pending count is never
      negative; dirty chunks are the disjoint union of written and in-flight ones; the
      count is the number in flight; and a check is queued, running or being recorded
      exactly when every chunk of a piece with a known hash is written. */
  lemma {:induction false} ChunksSafe(t0: Torrent, ops: seq<Op>)
    requires forall i :: 0 <= i < |t0| ==> t0[i].numChunks > 0 && t0[i] == Fresh(t0[i].numChunks, t0[i].haveHash)
    requires IsRun(t0, ops)
    ensures Run(t0, ops).Ok?
    ensures forall i :: 0 <= i < |Run(t0, ops).value| ==>
      var p := Run(t0, ops).value[i];
      && p.dirty == p.stored + p.inFlight && p.stored !! p.inFlight
      && p.pendingWrites == |p.inFlight|
      && (p.check != Idle <==> p.stored == Chunks(p) && p.haveHash)
  {
    RunOk(t0, ops);
    forall i | 0 <= i < |Run(t0, ops).value|
      ensures var p := Run(t0, ops).value[i]; AllStored(p) <==> p.stored == Chunks(p)
    {
      Counts(Run(t0, ops).value[i]);
    }
  }

  /** What was recorded last for a piece: a hash taken while the piece is hashing is the
      verdict, and a mark made while it is being recorded records the verdict. */
  ghost function Recorded(t: Torrent, ops: seq<Op>, i: nat, verdict: bool, recorded: bool): bool
    requires IsRun(t, ops) && i < |t|
    decreases |ops|
  {
    if ops == [] then recorded
    else if Step(t, ops[0]).Panic? then recorded
    else
      Recorded(Step(t, ops[0]).value, ops[1..], i,
               if ops[0].Hashed? && ops[0].i == i && t[i].check == Hashing then ops[0].passed else verdict,
               if ops[0] == Marked(i) && t[i].check.Marking? then verdict else recorded)
  }

  lemma {:induction false} RecordedFrom(t: Torrent, ops: seq<Op>, i: nat, verdict: bool)
    requires AllInv(t) && IsRun(t, ops) && i < |t|
    requires t[i].check.Marking? ==> t[i].check.passed == verdict
    ensures Run(t, ops).Ok? && |Run(t, ops).value| == |t|
    ensures Run(t, ops).value[i].complete == Recorded(t, ops, i, verdict, t[i].complete)
    decreases |ops|
  {
    if ops != [] {
      var op := ops[0];
      StepOk(t, op);
      if op.i == i { VerdictKept(t[i], op, verdict); }
      RecordedFrom(Step(t, op).value, ops[1..], i,
                   if op.Hashed? && op.i == i && t[i].check == Hashing then op.passed else verdict);
    }
  }

  /** One step on a piece moves the verdict and what is recorded as `Recorded` says. */
  lemma {:induction false} VerdictKept(p: Piece, op: Op, verdict: bool)
    requires Inv(p) && (op.Accept? ==> op.c < p.numChunks) && (op.Written? ==> op.c in p.inFlight)
    requires p.check.Marking? ==> p.check.passed == verdict
    ensures PieceStep(p, op).Ok?
    ensures var p' := PieceStep(p, op).value;
            && (p'.check.Marking? ==> p'.check.passed == if op.Hashed? && p.check == Hashing then op.passed else verdict)
            && p'.complete == if op.Marked? && p.check.Marking? then verdict else p.complete
  {
    match op
    case Written(_, c, ok) => EpilogueOk(p, c, ok);
    case Marked(_) => if p.check.Marking? { FinishMarkOk(p); }
    case _ =>
  }

  /** Over every interleaving a piece is complete exactly if its last recorded check passed. */
  lemma {:induction false} CompleteIffPassed(t0: Torrent, ops: seq<Op>, i: nat)
    requires forall j :: 0 <= j < |t0| ==> t0[j].numChunks > 0 && t0[j] == Fresh(t0[j].numChunks, t0[j].haveHash)
    requires IsRun(t0, ops) && i < |t0|
    ensures Run(t0, ops).Ok? && |Run(t0, ops).value| == |t0|
    ensures Run(t0, ops).value[i].complete == Recorded(t0, ops, i, false, false)
  {
    RecordedFrom(t0, ops, i, false);
  }

  // ---------- in place ----------

  /** A piece whose chunks are marked and whose writes are counted in place. The chunks in
      flight and the chunks stored are not kept by the original and are here for proof. */
  class PieceState {
    const numChunks: nat
    const haveHash: bool
    var dirty: set<Chunk>
    var pendingWrites: int
    ghost var inFlight: set<Chunk>
    ghost var stored: set<Chunk>
    var check: Check
    var complete: bool

    constructor (numChunks: nat, haveHash: bool)
      requires numChunks > 0
      ensures Now() == Piece(numChunks, haveHash, {}, 0, {}, {}, Idle, false) && Inv(Now())
    {
      this.numChunks, this.haveHash := numChunks, haveHash;
      dirty, pendingWrites, inFlight, stored, check, complete := {}, 0, {}, {}, Idle, false;
    }

    ghost function Now(): Piece
      reads this
    {
      Piece(numChunks, haveHash, dirty, pendingWrites, inFlight, stored, check, complete)
    }

    /** receiveChunkPrologue: whether there is a write to be done. */
    method ReceiveChunkPrologue(c: Chunk) returns (write: bool)
      requires Inv(Now()) && c < numChunks
      modifies this
      ensures Now() == Prologue(old(Now()), c) && Inv(Now()) && write == !HaveChunk(old(Now()), c)
    {
      PrologueOk(Now(), c);
      if complete || c in dirty { return false; }
      pendingWrites := pendingWrites + 1;
      inFlight := inFlight + {c};
      dirty := dirty + {c};
      write := true;
    }

    /** receiveChunkEpilogue after a failed write: the chunk is pending again. */
    method WriteFailed(c: Chunk)
      requires Inv(Now()) && c in inFlight
      modifies this
      ensures Ok(Now()) == Epilogue(old(Now()), c, false) && Inv(Now())
    {
      EpilogueFailed(Now(), c);
      pendingWrites := pendingWrites - 1;
      assert pendingWrites >= 0;
      inFlight := inFlight - {c};
      dirty := dirty - {c};
    }

    /** receiveChunkEpilogue after a successful write: whether the check was queued. */
    method WriteDone(c: Chunk) returns (queued: bool)
      requires Inv(Now()) && c in inFlight
      modifies this
      ensures Ok(Now()) == Epilogue(old(Now()), c, true) && Inv(Now())
      ensures queued <==> haveHash && old(stored) + {c} == Chunks(old(Now()))
    {
      EpilogueOk(Now(), c, true);
      pendingWrites := pendingWrites - 1;
      assert pendingWrites >= 0;
      inFlight := inFlight - {c};
      stored := stored + {c};
      QueueCheckIfLast();
      queued := check == Queued;
    }

    /** queuePieceCheck, for the last writer. */
    method QueueCheckIfLast()
      modifies this`check
      ensures Now() == QueueIfLast(old(Now()))
    {
      if |dirty| == numChunks && pendingWrites == 0 && haveHash && check != Queued { check := Queued; }
    }
  }
}
