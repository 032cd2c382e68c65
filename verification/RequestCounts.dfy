/** The count of chunks a connection still accepts, over whole runs: the requests sent for a chunk, less the
    chunks and rejects that answered them. */
module RequestCounts {
  import opened Outcomes
  import opened RequestState
  import opened RequestInvariant
  import opened RequestFill
  import opened RequestRuns

  function CountAt(s: State, c: ConnId, r: RequestIndex): nat {
    if c < |s.conns| then Count(s.conns[c], r) else 0
  }

  predicate Pending(s: State, c: ConnId, r: RequestIndex) {
    c < |s.conns| && r in s.conns[c].requests
  }

  /** A step sent a request: it is pending and was not before. */
  function Sent(s: State, s': State, c: ConnId, r: RequestIndex): nat {
    if Pending(s', c, r) && !Pending(s, c, r) then 1 else 0
  }

  /** A step is an answer: a reject of what was requested or cancelled, or a chunk that was expected. */
  function Answers(s: State, op: Op, c: ConnId, r: RequestIndex): nat {
    if c >= |s.conns| || s.conns[c].closed then 0
    else if op.GotReject? && op.c == c && op.r == r && r in s.conns[c].requests + s.conns[c].cancelled then 1
    else if op.GotChunk? && op.c == c && op.r == r && Count(s.conns[c], r) > 0 then 1
    else 0
  }

  // ---------- steps that send nothing ----------

  /** Requests only go, and nothing is answered. */
  ghost predicate NoneSent(s: State, s': State) {
    && |s'.conns| == |s.conns|
    && forall i :: 0 <= i < |s.conns| ==>
         s'.conns[i].requests <= s.conns[i].requests && s'.conns[i].validReceiveChunks == s.conns[i].validReceiveChunks
  }

  lemma {:induction false} CancelRequestsSend(s: State, begin: RequestIndex, end: RequestIndex)
    requires Inv(s)
    ensures CancelRequests(s, begin, end).Ok? && NoneSent(s, CancelRequests(s, begin, end).value)
    decreases end - begin
  {
    if begin < end {
      CancelRequestOk(s, begin);
      var s1 := CancelRequest(s, begin).value;
      assert NoneSent(s, s1) by {
        if begin in s.owner {
          assert OwnsAgrees(s, s.owner[begin].peer, begin);
          CancelOk(s, s.owner[begin].peer, begin);
        }
      }
      CancelRequestsSend(s1, begin + 1, end);
    }
  }

  lemma {:induction false} ForgotSends(s: State, s': State, c: ConnId, reason: Reason)
    requires c < |s.conns| && Forgot(s, s', c, reason)
    ensures NoneSent(s, s')
  {
  }

  lemma {:induction false} ElsewhereSends(s: State, s': State, c: ConnId, r: RequestIndex)
    requires CancelledElsewhere(s, s', c, r)
    ensures forall i :: 0 <= i < |s.conns| && i != c ==>
              s'.conns[i].requests <= s.conns[i].requests && s'.conns[i].validReceiveChunks == s.conns[i].validReceiveChunks
  {
  }

  // ---------- updates ----------

  /** c sent what is new in its queue, and the others nothing. */
  ghost predicate Tracks(s: State, s': State, c: ConnId)
    requires c < |s.conns|
  {
    && |s'.conns| == |s.conns| && s.conns[c].requests <= s'.conns[c].requests
    && (forall i :: 0 <= i < |s.conns| && i != c ==>
          s'.conns[i].requests <= s.conns[i].requests && s'.conns[i].validReceiveChunks == s.conns[i].validReceiveChunks)
    && (forall x :: Count(s'.conns[c], x) == Count(s.conns[c], x) + Sent(s, s', c, x))
  }

  lemma {:induction false} TracksTrans(s: State, s1: State, s2: State, c: ConnId)
    requires c < |s.conns| && Tracks(s, s1, c) && Tracks(s1, s2, c)
    ensures Tracks(s, s2, c)
  {
  }

  lemma {:induction false} FillTracks(s: State, c: ConnId, order: seq<RequestIndex>, u: Update)
    requires Ready(s, c) && FillRequests(s, c, order, u).Ok? && forall r :: r in order ==> Desired(s.conns[c], r, u)
    ensures Tracks(s, FillRequests(s, c, order, u).value, c)
    decreases |order|
  {
    if order != [] && NumPending(s.conns[c]) < NominalMaxRequests(s.conns[c]) {
      var r := order[0];
      PassIs(s, c, r, u);
      TryRequestOk(s, c, r, u);
      var s1 := TryRequest(s, c, r, u).value.0;
      if !Settled(s, c, r, u) { ObtainedTracks(s, s1, c, r, u); }
      assert forall x :: x in order[1..] ==> x in order;
      FillTracks(s1, c, order[1..], u);
      TracksTrans(s, s1, FillRequests(s1, c, order[1..], u).value, c);
    }
  }

  lemma {:induction false} ObtainedTracks(s: State, s': State, c: ConnId, r: RequestIndex, u: Update)
    requires c < |s.conns| && Obtained(s, s', c, r, u)
    ensures Tracks(s, s', c)
  {
  }

  lemma {:induction false} UpdateTracks(
    s: State, s': State, c: ConnId, order: seq<RequestIndex>, interested: bool, u: Update)
    requires Ready(s, c) && Updated(s, s', c, order, interested, u) && forall r :: r in order ==> Desired(s.conns[c], r, u)
    ensures Tracks(s, s', c)
  {
    var conn := s.conns[c];
    var told := if conn.interested == interested then 0 else INTERESTED_MSG_LEN;
    var conn1 := conn.(interested := interested, buffered := conn.buffered + told);
    if !(told > 0 && conn1.buffered >= WRITE_BUFFER_HIGH_WATER) {
      var s0 := WithConn(s, c, conn1);
      ReplaceConn(s, c, conn1);
      assert forall r :: r in order ==> Desired(s.conns[c], r, u) && Desired(s0.conns[c], r, u);
      FillTracks(s0, c, order, u);
      SameTracks(s, s0, FillRequests(s0, c, order, u).value, s', c);
    }
  }

  /** Changes of c around an update that concern neither its queue nor its counts. */
  lemma {:induction false} SameTracks(s: State, s0: State, s1: State, s': State, c: ConnId)
    requires c < |s.conns| && OnlyConn(s, s0, c) && |s1.conns| == |s0.conns| && Tracks(s0, s1, c) && OnlyConn(s1, s', c)
    requires s0.conns[c].requests == s.conns[c].requests && s'.conns[c].requests == s1.conns[c].requests
    requires s0.conns[c].validReceiveChunks == s.conns[c].validReceiveChunks
    requires s'.conns[c].validReceiveChunks == s1.conns[c].validReceiveChunks
    ensures Tracks(s, s', c)
  {
    forall x ensures Count(s'.conns[c], x) == Count(s.conns[c], x) + Sent(s, s', c, x) {
      assert Count(s1.conns[c], x) == Count(s0.conns[c], x) + Sent(s0, s1, c, x);
    }
  }

  lemma {:induction false} FillBufferTracks(
    s: State, c: ConnId, hashes: nat, candidates: seq<RequestIndex>, interested: bool, u: Update)
    requires Inv(s) && c < |s.conns| && RoomToFill(s.conns[c], hashes, interested)
    ensures var o := FillWriteBuffer(s, c, hashes, candidates, interested, u); o.Ok? && Tracks(s, o.value, c)
  {
    FillBufferOk(s, c, hashes, candidates, interested, u);
    hide FillWriteBuffer, Inv, RoomToFill, Updated, Desired;
    var s' := FillWriteBuffer(s, c, hashes, candidates, interested, u).value;
    var conn := WithHashes(s.conns[c], hashes);
    var s0 := WithConn(s, c, conn);
    if !s.conns[c].closed && s.conns[c].buffered <= WRITE_BUFFER_LOW_WATER && conn.needRequestUpdate != NoReason {
      ReplaceConn(s, c, conn);
      UpdateTracks(s0, s', c, FilterDesired(conn, candidates, u), interested, u);
      SameTracks(s, s0, s', s', c);
    }
  }

  // ---------- every step ----------

  /** The count at every connection follows what the step sent and what it answered. */
  ghost predicate Follows(s: State, s': State, op: Op, c: ConnId, r: RequestIndex) {
    CountAt(s', c, r) == CountAt(s, c, r) + Sent(s, s', c, r) - Answers(s, op, c, r)
  }

  lemma {:induction false} RejectFollows(s: State, op: Op, c: ConnId, r: RequestIndex)
    requires Inv(s) && Allowed(s, op) && op.GotReject?
    ensures Step(s, op).Ok? && Follows(s, Step(s, op).value, op, c, r)
  {
    hide Flagged;
    if !s.conns[op.c].closed {
      RemoteRejectedOk(s, op.c, op.r);
      var o := RemoteRejectedRequest(s, op.c, op.r).value;
      if o.1 { RejectedCounts(s, o.0, op.c, op.r); }
    }
  }

  lemma {:induction false} RejectedCounts(s: State, s': State, c: ConnId, r: RequestIndex)
    requires c < |s.conns| && Rejected(s, s', c, r)
    ensures OneLess(s.conns[c].validReceiveChunks, s'.conns[c].validReceiveChunks, r)
    ensures s'.conns[c].requests == s.conns[c].requests - {r}
  {
  }

  lemma {:induction false} TakenCounts(conn: Conn, conn': Conn, r: RequestIndex, lastUseful: int)
    requires Taken(conn, conn', r, lastUseful)
    ensures OneLess(conn.validReceiveChunks, conn'.validReceiveChunks, r) && conn'.requests <= conn.requests
  {
  }

  lemma {:induction false} ChunkFollows(s: State, op: Op, c: ConnId, r: RequestIndex)
    requires Inv(s) && Allowed(s, op) && op.GotChunk?
    ensures Step(s, op).Ok? && Follows(s, Step(s, op).value, op, c, r)
  {
    if !s.conns[op.c].closed {
      ReceiveChunkOk(s, op.c, op.r, op.haveChunk, op.now);
      var s' := Step(s, op).value;
      if Count(s.conns[op.c], op.r) > 0 {
        TakenCounts(s.conns[op.c], s'.conns[op.c], op.r, if op.haveChunk then s.conns[op.c].lastUseful else op.now);
        if !op.haveChunk { ElsewhereSends(s, s', op.c, op.r); }
      }
    }
    hide ReceiveChunk, Taken, CancelledElsewhere;
  }

  lemma {:induction false} StepCounts(s: State, op: Op, c: ConnId, r: RequestIndex)
    requires Inv(s) && Allowed(s, op)
    ensures Step(s, op).Ok? && Follows(s, Step(s, op).value, op, c, r)
  {
    match op
    case GotReject(_, _) => RejectFollows(s, op, c, r);
    case GotChunk(_, _, _, _) => ChunkFollows(s, op, c, r);
    case FillBuffer(i, hashes, candidates, interested, u) => FillBufferTracks(s, i, hashes, candidates, interested, u);
    case Join(_) =>
    case _ =>
      OthersSend(s, op);
      NoneFollows(s, Step(s, op).value, op, c, r);
  }

  lemma {:induction false} NoneFollows(s: State, s': State, op: Op, c: ConnId, r: RequestIndex)
    requires NoneSent(s, s') && !op.GotReject? && !op.GotChunk?
    ensures Follows(s, s', op, c, r)
  {
  }

  lemma {:induction false} OthersSend(s: State, op: Op)
    requires Inv(s) && Allowed(s, op)
    requires !op.GotReject? && !op.GotChunk? && !op.FillBuffer? && !op.Join?
    ensures Step(s, op).Ok? && NoneSent(s, Step(s, op).value)
  {
    match op
    case CancelPiece(begin, end) => CancelRequestsSend(s, begin, end);
    case DisallowDownload(i, order) => DisallowSends(s, i, order);
    case GotChoke(i, order) => ChokeSends(s, i, order);
    case GotWebseedChunk(x, haveChunk) => WebseedSends(s, x, haveChunk);
    case Drop(i, order) => DropSends(s, i, order);
    case _ => hide Inv, Allowed;
  }

  lemma {:induction false} DisallowSends(s: State, c: ConnId, order: seq<RequestIndex>)
    requires Inv(s) && c < |s.conns| && Lists(order, s.conns[c].requests)
    ensures CancelAllRequests(s, c, order).Ok? && NoneSent(s, CancelAllRequests(s, c, order).value)
  {
    CancelAllOk(s, c, order);
    hide CancelAllRequests, Inv;
  }

  lemma {:induction false} WebseedSends(s: State, r: RequestIndex, haveChunk: bool)
    requires Inv(s)
    ensures ReceiveWebseedChunk(s, r, haveChunk).Ok? && NoneSent(s, ReceiveWebseedChunk(s, r, haveChunk).value)
  {
    ReceiveWebseedChunkOk(s, r, haveChunk);
    if !haveChunk { ElsewhereSends(s, ReceiveWebseedChunk(s, r, haveChunk).value, |s.conns|, r); }
  }

  lemma {:induction false} ChokeSends(s: State, c: ConnId, order: seq<RequestIndex>)
    requires Inv(s) && c < |s.conns| && Lists(order, s.conns[c].requests)
    ensures OnChoke(s, c, order).Ok? && NoneSent(s, OnChoke(s, c, order).value)
  {
    if !s.conns[c].peerChoking && !s.conns[c].fast {
      DeleteAllOk(s, c, order, Other);
      ForgotSends(s, DeleteAllRequests(s, c, order, Other).value, c, Other);
    }
  }

  lemma {:induction false} DropSends(s: State, c: ConnId, order: seq<RequestIndex>)
    requires Inv(s) && c < |s.conns| && Lists(order, s.conns[c].requests)
    ensures var o := DeletePeerConn(WithConn(s, c, s.conns[c].(closed := true)), c, order); o.Ok? && NoneSent(s, o.value)
  {
    var s0 := WithConn(s, c, s.conns[c].(closed := true));
    CloseOk(s, c);
    DeletePeerConnOk(s0, c, order);
    ForgotSends(WithConn(s0, c, s0.conns[c].(member := false)), DeletePeerConn(s0, c, order).value, c, Other);
  }

  // ---------- runs ----------

  /** Requests sent for r on connection c in a run, and answers that came for it. */
  ghost function AllSent(s: State, ops: seq<Op>, c: ConnId, r: RequestIndex): nat
    requires IsRun(s, ops)
    decreases |ops|
  {
    if ops == [] || Step(s, ops[0]).Panic? then 0
    else
      var s' := Step(s, ops[0]).value;
      Sent(s, s', c, r) + AllSent(s', ops[1..], c, r)
  }

  ghost function AllAnswers(s: State, ops: seq<Op>, c: ConnId, r: RequestIndex): nat
    requires IsRun(s, ops)
    decreases |ops|
  {
    if ops == [] || Step(s, ops[0]).Panic? then 0
    else Answers(s, ops[0], c, r) + AllAnswers(Step(s, ops[0]).value, ops[1..], c, r)
  }

  lemma {:induction false} CountsFrom(s: State, ops: seq<Op>, c: ConnId, r: RequestIndex)
    requires Inv(s) && IsRun(s, ops)
    ensures Run(s, ops).Ok?
    ensures CountAt(Run(s, ops).value, c, r) == CountAt(s, c, r) + AllSent(s, ops, c, r) - AllAnswers(s, ops, c, r)
    decreases |ops|
  {
    if ops != [] {
      StepOk(s, ops[0]);
      StepCounts(s, ops[0], c, r);
      CountsFrom(Step(s, ops[0]).value, ops[1..], c, r);
    }
  }

  /** Main result: over every run from the empty torrent, how many chunks a connection accepts for r is the
      requests it sent for it, less the chunks and rejects that came. */
  lemma {:induction false} CountsExact(ops: seq<Op>, c: ConnId, r: RequestIndex)
    requires IsRun(Initial, ops)
    ensures Run(Initial, ops).Ok?
    ensures CountAt(Run(Initial, ops).value, c, r) == AllSent(Initial, ops, c, r) - AllAnswers(Initial, ops, c, r)
  {
    CountsFrom(Initial, ops, c, r);
  }
}
