/** Whole runs of request state: any interleaving of wire messages, request updates,
    webseed chunks, piece completions and connection changes. */
module RequestRuns {
  import opened Outcomes
  import opened RequestState
  import opened RequestInvariant
  import opened RequestFill

  /** One lock-held section. `order` is how a snapshot of a request set is walked. */
  datatype Op =
    | Join(conn: Conn)
    | FillBuffer(c: ConnId, hashes: nat, candidates: seq<RequestIndex>, interested: bool, u: Update)
    | CancelPiece(begin: RequestIndex, end: RequestIndex)
    | DisallowDownload(c: ConnId, order: seq<RequestIndex>)
    | GotReject(c: ConnId, r: RequestIndex)
    | GotChoke(c: ConnId, order: seq<RequestIndex>)
    | GotUnchoke(c: ConnId, wantData: bool)
    | GotChunk(c: ConnId, r: RequestIndex, haveChunk: bool, now: int)
    | GotWebseedChunk(r: RequestIndex, haveChunk: bool)
    | Nudge(c: ConnId, reason: Reason)
    | Buffer(c: ConnId, bytes: nat)
    | Flush(c: ConnId)
    | SetPeerMax(c: ConnId, n: int)
    | Close(c: ConnId)
    | Drop(c: ConnId, order: seq<RequestIndex>)

  /** A connection as it is when it joins Torrent.conns. */
  ghost predicate Fresh(conn: Conn) {
    conn.requests == {} && conn.cancelled == {} && conn.validReceiveChunks == map[] && conn.member && !conn.closed
  }

  /** An operation names connections that exist and walks a set once over. The hash requests
      written before a request update leave room for it. */
  ghost predicate Allowed(s: State, op: Op) {
    match op
    case Join(conn) => Fresh(conn)
    case CancelPiece(_, _) => true
    case GotWebseedChunk(_, _) => true
    case DisallowDownload(c, order) => c < |s.conns| && Lists(order, s.conns[c].requests)
    case GotChoke(c, order) => c < |s.conns| && Lists(order, s.conns[c].requests)
    case Drop(c, order) => c < |s.conns| && Lists(order, s.conns[c].requests)
    case FillBuffer(c, hashes, _, interested, _) => c < |s.conns| && RoomToFill(s.conns[c], hashes, interested)
    case _ => op.c < |s.conns|
  }

  function FilterDesired(conn: Conn, candidates: seq<RequestIndex>, u: Update): (ret: seq<RequestIndex>)
    ensures forall r :: r in ret <==> r in candidates && Desired(conn, r, u)
  {
    if candidates == [] then []
    else
      var rest := FilterDesired(conn, candidates[1..], u);
      if Desired(conn, candidates[0], u) then [candidates[0]] + rest else rest
  }

  /** requestMissingHashes: so many hash requests are written, whatever the buffer holds. */
  function WithHashes(conn: Conn, hashes: nat): Conn {
    conn.(buffered := conn.buffered + HASH_REQUEST_MSG_LEN * hashes)
  }

  /** fillWriteBuffer: nothing unless open and at or below the low-water mark. Requests for
      missing v2 hashes are written first, and then the requests are updated if that is due. */
  function FillWriteBuffer(s: State, c: ConnId, hashes: nat, candidates: seq<RequestIndex>, interested: bool, u: Update): (o: Outcome<State>)
    requires c < |s.conns|
  {
    if s.conns[c].closed || s.conns[c].buffered > WRITE_BUFFER_LOW_WATER then Ok(s)
    else
      var conn := WithHashes(s.conns[c], hashes);
      if conn.needRequestUpdate == NoReason then Ok(WithConn(s, c, conn))
      else ApplyRequestState(WithConn(s, c, conn), c, FilterDesired(conn, candidates, u), interested, u)
  }

  /** No update is made, or the hash requests leave room for it. */
  predicate RoomToFill(conn: Conn, hashes: nat, interested: bool) {
    || conn.closed || conn.buffered > WRITE_BUFFER_LOW_WATER || conn.needRequestUpdate == NoReason
    || RoomToUpdate(WithHashes(conn, hashes), interested)
  }

  /** Torrent.cancelRequestsForPiece. */
  function CancelRequests(s: State, begin: RequestIndex, end: RequestIndex): Outcome<State>
    decreases end - begin
  {
    if begin >= end then Ok(s)
    else
      var s1 :- CancelRequest(s, begin);
      CancelRequests(s1, begin + 1, end)
  }

  /** Messages to a closed connection are not processed: its read loop ends. */
  function Step(s: State, op: Op): (o: Outcome<State>)
    requires match op case Join(_) => true case CancelPiece(_, _) => true case GotWebseedChunk(_, _) => true
                      case _ => op.c < |s.conns|
  {
    match op
    case Join(conn) => Ok(s.(conns := s.conns + [conn]))
    case FillBuffer(c, hashes, candidates, interested, u) => FillWriteBuffer(s, c, hashes, candidates, interested, u)
    case CancelPiece(begin, end) => CancelRequests(s, begin, end)
    case DisallowDownload(c, order) => CancelAllRequests(s, c, order)
    case GotReject(c, r) =>
      if s.conns[c].closed then Ok(s)
      else
        var (s1, valid) :- RemoteRejectedRequest(s, c, r);
        Ok(s1)
    case GotChoke(c, order) => if s.conns[c].closed then Ok(s) else OnChoke(s, c, order)
    case GotUnchoke(c, wantData) => if s.conns[c].closed then Ok(s) else Ok(OnUnchoke(s, c, wantData))
    case GotChunk(c, r, haveChunk, now) => if s.conns[c].closed then Ok(s) else ReceiveChunk(s, c, r, haveChunk, now)
    case GotWebseedChunk(r, haveChunk) => ReceiveWebseedChunk(s, r, haveChunk)
    case Nudge(c, reason) => Ok(WithConn(s, c, OnNeedUpdateRequests(s.conns[c], reason)))
    case Buffer(c, bytes) => Ok(WithConn(s, c, s.conns[c].(buffered := s.conns[c].buffered + bytes)))
    case Flush(c) => Ok(WithConn(s, c, s.conns[c].(buffered := 0)))
    case SetPeerMax(c, n) => Ok(WithConn(s, c, s.conns[c].(peerMaxRequests := n)))
    case Close(c) => Ok(WithConn(s, c, s.conns[c].(closed := true)))
    case Drop(c, order) => DeletePeerConn(WithConn(s, c, s.conns[c].(closed := true)), c, order)
  }

  /** The requests of the range are nobody's, each with a cancel its holder's peer will answer if it answers
      them, and all others are as they were. */
  ghost predicate RangeCancelled(s: State, s': State, begin: RequestIndex, end: RequestIndex) {
    && |s'.conns| == |s.conns|
    && (forall r :: r in s'.owner <==> r in s.owner && !(begin <= r < end))
    && (forall r :: r in s'.owner ==> s'.owner[r] == s.owner[r])
    && (forall i :: 0 <= i < |s.conns| ==> ConnCancelled(s.conns[i], s'.conns[i], begin, end))
  }

  ghost predicate ConnCancelled(conn: Conn, conn': Conn, begin: RequestIndex, end: RequestIndex) {
    && conn'.remoteRejectsCancels == conn.remoteRejectsCancels && conn'.member == conn.member
    && (forall r :: r in conn'.requests <==> r in conn.requests && !(begin <= r < end))
    && (forall r :: r in conn'.cancelled <==>
          r in conn.cancelled || (begin <= r < end && r in conn.requests && conn.remoteRejectsCancels))
  }

  lemma {:induction false} FirstCancelled(s: State, r: RequestIndex)
    requires Inv(s)
    ensures CancelRequest(s, r).Ok? && Inv(CancelRequest(s, r).value)
    ensures RangeCancelled(s, CancelRequest(s, r).value, r, r + 1)
  {
    CancelRequestOk(s, r);
    var s' := CancelRequest(s, r).value;
    if r in s.owner {
      var c := s.owner[r].peer;
      assert OwnsAgrees(s, c, r);
      CancelOk(s, c, r);
      forall i | 0 <= i < |s.conns| ensures ConnCancelled(s.conns[i], s'.conns[i], r, r + 1) {
        assert i != c ==> OwnsAgrees(s, i, r);
      }
    } else {
      forall i | 0 <= i < |s.conns| ensures ConnCancelled(s.conns[i], s'.conns[i], r, r + 1) {
        assert OwnsAgrees(s, i, r);
      }
    }
  }

  lemma {:induction false} ThenCancelled(s: State, s1: State, s': State, begin: RequestIndex, end: RequestIndex)
    requires begin < end && RangeCancelled(s, s1, begin, begin + 1) && RangeCancelled(s1, s', begin + 1, end)
    ensures RangeCancelled(s, s', begin, end)
  {
    forall i | 0 <= i < |s.conns| ensures ConnCancelled(s.conns[i], s'.conns[i], begin, end) {
      assert ConnCancelled(s.conns[i], s1.conns[i], begin, begin + 1);
      assert ConnCancelled(s1.conns[i], s'.conns[i], begin + 1, end);
    }
  }

  lemma {:induction false} CancelRequestsOk(s: State, begin: RequestIndex, end: RequestIndex)
    requires Inv(s)
    ensures var o := CancelRequests(s, begin, end);
            o.Ok? && Inv(o.value) && RangeCancelled(s, o.value, begin, end)
    decreases end - begin
  {
    if begin < end {
      FirstCancelled(s, begin);
      hide Inv, CancelRequest, RangeCancelled;
      var s1 := CancelRequest(s, begin).value;
      CancelRequestsOk(s1, begin + 1, end);
      ThenCancelled(s, s1, CancelRequests(s1, begin + 1, end).value, begin, end);
    }
  }

  lemma {:induction false} JoinOk(s: State, conn: Conn)
    requires Inv(s) && Fresh(conn)
    ensures Inv(s.(conns := s.conns + [conn]))
  {
    var s' := s.(conns := s.conns + [conn]);
    forall i: ConnId, x: RequestIndex
      ensures OwnsAgrees(s', i, x)
    {
      assert OwnsAgrees(s, i, x);
    }
  }

  lemma {:induction false} FillBufferOk(s: State, c: ConnId, hashes: nat, candidates: seq<RequestIndex>, interested: bool, u: Update)
    requires Inv(s) && c < |s.conns| && RoomToFill(s.conns[c], hashes, interested)
    ensures var o := FillWriteBuffer(s, c, hashes, candidates, interested, u);
            && o.Ok? && Inv(o.value)
            && (s.conns[c].closed || s.conns[c].buffered > 16384 ==> o.value == s)
            && (!s.conns[c].closed && s.conns[c].buffered <= 16384 ==>
                  var conn := s.conns[c].(buffered := s.conns[c].buffered + 53 * hashes);
                  var s0 := State(s.conns[c := conn], s.owner);
                  if conn.needRequestUpdate == NoReason then o.value == s0
                  else Updated(s0, o.value, c, FilterDesired(conn, candidates, u), interested, u))
  {
    var conn := WithHashes(s.conns[c], hashes);
    if !conn.closed && s.conns[c].buffered <= WRITE_BUFFER_LOW_WATER {
      ReplaceConn(s, c, conn);
      if conn.needRequestUpdate != NoReason {
        ApplyRoom(WithConn(s, c, conn), c, FilterDesired(conn, candidates, u), interested, u);
      }
    }
  }

  /** With no v2 hashes missing there is always room: this is what the low-water mark is for. */
  lemma {:induction false} NoHashesRoom(conn: Conn, interested: bool)
    ensures RoomToFill(conn, 0, interested)
  {
  }

  lemma {:induction false} FilterKeepsAll(conn: Conn, candidates: seq<RequestIndex>, u: Update)
    requires forall r :: r in candidates ==> Desired(conn, r, u)
    ensures FilterDesired(conn, candidates, u) == candidates
  {
    if candidates != [] {
      assert candidates[0] in candidates;
      assert forall r :: r in candidates[1..] ==> r in candidates;
      FilterKeepsAll(conn, candidates[1..], u);
    }
  }

  /** Without room there are candidates on which filling the buffer panics. */
  lemma {:induction false} NoRoomFillPanics(s: State, c: ConnId, hashes: nat, interested: bool)
    returns (candidates: seq<RequestIndex>, u: Update)
    requires Inv(s) && c < |s.conns| && !RoomToFill(s.conns[c], hashes, interested)
    ensures FillWriteBuffer(s, c, hashes, candidates, interested, u) == Panic
  {
    var conn := WithHashes(s.conns[c], hashes);
    ReplaceConn(s, c, conn);
    candidates, u := NoRoomPanics(WithConn(s, c, conn), c, interested);
    FilterKeepsAll(conn, candidates, u);
  }

  /** The exact condition, which the caller can check before writing anything: filling the
      buffer does not panic, whatever chunks are wanted, if and only if the hash requests leave
      room for the update. */
  lemma {:induction false} FillBufferExact(s: State, c: ConnId, hashes: nat, interested: bool)
    requires Inv(s) && c < |s.conns|
    ensures (forall candidates: seq<RequestIndex>, u: Update :: FillWriteBuffer(s, c, hashes, candidates, interested, u).Ok?)
            <==> RoomToFill(s.conns[c], hashes, interested)
  {
    if RoomToFill(s.conns[c], hashes, interested) {
      forall candidates: seq<RequestIndex>, u: Update
        ensures FillWriteBuffer(s, c, hashes, candidates, interested, u).Ok?
      {
        FillBufferOk(s, c, hashes, candidates, interested, u);
      }
    } else {
      var candidates, u := NoRoomFillPanics(s, c, hashes, interested);
      assert !FillWriteBuffer(s, c, hashes, candidates, interested, u).Ok?;
    }
  }

  /** What goes wrong otherwise: an interested connection at the low-water mark learns that the
      peer has every piece of a large v2 file. The 310 hash requests fill the buffer, and the
      first chunk request finds it full. */
  lemma {:induction false} HashRequestsPanic(conn: Conn, u: Update)
    requires conn == Conn({}, {}, map[], true, false, false, true, true, true, Other, 0, 16, 16, WRITE_BUFFER_LOW_WATER)
    requires u == Update(0, 0, {}, {7}, {})
    ensures Fresh(conn) && Inv(State([conn], map[]))
    ensures Step(State([conn], map[]), FillBuffer(0, 310, [7], true, u)) == Panic
    ensures Step(State([conn], map[]), FillBuffer(0, 0, [7], true, u)).Ok?
  {
    var s := State([conn], map[]);
    JoinOk(Initial, conn);
    assert Initial.conns + [conn] == [conn];
    var full := WithHashes(conn, 310);
    FilterKeepsAll(full, [7], u);
    assert [7][1..] == [];
    var s0 := WithConn(s, 0, full);
    assert TryRequest(s0, 0, 7, u) == Request(s0, 0, 7, u);
    assert FillRequests(s0, 0, [7], u) == Panic;
    NoHashesRoom(conn, true);
    FillBufferOk(s, 0, 0, [7], true, u);
  }

  /** Closing marks the connection; its requests stay until it is removed. */
  lemma {:induction false} CloseOk(s: State, c: ConnId)
    requires Inv(s) && c < |s.conns|
    ensures Inv(WithConn(s, c, s.conns[c].(closed := true)))
  {
    ReplaceConn(s, c, s.conns[c].(closed := true));
  }

  /** Steps that touch neither the request sets nor the owner map. */
  lemma {:induction false} QuietStepOk(s: State, op: Op)
    requires Inv(s) && Allowed(s, op)
    requires op.GotUnchoke? || op.Nudge? || op.Buffer? || op.Flush? || op.SetPeerMax? || op.Close?
    ensures Step(s, op).Ok? && Inv(Step(s, op).value)
  {
    if op.Close? {
      CloseOk(s, op.c);
    } else {
      ReplaceConn(s, op.c, Step(s, op).value.conns[op.c]);
    }
  }

  /** What such a step leaves of a connection: an unchoke ends the choking and, if data is wanted, makes an update due;
      a nudge makes one due if none was; the buffer, the peer's limit and the closing are as the step says. */
  ghost predicate Quietly(conn: Conn, op: Op, conn': Conn) {
    var unchoked := op.GotUnchoke? && conn.peerChoking && !conn.closed;
    && conn' == conn.(closed := conn'.closed, peerChoking := conn'.peerChoking, needRequestUpdate := conn'.needRequestUpdate,
                      peerMaxRequests := conn'.peerMaxRequests, buffered := conn'.buffered)
    && (conn'.closed <==> conn.closed || op.Close?)
    && (conn'.peerChoking <==> conn.peerChoking && !unchoked)
    && conn'.peerMaxRequests == (if op.SetPeerMax? then op.n else conn.peerMaxRequests)
    && conn'.buffered == (if op.Flush? then 0 else if op.Buffer? then conn.buffered + op.bytes else conn.buffered)
    && (conn.needRequestUpdate != NoReason ==> conn'.needRequestUpdate == conn.needRequestUpdate)
    && (conn.needRequestUpdate == NoReason ==>
          conn'.needRequestUpdate == if op.Nudge? then op.reason else if unchoked && op.wantData then Other else NoReason)
  }

  lemma {:induction false} QuietStepIs(s: State, op: Op)
    requires Allowed(s, op)
    requires op.GotUnchoke? || op.Nudge? || op.Buffer? || op.Flush? || op.SetPeerMax? || op.Close?
    ensures var o := Step(s, op);
            && o.Ok? && |o.value.conns| == |s.conns| && o.value.owner == s.owner
            && Quietly(s.conns[op.c], op, o.value.conns[op.c])
            && forall i :: 0 <= i < |s.conns| && i != op.c ==> o.value.conns[i] == s.conns[i]
  {
    assert op.c < |s.conns|;
  }

  /** A connection that joins comes after the others and changes nothing else, and nothing that comes from a closed one
      does anything. */
  lemma {:induction false} JoinedOrClosed(s: State, op: Op)
    requires Allowed(s, op)
    requires op.Join? || ((op.GotReject? || op.GotChoke? || op.GotUnchoke? || op.GotChunk?) && s.conns[op.c].closed)
    ensures Step(s, op) == Ok(State(if op.Join? then s.conns + [op.conn] else s.conns, s.owner))
  {
  }

  /** No step reaches a panic, and every step keeps the invariant. */
  lemma {:induction false} StepOk(s: State, op: Op)
    requires Inv(s) && Allowed(s, op)
    ensures Step(s, op).Ok? && Inv(Step(s, op).value)
  {
    hide Inv, Rejected, Forgot, Updated, Matched, Taken, CancelledElsewhere, CancelledAll, OnlyConn;
    match op
    case Join(conn) => JoinOk(s, conn);
    case FillBuffer(c, hashes, candidates, interested, u) => FillBufferOk(s, c, hashes, candidates, interested, u);
    case CancelPiece(begin, end) => CancelRequestsOk(s, begin, end);
    case DisallowDownload(c, order) => CancelAllOk(s, c, order);
    case GotReject(c, r) => RemoteRejectedOk(s, c, r);
    case GotChoke(c, order) => OnChokeOk(s, c, order);
    case GotChunk(c, r, haveChunk, now) => ReceiveChunkOk(s, c, r, haveChunk, now);
    case GotWebseedChunk(r, haveChunk) => ReceiveWebseedChunkOk(s, r, haveChunk);
    case Drop(c, order) =>
      CloseOk(s, c);
      DeletePeerConnOk(WithConn(s, c, s.conns[c].(closed := true)), c, order);
    case _ => QuietStepOk(s, op);
  }

  ghost predicate IsRun(s: State, ops: seq<Op>)
    decreases |ops|
  {
    ops == [] || (Allowed(s, ops[0]) && (Step(s, ops[0]).Ok? ==> IsRun(Step(s, ops[0]).value, ops[1..])))
  }

  ghost function Run(s: State, ops: seq<Op>): Outcome<State>
    requires IsRun(s, ops)
    decreases |ops|
  {
    if ops == [] then Ok(s)
    else if Step(s, ops[0]).Panic? then Panic
    else Run(Step(s, ops[0]).value, ops[1..])
  }

  const Initial := State([], map[])

  /** Main result: in every run from the empty torrent whose fills have room after their hash
      requests, and so in every run that requests no v2 hashes, no panic is reached, and at its
      end the torrent maps r to c exactly when r is in c's request set; holders are
      members of conns; nothing is both requested and cancelled; and whatever is
      requested or cancelled can still be received. */
  lemma {:induction false} RequestsSafe(ops: seq<Op>)
    requires IsRun(Initial, ops)
    ensures Run(Initial, ops).Ok?
    ensures var s := Run(Initial, ops).value;
            && (forall c: ConnId, r: RequestIndex :: c < |s.conns| ==>
                  (r in s.conns[c].requests <==> r in s.owner && s.owner[r].peer == c))
            && (forall r :: r in s.owner ==> s.owner[r].peer < |s.conns| && s.conns[s.owner[r].peer].member)
            && (forall c: ConnId :: c < |s.conns| ==> s.conns[c].requests !! s.conns[c].cancelled)
            && (forall c: ConnId, r: RequestIndex :: c < |s.conns| && r in s.conns[c].requests + s.conns[c].cancelled ==>
                  r in s.conns[c].validReceiveChunks && s.conns[c].validReceiveChunks[r] > 0)
  {
    RunOk(Initial, ops);
    var s := Run(Initial, ops).value;
    forall c: ConnId, r: RequestIndex | c < |s.conns|
      ensures r in s.conns[c].requests <==> r in s.owner && s.owner[r].peer == c
    {
      assert OwnsAgrees(s, c, r);
    }
    forall r | r in s.owner
      ensures s.owner[r].peer < |s.conns| && s.conns[s.owner[r].peer].member
    {
      assert OwnsAgrees(s, s.owner[r].peer, r);
    }
  }

  lemma {:induction false} RunOk(s: State, ops: seq<Op>)
    requires Inv(s) && IsRun(s, ops)
    ensures Run(s, ops).Ok? && Inv(Run(s, ops).value)
    decreases |ops|
  {
    if ops != [] {
      StepOk(s, ops[0]);
      RunOk(Step(s, ops[0]).value, ops[1..]);
    }
  }
}
