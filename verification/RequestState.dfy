/** Outstanding chunk requests of one torrent (peerconn.go, requesting.go, torrent.go).

    Who may be sent a chunk is recorded in four places: the torrent-wide owner map,
    and in each connection the set of requests, the set of cancels awaiting a
    reject, and the count of chunks still acceptable. All of it sits behind the
    client lock, so each function below is one atomic step. */
module RequestState {
  import opened Arithmetic
  import opened Outcomes

  type RequestIndex = nat

  /** Connections are numbered in the order they joined; numbers are not reused. */
  type ConnId = nat

  const WRITE_BUFFER_HIGH_WATER := 0x8000
  const WRITE_BUFFER_LOW_WATER := WRITE_BUFFER_HIGH_WATER / 2
  const INTERESTED_MSG_LEN := 5
  const REQUEST_MSG_LEN := 17
  const CANCEL_MSG_LEN := 17
  const HASH_REQUEST_MSG_LEN := 53
  const MAX_LOCAL_TO_REMOTE_REQUESTS :=
    (WRITE_BUFFER_HIGH_WATER - WRITE_BUFFER_LOW_WATER - INTERESTED_MSG_LEN) / REQUEST_MSG_LEN

  /** Why a request update is due; only two reasons change what an update does. */
  datatype Reason = NoReason | PeerCancel | RemoteReject | Other

  datatype Conn = Conn(
    requests: set<RequestIndex>,
    cancelled: set<RequestIndex>,
    validReceiveChunks: map<RequestIndex, nat>,
    member: bool,              // in Torrent.conns
    closed: bool,
    peerChoking: bool,
    fast: bool,
    remoteRejectsCancels: bool,
    interested: bool,
    needRequestUpdate: Reason,
    lastUseful: int,
    peakRequests: int,
    peerMaxRequests: int,
    buffered: nat)             // bytes in the write buffer

  datatype Owner = Owner(peer: ConnId, when: int)

  datatype State = State(conns: seq<Conn>, owner: map<RequestIndex, Owner>)

  function WithConn(s: State, c: ConnId, conn: Conn): State
    requires c < |s.conns|
  {
    s.(conns := s.conns[c := conn])
  }

  // ---------- small accessors ----------

  predicate IsLowOnRequests(conn: Conn) {
    conn.requests == {} && conn.cancelled == {}
  }

  function OnNeedUpdateRequests(conn: Conn, reason: Reason): Conn {
    if conn.needRequestUpdate != NoReason then conn else conn.(needRequestUpdate := reason)
  }

  function MaybeUpdateIfLow(conn: Conn, reason: Reason): Conn {
    if IsLowOnRequests(conn) then OnNeedUpdateRequests(conn, reason) else conn
  }

  function NominalMaxRequests(conn: Conn): int {
    Max(1, Min(Min(conn.peerMaxRequests, conn.peakRequests * 2), MAX_LOCAL_TO_REMOTE_REQUESTS))
  }

  /** The connection holding a request. The map holds weak pointers, which the
      original panics on when the connection is gone; only membership in
      Torrent.conns keeps a connection alive. */
  function RequestingPeer(s: State, r: RequestIndex): Outcome<Option<ConnId>> {
    if r !in s.owner then Ok(None)
    else
      var c := s.owner[r].peer;
      if c < |s.conns| && s.conns[c].member then Ok(Some(c)) else Panic
  }

  // ---------- the operations ----------

  /** The owner map once c gives up r. The receiver c is alive, so a holder other
      than it, living or not, is a panic. */
  function Disown(owner: map<RequestIndex, Owner>, c: ConnId, r: RequestIndex): Outcome<map<RequestIndex, Owner>> {
    if r !in owner || owner[r].peer != c then Panic else Ok(owner - {r})
  }

  function DeleteRequest(s: State, c: ConnId, r: RequestIndex): (o: Outcome<(State, bool)>)
    requires c < |s.conns|
    ensures o.Ok? ==> |o.value.0.conns| == |s.conns|
  {
    if r !in s.conns[c].requests then Ok((s, false))
    else
      var owner :- Disown(s.owner, c, r);
      Ok((State(s.conns[c := s.conns[c].(requests := s.conns[c].requests - {r})], owner), true))
  }

  function HandleCancel(conn: Conn, r: RequestIndex): Outcome<Conn> {
    var conn1 := conn.(buffered := conn.buffered + CANCEL_MSG_LEN);
    if !conn.remoteRejectsCancels then Ok(conn1)
    else if r in conn.cancelled then Panic
    else Ok(conn1.(cancelled := conn.cancelled + {r}))
  }

  function Cancel(s: State, c: ConnId, r: RequestIndex): (o: Outcome<State>)
    requires c < |s.conns|
    ensures o.Ok? ==> |o.value.conns| == |s.conns|
  {
    if r !in s.conns[c].requests then Panic
    else
      var owner :- Disown(s.owner, c, r);
      var conn :- HandleCancel(s.conns[c].(requests := s.conns[c].requests - {r}), r);
      var conn1 := conn.(peakRequests := conn.peakRequests - 1);
      Ok(State(s.conns[c := MaybeUpdateIfLow(conn1, PeerCancel)], owner))
  }

  /** Torrent.cancelRequest: cancel whoever holds r, and insist it is gone. */
  function CancelRequest(s: State, r: RequestIndex): (o: Outcome<State>)
    ensures o.Ok? ==> |o.value.conns| == |s.conns|
  {
    var holder :- RequestingPeer(s, r);
    var s1 :- if holder.Some? then Cancel(s, holder.value, r) else Ok(s);
    if r in s1.owner then Panic else Ok(s1)
  }

  /** The acceptable-chunk counts after one chunk for r is answered. */
  function DecExpectedChunkReceive(valid: map<RequestIndex, nat>, r: RequestIndex): Outcome<map<RequestIndex, nat>> {
    if r !in valid || valid[r] == 0 then Panic
    else if valid[r] == 1 then Ok(valid - {r})
    else Ok(valid[r := valid[r] - 1])
  }

  /** A Reject message. False means the reject was not valid, which ends the connection. */
  function RemoteRejectedRequest(s: State, c: ConnId, r: RequestIndex): (o: Outcome<(State, bool)>)
    requires c < |s.conns|
    ensures o.Ok? ==> |o.value.0.conns| == |s.conns|
  {
    var conn := s.conns[c];
    if r in conn.requests then
      var owner :- Disown(s.owner, c, r);
      var valid :- DecExpectedChunkReceive(conn.validReceiveChunks, r);
      var conn1 := conn.(requests := conn.requests - {r}, validReceiveChunks := valid,
                         peakRequests := conn.peakRequests - 1);
      Ok((State(s.conns[c := MaybeUpdateIfLow(conn1, RemoteReject)], owner), true))
    else if r in conn.cancelled then
      var valid :- DecExpectedChunkReceive(conn.validReceiveChunks, r);
      var conn1 := conn.(cancelled := conn.cancelled - {r}, validReceiveChunks := valid);
      Ok((WithConn(s, c, MaybeUpdateIfLow(conn1, RemoteReject)), true))
    else Ok((s, false))
  }

  /** A received chunk is matched to a request. `None` is the error for a chunk we do not expect. */
  function CheckReceivedChunk(s: State, c: ConnId, r: RequestIndex): (o: Outcome<(State, Option<bool>)>)
    requires c < |s.conns|
    ensures o.Ok? ==> |o.value.0.conns| == |s.conns|
  {
    if r !in s.conns[c].validReceiveChunks || s.conns[c].validReceiveChunks[r] == 0 then Ok((s, None))
    else
      var valid :- DecExpectedChunkReceive(s.conns[c].validReceiveChunks, r);
      var conn := s.conns[c].(validReceiveChunks := valid);
      if r in conn.requests then
        var owner :- Disown(s.owner, c, r);
        var conn1 := conn.(requests := conn.requests - {r});
        Ok((State(s.conns[c := MaybeUpdateIfLow(conn1, Other)], owner), Some(true)))
      else if r in conn.cancelled then
        var conn1 := conn.(cancelled := conn.cancelled - {r});
        Ok((WithConn(s, c, MaybeUpdateIfLow(conn1, Other)), Some(true)))
      else Ok((WithConn(s, c, conn), Some(false)))
  }

  /** The part of receiveChunkPrologue that concerns requests: match the chunk, and
      unless we already have it, cancel it from any other connection. */
  function ReceiveChunk(s: State, c: ConnId, r: RequestIndex, haveChunk: bool, now: int): (o: Outcome<State>)
    requires c < |s.conns|
    ensures o.Ok? ==> |o.value.conns| == |s.conns|
  {
    var (s1, intended) :- CheckReceivedChunk(s, c, r);
    if intended.None? || haveChunk then Ok(s1)
    else
      var s2 := WithConn(s1, c, s1.conns[c].(lastUseful := now));
      var holder :- RequestingPeer(s2, r);
      if holder.None? then Ok(s2)
      else if holder.value == c then Panic
      else Cancel(s2, holder.value, r)
  }

  /** A chunk from a webseed goes through the same prologue but matches no request of its own. */
  function ReceiveWebseedChunk(s: State, r: RequestIndex, haveChunk: bool): (o: Outcome<State>)
    ensures o.Ok? ==> |o.value.conns| == |s.conns|
  {
    if haveChunk then Ok(s)
    else
      var holder :- RequestingPeer(s, r);
      if holder.None? then Ok(s) else Cancel(s, holder.value, r)
  }

  /** Each member of a set exactly once: the order in which a snapshot is walked. */
  ghost predicate Lists(order: seq<RequestIndex>, rs: set<RequestIndex>) {
    && (forall i, j :: 0 <= i < j < |order| ==> order[i] != order[j])
    && (forall r :: r in order <==> r in rs)
  }

  /** deleteRequest for each request of a snapshot; a missing one is a panic. */
  function DeleteEach(s: State, c: ConnId, order: seq<RequestIndex>): (o: Outcome<State>)
    requires c < |s.conns|
    ensures o.Ok? ==> |o.value.conns| == |s.conns|
    decreases |order|
  {
    if order == [] then Ok(s)
    else
      var (s1, removed) :- DeleteRequest(s, c, order[0]);
      if !removed then Panic else DeleteEach(s1, c, order[1..])
  }

  /** Every member that is low on requests is told to update. */
  function TellMembers(s: State, reason: Reason): State {
    s.(conns := seq(|s.conns|, i requires 0 <= i < |s.conns| =>
      if s.conns[i].member then MaybeUpdateIfLow(s.conns[i], reason) else s.conns[i]))
  }

  function DeleteAllRequests(s: State, c: ConnId, order: seq<RequestIndex>, reason: Reason): (o: Outcome<State>)
    requires c < |s.conns|
    ensures o.Ok? ==> |o.value.conns| == |s.conns|
  {
    if s.conns[c].requests == {} then Ok(s)
    else
      var s1 :- DeleteEach(s, c, order);
      if s1.conns[c].requests != {} then Panic
      else Ok(TellMembers(s1, reason))
  }

  /** cancel for each request of a snapshot, as when data download is disallowed. */
  function CancelEach(s: State, c: ConnId, order: seq<RequestIndex>): (o: Outcome<State>)
    requires c < |s.conns|
    ensures o.Ok? ==> |o.value.conns| == |s.conns|
    decreases |order|
  {
    if order == [] then Ok(s)
    else
      var s1 :- Cancel(s, c, order[0]);
      CancelEach(s1, c, order[1..])
  }

  function CancelAllRequests(s: State, c: ConnId, order: seq<RequestIndex>): (o: Outcome<State>)
    requires c < |s.conns|
    ensures o.Ok? ==> |o.value.conns| == |s.conns|
  {
    var s1 :- CancelEach(s, c, order);
    if s1.conns[c].requests != {} then Panic else Ok(s1)
  }

  /** A Choke message: without the fast extension every request is forgotten. */
  function OnChoke(s: State, c: ConnId, order: seq<RequestIndex>): (o: Outcome<State>)
    requires c < |s.conns|
    ensures o.Ok? ==> |o.value.conns| == |s.conns|
  {
    if s.conns[c].peerChoking then Ok(s)
    else
      var s1 :- if s.conns[c].fast then Ok(s) else DeleteAllRequests(s, c, order, Other);
      Ok(WithConn(s1, c, s1.conns[c].(peerChoking := true)))
  }

  function OnUnchoke(s: State, c: ConnId, wantData: bool): State
    requires c < |s.conns|
  {
    if !s.conns[c].peerChoking then s
    else
      var conn := s.conns[c].(peerChoking := false);
      WithConn(s, c, if wantData then OnNeedUpdateRequests(conn, Other) else conn)
  }

  /** Torrent.deletePeerConn for a connection that must already be closed. */
  function DeletePeerConn(s: State, c: ConnId, order: seq<RequestIndex>): (o: Outcome<State>)
    requires c < |s.conns|
    ensures o.Ok? ==> |o.value.conns| == |s.conns|
  {
    if !s.conns[c].closed then Panic
    else
      var s1 :- DeleteAllRequests(WithConn(s, c, s.conns[c].(member := false)), c, order, Other);
      if (forall i :: 0 <= i < |s1.conns| ==> !s1.conns[i].member) && s1.owner != map[] then Panic
      else Ok(s1)
  }

  // ---------- issuing requests ----------

  /** What an update is given: the clock, the steal grace, the chunks of allowed-fast pieces,
      the chunks of pieces the peer has, and the chunks of pieces that are being hashed or
      marked or are queued for hashing. */
  datatype Update = Update(
    now: int, grace: int, allowedFast: set<RequestIndex>, has: set<RequestIndex>, busy: set<RequestIndex>)

  /** request, including the checks of shouldRequest. The result says whether the write
      buffer still has room. */
  function Request(s: State, c: ConnId, r: RequestIndex, u: Update): (o: Outcome<(State, bool)>)
    requires c < |s.conns|
    ensures o.Ok? ==> |o.value.0.conns| == |s.conns|
  {
    var conn := s.conns[c];
    if r in conn.cancelled || r !in u.has || !conn.member || conn.closed || r in u.busy then Panic
    else if conn.peerChoking && r !in u.allowedFast && r !in conn.requests then Panic
    else if r in conn.requests then Ok((s, true))
    else if |conn.requests| >= NominalMaxRequests(conn) then Panic   // mustRequest panics on the error
    else
      var count := if r in conn.validReceiveChunks then conn.validReceiveChunks[r] else 0;
      var conn1 := conn.(requests := conn.requests + {r},
                         validReceiveChunks := conn.validReceiveChunks[r := count + 1],
                         buffered := conn.buffered + REQUEST_MSG_LEN);
      Ok((WithConn(s, c, conn1).(owner := s.owner[r := Owner(c, u.now)]),
          conn1.buffered < WRITE_BUFFER_HIGH_WATER))
  }

  /** Whether c may take r from the connection that holds it: only from a longer
      queue, or from one that ends up one shorter when c was useful more recently. */
  predicate MaySteal(s: State, c: ConnId, holder: ConnId)
    requires c < |s.conns| && holder < |s.conns|
  {
    var diff := |s.conns[c].requests| + 1 - (|s.conns[holder].requests| - 1);
    !(diff > 1 || (diff == 1 && !(s.conns[c].lastUseful > s.conns[holder].lastUseful)))
  }

  predicate GraceElapsed(s: State, r: RequestIndex, u: Update) {
    u.grace <= 0 || (r in s.owner && u.now - s.owner[r].when >= u.grace)
  }

  /** One pass of the fill loop for the request popped off the heap. The flag is
      "more": false when the write buffer filled up. */
  function TryRequest(s: State, c: ConnId, r: RequestIndex, u: Update): (o: Outcome<(State, bool)>)
    requires c < |s.conns|
    ensures o.Ok? ==> |o.value.0.conns| == |s.conns|
  {
    if s.conns[c].needRequestUpdate == RemoteReject then Ok((s, true))
    else
      var holder :- RequestingPeer(s, r);
      if holder.None? || holder.value == c then Request(s, c, r, u)
      else if s.conns[c].needRequestUpdate == PeerCancel then Ok((s, true))
      else if !MaySteal(s, c, holder.value) then Ok((s, true))
      else if !GraceElapsed(s, r, u) then Ok((s, true))
      else
        var s1 :- CancelRequest(s, r);
        Request(s1, c, r, u)
  }

  function NumPending(conn: Conn): nat {
    |conn.requests| + |conn.cancelled|
  }

  /** The fill loop over the desired requests in the order the heap yields them. */
  function FillRequests(s: State, c: ConnId, order: seq<RequestIndex>, u: Update): (o: Outcome<State>)
    requires c < |s.conns|
    ensures o.Ok? ==> |o.value.conns| == |s.conns|
    decreases |order|
  {
    if order == [] || NumPending(s.conns[c]) >= NominalMaxRequests(s.conns[c]) then Ok(s)
    else
      var (s1, more) :- TryRequest(s, c, order[0], u);
      if !more then Panic     // "couldn't fill apply entire request state"
      else FillRequests(s1, c, order[1..], u)
  }

  /** getDesiredRequestState's filter on a candidate chunk: of a piece that may be requested
      and that the peer has, and requestable while choked. */
  predicate Desired(conn: Conn, r: RequestIndex, u: Update) {
    && r in u.has && r !in u.busy
    && (r in u.allowedFast || !conn.peerChoking || r in conn.requests)
    && r !in conn.cancelled
  }

  /** setInterested: a change of interest is written to the peer. */
  function SetInterested(conn: Conn, interested: bool): Conn {
    if conn.interested == interested then conn
    else conn.(interested := interested, buffered := conn.buffered + INTERESTED_MSG_LEN)
  }

  /** A whole request update: signal interest, fill and steal, note the new peak, and
      clear the reason for the update. */
  function ApplyRequestState(s: State, c: ConnId, order: seq<RequestIndex>, interested: bool, u: Update): (o: Outcome<State>)
    requires c < |s.conns|
    ensures o.Ok? ==> |o.value.conns| == |s.conns|
  {
    var conn := SetInterested(s.conns[c], interested);
    if conn != s.conns[c] && conn.buffered >= WRITE_BUFFER_HIGH_WATER then
      Ok(WithConn(s, c, conn.(needRequestUpdate := NoReason)))
    else
      var s1 :- FillRequests(WithConn(s, c, conn), c, order, u);
      Ok(WithConn(s1, c, EndUpdate(s1.conns[c], |s.conns[c].requests|)))
  }

  function EndUpdate(conn: Conn, originalCount: nat): Conn {
    conn.(peakRequests := |conn.requests| - originalCount, needRequestUpdate := NoReason)
  }
}
