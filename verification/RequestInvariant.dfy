/** The cross-structure invariant of request state, and that every step keeps it
    without reaching a panic. */
module RequestInvariant {
  import opened Outcomes
  import opened RequestState

  /** One connection on its own. */
  ghost predicate ConnOk(conn: Conn) {
    && conn.requests !! conn.cancelled
    && conn.requests <= conn.validReceiveChunks.Keys
    && conn.cancelled <= conn.validReceiveChunks.Keys
    && (forall r :: r in conn.validReceiveChunks ==> conn.validReceiveChunks[r] > 0)
    && (!conn.remoteRejectsCancels ==> conn.cancelled == {})
  }

  /** The owner map and the connections' request sets are the same relation. */
  ghost predicate OwnershipAgrees(s: State) {
    && (forall r :: r in s.owner ==> s.owner[r].peer < |s.conns|)
    && (forall c: ConnId, r: RequestIndex :: OwnsAgrees(s, c, r))
  }

  /** The torrent maps r to c exactly when r is in c's request set. */
  ghost predicate OwnsAgrees(s: State, c: ConnId, r: RequestIndex) {
    c < |s.conns| ==> (r in s.conns[c].requests <==> r in s.owner && s.owner[r].peer == c)
  }

  /** Connections that are open or hold requests are in Torrent.conns. */
  ghost predicate HoldersAreMembers(s: State) {
    forall c :: 0 <= c < |s.conns| && (s.conns[c].requests != {} || !s.conns[c].closed) ==> s.conns[c].member
  }

  ghost predicate Inv0(s: State) {
    && OwnershipAgrees(s)
    && (forall c :: 0 <= c < |s.conns| ==> ConnOk(s.conns[c]))
  }

  ghost predicate Inv(s: State) {
    Inv0(s) && HoldersAreMembers(s)
  }

  /** Connections other than c are untouched. */
  ghost predicate OnlyConn(s: State, s': State, c: ConnId) {
    |s'.conns| == |s.conns| && (forall i :: 0 <= i < |s.conns| && i != c ==> s'.conns[i] == s.conns[i])
  }

  // ---------- single operations ----------

  /** The shape of every step below: c changes, and its set may lose one request r,
      which then also leaves the owner map. */
  lemma {:induction false} Put(s: State, c: ConnId, conn: Conn, r: RequestIndex)
    requires Inv0(s) && c < |s.conns| && ConnOk(conn)
    requires conn.requests == s.conns[c].requests - {r}
    ensures var s' := State(s.conns[c := conn], if r in s.conns[c].requests then s.owner - {r} else s.owner);
            Inv0(s') && OnlyConn(s, s', c) && (Inv(s) && conn.member == s.conns[c].member && conn.closed == s.conns[c].closed ==> Inv(s'))
  {
    var s' := State(s.conns[c := conn], if r in s.conns[c].requests then s.owner - {r} else s.owner);
    forall i: ConnId, x: RequestIndex
      ensures OwnsAgrees(s', i, x)
    {
      assert OwnsAgrees(s, i, x) && OwnsAgrees(s, i, r) && OwnsAgrees(s, c, r);
    }
  }

  /** Replacing a connection by one with the same requests. */
  lemma {:induction false} ReplaceConn(s: State, c: ConnId, conn: Conn)
    requires Inv0(s) && c < |s.conns|
    requires ConnOk(conn) && conn.requests == s.conns[c].requests
    ensures Inv0(WithConn(s, c, conn)) && OnlyConn(s, WithConn(s, c, conn), c)
    ensures Inv(s) && conn.member == s.conns[c].member && conn.closed == s.conns[c].closed ==> Inv(WithConn(s, c, conn))
  {
    var s' := WithConn(s, c, conn);
    forall i: ConnId, x: RequestIndex
      ensures OwnsAgrees(s', i, x)
    {
      assert OwnsAgrees(s, i, x);
    }
  }

  lemma {:induction false} DisownOk(s: State, c: ConnId, r: RequestIndex)
    requires Inv0(s) && c < |s.conns| && r in s.conns[c].requests
    ensures Disown(s.owner, c, r) == Ok(s.owner - {r})
  {
    assert OwnsAgrees(s, c, r);
  }

  lemma {:induction false} DeleteRequestOk(s: State, c: ConnId, r: RequestIndex)
    requires Inv0(s) && c < |s.conns|
    ensures var o := DeleteRequest(s, c, r);
            && o.Ok? && Inv0(o.value.0) && OnlyConn(s, o.value.0, c)
            && o.value.1 == (r in s.conns[c].requests)
            && o.value.0.conns[c] == s.conns[c].(requests := s.conns[c].requests - {r})
            && o.value.0.owner == if r in s.conns[c].requests then s.owner - {r} else s.owner
  {
    if r !in s.conns[c].requests {
      assert s.conns[c].requests - {r} == s.conns[c].requests;
    } else {
      DisownOk(s, c, r);
      Put(s, c, s.conns[c].(requests := s.conns[c].requests - {r}), r);
    }
  }

  ghost predicate SameLists(conn: Conn, conn': Conn) {
    && conn'.requests == conn.requests && conn'.cancelled == conn.cancelled
    && conn'.validReceiveChunks == conn.validReceiveChunks
    && conn'.remoteRejectsCancels == conn.remoteRejectsCancels
    && conn'.member == conn.member && conn'.closed == conn.closed && conn'.lastUseful == conn.lastUseful
  }

  /** Cancels the peer will answer. */
  function Awaited(rejects: bool, rs: set<RequestIndex>): set<RequestIndex> {
    if rejects then rs else {}
  }

  /** What a connection looks like after one of its requests is cancelled. */
  ghost function AfterCancel(conn: Conn, r: RequestIndex): Conn {
    conn.(requests := conn.requests - {r},
          cancelled := conn.cancelled + Awaited(conn.remoteRejectsCancels, {r}))
  }

  /** The same with the cancel written and the peak lowered. */
  ghost function Cancelled(conn: Conn, r: RequestIndex): Conn {
    AfterCancel(conn, r).(buffered := conn.buffered + CANCEL_MSG_LEN, peakRequests := conn.peakRequests - 1)
  }

  /** With nothing pending any more, an update becomes due if none was. */
  ghost function Flagged(conn: Conn, reason: Reason): Conn {
    if conn.needRequestUpdate == NoReason && conn.requests + conn.cancelled == {}
    then conn.(needRequestUpdate := reason) else conn
  }

  lemma {:induction false} FlaggedIs(conn: Conn, reason: Reason)
    ensures MaybeUpdateIfLow(conn, reason) == Flagged(conn, reason)
    ensures Flagged(conn, reason).validReceiveChunks == conn.validReceiveChunks
  {
    assert conn.requests + conn.cancelled == {} <==> conn.requests == {} && conn.cancelled == {};
  }

  /** How many chunks for r the connection still accepts. */
  function CountIn(valid: map<RequestIndex, nat>, r: RequestIndex): nat {
    if r in valid then valid[r] else 0
  }

  function Count(conn: Conn, r: RequestIndex): nat {
    CountIn(conn.validReceiveChunks, r)
  }

  /** One chunk fewer for r, and as many as before for the others. */
  ghost predicate OneLess(valid: map<RequestIndex, nat>, valid': map<RequestIndex, nat>, r: RequestIndex) {
    && CountIn(valid, r) > 0 && CountIn(valid', r) == CountIn(valid, r) - 1
    && (forall x :: x != r ==> CountIn(valid', x) == CountIn(valid, x))
  }

  /** One chunk more for r. */
  ghost predicate OneMore(valid: map<RequestIndex, nat>, valid': map<RequestIndex, nat>, r: RequestIndex) {
    && CountIn(valid', r) == CountIn(valid, r) + 1
    && (forall x :: x != r ==> CountIn(valid', x) == CountIn(valid, x))
  }

  /** What a connection looks like after it requested r. */
  ghost predicate Asked(conn: Conn, conn': Conn, r: RequestIndex) {
    && OneMore(conn.validReceiveChunks, conn'.validReceiveChunks, r)
    && conn' == conn.(requests := conn.requests + {r}, validReceiveChunks := conn'.validReceiveChunks,
                      buffered := conn.buffered + REQUEST_MSG_LEN)
  }

  lemma {:induction false} CancelConnOk(conn: Conn, r: RequestIndex)
    requires ConnOk(conn) && r in conn.requests
    ensures var o := HandleCancel(conn.(requests := conn.requests - {r}), r);
            && o.Ok? && SameLists(AfterCancel(conn, r), o.value) && ConnOk(AfterCancel(conn, r))
            && o.value.(peakRequests := o.value.peakRequests - 1) == Cancelled(conn, r)
  {
    assert conn.cancelled + {} == conn.cancelled;
  }

  lemma {:induction false} CancelOk(s: State, c: ConnId, r: RequestIndex)
    requires Inv0(s) && c < |s.conns| && r in s.conns[c].requests
    ensures var o := Cancel(s, c, r);
            && o.Ok? && Inv0(o.value) && OnlyConn(s, o.value, c)
            && o.value.owner == s.owner - {r}
            && SameLists(AfterCancel(s.conns[c], r), o.value.conns[c])
            && o.value.conns[c] == Flagged(Cancelled(s.conns[c], r), PeerCancel)
    ensures Inv(s) ==> Inv(Cancel(s, c, r).value)
  {
    DisownOk(s, c, r);
    CancelConnOk(s.conns[c], r);
    FlaggedIs(Cancelled(s.conns[c], r), PeerCancel);
    Put(s, c, Cancel(s, c, r).value.conns[c], r);
  }

  lemma {:induction false} CancelRequestOk(s: State, r: RequestIndex)
    requires Inv(s)
    ensures var o := CancelRequest(s, r);
            && o.Ok? && Inv(o.value) && o.value.owner == s.owner - {r}
            && (if r in s.owner then Cancel(s, s.owner[r].peer, r) == o else o.value == s)
  {
    if r in s.owner {
      assert OwnsAgrees(s, s.owner[r].peer, r);
      CancelOk(s, s.owner[r].peer, r);
    } else {
      assert s.owner - {r} == s.owner;
    }
  }

  /** A request or cancel is answered: its count drops and it leaves both sets. */
  lemma {:induction false} AnsweredConnOk(conn: Conn, r: RequestIndex)
    requires ConnOk(conn) && r in conn.validReceiveChunks
    ensures var o := DecExpectedChunkReceive(conn.validReceiveChunks, r);
            && o.Ok? && conn.validReceiveChunks.Keys - {r} <= o.value.Keys
            && OneLess(conn.validReceiveChunks, o.value, r)
            && (forall x :: x in o.value ==> o.value[x] > 0)
            && (forall conn': Conn ::
                  (&& conn'.requests == conn.requests - {r} && conn'.cancelled == conn.cancelled - {r}
                   && conn'.validReceiveChunks == o.value
                   && conn'.remoteRejectsCancels == conn.remoteRejectsCancels)
                  ==> ConnOk(conn'))
  {
  }

  /** What is left of a connection once r is answered, by a chunk or a reject. */
  ghost predicate Answered(conn: Conn, conn': Conn, r: RequestIndex, reason: Reason, peak: int, lastUseful: int) {
    && OneLess(conn.validReceiveChunks, conn'.validReceiveChunks, r)
    && conn' == Flagged(
         conn.(requests := conn.requests - {r}, cancelled := conn.cancelled - {r},
               validReceiveChunks := conn'.validReceiveChunks, peakRequests := peak, lastUseful := lastUseful),
         reason)
  }

  /** The state after a valid reject. */
  ghost predicate Rejected(s: State, s': State, c: ConnId, r: RequestIndex)
    requires c < |s.conns|
  {
    var conn := s.conns[c];
    var asked := r in conn.requests;
    && |s'.conns| == |s.conns| && s'.owner == (if asked then s.owner - {r} else s.owner)
    && Answered(conn, s'.conns[c], r, RemoteReject, if asked then conn.peakRequests - 1 else conn.peakRequests, conn.lastUseful)
  }

  lemma {:induction false} RejectedIs(s: State, c: ConnId, r: RequestIndex)
    requires Inv0(s) && c < |s.conns| && r in s.conns[c].requests + s.conns[c].cancelled
    ensures RemoteRejectedRequest(s, c, r).Ok? && Rejected(s, RemoteRejectedRequest(s, c, r).value.0, c, r)
  {
    hide Flagged, MaybeUpdateIfLow, OneLess;
    var conn := s.conns[c];
    AnsweredConnOk(conn, r);
    var valid := DecExpectedChunkReceive(conn.validReceiveChunks, r).value;
    if r in conn.requests {
      DisownOk(s, c, r);
      var conn1 := conn.(requests := conn.requests - {r}, validReceiveChunks := valid, peakRequests := conn.peakRequests - 1);
      AnsweredIs(conn, conn1, r, RemoteReject, conn.peakRequests - 1, conn.lastUseful);
    } else {
      var conn1 := conn.(cancelled := conn.cancelled - {r}, validReceiveChunks := valid);
      AnsweredIs(conn, conn1, r, RemoteReject, conn.peakRequests, conn.lastUseful);
    }
  }

  lemma {:induction false} AnsweredIs(conn: Conn, conn1: Conn, r: RequestIndex, reason: Reason, peak: int, lastUseful: int)
    requires OneLess(conn.validReceiveChunks, conn1.validReceiveChunks, r)
    requires conn1.requests == conn.requests - {r} && conn1.cancelled == conn.cancelled - {r}
    requires conn1 == conn.(requests := conn1.requests, cancelled := conn1.cancelled,
                            validReceiveChunks := conn1.validReceiveChunks, peakRequests := peak, lastUseful := lastUseful)
    ensures Answered(conn, MaybeUpdateIfLow(conn1, reason), r, reason, peak, lastUseful)
  {
    hide OneLess, Flagged, MaybeUpdateIfLow;
    FlaggedIs(conn1, reason);
    assert conn1 == conn.(requests := conn.requests - {r}, cancelled := conn.cancelled - {r},
                          validReceiveChunks := conn1.validReceiveChunks, peakRequests := peak, lastUseful := lastUseful);
  }

  /** A reject is valid exactly if the chunk was requested, or its cancel not yet acknowledged; then it is
      answered, and a request is given up. */
  lemma {:induction false} RemoteRejectedOk(s: State, c: ConnId, r: RequestIndex)
    requires Inv(s) && c < |s.conns|
    ensures var o := RemoteRejectedRequest(s, c, r);
            && o.Ok? && Inv(o.value.0) && OnlyConn(s, o.value.0, c)
            && o.value.1 == (r in s.conns[c].requests + s.conns[c].cancelled)
            && r !in o.value.0.conns[c].requests + o.value.0.conns[c].cancelled
            && (if o.value.1 then Rejected(s, o.value.0, c, r) else o.value.0 == s)
  {
    RejectedKeeps(s, c, r);
    if r in s.conns[c].requests + s.conns[c].cancelled { RejectedIs(s, c, r); }
    hide Rejected, Inv;
  }

  lemma {:induction false} RejectedKeeps(s: State, c: ConnId, r: RequestIndex)
    requires Inv(s) && c < |s.conns|
    ensures var o := RemoteRejectedRequest(s, c, r);
            && o.Ok? && Inv(o.value.0) && OnlyConn(s, o.value.0, c)
            && o.value.1 == (r in s.conns[c].requests + s.conns[c].cancelled)
            && r !in o.value.0.conns[c].requests + o.value.0.conns[c].cancelled
            && (!o.value.1 ==> o.value.0 == s)
  {
    var conn := s.conns[c];
    if r in conn.requests {
      DisownOk(s, c, r);
      AnsweredConnOk(conn, r);
      assert conn.cancelled - {r} == conn.cancelled;
      Put(s, c, RemoteRejectedRequest(s, c, r).value.0.conns[c], r);
    } else if r in conn.cancelled {
      AnsweredConnOk(conn, r);
      assert conn.requests - {r} == conn.requests;
      ReplaceConn(s, c, RemoteRejectedRequest(s, c, r).value.0.conns[c]);
    }
  }

  /** What is left of a connection once a chunk came for r: it is answered, or only counted if neither
      requested nor cancelled. */
  ghost predicate Taken(conn: Conn, conn': Conn, r: RequestIndex, lastUseful: int) {
    if r in conn.requests + conn.cancelled then Answered(conn, conn', r, Other, conn.peakRequests, lastUseful)
    else
      && OneLess(conn.validReceiveChunks, conn'.validReceiveChunks, r)
      && conn' == conn.(validReceiveChunks := conn'.validReceiveChunks, lastUseful := lastUseful)
  }

  /** The state after an expected chunk was matched. */
  ghost predicate Matched(s: State, s': State, c: ConnId, r: RequestIndex)
    requires c < |s.conns|
  {
    && |s'.conns| == |s.conns| && s'.owner == (if r in s.conns[c].requests then s.owner - {r} else s.owner)
    && Taken(s.conns[c], s'.conns[c], r, s.conns[c].lastUseful)
  }

  lemma {:induction false} MatchedIs(s: State, c: ConnId, r: RequestIndex)
    requires Inv0(s) && c < |s.conns| && r in s.conns[c].validReceiveChunks
    ensures CheckReceivedChunk(s, c, r).Ok? && Matched(s, CheckReceivedChunk(s, c, r).value.0, c, r)
  {
    hide Flagged, MaybeUpdateIfLow, OneLess;
    var conn := s.conns[c];
    AnsweredConnOk(conn, r);
    var conn0 := conn.(validReceiveChunks := DecExpectedChunkReceive(conn.validReceiveChunks, r).value);
    if r in conn.requests {
      DisownOk(s, c, r);
      AnsweredIs(conn, conn0.(requests := conn.requests - {r}), r, Other, conn.peakRequests, conn.lastUseful);
    } else if r in conn.cancelled {
      AnsweredIs(conn, conn0.(cancelled := conn.cancelled - {r}), r, Other, conn.peakRequests, conn.lastUseful);
    }
  }

  /** An expected chunk: the request or cancel it answers is gone afterwards. */
  lemma {:induction false} CheckReceivedOk(s: State, c: ConnId, r: RequestIndex)
    requires Inv(s) && c < |s.conns|
    ensures var o := CheckReceivedChunk(s, c, r);
            && o.Ok? && Inv(o.value.0) && OnlyConn(s, o.value.0, c)
            && o.value.1.None? == (Count(s.conns[c], r) == 0)
            && (o.value.1.Some? ==>
                  && o.value.1.value == (r in s.conns[c].requests + s.conns[c].cancelled)
                  && r !in o.value.0.conns[c].requests + o.value.0.conns[c].cancelled)
            && (if o.value.1.Some? then Matched(s, o.value.0, c, r) else o.value.0 == s)
  {
    MatchedKeeps(s, c, r);
    if r in s.conns[c].validReceiveChunks { MatchedIs(s, c, r); }
    hide Matched, Inv;
  }

  lemma {:induction false} MatchedKeeps(s: State, c: ConnId, r: RequestIndex)
    requires Inv(s) && c < |s.conns|
    ensures var o := CheckReceivedChunk(s, c, r);
            && o.Ok? && Inv(o.value.0) && OnlyConn(s, o.value.0, c)
            && o.value.1.None? == (r !in s.conns[c].validReceiveChunks) == (Count(s.conns[c], r) == 0)
            && (o.value.1.Some? ==>
                  && o.value.1.value == (r in s.conns[c].requests + s.conns[c].cancelled)
                  && r !in o.value.0.conns[c].requests + o.value.0.conns[c].cancelled)
            && (o.value.1.None? ==> o.value.0 == s)
  {
    var conn := s.conns[c];
    if r in conn.validReceiveChunks {
      AnsweredConnOk(conn, r);
      if r in conn.requests {
        DisownOk(s, c, r);
        assert conn.cancelled - {r} == conn.cancelled;
        Put(s, c, CheckReceivedChunk(s, c, r).value.0.conns[c], r);
      } else {
        assert conn.requests - {r} == conn.requests;
        assert r !in conn.cancelled ==> conn.cancelled - {r} == conn.cancelled;
        ReplaceConn(s, c, CheckReceivedChunk(s, c, r).value.0.conns[c]);
      }
    }
  }

  /** The other connections once a chunk of theirs arrived elsewhere: whoever had it requested is cancelled. */
  ghost predicate CancelledElsewhere(s: State, s': State, c: ConnId, r: RequestIndex) {
    && |s'.conns| == |s.conns| && s'.owner == s.owner - {r}
    && (forall i :: 0 <= i < |s.conns| ==> r !in s'.conns[i].requests)
    && (forall i :: 0 <= i < |s.conns| && i != c ==>
          s'.conns[i] == if r in s.conns[i].requests then Flagged(Cancelled(s.conns[i], r), PeerCancel) else s.conns[i])
  }

  /** The cancel of whoever holds r. */
  lemma {:induction false} CancelHolder(s: State, c: ConnId, r: RequestIndex)
    requires Inv(s) && (c < |s.conns| ==> r !in s.conns[c].requests)
    ensures RequestingPeer(s, r) == Ok(if r in s.owner then Some(s.owner[r].peer) else None)
    ensures r in s.owner ==> s.owner[r].peer < |s.conns| && s.owner[r].peer != c
    ensures var o := if r in s.owner then Cancel(s, s.owner[r].peer, r) else Ok(s);
            && o.Ok? && Inv(o.value) && CancelledElsewhere(s, o.value, c, r)
            && (c < |s.conns| ==> o.value.conns[c] == s.conns[c])
  {
    forall i: ConnId | i < |s.conns| ensures r in s.conns[i].requests <==> r in s.owner && s.owner[r].peer == i {
      assert OwnsAgrees(s, i, r);
    }
    if r in s.owner {
      assert OwnsAgrees(s, s.owner[r].peer, r);
      CancelOk(s, s.owner[r].peer, r);
    } else {
      assert s.owner - {r} == s.owner;
    }
  }

  /** A chunk that was not expected changes nothing. One that was is answered, and unless it is had already the
      connection was useful now, and nobody has it requested any more: who had is sent a cancel. */
  lemma {:induction false} ReceiveChunkOk(s: State, c: ConnId, r: RequestIndex, haveChunk: bool, now: int)
    requires Inv(s) && c < |s.conns|
    ensures var o := ReceiveChunk(s, c, r, haveChunk, now);
            && o.Ok? && Inv(o.value)
            && (Count(s.conns[c], r) == 0 ==> o.value == s)
            && (Count(s.conns[c], r) > 0 && haveChunk ==>
                  OnlyConn(s, o.value, c) && Matched(s, o.value, c, r))
            && (Count(s.conns[c], r) > 0 && !haveChunk ==>
                  Taken(s.conns[c], o.value.conns[c], r, now) && CancelledElsewhere(s, o.value, c, r))
  {
    hide Taken, Flagged, CancelledElsewhere, CheckReceivedChunk;
    CheckReceivedOk(s, c, r);
    var (s1, intended) := CheckReceivedChunk(s, c, r).value;
    if intended.Some? && !haveChunk {
      var conn := s1.conns[c].(lastUseful := now);
      ReplaceConn(s1, c, conn);
      var s2 := WithConn(s1, c, conn);
      CancelHolder(s2, c, r);
      TakenNow(s.conns[c], s1.conns[c], r, now);
      ElsewhereFrom(s, s2, ReceiveChunk(s, c, r, haveChunk, now).value, c, r);
    }
  }

  lemma {:induction false} TakenNow(conn: Conn, conn': Conn, r: RequestIndex, now: int)
    requires Taken(conn, conn', r, conn.lastUseful)
    ensures Taken(conn, conn'.(lastUseful := now), r, now)
  {
    if r in conn.requests + conn.cancelled {
      var conn1 := conn.(requests := conn.requests - {r}, cancelled := conn.cancelled - {r},
                         validReceiveChunks := conn'.validReceiveChunks);
      assert conn' == Flagged(conn1, Other);
      assert conn'.(lastUseful := now) == Flagged(conn1.(lastUseful := now), Other);
    }
  }

  lemma {:induction false} ElsewhereFrom(s: State, s2: State, s': State, c: ConnId, r: RequestIndex)
    requires OnlyConn(s, s2, c) && (s2.owner == s.owner || s2.owner == s.owner - {r}) && CancelledElsewhere(s2, s', c, r)
    ensures CancelledElsewhere(s, s', c, r)
  {
    assert s.owner - {r} - {r} == s.owner - {r};
  }

  /** A webseed's chunk, unless it is had already, cancels it at whoever has it requested. */
  lemma {:induction false} ReceiveWebseedChunkOk(s: State, r: RequestIndex, haveChunk: bool)
    requires Inv(s)
    ensures var o := ReceiveWebseedChunk(s, r, haveChunk);
            && o.Ok? && Inv(o.value)
            && (if haveChunk then o.value == s else CancelledElsewhere(s, o.value, |s.conns|, r))
  {
    CancelHolder(s, |s.conns|, r);
  }

  // ---------- snapshots ----------

  lemma {:induction false} ListsTail(order: seq<RequestIndex>, rs: set<RequestIndex>)
    requires Lists(order, rs) && order != []
    ensures order[0] in rs && Lists(order[1..], rs - {order[0]})
  {
  }

  /** Deleting each request of a snapshot, in any order, is forgetting them all at once. */
  lemma {:induction false} DeleteEachOk(s: State, c: ConnId, order: seq<RequestIndex>)
    requires Inv0(s) && c < |s.conns| && Lists(order, s.conns[c].requests)
    ensures var o := DeleteEach(s, c, order);
            && o.Ok? && Inv0(o.value) && OnlyConn(s, o.value, c)
            && o.value.conns[c] == s.conns[c].(requests := {})
            && o.value.owner == s.owner - s.conns[c].requests
    decreases |order|
  {
    if order == [] {
      assert s.conns[c].requests == {};
      assert s.owner - {} == s.owner;
    } else {
      ListsTail(order, s.conns[c].requests);
      DeleteRequestOk(s, c, order[0]);
      var s1 := DeleteRequest(s, c, order[0]).value.0;
      DeleteEachOk(s1, c, order[1..]);
      assert s1.owner - s1.conns[c].requests == s.owner - s.conns[c].requests;
    }
  }

  ghost function Told(conn: Conn, reason: Reason): Conn {
    if conn.member then Flagged(conn, reason) else conn
  }

  lemma {:induction false} TellMembersOk(s: State, reason: Reason)
    requires Inv0(s)
    ensures Inv0(TellMembers(s, reason)) && TellMembers(s, reason).owner == s.owner
    ensures forall i :: 0 <= i < |s.conns| ==> TellMembers(s, reason).conns[i] == Told(s.conns[i], reason)
  {
    var s1 := TellMembers(s, reason);
    forall i | 0 <= i < |s.conns| ensures s1.conns[i] == Told(s.conns[i], reason) { FlaggedIs(s.conns[i], reason); }
    forall i: ConnId, x: RequestIndex
      ensures OwnsAgrees(s1, i, x)
    {
      assert OwnsAgrees(s, i, x);
    }
  }

  /** Every request of c is forgotten, and if there were any the members are told. */
  ghost predicate Forgot(s: State, s': State, c: ConnId, reason: Reason)
    requires c < |s.conns|
  {
    && |s'.conns| == |s.conns| && s'.owner == s.owner - s.conns[c].requests
    && (s.conns[c].requests == {} ==> s'.conns == s.conns)
    && (s.conns[c].requests != {} ==>
          forall i :: 0 <= i < |s.conns| ==>
            s'.conns[i] == Told(if i == c then s.conns[c].(requests := {}) else s.conns[i], reason))
  }

  lemma {:induction false} DeleteAllOk(s: State, c: ConnId, order: seq<RequestIndex>, reason: Reason)
    requires Inv0(s) && c < |s.conns| && Lists(order, s.conns[c].requests)
    ensures var o := DeleteAllRequests(s, c, order, reason); o.Ok? && Inv0(o.value) && Forgot(s, o.value, c, reason)
    ensures Inv(s) ==> Inv(DeleteAllRequests(s, c, order, reason).value)
  {
    if s.conns[c].requests != {} {
      DeleteEachOk(s, c, order);
      var s1 := DeleteEach(s, c, order).value;
      TellMembersOk(s1, reason);
      ForgotIs(s, s1, TellMembers(s1, reason), c, reason);
    } else {
      assert s.owner - {} == s.owner;
    }
    ForgotMembers(s, DeleteAllRequests(s, c, order, reason).value, c, reason);
  }

  lemma {:induction false} ForgotIs(s: State, s1: State, s': State, c: ConnId, reason: Reason)
    requires c < |s.conns| && OnlyConn(s, s1, c) && s1.conns[c] == s.conns[c].(requests := {}) && s.conns[c].requests != {}
    requires s1.owner == s.owner - s.conns[c].requests && s'.owner == s1.owner && |s'.conns| == |s1.conns|
    requires forall i :: 0 <= i < |s1.conns| ==> s'.conns[i] == Told(s1.conns[i], reason)
    ensures Forgot(s, s', c, reason)
  {
    hide Told;
  }

  lemma {:induction false} ForgotMembers(s: State, s': State, c: ConnId, reason: Reason)
    requires c < |s.conns| && Forgot(s, s', c, reason)
    ensures forall i :: 0 <= i < |s.conns| ==>
              && s'.conns[i].requests == (if i == c then {} else s.conns[i].requests)
              && s'.conns[i].member == s.conns[i].member && s'.conns[i].closed == s.conns[i].closed
  {
  }

  /** A connection with every request cancelled. */
  ghost function CancelledAll(conn: Conn): Conn {
    if conn.requests == {} then conn else Flagged(AllCancels(conn), PeerCancel)
  }

  ghost function AllCancels(conn: Conn): Conn {
    conn.(requests := {}, cancelled := conn.cancelled + Awaited(conn.remoteRejectsCancels, conn.requests),
          buffered := conn.buffered + CANCEL_MSG_LEN * |conn.requests|, peakRequests := conn.peakRequests - |conn.requests|)
  }

  lemma {:induction false} AwaitedStep(rejects: bool, cancelled: set<RequestIndex>, rs: set<RequestIndex>, r: RequestIndex)
    requires r in rs
    ensures (cancelled + Awaited(rejects, {r})) + Awaited(rejects, rs - {r}) == cancelled + Awaited(rejects, rs)
    ensures |rs - {r}| == |rs| - 1
  {
  }

  lemma {:induction false} AllCancelsStep(conn: Conn, r: RequestIndex)
    requires r in conn.requests
    ensures AllCancels(Cancelled(conn, r)) == AllCancels(conn)
  {
    AwaitedStep(conn.remoteRejectsCancels, conn.cancelled, conn.requests, r);
    hide Awaited;
  }

  lemma {:induction false} CancelledAllStep(conn: Conn, r: RequestIndex)
    requires r in conn.requests
    ensures CancelledAll(Flagged(Cancelled(conn, r), PeerCancel)) == CancelledAll(conn)
  {
    AllCancelsStep(conn, r);
    var conn1 := Cancelled(conn, r);
    if conn1.requests == {} {
      NoCancels(conn1);
    } else {
      assert Flagged(conn1, PeerCancel) == conn1;
    }
  }

  lemma {:induction false} NoCancels(conn: Conn)
    requires conn.requests == {}
    ensures AllCancels(conn) == conn
  {
    assert conn.cancelled + {} == conn.cancelled;
  }

  lemma {:induction false} CancelEachOk(s: State, c: ConnId, order: seq<RequestIndex>)
    requires Inv(s) && c < |s.conns| && Lists(order, s.conns[c].requests)
    ensures var o := CancelEach(s, c, order);
            && o.Ok? && Inv(o.value) && OnlyConn(s, o.value, c)
            && o.value.owner == s.owner - s.conns[c].requests
            && o.value.conns[c] == CancelledAll(s.conns[c])
    decreases |order|
  {
    hide Inv, Flagged, Cancelled;
    if order == [] {
      assert s.conns[c].requests == {};
      assert s.owner - {} == s.owner;
    } else {
      var r := order[0];
      ListsTail(order, s.conns[c].requests);
      var s1 := CancelOne(s, c, r);
      CancelEachOk(s1, c, order[1..]);
      assert s1.owner - s1.conns[c].requests == s.owner - s.conns[c].requests;
    }
  }

  /** Cancelling all of a connection's requests: it is sent a cancel for each, and nobody else changes. */
  lemma {:induction false} CancelAllOk(s: State, c: ConnId, order: seq<RequestIndex>)
    requires Inv(s) && c < |s.conns| && Lists(order, s.conns[c].requests)
    ensures var o := CancelAllRequests(s, c, order);
            && o.Ok? && Inv(o.value) && OnlyConn(s, o.value, c)
            && o.value.owner == s.owner - s.conns[c].requests && o.value.conns[c] == CancelledAll(s.conns[c])
  {
    CancelEachOk(s, c, order);
    assert CancelledAll(s.conns[c]).requests == {};
    hide Inv, CancelledAll, CancelEach;
  }

  lemma {:induction false} CancelOne(s: State, c: ConnId, r: RequestIndex) returns (s1: State)
    requires Inv(s) && c < |s.conns| && r in s.conns[c].requests
    ensures Cancel(s, c, r) == Ok(s1) && Inv(s1) && OnlyConn(s, s1, c) && s1.owner == s.owner - {r}
    ensures s1.conns[c].requests == s.conns[c].requests - {r} && CancelledAll(s1.conns[c]) == CancelledAll(s.conns[c])
  {
    CancelOk(s, c, r);
    s1 := Cancel(s, c, r).value;
    CancelledAllStep(s.conns[c], r);
  }

  lemma {:induction false} OnChokeOk(s: State, c: ConnId, order: seq<RequestIndex>)
    requires Inv(s) && c < |s.conns| && Lists(order, s.conns[c].requests)
    ensures var o := OnChoke(s, c, order);
            && o.Ok? && Inv(o.value)
            && (s.conns[c].peerChoking ==> o.value == s)
            && (!s.conns[c].peerChoking ==>
                  && o.value.conns[c].peerChoking
                  && (var before := WithConn(o.value, c, o.value.conns[c].(peerChoking := false));
                      if s.conns[c].fast then before == s else Forgot(s, before, c, Other)))
  {
    if !s.conns[c].peerChoking {
      var s1 := s;
      if !s.conns[c].fast {
        DeleteAllOk(s, c, order, Other);
        s1 := DeleteAllRequests(s, c, order, Other).value;
        ForgotChoking(s, s1, c, Other);
      }
      hide Forgot, DeleteAllRequests;
      ReplaceConn(s1, c, s1.conns[c].(peerChoking := true));
      assert WithConn(WithConn(s1, c, s1.conns[c].(peerChoking := true)), c, s1.conns[c]) == s1;
    }
  }

  lemma {:induction false} ForgotChoking(s: State, s': State, c: ConnId, reason: Reason)
    requires c < |s.conns| && Forgot(s, s', c, reason)
    ensures s'.conns[c].peerChoking == s.conns[c].peerChoking
  {
  }

  lemma {:induction false} DeletePeerConnOk(s: State, c: ConnId, order: seq<RequestIndex>)
    requires Inv(s) && c < |s.conns| && Lists(order, s.conns[c].requests) && s.conns[c].closed
    ensures var o := DeletePeerConn(s, c, order);
            && o.Ok? && Inv(o.value) && !o.value.conns[c].member
            && Forgot(WithConn(s, c, s.conns[c].(member := false)), o.value, c, Other)
  {
    ReplaceConn(s, c, s.conns[c].(member := false));
    var s0 := WithConn(s, c, s.conns[c].(member := false));
    DeleteAllOk(s0, c, order, Other);
    var s1 := DeleteAllRequests(s0, c, order, Other).value;
    ForgotMembers(s0, s1, c, Other);
    assert HoldersAreMembers(s1);
    if forall i :: 0 <= i < |s1.conns| ==> !s1.conns[i].member {
      NoMembersNoOwners(s1);
    }
  }

  /** deletePeerConn's last check: with no connection left, nothing is requested. */
  lemma {:induction false} NoMembersNoOwners(s: State)
    requires Inv(s) && forall i :: 0 <= i < |s.conns| ==> !s.conns[i].member
    ensures s.owner == map[]
  {
    forall r: RequestIndex
      ensures r !in s.owner
    {
      assert OwnsAgrees(s, if r in s.owner then s.owner[r].peer else 0, r);
    }
  }
}
