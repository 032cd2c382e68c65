/** Request updates: filling a connection's queue and stealing from others
    (requesting.go), with the write buffer they fill (peer.go). */
module RequestFill {
  import opened Arithmetic
  import opened Outcomes
  import opened RequestState
  import opened RequestInvariant

  /** The fields of the updating connection that a fill leaves alone. */
  ghost predicate SameLimits(conn: Conn, conn': Conn) {
    && conn'.cancelled == conn.cancelled
    && conn'.member == conn.member && conn'.closed == conn.closed && conn'.fast == conn.fast
    && conn'.peerChoking == conn.peerChoking && conn'.interested == conn.interested
    && conn'.needRequestUpdate == conn.needRequestUpdate
    && conn'.peakRequests == conn.peakRequests && conn'.peerMaxRequests == conn.peerMaxRequests
    && conn'.lastUseful == conn.lastUseful
  }

  /** The queue grew, and every new request is in the write buffer. */
  ghost predicate Grew(conn: Conn, conn': Conn) {
    && SameLimits(conn, conn')
    && conn.requests <= conn'.requests
    && |conn'.requests| >= |conn.requests|
    && conn'.buffered == conn.buffered + REQUEST_MSG_LEN * (|conn'.requests| - |conn.requests|)
  }

  ghost predicate Ready(s: State, c: ConnId) {
    Inv(s) && c < |s.conns| && s.conns[c].member && !s.conns[c].closed
  }

  /** Room in the write buffer for every request the limit still allows. */
  ghost predicate RoomForAll(conn: Conn) {
    conn.buffered + REQUEST_MSG_LEN * Max(0, NominalMaxRequests(conn) - NumPending(conn)) < WRITE_BUFFER_HIGH_WATER
  }

  /** c gains r in its queue and in the owner map. */
  lemma {:induction false} Gain(s: State, c: ConnId, conn: Conn, r: RequestIndex, now: int)
    requires Inv(s) && c < |s.conns| && ConnOk(conn) && s.conns[c].member
    requires r !in s.owner
    requires conn.requests == s.conns[c].requests + {r} && conn.member
    ensures Inv(State(s.conns[c := conn], s.owner[r := Owner(c, now)]))
  {
    var s' := State(s.conns[c := conn], s.owner[r := Owner(c, now)]);
    forall i: ConnId, x: RequestIndex
      ensures OwnsAgrees(s', i, x)
    {
      assert OwnsAgrees(s, i, x) && OwnsAgrees(s, i, r);
    }
  }

  lemma {:induction false} RequestOk(s: State, c: ConnId, r: RequestIndex, u: Update)
    requires Ready(s, c) && Desired(s.conns[c], r, u)
    requires r in s.owner ==> s.owner[r].peer == c
    requires NumPending(s.conns[c]) < NominalMaxRequests(s.conns[c])
    ensures var o := Request(s, c, r, u);
            && o.Ok? && Ready(o.value.0, c) && OnlyConn(s, o.value.0, c)
            && Grew(s.conns[c], o.value.0.conns[c])
            && o.value.0.conns[c].requests == s.conns[c].requests + {r}
            && o.value.0.owner == (if r in s.owner then s.owner else s.owner[r := Owner(c, u.now)])
            && (r in s.owner ==> o.value.0 == s)
            && (r !in s.owner ==> Asked(s.conns[c], o.value.0.conns[c], r))
            && o.value.1 == (r in s.owner || o.value.0.conns[c].buffered < WRITE_BUFFER_HIGH_WATER)
  {
    assert OwnsAgrees(s, c, r);
    var conn := s.conns[c];
    if r in conn.requests {
      assert conn.requests + {r} == conn.requests;
    } else {
      var conn' := Request(s, c, r, u).value.0.conns[c];
      assert |conn'.requests| == |conn.requests| + 1;
      Gain(s, c, conn', r, u.now);
    }
  }

  /** Taking r from another connection: cancelled there, requested here. */
  lemma {:induction false} StealOk(s: State, c: ConnId, r: RequestIndex, u: Update)
    requires Ready(s, c) && Desired(s.conns[c], r, u)
    requires r in s.owner && s.owner[r].peer != c
    requires NumPending(s.conns[c]) < NominalMaxRequests(s.conns[c])
    ensures var s1 := CancelRequest(s, r);
            && s1.Ok? && s1.value.conns[c] == s.conns[c] && CancelledElsewhere(s, s1.value, c, r)
            && Ready(s1.value, c) && Desired(s1.value.conns[c], r, u)
  {
    assert OwnsAgrees(s, c, r);
    CancelRequestOk(s, r);
    CancelHolder(s, c, r);
  }

  /** One request is always allowed; more are as far as the peer takes them, they are no more than twice the
      last peak, and they fit in the write buffer above the low-water mark with an interest message. */
  lemma {:induction false} NominalMaxIs(conn: Conn, n: int)
    ensures n <= NominalMaxRequests(conn) <==>
            n <= 1 || (n <= conn.peerMaxRequests && n <= 2 * conn.peakRequests && 16384 + 5 + 17 * n <= 32768)
  {
    assert MAX_LOCAL_TO_REMOTE_REQUESTS == 963;
  }

  /** c has r, or is not to have it: the update was told not to take it, or its holder's queue is not worth
      taking from, or the holder is still in its grace. */
  ghost predicate Settled(s: State, c: ConnId, r: RequestIndex, u: Update)
    requires c < |s.conns|
  {
    || s.conns[c].needRequestUpdate == RemoteReject
    || r in s.conns[c].requests
    || (&& r in s.owner && s.owner[r].peer < |s.conns| && s.owner[r].peer != c
        && (|| s.conns[c].needRequestUpdate == PeerCancel
            || NotWorth(s.conns[c], s.conns[s.owner[r].peer])
            || (u.grace > 0 && u.now - s.owner[r].when < u.grace)))
  }

  /** h has no more requests than c, or one more and was useful as recently. */
  predicate NotWorth(c: Conn, h: Conn) {
    |h.requests| <= |c.requests| || (|h.requests| == |c.requests| + 1 && c.lastUseful <= h.lastUseful)
  }

  /** c requested r, and whoever had it requested was sent a cancel. */
  ghost predicate Obtained(s: State, s': State, c: ConnId, r: RequestIndex, u: Update)
    requires c < |s.conns|
  {
    && |s'.conns| == |s.conns| && s'.owner == s.owner[r := Owner(c, u.now)]
    && r !in s.conns[c].requests && Asked(s.conns[c], s'.conns[c], r)
    && (forall i :: 0 <= i < |s.conns| && i != c ==>
          s'.conns[i] == if r in s.conns[i].requests then Flagged(Cancelled(s.conns[i], r), PeerCancel) else s.conns[i])
  }

  /** One pass of the loop, exactly: a chunk that is settled is left alone, and any other is obtained. */
  lemma {:induction false} PassIs(s: State, c: ConnId, r: RequestIndex, u: Update)
    requires Ready(s, c) && Desired(s.conns[c], r, u)
    requires NumPending(s.conns[c]) < NominalMaxRequests(s.conns[c])
    ensures var o := TryRequest(s, c, r, u);
            && o.Ok? && Ready(o.value.0, c)
            && (Settled(s, c, r, u) ==> o.value == (s, true))
            && (!Settled(s, c, r, u) ==>
                  && Obtained(s, o.value.0, c, r, u) && Grew(s.conns[c], o.value.0.conns[c])
                  && o.value.1 == (o.value.0.conns[c].buffered < WRITE_BUFFER_HIGH_WATER))
  {
    assert OwnsAgrees(s, c, r);
    if r !in s.owner || s.owner[r].peer == c {
      RequestOk(s, c, r, u);
      if !Settled(s, c, r, u) { ObtainFree(s, c, r, u); }
    } else {
      CancelRequestOk(s, r);
      PassOver(s, c, r, u);
      if !Settled(s, c, r, u) { ObtainHeld(s, c, r, u); }
    }
    hide Obtained, Request, TryRequest;
  }

  /** A chunk someone else has requested: left alone if settled, cancelled there and requested here if not. */
  lemma {:induction false} PassOver(s: State, c: ConnId, r: RequestIndex, u: Update)
    requires Ready(s, c) && r in s.owner && s.owner[r].peer != c && r !in s.conns[c].requests && CancelRequest(s, r).Ok?
    ensures TryRequest(s, c, r, u) ==
            if Settled(s, c, r, u) then Ok((s, true)) else Request(CancelRequest(s, r).value, c, r, u)
  {
    hide Request, CancelRequest;
    assert OwnsAgrees(s, s.owner[r].peer, r);
  }

  lemma {:induction false} ObtainHeld(s: State, c: ConnId, r: RequestIndex, u: Update)
    requires Ready(s, c) && Desired(s.conns[c], r, u) && r in s.owner && s.owner[r].peer != c
    requires NumPending(s.conns[c]) < NominalMaxRequests(s.conns[c])
    ensures CancelRequest(s, r).Ok?
    ensures var o := Request(CancelRequest(s, r).value, c, r, u);
            && o.Ok? && Ready(o.value.0, c) && Obtained(s, o.value.0, c, r, u) && Grew(s.conns[c], o.value.0.conns[c])
            && o.value.1 == (o.value.0.conns[c].buffered < WRITE_BUFFER_HIGH_WATER)
  {
    StealOk(s, c, r, u);
    var s1 := CancelRequest(s, r).value;
    assert r !in s1.owner;
    RequestOk(s1, c, r, u);
    ObtainFree(s1, c, r, u);
    ObtainedAfter(s, s1, Request(s1, c, r, u).value.0, c, r, u);
    hide Obtained, Request, CancelRequest;
  }

  lemma {:induction false} ObtainFree(s: State, c: ConnId, r: RequestIndex, u: Update)
    requires Ready(s, c) && Desired(s.conns[c], r, u) && r !in s.owner
    requires NumPending(s.conns[c]) < NominalMaxRequests(s.conns[c])
    ensures Request(s, c, r, u).Ok? && Obtained(s, Request(s, c, r, u).value.0, c, r, u)
  {
    RequestOk(s, c, r, u);
    forall i: ConnId | i < |s.conns| ensures r !in s.conns[i].requests { assert OwnsAgrees(s, i, r); }
  }

  lemma {:induction false} ObtainedAfter(s: State, s1: State, s': State, c: ConnId, r: RequestIndex, u: Update)
    requires c < |s.conns| && CancelledElsewhere(s, s1, c, r) && s1.conns[c] == s.conns[c] && Obtained(s1, s', c, r, u)
    ensures Obtained(s, s', c, r, u)
  {
    assert (s.owner - {r})[r := Owner(c, u.now)] == s.owner[r := Owner(c, u.now)];
  }

  ghost predicate OnePass(conn: Conn, conn': Conn, more: bool) {
    && Grew(conn, conn')
    && |conn'.requests| <= |conn.requests| + 1
    && more == (|conn'.requests| == |conn.requests| || conn'.buffered < WRITE_BUFFER_HIGH_WATER)
  }

  /** One pass of the loop: the queue grows by at most the popped request. */
  lemma {:induction false} TryRequestOk(s: State, c: ConnId, r: RequestIndex, u: Update)
    requires Ready(s, c) && Desired(s.conns[c], r, u)
    requires NumPending(s.conns[c]) < NominalMaxRequests(s.conns[c])
    ensures var o := TryRequest(s, c, r, u);
            o.Ok? && Ready(o.value.0, c) && OnePass(s.conns[c], o.value.0.conns[c], o.value.1)
  {
    PassIs(s, c, r, u);
    var s' := TryRequest(s, c, r, u).value.0;
    if !Settled(s, c, r, u) { assert |s'.conns[c].requests| == |s.conns[c].requests| + 1; }
    hide TryRequest, Settled;
  }

  /** One turn of the loop leaves everything as the rest of it needs it. */
  lemma {:induction false} FillStep(s: State, c: ConnId, order: seq<RequestIndex>, u: Update) returns (s1: State)
    requires Ready(s, c) && RoomForAll(s.conns[c]) && order != []
    requires forall r :: r in order ==> Desired(s.conns[c], r, u)
    requires NumPending(s.conns[c]) < NominalMaxRequests(s.conns[c])
    ensures TryRequest(s, c, order[0], u) == Ok((s1, true)) && |s1.conns| == |s.conns|
    ensures Ready(s1, c) && RoomForAll(s1.conns[c]) && forall r :: r in order[1..] ==> Desired(s1.conns[c], r, u)
    ensures FillRequests(s, c, order, u) == FillRequests(s1, c, order[1..], u)
  {
    TryRequestOk(s, c, order[0], u);
    s1 := TryRequest(s, c, order[0], u).value.0;
    assert forall r :: r in order[1..] ==> r in order;
  }

  /** The fill loop with a write buffer that never fills. */
  function FillUnbounded(s: State, c: ConnId, order: seq<RequestIndex>, u: Update): (o: Outcome<State>)
    requires c < |s.conns|
    ensures o.Ok? ==> |o.value.conns| == |s.conns|
    decreases |order|
  {
    if order == [] || NumPending(s.conns[c]) >= NominalMaxRequests(s.conns[c]) then Ok(s)
    else
      var (s1, _) :- TryRequest(s, c, order[0], u);
      FillUnbounded(s1, c, order[1..], u)
  }

  /** What the loop panics on, exactly: the requests it makes do not fit in the write buffer.
      Otherwise the buffer makes no difference to it. */
  lemma {:induction false} FillExact(s: State, c: ConnId, order: seq<RequestIndex>, u: Update)
    requires Ready(s, c) && forall r :: r in order ==> Desired(s.conns[c], r, u)
    ensures var o := FillUnbounded(s, c, order, u);
            && o.Ok? && Ready(o.value, c) && Grew(s.conns[c], o.value.conns[c])
            && NumPending(o.value.conns[c]) <= Max(NumPending(s.conns[c]), NominalMaxRequests(s.conns[c]))
            && FillRequests(s, c, order, u) ==
               if |o.value.conns[c].requests| > |s.conns[c].requests| && o.value.conns[c].buffered >= WRITE_BUFFER_HIGH_WATER
               then Panic else o
    decreases |order|
  {
    if order != [] && NumPending(s.conns[c]) < NominalMaxRequests(s.conns[c]) {
      TryRequestOk(s, c, order[0], u);
      var (s1, more) := TryRequest(s, c, order[0], u).value;
      assert forall r :: r in order[1..] ==> r in order;
      FillExact(s1, c, order[1..], u);
    }
  }

  /** With room for all the limit allows, the loop never panics, keeps the invariant, and
      respects the limit. */
  lemma {:induction false} FillOk(s: State, c: ConnId, order: seq<RequestIndex>, u: Update)
    requires Ready(s, c) && RoomForAll(s.conns[c])
    requires forall r :: r in order ==> Desired(s.conns[c], r, u)
    ensures var o := FillRequests(s, c, order, u);
            && o.Ok? && Ready(o.value, c) && Grew(s.conns[c], o.value.conns[c])
            && NumPending(o.value.conns[c]) <= Max(NumPending(s.conns[c]), NominalMaxRequests(s.conns[c]))
            && o.value.conns[c].buffered < WRITE_BUFFER_HIGH_WATER
  {
    FillExact(s, c, order, u);
  }

  // ---------- whole updates ----------

  /** What an update of this connection, told this interest, may rely on: it stops at the
      interest message, or makes no requests, or has room for all the limit allows. */
  predicate RoomToUpdate(conn: Conn, interested: bool) {
    var conn1 := SetInterested(conn, interested);
    || (conn1 != conn && conn1.buffered >= WRITE_BUFFER_HIGH_WATER)
    || conn.needRequestUpdate == RemoteReject
    || NumPending(conn) >= NominalMaxRequests(conn)
    || conn1.buffered + REQUEST_MSG_LEN * (NominalMaxRequests(conn) - NumPending(conn)) < WRITE_BUFFER_HIGH_WATER
  }

  /** After a reject the loop changes nothing. */
  lemma {:induction false} RejectedFill(s: State, c: ConnId, order: seq<RequestIndex>, u: Update)
    requires c < |s.conns| && s.conns[c].needRequestUpdate == RemoteReject
    ensures FillRequests(s, c, order, u) == Ok(s)
    decreases |order|
  {
    if order != [] { RejectedFill(s, c, order[1..], u); }
  }

  /** The fill of an update that has room. */
  lemma {:induction false} RoomFill(s: State, c: ConnId, order: seq<RequestIndex>, u: Update)
    requires Ready(s, c) && forall r :: r in order ==> Desired(s.conns[c], r, u)
    requires s.conns[c].needRequestUpdate == RemoteReject || NumPending(s.conns[c]) >= NominalMaxRequests(s.conns[c]) || RoomForAll(s.conns[c])
    ensures var o := FillRequests(s, c, order, u);
            && o.Ok? && Ready(o.value, c) && Grew(s.conns[c], o.value.conns[c])
            && NumPending(o.value.conns[c]) <= Max(NumPending(s.conns[c]), NominalMaxRequests(s.conns[c]))
  {
    if s.conns[c].needRequestUpdate == RemoteReject {
      RejectedFill(s, c, order, u);
    } else if NumPending(s.conns[c]) < NominalMaxRequests(s.conns[c]) {
      FillOk(s, c, order, u);
    }
  }

  /** An update tells the peer of a change of interest, and unless that filled the buffer goes through the
      candidates; then the requests it made are the new peak, and no update is due. */
  ghost predicate Updated(s: State, s': State, c: ConnId, order: seq<RequestIndex>, interested: bool, u: Update)
    requires c < |s.conns|
  {
    var conn := s.conns[c];
    var told := if conn.interested == interested then 0 else INTERESTED_MSG_LEN;
    var conn1 := conn.(interested := interested, buffered := conn.buffered + told);
    if told > 0 && conn1.buffered >= WRITE_BUFFER_HIGH_WATER
    then s' == State(s.conns[c := conn1.(needRequestUpdate := NoReason)], s.owner)
    else
      var filled := FillRequests(State(s.conns[c := conn1], s.owner), c, order, u);
      && filled.Ok? && |s'.conns| == |filled.value.conns|
      && s' == State(filled.value.conns[c := s'.conns[c]], filled.value.owner)
      && s'.conns[c] == filled.value.conns[c].(
                          needRequestUpdate := NoReason,
                          peakRequests := |filled.value.conns[c].requests| - |conn.requests|)
  }

  /** An update that has room never panics, and never leaves requests plus unacknowledged
      cancels above the larger of their prior total and the limit. */
  lemma {:induction false} ApplyRoom(s: State, c: ConnId, order: seq<RequestIndex>, interested: bool, u: Update)
    requires Ready(s, c) && RoomToUpdate(s.conns[c], interested)
    requires forall r :: r in order ==> Desired(s.conns[c], r, u)
    ensures var o := ApplyRequestState(s, c, order, interested, u);
            && o.Ok? && Ready(o.value, c)
            && NumPending(o.value.conns[c]) <= Max(NumPending(s.conns[c]), NominalMaxRequests(s.conns[c]))
            && s.conns[c].requests <= o.value.conns[c].requests
            && o.value.conns[c].cancelled == s.conns[c].cancelled
            && Updated(s, o.value, c, order, interested, u)
  {
    var conn := SetInterested(s.conns[c], interested);
    if conn != s.conns[c] && conn.buffered >= WRITE_BUFFER_HIGH_WATER {
      ReplaceConn(s, c, conn.(needRequestUpdate := NoReason));
    } else {
      var s1 := InterestedFill(s, c, order, interested, u);
      ReplaceConn(s1, c, EndUpdate(s1.conns[c], |s.conns[c].requests|));
    }
  }

  /** The fill after the interest message. */
  lemma {:induction false} InterestedFill(s: State, c: ConnId, order: seq<RequestIndex>, interested: bool, u: Update) returns (s1: State)
    requires Ready(s, c) && RoomToUpdate(s.conns[c], interested)
    requires var conn := SetInterested(s.conns[c], interested); conn == s.conns[c] || conn.buffered < WRITE_BUFFER_HIGH_WATER
    requires forall r :: r in order ==> Desired(s.conns[c], r, u)
    ensures FillRequests(WithConn(s, c, SetInterested(s.conns[c], interested)), c, order, u) == Ok(s1)
    ensures Ready(s1, c) && Grew(SetInterested(s.conns[c], interested), s1.conns[c])
    ensures NumPending(s1.conns[c]) <= Max(NumPending(s.conns[c]), NominalMaxRequests(s.conns[c]))
  {
    var conn := SetInterested(s.conns[c], interested);
    ReplaceConn(s, c, conn);
    var s0 := WithConn(s, c, conn);
    assert forall r :: r in order ==> Desired(s.conns[c], r, u) && Desired(s0.conns[c], r, u);
    RoomFill(s0, c, order, u);
    s1 := FillRequests(s0, c, order, u).value;
  }

  /** At or below the low-water mark there is room for the interest message and all the limit allows. */
  lemma {:induction false} LowWaterRoom(conn: Conn, interested: bool)
    requires conn.buffered <= WRITE_BUFFER_LOW_WATER
    ensures RoomToUpdate(conn, interested) && RoomForAll(SetInterested(conn, interested))
    ensures NominalMaxRequests(SetInterested(conn, interested)) == NominalMaxRequests(conn)
  {
    NominalMaxIs(conn, NominalMaxRequests(conn));
  }

  /** An update entered at or below the low-water mark never fills the write buffer,
      so the "couldn't fill" panic is unreachable, and never leaves requests plus
      unacknowledged cancels above the larger of their prior total and the limit. */
  lemma {:induction false} ApplyOk(s: State, c: ConnId, order: seq<RequestIndex>, interested: bool, u: Update)
    requires Ready(s, c) && s.conns[c].buffered <= WRITE_BUFFER_LOW_WATER
    requires forall r :: r in order ==> Desired(s.conns[c], r, u)
    ensures var o := ApplyRequestState(s, c, order, interested, u);
            && o.Ok? && Ready(o.value, c)
            && o.value.conns[c].buffered < WRITE_BUFFER_HIGH_WATER
            && NumPending(o.value.conns[c]) <= Max(NumPending(s.conns[c]), NominalMaxRequests(s.conns[c]))
            && s.conns[c].requests <= o.value.conns[c].requests
            && o.value.conns[c].cancelled == s.conns[c].cancelled
  {
    LowWaterRoom(s.conns[c], interested);
    ApplyRoom(s, c, order, interested, u);
    var conn := SetInterested(s.conns[c], interested);
    ReplaceConn(s, c, conn);
    hide Inv, FillRequests, Updated, RoomForAll, RoomToUpdate, NominalMaxRequests;
    var s0 := WithConn(s, c, conn);
    assert forall r :: r in order ==> Desired(s.conns[c], r, u) && Desired(s0.conns[c], r, u);
    hide Desired;
    FillOk(s0, c, order, u);
  }

  // ---------- an update without room ----------

  lemma {:induction false} Above(xs: set<nat>) returns (b: nat)
    ensures forall x :: x in xs ==> x < b
    decreases |xs|
  {
    b := 0;
    if xs != {} {
      var x :| x in xs;
      var b0 := Above(xs - {x});
      b := if b0 <= x then x + 1 else b0;
      assert forall y :: y in xs && y != x ==> y in xs - {x};
    }
  }

  /** n chunks from base on. */
  function Next(base: nat, n: nat): seq<RequestIndex>
    decreases n
  {
    if n == 0 then [] else [base] + Next(base + 1, n - 1)
  }

  lemma {:induction false} NextIn(base: nat, n: nat, r: RequestIndex)
    requires r in Next(base, n)
    ensures base <= r < base + n
    decreases n
  {
    if n > 0 && r != base { NextIn(base + 1, n - 1, r); }
  }

  lemma {:induction false} NextHas(base: nat, n: nat, r: RequestIndex)
    requires base <= r < base + n
    ensures r in Next(base, n)
    decreases n
  {
    if r != base { NextHas(base + 1, n - 1, r); }
  }

  /** Nobody has anything to do with the chunks from base on, and an update may request n of
      them. */
  ghost predicate Untouched(s: State, c: ConnId, base: nat, n: nat, u: Update)
    requires c < |s.conns|
  {
    && (forall r :: r >= base ==> r !in s.owner && r !in s.conns[c].cancelled)
    && (forall r :: base <= r < base + n ==> r in u.allowedFast && r in u.has && r !in u.busy)
  }

  /** Offered enough untouched chunks, the loop goes on until the buffer is full. */
  lemma {:induction false} UntouchedFill(s: State, c: ConnId, base: nat, n: nat, u: Update)
    requires Ready(s, c) && Untouched(s, c, base, n, u) && n > 0
    requires s.conns[c].needRequestUpdate != RemoteReject && NumPending(s.conns[c]) + n <= NominalMaxRequests(s.conns[c])
    requires s.conns[c].buffered + REQUEST_MSG_LEN * n >= WRITE_BUFFER_HIGH_WATER
    ensures FillRequests(s, c, Next(base, n), u) == Panic
    decreases n
  {
    hide TryRequest, Untouched;
    var s1, more := UntouchedRequest(s, c, base, n, u);
    assert Next(base, n)[0] == base && Next(base, n)[1..] == Next(base + 1, n - 1);
    if more { UntouchedFill(s1, c, base + 1, n - 1, u); }
  }

  /** The first of them is requested. */
  lemma {:induction false} UntouchedRequest(s: State, c: ConnId, base: nat, n: nat, u: Update)
    returns (s1: State, more: bool)
    requires Ready(s, c) && Untouched(s, c, base, n, u) && n > 0
    requires s.conns[c].needRequestUpdate != RemoteReject && NumPending(s.conns[c]) + n <= NominalMaxRequests(s.conns[c])
    ensures TryRequest(s, c, base, u) == Ok((s1, more))
    ensures Ready(s1, c) && Untouched(s1, c, base + 1, n - 1, u)
    ensures s1.conns[c].needRequestUpdate != RemoteReject
    ensures NumPending(s1.conns[c]) == NumPending(s.conns[c]) + 1
    ensures NominalMaxRequests(s1.conns[c]) == NominalMaxRequests(s.conns[c])
    ensures s1.conns[c].buffered == s.conns[c].buffered + REQUEST_MSG_LEN
    ensures more <==> s1.conns[c].buffered < WRITE_BUFFER_HIGH_WATER
  {
    assert base in u.has && Desired(s.conns[c], base, u);
    RequestOk(s, c, base, u);
    var o := Request(s, c, base, u).value;
    s1, more := o.0, o.1;
    assert OwnsAgrees(s, c, base);
    assert |s1.conns[c].requests| == |s.conns[c].requests| + 1;
  }

  /** Without room there are chunks and an update on which the panic is reached. */
  lemma {:induction false} NoRoomPanics(s: State, c: ConnId, interested: bool) returns (order: seq<RequestIndex>, u: Update)
    requires Ready(s, c) && !RoomToUpdate(s.conns[c], interested)
    ensures forall r :: r in order ==> Desired(s.conns[c], r, u)
    ensures ApplyRequestState(s, c, order, interested, u) == Panic
  {
    var conn := s.conns[c];
    var base := Above(s.owner.Keys + conn.cancelled);
    var n := NominalMaxRequests(conn) - NumPending(conn);
    order := Next(base, n);
    var chunks := set r | r in order;
    u := Update(0, 0, chunks, chunks, {});
    forall r | r in order ensures Desired(conn, r, u) { NextIn(base, n, r); }
    forall r: nat | base <= r < base + n ensures r in order { NextHas(base, n, r); }
    var s0 := WithConn(s, c, SetInterested(conn, interested));
    ReplaceConn(s, c, SetInterested(conn, interested));
    UntouchedFill(s0, c, base, n, u);
  }

  /** The exact condition: whatever chunks are desired and whatever the update is told, it
      does not panic, if and only if there is room. */
  lemma {:induction false} UpdateExact(s: State, c: ConnId, interested: bool)
    requires Ready(s, c)
    ensures (forall order: seq<RequestIndex>, u: Update :: (forall r :: r in order ==> Desired(s.conns[c], r, u)) ==>
               ApplyRequestState(s, c, order, interested, u).Ok?)
            <==> RoomToUpdate(s.conns[c], interested)
  {
    if RoomToUpdate(s.conns[c], interested) {
      forall order: seq<RequestIndex>, u: Update | forall r :: r in order ==> Desired(s.conns[c], r, u)
        ensures ApplyRequestState(s, c, order, interested, u).Ok?
      {
        ApplyRoom(s, c, order, interested, u);
      }
    } else {
      var order, u := NoRoomPanics(s, c, interested);
      assert !ApplyRequestState(s, c, order, interested, u).Ok?;
    }
  }
}
