/** The request bookkeeping as the client runs it: fields updated in place, loops
    over snapshots and over the request heap. Each method is the specification
    function of the same name, with its panics proved unreachable on the way. */
module RequestTable {
  import opened Outcomes
  import opened RequestState
  import opened RequestInvariant
  import opened RequestFill

  class Torrent {
    var conns: seq<Conn>
    var owner: map<RequestIndex, Owner>

    function Now(): State
      reads this
    {
      State(conns, owner)
    }

    constructor ()
      ensures Now() == State([], map[]) && Inv(Now())
    {
      conns, owner := [], map[];
    }

    method DeleteRequest(c: ConnId, r: RequestIndex) returns (removed: bool)
      requires Inv0(Now()) && c < |conns|
      modifies this
      ensures RequestState.DeleteRequest(old(Now()), c, r) == Ok((Now(), removed))
      ensures Inv0(Now()) && removed == (r in old(conns[c].requests))
      ensures conns == old(conns)[c := old(conns)[c].(requests := old(conns)[c].requests - {r})]
    {
      DeleteRequestOk(Now(), c, r);
      if r !in conns[c].requests {
        assert conns[c].requests - {r} == conns[c].requests;
        return false;
      }
      conns := conns[c := conns[c].(requests := conns[c].requests - {r})];
      assert r in owner && owner[r].peer == c;   // "only one peer should have a given request at a time"
      owner := owner - {r};
      return true;
    }

    method Cancel(c: ConnId, r: RequestIndex)
      requires Inv(Now()) && c < |conns| && r in conns[c].requests
      modifies this
      ensures RequestState.Cancel(old(Now()), c, r) == Ok(Now())
      ensures Inv(Now()) && |conns| == old(|conns|) && conns[c].requests == old(conns)[c].requests - {r}
    {
      CancelOk(Now(), c, r);
      var removed := DeleteRequest(c, r);
      assert removed;                            // "request not existing should have been guarded"
      conns := conns[c := conns[c].(buffered := conns[c].buffered + CANCEL_MSG_LEN)];
      if conns[c].remoteRejectsCancels {
        assert r !in conns[c].cancelled;         // "request already cancelled"
        conns := conns[c := conns[c].(cancelled := conns[c].cancelled + {r})];
      }
      conns := conns[c := conns[c].(peakRequests := conns[c].peakRequests - 1)];
      if IsLowOnRequests(conns[c]) {
        conns := conns[c := OnNeedUpdateRequests(conns[c], PeerCancel)];
      }
      assert conns == RequestState.Cancel(old(Now()), c, r).value.conns;
    }

    method CancelRequest(r: RequestIndex)
      requires Inv(Now())
      modifies this
      ensures RequestState.CancelRequest(old(Now()), r) == Ok(Now())
      ensures Inv(Now()) && |conns| == old(|conns|)
    {
      CancelRequestOk(Now(), r);
      if r in owner {
        assert OwnsAgrees(Now(), owner[r].peer, r);
        Cancel(owner[r].peer, r);
      }
      assert r !in owner;                        // "expected request state to be gone"
    }

    method DeleteAllRequests(c: ConnId, snapshot: seq<RequestIndex>, reason: Reason)
      requires Inv0(Now()) && c < |conns| && Lists(snapshot, conns[c].requests)
      modifies this
      ensures RequestState.DeleteAllRequests(old(Now()), c, snapshot, reason) == Ok(Now())
      ensures Inv0(Now())
    {
      DeleteAllOk(Now(), c, snapshot, reason);
      if conns[c].requests == {} { return; }
      DeleteEachOk(Now(), c, snapshot);
      var i := 0;
      while i < |snapshot|
        invariant 0 <= i <= |snapshot|
        invariant Inv0(Now()) && |conns| == old(|conns|)
        invariant Lists(snapshot[i..], conns[c].requests)
        invariant DeleteEach(Now(), c, snapshot[i..]) == DeleteEach(old(Now()), c, snapshot)
      {
        ListsTail(snapshot[i..], conns[c].requests);
        var removed := DeleteRequest(c, snapshot[i]);
        assert removed;                          // "request should exist"
        assert snapshot[i..][1..] == snapshot[i + 1..];
        i := i + 1;
      }
      assert conns[c].requests == {};            // assertNoRequests
      conns := TellMembers(Now(), reason).conns;
    }

    method CancelAllRequests(c: ConnId, snapshot: seq<RequestIndex>)
      requires Inv(Now()) && c < |conns| && Lists(snapshot, conns[c].requests)
      modifies this
      ensures RequestState.CancelAllRequests(old(Now()), c, snapshot) == Ok(Now())
      ensures Inv(Now())
    {
      CancelEachOk(Now(), c, snapshot);
      hide Inv, CancelledAll, OnlyConn;
      var i := 0;
      while i < |snapshot|
        invariant 0 <= i <= |snapshot|
        invariant Inv(Now()) && |conns| == old(|conns|)
        invariant Lists(snapshot[i..], conns[c].requests)
        invariant CancelEach(Now(), c, snapshot[i..]) == CancelEach(old(Now()), c, snapshot)
      {
        ListsTail(snapshot[i..], conns[c].requests);
        Cancel(c, snapshot[i]);
        assert snapshot[i..][1..] == snapshot[i + 1..];
        i := i + 1;
      }
      assert conns[c].requests == {};            // assertNoRequests
    }

    method Request(c: ConnId, r: RequestIndex, u: Update) returns (more: bool)
      requires Ready(Now(), c) && Desired(conns[c], r, u)
      requires r in owner ==> owner[r].peer == c
      requires NumPending(conns[c]) < NominalMaxRequests(conns[c])
      modifies this
      ensures RequestState.Request(old(Now()), c, r, u) == Ok((Now(), more))
      ensures Ready(Now(), c)
    {
      RequestOk(Now(), c, r, u);
      if r in conns[c].requests { return true; }
      var count := if r in conns[c].validReceiveChunks then conns[c].validReceiveChunks[r] else 0;
      conns := conns[c := conns[c].(requests := conns[c].requests + {r},
                                    validReceiveChunks := conns[c].validReceiveChunks[r := count + 1],
                                    buffered := conns[c].buffered + REQUEST_MSG_LEN)];
      owner := owner[r := Owner(c, u.now)];
      return conns[c].buffered < WRITE_BUFFER_HIGH_WATER;
    }

    /** One pass of the loop of applyRequestState, for the request popped off the heap. */
    method TryRequest(c: ConnId, req: RequestIndex, u: Update) returns (more: bool)
      requires Ready(Now(), c) && Desired(conns[c], req, u)
      requires NumPending(conns[c]) < NominalMaxRequests(conns[c])
      modifies this
      ensures RequestState.TryRequest(old(Now()), c, req, u) == Ok((Now(), more))
    {
      TryRequestOk(Now(), c, req, u);
      if conns[c].needRequestUpdate == RemoteReject { return true; }
      if req in owner && owner[req].peer != c {
        assert OwnsAgrees(Now(), owner[req].peer, req);
        if conns[c].needRequestUpdate == PeerCancel { return true; }
        if !MaySteal(Now(), c, owner[req].peer) { return true; }
        if !GraceElapsed(Now(), req, u) { return true; }
        StealOk(Now(), c, req, u);
        CancelRequest(req);
      }
      more := Request(c, req, u);
    }

    /** The loop of applyRequestState, over the requests in the order the heap yields them. */
    method FillRequests(c: ConnId, next: seq<RequestIndex>, u: Update)
      requires Ready(Now(), c) && RoomForAll(conns[c])
      requires forall r :: r in next ==> Desired(conns[c], r, u)
      modifies this
      ensures RequestState.FillRequests(old(Now()), c, next, u) == Ok(Now())
      ensures Ready(Now(), c) && conns[c].buffered < WRITE_BUFFER_HIGH_WATER
    {
      FillOk(Now(), c, next, u);
      ghost var goal := RequestState.FillRequests(Now(), c, next, u);
      var rest := next;
      while rest != [] && NumPending(conns[c]) < NominalMaxRequests(conns[c])
        invariant c < |conns| && Ready(Now(), c) && RoomForAll(conns[c])
        invariant forall r :: r in rest ==> Desired(conns[c], r, u)
        invariant RequestState.FillRequests(Now(), c, rest, u) == goal
        decreases |rest|
      {
        ghost var s1 := FillStep(Now(), c, rest, u);
        var more := TryRequest(c, rest[0], u);
        assert more;                             // "couldn't fill apply entire request state"
        assert Now() == s1;
        rest := rest[1..];
      }
    }
  }
}
