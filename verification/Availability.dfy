/** Piece availability over many peers (peerconn.go, torrent.go, webseed-peer.go), from
    the moment the info is known.

    Peers that have everything are counted once, in connsWithAllPieces; every other
    peer's pieces are counted piece by piece in relativeAvailability. */
module Availability {
  import opened Outcomes
  import opened Sets

  type PieceIndex = nat

  /** Peers, connections and webseeds alike, are numbered as they join. */
  type PeerId = nat

  datatype Peer = Peer(open: bool, pieces: set<PieceIndex>, sentHaveAll: bool)

  datatype State = State(
    numPieces: nat,
    peers: seq<Peer>,
    haveAll: set<PeerId>,              // connsWithAllPieces
    availability: seq<int>)            // relativeAvailability of each piece

  // ---------- counters ----------

  /** decPieceAvailability for each lost piece and incPieceAvailability for each gained
      one; decrementing a count that is not positive is a panic. */
  function Adjust(av: seq<int>, lose: set<PieceIndex>, gain: set<PieceIndex>): (o: Outcome<seq<int>>)
    ensures o.Ok? <==> (forall i :: i in lose ==> i < |av| && av[i] > 0) && forall i :: i in gain ==> i < |av|
    ensures o.Ok? ==> |o.value| == |av|
  {
    if exists i :: i in lose && (i >= |av| || av[i] <= 0) then Panic
    else if exists i :: i in gain && i >= |av| then Panic    // index out of range
    else Ok(seq(|av|, i requires 0 <= i < |av| => Shift(av[i], i, lose, gain)))
  }

  function Shift(v: int, i: PieceIndex, lose: set<PieceIndex>, gain: set<PieceIndex>): int {
    v - (if i in lose then 1 else 0) + (if i in gain then 1 else 0)
  }

  // ---------- the operations ----------

  predicate PeerHasAllPieces(s: State, p: Peer) {
    p.sentHaveAll || |p.pieces| == s.numPieces
  }

  predicate PeerHasPiece(s: State, p: Peer, i: PieceIndex) {
    PeerHasAllPieces(s, p) || i in p.pieces
  }

  /** A Have message; an invalid piece is an error that ends the connection. */
  function Have(s: State, c: PeerId, i: PieceIndex): Outcome<State>
    requires c < |s.peers|
  {
    var p := s.peers[c];
    if i >= s.numPieces || PeerHasPiece(s, p, i) then Ok(s)
    else
      var av :- Adjust(s.availability, {}, {i});
      Ok(s.(peers := s.peers[c := p.(pieces := p.pieces + {i})], availability := av))
  }

  /** onPeerHasAllPieces: the pieces counted so far are uncounted, and the peer joins the set. */
  function HasAll(s: State, c: PeerId): Outcome<State>
    requires c < |s.peers|
  {
    var p := s.peers[c];
    var av :- Adjust(s.availability, p.pieces, {});
    Ok(s.(peers := s.peers[c := p.(pieces := {}, sentHaveAll := true)], haveAll := s.haveAll + {c}, availability := av))
  }

  /** The pieces set in a bitfield, known excess ignored. */
  function BitfieldPieces(s: State, bf: seq<bool>): set<PieceIndex> {
    set i | 0 <= i < |bf| && i < s.numPieces && bf[i]
  }

  /** A Bitfield message, whole bytes long as the decoder produces it. */
  function Bitfield(s: State, c: PeerId, bf: seq<bool>): Outcome<State>
    requires c < |s.peers|
  {
    var p, bm := s.peers[c], BitfieldPieces(s, bf);
    if |bf| % 8 != 0 then Panic
    else if |bm| == s.numPieces then HasAll(s, c)
    else if p.sentHaveAll && (c !in s.haveAll || p.pieces != {}) then Panic
    else
      // What changes: gained pieces, and lost ones that were held before.
      var av :- Adjust(s.availability, p.pieces - bm, bm - p.pieces);
      Ok(s.(peers := s.peers[c := p.(pieces := bm, sentHaveAll := false)],
            haveAll := if p.sentHaveAll then s.haveAll - {c} else s.haveAll,
            availability := av))
  }

  /** Torrent.decPeerPieceAvailability. */
  function Uncount(s: State, c: PeerId): Outcome<State>
    requires c < |s.peers|
  {
    if c in s.haveAll then Ok(s.(haveAll := s.haveAll - {c}))
    else
      var av :- Adjust(s.availability, s.peers[c].pieces, {});
      Ok(s.(availability := av))
  }

  /** A HaveNone message. After a HaveAll this clears the flag but not the set. */
  function HaveNone(s: State, c: PeerId): Outcome<State>
    requires c < |s.peers|
  {
    var s1 :- if s.peers[c].sentHaveAll then Ok(s) else Uncount(s, c);
    Ok(s1.(peers := s.peers[c := s.peers[c].(pieces := {}, sentHaveAll := false)]))
  }

  function Within(pieces: set<PieceIndex>, begin: PieceIndex, end: PieceIndex): set<PieceIndex> {
    set i | i in pieces && begin <= i < end
  }

  /** webseedPeer.removeFilePieces: the pieces of one file leave a webseed's bitmap. */
  function RemovePieces(s: State, c: PeerId, begin: PieceIndex, end: PieceIndex): Outcome<State>
    requires c < |s.peers|
  {
    var p := s.peers[c];
    var gone := Within(p.pieces, begin, end);
    var av :- Adjust(s.availability, gone, {});
    Ok(s.(peers := s.peers[c := p.(pieces := p.pieces - gone)], availability := av))
  }

  /** Peer.close; closing again does nothing. */
  function Close(s: State, c: PeerId): Outcome<State>
    requires c < |s.peers|
  {
    if !s.peers[c].open then Ok(s)
    else
      var s1 :- Uncount(s, c);
      Ok(s1.(peers := s.peers[c := s.peers[c].(open := false)]))
  }

  /** A connection joins with nothing, a webseed with the pieces its client was given. */
  function Join(s: State, pieces: set<PieceIndex>): Outcome<State> {
    var av :- Adjust(s.availability, {}, pieces);
    Ok(s.(peers := s.peers + [Peer(true, pieces, false)], availability := av))
  }

  // ---------- the invariant ----------

  /** The open peers outside the have-all set whose bitmap holds a piece. */
  ghost function Holders(s: State, i: PieceIndex): set<PeerId> {
    set c | 0 <= c < |s.peers| && s.peers[c].open && c !in s.haveAll && i in s.peers[c].pieces
  }

  /** The have-all set is the open peers that said so, and holds no pieces one by one. */
  ghost predicate SetAgrees(s: State) {
    && (forall c :: c in s.haveAll ==> c < |s.peers|)
    && (forall c :: 0 <= c < |s.peers| ==> (c in s.haveAll <==> s.peers[c].open && s.peers[c].sentHaveAll))
    && (forall c :: 0 <= c < |s.peers| && s.peers[c].sentHaveAll ==> s.peers[c].pieces == {})
  }

  ghost predicate InRange(s: State) {
    && |s.availability| == s.numPieces
    && (forall c, i :: 0 <= c < |s.peers| && i in s.peers[c].pieces ==> i < s.numPieces)
  }

  ghost predicate Counted(s: State) {
    forall i :: 0 <= i < |s.availability| ==> s.availability[i] == |Holders(s, i)|
  }

  ghost predicate Inv(s: State) {
    SetAgrees(s) && InRange(s) && Counted(s)
  }

  /** The pieces for which a peer is counted. */
  ghost function CountedPieces(s: State, c: PeerId): set<PieceIndex>
    requires c < |s.peers|
  {
    if s.peers[c].open && c !in s.haveAll then s.peers[c].pieces else {}
  }

  /** The shape of every step: one peer's counted pieces change, and the counters are
      adjusted by the difference. Then no count underflows and all stay right. */
  lemma {:induction false} CountsFollow(s: State, s': State, c: PeerId, lose: set<PieceIndex>, gain: set<PieceIndex>)
    requires Inv(s) && c < |s.peers| && |s'.peers| == |s.peers|
    requires forall x :: 0 <= x < |s.peers| && x != c ==> s'.peers[x] == s.peers[x] && (x in s'.haveAll <==> x in s.haveAll)
    requires lose == CountedPieces(s, c) - CountedPieces(s', c) && gain == CountedPieces(s', c) - CountedPieces(s, c)
    requires forall i :: i in gain ==> i < |s.availability|
    ensures Adjust(s.availability, lose, gain).Ok?
    ensures s'.availability == Adjust(s.availability, lose, gain).value ==> Counted(s')
  {
    forall i | 0 <= i < |s.availability|
      ensures |Holders(s', i)| == |Holders(s, i)| - (if i in lose then 1 else 0) + (if i in gain then 1 else 0)
      ensures i in lose ==> s.availability[i] > 0
    {
      HoldersChange(s, s', c, i);
    }
  }

  lemma {:induction false} HoldersChange(s: State, s': State, c: PeerId, i: PieceIndex)
    requires c < |s.peers| && |s'.peers| == |s.peers|
    requires forall x :: 0 <= x < |s.peers| && x != c ==> s'.peers[x] == s.peers[x] && (x in s'.haveAll <==> x in s.haveAll)
    ensures var a, b := i in CountedPieces(s, c), i in CountedPieces(s', c);
            && |Holders(s', i)| == |Holders(s, i)| - (if a && !b then 1 else 0) + (if b && !a then 1 else 0)
            && (a ==> |Holders(s, i)| > 0)
  {
    var h, h' := Holders(s, i), Holders(s', i);
    assert forall x :: x != c ==> (x in h <==> x in h');
    assert c in h <==> i in CountedPieces(s, c);
    assert c in h' <==> i in CountedPieces(s', c);
    OneMember(h, h', c);
  }

  lemma {:induction false} OneMember(h: set<PeerId>, h': set<PeerId>, c: PeerId)
    requires forall x :: x != c ==> (x in h <==> x in h')
    ensures |h'| == |h| - (if c in h && c !in h' then 1 else 0) + (if c in h' && c !in h then 1 else 0)
    ensures c in h ==> |h| > 0
  {
    assert h' - {c} == h - {c};
    assert |h| == |h - {c}| + if c in h then 1 else 0;
    assert |h'| == |h' - {c}| + if c in h' then 1 else 0;
  }

  // ---------- every step keeps it ----------

  lemma {:induction false} HaveOk(s: State, c: PeerId, i: PieceIndex)
    requires Inv(s) && c < |s.peers| && s.peers[c].open
    ensures Have(s, c, i).Ok? && Inv(Have(s, c, i).value)
  {
    var p := s.peers[c];
    if i < s.numPieces && !PeerHasPiece(s, p, i) {
      var s1 := s.(peers := s.peers[c := p.(pieces := p.pieces + {i})]);
      CountsFollow(s, s1, c, {}, {i});
      CountsFollow(s, s1.(availability := Adjust(s.availability, {}, {i}).value), c, {}, {i});
    }
  }

  lemma {:induction false} HasAllOk(s: State, c: PeerId)
    requires Inv(s) && c < |s.peers| && s.peers[c].open
    ensures HasAll(s, c).Ok? && Inv(HasAll(s, c).value)
  {
    var p := s.peers[c];
    var s1 := s.(peers := s.peers[c := p.(pieces := {}, sentHaveAll := true)], haveAll := s.haveAll + {c});
    assert CountedPieces(s, c) - CountedPieces(s1, c) == p.pieces;
    CountsFollow(s, s1, c, p.pieces, {});
    CountsFollow(s, s1.(availability := Adjust(s.availability, p.pieces, {}).value), c, p.pieces, {});
  }

  lemma {:induction false} BitfieldOk(s: State, c: PeerId, bf: seq<bool>)
    requires Inv(s) && c < |s.peers| && s.peers[c].open && |bf| % 8 == 0
    ensures Bitfield(s, c, bf).Ok? && Inv(Bitfield(s, c, bf).value)
  {
    var p, bm := s.peers[c], BitfieldPieces(s, bf);
    if |bm| == s.numPieces {
      HasAllOk(s, c);
    } else {
      var s1 := s.(peers := s.peers[c := p.(pieces := bm, sentHaveAll := false)],
                   haveAll := if p.sentHaveAll then s.haveAll - {c} else s.haveAll);
      assert CountedPieces(s, c) == p.pieces && CountedPieces(s1, c) == bm;
      CountsFollow(s, s1, c, p.pieces - bm, bm - p.pieces);
      CountsFollow(s, s1.(availability := Adjust(s.availability, p.pieces - bm, bm - p.pieces).value), c, p.pieces - bm, bm - p.pieces);
    }
  }

  /** Pieces are taken back only once: from a peer still open, or none. */
  predicate CanRemove(s: State, c: PeerId, begin: PieceIndex, end: PieceIndex)
    requires c < |s.peers|
  {
    s.peers[c].open || Within(s.peers[c].pieces, begin, end) == {}
  }

  lemma {:induction false} RemovePiecesOk(s: State, c: PeerId, begin: PieceIndex, end: PieceIndex)
    requires Inv(s) && c < |s.peers| && CanRemove(s, c, begin, end)
    ensures RemovePieces(s, c, begin, end).Ok? && Inv(RemovePieces(s, c, begin, end).value)
  {
    var p := s.peers[c];
    var gone := Within(p.pieces, begin, end);
    var s1 := s.(peers := s.peers[c := p.(pieces := p.pieces - gone)]);
    assert CountedPieces(s, c) - CountedPieces(s1, c) == gone;
    CountsFollow(s, s1, c, gone, {});
    CountsFollow(s, s1.(availability := Adjust(s.availability, gone, {}).value), c, gone, {});
  }

  lemma {:induction false} NothingAdjusted(av: seq<int>)
    ensures Adjust(av, {}, {}) == Ok(av)
  {
    assert Adjust(av, {}, {}).value == av;
  }

  /** Closing an open peer takes back exactly what it was counted for. */
  lemma {:induction false} CloseOk(s: State, c: PeerId)
    requires Inv(s) && c < |s.peers|
    ensures Close(s, c).Ok? && Inv(Close(s, c).value)
  {
    if s.peers[c].open {
      var lose := CountedPieces(s, c);
      var s1 := s.(peers := s.peers[c := s.peers[c].(open := false)], haveAll := s.haveAll - {c});
      assert CountedPieces(s, c) - CountedPieces(s1, c) == lose && CountedPieces(s1, c) - CountedPieces(s, c) == {};
      CountsFollow(s, s1, c, lose, {});
      CountsFollow(s, s1.(availability := Adjust(s.availability, lose, {}).value), c, lose, {});
      NothingAdjusted(s.availability);
      if c !in s.haveAll { assert s.haveAll - {c} == s.haveAll; }
      assert Close(s, c) == Ok(s1.(availability := Adjust(s.availability, lose, {}).value));
    }
  }

  lemma {:induction false} HaveNoneOk(s: State, c: PeerId)
    requires Inv(s) && c < |s.peers| && s.peers[c].open && !s.peers[c].sentHaveAll
    ensures HaveNone(s, c).Ok? && Inv(HaveNone(s, c).value)
  {
    var p := s.peers[c];
    var s1 := s.(peers := s.peers[c := p.(pieces := {}, sentHaveAll := false)]);
    assert CountedPieces(s, c) - CountedPieces(s1, c) == p.pieces;
    CountsFollow(s, s1, c, p.pieces, {});
    CountsFollow(s, s1.(availability := Adjust(s.availability, p.pieces, {}).value), c, p.pieces, {});
  }

  lemma {:induction false} JoinOk(s: State, pieces: set<PieceIndex>)
    requires Inv(s) && forall i :: i in pieces ==> i < s.numPieces
    ensures Join(s, pieces).Ok? && Inv(Join(s, pieces).value)
  {
    var s1 := Join(s, pieces).value;
    forall i | 0 <= i < |s.availability|
      ensures |Holders(s1, i)| == |Holders(s, i)| + if i in pieces then 1 else 0
    {
      OneMember(Holders(s, i), Holders(s1, i), |s.peers|);
    }
  }

  // ---------- file pieces removed after the close ----------

  /** Taking a file's pieces from a webseed keeps the counts exactly when the webseed is open or has
      none of them. */
  lemma {:induction false} RemovePiecesExact(s: State, c: PeerId, begin: PieceIndex, end: PieceIndex)
    requires Inv(s) && c < |s.peers|
    ensures (RemovePieces(s, c, begin, end).Ok? && Inv(RemovePieces(s, c, begin, end).value))
            <==> CanRemove(s, c, begin, end)
  {
    var gone, o := Within(s.peers[c].pieces, begin, end), RemovePieces(s, c, begin, end);
    if CanRemove(s, c, begin, end) {
      RemovePiecesOk(s, c, begin, end);
    } else if o.Ok? {
      var i :| i in gone;
      assert Holders(o.value, i) == Holders(s, i);
      assert o.value.availability[i] == s.availability[i] - 1;
    }
  }

  /** What goes wrong otherwise: on a torrent of one piece, a webseed joins with it and closes,
      and a response of the file then missing takes the piece back again, which panics. */
  lemma {:induction false} RemoveAfterClose()
    ensures var s0 := State(1, [], {}, [0]);
            && Inv(s0) && Join(s0, {0}).Ok?
            && var s1 := Join(s0, {0}).value;
               && |s1.peers| == 1 && Close(s1, 0).Ok?
               && var s2 := Close(s1, 0).value;
                  |s2.peers| == 1 && Inv(s2) && RemovePieces(s2, 0, 0, 1).Panic?
  {
    var s0 := State(1, [], {}, [0]);
    assert Inv(s0) by { assert Holders(s0, 0) == {}; }
    JoinOk(s0, {0});
    var s1 := Join(s0, {0}).value;
    assert s1.availability == [1];
    CloseOk(s1, 0);
    var s2 := Close(s1, 0).value;
    assert s2.availability == [0];
    assert 0 in Within(s2.peers[0].pieces, 0, 1);
  }

  // ---------- HaveNone after HaveAll ----------

  /** A HaveNone keeps the have-all set in agreement with the flags exactly when the
      peer had not said it has everything. */
  lemma {:induction false} HaveNoneKeepsAgreement(s: State, c: PeerId)
    requires Inv(s) && c < |s.peers| && s.peers[c].open
    ensures HaveNone(s, c).Ok?
    ensures Inv(HaveNone(s, c).value) <==> !s.peers[c].sentHaveAll
  {
    if s.peers[c].sentHaveAll {
      var s1 := HaveNone(s, c).value;
      assert c in s1.haveAll && !s1.peers[c].sentHaveAll;
    } else {
      HaveNoneOk(s, c);
    }
  }

  /** What goes wrong otherwise: on a torrent of one piece, HaveAll, HaveNone, Have and
      close leave a count of one with no peer open, which Torrent.close panics on. */
  lemma {:induction false} HaveNoneLeaks()
    ensures var s0 := State(1, [Peer(true, {}, false)], {}, [0]);
            && Inv(s0) && HasAll(s0, 0).Ok?
            && var s1 := HasAll(s0, 0).value;
               && |s1.peers| == 1 && HaveNone(s1, 0).Ok?
               && var s2 := HaveNone(s1, 0).value;
                  && |s2.peers| == 1 && Have(s2, 0, 0).Ok?
                  && var s3 := Have(s2, 0, 0).value;
                     && |s3.peers| == 1 && Close(s3, 0).Ok?
                     && !Close(s3, 0).value.peers[0].open && Close(s3, 0).value.availability == [1]
  {
    var s0 := State(1, [Peer(true, {}, false)], {}, [0]);
    assert Holders(s0, 0) == {};
    NothingAdjusted([0]);
    var s1 := HasAll(s0, 0).value;
    assert s1 == State(1, [Peer(true, {}, true)], {0}, [0]);
    var s2 := HaveNone(s1, 0).value;
    assert s2 == State(1, [Peer(true, {}, false)], {0}, [0]);
    assert Adjust([0], {}, {0}).value == [1];
    var s3 := Have(s2, 0, 0).value;
    assert s3 == State(1, [Peer(true, {0}, false)], {0}, [1]);
  }

  // ---------- runs ----------

  datatype Op =
    | JoinOp(pieces: set<PieceIndex>)
    | HaveOp(c: PeerId, i: PieceIndex)
    | BitfieldOp(c: PeerId, bf: seq<bool>)
    | HaveAllOp(c: PeerId)
    | HaveNoneOp(c: PeerId)
    | RemovePiecesOp(c: PeerId, begin: PieceIndex, end: PieceIndex)
    | CloseOp(c: PeerId)

  /** What the callers see to: messages come from open peers, a bitfield is whole bytes, and a
      webseed's pieces are the torrent's. */
  ghost predicate Offered(s: State, op: Op) {
    match op
    case JoinOp(pieces) => forall i :: i in pieces ==> i < s.numPieces
    case HaveOp(c, _) => c < |s.peers| && s.peers[c].open
    case BitfieldOp(c, bf) => c < |s.peers| && s.peers[c].open && |bf| % 8 == 0
    case HaveAllOp(c) => c < |s.peers| && s.peers[c].open
    case HaveNoneOp(c) => c < |s.peers| && s.peers[c].open
    case RemovePiecesOp(c, _, _) => c < |s.peers|
    case CloseOp(c) => c < |s.peers|
  }

  /** What they do not: HaveNone does not follow HaveAll, and only pieces still counted are
      removed. */
  ghost predicate Allowed(s: State, op: Op) {
    && Offered(s, op)
    && (op.HaveNoneOp? ==> !s.peers[op.c].sentHaveAll)
    && (op.RemovePiecesOp? ==> CanRemove(s, op.c, op.begin, op.end))
  }

  function Step(s: State, op: Op): Outcome<State>
    requires !op.JoinOp? ==> op.c < |s.peers|
  {
    match op
    case JoinOp(pieces) => Join(s, pieces)
    case HaveOp(c, i) => Have(s, c, i)
    case BitfieldOp(c, bf) => Bitfield(s, c, bf)
    case HaveAllOp(c) => HasAll(s, c)
    case HaveNoneOp(c) => HaveNone(s, c)
    case RemovePiecesOp(c, begin, end) => RemovePieces(s, c, begin, end)
    case CloseOp(c) => Close(s, c)
  }

  lemma {:induction false} StepOk(s: State, op: Op)
    requires Inv(s) && Allowed(s, op)
    ensures Step(s, op).Ok? && Inv(Step(s, op).value)
  {
    match op
    case JoinOp(pieces) => JoinOk(s, pieces);
    case HaveOp(c, i) => HaveOk(s, c, i);
    case BitfieldOp(c, bf) => BitfieldOk(s, c, bf);
    case HaveAllOp(c) => HasAllOk(s, c);
    case HaveNoneOp(c) => HaveNoneOk(s, c);
    case RemovePiecesOp(c, begin, end) => RemovePiecesOk(s, c, begin, end);
    case CloseOp(c) => CloseOk(s, c);
  }

  /** Of what may be offered, exactly that keeps the invariant. */
  lemma {:induction false} StepExact(s: State, op: Op)
    requires Inv(s) && Offered(s, op)
    ensures (Step(s, op).Ok? && Inv(Step(s, op).value)) <==> Allowed(s, op)
  {
    if Allowed(s, op) {
      StepOk(s, op);
    } else if op.HaveNoneOp? {
      HaveNoneKeepsAgreement(s, op.c);
    } else {
      RemovePiecesExact(s, op.c, op.begin, op.end);
    }
  }

  // ---------- what a peer has is what it said ----------

  ghost predicate Has(s: State, c: PeerId, i: PieceIndex) {
    c < |s.peers| && i < s.numPieces && (s.peers[c].sentHaveAll || i in s.peers[c].pieces)
  }

  /** Whether a peer has a piece after a step, from what it had and what the step says. */
  ghost predicate Said(s: State, op: Op, c: PeerId, i: PieceIndex) {
    match op
    case JoinOp(pieces) => if c == |s.peers| then i in pieces else Has(s, c, i)
    case HaveOp(d, j) => Has(s, c, i) || (c == d && i == j)
    case BitfieldOp(d, bf) => if c == d then i < |bf| && bf[i] else Has(s, c, i)
    case HaveAllOp(d) => c == d || Has(s, c, i)
    case HaveNoneOp(d) => c != d && Has(s, c, i)
    case RemovePiecesOp(d, begin, end) =>
      Has(s, c, i) && !(c == d && begin <= i < end && c < |s.peers| && !s.peers[c].sentHaveAll)
    case CloseOp(_) => Has(s, c, i)
  }

  ghost predicate IsOpen(s: State, c: PeerId) {
    c < |s.peers| && s.peers[c].open
  }

  /** A set of as many pieces as there are is all of them. */
  lemma {:induction false} AllPieces(pieces: set<PieceIndex>, n: nat)
    requires (forall i :: i in pieces ==> i < n) && |pieces| == n
    ensures forall i :: 0 <= i < n ==> i in pieces
  {
    SubsetCard(pieces, Below(n));
  }

  lemma {:induction false} BitfieldSays(s: State, c: PeerId, bf: seq<bool>, i: PieceIndex)
    requires Inv(s) && c < |s.peers| && Bitfield(s, c, bf).Ok? && i < s.numPieces
    ensures Has(Bitfield(s, c, bf).value, c, i) <==> i < |bf| && bf[i]
  {
    var bm := BitfieldPieces(s, bf);
    if |bm| == s.numPieces {
      AllPieces(bm, s.numPieces);
      assert i in bm;
    }
  }

  /** Each step changes what the peers have exactly as the message, the removal or the join says. Only a join
      and a close open and close a peer. */
  lemma {:induction false} StepSays(s: State, op: Op, c: PeerId, i: PieceIndex)
    requires Inv(s) && Offered(s, op) && Step(s, op).Ok? && i < s.numPieces
    ensures Has(Step(s, op).value, c, i) <==> Said(s, op, c, i)
    ensures Step(s, op).value.numPieces == s.numPieces
    ensures IsOpen(Step(s, op).value, c) <==> (if op.JoinOp? && c == |s.peers| then true else IsOpen(s, c) && op != CloseOp(c))
  {
    match op
    case BitfieldOp(d, bf) => BitfieldSays(s, d, bf, i);
    case HaveOp(d, j) => if |s.peers[d].pieces| == s.numPieces { AllPieces(s.peers[d].pieces, s.numPieces); }
    case _ =>
  }

  ghost predicate IsRun(s: State, ops: seq<Op>)
    decreases |ops|
  {
    ops == [] || (Allowed(s, ops[0]) && (Step(s, ops[0]).Ok? ==> IsRun(Step(s, ops[0]).value, ops[1..])))
  }

  ghost function Run(s: State, ops: seq<Op>): Outcome<State>
    requires IsRun(s, ops)
    decreases |ops|
  {
    if ops == [] then Ok(s)
    else if Step(s, ops[0]).Panic? then Panic
    else Run(Step(s, ops[0]).value, ops[1..])
  }

  /** Every step is offered, none panics, and the invariant holds after each. */
  ghost predicate AlwaysInv(s: State, ops: seq<Op>)
    decreases |ops|
  {
    && Inv(s)
    && (ops != [] ==> Offered(s, ops[0]) && Step(s, ops[0]).Ok? && AlwaysInv(Step(s, ops[0]).value, ops[1..]))
  }

  /** So the runs that keep it all along are exactly the runs of allowed steps. */
  lemma {:induction false} RunsExact(s: State, ops: seq<Op>)
    requires Inv(s)
    ensures AlwaysInv(s, ops) <==> IsRun(s, ops)
    decreases |ops|
  {
    if ops != [] && Offered(s, ops[0]) {
      StepExact(s, ops[0]);
      if Allowed(s, ops[0]) { RunsExact(Step(s, ops[0]).value, ops[1..]); }
    }
  }

  lemma {:induction false} RunOk(s: State, ops: seq<Op>)
    requires Inv(s) && IsRun(s, ops)
    ensures Run(s, ops).Ok? && Inv(Run(s, ops).value)
    decreases |ops|
  {
    if ops != [] {
      StepOk(s, ops[0]);
      RunOk(Step(s, ops[0]).value, ops[1..]);
    }
  }

  function Initial(numPieces: nat): State {
    State(numPieces, [], {}, seq(numPieces, _ => 0))
  }

  /** Main result: in every run no decrement underflows and no panic is reached; each
      count is the number of open peers outside the have-all set whose bitmap holds the
      piece; and once every peer is closed all counts are zero and the set is empty. */
  lemma {:induction false} AvailabilityCounts(numPieces: nat, ops: seq<Op>)
    requires IsRun(Initial(numPieces), ops)
    ensures Run(Initial(numPieces), ops).Ok?
    ensures var s := Run(Initial(numPieces), ops).value;
            && (forall i :: 0 <= i < |s.availability| ==> s.availability[i] == |Holders(s, i)|)
            && ((forall c :: 0 <= c < |s.peers| ==> !s.peers[c].open) ==>
                  s.haveAll == {} && forall i :: 0 <= i < |s.availability| ==> s.availability[i] == 0)
  {
    var s0 := Initial(numPieces);
    assert Counted(s0) by { assert forall i :: Holders(s0, i) == {}; }
    RunOk(s0, ops);
    var s := Run(s0, ops).value;
    if forall c :: 0 <= c < |s.peers| ==> !s.peers[c].open {
      assert forall i :: Holders(s, i) == {};
    }
  }

  // ---------- as it runs ----------

  /** Counters updated in place, bitmaps walked piece by piece in ascending order. */
  class Pieces {
    var peers: seq<Peer>
    var haveAll: set<PeerId>
    const availability: array<int>

    function Now(): State
      reads this, availability
    {
      State(availability.Length, peers, haveAll, availability[..])
    }

    constructor (numPieces: nat)
      ensures Now() == Initial(numPieces) && fresh(availability)
    {
      peers, haveAll := [], {};
      availability := new int[numPieces](_ => 0);
    }

    /** The walk over changed pieces: a piece held before is lost, any other is gained. */
    method Walk(changed: set<PieceIndex>, held: set<PieceIndex>)
      requires Adjust(availability[..], changed * held, changed - held).Ok?
      modifies availability
      ensures Ok(availability[..]) == Adjust(old(availability[..]), changed * held, changed - held)
    {
      for x := 0 to availability.Length
        invariant forall i :: x <= i < availability.Length ==> availability[i] == old(availability[i])
        invariant forall i :: 0 <= i < x ==> availability[i] == Shift(old(availability[i]), i, changed * held, changed - held)
      {
        if x in changed {
          if x in held {
            assert old(availability[..])[x] == availability[x];
            assert availability[x] > 0;              // decPieceAvailability's panic
            availability[x] := availability[x] - 1;
          } else {
            availability[x] := availability[x] + 1;
          }
        }
      }
      assert availability[..] == Adjust(old(availability[..]), changed * held, changed - held).value;
    }

    method PeerSentBitfield(c: PeerId, bf: seq<bool>)
      requires Inv(Now()) && c < |peers| && peers[c].open && |bf| % 8 == 0
      modifies this, availability
      ensures Ok(Now()) == Bitfield(old(Now()), c, bf) && Inv(Now())
      ensures forall i :: 0 <= i < availability.Length ==> (Has(Now(), c, i) <==> i < |bf| && bf[i])
    {
      BitfieldOk(Now(), c, bf);
      forall i | 0 <= i < availability.Length
        ensures Has(Bitfield(Now(), c, bf).value, c, i) <==> i < |bf| && bf[i]
      {
        BitfieldSays(Now(), c, bf, i);
      }
      var bm := BitfieldPieces(Now(), bf);
      var p := peers[c];
      if |bm| == availability.Length {
        OnPeerHasAllPieces(c);
        return;
      }
      var changed := bm;
      if p.sentHaveAll {
        assert c in haveAll && p.pieces == {};
        haveAll := haveAll - {c};
      } else {
        changed := (bm - p.pieces) + (p.pieces - bm);   // Xor
      }
      assert changed * p.pieces == p.pieces - bm && changed - p.pieces == bm - p.pieces;
      Walk(changed, p.pieces);
      peers := peers[c := p.(pieces := bm, sentHaveAll := false)];
    }

    method OnPeerHasAllPieces(c: PeerId)
      requires Inv(Now()) && c < |peers| && peers[c].open
      modifies this, availability
      ensures Ok(Now()) == HasAll(old(Now()), c) && Inv(Now())
    {
      HasAllOk(Now(), c);
      var p := peers[c];
      assert p.pieces * p.pieces == p.pieces && p.pieces - p.pieces == {};
      Walk(p.pieces, p.pieces);
      haveAll := haveAll + {c};
      peers := peers[c := p.(pieces := {}, sentHaveAll := true)];
    }

    method ClosePeer(c: PeerId)
      requires Inv(Now()) && c < |peers|
      modifies this, availability
      ensures Ok(Now()) == Close(old(Now()), c) && Inv(Now())
    {
      CloseOk(Now(), c);
      if !peers[c].open { return; }
      if c in haveAll {
        haveAll := haveAll - {c};
      } else {
        var ps := peers[c].pieces;
        assert ps * ps == ps && ps - ps == {};
        Walk(ps, ps);
      }
      peers := peers[c := peers[c].(open := false)];
    }
  }
}
