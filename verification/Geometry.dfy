/** Request geometry of a v1 torrent: pieces, chunks, request indexes and byte offsets
    (torrent.go, misc.go, reader.go).

    Piece lengths and request indexes are 32-bit in the original; `Narrow` says when none
    of these computations wraps. */
module Geometry {
  import opened Arithmetic
  import opened Bytes
  import opened Outcomes

  /** Rounding up, as intCeilDiv does. */
  function CeilDiv(a: nat, b: nat): nat
    requires b > 0
  {
    (a + b - 1) / b
  }

  lemma {:induction false} CeilDivBounds(a: nat, b: nat)
    requires a > 0 && b > 0
    ensures var k := CeilDiv(a, b); k > 0 && (k - 1) * b < a <= k * b
  {
    var k := CeilDiv(a, b);
    assert a + b - 1 == k * b + (a + b - 1) % b;
    assert (k - 1) * b == k * b - b;
  }

  /** q whole units of n, and r more. */
  function Compose(q: nat, n: nat, r: nat): nat {
    q * n + r
  }

  /** Request: piece, offset in the piece, length. */
  datatype Request = Request(index: nat, begin: nat, length: nat)

  datatype Torrent = Torrent(length: nat, pieceLength: nat, chunkSize: nat) {
    predicate Valid() {
      length > 0 && pieceLength > 0 && chunkSize > 0
    }

    /** The original's 32-bit integers are wide enough for this torrent. */
    predicate Narrow()
      requires Valid()
    {
      pieceLength + chunkSize <= UINT32 && NumPieces() * ChunksPerRegularPiece() <= UINT32
    }

    /** Pieces cover the length, as validateInfo requires of a v1 info. */
    function NumPieces(): nat
      requires pieceLength > 0
    {
      CeilDiv(length, pieceLength)
    }

    function ChunksPerRegularPiece(): nat
      requires chunkSize > 0
    {
      CeilDiv(pieceLength, chunkSize)
    }

    function PieceLength(piece: nat): nat
      requires pieceLength > 0
    {
      if piece == NumPieces() - 1 && length % pieceLength != 0 then length % pieceLength else pieceLength
    }

    function NumChunks(piece: nat): nat
      requires pieceLength > 0 && chunkSize > 0
    {
      CeilDiv(PieceLength(piece), chunkSize)
    }

    /** maxEndRequest. */
    function MaxEnd(): nat
      requires chunkSize > 0
    {
      CeilDiv(length, chunkSize)
    }

    /** The request indexes that stand for a chunk. */
    predicate ValidIndex(ri: nat)
      requires Valid()
    {
      var per := ChunksPerRegularPiece();
      per > 0 && ri / per < NumPieces() && ri % per < NumChunks(ri / per)
    }

    /** requestIndexToRequest; a chunk that begins past its piece is a panic. */
    function ToRequest(ri: nat): Outcome<Request>
      requires Valid()
    {
      var per := ChunksPerRegularPiece();
      if per == 0 then Panic
      else
        var piece, chunk := ri / per, ri % per;
        var begin, plen := chunk * chunkSize, PieceLength(piece);
        if begin >= plen then Panic
        else Ok(Request(piece, begin, if chunkSize < plen - begin then chunkSize else plen - begin))
    }

    function FromRequest(r: Request): nat
      requires Valid()
    {
      Compose(r.index, ChunksPerRegularPiece(), r.begin / chunkSize)
    }

    /** checkValidReceiveChunk: the chunk must be exactly one we would request. */
    predicate ValidChunk(r: Request)
      requires Valid()
    {
      && r.index < NumPieces()
      && r.begin < PieceLength(r.index)
      && ToRequest(FromRequest(r)) == Ok(r)
    }

    /** torrentRequestOffset. */
    function Offset(r: Request): nat {
      r.index * pieceLength + r.begin
    }

    /** torrentOffsetRequest. */
    function OffsetRequest(off: int): Option<Request>
      requires Valid()
    {
      if off < 0 || off >= length then None
      else
        var index: nat, rest: nat := off / pieceLength, off % pieceLength;
        var chunk: nat := rest / chunkSize;
        var begin := Compose(chunk, chunkSize, 0);
        var pieceLeft := pieceLength - begin;
        var l1 := if chunkSize > pieceLeft then pieceLeft else chunkSize;
        var torrentLeft := length - index * pieceLength - begin;
        var l2 := if l1 > torrentLeft then torrentLeft else l1;
        if l2 < 0 then None else Some(Request(index, begin, l2))
    }
  }

  // ---------- pieces ----------

  /** Rounding up counts a last, shorter part. */
  lemma {:induction false} LastPart(length: nat, p: nat, n: nat)
    requires length > 0 && p > 0 && n == CeilDiv(length, p)
    ensures n > 0 && (n - 1) * p + (if length % p != 0 then length % p else p) == length
  {
    var q, r := length / p, length % p;
    assert length == q * p + r;
    if r == 0 {
      DivModUnique(length + p - 1, p, q, p - 1);
      MulPlus(q - 1, 1, p);
    } else {
      MulPlus(q, 1, p);
      DivModUnique(length + p - 1, p, q + 1, r - 1);
    }
  }

  lemma {:induction false} PieceSpan(t: Torrent, piece: nat)
    requires t.Valid() && piece < t.NumPieces()
    ensures 0 < t.PieceLength(piece) <= t.pieceLength
    ensures piece * t.pieceLength + t.PieceLength(piece) <= t.length
    ensures piece < t.NumPieces() - 1 ==> t.PieceLength(piece) == t.pieceLength
    ensures piece == t.NumPieces() - 1 ==> piece * t.pieceLength + t.PieceLength(piece) == t.length
  {
    var p, n := t.pieceLength, t.NumPieces();
    LastPart(t.length, p, n);
    if piece < n - 1 { MulLess(piece, n - 1, p); }
  }

  lemma {:induction false} ChunksFit(t: Torrent, piece: nat)
    requires t.Valid() && piece < t.NumPieces()
    ensures 0 < t.NumChunks(piece) <= t.ChunksPerRegularPiece()
  {
    PieceSpan(t, piece);
    CeilDivBounds(t.PieceLength(piece), t.chunkSize);
    CeilDivBounds(t.pieceLength, t.chunkSize);
    var k, per := t.NumChunks(piece), t.ChunksPerRegularPiece();
    MulCancel(k - 1, per, t.chunkSize);
  }

  /** A chunk number is a piece's exactly when it begins inside the piece. */
  lemma {:induction false} ChunkBegins(t: Torrent, piece: nat, chunk: nat)
    requires t.Valid() && piece < t.NumPieces()
    ensures chunk < t.NumChunks(piece) <==> chunk * t.chunkSize < t.PieceLength(piece)
  {
    PieceSpan(t, piece);
    CeilDivBounds(t.PieceLength(piece), t.chunkSize);
    var k := t.NumChunks(piece);
    if chunk < k { MulMono(chunk, k - 1, t.chunkSize, t.chunkSize); } else { MulMono(k, chunk, t.chunkSize, t.chunkSize); }
  }

  // ---------- indexes and requests ----------

  /** An index made of a piece and a chunk comes apart again. */
  lemma {:induction false} IndexParts(t: Torrent, piece: nat, chunk: nat)
    requires t.Valid() && piece < t.NumPieces() && chunk < t.NumChunks(piece)
    ensures var ri, per := piece * t.ChunksPerRegularPiece() + chunk, t.ChunksPerRegularPiece();
            per > 0 && ri / per == piece && ri % per == chunk && t.ValidIndex(ri)
  {
    ChunksFit(t, piece);
    DivModUnique(piece * t.ChunksPerRegularPiece() + chunk, t.ChunksPerRegularPiece(), piece, chunk);
  }

  /** An index of one of the pieces converts without panic exactly if it is valid. */
  lemma {:induction false} ToRequestExact(t: Torrent, ri: nat)
    requires t.Valid() && t.ChunksPerRegularPiece() > 0 && ri / t.ChunksPerRegularPiece() < t.NumPieces()
    ensures t.ToRequest(ri).Ok? <==> t.ValidIndex(ri)
  {
    var per := t.ChunksPerRegularPiece();
    ChunkBegins(t, ri / per, ri % per);
    hide CeilDiv;
  }

  /** Every valid index converts without panic to a request that is accepted and converts
      back to it. */
  lemma {:induction false} IndexRoundTrip(t: Torrent, ri: nat)
    requires t.Valid() && t.ValidIndex(ri)
    ensures t.ToRequest(ri).Ok? && t.FromRequest(t.ToRequest(ri).value) == ri && t.ValidChunk(t.ToRequest(ri).value)
  {
    var per := t.ChunksPerRegularPiece();
    var piece, chunk := ri / per, ri % per;
    ChunkBegins(t, piece, chunk);
    MulMod(chunk, t.chunkSize);
    assert ri == piece * per + chunk;
  }

  /** Every accepted request comes from exactly one valid index. */
  lemma {:induction false} RequestRoundTrip(t: Torrent, r: Request)
    requires t.Valid() && t.ValidChunk(r)
    ensures t.ValidIndex(t.FromRequest(r)) && t.ToRequest(t.FromRequest(r)) == Ok(r)
    ensures forall ri: nat :: t.ValidIndex(ri) && t.ToRequest(ri) == Ok(r) ==> ri == t.FromRequest(r)
  {
    var chunk := r.begin / t.chunkSize;
    assert chunk * t.chunkSize <= r.begin;
    ChunkBegins(t, r.index, chunk);
    IndexParts(t, r.index, chunk);
    forall ri: nat | t.ValidIndex(ri) && t.ToRequest(ri) == Ok(r)
      ensures ri == t.FromRequest(r)
    {
      IndexRoundTrip(t, ri);
    }
  }

  // ---------- bytes ----------

  /** The chunk of index ri covers byte off of the torrent. */
  predicate Covers(t: Torrent, ri: nat, off: int)
    requires t.Valid()
  {
    && t.ValidIndex(ri) && t.ToRequest(ri).Ok?
    && var r := t.ToRequest(ri).value; t.Offset(r) <= off < t.Offset(r) + r.length
  }

  /** The index of the chunk at a byte offset. */
  function IndexAt(t: Torrent, off: nat): nat
    requires t.Valid()
  {
    Compose(off / t.pieceLength, t.ChunksPerRegularPiece(), off % t.pieceLength / t.chunkSize)
  }

  lemma {:induction false} OffsetPiece(t: Torrent, off: nat) returns (piece: nat, o: nat, base: nat)
    requires t.Valid() && off < t.length
    ensures piece == off / t.pieceLength && o == off % t.pieceLength && base == piece * t.pieceLength
    ensures piece < t.NumPieces() && off == base + o && o < t.PieceLength(piece)
  {
    var n := t.NumPieces();
    piece, o := Parts(off, t.pieceLength);
    base := piece * t.pieceLength;
    CeilDivBounds(t.length, t.pieceLength);
    MulCancel(piece, n, t.pieceLength);
    PieceSpan(t, piece);
    hide *;
  }

  /** What is left of the torrent from a piece on, clipped to a piece, is that piece. */
  lemma {:induction false} PieceLeft(t: Torrent, piece: nat)
    requires t.Valid() && piece < t.NumPieces()
    ensures var left := t.length - piece * t.pieceLength;
            t.PieceLength(piece) == if t.pieceLength < left then t.pieceLength else left
  {
    PieceSpan(t, piece);
  }

  lemma {:induction false} ChunkAt(t: Torrent, off: nat) returns (piece: nat, base: nat, chunk: nat, begin: nat)
    requires t.Valid() && off < t.length
    ensures piece == off / t.pieceLength && base == piece * t.pieceLength
    ensures chunk == off % t.pieceLength / t.chunkSize && begin == chunk * t.chunkSize
    ensures piece < t.NumPieces() && chunk < t.NumChunks(piece)
    ensures base + begin <= off < base + begin + t.chunkSize && off < base + t.PieceLength(piece)
  {
    var o, rest;
    piece, o, base := OffsetPiece(t, off);
    chunk, rest := Parts(o, t.chunkSize);
    begin := chunk * t.chunkSize;
    ChunkBegins(t, piece, chunk);
    hide *;
  }

  lemma {:induction false} ToRequestIs(t: Torrent, ri: nat, piece: nat, chunk: nat, begin: nat)
    requires t.Valid() && t.ChunksPerRegularPiece() > 0
    requires ri / t.ChunksPerRegularPiece() == piece && ri % t.ChunksPerRegularPiece() == chunk
    requires begin == chunk * t.chunkSize < t.PieceLength(piece)
    ensures var left := t.PieceLength(piece) - begin;
            t.ToRequest(ri) == Ok(Request(piece, begin, if t.chunkSize < left then t.chunkSize else left))
  {
  }

  lemma {:induction false} OffsetRequestIs(t: Torrent, off: nat, piece: nat, base: nat, chunk: nat, begin: nat)
    requires t.Valid() && off < t.length && piece == off / t.pieceLength && base == piece * t.pieceLength
    requires chunk == off % t.pieceLength / t.chunkSize && begin == chunk * t.chunkSize
    ensures var l1 := if t.chunkSize > t.pieceLength - begin then t.pieceLength - begin else t.chunkSize;
            var l2 := if l1 > t.length - base - begin then t.length - base - begin else l1;
            l2 >= 0 ==> t.OffsetRequest(off) == Some(Request(piece, begin, l2))
  {
  }

  lemma {:induction false} CoversIs(t: Torrent, ri: nat, off: nat, r: Request, base: nat)
    requires t.Valid() && t.ValidIndex(ri) && t.ToRequest(ri) == Ok(r) && base == r.index * t.pieceLength
    requires base + r.begin <= off < base + r.begin + r.length
    ensures Covers(t, ri, off)
  {
  }

  /** torrentOffsetRequest returns the request of the chunk covering the offset, which is
      the request of the index there. */
  lemma {:induction false} OffsetRequestCovers(t: Torrent, off: nat)
    requires t.Valid() && off < t.length
    ensures Covers(t, IndexAt(t, off), off)
    ensures t.OffsetRequest(off).Some? && t.ToRequest(IndexAt(t, off)) == Ok(t.OffsetRequest(off).value)
  {
    var piece, base, chunk, begin := ChunkAt(t, off);
    assert IndexAt(t, off) == Compose(piece, t.ChunksPerRegularPiece(), chunk);
    IndexParts(t, piece, chunk);
    PieceLeft(t, piece);
    hide CeilDiv, Covers;
    AtOffset(t, off, piece, base, chunk, begin, IndexAt(t, off));
  }

  /** The same, with its parts named. */
  lemma {:induction false} AtOffset(t: Torrent, off: nat, piece: nat, base: nat, chunk: nat, begin: nat, ri: nat)
    requires t.Valid() && off < t.length && piece == off / t.pieceLength && base == piece * t.pieceLength
    requires chunk == off % t.pieceLength / t.chunkSize && begin == chunk * t.chunkSize
    requires t.ChunksPerRegularPiece() > 0 && t.ValidIndex(ri)
    requires ri / t.ChunksPerRegularPiece() == piece && ri % t.ChunksPerRegularPiece() == chunk
    requires base + begin <= off < base + begin + t.chunkSize && off < base + t.PieceLength(piece)
    requires var left := t.length - base; t.PieceLength(piece) == if t.pieceLength < left then t.pieceLength else left
    ensures Covers(t, ri, off) && t.OffsetRequest(off).Some? && t.ToRequest(ri) == Ok(t.OffsetRequest(off).value)
  {
    ToRequestIs(t, ri, piece, chunk, begin);
    OffsetRequestIs(t, off, piece, base, chunk, begin);
    var left := t.PieceLength(piece) - begin;
    CoversIs(t, ri, off, Request(piece, begin, if t.chunkSize < left then t.chunkSize else left), base);
    hide *;
  }

  lemma {:induction false} CoverRange(t: Torrent, ri: nat, off: nat, piece: nat, chunk: nat, r: Request)
    requires t.Valid() && Covers(t, ri, off) && t.ToRequest(ri) == Ok(r)
    requires piece == ri / t.ChunksPerRegularPiece() && chunk == ri % t.ChunksPerRegularPiece()
    ensures piece < t.NumPieces() && r.index == piece && r.begin == chunk * t.chunkSize
    ensures r.length <= t.chunkSize && r.begin + r.length <= t.PieceLength(piece)
    ensures piece * t.pieceLength + r.begin <= off < piece * t.pieceLength + r.begin + r.length
    ensures ri == Compose(piece, t.ChunksPerRegularPiece(), chunk)
  {
  }

  /** No other chunk covers it: the byte ranges of the valid indexes partition the torrent. */
  lemma {:induction false} CoverUnique(t: Torrent, ri: nat, off: nat)
    requires t.Valid() && Covers(t, ri, off)
    ensures off < t.length && ri == IndexAt(t, off)
  {
    var per, r := t.ChunksPerRegularPiece(), t.ToRequest(ri).value;
    var piece, chunk := ri / per, ri % per;
    CoverRange(t, ri, off, piece, chunk, r);
    PieceSpan(t, piece);
    IndexIs(t, ri, off, piece, chunk, r.length);
  }

  lemma {:induction false} IndexIs(t: Torrent, ri: nat, off: nat, piece: nat, chunk: nat, length: nat)
    requires t.Valid() && ri == Compose(piece, t.ChunksPerRegularPiece(), chunk)
    requires length <= t.chunkSize && chunk * t.chunkSize + length <= t.PieceLength(piece) <= t.pieceLength
    requires var begin := piece * t.pieceLength + chunk * t.chunkSize; begin <= off < begin + length
    ensures ri == IndexAt(t, off)
  {
    PlaceOf(off, t.pieceLength, piece, t.chunkSize, chunk, length, t.PieceLength(piece));
  }

  /** Where an offset is, from a range that holds it. */
  lemma {:induction false} PlaceOf(off: nat, p: nat, piece: nat, c: nat, chunk: nat, length: nat, pieceLength: nat)
    requires p > 0 && c > 0 && piece * p + chunk * c <= off < piece * p + chunk * c + length
    requires length <= c && chunk * c + length <= pieceLength <= p
    ensures off / p == piece && off % p / c == chunk
  {
    var o := off - piece * p;
    DivModUnique(off, p, piece, o);
    DivModUnique(o, c, chunk, o - chunk * c);
  }

  lemma {:induction false} ComposeBelow(q: nat, n: nat, r: nat, count: nat, bound: nat)
    requires q < count && r < n && count * n <= bound
    ensures Compose(q, n, r) < bound && q < bound
  {
    MulLess(q, count, n);
    MulMono(q, q, 1, n);
  }

  lemma {:induction false} ChunkInPiece(t: Torrent, ri: nat)
    requires t.Valid() && t.ValidIndex(ri)
    ensures t.ToRequest(ri).Ok?
    ensures var r := t.ToRequest(ri).value; r.index == ri / t.ChunksPerRegularPiece() && r.begin + r.length <= t.pieceLength
  {
    IndexRoundTrip(t, ri);
    PieceSpan(t, ri / t.ChunksPerRegularPiece());
  }

  /** Every index and every field of a request that stands for a chunk fits in 32 bits. */
  lemma {:induction false} NoWrap(t: Torrent, ri: nat)
    requires t.Valid() && t.Narrow() && t.ValidIndex(ri)
    ensures ri < UINT32 && t.ToRequest(ri).Ok?
    ensures var r := t.ToRequest(ri).value; r.index < UINT32 && r.begin + r.length < UINT32
  {
    var per := t.ChunksPerRegularPiece();
    ChunkInPiece(t, ri);
    ChunksFit(t, ri / per);
    ComposeBelow(ri / per, per, ri % per, t.NumPieces(), UINT32);
    assert Compose(ri / per, per, ri % per) == ri;
  }

  // ---------- the end of the requests ----------

  lemma {:induction false} CeilDivPlus(q: nat, a: nat, b: nat)
    requires b > 0
    ensures CeilDiv(q * b + a, b) == q + CeilDiv(a, b)
  {
    var x := a + b - 1;
    assert (q + x / b) * b == q * b + x / b * b;
    DivModUnique(q * b + x, b, q + x / b, x % b);
  }

  /** An index below the end of requests starts, as if every chunk were full, within the
      torrent. */
  lemma {:induction false} BelowCeilDiv(ri: nat, a: nat, b: nat)
    requires b > 0 && a > 0 && ri < CeilDiv(a, b)
    ensures ri * b < a
  {
    CeilDivBounds(a, b);
    MulMono(ri, CeilDiv(a, b) - 1, b, b);
  }

  /** A piece has no more bytes than its chunks would hold. */
  lemma {:induction false} ChunksHold(t: Torrent, pieces: nat)
    requires t.Valid()
    ensures pieces * t.pieceLength <= pieces * t.ChunksPerRegularPiece() * t.chunkSize
  {
    CeilDivBounds(t.pieceLength, t.chunkSize);
    var per := t.ChunksPerRegularPiece();
    MulMono(pieces, pieces, t.pieceLength, per * t.chunkSize);
    MulAssoc(pieces, per, t.chunkSize);
  }

  lemma {:induction false} MulAssoc(a: nat, b: nat, c: nat)
    ensures a * (b * c) == a * b * c
  {
  }

  lemma {:induction false} MulPlus(a: nat, b: nat, c: nat)
    ensures (a + b) * c == a * c + b * c
  {
  }

  /** Every index below maxEndRequest stands for a chunk. */
  lemma {:induction false} BelowMaxEndValid(t: Torrent, ri: nat)
    requires t.Valid() && ri < t.MaxEnd()
    ensures t.ValidIndex(ri)
  {
    assert ri * t.chunkSize < t.length by { BelowCeilDiv(ri, t.length, t.chunkSize); }
    var per := t.ChunksPerRegularPiece();
    assert per > 0 by { CeilDivBounds(t.pieceLength, t.chunkSize); }
    var piece, chunk := Parts(ri, per);
    BelowEndPlace(t, ri, piece, chunk);
    PlaceValid(t, piece, chunk);
  }

  lemma {:induction false} Parts(x: nat, n: nat) returns (q: nat, r: nat)
    requires n > 0
    ensures q == x / n && r == x % n && x == q * n + r == Compose(q, n, r) && r < n
  {
    q, r := x / n, x % n;
  }

  lemma {:induction false} PlaceValid(t: Torrent, piece: nat, chunk: nat)
    requires t.Valid() && piece < t.NumPieces() && chunk < t.ChunksPerRegularPiece()
    requires piece == t.NumPieces() - 1 ==> chunk * t.chunkSize < t.PieceLength(piece)
    ensures t.ValidIndex(Compose(piece, t.ChunksPerRegularPiece(), chunk))
  {
    if piece == t.NumPieces() - 1 { ChunkBegins(t, piece, chunk); }
    assert chunk < t.NumChunks(piece);
    IndexParts(t, piece, chunk);
  }

  lemma {:induction false} BelowEndPlace(t: Torrent, ri: nat, piece: nat, chunk: nat)
    requires t.Valid() && ri == Compose(piece, t.ChunksPerRegularPiece(), chunk) && ri * t.chunkSize < t.length
    ensures piece < t.NumPieces()
    ensures piece == t.NumPieces() - 1 ==> chunk * t.chunkSize < t.PieceLength(piece)
  {
    var per, n := t.ChunksPerRegularPiece(), t.NumPieces();
    MulPlus(piece * per, chunk, t.chunkSize);
    ChunksHold(t, piece);
    CeilDivBounds(t.length, t.pieceLength);
    if piece >= n { MulMono(n, piece, t.pieceLength, t.pieceLength); } else { PieceSpan(t, piece); }
    hide *;
  }

  /** Where the valid indexes end. It is never before maxEndRequest. */
  function IndexEnd(t: Torrent): nat
    requires t.Valid() && t.NumPieces() > 0
  {
    Compose(t.NumPieces() - 1, t.ChunksPerRegularPiece(), t.NumChunks(t.NumPieces() - 1))
  }

  lemma {:induction false} ValidBelowIndexEnd(t: Torrent, ri: nat)
    requires t.Valid() && t.NumPieces() > 0 && t.ValidIndex(ri)
    ensures ri < IndexEnd(t)
  {
    var per, n := t.ChunksPerRegularPiece(), t.NumPieces();
    var piece := ri / per;
    assert ri == piece * per + ri % per;
    if piece < n - 1 {
      MulLess(piece, n - 1, per);
      ChunksFit(t, n - 1);
    }
  }

  /** maxEndRequest counts the torrent's bytes in full chunks, and the indexes count each piece's
      last chunk as one. So maxEndRequest is above every valid index exactly when it is where
      the indexes end. */
  lemma {:induction false} MaxEndExact(t: Torrent)
    requires t.Valid()
    ensures t.NumPieces() > 0 && t.MaxEnd() <= IndexEnd(t)
    ensures (forall ri: nat :: t.ValidIndex(ri) ==> ri < t.MaxEnd()) <==> t.MaxEnd() == IndexEnd(t)
  {
    var n, per := t.NumPieces(), t.ChunksPerRegularPiece();
    CeilDivBounds(t.length, t.pieceLength);
    ChunksFit(t, n - 1);
    var last := IndexEnd(t) - 1;
    IndexParts(t, n - 1, t.NumChunks(n - 1) - 1);
    assert last == (n - 1) * per + (t.NumChunks(n - 1) - 1) && t.ValidIndex(last);
    if t.MaxEnd() > IndexEnd(t) {
      BelowMaxEndValid(t, IndexEnd(t));
      ValidBelowIndexEnd(t, IndexEnd(t));
    }
    forall ri: nat | t.ValidIndex(ri) ensures ri < IndexEnd(t) { ValidBelowIndexEnd(t, ri); }
  }

  lemma {:induction false} WholeParts(length: nat, pieces: nat, k: nat, c: nat, last: nat)
    requires c > 0 && length == pieces * (k * c) + last
    ensures CeilDiv(k * c, c) == k && CeilDiv(length, c) == pieces * k + CeilDiv(last, c)
  {
    DivModUnique(c - 1, c, 0, c - 1);
    CeilDivPlus(k, 0, c);
    MulAssoc(pieces, k, c);
    CeilDivPlus(pieces * k, last, c);
  }

  /** It is when chunks divide pieces. */
  lemma {:induction false} WholeChunks(t: Torrent)
    requires t.Valid() && t.pieceLength % t.chunkSize == 0
    ensures t.NumPieces() > 0 && t.MaxEnd() == IndexEnd(t)
  {
    var n, k := t.NumPieces(), t.pieceLength / t.chunkSize;
    CeilDivBounds(t.length, t.pieceLength);
    PieceSpan(t, n - 1);
    assert t.pieceLength == k * t.chunkSize;
    WholeParts(t.length, n - 1, k, t.chunkSize, t.PieceLength(n - 1));
  }

  /** Six bytes in pieces of three and chunks of two: four indexes, of which the last is not
      below maxEndRequest. */
  lemma {:induction false} PartChunks(t: Torrent)
    requires t == Torrent(6, 3, 2)
    ensures t.Valid() && t.MaxEnd() == 3 && t.ValidIndex(3) && IndexEnd(t) == 4
  {
    assert t.NumPieces() == 2 && t.ChunksPerRegularPiece() == 2;
  }

  // ---------- reading ----------

  /** What is on disk: the complete pieces, and the request indexes of the dirty chunks. */
  datatype Progress = Progress(complete: set<nat>, dirty: set<nat>)

  /** The chunk may be handed to a reader: its piece is complete, or, for a responsive
      reader, the chunk alone is there. */
  predicate Usable(t: Torrent, s: Progress, responsive: bool, ri: nat)
    requires t.Valid()
  {
    var per := t.ChunksPerRegularPiece();
    per > 0 && (ri / per in s.complete || (responsive && ri in s.dirty))
  }

  ghost predicate Readable(t: Torrent, s: Progress, responsive: bool, off: int)
    requires t.Valid()
  {
    exists ri: nat :: Covers(t, ri, off) && Usable(t, s, responsive, ri)
  }

  lemma {:induction false} ReadableAt(t: Torrent, s: Progress, responsive: bool, off: int)
    requires t.Valid()
    ensures t.OffsetRequest(off).Some? <==> 0 <= off < t.length
    ensures Readable(t, s, responsive, off) <==> 0 <= off < t.length && Usable(t, s, responsive, IndexAt(t, off))
  {
    if 0 <= off < t.length { OffsetRequestCovers(t, off); }
    forall ri: nat | Covers(t, ri, off)
      ensures 0 <= off < t.length && ri == IndexAt(t, off)
    {
      CoverUnique(t, ri, off);
    }
  }

  /** One turn of the reader's loop: the tests made of the request at an offset decide
      whether the byte there is readable, and the rest of its chunk is readable with it. */
  lemma {:induction false} ChunkReadable(t: Torrent, s: Progress, responsive: bool, off: int)
    requires t.Valid() && t.OffsetRequest(off).Some?
    ensures var r := t.OffsetRequest(off).value;
            && 0 <= t.Offset(r) <= off < t.Offset(r) + r.length && t.Offset(r) < t.length
            && (Readable(t, s, responsive, off) <==> r.index in s.complete || (responsive && t.FromRequest(r) in s.dirty))
            && (Readable(t, s, responsive, off) ==>
                  forall k :: off <= k < t.Offset(r) + r.length ==> Readable(t, s, responsive, k))
  {
    var ri, r := IndexAt(t, off), t.OffsetRequest(off).value;
    OffsetRequestCovers(t, off);
    IndexRoundTrip(t, ri);
    ReadableAt(t, s, responsive, off);
    forall k | off <= k < t.Offset(r) + r.length && Usable(t, s, responsive, ri)
      ensures Readable(t, s, responsive, k)
    {
      assert Covers(t, ri, k);
    }
  }

  /** One turn of the reader's loop: how many bytes the chunk at an offset still offers,
      none when the byte there is not readable. */
  method ReadableFrom(t: Torrent, s: Progress, responsive: bool, off: int) returns (len1: nat)
    requires t.Valid()
    ensures len1 > 0 <==> Readable(t, s, responsive, off)
    ensures forall k :: off <= k < off + len1 ==> Readable(t, s, responsive, k)
  {
    var found := t.OffsetRequest(off);
    ReadableAt(t, s, responsive, off);
    if found.None? { return 0; }
    var req := found.value;
    ChunkReadable(t, s, responsive, off);
    if !responsive && req.index !in s.complete { return 0; }
    if req.index !in s.complete && t.FromRequest(req) !in s.dirty { return 0; }
    var at := t.Offset(req);
    assert 0 <= at < t.length;
    len1 := req.length - (off - at);
  }

  /** The reader's loop: the length of the longest readable run of bytes from a position,
      clipped to max. */
  method Available(t: Torrent, s: Progress, responsive: bool, start: int, max: int) returns (ret: int)
    requires t.Valid()
    ensures max <= 0 ==> ret == max
    ensures max > 0 ==> 0 <= ret <= max
    ensures forall k :: start <= k < start + ret ==> Readable(t, s, responsive, k)
    ensures max > 0 && ret < max ==> !Readable(t, s, responsive, start + ret)
  {
    ret := 0;
    var off, left := start, max;
    while left > 0
      invariant ret >= 0 && off == start + ret && left == max - ret
      invariant max <= 0 ==> ret == 0
      invariant forall k :: start <= k < off ==> Readable(t, s, responsive, k)
    {
      var len1 := ReadableFrom(t, s, responsive, off);
      if len1 == 0 { break; }
      left := left - len1;
      ret := ret + len1;
      off := off + len1;
    }
    if left < 0 { ret := ret + left; }
  }
}
