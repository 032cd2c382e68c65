/** Peer wire messages: their encoding and the decoder (peer_protocol/msg.go,
    peer_protocol/decoder.go, peer_protocol/protocol.go).

    The original's message is one record with all the fields; here each kind of message
    carries the fields that are written for it. */
module Wire {
  import opened Bytes
  import opened Outcomes
  import opened WireBits

  datatype Message =
    | Keepalive
    | Plain(kind: byte)
    | OfPiece(kind: byte, index: nat)
    | OfChunk(kind: byte, index: nat, begin: nat, length: nat)
    | Bitfield(bits: seq<bool>)
    | Piece(index: nat, begin: nat, data: seq<byte>)
    | Extended(id: byte, payload: seq<byte>)
    | Port(port: nat)
    | HashQuery(kind: byte, query: Query)
    | Hashes(query: Query, hashes: seq<seq<byte>>)

  /** The fields common to the hash messages. */
  datatype Query = Query(root: seq<byte>, baseLayer: nat, index: nat, length: nat, proofLayers: nat) {
    predicate Valid() {
      |root| == 32 && baseLayer < UINT32 && index < UINT32 && length < UINT32 && proofLayers < UINT32
    }
  }

  /** Choke, Unchoke, Interested, NotInterested, HaveAll, HaveNone. */
  predicate IsPlain(t: byte) {
    t in {0, 1, 2, 3, 14, 15}
  }

  /** Have, Suggest, AllowedFast. */
  predicate IsOfPiece(t: byte) {
    t in {4, 13, 17}
  }

  /** Request, Cancel, Reject. */
  predicate IsOfChunk(t: byte) {
    t in {6, 8, 16}
  }

  /** HashRequest, HashReject. */
  predicate IsHashQuery(t: byte) {
    t in {21, 23}
  }

  predicate Valid(m: Message) {
    match m
    case Keepalive => true
    case Plain(t) => IsPlain(t)
    case OfPiece(t, index) => IsOfPiece(t) && index < UINT32
    case OfChunk(t, index, begin, length) => IsOfChunk(t) && index < UINT32 && begin < UINT32 && length < UINT32
    case Bitfield(_) => true
    case Piece(index, begin, _) => index < UINT32 && begin < UINT32
    case Extended(_, _) => true
    case Port(port) => port < UINT16
    case HashQuery(t, q) => IsHashQuery(t) && q.Valid()
    case Hashes(q, hashes) => q.Valid() && forall i :: 0 <= i < |hashes| ==> |hashes[i]| == 32
  }

  function Type(m: Message): byte {
    match m
    case Keepalive => 0
    case Plain(t) => t
    case OfPiece(t, _) => t
    case OfChunk(t, _, _, _) => t
    case Bitfield(_) => 5
    case Piece(_, _, _) => 7
    case Extended(_, _) => 20
    case Port(_) => 9
    case HashQuery(t, _) => t
    case Hashes(_, _) => 22
  }

  // ---------- encoding ----------

  function Ints(ns: seq<nat>): (s: seq<byte>)
    requires forall i :: 0 <= i < |ns| ==> ns[i] < UINT32
    ensures |s| == 4 * |ns|
  {
    if ns == [] then [] else BE32(ns[0]) + Ints(ns[1..])
  }

  /** writeHashCommon. */
  function QueryBytes(q: Query): (s: seq<byte>)
    requires q.Valid()
    ensures |s| == 48
  {
    q.root + Ints([q.baseLayer, q.index, q.length, q.proofLayers])
  }

  function Join(hashes: seq<seq<byte>>): seq<byte> {
    if hashes == [] then [] else hashes[0] + Join(hashes[1..])
  }

  /** The fields writePayloadTo writes after the type. */
  function Fields(m: Message): seq<byte>
    requires Valid(m)
  {
    match m
    case Keepalive => []
    case Plain(_) => []
    case OfPiece(_, index) => Ints([index])
    case OfChunk(_, index, begin, length) => Ints([index, begin, length])
    case Bitfield(bits) => Marshal(bits)
    case Piece(index, begin, data) => Ints([index, begin]) + data
    case Extended(id, payload) => [id] + payload
    case Port(port) => BE16(port)
    case HashQuery(_, q) => QueryBytes(q)
    case Hashes(q, hashes) => QueryBytes(q) + Join(hashes)
  }

  function Payload(m: Message): seq<byte>
    requires Valid(m)
  {
    if m.Keepalive? then [] else [Type(m)] + Fields(m)
  }

  /** WriteTo: the payload's length as counted by a 32-bit counter, then the payload. */
  function Encode(m: Message): seq<byte>
    requires Valid(m)
  {
    BE32(|Payload(m)| % UINT32) + Payload(m)
  }

  // ---------- decoding ----------

  function Int(s: seq<byte>, at: nat): (n: nat)
    requires at + 4 <= |s|
    ensures n < UINT32
  {
    FromBE32(s[at..at + 4])
  }

  /** readHashRequest. */
  function ReadQuery(s: seq<byte>): (q: Query)
    requires |s| >= 48
    ensures q.Valid()
  {
    Query(s[..32], Int(s, 32), Int(s, 36), Int(s, 40), Int(s, 44))
  }

  function Split(s: seq<byte>): (hs: seq<seq<byte>>)
    ensures forall i :: 0 <= i < |hs| ==> |hs[i]| == 32
  {
    if |s| < 32 then [] else [s[..32]] + Split(s[32..])
  }

  /** readMessageAfterType on the message's bytes after the type, all of which must be used.
      With a pool, piece data longer than its buffers is refused. */
  function ReadFields(t: byte, body: seq<byte>, pool: Option<nat>): Option<Message> {
    if IsPlain(t) then if body == [] then Some(Plain(t)) else None
    else if IsOfPiece(t) then if |body| == 4 then Some(OfPiece(t, Int(body, 0))) else None
    else if IsOfChunk(t) then
      if |body| == 12 then Some(OfChunk(t, Int(body, 0), Int(body, 4), Int(body, 8))) else None
    else if t == 5 then Some(Bitfield(Unmarshal(body)))
    else if t == 7 then
      if |body| < 8 || (pool.Some? && pool.value < |body| - 8) then None
      else Some(Piece(Int(body, 0), Int(body, 4), body[8..]))
    else if t == 20 then if body == [] then None else Some(Extended(body[0], body[1..]))
    else if t == 9 then if |body| == 2 then Some(Port(FromBE16(body))) else None
    else if IsHashQuery(t) then if |body| == 48 then Some(HashQuery(t, ReadQuery(body))) else None
    else if t == 22 then
      if |body| < 48 || (|body| - 48) % 32 != 0 then None
      else Some(Hashes(ReadQuery(body), Split(body[48..])))
    else None
  }

  datatype Decoded = Decoded(msg: Message, rest: seq<byte>) | Bad

  /** Decode. */
  function Decode(s: seq<byte>, maxLength: nat, pool: Option<nat>): Decoded {
    if |s| < 4 then Bad
    else
      var length := Int(s, 0);
      if length > maxLength then Bad
      else if length == 0 then Decoded(Keepalive, s[4..])
      else if 4 + length > |s| then Bad
      else match ReadFields(s[4], s[5..4 + length], pool)
        case None => Bad
        case Some(m) => Decoded(m, s[4 + length..])
  }

  /** The message as a reader sees it: its bitfield padded to whole bytes. */
  function Seen(m: Message): Message {
    if m.Bitfield? then Bitfield(Padded(m.bits)) else m
  }

  /** The decoder will take it. */
  predicate Accepted(m: Message, maxLength: nat, pool: Option<nat>) {
    && Valid(m) && |Payload(m)| <= maxLength && |Payload(m)| < UINT32
    && (m.Piece? && pool.Some? ==> |m.data| <= pool.value)
  }

  // ---------- reading what was written ----------

  lemma {:induction false} IntsAt(ns: seq<nat>, tail: seq<byte>, i: nat)
    requires (forall j :: 0 <= j < |ns| ==> ns[j] < UINT32) && i < |ns|
    ensures Int(Ints(ns) + tail, 4 * i) == ns[i]
  {
    var s := Ints(ns) + tail;
    if i == 0 {
      assert s[0..4] == BE32(ns[0]);
      BE32RoundTrip(ns[0]);
    } else {
      IntsAt(ns[1..], tail, i - 1);
      assert s == BE32(ns[0]) + (Ints(ns[1..]) + tail);
      assert s[4 * i..4 * i + 4] == (Ints(ns[1..]) + tail)[4 * (i - 1)..4 * (i - 1) + 4];
    }
  }

  lemma {:induction false} SliceAfter(head: seq<byte>, t: seq<byte>, i: nat, j: nat)
    requires i <= j <= |t|
    ensures (head + t)[|head| + i..|head| + j] == t[i..j]
  {
  }

  lemma {:induction false} IntAfter(head: seq<byte>, ns: seq<nat>, tail: seq<byte>, i: nat)
    requires (forall j :: 0 <= j < |ns| ==> ns[j] < UINT32) && i < |ns|
    ensures Int(head + Ints(ns) + tail, |head| + 4 * i) == ns[i]
  {
    var s, t := head + Ints(ns) + tail, Ints(ns) + tail;
    IntsAt(ns, tail, i);
    SliceAfter(head, t, 4 * i, 4 * i + 4);
    assert s == head + t;
    assert s[|head| + 4 * i..|head| + 4 * i + 4] == t[4 * i..4 * i + 4];
  }

  lemma {:induction false} ReadQueryBytes(q: Query, tail: seq<byte>)
    requires q.Valid()
    ensures ReadQuery(QueryBytes(q) + tail) == q
  {
    var ns := [q.baseLayer, q.index, q.length, q.proofLayers];
    IntAfter(q.root, ns, tail, 0);
    IntAfter(q.root, ns, tail, 1);
    IntAfter(q.root, ns, tail, 2);
    IntAfter(q.root, ns, tail, 3);
    assert (QueryBytes(q) + tail)[..32] == q.root;
  }

  lemma {:induction false} SplitJoin(hs: seq<seq<byte>>)
    requires forall i :: 0 <= i < |hs| ==> |hs[i]| == 32
    ensures Split(Join(hs)) == hs && |Join(hs)| % 32 == 0
  {
    if hs != [] {
      SplitJoin(hs[1..]);
      assert Join(hs)[..32] == hs[0] && Join(hs)[32..] == Join(hs[1..]);
    }
  }

  lemma {:induction false} JoinSplit(s: seq<byte>)
    requires |s| % 32 == 0
    ensures Join(Split(s)) == s
  {
    if s != [] { JoinSplit(s[32..]); }
  }

  lemma {:induction false} ReadWrittenHashes(m: Message, pool: Option<nat>)
    requires Valid(m) && (m.HashQuery? || m.Hashes?)
    ensures ReadFields(Type(m), Fields(m), pool) == Some(m)
  {
    var body := Fields(m);
    var tail := if m.Hashes? then Join(m.hashes) else [];
    assert body == QueryBytes(m.query) + tail;
    ReadQueryBytes(m.query, tail);
    if m.Hashes? {
      SplitJoin(m.hashes);
      assert body[48..] == tail;
    }
  }

  lemma {:induction false} ReadWrittenInts(m: Message, pool: Option<nat>)
    requires Valid(m) && (m.OfPiece? || m.OfChunk? || m.Piece?)
    requires m.Piece? && pool.Some? ==> |m.data| <= pool.value
    ensures ReadFields(Type(m), Fields(m), pool) == Some(m)
  {
    var ns := if m.OfPiece? then [m.index] else if m.OfChunk? then [m.index, m.begin, m.length] else [m.index, m.begin];
    var tail := if m.Piece? then m.data else [];
    assert Fields(m) == Ints(ns) + tail;
    IntsAt(ns, tail, 0);
    if !m.OfPiece? { IntsAt(ns, tail, 1); }
    if m.OfChunk? { IntsAt(ns, tail, 2); }
    if m.Piece? { assert Fields(m)[8..] == m.data; }
  }

  /** Reading the fields of a message gives it back. */
  lemma {:induction false} ReadWritten(m: Message, pool: Option<nat>)
    requires Valid(m) && !m.Keepalive? && (m.Piece? && pool.Some? ==> |m.data| <= pool.value)
    ensures ReadFields(Type(m), Fields(m), pool) == Some(Seen(m))
  {
    if m.HashQuery? || m.Hashes? {
      ReadWrittenHashes(m, pool);
    } else if m.OfPiece? || m.OfChunk? || m.Piece? {
      ReadWrittenInts(m, pool);
    } else if m.Bitfield? {
      UnmarshalMarshal(m.bits);
    } else if m.Port? {
      BE16RoundTrip(m.port);
    }
  }

  // ---------- what is read was written ----------

  lemma {:induction false} IntsCons(s: seq<byte>, ns: seq<nat>)
    requires |s| >= 4 && ns != [] && (forall j :: 0 <= j < |ns| ==> ns[j] < UINT32)
    requires ns[0] == Int(s, 0) && Ints(ns[1..]) == s[4..]
    ensures Ints(ns) == s
  {
    BE32Back(s[..4]);
    assert s[0..4] == s[..4] && s == s[..4] + s[4..];
  }

  function ReadInts(s: seq<byte>): (ns: seq<nat>)
    requires |s| % 4 == 0
    ensures |ns| == |s| / 4 && forall j :: 0 <= j < |ns| ==> ns[j] < UINT32
  {
    if s == [] then [] else [Int(s, 0)] + ReadInts(s[4..])
  }

  lemma {:induction false} IntsBack(s: seq<byte>)
    requires |s| % 4 == 0
    ensures Ints(ReadInts(s)) == s
  {
    if s != [] {
      IntsBack(s[4..]);
      assert ReadInts(s)[1..] == ReadInts(s[4..]);
      IntsCons(s, ReadInts(s));
    }
  }

  lemma {:induction false} ReadIntsAt(s: seq<byte>, i: nat)
    requires |s| % 4 == 0 && 4 * i < |s|
    ensures ReadInts(s)[i] == Int(s, 4 * i)
  {
    if i > 0 {
      ReadIntsAt(s[4..], i - 1);
      assert s[4..][4 * (i - 1)..4 * (i - 1) + 4] == s[4 * i..4 * i + 4];
    }
  }

  lemma {:induction false} QueryBack(s: seq<byte>)
    requires |s| >= 48
    ensures QueryBytes(ReadQuery(s)) == s[..48]
  {
    var t := s[32..48];
    IntsBack(t);
    forall i | 0 <= i < 4 ensures ReadInts(t)[i] == Int(s, 32 + 4 * i) {
      ReadIntsAt(t, i);
      assert t[4 * i..4 * i + 4] == s[32 + 4 * i..32 + 4 * i + 4];
    }
    var q := ReadQuery(s);
    assert Int(s, 32 + 4 * 0) == q.baseLayer && Int(s, 32 + 4 * 1) == q.index;
    var ns := ReadInts(t);
    assert ns[2] == q.length && ns[3] == q.proofLayers;
    assert ns == [q.baseLayer, q.index, q.length, q.proofLayers];
    assert s[..48] == s[..32] + t;
  }

  lemma {:induction false} WrittenInts(t: byte, body: seq<byte>, pool: Option<nat>)
    requires (IsOfPiece(t) || IsOfChunk(t) || t == 7) && ReadFields(t, body, pool).Some?
    ensures var m := ReadFields(t, body, pool).value;
            Valid(m) && Type(m) == t && !m.Keepalive? && Fields(m) == body
  {
    var m := ReadFields(t, body, pool).value;
    var head := if t == 7 then body[..8] else body;
    IntsBack(head);
    forall i | 0 <= 4 * i < |head| ensures ReadInts(head)[i] == Int(body, 4 * i) {
      ReadIntsAt(head, i);
      assert head[4 * i..4 * i + 4] == body[4 * i..4 * i + 4];
    }
    assert ReadInts(head)[0] == Int(body, 4 * 0);
    if IsOfPiece(t) {
      assert ReadInts(head) == [m.index];
    } else if t == 7 {
      assert ReadInts(head)[1] == Int(body, 4 * 1);
      assert ReadInts(head) == [m.index, m.begin];
    } else {
      assert ReadInts(head)[1] == Int(body, 4 * 1) && ReadInts(head)[2] == Int(body, 4 * 2);
      assert ReadInts(head) == [m.index, m.begin, m.length];
    }
  }

  lemma {:induction false} WrittenHashes(t: byte, body: seq<byte>, pool: Option<nat>)
    requires (IsHashQuery(t) || t == 22) && ReadFields(t, body, pool).Some?
    ensures var m := ReadFields(t, body, pool).value;
            Valid(m) && Type(m) == t && !m.Keepalive? && Fields(m) == body
  {
    QueryBack(body);
    assert body == body[..48] + body[48..];
    if t == 22 { JoinSplit(body[48..]); }
  }

  /** Whatever the decoder reads was written so: the fields it accepts are those of the
      message it returns. */
  lemma {:induction false} WrittenRead(t: byte, body: seq<byte>, pool: Option<nat>)
    requires ReadFields(t, body, pool).Some?
    ensures var m := ReadFields(t, body, pool).value;
            && Valid(m) && Type(m) == t && !m.Keepalive? && Fields(m) == body && Seen(m) == m
            && (m.Piece? && pool.Some? ==> |m.data| <= pool.value)
  {
    if IsHashQuery(t) || t == 22 {
      WrittenHashes(t, body, pool);
    } else if IsOfPiece(t) || IsOfChunk(t) || t == 7 {
      WrittenInts(t, body, pool);
    } else if t == 5 {
      MarshalUnmarshal(body);
      PaddedOnce(Unmarshal(body));
    } else if t == 9 {
      BE16Back(body);
    }
  }

  // ---------- whole messages ----------

  lemma {:induction false} LengthPrefix(n: nat, tail: seq<byte>)
    requires n < UINT32
    ensures Int(BE32(n) + tail, 0) == n && (BE32(n) + tail)[4..] == tail
  {
    assert (BE32(n) + tail)[0..4] == BE32(n);
    BE32RoundTrip(n);
  }

  /** A frame: length, type, body. */
  function Frame(t: byte, body: seq<byte>): seq<byte>
    requires 1 + |body| < UINT32
  {
    BE32(1 + |body|) + ([t] + body)
  }

  lemma {:induction false} FrameParts(t: byte, body: seq<byte>, rest: seq<byte>)
    requires 1 + |body| < UINT32
    ensures var s, length := Frame(t, body) + rest, 1 + |body|;
            |s| >= 4 + length && Int(s, 0) == length && s[4] == t && s[5..4 + length] == body && s[4 + length..] == rest
  {
    var s, length := Frame(t, body) + rest, 1 + |body|;
    LengthPrefix(length, [t] + body + rest);
    assert s == BE32(length) + ([t] + body + rest);
  }

  lemma {:induction false} FrameForm(s: seq<byte>)
    requires |s| >= 4 && 0 < Int(s, 0) && 4 + Int(s, 0) <= |s|
    ensures var length := Int(s, 0); s == Frame(s[4], s[5..4 + length]) + s[4 + length..]
  {
    var length := Int(s, 0);
    BE32Back(s[0..4]);
    var body, rest := s[5..4 + length], s[4 + length..];
    assert s == s[0..4] + ([s[4]] + body) + rest;
  }

  lemma {:induction false} EncodeIsFrame(m: Message)
    requires Valid(m) && !m.Keepalive? && |Payload(m)| < UINT32
    ensures |Payload(m)| == 1 + |Fields(m)| && Encode(m) == Frame(Type(m), Fields(m))
  {
    PrefixedFrame(Type(m), Fields(m), Payload(m));
  }

  lemma {:induction false} PrefixedFrame(t: byte, body: seq<byte>, payload: seq<byte>)
    requires payload == [t] + body && |payload| < UINT32
    ensures 1 + |body| == |payload| && BE32(|payload| % UINT32) + payload == Frame(t, body)
  {
  }

  /** A message the decoder will take, followed by any bytes, decodes to itself, its bitfield
      padded, and leaves the bytes. */
  lemma {:induction false} DecodeEncode(m: Message, rest: seq<byte>, maxLength: nat, pool: Option<nat>)
    requires Accepted(m, maxLength, pool)
    ensures Decode(Encode(m) + rest, maxLength, pool) == Decoded(Seen(m), rest)
  {
    if m.Keepalive? {
      LengthPrefix(0, rest);
      assert Encode(m) == BE32(0);
    } else {
      EncodeIsFrame(m);
      FrameParts(Type(m), Fields(m), rest);
      ReadWritten(m, pool);
    }
  }

  /** Conversely, what decodes is the encoding of the message returned, followed by what was
      left: a message has one accepted form. */
  lemma {:induction false} EncodeDecode(s: seq<byte>, maxLength: nat, pool: Option<nat>)
    requires Decode(s, maxLength, pool).Decoded?
    ensures var r := Decode(s, maxLength, pool);
            Accepted(r.msg, maxLength, pool) && s == Encode(r.msg) + r.rest && Seen(r.msg) == r.msg
  {
    var r, length := Decode(s, maxLength, pool), Int(s, 0);
    if length > 0 {
      WrittenRead(s[4], s[5..4 + length], pool);
      FrameForm(s);
      EncodeIsFrame(r.msg);
    } else {
      BE32Back(s[0..4]);
      assert s == s[0..4] + s[4..];
    }
  }

  /** Both directions at once, for messages with whole-byte bitfields. */
  lemma {:induction false} OneForm(s: seq<byte>, m: Message, rest: seq<byte>, maxLength: nat, pool: Option<nat>)
    requires Seen(m) == m
    ensures Decode(s, maxLength, pool) == Decoded(m, rest) <==>
            Accepted(m, maxLength, pool) && s == Encode(m) + rest
  {
    if Decode(s, maxLength, pool) == Decoded(m, rest) { EncodeDecode(s, maxLength, pool); }
    if Accepted(m, maxLength, pool) && s == Encode(m) + rest { DecodeEncode(m, rest, maxLength, pool); }
  }

  // ---------- streams ----------

  function EncodeAll(ms: seq<Message>): seq<byte>
    requires forall i :: 0 <= i < |ms| ==> Valid(ms[i])
  {
    if ms == [] then [] else Encode(ms[0]) + EncodeAll(ms[1..])
  }

  /** Decoding until the stream ends; None when it does not end between messages. */
  function DecodeAll(s: seq<byte>, maxLength: nat, pool: Option<nat>): Option<seq<Message>>
    decreases |s|
  {
    if s == [] then Some([])
    else match Decode(s, maxLength, pool)
      case Bad => None
      case Decoded(m, rest) =>
        match DecodeAll(rest, maxLength, pool)
        case None => None
        case Some(ms) => Some([m] + ms)
  }

  function SeenAll(ms: seq<Message>): seq<Message> {
    if ms == [] then [] else [Seen(ms[0])] + SeenAll(ms[1..])
  }

  /** A stream of messages decodes to those messages, in order and none of them split. */
  lemma {:induction false} StreamDecodes(ms: seq<Message>, maxLength: nat, pool: Option<nat>)
    requires forall i :: 0 <= i < |ms| ==> Valid(ms[i]) && Accepted(ms[i], maxLength, pool)
    ensures DecodeAll(EncodeAll(ms), maxLength, pool) == Some(SeenAll(ms))
  {
    if ms != [] {
      DecodeEncode(ms[0], EncodeAll(ms[1..]), maxLength, pool);
      StreamDecodes(ms[1..], maxLength, pool);
    }
  }
}
