/** The objects that write and read peer messages (peer_protocol/msg.go,
    peer_protocol/decoder.go). */
module WireCoders {
  import opened Bytes
  import opened Outcomes
  import opened Wire
  import opened WireBits

  // ---------- writing ----------

  /** A message writer that keeps the bytes and a 32-bit count of them; the original has one
      writer that only counts and one that only keeps. */
  class MessageWriter {
    var out: seq<byte>
    var n: nat

    ghost predicate Valid()
      reads this
    {
      n == |out| % UINT32
    }

    constructor ()
      ensures Valid() && out == []
    {
      out, n := [], 0;
    }

    method WriteByte(c: byte)
      requires Valid()
      modifies this
      ensures Valid() && out == old(out) + [c]
    {
      out := out + [c];
      n := (n + 1) % UINT32;
    }

    method Write(s: seq<byte>)
      requires Valid()
      modifies this
      ensures Valid() && out == old(out) + s
    {
      out := out + s;
      n := (n + |s|) % UINT32;
    }

    method WriteInts(ns: seq<nat>)
      requires Valid() && forall i :: 0 <= i < |ns| ==> ns[i] < UINT32
      modifies this
      ensures Valid() && out == old(out) + Ints(ns)
    {
      var i := 0;
      while i < |ns|
        invariant i <= |ns| && Valid() && out + Ints(ns[i..]) == old(out) + Ints(ns)
      {
        Regroup(out, BE32(ns[i]), Ints(ns[i + 1..]));
        assert ns[i..][1..] == ns[i + 1..];
        Write(BE32(ns[i]));
        i := i + 1;
      }
    }

    method WriteHashes(hashes: seq<seq<byte>>)
      requires Valid()
      modifies this
      ensures Valid() && out == old(out) + Join(hashes)
    {
      var i := 0;
      while i < |hashes|
        invariant i <= |hashes| && Valid() && out + Join(hashes[i..]) == old(out) + Join(hashes)
      {
        Regroup(out, hashes[i], Join(hashes[i + 1..]));
        assert hashes[i..][1..] == hashes[i + 1..];
        Write(hashes[i]);
        i := i + 1;
      }
    }

    /** writeHashCommon. */
    method WriteQuery(q: Query)
      requires Valid() && q.Valid()
      modifies this
      ensures Valid() && out == old(out) + QueryBytes(q)
    {
      Write(q.root);
      WriteInts([q.baseLayer, q.index, q.length, q.proofLayers]);
    }

    /** The fields of a message, after its type. */
    method WriteFields(m: Message)
      requires Valid() && Wire.Valid(m)
      modifies this
      ensures Valid() && out == old(out) + Fields(m)
    {
      ghost var was := out;
      match m
      case Keepalive =>
      case Plain(_) =>
      case OfPiece(_, index) =>
        WriteInts([index]);
      case OfChunk(_, index, begin, length) =>
        WriteInts([index, begin, length]);
      case Bitfield(bits) =>
        var b := MarshalBitfield(bits);
        Write(b);
      case Piece(index, begin, data) =>
        WriteInts([index, begin]);
        Write(data);
        Regroup(was, Ints([index, begin]), data);
      case Extended(id, payload) =>
        WriteByte(id);
        Write(payload);
        Regroup(was, [id], payload);
      case Port(port) =>
        Write(BE16(port));
      case HashQuery(_, q) =>
        WriteQuery(q);
      case Hashes(q, hashes) =>
        WriteQuery(q);
        WriteHashes(hashes);
        Regroup(was, QueryBytes(q), Join(hashes));
    }

    /** writePayloadTo. */
    method WritePayload(m: Message)
      requires Valid() && Wire.Valid(m)
      modifies this
      ensures Valid() && out == old(out) + Payload(m)
    {
      ghost var was := out;
      if !m.Keepalive? {
        WriteByte(Type(m));
        WriteFields(m);
        Regroup(was, [Type(m)], Fields(m));
      }
    }
  }

  /** WriteTo: the length a counting writer found, then the payload. */
  method WriteTo(m: Message, w: MessageWriter)
    requires w.Valid() && Valid(m)
    modifies w
    ensures w.Valid() && w.out == old(w.out) + Encode(m)
  {
    var lw := new MessageWriter();
    ghost var was, payload := w.out, Payload(m);
    lw.WritePayload(m);
    assert lw.out == payload;
    w.Write(BE32(lw.n));
    w.WritePayload(m);
    Regroup(was, BE32(|payload| % UINT32), payload);
  }

  // ---------- reading ----------

  /** The decoder and, while a message is read, the reader limited to its bytes. */
  class Decoder {
    const input: seq<byte>
    const maxLength: nat
    const pool: Option<nat>
    var pos: nat
    var left: nat

    constructor (input: seq<byte>, maxLength: nat, pool: Option<nat>)
      ensures this.input == input && this.maxLength == maxLength && this.pool == pool && pos == 0 && left == 0
    {
      this.input, this.maxLength, this.pool := input, maxLength, pool;
      pos, left := 0, 0;
    }

    predicate Valid()
      reads this
    {
      pos <= |input|
    }

    /** Fills a buffer of k bytes from the message. */
    method ReadFull(k: nat) returns (s: Option<seq<byte>>)
      requires Valid()
      modifies this
      ensures Valid() && pos + left == old(pos + left)
      ensures s.Some? <==> k <= old(left) && old(pos) + k <= |input|
      ensures s.Some? ==> s.value == input[old(pos)..old(pos) + k] && pos == old(pos) + k
    {
      if k > left || pos + k > |input| { return None; }
      s := Some(input[pos..pos + k]);
      pos, left := pos + k, left - k;
    }

    method ReadInteger() returns (n: Option<nat>)
      requires Valid()
      modifies this
      ensures Valid() && pos + left == old(pos + left)
      ensures n.Some? <==> 4 <= old(left) && old(pos) + 4 <= |input|
      ensures n.Some? ==> n.value == FromBE32(input[old(pos)..old(pos) + 4]) && pos == old(pos) + 4
    {
      var b := ReadFull(4);
      if b.None? { return None; }
      n := Some(FromBE32(b.value));
    }

    /** What is left of the message, when the input has it all. */
    function Body(): seq<byte>
      requires Valid() && pos + left <= |input|
      reads this
    {
      input[pos..pos + left]
    }

    /** The three fields of a request, one after another. */
    method ReadInts(k: nat) returns (ns: Option<seq<nat>>)
      requires Valid()
      modifies this
      ensures Valid() && pos + left == old(pos + left)
      ensures ns.Some? <==> 4 * k <= old(left) && old(pos) + 4 * k <= |input|
      ensures ns.Some? ==> pos == old(pos) + 4 * k && |ns.value| == k
      ensures ns.Some? ==> forall i :: 0 <= i < k ==> ns.value[i] == Int(input, old(pos) + 4 * i)
    {
      var i, read := 0, [];
      while i < k
        invariant i <= k && |read| == i && Valid() && pos + left == old(pos + left) && pos == old(pos) + 4 * i
        invariant forall j :: 0 <= j < i ==> read[j] == Int(input, old(pos) + 4 * j)
      {
        var n := ReadInteger();
        if n.None? { return None; }
        read := read + [n.value];
        i := i + 1;
      }
      ns := Some(read);
    }

    /** readHashRequest. */
    method ReadHashRequest() returns (q: Option<Query>)
      requires Valid()
      modifies this
      ensures Valid() && pos + left == old(pos + left)
      ensures q.Some? <==> 48 <= old(left) && old(pos) + 48 <= |input|
      ensures q.Some? ==> q.value == ReadQuery(input[old(pos)..]) && pos == old(pos) + 48
    {
      var root := ReadFull(32);
      if root.None? { return None; }
      var ns := ReadInts(4);
      if ns.None? { return None; }
      q := Some(Query(root.value, ns.value[0], ns.value[1], ns.value[2], ns.value[3]));
      QueryAt(input, pos - 48, root.value, ns.value);
    }

    /** The hashes that fill the rest of the message; a part of one at the end is an error. */
    method ReadHashes() returns (hashes: Option<seq<seq<byte>>>)
      requires Valid()
      modifies this
      ensures Valid() && pos + left == old(pos + left)
      ensures old(pos + left) <= |input| ==>
                if old(left) % 32 == 0 then hashes == Some(Split(old(Body()))) && left == 0 else hashes == None
    {
      var numHashes := (left + 31) / 32;
      var i, read := 0, [];
      ghost var whole := pos + left <= |input|;
      ghost var all := if whole then Split(Body()) else [];
      while i < numHashes
        invariant i <= numHashes && Valid() && pos + left == old(pos + left)
        invariant left == old(left) - 32 * i
        invariant whole ==> read + Split(Body()) == all
      {
        ghost var body := if whole then Body() else [];
        var oneHash := ReadFull(32);
        if oneHash.None? { return None; }
        if whole {
          assert body[..32] == oneHash.value && body[32..] == Body();
          AppendHash(read, oneHash.value, Split(Body()));
        }
        read := read + [oneHash.value];
        i := i + 1;
      }
      assert left == 0 ==> whole ==> Split(Body()) == [] && read == all;
      hashes := Some(read);
    }

    /** The integer fields of a message about a piece or a chunk. */
    method ReadIntFields(t: byte) returns (r: Option<Message>)
      requires Valid() && (IsOfPiece(t) || IsOfChunk(t))
      modifies this
      ensures Valid() && pos + left == old(pos + left)
      ensures old(pos + left) <= |input| ==> Agrees(r, t, old(Body()))
    {
      ghost var body := if pos + left <= |input| then Body() else [];
      ghost var at := pos;
      var ns := ReadInts(if IsOfPiece(t) then 1 else 3);
      if ns.None? { return None; }
      r := Some(if IsOfPiece(t) then OfPiece(t, ns.value[0]) else OfChunk(t, ns.value[0], ns.value[1], ns.value[2]));
      if at + |body| <= |input| && 4 * |ns.value| <= |body| {
        IntInBody(input, at, |body|, 0);
        if !IsOfPiece(t) {
          IntInBody(input, at, |body|, 1);
          IntInBody(input, at, |body|, 2);
        }
      }
    }

    /** The fields of a piece message; the pool's buffers bound its data. */
    method ReadPieceFields() returns (r: Option<Message>)
      requires Valid()
      modifies this
      ensures Valid() && pos + left == old(pos + left)
      ensures old(pos + left) <= |input| ==> Agrees(r, 7, old(Body()))
    {
      ghost var body := if pos + left <= |input| then Body() else [];
      ghost var at := pos;
      var ns := ReadInts(2);
      if ns.None? { return None; }
      var dataLen := left;
      if pool.Some? && pool.value < dataLen { return None; }
      var data := ReadFull(dataLen);
      if data.None? { return None; }
      r := Some(Piece(ns.value[0], ns.value[1], data.value));
      IntInBody(input, at, |body|, 0);
      IntInBody(input, at, |body|, 1);
      SubSlice(input, at, at + |body|, 8, |body|);
    }

    method ReadHashFields(t: byte) returns (r: Option<Message>)
      requires Valid() && (IsHashQuery(t) || t == 22)
      modifies this
      ensures Valid() && pos + left == old(pos + left)
      ensures old(pos + left) <= |input| ==> Agrees(r, t, old(Body()))
    {
      ghost var body := if pos + left <= |input| then Body() else [];
      ghost var at := pos;
      var q := ReadHashRequest();
      if q.None? { return None; }
      ghost var tail := if pos + left <= |input| then Body() else [];
      if at + |body| == pos + left { QueryInBody(input, at, body, tail); }
      if t != 22 { return Some(HashQuery(t, q.value)); }
      var hashes := ReadHashes();
      if hashes.None? { return None; }
      r := Some(Hashes(q.value, hashes.value));
    }

    /** The result and the bytes left unused agree with what the fields should read as. */
    ghost predicate Agrees(r: Option<Message>, t: byte, body: seq<byte>)
      reads this
    {
      ReadFields(t, body, pool) == if left == 0 then r else None
    }

    /** readMessageAfterType. */
    method ReadMessageAfterType(t: byte) returns (r: Option<Message>)
      requires Valid()
      modifies this
      ensures Valid() && pos + left == old(pos + left)
      ensures old(pos + left) <= |input| ==> Agrees(r, t, old(Body()))
    {
      if IsPlain(t) {
        r := Some(Plain(t));
      } else if IsOfPiece(t) || IsOfChunk(t) {
        r := ReadIntFields(t);
      } else if t == 5 {
        var b := ReadFull(left);
        if b.None? { return None; }
        var bits := UnmarshalBitfield(b.value);
        r := Some(Bitfield(bits));
      } else if t == 7 {
        r := ReadPieceFields();
      } else if t == 20 {
        var b := ReadFull(1);
        if b.None? { return None; }
        var payload := ReadFull(left);
        if payload.None? { return None; }
        r := Some(Extended(b.value[0], payload.value));
      } else if t == 9 {
        var b := ReadFull(2);
        if b.None? { return None; }
        r := Some(Port(FromBE16(b.value)));
      } else if IsHashQuery(t) || t == 22 {
        r := ReadHashFields(t);
      } else {
        r := None;
      }
    }

    /** Decode: reads one message, or fails. */
    method DecodeMessage() returns (r: Option<Message>)
      requires Valid()
      modifies this
      ensures Valid()
      ensures match Decode(input[old(pos)..], maxLength, pool)
              case Bad => r == None
              case Decoded(m, rest) => r == Some(m) && input[pos..] == rest
    {
      ghost var s, at := input[pos..], pos;
      left := 4;
      var length := ReadInteger();
      if length.None? { return None; }
      assert s[0..4] == input[at..at + 4];
      if length.value > maxLength { return None; }
      if length.value == 0 { return Some(Keepalive); }
      left := length.value;
      var t := ReadFull(1);
      if t.None? { return None; }
      assert t.value[0] == s[4];
      if pos + left <= |input| { assert Body() == s[5..4 + length.value]; }
      r := ReadMessageAfterType(t.value[0]);
      if r.Some? && left != 0 { r := None; }
    }
  }

  lemma {:induction false} SubSlice(s: seq<byte>, a: nat, b: nat, c: nat, d: nat)
    requires a <= b <= |s| && c <= d <= b - a
    ensures s[a..b][c..d] == s[a + c..a + d]
  {
    assert forall k :: 0 <= k < d - c ==> s[a..b][c..d][k] == s[a..b][c + k] == s[a + c + k];
  }

  lemma {:induction false} IntInBody(input: seq<byte>, at: nat, n: nat, i: nat)
    requires at + n <= |input| && 4 * i + 4 <= n
    ensures Int(input, at + 4 * i) == Int(input[at..at + n], 4 * i)
  {
    SubSlice(input, at, at + n, 4 * i, 4 * i + 4);
  }

  lemma {:induction false} QueryInBody(input: seq<byte>, at: nat, body: seq<byte>, tail: seq<byte>)
    requires at + |body| <= |input| && body == input[at..at + |body|] && |body| >= 48
    requires tail == input[at + 48..at + |body|]
    ensures ReadQuery(input[at..]) == ReadQuery(body) && body[48..] == tail
  {
    assert body == input[at..][..|body|];
    SamePrefix(input[at..], |body|, 32);
    SamePrefix(input[at..], |body|, 36);
    SamePrefix(input[at..], |body|, 40);
    SamePrefix(input[at..], |body|, 44);
    assert input[at..][..32] == body[..32];
    SubSlice(input, at, at + |body|, 48, |body|);
  }

  lemma {:induction false} SamePrefix(s: seq<byte>, n: nat, at: nat)
    requires at + 4 <= n <= |s|
    ensures Int(s[..n], at) == Int(s, at)
  {
    SubSlice(s, 0, n, at, at + 4);
    assert s[0..n] == s[..n];
  }

  lemma {:induction false} AppendHash(a: seq<seq<byte>>, h: seq<byte>, b: seq<seq<byte>>)
    ensures a + ([h] + b) == (a + [h]) + b
  {
  }

  lemma {:induction false} QueryAt(input: seq<byte>, at: nat, root: seq<byte>, ns: seq<nat>)
    requires at + 48 <= |input| && root == input[at..at + 32] && |ns| == 4
    requires forall i :: 0 <= i < 4 ==> ns[i] == Int(input, at + 32 + 4 * i)
    ensures ReadQuery(input[at..]) == Query(root, ns[0], ns[1], ns[2], ns[3])
  {
    var s := input[at..];
    assert s[..32] == root;
    forall i | 0 <= i < 4 ensures Int(s, 32 + 4 * i) == ns[i] {
      assert s[32 + 4 * i..32 + 4 * i + 4] == input[at + 32 + 4 * i..at + 32 + 4 * i + 4];
    }
    assert Int(s, 32 + 4 * 0) == ns[0] && Int(s, 32 + 4 * 1) == ns[1];
    assert ns[2] == Int(s, 32 + 4 * 2) && ns[3] == Int(s, 32 + 4 * 3);
  }
}
