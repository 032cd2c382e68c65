/** The Message Stream Encryption handshake of two parties and the streams it leaves
    them with (mse/mse.go).

    Hashing, the stream cipher and exclusive-or are parameters, with the laws they
    are used for; the shared secret of the key exchange is a value both sides hold. */
module Mse {
  import opened Arithmetic
  import opened Outcomes
  import opened Bytes
  import opened ReadUntil
  import Merkle

  const PLAINTEXT := 1
  const RC4 := 2
  const MAX_PAD := 512
  const BURNED := 1024
  const VC: seq<byte> := [0, 0, 0, 0, 0, 0, 0, 0]
  const REQ1: seq<byte> := [114, 101, 113, 49]
  const REQ2: seq<byte> := [114, 101, 113, 50]
  const REQ3: seq<byte> := [114, 101, 113, 51]
  const KEY_A: seq<byte> := [107, 101, 121, 65]
  const KEY_B: seq<byte> := [107, 101, 121, 66]

  /** sha1, the rc4 key stream of a key, and exclusive-or of two bytes. */
  datatype Crypto = Crypto(hash: seq<byte> -> seq<byte>, rc4: seq<byte> -> (nat -> byte), xor: (byte, byte) -> byte)

  ghost predicate Lawful(c: Crypto) {
    && (forall x :: |c.hash(x)| == 20)
    && (forall a, k :: c.xor(c.xor(a, k), k) == a)
  }

  // ---------- stream cipher ----------

  /** The key stream of one direction, past the discarded start. */
  function NewEncrypt(c: Crypto, initer: bool, s: seq<byte>, skey: seq<byte>): nat -> byte {
    var ks := c.rc4(c.hash((if initer then KEY_A else KEY_B) + s + skey));
    (i: nat) => ks(BURNED + i)
  }

  /** XORKeyStream from a position of the key stream. */
  function Apply(c: Crypto, ks: nat -> byte, pos: nat, data: seq<byte>): seq<byte> {
    seq(|data|, i requires 0 <= i < |data| => c.xor(data[i], ks(pos + i)))
  }

  lemma {:induction false} ApplyTwice(c: Crypto, ks: nat -> byte, pos: nat, data: seq<byte>)
    requires Lawful(c)
    ensures Apply(c, ks, pos, Apply(c, ks, pos, data)) == data
  {
  }

  /** Splitting the data does not matter as long as the position moves along. */
  lemma {:induction false} ApplySplit(c: Crypto, ks: nat -> byte, pos: nat, a: seq<byte>, b: seq<byte>)
    ensures Apply(c, ks, pos, a + b) == Apply(c, ks, pos, a) + Apply(c, ks, pos + |a|, b)
  {
  }

  /** The bytes a connection end reads or writes: enciphered from a position, or plain. */
  datatype Channel = Cipher(ks: nat -> byte, pos: nat) | Plain {
    function Code(c: Crypto, data: seq<byte>): (r: seq<byte>)
      ensures |r| == |data|
    {
      match this
      case Cipher(ks, pos) => Apply(c, ks, pos, data)
      case Plain => data
    }

    function Advance(n: nat): Channel {
      match this
      case Cipher(ks, pos) => Cipher(ks, pos + n)
      case Plain => Plain
    }
  }

  /** cipherWriter: the wire bytes of a sequence of writes. */
  function WriteAll(c: Crypto, ch: Channel, writes: seq<seq<byte>>): seq<byte>
    decreases |writes|
  {
    if writes == [] then []
    else ch.Code(c, writes[0]) + WriteAll(c, ch.Advance(|writes[0]|), writes[1..])
  }

  /** cipherReader: what a sequence of reads returns, each of at most the asked size. */
  function ReadAll(c: Crypto, ch: Channel, wire: seq<byte>, sizes: seq<nat>): seq<byte>
    decreases |sizes|
  {
    if sizes == [] then []
    else
      var n := if sizes[0] < |wire| then sizes[0] else |wire|;
      ch.Code(c, wire[..n]) + ReadAll(c, ch.Advance(n), wire[n..], sizes[1..])
  }

  function Flatten(ss: seq<seq<byte>>): seq<byte> {
    if ss == [] then [] else ss[0] + Flatten(ss[1..])
  }

  function Total(sizes: seq<nat>): nat {
    if sizes == [] then 0 else sizes[0] + Total(sizes[1..])
  }

  lemma {:induction false} CodeSplit(c: Crypto, ch: Channel, a: seq<byte>, b: seq<byte>)
    ensures ch.Code(c, a + b) == ch.Code(c, a) + ch.Advance(|a|).Code(c, b)
  {
    if ch.Cipher? { ApplySplit(c, ch.ks, ch.pos, a, b); }
  }

  lemma {:induction false} WritesConcatenate(c: Crypto, ch: Channel, writes: seq<seq<byte>>)
    ensures WriteAll(c, ch, writes) == ch.Code(c, Flatten(writes))
    decreases |writes|
  {
    if writes != [] {
      WritesConcatenate(c, ch.Advance(|writes[0]|), writes[1..]);
      CodeSplit(c, ch, writes[0], Flatten(writes[1..]));
    }
  }

  lemma {:induction false} ReadsConcatenate(c: Crypto, ch: Channel, wire: seq<byte>, sizes: seq<nat>)
    ensures var n := if Total(sizes) < |wire| then Total(sizes) else |wire|;
            ReadAll(c, ch, wire, sizes) == ch.Code(c, wire[..n])
    decreases |sizes|
  {
    if sizes != [] {
      var n := if sizes[0] < |wire| then sizes[0] else |wire|;
      ReadsConcatenate(c, ch.Advance(n), wire[n..], sizes[1..]);
      var m := if Total(sizes) < |wire| then Total(sizes) else |wire|;
      assert wire[..m] == wire[..n] + wire[n..][..m - n];
      CodeSplit(c, ch, wire[..n], wire[n..][..m - n]);
    }
  }

  /** What is written in any split is read back unchanged in any split, from the same
      key stream at the same position. */
  lemma {:induction false} ChannelFaithful(c: Crypto, ch: Channel, writes: seq<seq<byte>>, sizes: seq<nat>)
    requires Lawful(c)
    ensures var data := Flatten(writes);
            var n := if Total(sizes) < |data| then Total(sizes) else |data|;
            ReadAll(c, ch, WriteAll(c, ch, writes), sizes) == data[..n]
  {
    var data := Flatten(writes);
    WritesConcatenate(c, ch, writes);
    ReadsConcatenate(c, ch, ch.Code(c, data), sizes);
    var n := if Total(sizes) < |data| then Total(sizes) else |data|;
    if ch.Cipher? {
      assert Apply(c, ch.ks, ch.pos, data)[..n] == Apply(c, ch.ks, ch.pos, data[..n]);
      ApplyTwice(c, ch.ks, ch.pos, data[..n]);
    }
  }

  // ---------- what the parties send ----------

  function XorHashes(c: Crypto, a: seq<byte>, b: seq<byte>): seq<byte>
    requires |a| == |b|
  {
    seq<byte>(|a|, i requires 0 <= i < |a| => c.xor(a[i], b[i]))
  }

  /** The initiator's enciphered part. */
  function InitiatorHeader(offered: nat, padLen: nat, ia: seq<byte>): seq<byte>
    requires offered < UINT32 && padLen <= MAX_PAD && |ia| < UINT16
  {
    VC + BE32(offered) + BE16(padLen) + Zeroes(padLen) + BE16(|ia|) + ia
  }

  function KeyProof(c: Crypto, s: seq<byte>, skey: seq<byte>): (r: seq<byte>)
    requires Lawful(c)
    ensures |r| == 20
  {
    XorHashes(c, c.hash(REQ2 + skey), c.hash(REQ3 + s))
  }

  /** The receiver's enciphered reply. */
  function ReceiverReply(vc: seq<byte>, chosen: nat, padLen: nat): seq<byte>
    requires chosen < UINT32 && padLen <= MAX_PAD
  {
    vc + BE32(chosen) + BE16(padLen) + Zeroes(padLen)
  }

  // ---------- what the parties read ----------

  /** The first occurrence of b at or after k. */
  function Find(s: seq<byte>, b: seq<byte>, k: nat): Option<nat>
    decreases |s| - k
  {
    if k + |b| > |s| then None
    else if OccursAt(s, b, k) then Some(k)
    else Find(s, b, k + 1)
  }

  function Take(s: seq<byte>, n: nat): seq<byte> {
    if |s| <= n then s else s[..n]
  }

  /** The deciphered bytes [i, i+n) of a stream that starts at base, if it is long enough. */
  function Deciphered(c: Crypto, ks: nat -> byte, wire: seq<byte>, base: nat, i: nat, n: nat): Option<seq<byte>> {
    if base + i + n <= |wire| then Some(Apply(c, ks, i, wire[base + i..base + i + n])) else None
  }

  /** The first key whose proof matches. */
  function MatchKey(c: Crypto, s: seq<byte>, skeys: seq<seq<byte>>, proof: seq<byte>): Option<seq<byte>>
    requires Lawful(c)
  {
    if skeys == [] then None
    else if KeyProof(c, s, skeys[0]) == proof then Some(skeys[0])
    else MatchKey(c, s, skeys[1..], proof)
  }

  /** What the receiver holds after its reads: bytes consumed, cipher position, and values. */
  datatype Received = Received(skey: seq<byte>, vc: seq<byte>, offered: nat, ia: seq<byte>, consumed: nat, pos: nat)

  /** The receiver's enciphered reads, from base on, once the key is known. Failures to
      read the initial payload are ignored, as in the original. */
  function ReceiveHeader(c: Crypto, s: seq<byte>, skey: seq<byte>, wire: seq<byte>, base: nat): Option<Received>
    requires base <= |wire|
  {
    var ks := NewEncrypt(c, true, s, skey);
    match Deciphered(c, ks, wire, base, 0, 14)
    case None => None
    case Some(head) =>
      var vc, offered, padLen := head[..8], FromBE32(head[8..12]), FromBE16(head[12..14]);
      if base + 14 + padLen > |wire| then None
      else
        var at := 14 + padLen;
        match Deciphered(c, ks, wire, base, at, 2)
        case None => Some(Received(skey, vc, offered, [], |wire|, |wire| - base))
        case Some(lenBytes) =>
          var lenIA := FromBE16(lenBytes);
          match Deciphered(c, ks, wire, base, at + 2, lenIA)
          case None => Some(Received(skey, vc, offered, Zeroes(lenIA), |wire|, |wire| - base))
          case Some(ia) => Some(Received(skey, vc, offered, ia, base + at + 2 + lenIA, at + 2 + lenIA))
  }

  /** receiverSteps up to the initial payload, on the bytes after the public key:
      synchronise on the secret's hash, match the key, read the header. */
  function Receive(c: Crypto, s: seq<byte>, skeys: seq<seq<byte>>, wire: seq<byte>): Option<Received>
    requires Lawful(c)
  {
    match Find(Take(wire, MAX_PAD + 20), c.hash(REQ1 + s), 0)
    case None => None
    case Some(k) =>
      var p := k + 20;
      if p + 20 > |wire| then None
      else
        match MatchKey(c, s, skeys, wire[p..p + 20])
        case None => None
        case Some(skey) => ReceiveHeader(c, s, skey, wire, p + 20)
  }

  /** The methods either side can carry on with. */
  predicate Supported(m: nat) {
    m == RC4 || m == PLAINTEXT
  }

  datatype Selected = Selected(crypto: nat, consumed: nat, pos: nat)

  /** initerSteps from the synchronisation on, on the bytes after the public key. */
  function Synchronise(c: Crypto, s: seq<byte>, skey: seq<byte>, offered: nat, wire: seq<byte>): Option<Selected>
  {
    var ks := NewEncrypt(c, false, s, skey);
    match Find(Take(wire, MAX_PAD + 8), Apply(c, ks, 0, VC), 0)
    case None => None
    case Some(k) => ReadReply(c, ks, offered, wire, k)
  }

  /** The initiator's reads of the reply that starts at base with the constant. */
  function ReadReply(c: Crypto, ks: nat -> byte, offered: nat, wire: seq<byte>, base: nat): Option<Selected> {
    match Deciphered(c, ks, wire, base, 8, 6)
    case None => None
    case Some(head) =>
      var chosen, padLen := FromBE32(head[..4]), FromBE16(head[4..6]);
      if base + 14 + padLen > |wire| then None
      else
        var selected := Merkle.BitAnd(chosen, offered);
        if Supported(selected) then Some(Selected(selected, base + 14 + padLen, 14 + padLen))
        else None
  }

  // ---------- the two together ----------

  lemma {:induction false} FindsAt(s: seq<byte>, b: seq<byte>, from: nat, k: nat)
    requires from <= k && OccursAt(s, b, k)
    requires forall x :: from <= x < k ==> !OccursAt(s, b, x)
    ensures Find(s, b, from) == Some(k)
    decreases k - from
  {
    if from < k { FindsAt(s, b, from + 1, k); }
  }

  /** The method readUntil finds what Find does: the first occurrence, or none. */
  method ReadUntilFind(s: seq<byte>, b: seq<byte>) returns (found: bool, consumed: nat)
    ensures found == Find(s, b, 0).Some?
    ensures found ==> consumed == Find(s, b, 0).value + |b|
  {
    found, consumed := ReadUntil.ReadUntil(s, b);
    if found {
      FindsAt(s, b, 0, consumed - |b|);
    } else {
      FindsNone(s, b, 0);
    }
  }

  lemma {:induction false} FindsNone(s: seq<byte>, b: seq<byte>, from: nat)
    requires forall k :: !OccursAt(s, b, k)
    ensures Find(s, b, from) == None
    decreases |s| - from
  {
    if from + |b| <= |s| { FindsNone(s, b, from + 1); }
  }

  /** A marker first met at k is found there through a limit that reaches past it. */
  lemma {:induction false} FindsWithin(wire: seq<byte>, b: seq<byte>, k: nat, limit: nat)
    requires OccursAt(wire, b, k) && NoneBefore(wire, b, k) && k + |b| <= limit
    ensures Find(Take(wire, limit), b, 0) == Some(k)
  {
    var t := Take(wire, limit);
    assert t[k..k + |b|] == wire[k..k + |b|];
    forall x | 0 <= x < k
      ensures !OccursAt(t, b, x)
    {
      assert !OccursAt(wire, b, x);
      assert x + |b| <= |t| ==> t[x..x + |b|] == wire[x..x + |b|];
    }
    FindsAt(t, b, 0, k);
  }

  /** Bytes enciphered from the start of a key stream decipher to themselves. */
  lemma {:induction false} DecipheredHonestly(c: Crypto, ks: nat -> byte, wire: seq<byte>, base: nat, plain: seq<byte>, i: nat, n: nat)
    requires Lawful(c) && base + |plain| <= |wire| && i + n <= |plain|
    requires wire[base..base + |plain|] == Apply(c, ks, 0, plain)
    ensures Deciphered(c, ks, wire, base, i, n) == Some(plain[i..i + n])
  {
    var w := wire[base + i..base + i + n];
    forall x | 0 <= x < n
      ensures Apply(c, ks, i, w)[x] == plain[i + x]
    {
      assert w[x] == wire[base..base + |plain|][i + x] == c.xor(plain[i + x], ks(0 + (i + x)));
    }
    assert Apply(c, ks, i, w) == plain[i..i + n];
  }

  /** The key is among those accepted, and no other has its proof. */
  ghost predicate KeyKnown(c: Crypto, s: seq<byte>, skeys: seq<seq<byte>>, skey: seq<byte>)
    requires Lawful(c)
  {
    skey in skeys && forall k :: k in skeys && KeyProof(c, s, k) == KeyProof(c, s, skey) ==> k == skey
  }

  lemma {:induction false} MatchesOwnKey(c: Crypto, s: seq<byte>, skeys: seq<seq<byte>>, skey: seq<byte>)
    requires Lawful(c) && KeyKnown(c, s, skeys, skey)
    ensures MatchKey(c, s, skeys, KeyProof(c, s, skey)) == Some(skey)
    decreases |skeys|
  {
    if skeys[0] != skey {
      assert forall k :: k in skeys[1..] ==> k in skeys;
      MatchesOwnKey(c, s, skeys[1..], skey);
    }
  }

  /** The initiator's bytes after its public key, up to the end of its handshake. */
  function InitiatorSends(c: Crypto, s: seq<byte>, skey: seq<byte>, pad: seq<byte>, header: seq<byte>): (r: seq<byte>)
    requires Lawful(c)
    ensures |r| == |pad| + 40 + |header|
  {
    pad + c.hash(REQ1 + s) + KeyProof(c, s, skey) + Apply(c, NewEncrypt(c, true, s, skey), 0, header)
  }

  /** The receiver's bytes after its public key, up to the end of its handshake. */
  function ReceiverSends(c: Crypto, s: seq<byte>, skey: seq<byte>, pad: seq<byte>, reply: seq<byte>): (r: seq<byte>)
    ensures |r| == |pad| + |reply|
  {
    pad + Apply(c, NewEncrypt(c, false, s, skey), 0, reply)
  }

  lemma {:induction false} HeaderFields(offered: nat, padLen: nat, ia: seq<byte>)
    requires offered < UINT32 && padLen <= MAX_PAD && |ia| < UINT16
    ensures var h := InitiatorHeader(offered, padLen, ia);
            && |h| == 16 + padLen + |ia| && h[0..14][..8] == VC
            && h[0..14][8..12] == BE32(offered) && h[0..14][12..14] == BE16(padLen)
            && h[14 + padLen..14 + padLen + 2] == BE16(|ia|) && h[16 + padLen..16 + padLen + |ia|] == ia
  {
  }

  lemma {:induction false} ReceiverReadsHeader(c: Crypto, s: seq<byte>, skey: seq<byte>, wire: seq<byte>, base: nat,
                            offered: nat, padLen: nat, ia: seq<byte>)
    requires Lawful(c) && offered < UINT32 && padLen <= MAX_PAD && |ia| < UINT16
    requires var header := InitiatorHeader(offered, padLen, ia);
             base + |header| <= |wire| && wire[base..base + |header|] == Apply(c, NewEncrypt(c, true, s, skey), 0, header)
    ensures var header := InitiatorHeader(offered, padLen, ia);
            ReceiveHeader(c, s, skey, wire, base) == Some(Received(skey, VC, offered, ia, base + |header|, |header|))
  {
    var header := InitiatorHeader(offered, padLen, ia);
    var ks := NewEncrypt(c, true, s, skey);
    HeaderFields(offered, padLen, ia);
    DecipheredHonestly(c, ks, wire, base, header, 0, 14);
    BE32RoundTrip(offered);
    BE16RoundTrip(padLen);
    DecipheredHonestly(c, ks, wire, base, header, 14 + padLen, 2);
    BE16RoundTrip(|ia|);
    DecipheredHonestly(c, ks, wire, base, header, 16 + padLen, |ia|);
  }

  lemma {:induction false} Layout(a: seq<byte>, b: seq<byte>, d: seq<byte>, e: seq<byte>, tail: seq<byte>)
    ensures var wire := a + b + d + e + tail;
            && wire[|a|..|a| + |b|] == b
            && wire[|a| + |b|..|a| + |b| + |d|] == d
            && wire[|a| + |b| + |d|..|a| + |b| + |d| + |e|] == e
  {
  }

  /** Synchronising and matching the key on a stream laid out as the initiator does. */
  lemma {:induction false} ReceiverFinds(c: Crypto, s: seq<byte>, skeys: seq<seq<byte>>, skey: seq<byte>, wire: seq<byte>, k: nat)
    requires Lawful(c) && k <= MAX_PAD && k + 40 <= |wire|
    requires KeyKnown(c, s, skeys, skey)
    requires wire[k..k + 20] == c.hash(REQ1 + s) && NoneBefore(wire, c.hash(REQ1 + s), k)
    requires wire[k + 20..k + 40] == KeyProof(c, s, skey)
    ensures Receive(c, s, skeys, wire) == ReceiveHeader(c, s, skey, wire, k + 40)
  {
    FindsWithin(wire, c.hash(REQ1 + s), k, MAX_PAD + 20);
    MatchesOwnKey(c, s, skeys, skey);
  }

  lemma {:induction false} ReceiverReadsWire(c: Crypto, s: seq<byte>, skeys: seq<seq<byte>>, skey: seq<byte>, wire: seq<byte>, k: nat,
                          offered: nat, padLen: nat, ia: seq<byte>)
    requires Lawful(c) && offered < UINT32 && padLen <= MAX_PAD && |ia| < UINT16 && k <= MAX_PAD
    requires KeyKnown(c, s, skeys, skey)
    requires var header := InitiatorHeader(offered, padLen, ia);
             && k + 40 + |header| <= |wire|
             && wire[k + 40..k + 40 + |header|] == Apply(c, NewEncrypt(c, true, s, skey), 0, header)
    requires wire[k..k + 20] == c.hash(REQ1 + s) && NoneBefore(wire, c.hash(REQ1 + s), k)
    requires wire[k + 20..k + 40] == KeyProof(c, s, skey)
    ensures var header := InitiatorHeader(offered, padLen, ia);
            Receive(c, s, skeys, wire) == Some(Received(skey, VC, offered, ia, k + 40 + |header|, |header|))
  {
    ReceiverFinds(c, s, skeys, skey, wire, k);
    ReceiverReadsHeader(c, s, skey, wire, k + 40, offered, padLen, ia);
  }

  /** The receiver reads back exactly what the initiator put into its header. */
  lemma {:induction false} ReceiverReads(c: Crypto, s: seq<byte>, skeys: seq<seq<byte>>, skey: seq<byte>, pad: seq<byte>,
                      offered: nat, padLen: nat, ia: seq<byte>, tail: seq<byte>, wire: seq<byte>)
    requires Lawful(c) && offered < UINT32 && padLen <= MAX_PAD && |ia| < UINT16 && |pad| <= MAX_PAD
    requires wire == InitiatorSends(c, s, skey, pad, InitiatorHeader(offered, padLen, ia)) + tail
    requires KeyKnown(c, s, skeys, skey) && NoneBefore(wire, c.hash(REQ1 + s), |pad|)
    ensures Receive(c, s, skeys, wire) ==
            Some(Received(skey, VC, offered, ia, |wire| - |tail|, |InitiatorHeader(offered, padLen, ia)|))
  {
    hide Receive;
    InitiatorLayout(c, s, skey, pad, InitiatorHeader(offered, padLen, ia), tail);
    ReceiverReadsWire(c, s, skeys, skey, wire, |pad|, offered, padLen, ia);
  }

  /** Where the parts of the initiator's message are. */
  lemma {:induction false} InitiatorLayout(c: Crypto, s: seq<byte>, skey: seq<byte>, pad: seq<byte>, header: seq<byte>, tail: seq<byte>)
    requires Lawful(c)
    ensures var sent := InitiatorSends(c, s, skey, pad, header);
            var wire, k := sent + tail, |pad|;
            && |sent| == k + 40 + |header| <= |wire|
            && wire[k..k + 20] == c.hash(REQ1 + s) && wire[k + 20..k + 40] == KeyProof(c, s, skey)
            && wire[k + 40..k + 40 + |header|] == Apply(c, NewEncrypt(c, true, s, skey), 0, header)
  {
    Layout(pad, c.hash(REQ1 + s), KeyProof(c, s, skey), Apply(c, NewEncrypt(c, true, s, skey), 0, header), tail);
  }

  lemma {:induction false} InitiatorReadsReply(c: Crypto, ks: nat -> byte, wire: seq<byte>, base: nat, offered: nat, chosen: nat, padLen: nat)
    requires Lawful(c) && chosen < UINT32 && padLen <= MAX_PAD
    requires var reply := ReceiverReply(VC, chosen, padLen);
             base + |reply| <= |wire| && wire[base..base + |reply|] == Apply(c, ks, 0, reply)
    ensures var both := Merkle.BitAnd(chosen, offered);
            ReadReply(c, ks, offered, wire, base) ==
            if Supported(both) then Some(Selected(both, base + 14 + padLen, 14 + padLen)) else None
  {
    var reply := ReceiverReply(VC, chosen, padLen);
    assert reply[8..14][..4] == BE32(chosen) && reply[8..14][4..6] == BE16(padLen);
    DecipheredHonestly(c, ks, wire, base, reply, 8, 6);
    BE32RoundTrip(chosen);
    BE16RoundTrip(padLen);
  }

  /** The enciphered reply begins with the enciphered constant. */
  lemma {:induction false} ReplyBegins(c: Crypto, ks: nat -> byte, chosen: nat, padLen: nat)
    requires chosen < UINT32 && padLen <= MAX_PAD
    ensures |ReceiverReply(VC, chosen, padLen)| == 14 + padLen
    ensures Apply(c, ks, 0, ReceiverReply(VC, chosen, padLen))[..8] == Apply(c, ks, 0, VC)
  {
  }

  lemma {:induction false} InitiatorFinds(c: Crypto, s: seq<byte>, skey: seq<byte>, offered: nat, wire: seq<byte>, k: nat)
    requires k <= MAX_PAD && k + 8 <= |wire|
    requires var marker := Apply(c, NewEncrypt(c, false, s, skey), 0, VC);
             wire[k..k + 8] == marker && NoneBefore(wire, marker, k)
    ensures Synchronise(c, s, skey, offered, wire) == ReadReply(c, NewEncrypt(c, false, s, skey), offered, wire, k)
  {
    FindsWithin(wire, Apply(c, NewEncrypt(c, false, s, skey), 0, VC), k, MAX_PAD + 8);
  }

  /** The initiator reads back the receiver's choice, and takes it if it offered it. */
  lemma {:induction false} InitiatorReads(c: Crypto, s: seq<byte>, skey: seq<byte>, pad: seq<byte>,
                       offered: nat, chosen: nat, padLen: nat, tail: seq<byte>, wire: seq<byte>)
    requires Lawful(c) && chosen < UINT32 && padLen <= MAX_PAD && |pad| <= MAX_PAD
    requires wire == ReceiverSends(c, s, skey, pad, ReceiverReply(VC, chosen, padLen)) + tail
    requires NoneBefore(wire, Apply(c, NewEncrypt(c, false, s, skey), 0, VC), |pad|)
    ensures var both := Merkle.BitAnd(chosen, offered);
            Synchronise(c, s, skey, offered, wire) ==
            if Supported(both) then Some(Selected(both, |wire| - |tail|, |ReceiverReply(VC, chosen, padLen)|)) else None
  {
    var ks := NewEncrypt(c, false, s, skey);
    var sent := Apply(c, ks, 0, ReceiverReply(VC, chosen, padLen));
    ReplyBegins(c, ks, chosen, padLen);
    assert wire[|pad|..|pad| + |sent|] == sent && wire[|pad|..|pad| + 8] == sent[..8];
    InitiatorFinds(c, s, skey, offered, wire, |pad|);
    InitiatorReadsReply(c, ks, wire, |pad|, offered, chosen, padLen);
  }

  lemma {:induction false} BothOffered(chosen: nat, offered: nat)
    requires Supported(chosen)
    ensures Merkle.BitAnd(chosen, offered) == chosen || Merkle.BitAnd(chosen, offered) == 0
  {
    assert Merkle.BitAnd(1, offered) == if offered == 0 then 0 else 2 * Merkle.BitAnd(0, offered / 2) + offered % 2;
    assert Merkle.BitAnd(2, offered) == if offered == 0 then 0 else 2 * Merkle.BitAnd(1, offered / 2);
    assert Merkle.BitAnd(1, offered / 2) == if offered / 2 == 0 then 0 else offered / 2 % 2;
  }

  /** A run of the handshake: what each side brings to it, how the receiver chooses, and the bytes
      that follow it. All else is computed from what is read. */
  datatype Session = Session(
    s: seq<byte>, skey: seq<byte>, skeys: seq<seq<byte>>,
    padA: seq<byte>, padB: seq<byte>, padLenA: nat, padLenB: nat,
    offered: nat, choose: nat -> nat, ia: seq<byte>, tailA: seq<byte>, tailB: seq<byte>)
  {
    /** The numbers have their widths, and pads their bound. */
    ghost predicate Valid() {
      && offered < UINT32 && (forall m :: choose(m) < UINT32) && |ia| < UINT16
      && |padA| <= MAX_PAD && |padB| <= MAX_PAD && padLenA <= MAX_PAD && padLenB <= MAX_PAD
    }

    ghost function Header(): seq<byte> requires Valid() { InitiatorHeader(offered, padLenA, ia) }

    /** What the receiver answers to what it read. */
    ghost function Reply(r: Received): seq<byte> requires Valid() { ReceiverReply(r.vc, choose(r.offered), padLenB) }

    /** What each side receives after the other's public key; a receiver that fails sends no
        more than its pad. */
    ghost function ToReceiver(c: Crypto): seq<byte>
      requires Lawful(c) && Valid()
    {
      InitiatorSends(c, s, skey, padA, Header()) + tailA
    }

    ghost function ToInitiator(c: Crypto): seq<byte>
      requires Lawful(c) && Valid()
    {
      match Receiver(c)
      case None => padB
      case Some(r) => ReceiverSends(c, s, r.skey, padB, Reply(r)) + tailB
    }

    /** What the two read. */
    ghost function Receiver(c: Crypto): Option<Received>
      requires Lawful(c) && Valid()
    {
      Receive(c, s, skeys, ToReceiver(c))
    }

    ghost function Initiator(c: Crypto): Option<Selected>
      requires Lawful(c) && Valid()
    {
      Synchronise(c, s, skey, offered, ToInitiator(c))
    }

    /** The key is shared and unambiguous, and each marker is first met where it was put. */
    ghost predicate Synchronised(c: Crypto)
      requires Lawful(c) && Valid()
    {
      && KeyKnown(c, s, skeys, skey)
      && NoneBefore(ToReceiver(c), c.hash(REQ1 + s), |padA|)
      && NoneBefore(ToInitiator(c), Apply(c, NewEncrypt(c, false, s, skey), 0, VC), |padB|)
    }
  }

  /** The channel of one direction once a method is agreed. */
  function ChannelFor(c: Crypto, m: nat, initer: bool, s: seq<byte>, skey: seq<byte>, pos: nat): Channel {
    if m == RC4 then Cipher(NewEncrypt(c, initer, s, skey), pos) else Plain
  }

  /** The receiver ends with the initiator's key, offer and initial payload; it read
      exactly the initiator's handshake, with the cipher where the initiator's is. */
  lemma {:induction false} ReceiverAgrees(c: Crypto, x: Session)
    requires Lawful(c) && x.Valid() && x.Synchronised(c)
    ensures x.Receiver(c) ==
            Some(Received(x.skey, VC, x.offered, x.ia, |x.ToReceiver(c)| - |x.tailA|, |x.Header()|))
  {
    hide Receive;
    ReceiverReads(c, x.s, x.skeys, x.skey, x.padA, x.offered, x.padLenA, x.ia, x.tailA, x.ToReceiver(c));
  }

  /** What the receiver answers, since it read what was sent. */
  lemma {:induction false} ReceiverAnswers(c: Crypto, x: Session)
    requires Lawful(c) && x.Valid() && x.Synchronised(c)
    ensures x.Receiver(c).Some? && x.Reply(x.Receiver(c).value) == ReceiverReply(VC, x.choose(x.offered), x.padLenB)
    ensures x.ToInitiator(c) ==
            ReceiverSends(c, x.s, x.skey, x.padB, ReceiverReply(VC, x.choose(x.offered), x.padLenB)) + x.tailB
  {
    ReceiverAgrees(c, x);
  }

  /** The initiator, on what the receiver answered. */
  lemma {:induction false} InitiatorAgrees(c: Crypto, x: Session)
    requires Lawful(c) && x.Valid() && x.Synchronised(c)
    ensures |x.ToInitiator(c)| >= |x.tailB|
    ensures var both := Merkle.BitAnd(x.choose(x.offered), x.offered);
            x.Initiator(c) ==
            if Supported(both) then
              Some(Selected(both, |x.ToInitiator(c)| - |x.tailB|, |ReceiverReply(VC, x.choose(x.offered), x.padLenB)|))
            else None
  {
    hide Receive, Synchronise;
    var wire := x.ToInitiator(c);
    assert wire == ReceiverSends(c, x.s, x.skey, x.padB, ReceiverReply(VC, x.choose(x.offered), x.padLenB)) + x.tailB by {
      ReceiverAnswers(c, x);
    }
    InitiatorReads(c, x.s, x.skey, x.padB, x.offered, x.choose(x.offered), x.padLenB, x.tailB, wire);
  }

  /** Main result: the receiver, which carries on when it chose a supported method, has read the
      initiator's key, offer and initial payload; the initiator carries on exactly when the methods
      both chosen and offered are one that is supported, and then its reads end exactly with the
      receiver's handshake, with the cipher where the receiver's is. When both carry on they hold the
      same method, and when the receiver does, so does the initiator unless it had not offered
      that method. */
  lemma {:induction false} HandshakeAgrees(c: Crypto, x: Session)
    requires Lawful(c) && x.Valid() && x.Synchronised(c)
    ensures var r, o := x.Receiver(c), x.Initiator(c);
            && r.Some? && r.value.skey == x.skey && r.value.offered == x.offered && r.value.ia == x.ia
            && (var chosen := x.choose(r.value.offered);
                var both := Merkle.BitAnd(chosen, x.offered);
                && (o.Some? <==> Supported(both))
                && (o.Some? ==> o.value == Selected(both, |x.ToInitiator(c)| - |x.tailB|, |x.Reply(r.value)|))
                && (Supported(chosen) && o.Some? ==> o.value.crypto == chosen)
                && (Supported(chosen) ==> (o.Some? <==> both != 0)))
  {
    ReceiverAgrees(c, x);
    ReceiverAnswers(c, x);
    InitiatorAgrees(c, x);
    if Supported(x.choose(x.offered)) { BothOffered(x.choose(x.offered), x.offered); }
  }

  /** A receiver whose choice is both methods at once gives up, and an initiator that offered one of
      them carries on with it. */
  lemma {:induction false} HalfOpen(c: Crypto, x: Session)
    requires Lawful(c) && x.Valid() && x.Synchronised(c)
    requires x.offered == RC4 && x.choose(RC4) == RC4 + PLAINTEXT
    ensures !Supported(x.choose(x.offered)) && x.Initiator(c).Some? && x.Initiator(c).value.crypto == RC4
  {
    InitiatorAgrees(c, x);
    assert Merkle.BitAnd(1, 1) == 1 && Merkle.BitAnd(3, 2) == 2 * Merkle.BitAnd(1, 1);
  }

  /** After a handshake that both carry on from, what either side writes in any split the other reads
      unchanged in any split: the receiver gets the initial payload first, then the
      initiator's writes; the initiator gets the receiver's writes. Each side uses the key, method
      and position it got to by itself. */
  lemma {:induction false} StreamsAgree(c: Crypto, x: Session, fromA: seq<seq<byte>>, fromB: seq<seq<byte>>, sizesA: seq<nat>, sizesB: seq<nat>)
    requires Lawful(c) && x.Valid() && x.Synchronised(c)
    requires x.Receiver(c).Some? && Supported(x.choose(x.Receiver(c).value.offered)) && x.Initiator(c).Some?
    requires x.tailA == WriteAll(c, ChannelFor(c, x.Initiator(c).value.crypto, true, x.s, x.skey, |x.Header()|), fromA)
    requires var r := x.Receiver(c).value;
             x.tailB == WriteAll(c, ChannelFor(c, x.choose(r.offered), false, x.s, r.skey, |x.Reply(r)|), fromB)
    ensures var r, o := x.Receiver(c).value, x.Initiator(c).value;
            && r.consumed <= |x.ToReceiver(c)| && o.consumed <= |x.ToInitiator(c)|
            && r.ia + ReadAll(c, ChannelFor(c, x.choose(r.offered), true, x.s, r.skey, r.pos),
                              x.ToReceiver(c)[r.consumed..], sizesB)
               == x.ia + Flatten(fromA)[..Min(Total(sizesB), |Flatten(fromA)|)]
            && ReadAll(c, ChannelFor(c, o.crypto, false, x.s, x.skey, o.pos), x.ToInitiator(c)[o.consumed..], sizesA)
               == Flatten(fromB)[..Min(Total(sizesA), |Flatten(fromB)|)]
  {
    ReceiverAgrees(c, x);
    HandshakeAgrees(c, x);
    var r, o := x.Receiver(c).value, x.Initiator(c).value;
    assert x.ToReceiver(c)[r.consumed..] == x.tailA;
    assert x.ToInitiator(c)[o.consumed..] == x.tailB;
    ChannelFaithful(c, ChannelFor(c, o.crypto, true, x.s, x.skey, |x.Header()|), fromA, sizesB);
    ChannelFaithful(c, ChannelFor(c, o.crypto, false, x.s, x.skey, |x.Reply(r)|), fromB, sizesA);
  }
}
