/** The bytes of the encrypted streams, and what each party makes of a handshake that is cut short
    (mse/mse.go). */
module MseWire {
  import opened Bytes
  import opened Outcomes
  import opened ReadUntil
  import opened Mse
  import Merkle

  // ---------- the bytes of a stream ----------

  /** What a party writes once a method is agreed, however it splits it: with RC4 each byte is enciphered with the key
      stream of "keyA" for the initiator and "keyB" for the receiver, 1024 bytes of it skipped; else it is as it was. */
  lemma {:induction false} StreamBytes(
    c: Crypto, m: nat, initer: bool, s: seq<byte>, skey: seq<byte>, pos: nat, writes: seq<seq<byte>>, i: nat)
    requires i < |Flatten(writes)|
    ensures var wire, data := WriteAll(c, ChannelFor(c, m, initer, s, skey, pos), writes), Flatten(writes);
            var key := [107, 101, 121, if initer then 65 else 66];
            && |wire| == |data|
            && wire[i] == if m == 2 then c.xor(data[i], c.rc4(c.hash(key + s + skey))(1024 + pos + i)) else data[i]
  {
    WritesConcatenate(c, ChannelFor(c, m, initer, s, skey, pos), writes);
    assert [107, 101, 121, if initer then 65 else 66] == if initer then KEY_A else KEY_B;
  }

  // ---------- a handshake cut short ----------

  /** A marker first met at k in the whole is not met in what ends before it does. */
  lemma {:induction false} CutBefore(sent: seq<byte>, b: seq<byte>, k: nat, n: nat, limit: nat)
    requires NoneBefore(sent, b, k) && n <= |sent| && n < k + |b|
    ensures Find(Take(sent[..n], limit), b, 0) == None
  {
    var t := Take(sent[..n], limit);
    assert t == sent[..|t|];
    forall x ensures !OccursAt(t, b, x) {
      if 0 <= x && x + |b| <= |t| {
        assert !OccursAt(sent, b, x);
        assert t[x..x + |b|] == sent[x..x + |b|];
      }
    }
    FindsNone(t, b, 0);
  }

  lemma {:induction false} CutAfter(sent: seq<byte>, b: seq<byte>, k: nat, n: nat)
    requires NoneBefore(sent, b, k) && OccursAt(sent, b, k) && k + |b| <= n <= |sent|
    ensures NoneBefore(sent[..n], b, k) && OccursAt(sent[..n], b, k)
  {
    var t := sent[..n];
    assert t[k..k + |b|] == sent[k..k + |b|];
    forall x | 0 <= x < k ensures !OccursAt(t, b, x) {
      assert !OccursAt(sent, b, x);
      assert x + |b| <= |t| ==> t[x..x + |b|] == sent[x..x + |b|];
    }
  }

  /** The end of a cut stream is the enciphered front of what was sent there. */
  lemma {:induction false} CutApply(c: Crypto, ks: nat -> byte, sent: seq<byte>, base: nat, plain: seq<byte>, n: nat)
    requires base <= n <= base + |plain| <= |sent| && sent[base..base + |plain|] == Apply(c, ks, 0, plain)
    ensures sent[..n][base..base + |plain[..n - base]|] == Apply(c, ks, 0, plain[..n - base])
  {
    var m := n - base;
    forall i | 0 <= i < m ensures sent[..n][base..n][i] == Apply(c, ks, 0, plain[..m])[i] {
      assert sent[base..base + |plain|][i] == c.xor(plain[i], ks(0 + i));
    }
    assert sent[..n][base..n] == Apply(c, ks, 0, plain[..m]);
  }

  /** What the receiver reads of the initiator's message if n bytes of it come, k of them the pad: nothing if its header
      or second pad is cut; otherwise the key and the offer, with zeroes for an initial payload that is cut and none if
      its length is. */
  function OfFirst(skey: seq<byte>, offered: nat, padLen: nat, ia: seq<byte>, k: nat, n: nat): Option<Received> {
    if n < k + 54 + padLen then None
    else if n < k + 56 + padLen then Some(Received(skey, VC, offered, [], n, n - k - 40))
    else if n < k + 56 + padLen + |ia| then Some(Received(skey, VC, offered, Zeroes(|ia|), n, n - k - 40))
    else Some(Received(skey, VC, offered, ia, k + 56 + padLen + |ia|, 16 + padLen + |ia|))
  }

  lemma {:induction false} HeaderCut(
    c: Crypto, s: seq<byte>, skey: seq<byte>, wire: seq<byte>, base: nat, offered: nat, padLen: nat, ia: seq<byte>, m: nat)
    requires Lawful(c) && offered < UINT32 && padLen <= MAX_PAD && |ia| < UINT16 && base >= 40
    requires var header := InitiatorHeader(offered, padLen, ia);
             && m <= |header| && |wire| == base + m
             && wire[base..base + m] == Apply(c, NewEncrypt(c, true, s, skey), 0, header[..m])
    ensures ReceiveHeader(c, s, skey, wire, base) == OfFirst(skey, offered, padLen, ia, base - 40, base + m)
  {
    var header := InitiatorHeader(offered, padLen, ia);
    var ks := NewEncrypt(c, true, s, skey);
    HeaderFields(offered, padLen, ia);
    hide NewEncrypt, InitiatorHeader;
    if m >= 14 {
      DecipheredHonestly(c, ks, wire, base, header[..m], 0, 14);
      assert header[..m][0..14] == header[0..14];
      BE32RoundTrip(offered);
      BE16RoundTrip(padLen);
      if m >= 16 + padLen {
        DecipheredHonestly(c, ks, wire, base, header[..m], 14 + padLen, 2);
        assert header[..m][14 + padLen..16 + padLen] == header[14 + padLen..16 + padLen];
        BE16RoundTrip(|ia|);
        if m >= 16 + padLen + |ia| {
          DecipheredHonestly(c, ks, wire, base, header[..m], 16 + padLen, |ia|);
          assert header[..m][16 + padLen..16 + padLen + |ia|] == header[16 + padLen..16 + padLen + |ia|];
        }
      }
    }
  }

  /** Cut before the key's proof is whole. */
  lemma {:induction false} EarlyCut(
    c: Crypto, s: seq<byte>, skeys: seq<seq<byte>>, sent: seq<byte>, k: nat, n: nat)
    requires Lawful(c) && k <= MAX_PAD && k + 40 <= |sent| && n < k + 40
    requires NoneBefore(sent, c.hash(REQ1 + s), k) && sent[k..k + 20] == c.hash(REQ1 + s)
    ensures Receive(c, s, skeys, sent[..n]) == None
  {
    var marker := c.hash(REQ1 + s);
    if n < k + 20 {
      CutBefore(sent, marker, k, n, MAX_PAD + 20);
    } else {
      CutAfter(sent, marker, k, n);
      FindsWithin(sent[..n], marker, k, MAX_PAD + 20);
    }
  }

  /** Cut after it. */
  lemma {:induction false} LateCut(
    c: Crypto, s: seq<byte>, skeys: seq<seq<byte>>, skey: seq<byte>, sent: seq<byte>, k: nat, n: nat)
    requires Lawful(c) && KeyKnown(c, s, skeys, skey) && k <= MAX_PAD && k + 40 <= n <= |sent|
    requires NoneBefore(sent, c.hash(REQ1 + s), k) && sent[k..k + 20] == c.hash(REQ1 + s)
    requires sent[k + 20..k + 40] == KeyProof(c, s, skey)
    ensures Receive(c, s, skeys, sent[..n]) == ReceiveHeader(c, s, skey, sent[..n], k + 40)
  {
    hide Receive, ReceiveHeader, KeyProof;
    CutAfter(sent, c.hash(REQ1 + s), k, n);
    assert sent[..n][k + 20..k + 40] == sent[k + 20..k + 40];
    ReceiverFinds(c, s, skeys, skey, sent[..n], k);
  }

  /** The receiver, on the first n bytes of the initiator's message. */
  lemma {:induction false} FirstCut(
    c: Crypto, s: seq<byte>, skeys: seq<seq<byte>>, skey: seq<byte>, pad: seq<byte>, offered: nat, padLen: nat,
    ia: seq<byte>, sent: seq<byte>, n: nat)
    requires Lawful(c) && offered < UINT32 && padLen <= MAX_PAD && |ia| < UINT16 && |pad| <= MAX_PAD
    requires sent == InitiatorSends(c, s, skey, pad, InitiatorHeader(offered, padLen, ia)) && n <= |sent|
    requires KeyKnown(c, s, skeys, skey) && NoneBefore(sent, c.hash(REQ1 + s), |pad|)
    ensures Receive(c, s, skeys, sent[..n]) == OfFirst(skey, offered, padLen, ia, |pad|, n)
  {
    hide Receive, ReceiveHeader, NewEncrypt, InitiatorHeader, InitiatorSends, KeyProof;
    var k, header := |pad|, InitiatorHeader(offered, padLen, ia);
    InitiatorLayout(c, s, skey, pad, header, []);
    assert sent + [] == sent;
    if n < k + 40 {
      EarlyCut(c, s, skeys, sent, k, n);
    } else {
      LateCut(c, s, skeys, skey, sent, k, n);
      CutApply(c, NewEncrypt(c, true, s, skey), sent, k + 40, header, n);
      HeaderCut(c, s, skey, sent[..n], k + 40, offered, padLen, ia, n - (k + 40));
    }
  }

  /** So the receiver reads on exactly if the header and its pad came, and has the payload that was sent, one that is not
      all zeroes, exactly if all of it came. */
  lemma {:induction false} PayloadWhole(
    c: Crypto, s: seq<byte>, skeys: seq<seq<byte>>, skey: seq<byte>, pad: seq<byte>, offered: nat, padLen: nat,
    ia: seq<byte>, sent: seq<byte>, n: nat)
    requires Lawful(c) && offered < UINT32 && padLen <= MAX_PAD && |ia| < UINT16 && |pad| <= MAX_PAD
    requires sent == InitiatorSends(c, s, skey, pad, InitiatorHeader(offered, padLen, ia)) && n <= |sent|
    requires KeyKnown(c, s, skeys, skey) && NoneBefore(sent, c.hash(REQ1 + s), |pad|)
    requires exists i :: 0 <= i < |ia| && ia[i] != 0
    ensures var r := Receive(c, s, skeys, sent[..n]);
            (r.Some? <==> n >= |sent| - |ia| - 2) && (r.Some? && r.value.ia == ia <==> n == |sent|)
  {
    FirstCut(c, s, skeys, skey, pad, offered, padLen, ia, sent, n);
    HeaderFields(offered, padLen, ia);
    var i :| 0 <= i < |ia| && ia[i] != 0;
    assert Zeroes(|ia|)[i] == 0;
  }

  lemma {:induction false} ReplyCut(
    c: Crypto, ks: nat -> byte, offered: nat, wire: seq<byte>, base: nat, chosen: nat, padLen: nat, m: nat)
    requires Lawful(c) && chosen < UINT32 && padLen <= MAX_PAD
    requires var reply := ReceiverReply(VC, chosen, padLen);
             && m <= |reply| && |wire| == base + m && wire[base..base + m] == Apply(c, ks, 0, reply[..m])
    ensures var both := Merkle.BitAnd(chosen, offered);
            ReadReply(c, ks, offered, wire, base)
            == if m == 14 + padLen && Supported(both) then Some(Selected(both, base + m, m)) else None
  {
    var reply := ReceiverReply(VC, chosen, padLen);
    if m >= 14 {
      assert reply[..m][8..14] == reply[8..14];
      assert reply[..m][8..14][..4] == BE32(chosen) && reply[..m][8..14][4..6] == BE16(padLen);
      DecipheredHonestly(c, ks, wire, base, reply[..m], 8, 6);
      BE32RoundTrip(chosen);
      BE16RoundTrip(padLen);
    }
  }

  /** The initiator, on the first n bytes of the receiver's message: it carries on only if all of them came. */
  lemma {:induction false} SecondCut(
    c: Crypto, s: seq<byte>, skey: seq<byte>, pad: seq<byte>, offered: nat, chosen: nat, padLen: nat, sent: seq<byte>,
    n: nat)
    requires Lawful(c) && chosen < UINT32 && padLen <= MAX_PAD && |pad| <= MAX_PAD
    requires sent == ReceiverSends(c, s, skey, pad, ReceiverReply(VC, chosen, padLen)) && n <= |sent|
    requires NoneBefore(sent, Apply(c, NewEncrypt(c, false, s, skey), 0, VC), |pad|)
    ensures var both := Merkle.BitAnd(chosen, offered);
            Synchronise(c, s, skey, offered, sent[..n])
            == if n == |sent| && Supported(both) then Some(Selected(both, n, n - |pad|)) else None
  {
    var k, ks, reply := |pad|, NewEncrypt(c, false, s, skey), ReceiverReply(VC, chosen, padLen);
    var marker, coded := Apply(c, ks, 0, VC), Apply(c, ks, 0, reply);
    ReplyBegins(c, ks, chosen, padLen);
    assert sent == pad + coded;
    assert sent[k..k + |reply|] == coded && sent[k..k + 8] == coded[..8] == marker;
    if n < k + 8 {
      CutBefore(sent, marker, k, n, MAX_PAD + 8);
    } else {
      CutAfter(sent, marker, k, n);
      InitiatorFinds(c, s, skey, offered, sent[..n], k);
      CutApply(c, ks, sent, k, reply, n);
      hide Synchronise, NewEncrypt, ReceiverReply, ReceiverSends;
      ReplyCut(c, ks, offered, sent[..n], k, chosen, padLen, n - k);
    }
  }
}
