/** The reader and writer that a cipher is put around, as objects whose key stream position
    moves as bytes go through (mse/mse.go). */
module MseStreams {
  import opened Bytes
  import opened Mse

  /** The stream cipher and how far along its key stream it is. */
  class StreamCipher {
    const c: Crypto
    const ks: nat -> byte
    var pos: nat

    constructor (c: Crypto, ks: nat -> byte)
      ensures this.c == c && this.ks == ks && pos == 0
    {
      this.c, this.ks, pos := c, ks, 0;
    }

    function Now(): Channel
      reads this
    {
      Cipher(ks, pos)
    }

    /** XORKeyStream: enciphers the source into the front of the destination. */
    method XorKeyStream(dst: array<byte>, src: seq<byte>)
      requires |src| <= dst.Length
      modifies this, dst
      ensures dst[..|src|] == old(Now()).Code(c, src) && dst[|src|..] == old(dst[|src|..])
      ensures Now() == old(Now()).Advance(|src|)
    {
      var i := 0;
      while i < |src|
        invariant i <= |src| && pos == old(pos) + i
        invariant forall j :: 0 <= j < i ==> dst[j] == c.xor(src[j], ks(old(pos) + j))
        invariant forall j :: i <= j < dst.Length ==> dst[j] == old(dst[j])
      {
        dst[i] := c.xor(src[i], ks(pos));
        pos := pos + 1;
        i := i + 1;
      }
    }
  }

  class CipherReader {
    const cipher: StreamCipher
    var wire: seq<byte>

    constructor (cipher: StreamCipher, wire: seq<byte>)
      ensures this.cipher == cipher && this.wire == wire
    {
      this.cipher, this.wire := cipher, wire;
    }

    /** Read: as much as the reader underneath gives, at most the buffer, deciphered. */
    method Read(b: array<byte>, given: nat) returns (n: nat)
      requires given <= b.Length && given <= |wire|
      modifies this, cipher, b
      ensures n == given && wire == old(wire)[n..]
      ensures b[..n] == old(cipher.Now()).Code(cipher.c, old(wire)[..n]) && b[n..] == old(b[n..])
      ensures cipher.Now() == old(cipher.Now()).Advance(n)
    {
      n := given;
      var be := wire[..n];
      wire := wire[n..];
      cipher.XorKeyStream(b, be);
    }
  }

  class CipherWriter {
    var cipher: StreamCipher?
    var sent: seq<byte>

    constructor (cipher: StreamCipher)
      ensures this.cipher == cipher && sent == []
    {
      this.cipher, sent := cipher, [];
    }

    /** Write: the data enciphered, of which the writer underneath takes the front. If it does not
        take it all, the cipher is ahead of the stream and is given up. */
    method Write(b: seq<byte>, taken: nat) returns (n: nat)
      requires cipher != null && taken <= |b|
      modifies this, cipher
      ensures n == taken && sent == old(sent) + old(cipher.Now()).Code(old(cipher).c, b[..n])
      ensures old(cipher).Now() == old(cipher.Now()).Advance(|b|)
      ensures cipher == if n == |b| then old(cipher) else null
    {
      ghost var ch := cipher.Now();
      var be := new byte[|b|];
      cipher.XorKeyStream(be, b);
      CodeSplit(cipher.c, ch, b[..taken], b[taken..]);
      assert b[..taken] + b[taken..] == b && be[..|b|][..taken] == be[..taken];
      n, sent := taken, sent + be[..taken];
      if n != |b| { cipher := null; }
    }

    /** A sequence of writes, all taken whole, puts on the wire what the channel says. */
    method WriteEach(writes: seq<seq<byte>>)
      requires cipher != null
      modifies this, cipher
      ensures cipher == old(cipher) && sent == old(sent) + WriteAll(cipher.c, old(cipher.Now()), writes)
      ensures cipher.Now() == old(cipher.Now()).Advance(|Flatten(writes)|)
    {
      ghost var all := sent + WriteAll(cipher.c, cipher.Now(), writes);
      var i := 0;
      while i < |writes|
        invariant i <= |writes| && cipher == old(cipher)
        invariant sent + WriteAll(cipher.c, cipher.Now(), writes[i..]) == all
        invariant cipher.Now().Advance(|Flatten(writes[i..])|) == old(cipher.Now()).Advance(|Flatten(writes)|)
      {
        assert writes[i..][1..] == writes[i + 1..] && writes[i][..|writes[i]|] == writes[i];
        Regroup(sent, cipher.Now().Code(cipher.c, writes[i]),
                WriteAll(cipher.c, cipher.Now().Advance(|writes[i]|), writes[i + 1..]));
        var n := Write(writes[i], |writes[i]|);
        i := i + 1;
      }
    }

    /** Writes of which the last is cut short: the wire holds the front of what the channel says,
        so the reader at the other end gets the front of the data, and no more is written. */
    method WriteShort(writes: seq<seq<byte>>, b: seq<byte>, taken: nat)
      requires cipher != null && taken < |b|
      modifies this, cipher
      ensures cipher == null
      ensures sent == old(sent) + old(cipher.Now()).Code(old(cipher).c, Flatten(writes) + b[..taken])
    {
      ghost var c, ch, before := cipher.c, cipher.Now(), sent;
      WriteEach(writes);
      WritesConcatenate(c, ch, writes);
      ghost var ch1 := cipher.Now();
      CodeSplit(c, ch, Flatten(writes), b[..taken]);
      var n := Write(b, taken);
      Regroup(before, ch.Code(c, Flatten(writes)), ch1.Code(c, b[..taken]));
    }
  }
}
