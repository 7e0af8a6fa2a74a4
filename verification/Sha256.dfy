/** The streaming SHA-256 of the audit core, `sha256_ctx_t` and its four operations, proved to compute
    the hash of FIPS 180-4 for every way of cutting the message into update calls. */
module Sha256 {
  import opened Fips180

  const MESSAGE_BYTES_LIMIT: nat := 0x2000_0000_0000_0000 // 2^61 bytes are 2^64 bits

  class Context {
    const data: array<Byte>
    var datalen: nat
    var bitlen: nat
    const state: array<Word>
    ghost var consumed: seq<Byte> // every byte passed to Update so far

    ghost predicate Shape() {
      data.Length == 64 && state.Length == 8
    }

    ghost function Value(): Hash
      requires Shape()
      reads state
    {
      Hash(state[0], state[1], state[2], state[3], state[4], state[5], state[6], state[7])
    }

    /** The number of consumed bytes that have been compressed already. */
    ghost function Compressed(): int
      reads this
    {
      |consumed| - datalen
    }

    ghost predicate Valid()
      reads this, data, state
    {
      && Shape()
      && datalen < 64
      && 0 <= Compressed()
      && Compressed() % 64 == 0
      && |consumed| < MESSAGE_BYTES_LIMIT
      && bitlen + 8 * datalen == 8 * |consumed|
      && data[..datalen] == consumed[Compressed()..]
      && Value() == HashBlocks(consumed[..Compressed()])
    }

    constructor ()
      ensures Valid() && consumed == [] && fresh(data) && fresh(state)
    {
      data := new Byte[64];
      state := new Word[8](_ => Word(0));
      datalen := 0;
      bitlen := 0;
      consumed := [];
      new;
      state[0] := Word(0x6a09e667);
      state[1] := Word(0xbb67ae85);
      state[2] := Word(0x3c6ef372);
      state[3] := Word(0xa54ff53a);
      state[4] := Word(0x510e527f);
      state[5] := Word(0x9b05688c);
      state[6] := Word(0x1f83d9ab);
      state[7] := Word(0x5be0cd19);
    }

    /** Expands the block in `data` to the 64 words of the message schedule. */
    method Expand() returns (m: array<Word>)
      requires Shape()
      ensures fresh(m) && m.Length == ROUNDS
      ensures forall t :: 0 <= t < ROUNDS ==> m[t] == Schedule(data[..], t)
    {
      hide Schedule, BigEndianWord, SmallSigma0, SmallSigma1, Plus;
      ghost var block := data[..];
      m := new Word[ROUNDS](_ => Word(0));
      var i, j := 0, 0;
      while i < 16
        invariant i <= 16 && j == 4 * i
        invariant forall t :: 0 <= t < i ==> m[t] == Schedule(block, t)
      {
        ScheduleLoads(block, i);
        m[i] := BigEndianWord(data[j], data[j + 1], data[j + 2], data[j + 3]);
        i, j := i + 1, j + 4;
      }
      while i < ROUNDS
        invariant 16 <= i <= ROUNDS
        invariant forall t :: 0 <= t < i ==> m[t] == Schedule(block, t)
      {
        ScheduleMixes(block, i);
        m[i] := Plus(Plus(Plus(SmallSigma1(m[i - 2]), m[i - 7]), SmallSigma0(m[i - 15])), m[i - 16]);
        i := i + 1;
      }
    }

    method Transform()
      requires Shape()
      modifies state
      ensures Value() == Compress(old(Value()), data[..])
    {
      hide BigSigma0, BigSigma1, Ch, Maj, Plus, Schedule, K;
      var m := Expand();
      var a, b, c, d := state[0], state[1], state[2], state[3];
      var e, f, g, h := state[4], state[5], state[6], state[7];
      for i := 0 to ROUNDS
        invariant Value() == old(Value())
        invariant Hash(a, b, c, d, e, f, g, h) == Rounds(data[..], old(Value()), i)
        invariant forall t :: 0 <= t < ROUNDS ==> m[t] == Schedule(data[..], t)
      {
        var t1 := Plus(Plus(Plus(Plus(h, BigSigma1(e)), Ch(e, f, g)), K(i)), m[i]);
        var t2 := Plus(BigSigma0(a), Maj(a, b, c));
        h := g;
        g := f;
        f := e;
        e := Plus(d, t1);
        d := c;
        c := b;
        b := a;
        a := Plus(t1, t2);
      }
      state[0] := Plus(state[0], a);
      state[1] := Plus(state[1], b);
      state[2] := Plus(state[2], c);
      state[3] := Plus(state[3], d);
      state[4] := Plus(state[4], e);
      state[5] := Plus(state[5], f);
      state[6] := Plus(state[6], g);
      state[7] := Plus(state[7], h);
    }

    method UpdateByte(b: Byte)
      requires Valid() && |consumed| + 1 < MESSAGE_BYTES_LIMIT
      modifies this, data, state
      ensures Valid() && consumed == old(consumed) + [b]
    {
      hide HashBlocks, Compress;
      ghost var done := consumed[..Compressed()];
      data[datalen] := b;
      datalen := datalen + 1;
      consumed := consumed + [b];
      assert data[..datalen] == consumed[Compressed()..];
      assert consumed[..Compressed()] == done;
      if datalen == 64 {
        assert consumed == done + data[..];
        Transform();
        AppendBlock(done, data[..]);
        assert consumed[..|consumed|] == consumed;
        bitlen := bitlen + 512;
        datalen := 0;
      }
    }

    method Update(bytes: seq<Byte>)
      requires Valid() && |consumed| + |bytes| < MESSAGE_BYTES_LIMIT
      modifies this, data, state
      ensures Valid() && consumed == old(consumed) + bytes
    {
      hide HashBlocks, Context.Value;
      for i := 0 to |bytes|
        invariant Valid() && consumed == old(consumed) + bytes[..i]
      {
        UpdateByte(bytes[i]);
        assert bytes[..i + 1] == bytes[..i] + [bytes[i]];
      }
      assert bytes[..|bytes|] == bytes;
    }

    /** Writes 0x80 and zeros from `datalen` up to `end`. */
    method PadUpTo(end: nat)
      requires Shape() && datalen < end <= 64
      modifies data
      ensures data[..end] == old(data[..datalen]) + [0x80] + Zeros(end - datalen - 1)
    {
      var i := datalen;
      data[i] := 0x80;
      i := i + 1;
      while i < end
        invariant datalen < i <= end
        invariant data[..i] == old(data[..datalen]) + [0x80] + Zeros(i - datalen - 1)
      {
        data[i] := 0x00;
        i := i + 1;
        assert data[..i] == data[..i - 1] + [0x00];
      }
    }

    /** Stores the 64-bit length in the last eight bytes: `(uint8_t)(bitlen >> 8 * e)` is its byte `e`. */
    method StoreLength()
      requires Shape()
      modifies data
      ensures data[..56] == old(data[..56])
      ensures data[56..] == BigEndian(bitlen, 8)
    {
      hide ByteOf;
      data[63] := ByteOf(bitlen, 0);
      data[62] := ByteOf(bitlen, 1);
      data[61] := ByteOf(bitlen, 2);
      data[60] := ByteOf(bitlen, 3);
      data[59] := ByteOf(bitlen, 4);
      data[58] := ByteOf(bitlen, 5);
      data[57] := ByteOf(bitlen, 6);
      data[56] := ByteOf(bitlen, 7);
    }

    /** Leaves the last block of the padded message in `data`, all but its length field. */
    method PadBlocks() returns (ghost done: seq<Byte>)
      requires Valid()
      modifies data, state
      ensures |done| % 64 == 0 && Value() == HashBlocks(done)
      ensures done + data[..56] == consumed + [0x80] + Zeros(ZeroBytes(|consumed|))
    {
      hide HashBlocks, Compress, Zeros;
      done := consumed[..Compressed()];
      ghost var tail := data[..datalen];
      assert consumed == done + tail;
      if datalen < 56 {
        PadUpTo(56);
        OneBlock(done, tail);
      } else {
        PadUpTo(64);
        ghost var first := data[..];
        assert first == data[..64];
        Transform();
        AppendBlock(done, first);
        ClearBlock();
        TwoBlocks(done, tail);
        done := done + first;
      }
    }

    method ClearBlock()
      requires Shape()
      modifies data
      ensures data[..56] == Zeros(56)
    {
      for i := 0 to 56
        invariant forall k :: 0 <= k < i ==> data[k] == 0
      {
        data[i] := 0;
      }
    }

    method Final(hash: array<Byte>)
      requires Valid() && hash.Length == 32 && hash != data
      modifies this, data, state, hash
      ensures hash[..] == Sha256(old(consumed))
    {
      hide HashBlocks, Compress, BigEndian, HashBytes;
      ghost var done := PadBlocks();
      bitlen := bitlen + datalen * 8;
      StoreLength();
      assert data[..] == data[..56] + data[56..];
      AppendBlock(done, data[..]);
      assert done + data[..] == Padded(consumed);
      Transform();
      WriteHash(hash);
    }

    /** Writes the eight state words, most significant byte first. */
    method WriteHash(hash: array<Byte>)
      requires Shape() && hash.Length == 32
      modifies hash
      ensures hash[..] == HashBytes(Value())
    {
      hide WordByte;
      for i := 0 to 4
        invariant forall w, k :: 0 <= w < 8 && 0 <= k < i ==> hash[4 * w + k] == WordBytes(state[w])[k]
      {
        for w := 0 to 8
          invariant forall v, k :: 0 <= v < 8 && 0 <= k < i ==> hash[4 * v + k] == WordBytes(state[v])[k]
          invariant forall v :: 0 <= v < w ==> hash[4 * v + i] == WordBytes(state[v])[i]
        {
          hash[4 * w + i] := WordByte(state[w], 24 - (i as bv6) * 8);
        }
      }
    }
  }

  lemma AppendBlock(done: seq<Byte>, block: seq<Byte>)
    requires |done| % 64 == 0 && |block| == 64
    ensures HashBlocks(done + block) == Compress(HashBlocks(done), block)
  {
    assert (done + block)[..|done|] == done;
    assert (done + block)[|done|..] == block;
  }

  lemma ScheduleLoads(block: seq<Byte>, t: nat)
    requires |block| == 64 && t < 16
    ensures Schedule(block, t) == BigEndianWord(block[4 * t], block[4 * t + 1], block[4 * t + 2], block[4 * t + 3])
  {
  }

  lemma ScheduleMixes(block: seq<Byte>, t: nat)
    requires |block| == 64 && 16 <= t < ROUNDS
    ensures Schedule(block, t) ==
      Plus(Plus(Plus(SmallSigma1(Schedule(block, t - 2)), Schedule(block, t - 7)),
                SmallSigma0(Schedule(block, t - 15))), Schedule(block, t - 16))
  {
  }

  /** A tail that leaves room for the length field ends in the same block as the length. */
  lemma OneBlock(done: seq<Byte>, tail: seq<Byte>)
    requires |done| % 64 == 0 && |tail| < 56
    ensures done + (tail + [0x80] + Zeros(55 - |tail|)) == done + tail + [0x80] + Zeros(ZeroBytes(|done + tail|))
  {
  }

  /** A longer tail spills its zeros over into a block of their own. */
  lemma TwoBlocks(done: seq<Byte>, tail: seq<Byte>)
    requires |done| % 64 == 0 && 56 <= |tail| < 64
    ensures done + (tail + [0x80] + Zeros(63 - |tail|)) + Zeros(56)
         == done + tail + [0x80] + Zeros(ZeroBytes(|done + tail|))
  {
    assert Zeros(63 - |tail|) + Zeros(56) == Zeros(ZeroBytes(|done + tail|));
  }

  // ---- Hexadecimal digests

  function HexDigit(n: nat): char
    requires n < 16
  {
    if n < 10 then '0' + n as char else 'a' + (n - 10) as char
  }

  function Hex(bytes: seq<Byte>): (s: string)
    ensures |s| == 2 * |bytes|
  {
    if bytes == [] then ""
    else
      var n := |bytes| - 1;
      Hex(bytes[..n]) + [HexDigit(bytes[n] as nat / 16), HexDigit(bytes[n] as nat % 16)]
  }

  lemma {:induction false} HexInjective(x: seq<Byte>, y: seq<Byte>)
    requires Hex(x) == Hex(y)
    ensures x == y
    decreases |x|
  {
    hide HexDigit;
    if x != [] {
      var n := |x| - 1;
      var a, b := Hex(x), Hex(y);
      SameDigits(x[n], y[n], a[2 * n], a[2 * n + 1]);
      assert a[..2 * n] == Hex(x[..n]) && b[..2 * n] == Hex(y[..n]);
      HexInjective(x[..n], y[..n]);
      assert x == x[..n] + [x[n]] && y == y[..n] + [y[n]];
    }
  }

  lemma SameDigits(x: Byte, y: Byte, high: char, low: char)
    requires HexDigit(x as nat / 16) == high == HexDigit(y as nat / 16)
    requires HexDigit(x as nat % 16) == low == HexDigit(y as nat % 16)
    ensures x == y
  {
  }

  lemma {:induction false} HexAlphabet(bytes: seq<Byte>)
    ensures forall c :: c in Hex(bytes) ==> '0' <= c <= '9' || 'a' <= c <= 'f'
  {
    if bytes != [] {
      HexAlphabet(bytes[..|bytes| - 1]);
    }
  }

  /** The bytes of a C string. */
  function Bytes(text: string): (r: seq<Byte>)
    ensures |r| == |text|
  {
    seq(|text|, i requires 0 <= i < |text| => (text[i] as int % 256) as Byte)
  }

  /** Every character is one C `char`. */
  predicate ByteText(text: string) {
    forall i :: 0 <= i < |text| ==> text[i] as int < 256
  }

  lemma BytesInjective(x: string, y: string)
    requires ByteText(x) && ByteText(y) && Bytes(x) == Bytes(y)
    ensures x == y
  {
    forall i | 0 <= i < |x|
      ensures x[i] == y[i]
    {
      assert Bytes(x)[i] == Bytes(y)[i];
    }
  }

  /** The hexadecimal SHA-256 digest of a C string. */
  function HashHex(text: string): string { Hex(Sha256(Bytes(text))) }

  method ComputeHashHex(payload: string) returns (hex: string)
    requires |payload| < MESSAGE_BYTES_LIMIT
    ensures hex == HashHex(payload)
  {
    hide Sha256;
    var digest := new Byte[32];
    var ctx := new Context();
    ctx.Update(Bytes(payload));
    assert ctx.consumed == Bytes(payload);
    ctx.Final(digest);
    hex := "";
    for i := 0 to 32
      invariant hex == Hex(digest[..i])
    {
      hex := hex + [HexDigit(digest[i] as nat / 16), HexDigit(digest[i] as nat % 16)];
      assert digest[..i + 1] == digest[..i] + [digest[i]];
    }
    assert digest[..32] == digest[..];
  }
}
