/** SHA-256 as the Secure Hash Standard (FIPS 180-4) defines it: sections 4.1.2, 4.2.2, 5.1.1, 5.2.1,
    5.3.3 and 6.2.2.  Nothing here follows the streaming code; the code is proved against it. */
module Fips180 {
  import CText

  newtype Byte = b: int | 0 <= b < 256
  datatype Word = Word(bits: bv32)

  function Plus(x: Word, y: Word): Word { Word(x.bits + y.bits) }

  function Xor(x: Word, y: Word): Word { Word(x.bits ^ y.bits) }

  function And(x: Word, y: Word): Word { Word(x.bits & y.bits) }

  function Not(x: Word): Word { Word(!x.bits) }

  function Shr(x: Word, n: bv6): Word
    requires n <= 32
  {
    Word(x.bits >> n)
  }

  type Word32 = n: nat | n < 0x1_0000_0000

  // ---- Section 4.1.2: the six logical functions

  function Rotr(x: Word, n: bv6): Word
    requires n <= 32
  {
    Word((x.bits >> n) | (x.bits << (32 - n)))
  }

  function Ch(x: Word, y: Word, z: Word): Word { Xor(And(x, y), And(Not(x), z)) }

  function Maj(x: Word, y: Word, z: Word): Word { Xor(Xor(And(x, y), And(x, z)), And(y, z)) }

  function BigSigma0(x: Word): Word { Xor(Xor(Rotr(x, 2), Rotr(x, 13)), Rotr(x, 22)) }

  function BigSigma1(x: Word): Word { Xor(Xor(Rotr(x, 6), Rotr(x, 11)), Rotr(x, 25)) }

  function SmallSigma0(x: Word): Word { Xor(Xor(Rotr(x, 7), Rotr(x, 18)), Shr(x, 3)) }

  function SmallSigma1(x: Word): Word { Xor(Xor(Rotr(x, 17), Rotr(x, 19)), Shr(x, 10)) }

  // ---- Section 4.2.2: the constants, and what they are

  const KTAB: seq<seq<bv32>> := [
    [0x428a2f98, 0x71374491, 0xb5c0fbcf, 0xe9b5dba5, 0x3956c25b, 0x59f111f1, 0x923f82a4, 0xab1c5ed5],
    [0xd807aa98, 0x12835b01, 0x243185be, 0x550c7dc3, 0x72be5d74, 0x80deb1fe, 0x9bdc06a7, 0xc19bf174],
    [0xe49b69c1, 0xefbe4786, 0x0fc19dc6, 0x240ca1cc, 0x2de92c6f, 0x4a7484aa, 0x5cb0a9dc, 0x76f988da],
    [0x983e5152, 0xa831c66d, 0xb00327c8, 0xbf597fc7, 0xc6e00bf3, 0xd5a79147, 0x06ca6351, 0x14292967],
    [0x27b70a85, 0x2e1b2138, 0x4d2c6dfc, 0x53380d13, 0x650a7354, 0x766a0abb, 0x81c2c92e, 0x92722c85],
    [0xa2bfe8a1, 0xa81a664b, 0xc24b8b70, 0xc76c51a3, 0xd192e819, 0xd6990624, 0xf40e3585, 0x106aa070],
    [0x19a4c116, 0x1e376c08, 0x2748774c, 0x34b0bcb5, 0x391c0cb3, 0x4ed8aa4a, 0x5b9cca4f, 0x682e6ff3],
    [0x748f82ee, 0x78a5636f, 0x84c87814, 0x8cc70208, 0x90befffa, 0xa4506ceb, 0xbef9a3f7, 0xc67178f2]]

  const PRIMES: seq<seq<nat>> := [
    [2, 3, 5, 7, 11, 13, 17, 19],
    [23, 29, 31, 37, 41, 43, 47, 53],
    [59, 61, 67, 71, 73, 79, 83, 89],
    [97, 101, 103, 107, 109, 113, 127, 131],
    [137, 139, 149, 151, 157, 163, 167, 173],
    [179, 181, 191, 193, 197, 199, 211, 223],
    [227, 229, 233, 239, 241, 251, 257, 263],
    [269, 271, 277, 281, 283, 293, 307, 311]]

  function K(t: nat): Word
    requires t < 64
  {
    Word(KTAB[t / 8][t % 8])
  }

  /** `w` is the first 32 bits of the fractional part of the cube root of `p`, whose integer part is `n`. */
  predicate CubeRootFraction(w: Word32, p: nat, n: nat) {
    var v := n * 0x1_0000_0000 + w;
    var scale := 0x1_0000_0000 * 0x1_0000_0000 * 0x1_0000_0000;
    n * n * n <= p < (n + 1) * (n + 1) * (n + 1) && v * v * v <= p * scale < (v + 1) * (v + 1) * (v + 1)
  }

  /** `w` is the first 32 bits of the fractional part of the square root of `p`, whose integer part is `n`. */
  predicate SquareRootFraction(w: Word32, p: nat, n: nat) {
    var v := n * 0x1_0000_0000 + w;
    var scale := 0x1_0000_0000 * 0x1_0000_0000;
    n * n <= p < (n + 1) * (n + 1) && v * v <= p * scale < (v + 1) * (v + 1)
  }

  function CubeRoot(p: nat): nat
    requires p < 343
  {
    if p < 8 then 1 else if p < 27 then 2 else if p < 64 then 3 else if p < 125 then 4
    else if p < 216 then 5 else 6
  }

  // ---- Sections 3.1 and 5.2.1: words are big-endian

  function Joined(b0: bv32, b1: bv32, b2: bv32, b3: bv32): bv32 { (b0 << 24) | (b1 << 16) | (b2 << 8) | b3 }

  function BigEndianWord(b0: Byte, b1: Byte, b2: Byte, b3: Byte): Word {
    Word(Joined(b0 as bv32, b1 as bv32, b2 as bv32, b3 as bv32))
  }

  function WordByte(w: Word, shift: bv6): Byte
    requires shift <= 32
  {
    (((w.bits >> shift) & 0xff) as bv8) as Byte
  }

  function WordBytes(w: Word): seq<Byte> {
    [WordByte(w, 24), WordByte(w, 16), WordByte(w, 8), WordByte(w, 0)]
  }

  function Power256(e: nat): (p: nat)
    ensures p > 0
  {
    if e == 0 then 1 else 256 * Power256(e - 1)
  }

  /** The byte of `n` that counts multiples of 256 to the power `e`. */
  function ByteOf(n: nat, e: nat): Byte { (n / Power256(e) % 256) as Byte }

  /** The `k` low-order bytes of `n`, most significant first. */
  function BigEndian(n: nat, k: nat): (r: seq<Byte>)
    ensures |r| == k
  {
    seq(k, i requires 0 <= i < k => ByteOf(n, k - 1 - i))
  }

  // ---- Section 5.1.1: padding

  /** How many zero bytes follow the 0x80 byte: the least number that completes a block of 64
      once the eight length bytes are added. */
  function ZeroBytes(length: nat): (z: nat)
    ensures z < 64 && (length + 1 + z + 8) % 64 == 0
  {
    (119 - length % 64) % 64
  }

  function Zeros(n: nat): seq<Byte> { seq(n, _ => 0) }

  function Padded(message: seq<Byte>): (r: seq<Byte>)
    ensures |r| % 64 == 0 && message <= r
  {
    message + [0x80] + Zeros(ZeroBytes(|message|)) + BigEndian(8 * |message|, 8)
  }

  // ---- Section 6.2.2: the hash computation

  datatype Hash = Hash(a: Word, b: Word, c: Word, d: Word, e: Word, f: Word, g: Word, h: Word)

  const InitialHash := Hash(Word(0x6a09e667), Word(0xbb67ae85), Word(0x3c6ef372), Word(0xa54ff53a),
                            Word(0x510e527f), Word(0x9b05688c), Word(0x1f83d9ab), Word(0x5be0cd19))

  const ROUNDS: nat := 64

  function Schedule(block: seq<Byte>, t: nat): Word
    requires |block| == 64 && t < ROUNDS
  {
    if t < 16 then
      BigEndianWord(block[4 * t], block[4 * t + 1], block[4 * t + 2], block[4 * t + 3])
    else
      Plus(Plus(Plus(SmallSigma1(Schedule(block, t - 2)), Schedule(block, t - 7)),
                SmallSigma0(Schedule(block, t - 15))), Schedule(block, t - 16))
  }

  function Round(v: Hash, k: Word, w: Word): Hash {
    var t1 := Plus(Plus(Plus(Plus(v.h, BigSigma1(v.e)), Ch(v.e, v.f, v.g)), k), w);
    var t2 := Plus(BigSigma0(v.a), Maj(v.a, v.b, v.c));
    Hash(Plus(t1, t2), v.a, v.b, v.c, Plus(v.d, t1), v.e, v.f, v.g)
  }

  /** The working variables after the first `t` rounds. */
  function Rounds(block: seq<Byte>, v: Hash, t: nat): Hash
    requires |block| == 64 && t <= ROUNDS
  {
    if t == 0 then v else Round(Rounds(block, v, t - 1), K(t - 1), Schedule(block, t - 1))
  }

  function Add(x: Hash, y: Hash): Hash {
    Hash(Plus(x.a, y.a), Plus(x.b, y.b), Plus(x.c, y.c), Plus(x.d, y.d),
         Plus(x.e, y.e), Plus(x.f, y.f), Plus(x.g, y.g), Plus(x.h, y.h))
  }

  function Compress(v: Hash, block: seq<Byte>): Hash
    requires |block| == 64
  {
    Add(v, Rounds(block, v, ROUNDS))
  }

  /** The hash value after all blocks of `s`. */
  function HashBlocks(s: seq<Byte>): Hash
    requires |s| % 64 == 0
    decreases |s|
  {
    if s == [] then InitialHash
    else Compress(HashBlocks(s[..|s| - 64]), s[|s| - 64..])
  }

  function HashBytes(v: Hash): (r: seq<Byte>)
    ensures |r| == 32
  {
    WordBytes(v.a) + WordBytes(v.b) + WordBytes(v.c) + WordBytes(v.d)
    + WordBytes(v.e) + WordBytes(v.f) + WordBytes(v.g) + WordBytes(v.h)
  }

  function Sha256(message: seq<Byte>): (r: seq<Byte>)
    ensures |r| == 32
  {
    HashBytes(HashBlocks(Padded(message)))
  }

  predicate IsRoundConstant(w: bv32, p: nat) {
    p < 343 && CubeRootFraction(w as nat, p, CubeRoot(p))
  }

  /** Two table entries from column `c` on. */
  predicate TwoRoundConstants(ks: seq<bv32>, ps: seq<nat>, c: nat) {
    c + 2 <= |ks| == |ps| && IsRoundConstant(ks[c], ps[c]) && IsRoundConstant(ks[c + 1], ps[c + 1])
  }

  lemma RoundConstants0A() ensures TwoRoundConstants(KTAB[0], PRIMES[0], 0) {}
  lemma RoundConstants0B() ensures TwoRoundConstants(KTAB[0], PRIMES[0], 2) {}
  lemma RoundConstants0C() ensures TwoRoundConstants(KTAB[0], PRIMES[0], 4) {}
  lemma RoundConstants0D() ensures TwoRoundConstants(KTAB[0], PRIMES[0], 6) {}
  lemma RoundConstants1A() ensures TwoRoundConstants(KTAB[1], PRIMES[1], 0) {}
  lemma RoundConstants1B() ensures TwoRoundConstants(KTAB[1], PRIMES[1], 2) {}
  lemma RoundConstants1C() ensures TwoRoundConstants(KTAB[1], PRIMES[1], 4) {}
  lemma RoundConstants1D() ensures TwoRoundConstants(KTAB[1], PRIMES[1], 6) {}
  lemma RoundConstants2A() ensures TwoRoundConstants(KTAB[2], PRIMES[2], 0) {}
  lemma RoundConstants2B() ensures TwoRoundConstants(KTAB[2], PRIMES[2], 2) {}
  lemma RoundConstants2C() ensures TwoRoundConstants(KTAB[2], PRIMES[2], 4) {}
  lemma RoundConstants2D() ensures TwoRoundConstants(KTAB[2], PRIMES[2], 6) {}
  lemma RoundConstants3A() ensures TwoRoundConstants(KTAB[3], PRIMES[3], 0) {}
  lemma RoundConstants3B() ensures TwoRoundConstants(KTAB[3], PRIMES[3], 2) {}
  lemma RoundConstants3C() ensures TwoRoundConstants(KTAB[3], PRIMES[3], 4) {}
  lemma RoundConstants3D() ensures TwoRoundConstants(KTAB[3], PRIMES[3], 6) {}
  lemma RoundConstants4A() ensures TwoRoundConstants(KTAB[4], PRIMES[4], 0) {}
  lemma RoundConstants4B() ensures TwoRoundConstants(KTAB[4], PRIMES[4], 2) {}
  lemma RoundConstants4C() ensures TwoRoundConstants(KTAB[4], PRIMES[4], 4) {}
  lemma RoundConstants4D() ensures TwoRoundConstants(KTAB[4], PRIMES[4], 6) {}
  lemma RoundConstants5A() ensures TwoRoundConstants(KTAB[5], PRIMES[5], 0) {}
  lemma RoundConstants5B() ensures TwoRoundConstants(KTAB[5], PRIMES[5], 2) {}
  lemma RoundConstants5C() ensures TwoRoundConstants(KTAB[5], PRIMES[5], 4) {}
  lemma RoundConstants5D() ensures TwoRoundConstants(KTAB[5], PRIMES[5], 6) {}
  lemma RoundConstants6A() ensures TwoRoundConstants(KTAB[6], PRIMES[6], 0) {}
  lemma RoundConstants6B() ensures TwoRoundConstants(KTAB[6], PRIMES[6], 2) {}
  lemma RoundConstants6C() ensures TwoRoundConstants(KTAB[6], PRIMES[6], 4) {}
  lemma RoundConstants6D() ensures TwoRoundConstants(KTAB[6], PRIMES[6], 6) {}
  lemma RoundConstants7A() ensures TwoRoundConstants(KTAB[7], PRIMES[7], 0) {}
  lemma RoundConstants7B() ensures TwoRoundConstants(KTAB[7], PRIMES[7], 2) {}
  lemma RoundConstants7C() ensures TwoRoundConstants(KTAB[7], PRIMES[7], 4) {}
  lemma RoundConstants7D() ensures TwoRoundConstants(KTAB[7], PRIMES[7], 6) {}

  /** Section 4.2.2: the round constants really are fractions of cube roots of the first primes. */
  lemma RoundConstantsAreCubeRoots()
    ensures |KTAB| == |PRIMES| == 8
    ensures forall r :: 0 <= r < 8 ==> |KTAB[r]| == |PRIMES[r]| == 8
    ensures forall r, c :: 0 <= r < 8 && 0 <= c < 8 ==> IsRoundConstant(KTAB[r][c], PRIMES[r][c])
  {
    RoundConstants0A(); RoundConstants0B(); RoundConstants0C(); RoundConstants0D();
    RoundConstants1A(); RoundConstants1B(); RoundConstants1C(); RoundConstants1D();
    RoundConstants2A(); RoundConstants2B(); RoundConstants2C(); RoundConstants2D();
    RoundConstants3A(); RoundConstants3B(); RoundConstants3C(); RoundConstants3D();
    RoundConstants4A(); RoundConstants4B(); RoundConstants4C(); RoundConstants4D();
    RoundConstants5A(); RoundConstants5B(); RoundConstants5C(); RoundConstants5D();
    RoundConstants6A(); RoundConstants6B(); RoundConstants6C(); RoundConstants6D();
    RoundConstants7A(); RoundConstants7B(); RoundConstants7C(); RoundConstants7D();
  }

  /** Section 5.3.3: the initial hash value is made of fractions of square roots. */
  lemma InitialHashIsSquareRoots()
    ensures SquareRootFraction(InitialHash.a.bits as nat, 2, 1) && SquareRootFraction(InitialHash.b.bits as nat, 3, 1)
    ensures SquareRootFraction(InitialHash.c.bits as nat, 5, 2) && SquareRootFraction(InitialHash.d.bits as nat, 7, 2)
    ensures SquareRootFraction(InitialHash.e.bits as nat, 11, 3) && SquareRootFraction(InitialHash.f.bits as nat, 13, 3)
    ensures SquareRootFraction(InitialHash.g.bits as nat, 17, 4) && SquareRootFraction(InitialHash.h.bits as nat, 19, 4)
  {
  }

  /** Bytes read as a number, most significant first. */
  function Number(bytes: seq<Byte>): nat {
    if bytes == [] then 0 else 256 * Number(bytes[..|bytes| - 1]) + bytes[|bytes| - 1] as nat
  }

  /** Section 3.1: the bytes of a number that has room in them are read as that number. */
  lemma {:induction false} BigEndianIsTheNumber(n: nat, k: nat)
    requires n < Power256(k)
    ensures Number(BigEndian(n, k)) == n
  {
    hide ByteOf;
    if k > 0 {
      BigEndianIsTheNumber(n / 256, k - 1);
      var r := BigEndian(n, k);
      forall i | 0 <= i < k - 1
        ensures r[i] == BigEndian(n / 256, k - 1)[i]
      {
        HigherByte(n, k - 2 - i);
      }
      assert r[..k - 1] == BigEndian(n / 256, k - 1);
      LowestByte(n);
    }
  }

  lemma LowestByte(n: nat)
    ensures ByteOf(n, 0) as nat == n % 256
  {
  }

  lemma HigherByte(n: nat, e: nat)
    ensures ByteOf(n, e + 1) == ByteOf(n / 256, e)
  {
    DividedTwice(n, Power256(e));
  }

  lemma DividedTwice(n: nat, d: nat)
    requires d > 0
    ensures n / (256 * d) == n / 256 / d
  {
    var q, m := n / 256 / d, n / 256 % d;
    assert n == 256 * (q * d + m) + n % 256;
    assert n == (256 * d) * q + (256 * m + n % 256);
    QuotientIs(n, 256 * d, q, 256 * m + n % 256);
  }

  lemma QuotientIs(n: nat, d: nat, q: nat, m: nat)
    requires d > 0 && n == d * q + m && m < d
    ensures n / d == q
  {
    CText.SmallMultiple(d, n / d - q, m - n % d);
  }

  /** Section 6.2.2 said the other way round: the blocks in turn, each compressed into the value so far. */
  function Folded(v: Hash, s: seq<Byte>): Hash
    requires |s| % 64 == 0
    decreases |s|
  {
    if s == [] then v else Folded(Compress(v, s[..64]), s[64..])
  }

  lemma {:induction false} FoldedSnoc(v: Hash, s: seq<Byte>, block: seq<Byte>)
    requires |s| % 64 == 0 && |block| == 64
    ensures Folded(v, s + block) == Compress(Folded(v, s), block)
    decreases |s|
  {
    hide Compress;
    if s == [] {
      assert s + block == block && block[..64] == block && block[64..] == [];
    } else {
      FoldedSnoc(Compress(v, s[..64]), s[64..], block);
      assert (s + block)[..64] == s[..64] && (s + block)[64..] == s[64..] + block;
    }
  }

  /** The hash value starts at the initial value and takes the blocks in order. */
  lemma {:induction false} HashBlocksInOrder(s: seq<Byte>)
    requires |s| % 64 == 0
    ensures HashBlocks(s) == Folded(InitialHash, s)
    decreases |s|
  {
    hide Compress, InitialHash;
    if s != [] {
      var front, last := s[..|s| - 64], s[|s| - 64..];
      HashBlocksInOrder(front);
      FoldedSnoc(InitialHash, front, last);
      assert s == front + last;
    }
  }

  lemma ZeroBytesIsLeast(length: nat, z: nat)
    requires (length + 1 + z + 8) % 64 == 0
    ensures ZeroBytes(length) <= z
  {
  }
}
