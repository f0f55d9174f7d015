/** The secure hash algorithm as RFC 3174 describes it, with the 80-word message schedule of
    section 6.1 and the padding of section 4, and keyed hashing as in section 2 of RFC 2104. */
module Sha1Spec {

  type Octet = bv8
  type Word = bv32

  const BLOCK_LENGTH: nat := 64
  const DIGEST_LENGTH: nat := 20
  const COUNT_LIMIT: nat := 0x1_0000_0000_0000_0000

  datatype Hash = Hash(a: Word, b: Word, c: Word, d: Word, e: Word)

  const INITIAL := Hash(0x67452301, 0xEFCDAB89, 0x98BADCFE, 0x10325476, 0xC3D2E1F0)

  function Rol1(x: Word): Word { (x << 1) | (x >> 31) }

  function Rol5(x: Word): Word { (x << 5) | (x >> 27) }

  function Rol30(x: Word): Word { (x << 30) | (x >> 2) }

  /** The logical function of round t. */
  function F(t: nat, b: Word, c: Word, d: Word): Word {
    if t < 20 then (b & c) | (!b & d)
    else if t < 40 then b ^ c ^ d
    else if t < 60 then (b & c) | (b & d) | (c & d)
    else b ^ c ^ d
  }

  function K(t: nat): Word {
    if t < 20 then 0x5A827999 else if t < 40 then 0x6ED9EBA1 else if t < 60 then 0x8F1BBCDC else 0xCA62C1D6
  }

  /** Four bytes, the first one most significant. */
  function BigEndian(b0: Octet, b1: Octet, b2: Octet, b3: Octet): Word {
    (b0 as Word << 24) | (b1 as Word << 16) | (b2 as Word << 8) | b3 as Word
  }

  function WordAt(block: seq<Octet>, i: nat): Word
    requires |block| == BLOCK_LENGTH && i < 16
  {
    BigEndian(block[4 * i], block[4 * i + 1], block[4 * i + 2], block[4 * i + 3])
  }

  function Xor(a: Word, b: Word, c: Word, d: Word): Word { a ^ b ^ c ^ d }

  /** The message schedule. */
  function W(block: seq<Octet>, t: nat): Word
    requires |block| == BLOCK_LENGTH
  {
    if t < 16 then WordAt(block, t)
    else Rol1(Xor(W(block, t - 3), W(block, t - 8), W(block, t - 14), W(block, t - 16)))
  }

  function Total(a: Word, f: Word, e: Word, w: Word, k: Word): Word { a + f + e + w + k }

  function Temp(h: Hash, t: nat, w: Word): Word {
    Total(Rol5(h.a), F(t, h.b, h.c, h.d), h.e, w, K(t))
  }

  /** The working variables after t rounds. */
  function Rounds(h: Hash, block: seq<Octet>, t: nat): Hash
    requires |block| == BLOCK_LENGTH
  {
    if t == 0 then h
    else
      var g := Rounds(h, block, t - 1);
      Hash(Temp(g, t - 1, W(block, t - 1)), g.a, Rol30(g.b), g.c, g.d)
  }

  function Sum(g: Hash, h: Hash): Hash {
    Hash(g.a + h.a, g.b + h.b, g.c + h.c, g.d + h.d, g.e + h.e)
  }

  function Compress(h: Hash, block: seq<Octet>): Hash
    requires |block| == BLOCK_LENGTH
  {
    Sum(h, Rounds(h, block, 80))
  }

  /** All complete blocks, one after the other. */
  function Absorb(h: Hash, s: seq<Octet>): Hash
    decreases |s|
  {
    if |s| < BLOCK_LENGTH then h else Absorb(Compress(h, s[..BLOCK_LENGTH]), s[BLOCK_LENGTH..])
  }

  /** Octet i of a number of eight bytes, the first one most significant. */
  function CountByte(count: nat, i: nat): Octet
    requires i < 8
  {
    (count / Scale(7 - i) % 256) as Octet
  }

  function Scale(n: nat): (s: nat)
    ensures s > 0
  {
    if n == 0 then 1 else 256 * Scale(n - 1)
  }

  /** The length of a message in bits, as eight bytes. */
  function LengthBytes(bits: nat): (b: seq<Octet>)
    ensures |b| == 8
  {
    seq(8, i requires 0 <= i < 8 => CountByte(bits, i))
  }

  /** As many zeros as make a multiple of 64 with the length behind them. */
  function ZeroCount(n: nat): (k: nat)
    ensures k < BLOCK_LENGTH && (n + 1 + k) % BLOCK_LENGTH == 56
  {
    (119 - n % BLOCK_LENGTH) % BLOCK_LENGTH
  }

  function Zeros(n: nat): seq<Octet> { seq(n, _ => 0) }

  function Padded(message: seq<Octet>): seq<Octet> {
    message + [0x80] + Zeros(ZeroCount(|message|)) + LengthBytes(8 * |message|)
  }

  function ByteOf(w: Word, i: nat): Octet
    requires i < 4
  {
    ((w >> (24 - 8 * i)) & 0xFF) as Octet
  }

  function BytesOf(h: Hash): (d: seq<Octet>)
    ensures |d| == DIGEST_LENGTH
  {
    var words := [h.a, h.b, h.c, h.d, h.e];
    seq(DIGEST_LENGTH, i requires 0 <= i < DIGEST_LENGTH => ByteOf(words[i / 4], i % 4))
  }

  function Digest(message: seq<Octet>): (d: seq<Octet>)
    ensures |d| == DIGEST_LENGTH
  {
    BytesOf(Absorb(INITIAL, Padded(message)))
  }

  /** The key, hashed if it is too long, and filled up with zeros. */
  function BlockKey(key: seq<Octet>): (k: seq<Octet>)
    ensures |k| == BLOCK_LENGTH
  {
    if |key| > BLOCK_LENGTH then Digest(key) + Zeros(BLOCK_LENGTH - DIGEST_LENGTH)
    else key + Zeros(BLOCK_LENGTH - |key|)
  }

  function Xored(s: seq<Octet>, b: Octet): seq<Octet> {
    seq(|s|, i requires 0 <= i < |s| => s[i] ^ b)
  }

  function Hmac(key: seq<Octet>, text: seq<Octet>): seq<Octet> {
    Digest(Xored(BlockKey(key), 0x5C) + Digest(Xored(BlockKey(key), 0x36) + text))
  }

  // ----- what the tables and shifts mean -----

  /** The constants are the first 32 bits of the square roots of 2, 3, 5 and 10. */
  lemma ConstantsAreRoots(t: nat)
    requires t < 80
    ensures var k, n := K(t) as nat, if t < 20 then 2 else if t < 40 then 3 else if t < 60 then 5 else 10;
            k * k <= n * 0x1000_0000_0000_0000 < (k + 1) * (k + 1)
  {
  }

  /** The initial state counts up and down in nibbles. */
  lemma InitialState()
    ensures INITIAL.a == BigEndian(0x67, 0x45, 0x23, 0x01) && INITIAL.b == BigEndian(0xEF, 0xCD, 0xAB, 0x89)
    ensures INITIAL.c == !INITIAL.a && INITIAL.d == !INITIAL.b && INITIAL.e == BigEndian(0xC3, 0xD2, 0xE1, 0xF0)
  {
  }

  /** A rotation moves bits up, and those that leave at the top come in at the bottom. */
  lemma RotatedBy1(x: Word)
    ensures Rol1(x) >> 1 == x & 0x7FFF_FFFF
    ensures Rol1(x) & 1 == x >> 31
  {
  }

  lemma RotatedBy5(x: Word)
    ensures Rol5(x) >> 5 == x & 0x07FF_FFFF
    ensures Rol5(x) & 31 == x >> 27
  {
  }

  lemma RotatedBy30(x: Word)
    ensures Rol30(x) >> 30 == x & 3
    ensures Rol30(x) & 0x3FFF_FFFF == x >> 2
  {
  }

  /** The most significant byte of the length comes first. */
  lemma LengthInBytes(bits: nat)
    ensures LengthBytes(bits)[0] == (bits / 0x100_0000_0000_0000 % 256) as Octet
    ensures LengthBytes(bits)[1] == (bits / 0x1_0000_0000_0000 % 256) as Octet
    ensures LengthBytes(bits)[2] == (bits / 0x100_0000_0000 % 256) as Octet
    ensures LengthBytes(bits)[3] == (bits / 0x1_0000_0000 % 256) as Octet
    ensures LengthBytes(bits)[4] == (bits / 0x100_0000 % 256) as Octet
    ensures LengthBytes(bits)[5] == (bits / 0x1_0000 % 256) as Octet
    ensures LengthBytes(bits)[6] == (bits / 0x100 % 256) as Octet
    ensures LengthBytes(bits)[7] == (bits % 256) as Octet
  {
    hide LengthBytes, CountByte, Scale;
    Scales();
    LengthByte(bits, 0);
    LengthByte(bits, 1);
    LengthByte(bits, 2);
    LengthByte(bits, 3);
    LengthByte(bits, 4);
    LengthByte(bits, 5);
    LengthByte(bits, 6);
    LengthByte(bits, 7);
  }

  lemma LengthByte(bits: nat, i: nat)
    requires i < 8
    ensures LengthBytes(bits)[i] == (bits / Scale(7 - i) % 256) as Octet
  {
    hide Scale;
  }

  lemma Scales()
    ensures Scale(0) == 1 && Scale(1) == 0x100 && Scale(2) == 0x1_0000 && Scale(3) == 0x100_0000
    ensures Scale(4) == 0x1_0000_0000 && Scale(5) == 0x100_0000_0000
    ensures Scale(6) == 0x1_0000_0000_0000 && Scale(7) == 0x100_0000_0000_0000
  {
    assert Scale(3) == 256 * Scale(2) && Scale(5) == 256 * Scale(4) && Scale(7) == 256 * Scale(6);
  }

  /** The functions choose, add and take the majority. */
  lemma Choices(b: Word, c: Word, d: Word)
    ensures F(0, 0xFFFF_FFFF, c, d) == c && F(0, 0, c, d) == d
    ensures F(20, b, b, d) == d == F(60, b, b, d) && F(20, b, c, b) == c == F(60, b, c, b)
    ensures F(40, b, b, d) == b && F(40, b, c, b) == b && F(40, b, c, c) == c
  {
  }

  // ----- blocks -----

  lemma {:induction false} AbsorbAppend(h: Hash, a: seq<Octet>, b: seq<Octet>)
    requires |a| % BLOCK_LENGTH == 0
    ensures Absorb(h, a + b) == Absorb(Absorb(h, a), b)
    decreases |a|
  {
    if a == [] {
      assert a + b == b;
    } else {
      assert (a + b)[..BLOCK_LENGTH] == a[..BLOCK_LENGTH] && (a + b)[BLOCK_LENGTH..] == a[BLOCK_LENGTH..] + b;
      AbsorbAppend(Compress(h, a[..BLOCK_LENGTH]), a[BLOCK_LENGTH..], b);
    }
  }

  /** The part of a message that is not in complete blocks. */
  function Tail(s: seq<Octet>): seq<Octet> { s[|s| - |s| % BLOCK_LENGTH..] }

  function Whole(s: seq<Octet>): seq<Octet> { s[..|s| - |s| % BLOCK_LENGTH] }

  lemma AbsorbWhole(h: Hash, s: seq<Octet>)
    ensures Absorb(h, s) == Absorb(h, Whole(s))
  {
    assert s == Whole(s) + Tail(s);
    AbsorbAppend(h, Whole(s), Tail(s));
  }

  /** One block more, made of what was left over and what follows. */
  lemma WholeAndTail(message: seq<Octet>, data: seq<Octet>)
    ensures message + data == Whole(message) + (Tail(message) + data)
    ensures |Whole(message)| % BLOCK_LENGTH == 0
  {
    assert message == Whole(message) + Tail(message);
  }

  lemma AbsorbBlock(h: Hash, message: seq<Octet>, data: seq<Octet>)
    requires |Tail(message)| + |data| == BLOCK_LENGTH
    ensures |message + data| % BLOCK_LENGTH == 0
    ensures Absorb(h, message + data) == Compress(Absorb(h, message), Tail(message) + data)
  {
    hide Absorb, Compress, Tail, Whole;
    var block := Tail(message) + data;
    WholeAndTail(message, data);
    AbsorbAppend(h, Whole(message), block);
    AbsorbWhole(h, message);
    OneBlock(Absorb(h, message), block);
  }

  lemma OneBlock(h: Hash, block: seq<Octet>)
    requires |block| == BLOCK_LENGTH
    ensures Absorb(h, block) == Compress(h, block)
  {
    hide Compress;
    assert block[..BLOCK_LENGTH] == block && block[BLOCK_LENGTH..] == [];
  }
}
