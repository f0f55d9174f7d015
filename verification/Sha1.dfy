/** SHA-1 and keyed hashing as the C bindings do it (ip_connection.c): bytes come in pieces of any
    size, complete blocks are absorbed as soon as they are there, and the message schedule is
    computed in a window of 16 words. */
module Sha1 {
  import opened Sha1Spec

  /** How the host stores a word. */
  datatype Host = LittleEndian | BigEndianHost

  /** A word as memcpy puts it into memory. */
  function RawWord(host: Host, block: seq<Octet>, i: nat): Word
    requires |block| == BLOCK_LENGTH && i < 16
  {
    if host.LittleEndian? then BigEndian(block[4 * i + 3], block[4 * i + 2], block[4 * i + 1], block[4 * i])
    else WordAt(block, i)
  }

  function Htonl(host: Host, w: Word): Word {
    if host.LittleEndian?
    then ((w & 0xFF) << 24) | ((w & 0xFF00) << 8) | ((w >> 8) & 0xFF00) | (w >> 24)
    else w
  }

  lemma SwapBytes(b0: Octet, b1: Octet, b2: Octet, b3: Octet)
    ensures Htonl(LittleEndian, BigEndian(b3, b2, b1, b0)) == BigEndian(b0, b1, b2, b3)
  {
  }

  /** The macro rol. */
  function Rol(value: Word, bits: nat): Word
    requires bits == 1 || bits == 5 || bits == 30
  {
    if bits == 1 then Rol1(value) else if bits == 5 then Rol5(value) else Rol30(value)
  }

  /** The round functions as the macros write them, with fewer operations. */
  function MacroF(t: nat, w: Word, x: Word, y: Word): Word {
    if t < 20 then (w & (x ^ y)) ^ y
    else if t < 40 then w ^ x ^ y
    else if t < 60 then ((w | x) & y) | (w & x)
    else w ^ x ^ y
  }

  lemma Choose(w: Word, x: Word, y: Word)
    ensures (w & (x ^ y)) ^ y == (w & x) | (!w & y)
  {
  }

  lemma Majority(w: Word, x: Word, y: Word)
    ensures ((w | x) & y) | (w & x) == (w & x) | (w & y) | (x & y)
  {
  }

  lemma MacroIsF(t: nat, w: Word, x: Word, y: Word)
    ensures MacroF(t, w, x, y) == F(t, w, x, y)
  {
    Choose(w, x, y);
    Majority(w, x, y);
  }

  /** What a macro adds to z. */
  function Increased(z: Word, f: Word, word: Word, k: Word, r: Word): Word { z + (f + word + k + r) }

  lemma SumInAnyOrder(z: Word, f: Word, word: Word, k: Word, r: Word)
    ensures Increased(z, f, word, k, r) == Total(r, f, z, word, k)
  {
  }

  // ----- the window of 16 words -----

  /** Before round t the window holds the last 16 words of the schedule, or, in the first 16
      rounds, the block as it was copied from place t on. */
  ghost predicate Window(host: Host, words: seq<Word>, block: seq<Octet>, t: nat)
    requires |block| == BLOCK_LENGTH && |words| == 16
  {
    && (forall j: nat | j < t <= j + 16 :: words[j % 16] == W(block, j))
    && (forall k: nat | t <= k < 16 :: words[k] == RawWord(host, block, k))
  }

  /** The macros blk0 and blk: the word of round t goes to its place in the window. */
  function NextWord(host: Host, words: seq<Word>, t: nat): Word
    requires |words| == 16
  {
    if t < 16 then Htonl(host, words[t])
    else Rol(Xor(words[(t + 13) % 16], words[(t + 8) % 16], words[(t + 2) % 16], words[t % 16]), 1)
  }

  lemma FirstWords(host: Host, block: seq<Octet>, t: nat)
    requires |block| == BLOCK_LENGTH && t < 16
    ensures Htonl(host, RawWord(host, block, t)) == WordAt(block, t)
  {
    SwapBytes(block[4 * t], block[4 * t + 1], block[4 * t + 2], block[4 * t + 3]);
  }

  lemma WordFromWindow(host: Host, words: seq<Word>, block: seq<Octet>, t: nat)
    requires |block| == BLOCK_LENGTH && |words| == 16 && Window(host, words, block, t)
    ensures NextWord(host, words, t) == W(block, t)
  {
    hide RawWord, WordAt, Htonl, Window, Xor, Rol1;
    if t < 16 {
      FirstWords(host, block, t);
      CopiedWord(host, words, block, t);
    } else {
      EarlierWord(host, words, block, t, 3);
      EarlierWord(host, words, block, t, 8);
      EarlierWord(host, words, block, t, 14);
      EarlierWord(host, words, block, t, 16);
    }
  }

  lemma CopiedWord(host: Host, words: seq<Word>, block: seq<Octet>, t: nat)
    requires |block| == BLOCK_LENGTH && |words| == 16 && Window(host, words, block, t) && t < 16
    ensures words[t] == RawWord(host, block, t)
  {
    hide W, RawWord;
  }

  /** The word of d rounds before. */
  lemma EarlierWord(host: Host, words: seq<Word>, block: seq<Octet>, t: nat, d: nat)
    requires |block| == BLOCK_LENGTH && |words| == 16 && Window(host, words, block, t) && 0 < d <= 16 <= t
    ensures words[(t + 16 - d) % 16] == W(block, t - d)
  {
    hide W, RawWord;
    assert (t + 16 - d) % 16 == (t - d) % 16;
  }

  /** The schedule of section 6.2 is the one of section 6.1. */
  lemma WindowMoves(host: Host, words: seq<Word>, block: seq<Octet>, t: nat)
    requires |block| == BLOCK_LENGTH && |words| == 16 && Window(host, words, block, t)
    ensures NextWord(host, words, t) == W(block, t)
    ensures Window(host, words[t % 16 := W(block, t)], block, t + 1)
  {
    WordFromWindow(host, words, block, t);
    hide W, RawWord, NextWord;
    forall j: nat | j < t + 1 <= j + 16
      ensures words[t % 16 := W(block, t)][j % 16] == W(block, j)
    {
      OtherPlace(j, t);
    }
  }

  /** Places less than 16 rounds apart are different. */
  lemma OtherPlace(j: nat, t: nat)
    requires j <= t < j + 16
    ensures j % 16 == t % 16 ==> j == t
  {
  }

  // ----- the rounds -----

  /** The macros R0 to R4: one round, with the working variables in the order of its turn. */
  method Round(host: Host, words: array<Word>, v: Word, w: Word, x: Word, y: Word, z: Word, t: nat,
               ghost block: seq<Octet>)
    returns (z': Word, w': Word)
    requires words.Length == 16 && |block| == BLOCK_LENGTH && Window(host, words[..], block, t)
    modifies words
    ensures Window(host, words[..], block, t + 1)
    ensures z' == Temp(Hash(v, w, x, y, z), t, W(block, t)) && w' == Rol30(w)
  {
    ghost var before := words[..];
    WindowMoves(host, before, block, t);
    RoundSum(v, w, x, y, z, t, W(block, t));
    Expand(host, words, t);
    hide W, Window, Rol, Rol30, MacroF, K, Temp, NextWord, Increased;
    z' := Increased(z, MacroF(t, w, x, y), words[t % 16], K(t), Rol(v, 5));
    w' := Rol(w, 30);
  }

  /** The macros blk0 and blk. */
  method Expand(host: Host, words: array<Word>, t: nat)
    requires words.Length == 16
    modifies words
    ensures words[..] == old(words[..])[t % 16 := NextWord(host, old(words[..]), t)]
  {
    if t < 16 {
      words[t] := Htonl(host, words[t]);
    } else {
      words[t % 16] := Rol(Xor(words[(t + 13) % 16], words[(t + 8) % 16], words[(t + 2) % 16], words[t % 16]), 1);
    }
  }

  lemma RoundSum(v: Word, w: Word, x: Word, y: Word, z: Word, t: nat, word: Word)
    ensures Increased(z, MacroF(t, w, x, y), word, K(t), Rol(v, 5)) == Temp(Hash(v, w, x, y, z), t, word)
    ensures Rol(w, 30) == Rol30(w)
  {
    hide MacroF, F, K, Rol5, Rol30, Increased, Total;
    MacroIsF(t, w, x, y);
    SumInAnyOrder(z, F(t, w, x, y), word, K(t), Rol5(v));
  }

  lemma NextRound(h: Hash, block: seq<Octet>, t: nat)
    requires |block| == BLOCK_LENGTH
    ensures var g := Rounds(h, block, t);
            Rounds(h, block, t + 1) == Hash(Temp(g, t, W(block, t)), g.a, Rol30(g.b), g.c, g.d)
  {
  }

  /** memcpy of a block into the window. */
  method CopyBlock(host: Host, block: seq<Octet>) returns (words: array<Word>)
    requires |block| == BLOCK_LENGTH
    ensures fresh(words) && words.Length == 16 && Window(host, words[..], block, 0)
  {
    words := new Word[16](i requires 0 <= i < 16 => RawWord(host, block, i));
  }

  /** sha1_transform; the 80 rounds are written out in the C code. After five rounds the working
      variables are back in their places. */
  method Transform(host: Host, h: Hash, block: seq<Octet>) returns (h': Hash)
    requires |block| == BLOCK_LENGTH
    ensures h' == Compress(h, block)
  {
    var words := CopyBlock(host, block);
    var a, b, c, d, e := h.a, h.b, h.c, h.d, h.e;
    var t, turns := 0, 0;
    assert Rounds(h, block, 0) == h;
    hide W, Window, Temp, Rol30, Rounds, Sum;
    while turns < 16
      invariant turns <= 16 && t == 5 * turns && fresh(words) && words.Length == 16
      invariant Window(host, words[..], block, t) && Rounds(h, block, t) == Hash(a, b, c, d, e)
    {
      e, b := ReferenceRound(host, words, a, b, c, d, e, t, h, block);
      d, a := ReferenceRound(host, words, e, a, b, c, d, t + 1, h, block);
      c, e := ReferenceRound(host, words, d, e, a, b, c, t + 2, h, block);
      b, d := ReferenceRound(host, words, c, d, e, a, b, t + 3, h, block);
      a, c := ReferenceRound(host, words, b, c, d, e, a, t + 4, h, block);
      t, turns := t + 5, turns + 1;
    }
    h' := Sum(h, Hash(a, b, c, d, e));
  }

  /** A round, seen as one step of the reference. */
  method ReferenceRound(host: Host, words: array<Word>, v: Word, w: Word, x: Word, y: Word, z: Word, t: nat,
                        ghost h: Hash, ghost block: seq<Octet>)
    returns (z': Word, w': Word)
    requires words.Length == 16 && |block| == BLOCK_LENGTH && Window(host, words[..], block, t)
    requires Rounds(h, block, t) == Hash(v, w, x, y, z)
    modifies words
    ensures Window(host, words[..], block, t + 1)
    ensures Rounds(h, block, t + 1) == Hash(z', v, w', x, y)
  {
    hide W, Window, Temp, Rol30, Rounds;
    NextRound(h, block, t);
    z', w' := Round(host, words, v, w, x, y, z, t, block);
  }

  // ----- hashing in pieces -----

  lemma CountIsLength(n: nat)
    ensures 8 * n % COUNT_LIMIT / 8 % BLOCK_LENGTH == n % BLOCK_LENGTH
    ensures (8 * n % COUNT_LIMIT) % 512 == 8 * (n % BLOCK_LENGTH)
    ensures 8 * n < COUNT_LIMIT ==> 8 * n % COUNT_LIMIT == 8 * n
  {
    var m := Reduced(n);
    EightTimes(m);
  }

  lemma Reduced(n: nat) returns (m: nat)
    ensures 8 * n % COUNT_LIMIT == 8 * m && m % BLOCK_LENGTH == n % BLOCK_LENGTH
  {
    var q := 8 * n / COUNT_LIMIT;
    assert 8 * n % COUNT_LIMIT == 8 * (n - q * 0x2000_0000_0000_0000);
    m := n - q * 0x2000_0000_0000_0000;
    assert n == m + (q * 0x80_0000_0000_0000) * BLOCK_LENGTH;
    Multiple(m, q * 0x80_0000_0000_0000);
  }

  lemma EightTimes(m: nat)
    ensures 8 * m / 8 == m && 8 * m % 512 == 8 * (m % 64)
  {
  }

  lemma Multiple(m: nat, k: nat)
    ensures (m + k * BLOCK_LENGTH) % BLOCK_LENGTH == m % BLOCK_LENGTH
  {
  }

  lemma {:induction false} Wraps(x: nat, k: nat)
    ensures (x + k * COUNT_LIMIT) % COUNT_LIMIT == x % COUNT_LIMIT
    decreases k
  {
    if k > 0 {
      Wraps(x, k - 1);
      assert x + k * COUNT_LIMIT == (x + (k - 1) * COUNT_LIMIT) + COUNT_LIMIT;
    }
  }

  /** Counting in 64 bits wraps around, but loses nothing else. */
  lemma CountAdds(n: nat, d: nat)
    ensures (8 * n % COUNT_LIMIT + 8 * d % COUNT_LIMIT) % COUNT_LIMIT == 8 * (n + d) % COUNT_LIMIT
  {
    var p, q := 8 * n / COUNT_LIMIT, 8 * d / COUNT_LIMIT;
    var x := (8 * n - p * COUNT_LIMIT) + (8 * d - q * COUNT_LIMIT);
    assert 8 * (n + d) == x + (p + q) * COUNT_LIMIT;
    Wraps(x, p + q);
  }

  /** Another whole block right from the data. */
  lemma NextBlock(message: seq<Octet>, data: seq<Octet>, i: nat)
    requires i + BLOCK_LENGTH <= |data| && (|message| + i) % BLOCK_LENGTH == 0
    ensures Absorb(INITIAL, message + data[..i + BLOCK_LENGTH])
            == Compress(Absorb(INITIAL, message + data[..i]), data[i..i + BLOCK_LENGTH])
    ensures (|message| + (i + BLOCK_LENGTH)) % BLOCK_LENGTH == 0
  {
    hide Absorb, Compress;
    var m, d := message + data[..i], data[i..i + BLOCK_LENGTH];
    assert message + data[..i + BLOCK_LENGTH] == m + d;
    assert Tail(m) == [] && Tail(m) + d == d;
    AbsorbBlock(INITIAL, m, d);
  }

  /** The rest of the data, which does not fill a block, is left over. */
  lemma LeftOver(message: seq<Octet>, data: seq<Octet>, i: nat)
    requires i <= |data| < i + BLOCK_LENGTH && (|message| + i) % BLOCK_LENGTH == 0
    ensures Absorb(INITIAL, message + data) == Absorb(INITIAL, message + data[..i])
    ensures Tail(message + data) == data[i..]
    ensures |message + data| % BLOCK_LENGTH == |data| - i
  {
    hide Absorb, Compress;
    var whole := message + data[..i];
    assert |message + data| == |whole| + (|data| - i);
    assert Whole(message + data) == whole;
    AbsorbWhole(INITIAL, message + data);
  }

  lemma SmallSum(n: nat, d: nat)
    requires n % BLOCK_LENGTH + d < BLOCK_LENGTH
    ensures (n + d) % BLOCK_LENGTH == n % BLOCK_LENGTH + d
  {
  }

  lemma ShortData(message: seq<Octet>, data: seq<Octet>)
    requires |Tail(message)| + |data| < BLOCK_LENGTH
    ensures Absorb(INITIAL, message + data) == Absorb(INITIAL, message)
    ensures Tail(message + data) == Tail(message) + data
    ensures |message + data| % BLOCK_LENGTH == |Tail(message)| + |data|
  {
    hide Absorb, Whole, Tail;
    SamePart(message, data);
    AbsorbWhole(INITIAL, message + data);
    AbsorbWhole(INITIAL, message);
  }

  lemma SamePart(message: seq<Octet>, data: seq<Octet>)
    requires |Tail(message)| + |data| < BLOCK_LENGTH
    ensures Whole(message + data) == Whole(message) && Tail(message + data) == Tail(message) + data
    ensures |message + data| % BLOCK_LENGTH == |Tail(message)| + |data|
  {
    SmallSum(|message|, |data|);
    CutBefore(message, data, |message| - |message| % BLOCK_LENGTH);
  }

  lemma CutBefore(a: seq<Octet>, b: seq<Octet>, n: nat)
    requires n <= |a|
    ensures (a + b)[..n] == a[..n] && (a + b)[n..] == a[n..] + b
  {
  }

  class Context {
    const host: Host
    var state: Hash
    var count: nat
    var buffer: array<Octet>
    ghost var message: seq<Octet>   // everything hashed so far

    /** All complete blocks are absorbed, the rest is in the buffer, and the number of bits is
        counted in 64 bits. */
    ghost predicate Valid()
      reads this, buffer
    {
      && buffer.Length == BLOCK_LENGTH
      && state == Absorb(INITIAL, message)
      && count == 8 * |message| % COUNT_LIMIT
      && buffer[..|message| % BLOCK_LENGTH] == Tail(message)
    }

    /** sha1_init. */
    constructor (host: Host)
      ensures Valid() && message == [] && this.host == host && fresh(buffer)
    {
      this.host := host;
      state, count, message := INITIAL, 0, [];
      buffer := new Octet[BLOCK_LENGTH](_ => 0);
    }

    method Copy(j: nat, data: seq<Octet>)
      requires j + |data| <= buffer.Length
      modifies buffer
      ensures buffer[..j + |data|] == old(buffer[..j]) + data
    {
      forall k | 0 <= k < |data| {
        buffer[j + k] := data[k];
      }
    }

    /** sha1_update. */
    method Update(data: seq<Octet>)
      requires Valid()
      modifies this, buffer
      ensures Valid() && message == old(message) + data && buffer == old(buffer)
    {
      hide Absorb, Compress;
      CountIsLength(|message|);
      CountAdds(|message|, |data|);
      var j := count / 8 % BLOCK_LENGTH;
      count := (count + 8 * |data| % COUNT_LIMIT) % COUNT_LIMIT;
      if j + |data| > 63 {
        var i := Blocks(j, data);
        assert buffer[..0] == [];
        Copy(0, data[i..]);
        LeftOver(message, data, i);
      } else {
        Copy(j, data);
        ShortData(message, data);
      }
      message := message + data;
    }

    /** The buffer is filled up and absorbed, and then as many blocks as there are. */
    method Blocks(j: nat, data: seq<Octet>) returns (i: nat)
      requires buffer.Length == BLOCK_LENGTH && state == Absorb(INITIAL, message)
      requires j == |message| % BLOCK_LENGTH && j + |data| > 63 && buffer[..j] == Tail(message)
      modifies `state, buffer
      ensures i <= |data| < i + BLOCK_LENGTH && (|message| + i) % BLOCK_LENGTH == 0
      ensures state == Absorb(INITIAL, message + data[..i])
    {
      hide Absorb, Compress;
      i := BLOCK_LENGTH - j;
      Copy(j, data[..i]);
      assert buffer[..] == buffer[..BLOCK_LENGTH];
      AbsorbBlock(INITIAL, message, data[..i]);
      state := Transform(host, state, buffer[..]);
      while i + 63 < |data|
        invariant i <= |data| && (|message| + i) % BLOCK_LENGTH == 0
        invariant state == Absorb(INITIAL, message + data[..i])
      {
        NextBlock(message, data, i);
        state := Transform(host, state, data[i..i + BLOCK_LENGTH]);
        i := i + BLOCK_LENGTH;
      }
    }

    /** sha1_final. */
    method Final() returns (digest: seq<Octet>)
      requires Valid() && 8 * |message| < COUNT_LIMIT
      modifies this, buffer
      ensures digest == Digest(old(message))
    {
      hide Absorb, Compress, LengthBytes, ZeroCount, BytesOf;
      ghost var m := message;
      CountIsLength(|m|);
      var length := CountBytes(count);
      Update([0x80]);
      var zeros := PadWithZeros(m);
      Update(length);
      assert message == Padded(m);
      digest := StateBytes(state);
    }

    /** Zeros are added one by one until the length fits behind them. */
    method PadWithZeros(ghost m: seq<Octet>) returns (zeros: nat)
      requires Valid() && message == m + [0x80]
      modifies this, buffer
      ensures Valid() && message == m + [0x80] + Zeros(ZeroCount(|m|)) && buffer == old(buffer)
    {
      hide Absorb, Compress;
      zeros := 0;
      CountIsLength(|message|);
      assert message == m + [0x80] + Zeros(0);
      while count % 512 != 448
        invariant Valid() && buffer == old(buffer) && message == m + [0x80] + Zeros(zeros)
        invariant zeros <= ZeroCount(|m|)
        invariant count % 512 == 8 * (|message| % BLOCK_LENGTH)
        decreases ZeroCount(|m|) - zeros
      {
        NotYet(|m|, zeros);
        Update([0]);
        zeros := zeros + 1;
        CountIsLength(|message|);
        assert Zeros(zeros - 1) + [0] == Zeros(zeros);
      }
      NotYet(|m|, zeros);
    }
  }

  /** The bytes of the count, independent of the host. */
  method CountBytes(count: nat) returns (bytes: seq<Octet>)
    ensures bytes == LengthBytes(count)
  {
    bytes := [];
    for i := 0 to 8
      invariant |bytes| == i && forall k | 0 <= k < i :: bytes[k] == CountByte(count, k)
    {
      bytes := bytes + [(count / Scale(7 - i) % 256) as Octet];
    }
  }

  method StateBytes(state: Hash) returns (digest: seq<Octet>)
    ensures digest == BytesOf(state)
  {
    var words := [state.a, state.b, state.c, state.d, state.e];
    digest := [];
    hide ByteOf;
    for i := 0 to DIGEST_LENGTH
      invariant |digest| == i && forall k | 0 <= k < i :: digest[k] == ByteOf(words[k / 4], k % 4)
    {
      digest := digest + [ByteOf(words[i / 4], i % 4)];
    }
  }

  lemma NotYet(n: nat, zeros: nat)
    requires zeros <= ZeroCount(n)
    ensures (n + 1 + zeros) % BLOCK_LENGTH == 56 <==> zeros == ZeroCount(n)
  {
  }

  function Concat(parts: seq<seq<Octet>>): seq<Octet> {
    if parts == [] then [] else Concat(parts[..|parts| - 1]) + parts[|parts| - 1]
  }

  lemma ConcatOf(parts: seq<seq<Octet>>)
    ensures |parts| == 1 ==> Concat(parts) == parts[0]
    ensures |parts| == 2 ==> Concat(parts) == parts[0] + parts[1]
  {
  }

  /** However the message is cut into pieces, and however the host stores words, the digest is
      that of the whole message. */
  method HashParts(host: Host, parts: seq<seq<Octet>>) returns (digest: seq<Octet>)
    requires 8 * |Concat(parts)| < COUNT_LIMIT
    ensures digest == Digest(Concat(parts)) && |digest| == DIGEST_LENGTH
    ensures |parts| == 1 ==> digest == Digest(parts[0])
    ensures |parts| == 2 ==> digest == Digest(parts[0] + parts[1])
  {
    ConcatOf(parts);
    hide Digest, Context.Valid;
    var sha1 := new Context(host);
    for i := 0 to |parts|
      invariant sha1.Valid() && sha1.message == Concat(parts[..i]) && fresh(sha1) && fresh(sha1.buffer)
    {
      sha1.Update(parts[i]);
      assert parts[..i + 1][..i] == parts[..i];
    }
    assert parts[..|parts|] == parts;
    digest := sha1.Final();
  }

  /** The key is xored byte by byte, and the rest of the pad is filled. */
  method Pad(key: seq<Octet>, b: Octet) returns (pad: seq<Octet>)
    requires |key| <= BLOCK_LENGTH
    ensures pad == Xored(key + Zeros(BLOCK_LENGTH - |key|), b)
  {
    var bytes := new Octet[BLOCK_LENGTH](_ => 0);
    for i := 0 to |key|
      invariant forall k | 0 <= k < i :: bytes[k] == key[k] ^ b
    {
      bytes[i] := key[i] ^ b;
    }
    for i := |key| to BLOCK_LENGTH
      invariant forall k | 0 <= k < |key| :: bytes[k] == key[k] ^ b
      invariant forall k | |key| <= k < i :: bytes[k] == b
    {
      bytes[i] := b;
    }
    assert 0 ^ b == b;
    pad := bytes[..];
  }

  /** hmac_sha1. */
  method HmacSha1(host: Host, secret: seq<Octet>, data: seq<Octet>) returns (digest: seq<Octet>)
    requires 8 * |secret| < COUNT_LIMIT && 8 * (BLOCK_LENGTH + |data|) < COUNT_LIMIT
    ensures digest == Hmac(secret, data)
  {
    hide Digest, Xored;
    var key := secret;
    if |secret| > BLOCK_LENGTH {
      ConcatOf([secret]);
      key := HashParts(host, [secret]);
    }
    assert BlockKey(secret) == key + Zeros(BLOCK_LENGTH - |key|);
    hide BlockKey;
    var ipad := Pad(key, 0x36);
    XoredLength(BlockKey(secret), 0x36);
    ConcatOf([ipad, data]);
    var inner := HashParts(host, [ipad, data]);
    var opad := Pad(key, 0x5C);
    XoredLength(BlockKey(secret), 0x5C);
    ConcatOf([opad, inner]);
    digest := HashParts(host, [opad, inner]);
  }

  lemma XoredLength(s: seq<Octet>, b: Octet)
    ensures |Xored(s, b)| == |s|
  {
  }
}
