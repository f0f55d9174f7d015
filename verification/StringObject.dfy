/** String objects: a growing, terminated buffer that clients read and write in chunks
    (string.c). Locking as such is part of the object graph; here it is a flag. */
module StringObject {
  import opened Wrappers

  const NUL: Byte := 0
  const SPACE: Byte := 32

  const INT32_MAX: nat := 0x7fff_ffff
  const UINT32_LIMIT: nat := 0x1_0000_0000
  const SET_CHUNK_LENGTH: nat := 58
  const GET_CHUNK_LENGTH: nat := 63

  datatype Result = Success | OutOfRange | ObjectIsLocked | NoFreeMemory

  predicate NulFree(s: seq<Byte>) { forall i | 0 <= i < |s| :: s[i] != NUL }

  /** strnlen: the bytes of a request buffer up to the first NUL. */
  function UpToNul(s: seq<Byte>): (r: seq<Byte>)
    ensures r <= s && NulFree(r) && (|r| < |s| ==> s[|r|] == NUL)
  {
    if s == [] || s[0] == NUL then [] else [s[0]] + UpToNul(s[1..])
  }

  lemma {:induction false} UpToNulIs(a: seq<Byte>, s: seq<Byte>)
    requires NulFree(a) && a <= s && (|a| < |s| ==> s[|a|] == NUL)
    ensures UpToNul(s) == a
  {
    if a != [] {
      assert a[0] == s[0] != NUL && a[1..] <= s[1..];
      UpToNulIs(a[1..], s[1..]);
    }
  }

  // ----- the text that a chunk leaves behind -----

  function Spaces(n: nat): seq<Byte> { seq(n, _ => SPACE) }

  function Longer(a: nat, b: nat): nat { if a < b then b else a }

  /** The text with the chunk written over it; a gap before the chunk is filled with spaces. */
  function Overlay(text: seq<Byte>, offset: nat, chunk: seq<Byte>): seq<Byte> {
    if chunk == [] then text
    else if |text| < offset then text + Spaces(offset - |text|) + chunk
    else if |text| <= offset + |chunk| then text[..offset] + chunk
    else text[..offset] + chunk + text[offset + |chunk|..]
  }

  /** Every position has the byte of the chunk, of the text, or a space. */
  lemma OverlayAt(text: seq<Byte>, offset: nat, chunk: seq<Byte>)
    ensures |Overlay(text, offset, chunk)| == if chunk == [] then |text| else Longer(|text|, offset + |chunk|)
    ensures forall i | 0 <= i < |Overlay(text, offset, chunk)| ::
              Overlay(text, offset, chunk)[i] ==
                if offset <= i < offset + |chunk| then chunk[i - offset] else if i < |text| then text[i] else 32
  {
  }

  /** Chunks that do not overlap can be written in any order. */
  lemma ChunksCommute(text: seq<Byte>, o: nat, c: seq<Byte>, p: nat, d: seq<Byte>)
    requires o + |c| <= p || p + |d| <= o
    ensures Overlay(Overlay(text, o, c), p, d) == Overlay(Overlay(text, p, d), o, c)
  {
    OverlayAt(text, o, c);
    OverlayAt(text, p, d);
    OverlayAt(Overlay(text, o, c), p, d);
    OverlayAt(Overlay(text, p, d), o, c);
    hide Overlay;
    var a, b := Overlay(Overlay(text, o, c), p, d), Overlay(Overlay(text, p, d), o, c);
    assert |a| == |b|;
    assert forall i | 0 <= i < |a| :: a[i] == b[i];
  }

  /** A chunk written again, or another of the same length in its place: the last one counts. */
  lemma LastChunkCounts(text: seq<Byte>, o: nat, c: seq<Byte>, d: seq<Byte>)
    requires |c| == |d|
    ensures Overlay(Overlay(text, o, c), o, d) == Overlay(text, o, d)
  {
    OverlayAt(text, o, c);
    OverlayAt(text, o, d);
    OverlayAt(Overlay(text, o, c), o, d);
    hide Overlay;
    var a, b := Overlay(Overlay(text, o, c), o, d), Overlay(text, o, d);
    assert |a| == |b|;
    assert forall i | 0 <= i < |a| :: a[i] == b[i];
  }

  lemma OverlayNulFree(text: seq<Byte>, offset: nat, chunk: seq<Byte>)
    requires NulFree(text) && NulFree(chunk)
    ensures NulFree(Overlay(text, offset, chunk))
  {
    OverlayAt(text, offset, chunk);
  }

  class String {
    var buffer: array<Byte>
    var length: nat
    var locked: bool

    /** The text fits into the buffer, there is no terminator inside of it, and behind it there
        is one, if there is room for it. */
    ghost predicate Sound()
      reads this, buffer
    {
      && length <= buffer.Length <= INT32_MAX + 1 && length <= INT32_MAX && NulFree(buffer[..length])
      && (length < buffer.Length ==> buffer[length] == NUL)
    }

    /** Like the header says: in addition, the buffer is always terminated. */
    ghost predicate Valid()
      reads this, buffer
    {
      Sound() && length < buffer.Length
    }

    ghost function Text(): (t: seq<Byte>)
      requires length <= buffer.Length
      reads this, buffer
      ensures |t| == length
    {
      buffer[..length]
    }

    /** string_allocate and string_wrap, when there is memory: reserve is at most INT32_MAX, and
        grown is what the allocation is rounded up to. */
    constructor (reserve: nat, data: seq<Byte>, grown: nat)
      requires |UpToNul(data)| <= INT32_MAX && reserve <= INT32_MAX
      requires Longer(reserve, |UpToNul(data)|) < grown <= INT32_MAX + 1
      ensures Valid() && Text() == UpToNul(data) && buffer.Length == grown && !locked && fresh(buffer)
    {
      var text := UpToNul(data);
      buffer, length, locked := new Byte[grown](i => if 0 <= i < |text| then text[i] else NUL), |text|, false;
      new;
      assert buffer[..length] == text;
    }

    /** string_truncate. It terminates a string that was not. */
    method Truncate(n: nat) returns (e: Result)
      requires Sound()
      modifies this, buffer
      ensures Sound() && buffer == old(buffer) && locked == old(locked)
      ensures e == if old(locked) then ObjectIsLocked else Success
      ensures Text() == if e.Success? && n < |old(Text())| then old(Text())[..n] else old(Text())
      ensures Valid() <==> old(Valid()) || (e.Success? && n < |old(Text())|)
    {
      if locked {
        return ObjectIsLocked;
      }
      if n < length {
        length := n;
        buffer[length] := NUL;
      }
      e := Success;
    }

    /** string_reserve. */
    method Reserve(reserve: nat, memory: bool, grown: nat) returns (e: Result)
      requires length <= buffer.Length && reserve < UINT32_LIMIT
      requires reserve <= INT32_MAX ==> reserve < grown <= INT32_MAX + 1
      modifies this`buffer
      ensures e == if reserve > INT32_MAX then OutOfRange
                   else if reserve + 1 > old(buffer.Length) && !memory then NoFreeMemory else Success
      ensures if e.Success? && reserve + 1 > old(buffer.Length) then
                buffer.Length == grown && fresh(buffer) && buffer[..old(buffer.Length)] == old(buffer[..])
              else buffer == old(buffer)
    {
      if reserve > INT32_MAX {
        return OutOfRange;
      }
      if reserve + 1 <= buffer.Length {
        return Success;
      }
      if !memory {
        return NoFreeMemory;
      }
      var bytes := buffer[..];
      buffer := new Byte[grown](i => if 0 <= i < |bytes| then bytes[i] else NUL);
      assert buffer[..|bytes|] == bytes;
      e := Success;
    }

    /** The gap and the chunk are written; the terminator is not. */
    method WriteChunk(offset: nat, chunk: seq<Byte>)
      requires length <= buffer.Length && offset + |chunk| <= buffer.Length && chunk != []
      modifies buffer
      ensures buffer[..Longer(length, offset + |chunk|)] == Overlay(old(Text()), offset, chunk)
      ensures forall i | offset + |chunk| <= i < buffer.Length && length <= i :: buffer[i] == old(buffer[i])
    {
      var i := length;
      while i < offset
        invariant length <= i <= Longer(length, offset)
        invariant forall k | 0 <= k < length :: buffer[k] == old(buffer[k])
        invariant forall k | length <= k < i :: buffer[k] == SPACE
        invariant forall k | i <= k < buffer.Length :: buffer[k] == old(buffer[k])
      {
        buffer[i] := SPACE;
        i := i + 1;
      }
      forall k | 0 <= k < |chunk| {
        buffer[offset + k] := chunk[k];
      }
      OverlayAt(old(Text()), offset, chunk);
      hide Overlay;
      assert buffer[..Longer(length, offset + |chunk|)] == Overlay(old(Text()), offset, chunk);
    }

    /** string_set_chunk. Space for the terminator is only made when the chunk itself does not
        fit: a chunk that ends exactly at the end of the buffer leaves the string unterminated
        as far as its buffer goes. It stays so until more is written behind it, or it is cut. */
    method SetChunk(offset: nat, data: seq<Byte>, memory: bool, grown: nat) returns (e: Result)
      requires Sound() && offset < UINT32_LIMIT && |data| == SET_CHUNK_LENGTH
      requires offset + |UpToNul(data)| <= INT32_MAX ==> offset + |UpToNul(data)| < grown <= INT32_MAX + 1
      modifies this`buffer, this`length, buffer
      ensures Sound() && locked == old(locked) && (buffer == old(buffer) || fresh(buffer))
      ensures Valid() <==>
                if e.Success? && UpToNul(data) != [] && offset + |UpToNul(data)| >= old(buffer.Length)
                then offset + |UpToNul(data)| > old(buffer.Length)
                else old(Valid())
      ensures e == if locked then ObjectIsLocked
                   else if offset > INT32_MAX || offset + |UpToNul(data)| > INT32_MAX then OutOfRange
                   else if UpToNul(data) != [] && offset + |UpToNul(data)| > old(buffer.Length) && !memory
                   then NoFreeMemory
                   else Success
      ensures Text() == if e.Success? then Overlay(old(Text()), offset, UpToNul(data)) else old(Text())
      ensures if e.Success? && UpToNul(data) != [] && offset + |UpToNul(data)| > old(buffer.Length)
              then buffer.Length == grown
              else buffer == old(buffer)
    {
      if locked {
        return ObjectIsLocked;
      }
      if offset > INT32_MAX {
        return OutOfRange;
      }
      var chunk := UpToNul(data);
      var end := (offset + |chunk|) % UINT32_LIMIT;
      assert end == offset + |chunk|;
      if end > INT32_MAX {
        return OutOfRange;
      }
      if |chunk| == 0 {
        return Success;
      }
      ghost var before := Text();
      if end > buffer.Length {
        e := Reserve(end, memory, grown);
        if !e.Success? {
          return;
        }
        assert buffer[..length] == buffer[..old(buffer.Length)][..length] == before;
      }
      OverlayNulFree(before, offset, chunk);
      WriteChunk(offset, chunk);
      if end > length {
        length := end;
        if length < buffer.Length {
          buffer[length] := NUL;
        }
      }
      e := Success;
    }

    /** string_get_chunk: the text from the offset on, filled up with NULs. */
    method GetChunk(offset: nat) returns (e: Result, chunk: seq<Byte>)
      requires length <= buffer.Length
      ensures e == if offset > INT32_MAX || offset > length then OutOfRange else Success
      ensures |chunk| == GET_CHUNK_LENGTH
      ensures e.Success? ==> chunk == ChunkOf(Text(), offset)
    {
      var zeros := seq(GET_CHUNK_LENGTH, _ => NUL);
      if offset > INT32_MAX {
        return OutOfRange, zeros;
      }
      if offset > length {
        return OutOfRange, zeros;
      }
      var n := length - offset;
      if n == 0 {
        return Success, zeros;
      }
      if n > GET_CHUNK_LENGTH {
        n := GET_CHUNK_LENGTH;
      }
      chunk := buffer[offset..offset + n] + seq(GET_CHUNK_LENGTH - n, _ => NUL);
      e := Success;
    }
  }

  /** What one download request returns. */
  function ChunkOf(text: seq<Byte>, offset: nat): (c: seq<Byte>)
    requires offset <= |text|
    ensures |c| == GET_CHUNK_LENGTH
  {
    var n := if |text| - offset > GET_CHUNK_LENGTH then GET_CHUNK_LENGTH else |text| - offset;
    text[offset..offset + n] + seq(GET_CHUNK_LENGTH - n, _ => NUL)
  }

  /** A chunk says how much text there is in it, as texts contain no NUL. */
  lemma ChunkSays(text: seq<Byte>, offset: nat)
    requires NulFree(text) && offset <= |text|
    ensures UpToNul(ChunkOf(text, offset)) ==
              text[offset..if |text| - offset > GET_CHUNK_LENGTH then offset + GET_CHUNK_LENGTH else |text|]
  {
    var n := if |text| - offset > GET_CHUNK_LENGTH then GET_CHUNK_LENGTH else |text| - offset;
    var c := ChunkOf(text, offset);
    assert c[..n] == text[offset..offset + n];
    UpToNulIs(text[offset..offset + n], c);
  }

  // ----- whole texts -----

  function Filled(s: seq<Byte>): seq<Byte>
    requires |s| <= SET_CHUNK_LENGTH
  {
    s + seq(SET_CHUNK_LENGTH - |s|, _ => NUL)
  }

  /** GROW_ALLOCATION: it makes room for the terminator, and no more than is documented. */
  ghost predicate Grows(grow: nat -> nat) {
    forall n | 0 <= n <= INT32_MAX :: n < grow(n) <= INT32_MAX + 1
  }

  /** The size of the buffer after n bytes were uploaded in chunks into one of the given size. */
  function SizeAfter(size: nat, n: nat, grow: nat -> nat): nat {
    if n == 0 then size
    else
      var before := SizeAfter(size, (n - 1) / SET_CHUNK_LENGTH * SET_CHUNK_LENGTH, grow);
      if n > before then grow(n) else before
  }

  /** If there is enough room from the start, the buffer stays as it is. */
  lemma {:induction false} EnoughRoom(size: nat, n: nat, grow: nat -> nat)
    requires n <= size
    ensures SizeAfter(size, n, grow) == size
  {
    if n > 0 {
      EnoughRoom(size, (n - 1) / SET_CHUNK_LENGTH * SET_CHUNK_LENGTH, grow);
    }
  }

  /** A client uploads a text in chunks, into an empty string of any size, whose buffer grows on
      the way. In the end it is terminated unless the text fills the buffer exactly. */
  method Upload(s: String, text: seq<Byte>, grow: nat -> nat)
    requires s.Valid() && !s.locked && s.Text() == [] && NulFree(text) && |text| <= INT32_MAX && Grows(grow)
    modifies s`buffer, s`length, s.buffer
    ensures s.Sound() && s.Text() == text && s.buffer.Length == SizeAfter(old(s.buffer.Length), |text|, grow)
    ensures s.Valid() <==> text == [] || SizeAfter(old(s.buffer.Length), |text|, grow) != |text|
  {
    ghost var size := s.buffer.Length;
    assert SizeAfter(size, 0, grow) == size;
    hide Overlay, UpToNul, SizeAfter;
    var offset := 0;
    while offset < |text|
      invariant offset <= |text| && (offset % SET_CHUNK_LENGTH == 0 || offset == |text|)
      invariant s.Sound() && !s.locked && s.Text() == text[..offset] && (offset == 0 ==> s.Valid())
      invariant s.buffer == old(s.buffer) || fresh(s.buffer)
      invariant s.buffer.Length == SizeAfter(size, offset, grow)
    {
      var end := if offset + SET_CHUNK_LENGTH < |text| then offset + SET_CHUNK_LENGTH else |text|;
      var chunk := text[offset..end];
      assert Filled(chunk)[..|chunk|] == chunk;
      UpToNulIs(chunk, Filled(chunk));
      NextChunk(text, offset, end);
      ChunkStart(size, offset, end, grow);
      var e := s.SetChunk(offset, Filled(chunk), true, grow(end));
      offset := end;
    }
  }

  lemma ChunkStart(size: nat, offset: nat, end: nat, grow: nat -> nat)
    requires offset % SET_CHUNK_LENGTH == 0 && offset < end <= offset + SET_CHUNK_LENGTH
    ensures end == offset + SET_CHUNK_LENGTH ==> end % SET_CHUNK_LENGTH == 0
    ensures var before := SizeAfter(size, offset, grow);
            SizeAfter(size, end, grow) == if end > before then grow(end) else before
  {
    assert (end - 1) / SET_CHUNK_LENGTH * SET_CHUNK_LENGTH == offset;
  }

  lemma NextChunk(text: seq<Byte>, offset: nat, end: nat)
    requires offset < end <= |text|
    ensures Overlay(text[..offset], offset, text[offset..end]) == text[..end]
  {
  }

  /** Another client downloads it again, until a chunk is not full. */
  method Download(s: String) returns (text: seq<Byte>)
    requires s.Sound()
    ensures text == s.Text()
  {
    hide ChunkOf, UpToNul;
    text := [];
    while true
      invariant |text| <= s.length && text == s.Text()[..|text|]
      decreases s.length - |text|
    {
      ChunkSays(s.Text(), |text|);
      var e, chunk := s.GetChunk(|text|);
      var part := UpToNul(chunk);
      text := text + part;
      if |part| < GET_CHUNK_LENGTH {
        return;
      }
    }
  }

  /** Uploading any text and downloading it again returns it exactly, whatever was reserved for
      it and however often the buffer had to grow, even when no terminator is left. */
  method Transfer(text: seq<Byte>, reserve: nat, grow: nat -> nat) returns (received: seq<Byte>, terminated: bool)
    requires NulFree(text) && |text| <= INT32_MAX && reserve <= INT32_MAX && Grows(grow)
    ensures received == text
    ensures terminated <==> text == [] || SizeAfter(grow(reserve), |text|, grow) != |text|
    ensures |text| <= reserve ==> terminated
  {
    hide Overlay, UpToNul;
    UpToNulIs([], []);
    var s := new String(reserve, [], grow(reserve));
    if |text| <= reserve {
      EnoughRoom(grow(reserve), |text|, grow);
    }
    Upload(s, text, grow);
    received := Download(s);
    terminated := s.length < s.buffer.Length;
  }

  /** With allocations rounded up to 16 bytes, a text of 64 bytes that is uploaded into a new
      string is not terminated: the first chunk makes a buffer of 64 bytes. */
  method Unterminated() returns (s: String)
    ensures s.Sound() && !s.Valid() && s.Text() == Spaces(64)
  {
    var grow := (n: nat) => if n <= INT32_MAX then (n / 16 + 1) * 16 else n;
    UpToNulIs([], []);
    s := new String(0, [], grow(0));
    assert SizeAfter(16, 58, grow) == 64 by { assert SizeAfter(16, 0, grow) == 16; }
    assert SizeAfter(16, 64, grow) == 64;
    Upload(s, Spaces(64), grow);
  }
}
