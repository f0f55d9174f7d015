/** Printing integers to configuration files and parsing them back (program_config.c). */
module IntegerText {
  import opened Wrappers

  const BUFFER_SIZE: nat := 128
  const UINT64_LIMIT: nat := 0x1_0000_0000_0000_0000
  const INT64_MAX: nat := 0x7fff_ffff_ffff_ffff

  predicate Digit(c: char, base: nat) { '0' <= c <= '9' && c as nat - '0' as nat < base }

  function DigitValue(c: char): (d: nat)
    requires '0' <= c <= '9'
    ensures d < 10
  {
    c as nat - '0' as nat
  }

  function DigitOf(d: nat): (c: char)
    requires d < 10
    ensures '0' <= c <= '9' && DigitValue(c) == d
  {
    ('0' as nat + d) as char
  }

  predicate AllDigits(s: string, base: nat) {
    forall i | 0 <= i < |s| :: Digit(s[i], base)
  }

  /** The digits of a number, as printf prints it in base 10. */
  function Digits(value: nat, base: nat): (s: string)
    requires 2 <= base <= 10
    ensures s != "" && AllDigits(s, base) && (value > 0 ==> s[0] != '0') && (value == 0 ==> s == "0")
    decreases value
  {
    Quotient(value, base);
    if value < base then [DigitOf(value)] else Digits(value / base, base) + [DigitOf(value % base)]
  }

  /** The number that a sequence of digits stands for. */
  function ValueOf(s: string, base: nat): nat
    requires base <= 10 && AllDigits(s, base)
  {
    if s == "" then 0 else ValueOf(s[..|s| - 1], base) * base + DigitValue(s[|s| - 1])
  }

  function Power(base: nat, n: nat): (p: nat)
    requires base > 0
    ensures p > 0
  {
    if n == 0 then 1 else base * Power(base, n - 1)
  }

  function ZeroDigits(n: int): string { seq(if n > 0 then n else 0, _ => '0') }

  // Steps of arithmetic with products.

  lemma Quotient(value: nat, base: nat)
    requires base >= 2
    ensures value / base * base + value % base == value && 0 <= value % base < base
    ensures value > 0 ==> value / base < value
    ensures value >= base ==> value / base > 0
  {
  }

  lemma Shift(d: nat, p: nat, base: nat, r: nat)
    ensures (d * p + r) * base == d * (base * p) + r * base
  {
  }

  lemma ShiftBound(v: nat, p: nat, base: nat, d: nat)
    requires v < p && d < base
    ensures v * base + d < base * p
  {
    assert v * base <= (p - 1) * base;
  }

  lemma {:induction false} DigitsHaveValue(value: nat, base: nat)
    requires 2 <= base <= 10
    ensures ValueOf(Digits(value, base), base) == value
    decreases value
  {
    Quotient(value, base);
    if value >= base {
      var q, d := value / base, value % base;
      var s := Digits(value, base);
      assert s == Digits(q, base) + [DigitOf(d)];
      assert s[..|s| - 1] == Digits(q, base);
      DigitsHaveValue(q, base);
    }
  }

  /** Different numbers print differently. */
  lemma DigitsDiffer(a: nat, b: nat, base: nat)
    requires 2 <= base <= 10 && Digits(a, base) == Digits(b, base)
    ensures a == b
  {
    DigitsHaveValue(a, base);
    DigitsHaveValue(b, base);
  }

  lemma {:induction false} LeadingDigit(c: char, s: string, base: nat)
    requires 0 < base <= 10 && Digit(c, base) && AllDigits(s, base)
    ensures ValueOf([c] + s, base) == DigitValue(c) * Power(base, |s|) + ValueOf(s, base)
  {
    var t := [c] + s;
    if s == "" {
      assert t[..|t| - 1] == "";
    } else {
      var r := s[..|s| - 1];
      assert t[..|t| - 1] == [c] + r;
      LeadingDigit(c, r, base);
      Shift(DigitValue(c), Power(base, |r|), base, ValueOf(r, base));
      assert Power(base, |s|) == base * Power(base, |r|);
    }
  }

  lemma {:induction false} LeadingZeros(n: nat, s: string, base: nat)
    requires 0 < base <= 10 && AllDigits(s, base)
    ensures AllDigits(ZeroDigits(n) + s, base) && ValueOf(ZeroDigits(n) + s, base) == ValueOf(s, base)
    decreases n
  {
    if n == 0 {
      assert ZeroDigits(0) + s == s;
    } else {
      assert ZeroDigits(n) + s == ['0'] + (ZeroDigits(n - 1) + s);
      LeadingZeros(n - 1, s, base);
      LeadingDigit('0', ZeroDigits(n - 1) + s, base);
    }
  }

  lemma {:induction false} ValueBound(s: string, base: nat)
    requires 0 < base <= 10 && AllDigits(s, base)
    ensures ValueOf(s, base) < Power(base, |s|)
  {
    if s != "" {
      var r := s[..|s| - 1];
      ValueBound(r, base);
      ShiftBound(ValueOf(r, base), Power(base, |r|), base, DigitValue(s[|s| - 1]));
      assert Power(base, |s|) == base * Power(base, |r|);
    }
  }

  /** A number below 2^n has at most n digits. */
  lemma {:induction false} DigitCount(value: nat, n: nat)
    requires n > 0 && value < Power(2, n)
    ensures |Digits(value, 2)| <= n
    decreases n
  {
    if value >= 2 {
      assert Power(2, n) == 2 * Power(2, n - 1);
      DigitCount(value / 2, n - 1);
    }
  }

  lemma {:induction false} PowerSum(m: nat, n: nat)
    ensures Power(2, m + n) == Power(2, m) * Power(2, n)
    decreases n
  {
    if n > 0 {
      PowerSum(m, n - 1);
      TimesTwice(Power(2, m), Power(2, n - 1));
    }
  }

  lemma TimesTwice(a: nat, b: nat)
    ensures a * (2 * b) == 2 * (a * b)
  {
  }

  lemma PowerOf64()
    ensures Power(2, 64) == UINT64_LIMIT
  {
    assert Power(2, 8) == 256;
    PowerSum(8, 8);
    PowerSum(16, 16);
    PowerSum(32, 32);
  }

  lemma {:induction false} PowerGrows(m: nat, n: nat)
    requires m <= n
    ensures Power(2, m) <= Power(2, n)
    decreases n
  {
    if m < n {
      PowerGrows(m, n - 1);
    }
  }

  // ----- printing -----

  /** Base 2, padded with zeros to a minimum width. */
  function BinaryText(value: nat, width: int): string {
    "0b" + (ZeroDigits(width - |Digits(value, 2)|) + Digits(value, 2))
  }

  predicate NoNul(s: string) { forall i | 0 <= i < |s| :: s[i] != '\0' }

  /** What a C string in the buffer says. */
  function CString(buffer: seq<char>): (s: string)
    ensures NoNul(s) && |s| <= |buffer|
    ensures forall n: nat | n < |buffer| && buffer[n] == '\0' && NoNul(buffer[..n]) :: s == buffer[..n]
  {
    if buffer == [] || buffer[0] == '\0' then ""
    else
      assert forall n: nat | 0 < n <= |buffer| :: buffer[..n] == [buffer[0]] + buffer[1..][..n - 1];
      assert forall n: nat | 0 < n <= |buffer| && NoNul(buffer[..n]) :: NoNul(buffer[1..][..n - 1]);
      [buffer[0]] + CString(buffer[1..])
  }

  /** The digits are written from the end of the buffer to the left, then padded, then moved
      to the front. Widths of up to 125 stay inside of the buffer. */
  method PrintBinary(value: nat, width: int) returns (text: string)
    requires value < UINT64_LIMIT && width <= BUFFER_SIZE - 3
    ensures text == BinaryText(value, width)
  {
    var buffer := new char[BUFFER_SIZE];
    ghost var digits := Digits(value, 2);
    var i, w := PrintDigits(buffer, value, width);
    hide Digits;
    i, w := PadWithZeros(buffer, i, w, digits);
    i := WritePrefix(buffer, i, ZeroDigits(width - |digits|) + digits);
    assert buffer[i + 1..] == BinaryText(value, width);
    hide BinaryText, ZeroDigits;
    var n := BUFFER_SIZE - i - 1;
    MoveToFront(buffer, i + 1);
    buffer[n] := '\0';
    assert buffer[..n] == BinaryText(value, width);
    NoNulInText(value, width);
    text := CString(buffer[..]);
    assert buffer[..][..n] == buffer[..n];
  }

  lemma NoNulInText(value: nat, width: int)
    ensures NoNul(BinaryText(value, width))
  {
  }

  method WritePrefix(buffer: array<char>, start: int, ghost padded: string) returns (i: int)
    requires 1 <= start < buffer.Length && buffer[start + 1..] == padded
    modifies buffer
    ensures i == start - 2 && buffer[i + 1..] == "0b" + padded
  {
    i := start;
    buffer[i] := 'b';
    i := i - 1;
    buffer[i] := '0';
    assert buffer[i + 2..] == padded;
    i := i - 1;
  }

  /** memmove of the end of the buffer to its front. */
  method MoveToFront(buffer: array<char>, start: nat)
    requires start <= buffer.Length
    modifies buffer
    ensures buffer[..buffer.Length - start] == old(buffer[start..])
  {
    forall k | 0 <= k < buffer.Length - start {
      buffer[k] := buffer[start + k];
    }
  }

  /** One character more in front of those already in the buffer. */
  method Put(buffer: array<char>, i: nat, c: char)
    requires i < buffer.Length
    modifies buffer
    ensures buffer[i..] == [c] + old(buffer[i + 1..])
  {
    buffer[i] := c;
  }

  /** The digits that are still to be written. */
  ghost function LeftOver(v: nat): string { if v > 0 then Digits(v, 2) else "" }

  lemma LastDigit(v: nat, done: string, c: char)
    requires v > 0 && c == if v % 2 == 0 then '0' else '1'
    ensures LeftOver(v) + done == LeftOver(v / 2) + ([c] + done)
  {
    assert v < 2 ==> "" + [DigitOf(v)] == [DigitOf(v)];
    assert LeftOver(v) == LeftOver(v / 2) + [c];
  }

  /** Writes the digits; i is the last position not written to, w what is left of the width. */
  method PrintDigits(buffer: array<char>, value: nat, width: int) returns (i: int, w: int)
    requires buffer.Length == BUFFER_SIZE && value < UINT64_LIMIT
    modifies buffer
    ensures 63 <= i < BUFFER_SIZE && buffer[i + 1..] == Digits(value, 2) && w == width - |Digits(value, 2)|
  {
    PowerOf64();
    DigitCount(value, 64);
    i, w := BUFFER_SIZE - 1, width;
    if value == 0 {
      buffer[i] := '0';
      i := i - 1;
      w := w - 1;
      assert buffer[i + 1..] == "0";
    } else {
      var v := value;
      ghost var done := "";
      assert LeftOver(0) == "" && LeftOver(value) + "" == LeftOver(value);
      hide Digits, LeftOver, DigitOf;
      while v > 0
        invariant i == BUFFER_SIZE - 1 - |done| && |done| <= 64 && w == width - |done|
        invariant buffer[i + 1..] == done && Digits(value, 2) == LeftOver(v) + done
      {
        var c := if v % 2 == 0 then '0' else '1';
        LastDigit(v, done, c);
        done := [c] + done;
        Put(buffer, i, c);
        i := i - 1;
        w := w - 1;
        v := v / 2;
      }
      assert "" + done == done;
    }
  }

  lemma OneMoreZero(n: nat, s: string)
    ensures ZeroDigits(n + 1) + s == ['0'] + (ZeroDigits(n) + s)
  {
  }

  lemma NoZeros(n: int)
    ensures n <= 0 ==> ZeroDigits(n) == ZeroDigits(0)
  {
  }

  method PadWithZeros(buffer: array<char>, start: int, width: int, ghost digits: string) returns (i: int, w: int)
    requires buffer.Length == BUFFER_SIZE && -1 <= start < BUFFER_SIZE && width <= start - 1
    requires buffer[start + 1..] == digits
    modifies buffer
    ensures i == start - (if width > 0 then width else 0) && buffer[i + 1..] == ZeroDigits(width) + digits
  {
    i, w := start, width;
    ghost var done := digits;
    assert ZeroDigits(0) + digits == digits;
    hide ZeroDigits;
    while w > 0
      invariant w <= i - 1 && w <= width && i == start - (width - w) && (w >= 0 || w == width)
      invariant buffer[i + 1..] == done && done == ZeroDigits(width - w) + digits
    {
      OneMoreZero(width - w, digits);
      done := ['0'] + done;
      Put(buffer, i, '0');
      i := i - 1;
      w := w - 1;
    }
    NoZeros(width);
  }

  // ----- parsing -----

  predicate Space(c: char) {
    c == ' ' || c == '\n' || c == '\r' || c == '\t' || c == '\U{0b}' || c == '\U{0c}'
  }

  function SkipSpace(s: string): string {
    if s != "" && Space(s[0]) then SkipSpace(s[1..]) else s
  }

  predicate HexDigit(c: char) { '0' <= c <= '9' || 'a' <= c <= 'f' || 'A' <= c <= 'F' }

  function HexValue(c: char): nat
    requires HexDigit(c)
  {
    if '0' <= c <= '9' then DigitValue(c)
    else if 'a' <= c <= 'f' then c as nat - 'a' as nat + 10
    else c as nat - 'A' as nat + 10
  }

  /** strtoll reads as many digits as there are; the rest of the text is returned. */
  function ReadHex(s: string, value: nat): (nat, string) {
    if s != "" && HexDigit(s[0]) then ReadHex(s[1..], value * 16 + HexValue(s[0])) else (value, s)
  }

  function ReadDigits(s: string, base: nat, value: nat): (nat, string) {
    if s != "" && Digit(s[0], base) then ReadDigits(s[1..], base, value * base + DigitValue(s[0])) else (value, s)
  }

  /** strtoll with base 0, after white space: the magnitude and the rest, or nothing when there
      are no digits. A leading 0x means base 16, a leading 0 base 8. */
  function ReadMagnitude(s: string): Option<(nat, string)> {
    if |s| >= 3 && s[0] == '0' && (s[1] == 'x' || s[1] == 'X') && HexDigit(s[2]) then Some(ReadHex(s[2..], 0))
    else if s != "" && s[0] == '0' then Some(ReadDigits(s, 8, 0))
    else if s != "" && Digit(s[0], 10) then Some(ReadDigits(s, 10, 0))
    else None
  }

  /** The value that the check of errno, of the rest, and of the sign let through. */
  function DecimalOf(s: string): Option<nat> {
    if s == "" then Some(0)   // strtoll converts nothing, and nothing is left over
    else
      var negative := s[0] == '-';
      var magnitude := ReadMagnitude(if negative || s[0] == '+' then s[1..] else s);
      if magnitude.None? || magnitude.value.1 != "" then None
      else if negative then (if magnitude.value.0 == 0 then Some(0) else None)
      else if magnitude.value.0 > INT64_MAX then None
      else Some(magnitude.value.0)
  }

  predicate BinaryPrefix(s: string) { |s| >= 2 && s[0] == '0' && (s[1] == 'b' || s[1] == 'B') }

  /** The number written in an option, if program_config_get_integer accepts it. */
  function IntegerOf(text: string): Option<nat> {
    var s := SkipSpace(text);
    if BinaryPrefix(s) then
      if |s| - 2 <= 64 && AllDigits(s[2..], 2) then Some(ValueOf(s[2..], 2)) else None
    else DecimalOf(s)
  }

  /** 64-bit arithmetic. */
  function Word(x: nat): nat { x % UINT64_LIMIT }

  lemma PowerFits(n: nat)
    requires n < 64
    ensures 2 * Power(2, n) == Power(2, n + 1) <= UINT64_LIMIT && Word(Power(2, n)) == Power(2, n)
  {
    PowerOf64();
    PowerGrows(n + 1, 64);
  }

  /** One bit more to the left of up to 63 others; nothing wraps around but the last doubling. */
  lemma NextBit(c: char, tail: string)
    requires (c == '0' || c == '1') && AllDigits(tail, 2) && |tail| < 64
    ensures AllDigits([c] + tail, 2)
    ensures ValueOf([c] + tail, 2) == if c == '1' then Word(ValueOf(tail, 2) + Word(Power(2, |tail|)))
            else ValueOf(tail, 2)
    ensures Word(Word(Power(2, |tail|)) * 2) == Word(Power(2, |tail| + 1))
  {
    hide Power, ValueOf, AllDigits, Word;
    PowerFits(|tail|);
    OneMoreDigit(c, tail);
    LeadingDigit(c, tail, 2);
    ValueBound([c] + tail, 2);
    Fits(ValueOf([c] + tail, 2));
  }

  lemma OneMoreDigit(c: char, tail: string)
    requires (c == '0' || c == '1') && AllDigits(tail, 2)
    ensures AllDigits([c] + tail, 2) && DigitValue(c) == (if c == '1' then 1 else 0)
  {
  }

  lemma Fits(x: nat)
    requires x < UINT64_LIMIT
    ensures Word(x) == x
  {
  }

  /** The digits of a binary number are read from right to left, in 64-bit arithmetic. */
  method ParseBinary(digits: string) returns (value: Option<nat>)
    requires |digits| <= 64
    ensures value == if AllDigits(digits, 2) then Some(ValueOf(digits, 2)) else None
  {
    var sum, base := 0, 1;
    var p := |digits|;
    assert ValueOf("", 2) == 0 && Word(Power(2, 0)) == 1;
    hide ValueOf, Power, Word;
    while p > 0
      invariant 0 <= p <= |digits| && AllDigits(digits[p..], 2)
      invariant sum == ValueOf(digits[p..], 2) && base == Word(Power(2, |digits| - p))
    {
      p := p - 1;
      assert digits[p..] == [digits[p]] + digits[p + 1..];
      if digits[p] == '1' {
        sum := Word(sum + base);
      } else if digits[p] != '0' {
        assert !Digit(digits[p], 2);
        return None;
      }
      NextBit(digits[p], digits[p + 1..]);
      base := Word(base * 2);
    }
    assert digits[0..] == digits;
    value := Some(sum);
  }

  /** program_config_get_integer. */
  method GetInteger(option: Option<string>, default: nat) returns (value: nat)
    ensures value == if option.Some? && IntegerOf(option.value).Some? then IntegerOf(option.value).value else default
  {
    if option.None? {
      return default;
    }
    var s := SkipSpace(option.value);
    var parsed: Option<nat>;
    if BinaryPrefix(s) {
      if |s| - 2 > 64 {
        return default;
      }
      parsed := ParseBinary(s[2..]);
    } else {
      parsed := DecimalOf(s);
    }
    value := if parsed.Some? then parsed.value else default;
  }

  // ----- round trips -----

  /** What is printed in base 2 is read back, except when it was padded to more than 64
      digits: those are refused. */
  lemma BinaryRoundTrip(value: nat, width: int)
    requires value < UINT64_LIMIT
    ensures IntegerOf(BinaryText(value, width)) == if width <= 64 then Some(value) else None
  {
    var text, digits := BinaryText(value, width), Digits(value, 2);
    PowerOf64();
    DigitCount(value, 64);
    assert SkipSpace(text) == text;
    assert text[2..] == ZeroDigits(width - |digits|) + digits;
    LeadingZeros(if width > |digits| then width - |digits| else 0, digits, 2);
    assert width <= |digits| ==> ZeroDigits(width - |digits|) == ZeroDigits(0);
    DigitsHaveValue(value, 2);
  }

  lemma {:induction false} ReadsDigits(s: string, t: string, base: nat)
    requires 0 < base <= 10 && AllDigits(s, base) && AllDigits(t, base)
    ensures ReadDigits(t, base, ValueOf(s, base)) == (ValueOf(s + t, base), "")
    decreases |t|
  {
    if t == "" {
      assert s + t == s;
    } else {
      var u := s + [t[0]];
      assert u[..|u| - 1] == s;
      assert s + t == u + t[1..];
      ReadsDigits(u, t[1..], base);
    }
  }

  /** What is printed in base 10 is read back exactly when it fits a signed 64-bit integer. */
  lemma DecimalRoundTrip(value: nat)
    ensures IntegerOf(Digits(value, 10)) == if value <= INT64_MAX then Some(value) else None
  {
    var s := Digits(value, 10);
    assert SkipSpace(s) == s;
    assert !BinaryPrefix(s);
    DigitsHaveValue(value, 10);
    if value == 0 {
      assert ReadDigits("0", 8, 0) == ReadDigits(""+"0"[1..], 8, 0);
    } else {
      assert "" + s == s;
      ReadsDigits("", s, 10);
    }
  }

  // ----- other texts -----

  /** White space in front does not matter, and an empty text is zero. */
  lemma SpaceInFront(c: char, s: string)
    requires c in " \n\r\t\U{0b}\U{0c}"
    ensures IntegerOf([c] + s) == IntegerOf(s) && IntegerOf("") == Some(0)
  {
    assert ([c] + s)[1..] == s;
  }

  /** After a leading zero the digits are octal. */
  lemma OctalText(s: string)
    requires AllDigits(s, 8)
    ensures IntegerOf("0" + s) == if ValueOf(s, 8) <= INT64_MAX then Some(ValueOf(s, 8)) else None
  {
    var t := "0" + s;
    assert t[1..] == s && SkipSpace(t) == t && !BinaryPrefix(t);
    assert ReadDigits(t, 8, 0) == ReadDigits(t[1..], 8, 0);
    assert "" + s == s;
    ReadsDigits("", s, 8);
  }

  predicate AllHex(s: string) { forall i | 0 <= i < |s| :: HexDigit(s[i]) }

  lemma {:induction false} HexAppended(s: string, value: nat, c: char)
    requires AllHex(s) && HexDigit(c)
    ensures ReadHex(s, value).1 == "" && ReadHex(s + [c], value) == (ReadHex(s, value).0 * 16 + HexValue(c), "")
  {
    if s == "" {
      assert s + [c] == [c] && [c][1..] == "";
    } else {
      assert (s + [c])[1..] == s[1..] + [c];
      HexAppended(s[1..], value * 16 + HexValue(s[0]), c);
    }
  }

  /** A leading 0x means base 16: each digit more multiplies by 16 and adds its place in the row. */
  lemma HexText(s: string, c: char, d: nat)
    requires AllHex(s) && d < 16 && (c == "0123456789abcdef"[d] || c == "0123456789ABCDEF"[d])
    ensures s == "" ==> IntegerOf("0x" + s + [c]) == Some(d)
    ensures s != "" && IntegerOf("0x" + s + [c]).Some? ==>
              IntegerOf("0x" + s).Some? && IntegerOf("0x" + s + [c]).value == 16 * IntegerOf("0x" + s).value + d
  {
    assert HexDigit(c) && HexValue(c) == d;
    hide HexValue, IntegerOf;
    HexAppended(s, 0, c);
    assert "0x" + s + [c] == "0x" + (s + [c]);
    HexIs(s + [c]);
    if s == "" {
      assert ReadHex(s, 0) == (0, "");
    } else {
      hide ReadHex;
      HexAppended(s[..|s| - 1], 0, s[|s| - 1]);
      assert s[..|s| - 1] + [s[|s| - 1]] == s;
      HexIs(s);
    }
  }

  lemma HexIs(s: string)
    requires s != "" && AllHex(s) && ReadHex(s, 0).1 == ""
    ensures IntegerOf("0x" + s) == if ReadHex(s, 0).0 <= INT64_MAX then Some(ReadHex(s, 0).0) else None
  {
    hide ReadHex, ReadDigits, ValueOf, SkipSpace;
    var t := "0x" + s;
    assert t[2..] == s;
    NothingToSkip(t);
  }

  /** Other digits are decimal; a plus sign changes nothing, and a number below zero is refused. */
  lemma DecimalText(s: string)
    requires s != "" && AllDigits(s, 10) && s[0] != '0'
    ensures IntegerOf(s) == if ValueOf(s, 10) <= INT64_MAX then Some(ValueOf(s, 10)) else None
    ensures IntegerOf("+" + s) == IntegerOf(s)
    ensures IntegerOf("-" + s) == if ValueOf(s, 10) == 0 then Some(0) else None
  {
    hide ReadDigits, ReadHex, ValueOf, SkipSpace;
    assert "" + s == s;
    NothingIsZero();
    ReadsDigits("", s, 10);
    var p, m := "+" + s, "-" + s;
    assert p[1..] == s && m[1..] == s;
    NothingToSkip(s);
    NothingToSkip(p);
    NothingToSkip(m);
  }

  lemma NothingToSkip(s: string)
    requires s != "" && !Space(s[0])
    ensures SkipSpace(s) == s
  {
  }

  lemma NothingIsZero()
    ensures ValueOf("", 10) == 0
  {
  }

  /** Anything behind the digits is refused. */
  lemma MoreBehind(s: string, c: char)
    requires s != "" && AllDigits(s, 10) && s[0] != '0' && !Digit(c, 10)
    ensures IntegerOf(s + [c]) == None
  {
    hide ReadDigits, ReadHex, ValueOf;
    var t := s + [c];
    StopsAt(s, 0, c);
    assert t[0] == s[0] && SkipSpace(t) == t;
  }

  lemma {:induction false} StopsAt(s: string, value: nat, c: char)
    requires AllDigits(s, 10) && !Digit(c, 10)
    ensures ReadDigits(s + [c], 10, value).1 == [c]
  {
    if s == "" {
      assert s + [c] == [c];
    } else {
      assert (s + [c])[1..] == s[1..] + [c];
      StopsAt(s[1..], value * 10 + DigitValue(s[0]), c);
    }
  }

  /** The decimal digits of a number, from the last one on. */
  lemma DecimalDigits(value: nat)
    ensures Digits(value, 10) == (if value < 10 then "" else Digits(value / 10, 10)) + ["0123456789"[value % 10]]
  {
    hide DigitOf;
    DigitInARow(value % 10);
    assert value < 10 ==> value % 10 == value;
  }

  lemma DigitInARow(d: nat)
    requires d < 10
    ensures DigitOf(d) == "0123456789"[d]
  {
  }
}
