/** Positions as text: what the choosers print, and what "go to position" makes
    of an answer.  Widths are those of 64-bit Windows: `%X` prints the low 32
    bits of its argument, `long` has 32 bits. */
module PositionText {
  import opened Positions
  import opened Widths

  const LONG_MAX := 0x7FFF_FFFF
  const LONG_MIN := -0x8000_0000

  // -------------------------------------------------------------------------
  // printing

  function DigitChar(d: nat, lower: bool): char
    requires d < 16
  {
    if lower then "0123456789abcdef"[d] else "0123456789ABCDEF"[d]
  }

  // Numbers written without leading zeros.
  function Numeral(v: nat, base: nat, lower: bool): string
    requires 2 <= base <= 16
  {
    if v < base then [DigitChar(v, lower)]
    else
      Smaller(v, base);
      Numeral(v / base, base, lower) + [DigitChar(v % base, lower)]
  }

  lemma Smaller(v: nat, base: nat)
    requires 2 <= base <= v
    ensures 0 < v / base < v && v % base < base && (v / base) * base + v % base == v
  {
    var q := v / base;
    assert v == base * q + v % base;
    Doubles(base, q);
  }

  lemma Doubles(base: nat, q: nat)
    requires base >= 2
    ensures base * q >= 2 * q && (q == 0 ==> base * q == 0) && base * q == q * base
  {
    assert base * q == 2 * q + (base - 2) * q;
  }

  function Hex(v: nat): string {
    Numeral(v, 16, false)
  }

  function Decimal(v: nat): string {
    Numeral(v, 10, false)
  }

  // "0x%X"
  function PrintHex(v: nat): string {
    "0x" + Hex(v % TWO_32)
  }

  // "0x%X:0x%X"
  function Print(p: Position): string {
    PrintHex(p.major) + ":" + PrintHex(p.minor)
  }

  // -------------------------------------------------------------------------
  // strtol with base 0

  function DigitValue(c: char): nat {
    if '0' <= c <= '9' then c as nat - '0' as nat
    else if 'a' <= c <= 'f' then c as nat - 'a' as nat + 10
    else if 'A' <= c <= 'F' then c as nat - 'A' as nat + 10
    else 99
  }

  predicate IsSpace(c: char) {
    c == ' ' || ('\t' <= c <= '\r')
  }

  function SkipSpaces(s: string): string {
    if s != "" && IsSpace(s[0]) then SkipSpaces(s[1..]) else s
  }

  // The value of the longest run of digits, continuing from acc.
  function Digits(s: string, base: nat, acc: nat): nat {
    if s != "" && DigitValue(s[0]) < base then Digits(s[1..], base, acc * base + DigitValue(s[0])) else acc
  }

  function Unsigned(s: string): nat {
    if |s| >= 3 && s[0] == '0' && (s[1] == 'x' || s[1] == 'X') && DigitValue(s[2]) < 16 then Digits(s[2..], 16, 0)
    else if s != "" && s[0] == '0' then Digits(s, 8, 0)
    else Digits(s, 10, 0)
  }

  // The nearest value a `long` can have.
  function Clamp(v: int): (r: int)
    ensures -0x8000_0000 <= r <= 0x7FFF_FFFF
    ensures forall w :: -0x8000_0000 <= w <= 0x7FFF_FFFF ==> Distance(v, r) <= Distance(v, w)
  {
    if v > LONG_MAX then LONG_MAX else if v < LONG_MIN then LONG_MIN else v
  }

  function Distance(a: int, b: int): nat {
    if a < b then b - a else a - b
  }

  function Strtol(text: string): int {
    var s := SkipSpaces(text);
    if s != "" && s[0] == '-' then Clamp(0 - Unsigned(s[1..]))
    else if s != "" && s[0] == '+' then Clamp(Unsigned(s[1..]))
    else Clamp(Unsigned(s))
  }

  // -------------------------------------------------------------------------
  // go to position

  // qstring::find, -1 when there is none
  function FindColon(s: string): (i: int)
    ensures -1 <= i < |s|
    ensures i == -1 <==> ':' !in s
    ensures i >= 0 ==> s[i] == ':' && ':' !in s[..i]
  {
    if s == "" then -1
    else if s[0] == ':' then 0
    else
      var rest := FindColon(s[1..]);
      assert s == [s[0]] + s[1..];
      if rest == -1 then -1
      else
        assert s[..rest + 1] == [s[0]] + s[1..][..rest];
        rest + 1
  }

  // the cast from long to unsigned __int64
  function ToUnsigned64(v: int): (r: nat)
    requires LONG_MIN <= v <= LONG_MAX
    ensures r < TWO_64 && (r - v) % TWO_64 == 0
  {
    if v < 0 then v + TWO_64 else v
  }

  // The source's test for a missing minor, `colon == pos.size()`, is left out:
  // by FindColon's contract the index is below the size.
  function Parse(s: string): Option<Position> {
    var colon := FindColon(s);
    if colon == -1 then None
    else Some(Position(ToUnsigned64(Strtol(s[..colon])), ToUnsigned64(Strtol(s[colon + 1..]))))
  }

  // -------------------------------------------------------------------------

  lemma {:induction false} NumeralShape(v: nat, base: nat, lower: bool)
    requires 2 <= base <= 16
    ensures Numeral(v, base, lower) != ""
    ensures forall c :: c in Numeral(v, base, lower) ==> DigitValue(c) < base
    ensures forall c :: c in Numeral(v, base, lower) ==>
              '0' <= c <= '9' || (if lower then 'a' <= c <= 'f' else 'A' <= c <= 'F')
    ensures Numeral(v, base, lower)[0] == '0' <==> v == 0
  {
    if v < base {
      DigitsHaveValues(v, lower);
    } else {
      Smaller(v, base);
      DigitsHaveValues(v % base, lower);
      NumeralShape(v / base, base, lower);
      var init, last := Numeral(v / base, base, lower), DigitChar(v % base, lower);
      assert Numeral(v, base, lower) == init + [last];
      hide Numeral, DigitValue, DigitChar;
      assert (init + [last])[0] == init[0];
    }
  }

  lemma DigitsHaveValues(d: nat, lower: bool)
    requires d < 16
    ensures DigitValue(DigitChar(d, lower)) == d
    ensures '0' <= DigitChar(d, lower) <= '9' || (if lower then 'a' <= DigitChar(d, lower) <= 'f' else 'A' <= DigitChar(d, lower) <= 'F')
    ensures DigitChar(d, lower) == '0' <==> d == 0
  {
  }

  lemma OneDigit(d: nat, base: nat, lower: bool, rest: string, acc: nat)
    requires d < base <= 16
    ensures Digits([DigitChar(d, lower)] + rest, base, acc) == Digits(rest, base, acc * base + d)
  {
    DigitsHaveValues(d, lower);
    assert ([DigitChar(d, lower)] + rest)[1..] == rest;
  }

  lemma OneDigitNumeral(v: nat, base: nat, lower: bool)
    requires v < base && 2 <= base <= 16
    ensures Numeral(v, base, lower) == [DigitChar(v, lower)]
  {
  }

  lemma NumeralUnfolds(v: nat, base: nat, lower: bool, rest: string) returns (q: nat, d: nat)
    requires 2 <= base <= 16 && base <= v
    ensures q < v && d < base && q * base + d == v
    ensures Numeral(v, base, lower) + rest == Numeral(q, base, lower) + ([DigitChar(d, lower)] + rest)
  {
    Smaller(v, base);
    q, d := v / base, v % base;
    assert Numeral(v, base, lower) == Numeral(q, base, lower) + [DigitChar(d, lower)];
    hide Numeral;
  }

  // A run of digits in any base is the number it is the numeral of.
  lemma {:induction false} DigitsOfNumeral(v: nat, base: nat, lower: bool, rest: string)
    requires 2 <= base <= 16
    ensures Digits(Numeral(v, base, lower) + rest, base, 0) == Digits(rest, base, v)
  {
    hide Numeral, Digits, DigitChar;
    if v < base {
      OneDigitNumeral(v, base, lower);
      OneDigit(v, base, lower, rest, 0);
      assert 0 * base + v == v;
    } else {
      var q, d := NumeralUnfolds(v, base, lower, rest);
      DigitsOfNumeral(q, base, lower, [DigitChar(d, lower)] + rest);
      OneDigit(d, base, lower, rest, q);
    }
  }

  // -------------------------------------------------------------------------
  // Every way to write a number

  const BLANKS := " \t\n\U{000B}\U{000C}\r"

  // What `strtol` with base 0 tells the base from.
  function Prefix(base: nat, x: char): string {
    if base == 16 then ['0', x] else if base == 8 then "0" else ""
  }

  predicate EndsNumber(tail: string, base: nat) {
    tail == "" || DigitValue(tail[0]) >= base
  }

  lemma UnsignedOfNumeral(v: nat, base: nat, lower: bool, x: char, tail: string)
    requires (base == 8 || base == 10 || base == 16) && (x == 'x' || x == 'X')
    requires EndsNumber(tail, base) && (base == 10 && v == 0 ==> tail == "")
    ensures Unsigned(Prefix(base, x) + Numeral(v, base, lower) + tail) == v
  {
    var digits := Numeral(v, base, lower) + tail;
    var s := Prefix(base, x) + Numeral(v, base, lower) + tail;
    NumeralShape(v, base, lower);
    DigitsOfNumeral(v, base, lower, tail);
    assert Digits(tail, base, v) == v;
    assert base == 10 && v == 0 ==> digits == "0";
    assert digits[0] == Numeral(v, base, lower)[0] && digits[0] in Numeral(v, base, lower);
    hide Numeral, Digits;
    assert s == Prefix(base, x) + digits;
    ReadByPrefix(digits, base, x);
    if base == 10 && v == 0 { ZeroDigit(); }
  }

  lemma ZeroDigit()
    ensures Digits("0", 8, 0) == 0
  {
    assert Digits("0", 8, 0) == Digits("", 8, 0);
  }

  // The base is told from the prefix, provided digits follow.
  lemma ReadByPrefix(digits: string, base: nat, x: char)
    requires (base == 8 || base == 10 || base == 16) && (x == 'x' || x == 'X')
    requires digits != "" && DigitValue(digits[0]) < base
    ensures Unsigned(Prefix(base, x) + digits) ==
              if base == 10 && digits[0] == '0' && !IsHex(digits) then Digits(digits, 8, 0)
              else if base == 10 && digits[0] == '0' then Digits(digits[2..], 16, 0)
              else Digits(digits, base, 0)
  {
    var s := Prefix(base, x) + digits;
    hide Digits;
    if base == 16 {
      assert s[2..] == digits && s[0] == '0' && s[1] == x && s[2] == digits[0];
    } else if base == 8 {
      assert s[0] == '0' && s[1] == digits[0];
      EightOfZero(digits);
    } else {
      assert s == digits;
    }
  }

  lemma EightOfZero(digits: string)
    ensures Digits("0" + digits, 8, 0) == Digits(digits, 8, 0)
  {
    assert ("0" + digits)[1..] == digits;
  }

  lemma {:induction false} SkipBlanks(blanks: string, rest: string)
    requires (forall c :: c in blanks ==> c in BLANKS) && rest != "" && rest[0] !in BLANKS
    ensures SkipSpaces(blanks + rest) == rest
  {
    if blanks == "" {
      assert blanks + rest == rest;
    } else {
      assert blanks[0] in BLANKS && (blanks + rest)[1..] == blanks[1..] + rest;
      SkipBlanks(blanks[1..], rest);
    }
  }

  /** Whatever blanks and sign precede a number, whether it is decimal, "0" and
      octal, or "0x" and hexadecimal, in capitals or not, and whatever follows its
      digits: it counts as itself, or as the nearest `long`. */
  lemma StrtolOfNumeral(blanks: string, sign: string, v: nat, base: nat, lower: bool, x: char, tail: string)
    requires (forall c :: c in blanks ==> c in BLANKS) && (sign == "" || sign == "+" || sign == "-")
    requires (base == 8 || base == 10 || base == 16) && (x == 'x' || x == 'X')
    requires EndsNumber(tail, base) && (base == 10 && v == 0 ==> tail == "")
    ensures Strtol(blanks + (sign + (Prefix(base, x) + Numeral(v, base, lower) + tail)))
         == Clamp(if sign == "-" then 0 - v else v)
  {
    var number := Prefix(base, x) + Numeral(v, base, lower) + tail;
    UnsignedOfNumeral(v, base, lower, x, tail);
    NumeralShape(v, base, lower);
    assert Numeral(v, base, lower)[0] in Numeral(v, base, lower);
    assert number[0] == if base == 10 then Numeral(v, base, lower)[0] else '0';
    var first := number[0];
    assert '0' <= first <= '9' || 'a' <= first <= 'f' || 'A' <= first <= 'F';
    hide Numeral, Prefix, Unsigned, Clamp;
    var s := sign + number;
    assert s[0] !in BLANKS;
    SkipBlanks(blanks, s);
    assert sign != "" ==> s[1..] == number;
    assert sign == "" ==> s == number;
  }

  lemma StrtolOfDecimal(v: nat)
    ensures Strtol(Decimal(v)) == Clamp(v)
  {
    StrtolOfNumeral("", "", v, 10, false, 'x', "");
    assert "" + ("" + (Prefix(10, 'x') + Decimal(v) + "")) == Decimal(v);
  }

  lemma StrtolOfOctal(v: nat)
    ensures Strtol("0" + Numeral(v, 8, false)) == Clamp(v)
  {
    StrtolOfNumeral("", "", v, 8, false, 'x', "");
    assert "" + ("" + (Prefix(8, 'x') + Numeral(v, 8, false) + "")) == "0" + Numeral(v, 8, false);
  }

  lemma StrtolOfHex(v: nat)
    ensures Strtol(PrintHex(v)) == Clamp(v % TWO_32)
  {
    StrtolOfNumeral("", "", v % TWO_32, 16, false, 'x', "");
    assert "" + ("" + (Prefix(16, 'x') + Hex(v % TWO_32) + "")) == PrintHex(v);
  }

  // "%X" writes capitals and no leading zeros, so equal numbers look equal.
  lemma PrintShape(v: nat)
    ensures PrintHex(v)[..2] == "0x"
    ensures forall c :: c in PrintHex(v)[2..] ==> '0' <= c <= '9' || 'A' <= c <= 'F'
    ensures PrintHex(v)[2..] != "" && (PrintHex(v)[2] == '0' <==> v % TWO_32 == 0)
  {
    NumeralShape(v % TWO_32, 16, false);
    assert PrintHex(v)[2..] == Hex(v % TWO_32);
  }

  lemma FirstColon(s: string, i: nat)
    requires i < |s| && s[i] == ':' && ':' !in s[..i]
    ensures FindColon(s) == i
  {
    var j := FindColon(s);
    assert s[i] in s;
    forall k | 0 <= k < i ensures s[k] != ':' {
      assert s[..i][k] in s[..i];
    }
    forall k | 0 <= k < j ensures s[k] != ':' {
      assert s[..j][k] in s[..j];
    }
  }

  lemma PrintedColon(p: Position)
    ensures FindColon(Print(p)) == |PrintHex(p.major)|
  {
    PrintShape(p.major);
    var s, i := Print(p), |PrintHex(p.major)|;
    assert s[i] == ':' && s[..i] == PrintHex(p.major);
    assert PrintHex(p.major) == PrintHex(p.major)[..2] + PrintHex(p.major)[2..];
    FirstColon(s, i);
  }

  /** Whatever the position, going to its printed form goes to the two numbers
      cut to 32 bits and held at the largest long. */
  lemma ParsePrinted(p: Position)
    ensures Parse(Print(p)) == Some(Position(Clamp(p.major % TWO_32), Clamp(p.minor % TWO_32)))
  {
    PrintedColon(p);
    StrtolOfHex(p.major);
    StrtolOfHex(p.minor);
    var colon := |PrintHex(p.major)|;
    assert Print(p)[..colon] == PrintHex(p.major);
    assert Print(p)[colon + 1..] == PrintHex(p.minor);
  }

  lemma ClampExact(v: nat)
    ensures Clamp(v % TWO_32) == v <==> v <= LONG_MAX
  {
  }

  /** The printed form of a position leads back to it exactly when both numbers
      are below 2^31. */
  lemma TextRoundTrip(p: Position)
    ensures Parse(Print(p)) == Some(p) <==> p.major < 0x8000_0000 && p.minor < 0x8000_0000
  {
    var parsed := Parse(Print(p));
    assert parsed == Some(Position(Clamp(p.major % TWO_32), Clamp(p.minor % TWO_32))) by { ParsePrinted(p); }
    ClampExact(p.major);
    ClampExact(p.minor);
  }

  /** An answer is read part by part. */
  lemma ParseParts(major: string, minor: string)
    requires ':' !in major
    ensures Parse(major + ":" + minor) == Some(Position(ToUnsigned64(Strtol(major)), ToUnsigned64(Strtol(minor))))
  {
    var s, i := major + ":" + minor, |major|;
    assert s[i] == ':' && s[..i] == major && s[i + 1..] == minor;
    FirstColon(s, i);
  }

  lemma NoColonInNumeral(v: nat, base: nat)
    requires 2 <= base <= 16
    ensures ':' !in Numeral(v, base, false) && ':' !in "0" + Numeral(v, base, false)
  {
    NumeralShape(v, base, false);
  }

  /** Decimal answers name the position they say, up to the largest long. */
  lemma ParseDecimal(p: Position)
    ensures Parse(Decimal(p.major) + ":" + Decimal(p.minor)) == Some(Position(Clamp(p.major), Clamp(p.minor)))
    ensures Parse(Decimal(p.major) + ":" + Decimal(p.minor)) == Some(p) <==> p.major < 0x8000_0000 && p.minor < 0x8000_0000
  {
    NoColonInNumeral(p.major, 10);
    StrtolOfDecimal(p.major);
    StrtolOfDecimal(p.minor);
    hide Numeral, Strtol;
    ParseParts(Decimal(p.major), Decimal(p.minor));
  }

  /** So do octal ones. */
  lemma ParseOctal(p: Position)
    ensures Parse(("0" + Numeral(p.major, 8, false)) + ":" + ("0" + Numeral(p.minor, 8, false)))
         == Some(Position(Clamp(p.major), Clamp(p.minor)))
  {
    NoColonInNumeral(p.major, 8);
    StrtolOfOctal(p.major);
    StrtolOfOctal(p.minor);
    hide Numeral, Strtol;
    ParseParts("0" + Numeral(p.major, 8, false), "0" + Numeral(p.minor, 8, false));
  }

  // -------------------------------------------------------------------------
  // Answers that name no position

  // The answer's parts before and after its first colon.
  function Major(s: string): string
    requires ':' in s
  {
    s[..FindColon(s)]
  }

  function Minor(s: string): string
    requires ':' in s
  {
    s[FindColon(s) + 1..]
  }

  function SkipZeros(s: string): string {
    if s != "" && s[0] == '0' then SkipZeros(s[1..]) else s
  }

  predicate NoDigitFirst(s: string, base: nat) {
    s == "" || DigitValue(s[0]) >= base
  }

  function AfterSign(s: string): string {
    if s != "" && (s[0] == '-' || s[0] == '+') then s[1..] else s
  }

  predicate IsHex(s: string) {
    |s| >= 3 && s[0] == '0' && (s[1] == 'x' || s[1] == 'X') && DigitValue(s[2]) < 16
  }

  /** The text, after its spaces and sign, has no digit other than zeros before
      its first non-digit: it is empty, or no number, or a zero. */
  predicate ReadsAsZero(text: string) {
    var s := AfterSign(SkipSpaces(text));
    if IsHex(s) then NoDigitFirst(SkipZeros(s[2..]), 16)
    else NoDigitFirst(SkipZeros(s), if s != "" && s[0] == '0' then 8 else 10)
  }

  lemma AtLeast(acc: nat, base: nat)
    requires base > 0
    ensures acc * base >= acc
  {
  }

  lemma {:induction false} DigitsGrow(s: string, base: nat, acc: nat)
    requires base > 0
    ensures Digits(s, base, acc) >= acc
  {
    if s != "" && DigitValue(s[0]) < base {
      AtLeast(acc, base);
      DigitsGrow(s[1..], base, acc * base + DigitValue(s[0]));
    }
  }

  lemma {:induction false} DigitsAreZero(s: string, base: nat)
    requires base > 0
    ensures Digits(s, base, 0) == 0 <==> NoDigitFirst(SkipZeros(s), base)
  {
    if s != "" && DigitValue(s[0]) < base {
      assert 0 * base + DigitValue(s[0]) == DigitValue(s[0]);
      if s[0] == '0' {
        DigitsAreZero(s[1..], base);
      } else {
        DigitsGrow(s[1..], base, DigitValue(s[0]));
      }
    }
  }

  /** A number counts as 0 exactly when it is unreadable, empty or a zero. */
  lemma StrtolIsZero(text: string)
    ensures Strtol(text) == 0 <==> ReadsAsZero(text)
  {
    var s := AfterSign(SkipSpaces(text));
    assert Strtol(text) == 0 <==> Unsigned(s) == 0;
    if IsHex(s) {
      DigitsAreZero(s[2..], 16);
    } else if s != "" && s[0] == '0' {
      DigitsAreZero(s, 8);
    } else {
      DigitsAreZero(s, 10);
    }
  }

  /** An answer is refused exactly when it has no colon. */
  lemma RefusedIffNoColon(s: string)
    ensures Parse(s).None? <==> ':' !in s
  {
  }

  /** An answer that ends in its only colon lacks its minor and is not refused:
      the minor counts as 0. */
  lemma MissingMinor(s: string)
    requires s != "" && s[|s| - 1] == ':' && ':' !in s[..|s| - 1]
    ensures Parse(s) == Some(Position(ToUnsigned64(Strtol(s[..|s| - 1])), 0))
  {
    FirstColon(s, |s| - 1);
    assert s[|s|..] == "";
  }

  lemma FiveWithoutMinor()
    ensures Parse("5:") == Some(Position(5, 0))
  {
    MissingMinor("5:");
    assert "5:"[..1] == "5";
    assert Digits("5", 10, 0) == Digits("", 10, 5);
  }

  /** An answer names the position that stands for "no jump", so that going to it
      is a plain resume, exactly when both its parts read as zero. */
  lemma NoJumpIffZeros(s: string)
    ensures Parse(s) == Some(NO_JUMP) <==> ':' in s && ReadsAsZero(Major(s)) && ReadsAsZero(Minor(s))
  {
    if ':' in s {
      StrtolIsZero(Major(s));
      StrtolIsZero(Minor(s));
    }
  }

  // For one, a colon alone is such an answer.
  lemma ColonIsNoJump()
    ensures Parse(":") == Some(NO_JUMP)
  {
    MissingMinor(":");
    assert ":"[..0] == "";
  }
}
