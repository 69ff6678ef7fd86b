/** Strings read from the recorded process's memory, with control characters
    escaped. */
module MemoryText {
  import opened Recordings
  import opened CallConv

  // How `%lc` renders a wide character; left to the C library.
  type WideFormat = nat -> string

  function EscapeChar(c: char): string {
    if c == '\n' then "\\n" else if c == '\r' then "\\r" else if c == '\t' then "\\t" else [c]
  }

  // cat_char: units below 256 as a character, others as a wide one.
  function Render(format: WideFormat, unit: nat): string {
    if unit < 256 then EscapeChar(unit as char) else format(unit)
  }

  function RenderAll(format: WideFormat, units: seq<nat>): string {
    if units == [] then "" else RenderAll(format, units[..|units| - 1]) + Render(format, units[|units| - 1])
  }

  // The numbers a byte and a 16-bit unit stand for in two's complement.
  function Signed8(b: Byte): int { if b < 0x80 then b else b - 0x100 }

  function Signed16(u: nat): int { if u < 0x8000 then u else u - 0x1_0000 }

  // `char` is signed and converted to a 16-bit wchar_t.
  function Widen(b: Byte): (u: nat)
    ensures u < 0x1_0000 && Signed16(u) == Signed8(b)
  {
    if b < 128 then b else 0xFF00 + b
  }

  function WideUnit(memory: Memory, a: Address): nat {
    memory(a) + 256 * memory(a + 1)
  }

  // The bytes, or 16-bit units, before the first zero.
  ghost predicate NarrowText(memory: Memory, offset: Address, bytes: seq<Byte>) {
    && memory(offset + |bytes|) == 0
    && forall i :: 0 <= i < |bytes| ==> bytes[i] != 0 && memory(offset + i) == bytes[i]
  }

  ghost predicate WideText(memory: Memory, offset: Address, units: seq<nat>) {
    && WideUnit(memory, offset + 2 * |units|) == 0
    && forall i :: 0 <= i < |units| ==> units[i] != 0 && WideUnit(memory, offset + 2 * i) == units[i]
  }

  lemma NarrowAt(memory: Memory, offset: Address, bytes: seq<Byte>, i: nat)
    requires NarrowText(memory, offset, bytes) && i <= |bytes|
    ensures memory(offset + i) == if i < |bytes| then bytes[i] else 0
    ensures memory(offset + i) == 0 <==> i == |bytes|
  {
  }

  lemma NextWide(memory: Memory, offset: Address, units: seq<nat>, i: nat, k: nat, c: nat)
    requires WideText(memory, offset, units) && k <= |units| && i == 2 * k && c == WideUnit(memory, offset + i)
    ensures c == (if k < |units| then units[k] else 0) && (c == 0 <==> k == |units|) && c < 0x1_0000
  {
    WideAt(memory, offset, units, k);
  }

  lemma WideAt(memory: Memory, offset: Address, units: seq<nat>, k: nat)
    requires WideText(memory, offset, units) && k <= |units|
    ensures WideUnit(memory, offset + 2 * k) == if k < |units| then units[k] else 0
    ensures WideUnit(memory, offset + 2 * k) == 0 <==> k == |units|
    ensures WideUnit(memory, offset + 2 * k) < 0x1_0000
  {
  }

  method CatChar(out: string, c: nat, format: WideFormat) returns (text: string)
    requires c < 0x1_0000
    ensures text == out + Render(format, c)
  {
    match c {
      case 10 => text := out + "\\n";
      case 13 => text := out + "\\r";
      case 9 => text := out + "\\t";
      case _ =>
        if c / 256 == 0 {
          text := out + [c as char];
        } else {
          text := out + format(c);
        }
    }
  }

  function WidenAll(bytes: seq<Byte>): seq<nat> {
    seq(|bytes|, i requires 0 <= i < |bytes| => Widen(bytes[i]))
  }

  lemma RenderNext(format: WideFormat, units: seq<nat>, i: nat)
    requires i < |units|
    ensures RenderAll(format, units[..i + 1]) == RenderAll(format, units[..i]) + Render(format, units[i])
  {
    assert units[..i + 1][..i] == units[..i];
  }

  /** For any memory with a terminator the loop ends, and returns the rendering
      of the text before the first zero. */
  method ReadStringAt(memory: Memory, offset: Address, format: WideFormat, ghost bytes: seq<Byte>) returns (text: string)
    requires NarrowText(memory, offset, bytes)
    ensures text == RenderAll(format, WidenAll(bytes))
  {
    ghost var units := WidenAll(bytes);
    text := "";
    assert RenderAll(format, units[..0]) == "";
    hide RenderAll, Render, NarrowText;
    var i := 0;
    var c := memory(offset);
    while c != 0
      invariant 0 <= i <= |bytes| && c == memory(offset + i)
      invariant text == RenderAll(format, units[..i])
      decreases |bytes| - i
    {
      NarrowAt(memory, offset, bytes, i);
      RenderNext(format, units, i);
      text := CatChar(text, Widen(c), format);
      i := i + 1;
      c := memory(offset + i);
    }
    NarrowAt(memory, offset, bytes, i);
    assert units[..i] == units;
  }

  method ReadWideStringAt(memory: Memory, offset: Address, format: WideFormat, ghost units: seq<nat>) returns (text: string)
    requires WideText(memory, offset, units)
    ensures text == RenderAll(format, units)
  {
    text := "";
    assert RenderAll(format, units[..0]) == "";
    hide RenderAll, Render, WideText, WideUnit;
    ghost var k := 0;
    var i := 0;
    var c := WideUnit(memory, offset);
    NextWide(memory, offset, units, i, k, c);
    while c != 0
      invariant i == 2 * k && k <= |units| && c < 0x1_0000
      invariant c == if k < |units| then units[k] else 0
      invariant c == 0 <==> k == |units|
      invariant text == RenderAll(format, units[..k])
      decreases |units| - k
    {
      RenderNext(format, units, k);
      text := CatChar(text, c, format);
      i := i + 2;
      k := k + 1;
      c := WideUnit(memory, offset + i);
      NextWide(memory, offset, units, i, k, c);
    }
    assert units[..k] == units;
  }

  lemma NarrowNonZero(memory: Memory, offset: Address, bytes: seq<Byte>, i: nat)
    requires NarrowText(memory, offset, bytes) && i < |bytes|
    ensures memory(offset + i) != 0
  {
    assert bytes[i] != 0;
  }

  lemma WideNonZero(memory: Memory, offset: Address, units: seq<nat>, i: nat)
    requires WideText(memory, offset, units) && i < |units|
    ensures WideUnit(memory, offset + 2 * i) != 0
  {
    assert units[i] != 0;
  }

  /** The text before the first zero is determined by the memory. */
  lemma TextIsDetermined(memory: Memory, offset: Address, bytes: seq<Byte>, other: seq<Byte>)
    requires NarrowText(memory, offset, bytes) && NarrowText(memory, offset, other)
    ensures bytes == other
  {
    if |bytes| < |other| { NarrowNonZero(memory, offset, other, |bytes|); assert false; }
    if |other| < |bytes| { NarrowNonZero(memory, offset, bytes, |other|); assert false; }
  }

  lemma WideTextIsDetermined(memory: Memory, offset: Address, units: seq<nat>, other: seq<nat>)
    requires WideText(memory, offset, units) && WideText(memory, offset, other)
    ensures units == other
  {
    if |units| < |other| { WideNonZero(memory, offset, other, |units|); assert false; }
    if |other| < |units| { WideNonZero(memory, offset, units, |other|); assert false; }
  }

  /** The narrow and the wide encoding of one 7-bit text are read identically. */
  lemma EncodingsAgree(narrow: Memory, a: Address, bytes: seq<Byte>, wide: Memory, b: Address, units: seq<nat>,
                       text: seq<Byte>, format: WideFormat)
    requires NarrowText(narrow, a, bytes) && WideText(wide, b, units)
    requires NarrowText(narrow, a, text) && WideText(wide, b, text) && forall c :: c in text ==> c < 128
    ensures RenderAll(format, WidenAll(bytes)) == RenderAll(format, units)
  {
    TextIsDetermined(narrow, a, bytes, text);
    WideTextIsDetermined(wide, b, units, text);
    forall i | 0 <= i < |text| ensures WidenAll(text)[i] == text[i] {
      assert text[i] in text;
    }
    assert WidenAll(text) == text;
  }

  /** Any terminator means there is a text before the first one. */
  lemma {:induction false} TextExists(memory: Memory, offset: Address, n: nat) returns (bytes: seq<Byte>)
    requires memory(offset + n) == 0
    ensures NarrowText(memory, offset, bytes) && |bytes| <= n
    decreases n
  {
    if memory(offset) == 0 {
      bytes := [];
    } else {
      var rest := TextExists(memory, offset + 1, n - 1);
      bytes := [memory(offset)] + rest;
      forall i | 0 <= i < |bytes| ensures bytes[i] != 0 && memory(offset + i) == bytes[i] {
        if i > 0 { assert rest[i - 1] != 0 && memory(offset + 1 + (i - 1)) == rest[i - 1]; }
      }
      assert memory(offset + 1 + |rest|) == 0;
    }
  }

  /** The same for a zero unit at an even distance. */
  lemma {:induction false} WideTextExists(memory: Memory, offset: Address, n: nat) returns (units: seq<nat>)
    requires WideUnit(memory, offset + 2 * n) == 0
    ensures WideText(memory, offset, units) && |units| <= n
    decreases n
  {
    if WideUnit(memory, offset) == 0 {
      units := [];
    } else {
      assert offset + 2 * n == offset + 2 + 2 * (n - 1);
      var rest := WideTextExists(memory, offset + 2, n - 1);
      units := [WideUnit(memory, offset)] + rest;
      hide WideUnit;
      forall i | 0 <= i < |units| ensures units[i] != 0 && WideUnit(memory, offset + 2 * i) == units[i] {
        if i > 0 {
          assert rest[i - 1] != 0 && WideUnit(memory, offset + 2 + 2 * (i - 1)) == rest[i - 1];
          assert offset + 2 + 2 * (i - 1) == offset + 2 * i;
        }
      }
      assert offset + 2 + 2 * |rest| == offset + 2 * |units|;
    }
  }

  // -------------------------------------------------------------------------
  // Texts in memory

  // A text written unit by unit, `width` bytes each, and a zero unit after it.
  function Write(memory: Memory, a: Address, width: nat, units: seq<nat>): Memory
    decreases |units|
  {
    if units == [] then Store(memory, a, width, 0)
    else Store(Write(memory, a + width, width, units[1..]), a, width, units[0])
  }

  // The unit read at each place, the terminator's included.
  lemma {:induction false} WrittenUnits(memory: Memory, a: Address, width: nat, units: seq<nat>, i: nat)
    requires i <= |units| && forall u :: u in units ==> u < Power256(width)
    ensures Fetch(Write(memory, a, width, units), a + width * i, width) == if i < |units| then units[i] else 0
    decreases |units|
  {
    hide Store, Fetch, Power256;
    if units == [] {
      FetchStored(memory, a, width, 0);
      assert a + width * i == a;
    } else if i == 0 {
      assert units[0] in units;
      FetchStored(Write(memory, a + width, width, units[1..]), a, width, units[0]);
      assert a + width * i == a;
    } else {
      var rest := Write(memory, a + width, width, units[1..]);
      assert forall u :: u in units[1..] ==> u in units;
      WrittenUnits(memory, a + width, width, units[1..], i - 1);
      Shift(width, i);
      StoreBefore(rest, a, width, units[0], a + width * i, width);
    }
  }

  lemma Shift(width: nat, i: nat)
    requires i > 0
    ensures width * i == width + width * (i - 1)
  {
  }

  lemma StoreBefore(memory: Memory, a: Address, n: nat, v: nat, b: Address, m: nat)
    requires a + n <= b
    ensures Fetch(Store(memory, a, n, v), b, m) == Fetch(memory, b, m)
  {
    forall x | b <= x < b + m ensures Store(memory, a, n, v)(x) == memory(x) {
      StoreElsewhere(memory, a, n, v, x);
    }
    FetchSame(Store(memory, a, n, v), memory, b, m);
  }

  lemma OneByte(memory: Memory, a: Address)
    ensures Fetch(memory, a, 1) == memory(a)
  {
    assert Fetch(memory, a + 1, 0) == 0;
  }

  lemma TwoBytes(memory: Memory, a: Address)
    ensures Fetch(memory, a, 2) == WideUnit(memory, a)
  {
    OneByte(memory, a + 1);
  }

  lemma PowersOf256()
    ensures Power256(1) == 256 && Power256(2) == 0x1_0000
  {
  }

  lemma WideUnitsFound(memory: Memory, a: Address, units: seq<nat>, i: nat)
    requires i <= |units| && forall u :: u in units ==> u < 0x1_0000
    ensures WideUnit(Write(memory, a, 2, units), a + 2 * i) == if i < |units| then units[i] else 0
  {
    PowersOf256();
    WrittenUnits(memory, a, 2, units, i);
    TwoBytes(Write(memory, a, 2, units), a + 2 * i);
  }

  lemma BytesFound(memory: Memory, a: Address, bytes: seq<Byte>, i: nat)
    requires i <= |bytes|
    ensures Write(memory, a, 1, bytes)(a + i) == if i < |bytes| then bytes[i] else 0
  {
    PowersOf256();
    WrittenUnits(memory, a, 1, bytes, i);
    assert 1 * i == i;
    OneByte(Write(memory, a, 1, bytes), a + i);
  }

  /** A text without zeros that was written to memory in either encoding is the
      text the readers find there. */
  lemma WrittenTextIsFound(memory: Memory, a: Address, units: seq<nat>)
    requires forall u :: u in units ==> 0 < u < 0x1_0000
    ensures WideText(Write(memory, a, 2, units), a, units)
  {
    var written := Write(memory, a, 2, units);
    WideUnitsFound(memory, a, units, |units|);
    forall i | 0 <= i < |units| ensures units[i] != 0 && WideUnit(written, a + 2 * i) == units[i] {
      assert units[i] in units;
      WideUnitsFound(memory, a, units, i);
    }
    hide Write, WideUnit;
  }

  lemma WrittenBytesAreFound(memory: Memory, a: Address, bytes: seq<Byte>)
    requires 0 !in bytes
    ensures NarrowText(Write(memory, a, 1, bytes), a, bytes)
  {
    var written := Write(memory, a, 1, bytes);
    BytesFound(memory, a, bytes, |bytes|);
    forall i | 0 <= i < |bytes| ensures bytes[i] != 0 && written(a + i) == bytes[i] {
      assert bytes[i] in bytes;
      BytesFound(memory, a, bytes, i);
    }
    hide Write;
  }

  // -------------------------------------------------------------------------
  // What each unit contributes

  lemma {:induction false} RenderConcat(format: WideFormat, s: seq<nat>, t: seq<nat>)
    ensures RenderAll(format, s + t) == RenderAll(format, s) + RenderAll(format, t)
  {
    if t == [] {
      assert s + t == s;
    } else {
      var init, last := t[..|t| - 1], t[|t| - 1];
      RenderConcat(format, s, init);
      RenderOneMore(format, s + init, last);
      RenderOneMore(format, init, last);
      hide RenderAll, Render;
      LastApart(s, t);
      Associates(RenderAll(format, s), RenderAll(format, init), Render(format, last));
    }
  }

  lemma LastApart<T>(s: seq<T>, t: seq<T>)
    requires t != []
    ensures t == t[..|t| - 1] + [t[|t| - 1]] && s + t == (s + t[..|t| - 1]) + [t[|t| - 1]]
  {
  }

  lemma Associates<T>(r: seq<T>, s: seq<T>, t: seq<T>)
    ensures (r + s) + t == r + (s + t)
  {
  }

  lemma RenderOneMore(format: WideFormat, units: seq<nat>, unit: nat)
    ensures RenderAll(format, units + [unit]) == RenderAll(format, units) + Render(format, unit)
  {
    assert (units + [unit])[..|units|] == units;
  }

  /** Each unit contributes its own text, wherever it stands: an escape, its
      character, or beyond 255 what `%lc` makes of it. */
  lemma UnitInContext(format: WideFormat, before: seq<nat>, unit: nat, after: seq<nat>)
    ensures RenderAll(format, before + [unit] + after) ==
              RenderAll(format, before)
              + (if unit == 10 then "\\n" else if unit == 13 then "\\r" else if unit == 9 then "\\t"
                 else if unit > 255 then format(unit) else [unit as char])
              + RenderAll(format, after)
  {
    RenderConcat(format, before + [unit], after);
    RenderConcat(format, before, [unit]);
    assert [unit][..0] == [] && RenderAll(format, [unit]) == Render(format, unit);
  }

  /** A byte from 128 on is not read as a character of its own: it counts as the
      wide character with the same sign. */
  lemma HighByteInContext(format: WideFormat, before: seq<Byte>, b: Byte, after: seq<Byte>)
    requires b >= 128
    ensures RenderAll(format, WidenAll(before + [b] + after)) ==
              RenderAll(format, WidenAll(before)) + format(0xFF00 + b) + RenderAll(format, WidenAll(after))
  {
    assert WidenAll(before + [b] + after) == WidenAll(before) + [0xFF00 + b] + WidenAll(after);
    UnitInContext(format, WidenAll(before), 0xFF00 + b, WidenAll(after));
  }

  // -------------------------------------------------------------------------
  // Escapes

  function Escape(s: string): string {
    if s == "" then "" else EscapeChar(s[0]) + Escape(s[1..])
  }

  lemma {:induction false} EscapeConcat(s: string, t: string)
    ensures Escape(s + t) == Escape(s) + Escape(t)
  {
    if s == "" {
      assert s + t == t;
    } else {
      assert (s + t)[1..] == s[1..] + t;
      EscapeConcat(s[1..], t);
    }
  }

  function Characters(units: seq<nat>): string
    requires forall u :: u in units ==> u < 256
  {
    seq(|units|, i requires 0 <= i < |units| => assert units[i] in units; units[i] as char)
  }

  // On units below 256, what the readers return is the escaped text.
  lemma {:induction false} RenderIsEscape(format: WideFormat, units: seq<nat>)
    requires forall u :: u in units ==> u < 256
    ensures RenderAll(format, units) == Escape(Characters(units))
  {
    if units != [] {
      var init, last := units[..|units| - 1], units[|units| - 1];
      assert forall u :: u in init ==> u in units;
      RenderIsEscape(format, init);
      assert last in units;
      var c := [last as char];
      assert Characters(units) == Characters(init) + c;
      EscapeConcat(Characters(init), c);
      assert c[1..] == "" && Escape(c) == EscapeChar(c[0]);
    }
  }

  predicate IsEscapeLetter(c: char) { c == 'n' || c == 'r' || c == 't' }

  function Unescape(s: string): string {
    if |s| >= 2 && s[0] == '\\' && IsEscapeLetter(s[1]) then
      [Unescaped(s[1])] + Unescape(s[2..])
    else if s == "" then ""
    else [s[0]] + Unescape(s[1..])
  }

  // A backslash followed by a letter that makes it look like an escape.
  predicate LooksEscaped(s: string) {
    |s| >= 2 && ((s[0] == '\\' && IsEscapeLetter(s[1])) || LooksEscaped(s[1..]))
  }

  function Unescaped(letter: char): char {
    if letter == 'n' then '\n' else if letter == 'r' then '\r' else '\t'
  }

  lemma UnescapePair(letter: char, rest: string)
    requires IsEscapeLetter(letter)
    ensures Unescape(['\\', letter] + rest) == [Unescaped(letter)] + Unescape(rest)
  {
    assert (['\\', letter] + rest)[2..] == rest;
  }

  lemma UnescapePlain(c: char, rest: string)
    requires c != '\\' || rest == "" || !IsEscapeLetter(rest[0])
    ensures Unescape([c] + rest) == [c] + Unescape(rest)
  {
    assert ([c] + rest)[1..] == rest;
  }

  lemma EscapeNothing()
    ensures Escape("") == ""
  {
  }

  lemma EscapeHead(s: string)
    requires s != ""
    ensures Escape(s) == EscapeChar(s[0]) + Escape(s[1..])
    ensures Escape(s) != "" && Escape(s)[0] == EscapeChar(s[0])[0]
  {
  }

  // What escaping and unescaping does at the head of a text.
  lemma UnescapeHead(s: string)
    requires s != ""
    ensures if s[0] == '\\' && |s| >= 2 && IsEscapeLetter(s[1])
            then |Unescape(Escape(s))| == 1 + |Unescape(Escape(s[2..]))|
            else Unescape(Escape(s)) == [s[0]] + Unescape(Escape(s[1..]))
  {
    hide Unescape, Escape;
    EscapeHead(s);
    var rest := s[1..];
    if s[0] == '\n' || s[0] == '\r' || s[0] == '\t' {
      UnescapePair(EscapeChar(s[0])[1], Escape(rest));
    } else if rest == "" {
      EscapeNothing();
      UnescapePlain(s[0], Escape(rest));
    } else {
      EscapeHead(rest);
      if s[0] == '\\' && IsEscapeLetter(rest[0]) {
        assert rest[1..] == s[2..];
        assert [s[0]] + ([rest[0]] + Escape(s[2..])) == ['\\', rest[0]] + Escape(s[2..]);
        UnescapePair(rest[0], Escape(s[2..]));
      } else {
        UnescapePlain(s[0], Escape(rest));
      }
    }
  }

  lemma {:induction false} UnescapeEscape(s: string)
    ensures |Unescape(Escape(s))| <= |s|
    ensures LooksEscaped(s) <==> |Unescape(Escape(s))| < |s|
    ensures !LooksEscaped(s) ==> Unescape(Escape(s)) == s
  {
    if s != "" {
      UnescapeHead(s);
      hide Escape, Unescape;
      UnescapeEscape(s[1..]);
      if |s| >= 2 { UnescapeEscape(s[2..]); }
      assert s == [s[0]] + s[1..];
    }
  }

  /** The escapes can be undone exactly when the text has no backslash directly
      before an n, r or t; in particular for every text without backslashes. */
  lemma {:induction false} EscapeIsInvertible(s: string)
    ensures Unescape(Escape(s)) == s <==> !LooksEscaped(s)
    ensures '\\' !in s ==> Unescape(Escape(s)) == s
  {
    UnescapeEscape(s);
    if '\\' !in s { NoBackslash(s); }
  }

  lemma {:induction false} NoBackslash(s: string)
    requires '\\' !in s
    ensures !LooksEscaped(s)
  {
    if |s| >= 2 {
      assert s[0] in s;
      NoBackslash(s[1..]);
    }
  }
}
