/** JSON string escaping as the observer does it, against the string grammar of section 7
    of RFC 8259, both on UTF-8 bytes. */
module JsonEscape {
  import opened Options
  import opened Bits

  const QUOTE: Byte := 34
  const BACKSLASH: Byte := 92

  // ---- the writer ------------------------------------------------------------------- //

  /** `"0123456789abcdef"[digit]`. */
  function HexDigit(digit: nat): Byte
    requires digit < 16
  {
    if digit < 10 then 48 + digit else 87 + digit
  }

  function EscapeByte(ch: Byte): (r: seq<Byte>)
    ensures 1 <= |r| <= 6
  {
    if ch == QUOTE then [BACKSLASH, QUOTE]
    else if ch == BACKSLASH then [BACKSLASH, BACKSLASH]
    else if ch == 8 then [BACKSLASH, 98]
    else if ch == 12 then [BACKSLASH, 102]
    else if ch == 10 then [BACKSLASH, 110]
    else if ch == 13 then [BACKSLASH, 114]
    else if ch == 9 then [BACKSLASH, 116]
    else if ch < 0x20 then [BACKSLASH, 117, 48, 48, HexDigit(ch / 16), HexDigit(ch % 16)]
    else [ch]
  }

  function Escaped(value: seq<Byte>): seq<Byte> {
    if value == [] then [] else EscapeByte(value[0]) + Escaped(value[1..])
  }

  /** The switch on one byte. */
  method AppendEscaped(out: seq<Byte>, ch: Byte) returns (r: seq<Byte>)
    ensures r == out + EscapeByte(ch)
  {
    if ch == QUOTE {
      r := out + [BACKSLASH, QUOTE];
    } else if ch == BACKSLASH {
      r := out + [BACKSLASH, BACKSLASH];
    } else if ch == 8 {
      r := out + [BACKSLASH, 98];
    } else if ch == 12 {
      r := out + [BACKSLASH, 102];
    } else if ch == 10 {
      r := out + [BACKSLASH, 110];
    } else if ch == 13 {
      r := out + [BACKSLASH, 114];
    } else if ch == 9 {
      r := out + [BACKSLASH, 116];
    } else if ch < 0x20 {
      r := out + [BACKSLASH, 117, 48, 48, HexDigit(ch / 16), HexDigit(ch % 16)];
    } else {
      r := out + [ch];
    }
  }

  method Escape(value: seq<Byte>) returns (out: seq<Byte>)
    ensures out == Escaped(value)
  {
    out := [];
    for i := 0 to |value|
      invariant out + Escaped(value[i..]) == Escaped(value)
    {
      ghost var before := out;
      out := AppendEscaped(out, value[i]);
      EscapedNext(before, value, i);
    }
  }

  lemma EscapedNext(before: seq<Byte>, value: seq<Byte>, i: nat)
    requires i < |value|
    ensures before + Escaped(value[i..]) == before + EscapeByte(value[i]) + Escaped(value[i + 1..])
  {
    assert value[i..][1..] == value[i + 1..];
  }

  // ---- the reader of RFC 8259, section 7 ------------------------------------------- //

  function HexValue(b: Byte): Option<nat> {
    if 48 <= b <= 57 then Some(b - 48)
    else if 97 <= b <= 102 then Some(b - 87)
    else if 65 <= b <= 70 then Some(b - 55)
    else None
  }

  /** The four hexadecimal digits after `\u`. */
  function CodeUnit(input: seq<Byte>): (r: Option<nat>)
    requires |input| >= 4
    ensures r.Some? ==> r.value < 0x1_0000
  {
    var a, b, c, d := HexValue(input[0]), HexValue(input[1]), HexValue(input[2]), HexValue(input[3]);
    if a.Some? && b.Some? && c.Some? && d.Some? then
      Some(0x1000 * a.value + 0x100 * b.value + 0x10 * c.value + d.value)
    else None
  }

  function Utf8(code: nat): (r: seq<Byte>)
    requires code < 0x11_0000
  {
    if code < 0x80 then [code]
    else if code < 0x800 then [0xc0 + code / 0x40, 0x80 + code % 0x40]
    else if code < 0x1_0000 then [0xe0 + code / 0x1000, 0x80 + code / 0x40 % 0x40, 0x80 + code % 0x40]
    else [0xf0 + code / 0x4_0000, 0x80 + code / 0x1000 % 0x40, 0x80 + code / 0x40 % 0x40, 0x80 + code % 0x40]
  }

  /** What one `char` of the grammar stands for, and how many bytes it takes. */
  datatype Char = Char(bytes: seq<Byte>, width: nat)

  function UnicodeChar(input: seq<Byte>): (r: Option<Char>)
    requires |input| >= 6
    ensures r.Some? ==> 0 < r.value.width <= |input|
  {
    var unit := CodeUnit(input[2..6]);
    if unit.None? || 0xdc00 <= unit.value < 0xe000 then None
    else if unit.value < 0xd800 || unit.value >= 0xe000 then Some(Char(Utf8(unit.value), 6))
    else if |input| < 12 || input[6] != BACKSLASH || input[7] != 117 then None
    else
      var low := CodeUnit(input[8..12]);
      if low.None? || low.value < 0xdc00 || low.value >= 0xe000 then None
      else Some(Char(Utf8(0x1_0000 + 0x400 * (unit.value - 0xd800) + (low.value - 0xdc00)), 12))
  }

  function ReadChar(input: seq<Byte>): (r: Option<Char>)
    ensures r.Some? ==> 0 < r.value.width <= |input|
  {
    if input == [] || input[0] < 0x20 || input[0] == QUOTE then None
    else if input[0] != BACKSLASH then Some(Char([input[0]], 1))
    else if |input| < 2 then None
    else if input[1] == QUOTE || input[1] == BACKSLASH || input[1] == 47 then Some(Char([input[1]], 2))
    else if input[1] == 98 then Some(Char([8], 2))
    else if input[1] == 102 then Some(Char([12], 2))
    else if input[1] == 110 then Some(Char([10], 2))
    else if input[1] == 114 then Some(Char([13], 2))
    else if input[1] == 116 then Some(Char([9], 2))
    else if input[1] == 117 && |input| >= 6 then UnicodeChar(input)
    else None
  }

  datatype Parsed = Parsed(value: seq<Byte>, rest: seq<Byte>)

  /** Reads a string whose opening quote is already consumed, up to its closing quote. */
  function ReadString(input: seq<Byte>): Option<Parsed>
    decreases |input|
  {
    if input == [] then None
    else if input[0] == QUOTE then Some(Parsed([], input[1..]))
    else
      var next := ReadChar(input);
      if next.None? then None else
        var tail := ReadString(input[next.value.width..]);
        if tail.None? then None
        else Some(Parsed(next.value.bytes + tail.value.value, tail.value.rest))
  }

  // ---- the round trip --------------------------------------------------------------- //

  lemma HexRoundTrip(digit: nat)
    requires digit < 16
    ensures HexValue(HexDigit(digit)) == Some(digit)
  {
  }

  lemma ControlReads(ch: Byte, tail: seq<Byte>)
    requires ch < 0x20
    ensures ReadChar([BACKSLASH, 117, 48, 48, HexDigit(ch / 16), HexDigit(ch % 16)] + tail) == Some(Char([ch], 6))
  {
    var input := [BACKSLASH, 117, 48, 48, HexDigit(ch / 16), HexDigit(ch % 16)] + tail;
    assert input[2..6] == [48, 48, HexDigit(ch / 16), HexDigit(ch % 16)];
    HexRoundTrip(ch / 16);
    HexRoundTrip(ch % 16);
    assert CodeUnit(input[2..6]) == Some(ch);
  }

  lemma EscapedByteReads(ch: Byte, tail: seq<Byte>)
    ensures ReadChar(EscapeByte(ch) + tail) == Some(Char([ch], |EscapeByte(ch)|))
  {
    if ch < 0x20 && ch !in {8, 9, 10, 12, 13} {
      ControlReads(ch, tail);
    }
  }

  /** Embedded between quotes, an escaped string is found again: a reader that follows the
      grammar stops exactly at the closing quote and has the original bytes. */
  lemma {:induction false} EscapedReadsBack(value: seq<Byte>, rest: seq<Byte>)
    ensures ReadString(Escaped(value) + [QUOTE] + rest) == Some(Parsed(value, rest))
    decreases |value|
  {
    var input := Escaped(value) + [QUOTE] + rest;
    if value == [] {
      assert input == [QUOTE] + rest;
      assert input[1..] == rest;
    } else {
      var first, tail := EscapeByte(value[0]), Escaped(value[1..]) + [QUOTE] + rest;
      assert input == first + tail;
      assert input[|first|..] == tail;
      EscapedByteReads(value[0], tail);
      EscapedReadsBack(value[1..], rest);
      assert input[0] != QUOTE;
      assert value == [value[0]] + value[1..];
    }
  }

  /** The escaped form has no control byte. */
  lemma {:induction false} NoControlBytes(value: seq<Byte>)
    ensures forall i :: 0 <= i < |Escaped(value)| ==> Escaped(value)[i] >= 0x20
    decreases |value|
  {
    if value != [] {
      NoControlBytes(value[1..]);
    }
  }

  /** Position of the first quote that no backslash escapes, or the length. */
  function BareQuote(bytes: seq<Byte>): (i: nat)
    ensures i <= |bytes|
    decreases |bytes|
  {
    if bytes == [] || bytes[0] == QUOTE then 0
    else if bytes[0] == BACKSLASH && |bytes| >= 2 then 2 + BareQuote(bytes[2..])
    else 1 + BareQuote(bytes[1..])
  }

  lemma BareQuoteSkips(ch: Byte, tail: seq<Byte>)
    ensures BareQuote(EscapeByte(ch) + tail) == |EscapeByte(ch)| + BareQuote(tail)
  {
    var s := EscapeByte(ch) + tail;
    if ch < 0x20 && ch !in {8, 9, 10, 12, 13} {
      assert s[2..][1..][1..][1..][1..] == tail;
      assert s[2..][0] == 48 && s[2..][1..][0] == 48;
      assert BareQuote(s[2..][1..]) == 1 + BareQuote(s[2..][1..][1..]);
      assert BareQuote(s[2..][1..][1..]) == 1 + BareQuote(s[2..][1..][1..][1..]);
      assert BareQuote(s[2..][1..][1..][1..]) == 1 + BareQuote(tail);
    } else if |EscapeByte(ch)| == 2 {
      assert s[2..] == tail;
    } else {
      assert s[1..] == tail;
    }
  }

  /** The escaped form has no bare quote, even for a scanner that only knows backslashes. */
  lemma {:induction false} NoBareQuote(value: seq<Byte>, rest: seq<Byte>)
    ensures BareQuote(Escaped(value) + [QUOTE] + rest) == |Escaped(value)|
    decreases |value|
  {
    if value == [] {
      assert Escaped(value) + [QUOTE] + rest == [QUOTE] + rest;
    } else {
      var tail := Escaped(value[1..]) + [QUOTE] + rest;
      assert Escaped(value) + [QUOTE] + rest == EscapeByte(value[0]) + tail;
      BareQuoteSkips(value[0], tail);
      NoBareQuote(value[1..], rest);
    }
  }

  /** No text that the grammar reads as this one byte is shorter than the escaped form, which
      spells code numbers in lower-case hexadecimal. */
  lemma EscapedIsShortest(ch: Byte, text: seq<Byte>)
    requires ReadChar(text) == Some(Char([ch], |text|))
    ensures |EscapeByte(ch)| <= |text|
    ensures forall i :: 2 <= i < |EscapeByte(ch)| ==>
              48 <= EscapeByte(ch)[i] <= 57 || 97 <= EscapeByte(ch)[i] <= 102
  {
    if |EscapeByte(ch)| > 1 {
      assert text[0] == BACKSLASH;
    }
  }
}
