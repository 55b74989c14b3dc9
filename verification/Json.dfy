// JSON strings as the standard library's encoder writes them and its decoder
// reads them (section 7 of RFC 8259).
module Json {
  import opened Utf8

  datatype Parsed<+T> = Failed | Parsed(value: T, rest: Bytes)

  const HEX: Bytes := "0123456789abcdef"

  // ---------------------------------------------------------------------------
  // Writing
  // ---------------------------------------------------------------------------

  /** One ASCII byte; markup characters are escaped too. */
  function EscapeAscii(c: Byte): Bytes
    requires c as int < 0x80
  {
    if c == '"' || c == '\\' then ['\\', c]
    else if c == '\U{8}' then "\\b"
    else if c == '\U{C}' then "\\f"
    else if c == '\n' then "\\n"
    else if c == '\r' then "\\r"
    else if c == '\t' then "\\t"
    else if c < ' ' || c == '<' || c == '>' || c == '&' then
      "\\u00" + [HEX[c as int / 16], HEX[c as int % 16]]
    else [c]
  }

  const LINE_SEPARATOR: Bytes := ['\U{E2}', '\U{80}', '\U{A8}']
  const PARAGRAPH_SEPARATOR: Bytes := ['\U{E2}', '\U{80}', '\U{A9}']

  function EscapeRune(b: Bytes): Bytes
    requires b != []
  {
    if b[0] as int < 0x80 then EscapeAscii(b[0])
    else if Width(b) == 0 then "\\ufffd"
    else if b[..Width(b)] == LINE_SEPARATOR then "\\u2028"
    else if b[..Width(b)] == PARAGRAPH_SEPARATOR then "\\u2029"
    else b[..Width(b)]
  }

  function Escape(b: Bytes): Bytes {
    if b == [] then [] else EscapeRune(b) + Escape(b[Size(b)..])
  }

  function Quoted(b: Bytes): Bytes {
    ['"'] + Escape(b) + ['"']
  }

  // ---------------------------------------------------------------------------
  // Reading
  // ---------------------------------------------------------------------------

  function HexValue(c: Byte): int {
    if '0' <= c <= '9' then c as int - '0' as int
    else if 'a' <= c <= 'f' then c as int - 'a' as int + 10
    else if 'A' <= c <= 'F' then c as int - 'A' as int + 10
    else -1
  }

  /** The code unit of a \u escape at the start of b, or -1. */
  function CodeUnit(b: Bytes): (u: int)
    ensures -1 <= u < 0x1_0000
    ensures u >= 0 ==> |b| >= 6
  {
    if |b| < 6 || b[0] != '\\' || b[1] != 'u' then -1
    else
      var w, x, y, z := HexValue(b[2]), HexValue(b[3]), HexValue(b[4]), HexValue(b[5]);
      if w < 0 || x < 0 || y < 0 || z < 0 then -1 else ((w * 16 + x) * 16 + y) * 16 + z
  }

  /** A \u escape; a surrogate counts only as half of a pair. */
  function ReadUnicode(b: Bytes): Parsed<Bytes> {
    var u, v := CodeUnit(b), if |b| >= 6 then CodeUnit(b[6..]) else -1;
    if u < 0 then Failed
    else if u < 0xD800 || u >= 0xE000 then Parsed(Encoded(u), b[6..])
    else if u < 0xDC00 && 0xDC00 <= v < 0xE000 then
      Parsed(Encoded(0x1_0000 + (u - 0xD800) * 1024 + (v - 0xDC00)), b[12..])
    else Parsed(REPLACEMENT, b[6..])
  }

  function ReadEscape(b: Bytes): Parsed<Bytes>
    requires b != [] && b[0] == '\\'
  {
    if |b| < 2 then Failed
    else if b[1] == '"' || b[1] == '\\' || b[1] == '/' then Parsed([b[1]], b[2..])
    else if b[1] == 'b' then Parsed(['\U{8}'], b[2..])
    else if b[1] == 'f' then Parsed(['\U{C}'], b[2..])
    else if b[1] == 'n' then Parsed(['\n'], b[2..])
    else if b[1] == 'r' then Parsed(['\r'], b[2..])
    else if b[1] == 't' then Parsed(['\t'], b[2..])
    else ReadUnicode(b)
  }

  /** The first character of a string body that does not end here. */
  function ReadRune(b: Bytes): (p: Parsed<Bytes>)
    requires b != []
    ensures p.Parsed? ==> |p.rest| < |b|
  {
    if b[0] == '\\' then ReadEscape(b)
    else if b[0] < ' ' then Failed
    else Parsed(Rune(b), b[Size(b)..])
  }

  /** A string body up to and including its closing quote. */
  function ReadBody(b: Bytes): (p: Parsed<Bytes>)
    ensures p.Parsed? ==> |p.rest| < |b|
    decreases |b|
  {
    if b == [] then Failed
    else if b[0] == '"' then Parsed([], b[1..])
    else
      var first := ReadRune(b);
      if first.Failed? then Failed
      else
        var others := ReadBody(first.rest);
        if others.Failed? then Failed else Parsed(first.value + others.value, others.rest)
  }

  function ReadString(b: Bytes): (p: Parsed<Bytes>)
    ensures p.Parsed? ==> |p.rest| < |b|
  {
    if b == [] || b[0] != '"' then Failed else ReadBody(b[1..])
  }

  // ---------------------------------------------------------------------------
  // Reading back what was written
  // ---------------------------------------------------------------------------

  lemma AsciiReadsBack(c: Byte, rest: Bytes)
    requires c as int < 0x80
    ensures var e := EscapeAscii(c); e != [] && e[0] != '"' && ReadRune(e + rest) == Parsed([c], rest)
  {
    var e := EscapeAscii(c);
    var b := e + rest;
    if |e| == 6 {
      assert b[4] == HEX[c as int / 16] && b[5] == HEX[c as int % 16];
      HexReadsBack(c as int / 16);
      HexReadsBack(c as int % 16);
      assert CodeUnit(b) == c as int;
      assert b[6..] == rest;
    } else if |e| == 2 {
      assert b[2..] == rest;
    } else {
      assert b[..1] == [c] && b[1..] == rest;
    }
  }

  lemma HexReadsBack(n: nat)
    requires n < 16
    ensures HexValue(HEX[n]) == n
  {
  }

  lemma RuneReadsBack(b: Bytes, rest: Bytes)
    requires b != []
    ensures var e := EscapeRune(b); e != [] && e[0] != '"' && ReadRune(e + rest) == Parsed(Rune(b), rest)
  {
    var e := EscapeRune(b);
    if b[0] as int < 0x80 {
      AsciiReadsBack(b[0], rest);
      assert Rune(b) == [b[0]];
    } else if Width(b) == 0 || b[..Width(b)] == LINE_SEPARATOR || b[..Width(b)] == PARAGRAPH_SEPARATOR {
      EscapesReadBack(e, rest);
    } else {
      WidthIsLocal(b, rest);
      assert (e + rest)[..Width(b)] == b[..Width(b)] && (e + rest)[Width(b)..] == rest;
    }
  }

  /** The three escapes that stand for more than one byte. */
  lemma EscapesReadBack(e: Bytes, rest: Bytes)
    requires e == "\\ufffd" || e == "\\u2028" || e == "\\u2029"
    ensures ReadRune(e + rest) == Parsed(
      if e == "\\ufffd" then REPLACEMENT else if e == "\\u2028" then LINE_SEPARATOR else PARAGRAPH_SEPARATOR, rest)
  {
    var b := e + rest;
    assert b[6..] == rest;
    assert CodeUnit(b) == if e == "\\ufffd" then 0xFFFD else if e == "\\u2028" then 0x2028 else 0x2029;
  }

  /** Every byte string comes back, up to and only up to its ill-formed bytes,
      and the text after its closing quote is untouched. */
  lemma {:induction false} BodyReadsBack(b: Bytes, rest: Bytes)
    ensures ReadBody(Escape(b) + (['"'] + rest)) == Parsed(Coerced(b), rest)
    decreases |b|
  {
    var quote := ['"'] + rest;
    if b == [] {
      assert Escape(b) + quote == quote;
    } else {
      var others := b[Size(b)..];
      assert Escape(b) + quote == EscapeRune(b) + (Escape(others) + quote);
      RuneReadsBack(b, Escape(others) + quote);
      BodyReadsBack(others, rest);
    }
  }

  lemma StringReadsBack(b: Bytes, rest: Bytes)
    ensures ReadString(Quoted(b) + rest) == Parsed(Coerced(b), rest)
  {
    assert (Quoted(b) + rest)[1..] == Escape(b) + (['"'] + rest);
    BodyReadsBack(b, rest);
  }

  // ---------------------------------------------------------------------------
  // Size and shape of what is written
  // ---------------------------------------------------------------------------

  lemma {:induction false} EscapeIsBounded(b: Bytes)
    ensures |b| <= |Escape(b)| <= 6 * |b|
    decreases |b|
  {
    if b != [] {
      EscapeIsBounded(b[Size(b)..]);
    }
  }

  /** Whatever the input, what is written is well-formed. */
  lemma {:induction false} EscapeIsValid(b: Bytes)
    ensures Valid(Escape(b))
    decreases |b|
  {
    if b != [] {
      EscapeIsValid(b[Size(b)..]);
      RuneEscapeIsValid(b);
      ValidAppend(EscapeRune(b), Escape(b[Size(b)..]));
    }
  }

  lemma RuneEscapeIsValid(b: Bytes)
    requires b != []
    ensures Valid(EscapeRune(b))
  {
    var e := EscapeRune(b);
    if b[0] as int < 0x80 || e == "\\ufffd" || e == "\\u2028" || e == "\\u2029" {
      AsciiIsValid(e);
    } else {
      WidthIsLocal(b, []);
      assert e + [] == e && e[Width(b)..] == [];
    }
  }

  /** The bound is met: control characters take six bytes each. */
  lemma {:induction false} EscapeBoundIsTight(n: nat)
    ensures |Escape(seq(n, _ => '\U{1}'))| == 6 * n
  {
    if n > 0 {
      var b: Bytes := seq(n, _ => '\U{1}');
      EscapeBoundIsTight(n - 1);
      assert b[1..] == seq(n - 1, _ => '\U{1}');
    }
  }

  predicate Plain(e: Bytes) {
    forall i :: 0 <= i < |e| ==> e[i] >= ' ' && e[i] != '<' && e[i] != '>' && e[i] != '&'
  }

  lemma RuneEscapeIsPlain(b: Bytes)
    requires b != []
    ensures Plain(EscapeRune(b))
  {
    if b[0] as int < 0x80 {
      AsciiEscapeIsPlain(b[0]);
    }
  }

  lemma AsciiEscapeIsPlain(c: Byte)
    requires c as int < 0x80
    ensures Plain(EscapeAscii(c))
  {
    if c < ' ' || c == '<' || c == '>' || c == '&' {
      HexIsPlain(c as int / 16);
      HexIsPlain(c as int % 16);
      assert Plain("\\u00");
    }
  }

  lemma HexIsPlain(n: nat)
    requires n < 16
    ensures HEX[n] >= '0' && HEX[n] != '<' && HEX[n] != '>' && HEX[n] != '&'
  {
  }

  /** What is written holds no control characters and no markup. */
  lemma {:induction false} EscapeIsPlain(b: Bytes)
    ensures Plain(Escape(b))
    decreases |b|
  {
    if b != [] {
      RuneEscapeIsPlain(b);
      EscapeIsPlain(b[Size(b)..]);
    }
  }

  /** Lower-case letters and underscores. */
  predicate IsName(b: Bytes) {
    forall i :: 0 <= i < |b| ==> 'a' <= b[i] <= 'z' || b[i] == '_'
  }

  lemma {:induction false} NamesAreUnescaped(b: Bytes)
    requires IsName(b)
    ensures Escape(b) == b
    decreases |b|
  {
    if b != [] {
      assert EscapeAscii(b[0]) == [b[0]];
      NamesAreUnescaped(b[1..]);
    }
  }

  // ---------------------------------------------------------------------------
  // Escapes of other writers
  // ---------------------------------------------------------------------------

  /** A code unit in four hexadecimal digits. */
  function Unit(u: nat): Bytes
    requires u < 0x1_0000
  {
    "\\u" + [HEX[u / 4096], HEX[u / 256 % 16], HEX[u / 16 % 16], HEX[u % 16]]
  }

  /** One unit, or a pair of surrogates. */
  function Units(r: Scalar): Bytes {
    if r < 0x1_0000 then Unit(r) else Unit(0xD800 + (r - 0x1_0000) / 1024) + Unit(0xDC00 + (r - 0x1_0000) % 1024)
  }

  lemma UnitReads(u: nat, rest: Bytes)
    requires u < 0x1_0000
    ensures CodeUnit(Unit(u) + rest) == u
  {
    var b := Unit(u) + rest;
    var w, x, y, z := u / 4096, u / 256 % 16, u / 16 % 16, u % 16;
    assert b[0] == '\\' && b[1] == 'u' && b[2] == HEX[w] && b[3] == HEX[x] && b[4] == HEX[y] && b[5] == HEX[z];
    HexReadsBack(w);
    HexReadsBack(x);
    HexReadsBack(y);
    HexReadsBack(z);
    hide HexValue;
    assert u / 16 / 16 == u / 256 && u / 256 / 16 == w;
  }

  /** Every scalar value that is written as a \u escape, or as two, is read as its
      UTF-8 encoding. */
  lemma UnitsRead(r: Scalar, rest: Bytes)
    ensures ReadUnicode(Units(r) + rest) == Parsed(Encoded(r), rest)
  {
    hide CodeUnit, Unit, Encoded;
    UnitLength(if r < 0x1_0000 then r else 0xD800 + (r - 0x1_0000) / 1024);
    if r < 0x1_0000 {
      UnitReads(r, rest);
      assert (Units(r) + rest)[6..] == rest;
    } else {
      var high, low := 0xD800 + (r - 0x1_0000) / 1024, 0xDC00 + (r - 0x1_0000) % 1024;
      UnitLength(low);
      assert Units(r) + rest == Unit(high) + (Unit(low) + rest);
      UnitReads(high, Unit(low) + rest);
      UnitReads(low, rest);
      assert (Units(r) + rest)[6..] == Unit(low) + rest && (Units(r) + rest)[12..] == rest;
    }
  }

  /** A surrogate without its other half is read as the replacement character. */
  lemma LoneSurrogate(u: nat, rest: Bytes)
    requires 0xD800 <= u < 0xE000
    requires u < 0xDC00 ==> !(0xDC00 <= CodeUnit(rest) < 0xE000)
    ensures ReadUnicode(Unit(u) + rest) == Parsed(['\U{EF}', '\U{BF}', '\U{BD}'], rest)
  {
    UnitReads(u, rest);
    UnitLength(u);
    assert (Unit(u) + rest)[6..] == rest;
    hide CodeUnit, Unit;
  }

  /** The digits are read in either case, and nothing else is. */
  lemma HexDigits(c: Byte, n: nat)
    requires n < 16
    ensures HEX == "0123456789abcdef"
    ensures HexValue(c) == n <==> c == "0123456789abcdef"[n] || c == "0123456789ABCDEF"[n]
    ensures -1 <= HexValue(c) < 16
  {
  }

  const LETTERS: Bytes := ['"', '\\', '/', 'b', 'f', 'n', 'r', 't']
  const MEANT: Bytes := ['"', '\\', '/', '\U{8}', '\U{C}', '\U{A}', '\U{D}', '\U{9}']

  /** The short escapes, and no other letter but u. */
  lemma ShortEscapes(c: Byte, rest: Bytes)
    ensures forall i :: 0 <= i < 8 && c == LETTERS[i] ==> ReadEscape(['\\', c] + rest) == Parsed([MEANT[i]], rest)
    ensures c !in LETTERS && c != 'u' ==> ReadEscape(['\\', c] + rest) == Failed
  {
    var b := ['\\', c] + rest;
    assert b[0] == '\\' && b[1] == c && b[2..] == rest;
  }

  lemma UnitLength(u: nat)
    requires u < 0x1_0000
    ensures |Unit(u)| == 6
  {
  }
}
