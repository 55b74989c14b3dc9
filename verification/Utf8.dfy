// UTF-8 over byte strings, as the program's runtime decodes it: an ill-formed
// byte counts as a rune of its own.
module Utf8 {

  /** One char per byte, so that text can be written as a literal.  The program has
      no chars above 255; here they would count as ill-formed. */
  type Byte = char

  type Bytes = string

  const REPLACEMENT: Bytes := ['\U{EF}', '\U{BF}', '\U{BD}']

  predicate Within(b: Byte, low: int, high: int) {
    low <= b as int <= high
  }

  /** The length of the first rune, or 0 when the text does not start with one. */
  function Width(b: Bytes): (k: nat)
    requires b != []
    ensures k <= 4 && k <= |b|
  {
    var x := b[0] as int;
    if x < 0x80 then 1
    else if 0xC2 <= x <= 0xDF && |b| >= 2 && Within(b[1], 0x80, 0xBF) then 2
    else if 0xE0 <= x <= 0xEF && |b| >= 3
      && Within(b[1], if x == 0xE0 then 0xA0 else 0x80, if x == 0xED then 0x9F else 0xBF)
      && Within(b[2], 0x80, 0xBF) then 3
    else if 0xF0 <= x <= 0xF4 && |b| >= 4
      && Within(b[1], if x == 0xF0 then 0x90 else 0x80, if x == 0xF4 then 0x8F else 0xBF)
      && Within(b[2], 0x80, 0xBF) && Within(b[3], 0x80, 0xBF) then 4
    else 0
  }

  /** The bytes that decoding consumes at a time. */
  function Size(b: Bytes): (k: nat)
    requires b != []
    ensures 1 <= k <= 4 && k <= |b|
  {
    if Width(b) == 0 then 1 else Width(b)
  }

  predicate Valid(b: Bytes) {
    b == [] || (Width(b) > 0 && Valid(b[Size(b)..]))
  }

  /** The first rune, an ill-formed byte replaced by U+FFFD. */
  function Rune(b: Bytes): (r: Bytes)
    requires b != []
  {
    if Width(b) == 0 then REPLACEMENT else b[..Width(b)]
  }

  function Coerced(b: Bytes): Bytes {
    if b == [] then [] else Rune(b) + Coerced(b[Size(b)..])
  }

  /** What decides the first rune are its own bytes. */
  lemma WidthIsLocal(b: Bytes, rest: Bytes)
    requires b != [] && Width(b) > 0
    ensures Width(b[..Width(b)] + rest) == Width(b)
  {
  }

  lemma {:induction false} ValidAppend(a: Bytes, b: Bytes)
    requires Valid(a) && Valid(b)
    ensures Valid(a + b)
  {
    if a == [] {
      assert a + b == b;
    } else {
      var k := Width(a);
      assert a + b == a[..k] + (a[k..] + b);
      WidthIsLocal(a, a[k..] + b);
      ValidAppend(a[k..], b);
      assert (a + b)[k..] == a[k..] + b;
    }
  }

  lemma {:induction false} AsciiIsValid(b: Bytes)
    requires forall k :: 0 <= k < |b| ==> b[k] as int < 0x80
    ensures Valid(b)
  {
    if b != [] {
      AsciiIsValid(b[1..]);
    }
  }

  lemma RuneSize(b: Bytes)
    requires b != []
    ensures if Width(b) == 0 then |Rune(b)| == Size(b) + 2 else Rune(b) == b[..Size(b)]
  {
  }

  lemma {:induction false} CoercedGrows(b: Bytes)
    ensures |Coerced(b)| >= |b|
    ensures |Coerced(b)| == |b| ==> Valid(b)
    ensures Valid(b) ==> Coerced(b) == b
  {
    hide Width, Size, Rune;
    if b != [] {
      var k := Size(b);
      RuneSize(b);
      CoercedGrows(b[k..]);
      assert b == b[..k] + b[k..];
    }
  }

  /** Decoding keeps exactly the well-formed texts unchanged. */
  lemma {:induction false} CoercedKeepsValid(b: Bytes)
    ensures Coerced(b) == b <==> Valid(b)
  {
    CoercedGrows(b);
  }

  // ---------------------------------------------------------------------------
  // Well-formed means encoding something (section 3 of RFC 3629)
  // ---------------------------------------------------------------------------

  /** A Unicode scalar value: a code point that is no surrogate. */
  type Scalar = r: nat | r < 0xD800 || 0xE000 <= r < 0x11_0000

  function Encoded(r: nat): Bytes
    requires r < 0x11_0000
  {
    if r < 0x80 then [r as char]
    else if r < 0x800 then [(0xC0 + r / 64) as char, (0x80 + r % 64) as char]
    else if r < 0x1_0000 then [(0xE0 + r / 4096) as char, (0x80 + r / 64 % 64) as char, (0x80 + r % 64) as char]
    else [(0xF0 + r / 262144) as char, (0x80 + r / 4096 % 64) as char, (0x80 + r / 64 % 64) as char,
          (0x80 + r % 64) as char]
  }

  function Encoding(rs: seq<Scalar>): Bytes {
    if rs == [] then [] else Encoded(rs[0]) + Encoding(rs[1..])
  }

  lemma EncodedIsOneRune(r: Scalar, rest: Bytes)
    ensures Width(Encoded(r) + rest) == |Encoded(r)| > 0
  {
    var e := Encoded(r);
    var b := e + rest;
    assert forall i :: 0 <= i < |e| ==> b[i] == e[i];
    if r < 0x800 {
    } else if r < 0x1_0000 {
      ThreeBytes(r);
    } else {
      FourBytes(r);
    }
  }

  lemma ThreeBytes(r: Scalar)
    requires 0x800 <= r < 0x1_0000
    ensures 0xE0 <= 0xE0 + r / 4096 <= 0xEF
    ensures 0xE0 + r / 4096 == 0xE0 ==> r / 64 % 64 >= 0x20
    ensures 0xE0 + r / 4096 == 0xED ==> r / 64 % 64 < 0x20
  {
    assert r / 64 / 64 == r / 4096;
  }

  lemma FourBytes(r: nat)
    requires 0x1_0000 <= r < 0x11_0000
    ensures 0xF0 <= 0xF0 + r / 262144 <= 0xF4
    ensures 0xF0 + r / 262144 == 0xF0 ==> r / 4096 % 64 >= 0x10
    ensures 0xF0 + r / 262144 == 0xF4 ==> r / 4096 % 64 < 0x10
  {
    assert r / 4096 / 64 == r / 262144;
  }

  /** The number that two, three or four bytes stand for. */
  lemma RuneIsEncoded(b: Bytes) returns (r: Scalar)
    requires b != [] && Width(b) > 0
    ensures b[..Width(b)] == Encoded(r)
  {
    var k := Width(b);
    var x := b[0] as nat;
    if k == 1 {
      r := x;
      assert b[..1] == [b[0]];
    } else if k == 2 {
      r := Composed(x - 0xC0, [b[1]]);
      TwoParts(x - 0xC0, Low(b[1]));
      assert b[..2] == [b[0], b[1]];
    } else if k == 3 {
      r := Composed(x - 0xE0, [b[1], b[2]]);
      ThreeParts(x - 0xE0, Low(b[1]), Low(b[2]));
      assert b[..3] == [b[0], b[1], b[2]];
    } else {
      r := Composed(x - 0xF0, [b[1], b[2], b[3]]);
      FourParts(x - 0xF0, Low(b[1]), Low(b[2]), Low(b[3]));
      assert b[..4] == [b[0], b[1], b[2], b[3]];
    }
  }

  /** Six more bits from each continuation byte. */
  function Composed(x: nat, tail: Bytes): nat
    requires |tail| <= 3 && forall i :: 0 <= i < |tail| ==> Within(tail[i], 0x80, 0xBF)
  {
    if |tail| == 0 then x
    else if |tail| == 1 then x * 64 + Low(tail[0])
    else if |tail| == 2 then (x * 64 + Low(tail[0])) * 64 + Low(tail[1])
    else ((x * 64 + Low(tail[0])) * 64 + Low(tail[1])) * 64 + Low(tail[2])
  }

  function Low(c: Byte): nat
    requires Within(c, 0x80, 0xBF)
  {
    c as int - 0x80
  }

  lemma TwoParts(x: nat, y: nat)
    requires y < 64
    ensures (x * 64 + y) / 64 == x && (x * 64 + y) % 64 == y
  {
  }

  lemma ThreeParts(x: nat, y: nat, z: nat)
    requires y < 64 && z < 64
    ensures var r := (x * 64 + y) * 64 + z; r / 4096 == x && r / 64 % 64 == y && r % 64 == z
  {
    TwoParts(x, y);
    TwoParts(x * 64 + y, z);
  }

  lemma FourParts(x: nat, y: nat, z: nat, w: nat)
    requires y < 64 && z < 64 && w < 64
    ensures var r := ((x * 64 + y) * 64 + z) * 64 + w;
      r / 262144 == x && r / 4096 % 64 == y && r / 64 % 64 == z && r % 64 == w
  {
    ThreeParts(x, y, z);
    TwoParts((x * 64 + y) * 64 + z, w);
  }

  predicate Encodes(rs: seq<Scalar>, b: Bytes) {
    b == Encoding(rs)
  }

  lemma {:induction false} EncodingIsValid(rs: seq<Scalar>)
    ensures Valid(Encoding(rs))
  {
    hide Encoded, Width;
    if rs != [] {
      EncodingIsValid(rs[1..]);
      EncodedIsOneRune(rs[0], Encoding(rs[1..]));
      assert Encoding(rs)[|Encoded(rs[0])|..] == Encoding(rs[1..]);
    }
  }

  lemma {:induction false} ValidIsEncoding(b: Bytes) returns (rs: seq<Scalar>)
    requires Valid(b)
    ensures Encodes(rs, b)
  {
    hide Encoded, Width;
    if b == [] {
      rs := [];
    } else {
      var k := Width(b);
      var r := RuneIsEncoded(b);
      var others := ValidIsEncoding(b[k..]);
      rs := [r] + others;
      assert rs[1..] == others && b == b[..k] + b[k..];
    }
  }

  /** A text is well-formed exactly when it encodes some sequence of scalar values. */
  lemma ValidIffEncoding(b: Bytes)
    ensures Valid(b) <==> exists rs :: Encodes(rs, b)
  {
    if Valid(b) {
      var rs := ValidIsEncoding(b);
    }
    if rs :| Encodes(rs, b) {
      EncodingIsValid(rs);
    }
  }
}
