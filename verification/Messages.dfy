// The wire object of internal/protocol/protocol.go and its JSON form.  `Marshal`
// writes every message; `Unmarshal` reads the objects that need no white space,
// nested value or unknown member, which is what `Marshal` writes.
module Messages {
  import opened Utf8
  import opened Json
  import opened Wrappers

  /** The optional members, in the order in which they are written. */
  const KEYS: seq<Bytes> := [
    "device_id", "name", "event_id", "mime", "text", "nonce", "code", "fingerprint", "code_value"]

  const TEXT := 4

  type Texts = t: seq<Bytes> | |t| == 9 witness [[], [], [], [], [], [], [], [], []]

  /** A message; an empty optional text is not written at all. */
  datatype Message = Message(kind: Bytes, protocol: Int64, texts: Texts)

  const NO_TEXTS: Texts := [[], [], [], [], [], [], [], [], []]

  const BLANK: Message := Message([], 0, NO_TEXTS)

  // ---------------------------------------------------------------------------
  // Writing
  // ---------------------------------------------------------------------------

  function Digit(n: nat): Byte
    requires n < 10
  {
    (48 + n) as char
  }

  function Digits(n: nat): Bytes {
    if n < 10 then [Digit(n)] else Digits(n / 10) + [Digit(n % 10)]
  }

  function Decimal(p: int): Bytes {
    if p < 0 then "-" + Digits(-p) else Digits(p)
  }

  function Member(key: Bytes, value: Bytes): Bytes {
    Quoted(key) + ":" + value
  }

  function Optional(texts: Texts, i: nat): Bytes
    requires i <= 9
    decreases 9 - i
  {
    if i == 9 then []
    else if texts[i] == [] then Optional(texts, i + 1)
    else "," + Member(KEYS[i], Quoted(texts[i])) + Optional(texts, i + 1)
  }

  function Marshal(m: Message): Bytes {
    "{" + Member("type", Quoted(m.kind)) + "," + Member("protocol", Decimal(m.protocol)) + Optional(m.texts, 0) + "}"
  }

  // ---------------------------------------------------------------------------
  // Reading
  // ---------------------------------------------------------------------------

  predicate IsDigit(c: Byte) {
    48 <= c as int < 58
  }

  function ReadDigits(b: Bytes, value: nat): (p: Parsed<nat>)
    ensures p.Parsed? && |p.rest| <= |b|
    ensures b != [] && IsDigit(b[0]) ==> |p.rest| < |b|
  {
    if b == [] || !IsDigit(b[0]) then Parsed(value, b)
    else ReadDigits(b[1..], 10 * value + (b[0] as int - 48))
  }

  /** A number has no leading zero. */
  function ReadNatural(b: Bytes): (p: Parsed<nat>)
    ensures p.Parsed? ==> |p.rest| < |b|
  {
    if b == [] || !IsDigit(b[0]) then Failed
    else if b[0] == Digit(0) then Parsed(0, b[1..])
    else ReadDigits(b, 0)
  }

  function ReadInteger(b: Bytes): (p: Parsed<Int64>)
    ensures p.Parsed? ==> |p.rest| < |b|
  {
    var negative := b != [] && b[0] == '-';
    var n := ReadNatural(if negative then b[1..] else b);
    if n.Failed? then Failed
    else
      var size: int := n.value;
      var value := if negative then -size else size;
      if -TOP <= value < TOP then Parsed(value, n.rest) else Failed
  }

  /** The place of a key in the list, or 9. */
  function Slot(key: Bytes, i: nat): (j: nat)
    requires i <= 9
    ensures j <= 9
    decreases 9 - i
  {
    if i == 9 || KEYS[i] == key then i else Slot(key, i + 1)
  }

  function ReadMember(b: Bytes, m: Message): (p: Parsed<Message>)
    ensures p.Parsed? ==> |p.rest| < |b|
  {
    var key := ReadString(b);
    if key.Failed? || key.rest == [] || key.rest[0] != ':' then Failed
    else if key.value == "protocol" then
      var n := ReadInteger(key.rest[1..]);
      if n.Failed? then Failed else Parsed(m.(protocol := n.value), n.rest)
    else
      var v := ReadString(key.rest[1..]);
      if v.Failed? then Failed
      else if key.value == "type" then Parsed(m.(kind := v.value), v.rest)
      else if Slot(key.value, 0) < 9 then Parsed(m.(texts := m.texts[Slot(key.value, 0) := v.value]), v.rest)
      else Failed
  }

  function ReadMembers(b: Bytes, m: Message): Parsed<Message>
    decreases |b|, 1
  {
    var p := ReadMember(b, m);
    if p.Failed? then Failed else ReadTail(p.rest, p.value)
  }

  function ReadTail(b: Bytes, m: Message): Parsed<Message>
    decreases |b|, 0
  {
    if b == [] then Failed
    else if b[0] == '}' then Parsed(m, b[1..])
    else if b[0] == ',' then ReadMembers(b[1..], m)
    else Failed
  }

  function Unmarshal(b: Bytes): Option<Message> {
    if b == [] || b[0] != '{' then None
    else
      var p := ReadMembers(b[1..], BLANK);
      if p.Failed? || p.rest != [] then None else Some(p.value)
  }

  // ---------------------------------------------------------------------------
  // Reading back what was written
  // ---------------------------------------------------------------------------

  function CoercedTexts(texts: Texts): Texts {
    seq(9, i requires 0 <= i < 9 => Coerced(texts[i]))
  }

  /** A message as the other end reads it. */
  function Received(m: Message): Message {
    Message(Coerced(m.kind), m.protocol, CoercedTexts(m.texts))
  }

  lemma {:induction false} DigitsReadBack(n: nat, rest: Bytes)
    ensures ReadDigits(Digits(n) + rest, 0) == ReadDigits(rest, n)
    decreases n
  {
    var last := Digit(n % 10);
    assert [last] + rest != [] && ([last] + rest)[1..] == rest;
    if n < 10 {
      assert Digits(n) == [last];
    } else {
      DigitsReadBack(n / 10, [last] + rest);
      assert Digits(n) + rest == Digits(n / 10) + ([last] + rest);
      assert 10 * (n / 10) + n % 10 == n;
    }
  }

  lemma {:induction false} DigitsStart(n: nat)
    ensures Digits(n) != [] && IsDigit(Digits(n)[0])
    ensures Digits(n)[0] == Digit(0) <==> n == 0
  {
    if n >= 10 {
      DigitsStart(n / 10);
    }
  }

  lemma NaturalReadsBack(n: nat, rest: Bytes)
    requires rest != [] && !IsDigit(rest[0])
    ensures ReadNatural(Digits(n) + rest) == Parsed(n, rest)
  {
    var b := Digits(n) + rest;
    DigitsStart(n);
    if n == 0 {
      assert b[1..] == rest;
    } else {
      DigitsReadBack(n, rest);
    }
  }

  lemma IntegerReadsBack(p: Int64, rest: Bytes)
    requires rest != [] && !IsDigit(rest[0])
    ensures ReadInteger(Decimal(p) + rest) == Parsed(p, rest)
  {
    hide Digits, ReadNatural;
    var n: int := p;
    NaturalReadsBack(if n < 0 then -n else n, rest);
    DigitsStart(if n < 0 then -n else n);
    var b := Decimal(p) + rest;
    if n < 0 {
      assert b[1..] == Digits(-n) + rest;
    } else {
      assert b[0] == Digits(n)[0];
    }
  }

  lemma KeysAreDistinct(i: nat, j: nat)
    requires i < 9 && j < 9 && KEYS[i] == KEYS[j]
    ensures i == j
  {
  }

  lemma KeysArePlain(i: nat)
    requires i < 9
    ensures Coerced(KEYS[i]) == KEYS[i] && KEYS[i] != "type" && KEYS[i] != "protocol"
  {
    AsciiIsValid(KEYS[i]);
    CoercedKeepsValid(KEYS[i]);
  }

  lemma {:induction false} SlotIsFound(i: nat, j: nat)
    requires i <= j < 9
    ensures Slot(KEYS[j], i) == j
    decreases j - i
  {
    if i < j {
      if KEYS[i] == KEYS[j] {
        KeysAreDistinct(i, j);
      }
      SlotIsFound(i + 1, j);
    }
  }

  /** What follows a key. */
  lemma KeyReadsBack(key: Bytes, value: Bytes, rest: Bytes)
    ensures ReadString(Member(key, value) + rest) == Parsed(Coerced(key), ":" + (value + rest))
    ensures (":" + (value + rest))[1..] == value + rest
  {
    hide Quoted, ReadString, Coerced;
    assert Member(key, value) + rest == Quoted(key) + (":" + (value + rest));
    StringReadsBack(key, ":" + (value + rest));
  }

  lemma MemberReadsBack(i: nat, value: Bytes, rest: Bytes, m: Message)
    requires i < 9
    ensures ReadMember(Member(KEYS[i], Quoted(value)) + rest, m)
      == Parsed(m.(texts := m.texts[i := Coerced(value)]), rest)
  {
    hide Member, Quoted, ReadString, Coerced, Slot;
    KeyReadsBack(KEYS[i], Quoted(value), rest);
    KeysArePlain(i);
    StringReadsBack(value, rest);
    SlotIsFound(0, i);
  }

  lemma PlainKey(key: Bytes)
    requires key == "type" || key == "protocol"
    ensures Coerced(key) == key
  {
    hide Coerced, Valid;
    AsciiIsValid(key);
    CoercedKeepsValid(key);
  }

  lemma KindReadsBack(kind: Bytes, rest: Bytes, m: Message)
    ensures ReadMember(Member("type", Quoted(kind)) + rest, m) == Parsed(m.(kind := Coerced(kind)), rest)
  {
    hide Member, Quoted, ReadString, Coerced, Slot;
    KeyReadsBack("type", Quoted(kind), rest);
    PlainKey("type");
    StringReadsBack(kind, rest);
  }

  lemma ProtocolReadsBack(p: Int64, rest: Bytes, m: Message)
    requires rest != [] && !IsDigit(rest[0])
    ensures ReadMember(Member("protocol", Decimal(p)) + rest, m) == Parsed(m.(protocol := p), rest)
  {
    hide Member, Quoted, ReadString, Coerced, Slot, Decimal, ReadInteger;
    KeyReadsBack("protocol", Decimal(p), rest);
    PlainKey("protocol");
    IntegerReadsBack(p, rest);
  }

  predicate Matches(texts: Texts, read: Texts, i: nat) {
    forall k :: 0 <= k < 9 ==> read[k] == if k < i then Coerced(texts[k]) else []
  }

  /** Reading one member and going on with the others. */
  lemma TailReadsOn(key: Bytes, value: Bytes, others: Bytes, m: Message, next: Message)
    requires ReadMember(Member(key, value) + others, m) == Parsed(next, others)
    ensures ReadTail("," + Member(key, value) + others, m) == ReadTail(others, next)
  {
    hide ReadMember, Member;
    var b := "," + Member(key, value) + others;
    assert b[1..] == Member(key, value) + others && b[0] == ',';
    assert ReadMembers(b[1..], m) == ReadTail(others, next);
  }

  lemma {:induction false} OptionalReadsBack(texts: Texts, i: nat, m: Message)
    requires i <= 9 && Matches(texts, m.texts, i)
    ensures ReadTail(Optional(texts, i) + "}", m) == Parsed(m.(texts := CoercedTexts(texts)), [])
    decreases 9 - i
  {
    hide ReadMember, Member, Quoted, Coerced;
    if i == 9 {
      assert m.texts == CoercedTexts(texts);
    } else if texts[i] == [] {
      CoercedKeepsValid([]);
      hide ReadTail;
      OptionalReadsBack(texts, i + 1, m);
    } else {
      hide ReadTail;
      var next := m.(texts := m.texts[i := Coerced(texts[i])]);
      var others := Optional(texts, i + 1) + "}";
      MemberReadsBack(i, texts[i], others, m);
      TailReadsOn(KEYS[i], Quoted(texts[i]), others, m, next);
      assert Optional(texts, i) + "}" == "," + Member(KEYS[i], Quoted(texts[i])) + others;
      OptionalReadsBack(texts, i + 1, next);
    }
  }

  lemma OptionalStart(texts: Texts, i: nat)
    requires i <= 9
    ensures var b := Optional(texts, i) + "}"; b[0] == '}' || b[0] == ','
    decreases 9 - i
  {
    if i < 9 && texts[i] == [] {
      OptionalStart(texts, i + 1);
    }
  }

  /** Whatever its fields hold, a written object is read as the same message with
      its ill-formed bytes replaced. */
  lemma ObjectReadsBack(m: Message)
    ensures Unmarshal(Marshal(m)) == Some(Received(m))
  {
    hide ReadMember, Member, Quoted, Coerced, Optional, Decimal;
    var tail := Optional(m.texts, 0) + "}";
    var protocol := Member("protocol", Decimal(m.protocol)) + tail;
    var members := Member("type", Quoted(m.kind)) + ("," + protocol);
    assert Marshal(m) == "{" + members && Marshal(m)[1..] == members;
    var named := BLANK.(kind := Coerced(m.kind));
    KindReadsBack(m.kind, "," + protocol, BLANK);
    assert ReadMembers(members, BLANK) == ReadTail("," + protocol, named);
    assert ("," + protocol)[1..] == protocol;
    OptionalStart(m.texts, 0);
    ProtocolReadsBack(m.protocol, tail, named);
    assert ReadMembers(protocol, named) == ReadTail(tail, named.(protocol := m.protocol));
    OptionalReadsBack(m.texts, 0, named.(protocol := m.protocol));
  }

  /** A member for a name that needs no escapes; an empty text has none. */
  function Field(name: Bytes, text: Bytes): Bytes {
    if text == [] then [] else ",\"" + name + "\":\"" + Escape(text) + "\""
  }

  lemma OptionalIsField(texts: Texts, i: nat)
    requires i < 9 && Escape(KEYS[i]) == KEYS[i]
    ensures Optional(texts, i) == Field(KEYS[i], texts[i]) + Optional(texts, i + 1)
  {
    hide Escape;
    if texts[i] != [] {
      assert "," + (Quoted(KEYS[i]) + ":" + Quoted(texts[i])) == Field(KEYS[i], texts[i]);
    }
  }

  lemma KeysNeedNoEscapes(i: nat)
    requires i < 9
    ensures Escape(KEYS[i]) == KEYS[i]
  {
    KeysAreNames();
    NamesAreUnescaped(KEYS[i]);
  }

  lemma KeysAreNames()
    ensures forall i :: 0 <= i < 9 ==> IsName(KEYS[i])
  {
  }

  /** The optional members in order. */
  function Fields(t: Texts): Bytes {
    Field("device_id", t[0]) + (Field("name", t[1]) + (Field("event_id", t[2]) + (Field("mime", t[3])
    + (Field("text", t[4]) + (Field("nonce", t[5]) + (Field("code", t[6]) + (Field("fingerprint", t[7])
    + (Field("code_value", t[8]) + []))))))))
  }

  /** What is written, member by member. */
  lemma MarshalLayout(m: Message)
    ensures Marshal(m) == "{\"type\":\"" + Escape(m.kind) + "\",\"protocol\":" + Decimal(m.protocol)
      + Fields(m.texts) + "}"
  {
    hide Escape, Optional, Field, Decimal, Fields;
    NamesAreUnescaped("type");
    NamesAreUnescaped("protocol");
    OptionalLayout(m.texts);
    HeadLayout(Escape(m.kind), Decimal(m.protocol));
  }

  lemma HeadLayout(kind: Bytes, p: Bytes)
    ensures "{" + (['"'] + "type" + ['"'] + ":" + (['"'] + kind + ['"'])) + "," + (['"'] + "protocol" + ['"'] + ":" + p)
      == "{\"type\":\"" + kind + "\",\"protocol\":" + p
  {
    TypeLayout(kind);
    Regrouped("{", "\"type\":\"", kind, "\"", ",", "\"protocol\":", p);
  }

  lemma TypeLayout(kind: Bytes)
    ensures ['"'] + "type" + ['"'] + ":" + (['"'] + kind + ['"']) == "\"type\":\"" + kind + "\""
  {
  }

  lemma Regrouped(a: Bytes, b: Bytes, k: Bytes, q: Bytes, c: Bytes, d: Bytes, p: Bytes)
    ensures a + (b + k + q) + c + (d + p) == (a + b) + k + (q + c + d) + p
  {
  }

  lemma OptionalLayout(t: Texts)
    ensures Optional(t, 0) == Fields(t)
  {
    assert Optional(t, 9) == [];
    forall i: nat | i < 9 ensures Optional(t, i) == Field(KEYS[i], t[i]) + Optional(t, i + 1) {
      KeysNeedNoEscapes(i);
      OptionalIsField(t, i);
    }
    hide Optional, Field;
  }

  // ---------------------------------------------------------------------------
  // Size and shape
  // ---------------------------------------------------------------------------

  function Total(texts: Texts, i: nat): nat
    requires i <= 9
    decreases 9 - i
  {
    if i == 9 then 0 else |texts[i]| + Total(texts, i + 1)
  }

  lemma QuotedIsBounded(b: Bytes)
    ensures |b| + 2 <= |Quoted(b)| <= 6 * |b| + 2
    ensures Valid(Quoted(b))
  {
    EscapeIsBounded(b);
    EscapeIsValid(b);
    ValidAppend(['"'], Escape(b));
    ValidAppend(['"'] + Escape(b), ['"']);
  }

  lemma MemberIsValid(key: Bytes, value: Bytes)
    requires Valid(value)
    ensures Valid(Member(key, value))
    ensures |value| < |Member(key, value)| <= 6 * |key| + 3 + |value|
  {
    QuotedIsBounded(key);
    ValidAppend(Quoted(key), ":");
    ValidAppend(Quoted(key) + ":", value);
  }

  lemma KeysAreShort(i: nat)
    requires i < 9
    ensures |KEYS[i]| <= 11
  {
  }

  /** One optional member with its comma. */
  lemma OptionalMember(key: Bytes, text: Bytes)
    requires |key| <= 11
    ensures var m := "," + Member(key, Quoted(text)); Valid(m) && |m| <= 6 * |text| + 72
  {
    hide Member, Quoted, Valid;
    QuotedIsBounded(text);
    MemberIsValid(key, Quoted(text));
    AsciiIsValid(",");
    ValidAppend(",", Member(key, Quoted(text)));
  }

  lemma {:induction false} OptionalIsBounded(texts: Texts, i: nat)
    requires i <= 9
    ensures |Optional(texts, i)| <= 6 * Total(texts, i) + 72 * (9 - i)
    decreases 9 - i
  {
    hide Member, Quoted;
    if i < 9 {
      OptionalIsBounded(texts, i + 1);
      KeysAreShort(i);
      OptionalMember(KEYS[i], texts[i]);
    }
  }

  lemma {:induction false} OptionalIsValid(texts: Texts, i: nat)
    requires i <= 9
    ensures Valid(Optional(texts, i))
    decreases 9 - i
  {
    hide Member, Quoted, Valid;
    if i < 9 {
      OptionalIsValid(texts, i + 1);
      KeysAreShort(i);
      OptionalMember(KEYS[i], texts[i]);
      ValidAppend("," + Member(KEYS[i], Quoted(texts[i])), Optional(texts, i + 1));
    } else {
      AsciiIsValid([]);
    }
  }

  lemma {:induction false} DigitsAreBounded(n: nat, k: nat)
    requires n < Power10(k + 1)
    ensures |Digits(n)| <= k + 1
    ensures forall j :: 0 <= j < |Digits(n)| ==> Digits(n)[j] as int < 0x80
    decreases k
  {
    if n >= 10 && k > 0 {
      DigitsAreBounded(n / 10, k - 1);
    }
  }

  function Power10(k: nat): nat {
    if k == 0 then 1 else 10 * Power10(k - 1)
  }

  lemma DecimalIsBounded(p: Int64)
    ensures |Decimal(p)| <= 21 && Valid(Decimal(p))
  {
    var n: int := p;
    assert Power10(10) == 100_0000_0000 && Power10(20) == 1_0000_0000_0000_0000_0000;
    DigitsAreBounded(if n < 0 then -n else n, 19);
    AsciiIsValid(Decimal(p));
  }

  /** An object is well-formed text of at most six bytes for each byte it holds,
      and a fixed overhead. */
  lemma MarshalIsBounded(m: Message)
    ensures Valid(Marshal(m))
    ensures |m.kind| < |Marshal(m)| <= 6 * (|m.kind| + Total(m.texts, 0)) + 800
  {
    hide Member, Quoted, Decimal, Optional, Valid, Total;
    var kind, protocol := Member("type", Quoted(m.kind)), Member("protocol", Decimal(m.protocol));
    QuotedIsBounded(m.kind);
    MemberIsValid("type", Quoted(m.kind));
    DecimalIsBounded(m.protocol);
    MemberIsValid("protocol", Decimal(m.protocol));
    OptionalIsBounded(m.texts, 0);
    OptionalIsValid(m.texts, 0);
    AsciiIsValid("{");
    AsciiIsValid(",");
    AsciiIsValid("}");
    ValidAppend("{", kind);
    ValidAppend("{" + kind, ",");
    ValidAppend("{" + kind + ",", protocol);
    ValidAppend("{" + kind + "," + protocol, Optional(m.texts, 0));
    ValidAppend("{" + kind + "," + protocol + Optional(m.texts, 0), "}");
  }
}
