// Length-prefixed frames over streams that write short and read in pieces
// (internal/protocol/protocol.go).
module Framing {
  import opened Utf8
  import opened Messages
  import opened Wrappers

  const VERSION: Int64 := 1
  const DEFAULT_MAX_FRAME: Int64 := 7 * 0x10_0000

  datatype WriteError = FrameTooLarge | WriteFailed | ShortWrite

  datatype ReadError = ReadFailed | InvalidLength | NotUtf8 | Malformed | UnsupportedProtocol | TypeRequired

  type ReadResult<+T> = Result<T, ReadError>

  // ---------------------------------------------------------------------------
  // Frames as values
  // ---------------------------------------------------------------------------

  /** The low 32 bits of a length, most significant byte first. */
  function Header(n: nat): (h: Bytes)
    ensures |h| == 4
  {
    [(n / 256 / 256 / 256 % 256) as char, (n / 256 / 256 % 256) as char, (n / 256 % 256) as char, (n % 256) as char]
  }

  function HeaderValue(h: Bytes): nat
    requires |h| == 4
  {
    ((h[0] as nat * 256 + h[1] as nat) * 256 + h[2] as nat) * 256 + h[3] as nat
  }

  function Frame(body: Bytes): Bytes {
    Header(|body|) + body
  }

  /** The limit as an unsigned number: a negative one is no limit at all. */
  function Unsigned(max: Int64): nat {
    if max < 0 then max + 0x1_0000_0000_0000_0000 else max
  }

  function Versioned(m: Message): Message {
    if m.protocol == 0 then m.(protocol := VERSION) else m
  }

  function Checked(unmarshal: Bytes -> Option<Message>, body: Bytes): ReadResult<Message> {
    if !Valid(body) then Err(NotUtf8)
    else
      var m := unmarshal(body);
      if m.None? then Err(Malformed)
      else if m.value.protocol != VERSION then Err(UnsupportedProtocol)
      else if m.value.kind == [] then Err(TypeRequired)
      else Ok(m.value)
  }

  /** One Read: its result and the bytes it leaves unread. */
  function Decoded(unmarshal: Bytes -> Option<Message>, b: Bytes, max: Int64): (ReadResult<Message>, Bytes) {
    if |b| < 4 then (Err(ReadFailed), [])
    else
      var n := HeaderValue(b[..4]);
      if n == 0 || n > Unsigned(max) then (Err(InvalidLength), b[4..])
      else if |b| < 4 + n then (Err(ReadFailed), [])
      else (Checked(unmarshal, b[4..4 + n]), b[4 + n..])
  }

  // ---------------------------------------------------------------------------
  // Writing
  // ---------------------------------------------------------------------------

  /** A stream that may take any part of what it is given, fail at any time, and
      report a count out of range.  A count in range, without an error, is true. */
  class Writer {
    var sent: Bytes
    ghost var faults: seq<WriteError>   // the errors and the wrong counts it gave

    constructor ()
      ensures sent == [] && faults == []
    {
      sent := [];
      faults := [];
    }

    method Write(b: Bytes) returns (n: int, failed: bool)
      modifies this
      ensures old(sent) <= sent <= old(sent) + b
      ensures !failed && 0 < n <= |b| ==> sent == old(sent) + b[..n]
      ensures faults == old(faults)
                        + if failed then [WriteFailed] else if 0 < n <= |b| then [] else [ShortWrite]
    {
      var k: nat :| k <= |b|;
      sent := sent + b[..k];
      failed := *;
      n := *;
      if 0 < n <= |b| {
        n := k;
      }
      faults := faults + if failed then [WriteFailed] else if 0 < n <= |b| then [] else [ShortWrite];
    }
  }

  /** It fails when, and as, the stream did. */
  method WriteAll(w: Writer, bytes: Bytes) returns (err: Option<WriteError>)
    modifies w
    ensures err.None? ==> w.sent == old(w.sent) + bytes
    ensures err.Some? ==> err.value != FrameTooLarge && old(w.sent) <= w.sent <= old(w.sent) + bytes
    ensures w.faults == old(w.faults) + if err.Some? then [err.value] else []
  {
    var b := bytes;
    ghost var start := w.sent;
    while |b| > 0
      invariant |b| <= |bytes| && b == bytes[|bytes| - |b|..]
      invariant w.sent == start + bytes[..|bytes| - |b|]
      invariant w.faults == old(w.faults)
    {
      ghost var done := |bytes| - |b|;
      var n, failed := w.Write(b);
      assert start + bytes[..done] + b == start + bytes;
      if failed {
        return Some(WriteFailed);
      }
      if n <= 0 || n > |b| {
        return Some(ShortWrite);
      }
      assert bytes[..done] + b[..n] == bytes[..done + n];
      b := b[n..];
    }
    assert bytes[..|bytes|] == bytes;
    err := None;
  }

  lemma PrefixGrows(sent: Bytes, header: Bytes, body: Bytes)
    ensures sent <= sent + header <= sent + header + body == sent + (header + body)
  {
  }

  method Write(w: Writer, message: Message, max: Int64) returns (err: Option<WriteError>)
    modifies w
    ensures var body := Marshal(Versioned(message));
      if |body| > max then err == Some(FrameTooLarge) && w.sent == old(w.sent)
      else if err.None? then w.sent == old(w.sent) + Frame(body)
      else err.value != FrameTooLarge && old(w.sent) <= w.sent <= old(w.sent) + Frame(body)
    ensures w.faults == old(w.faults) + if err.Some? && err.value != FrameTooLarge then [err.value] else []
  {
    hide Marshal, Header;
    var m := message;
    if m.protocol == 0 {
      m := m.(protocol := VERSION);
    }
    var b := Marshal(m);
    if |b| > max {
      return Some(FrameTooLarge);
    }
    PrefixGrows(w.sent, Header(|b|), b);
    err := WriteAll(w, Header(|b|));
    if err.Some? {
      return;
    }
    err := WriteAll(w, b);
  }

  // ---------------------------------------------------------------------------
  // Reading
  // ---------------------------------------------------------------------------

  /** A stream that delivers its remaining bytes in pieces of any size and then
      fails for good: at its end, or where the connection broke. */
  class Reader {
    var ahead: Bytes

    constructor (bytes: Bytes)
      ensures ahead == bytes
    {
      ahead := bytes;
    }

    method Read(want: nat) returns (piece: Bytes, failed: bool)
      requires want > 0
      modifies this
      ensures old(ahead) == piece + ahead && |piece| <= want
      ensures failed ==> ahead == []
      ensures !failed ==> piece != []
    {
      if ahead == [] {
        return [], true;
      }
      var k: nat :| 0 < k <= want && k <= |ahead|;
      piece, ahead := ahead[..k], ahead[k..];
      failed := *;
      if ahead != [] {
        failed := false;
      }
    }
  }

  /** Reads n bytes however they are chunked, or all there are. */
  method ReadFull(r: Reader, n: nat) returns (buf: Option<Bytes>)
    modifies r
    ensures if n <= |old(r.ahead)| then buf == Some(old(r.ahead)[..n]) && r.ahead == old(r.ahead)[n..]
            else buf == None && r.ahead == []
  {
    ghost var all := r.ahead;
    var got: Bytes, failed := [], false;
    while |got| < n && !failed
      invariant |got| <= n && all == got + r.ahead
      invariant failed ==> r.ahead == []
      decreases n - |got|, !failed
    {
      var piece;
      piece, failed := r.Read(n - |got|);
      got := got + piece;
    }
    buf := if |got| < n then None else Some(got);
  }

  method Read(r: Reader, max: Int64, unmarshal: Bytes -> Option<Message>) returns (m: ReadResult<Message>)
    modifies r
    ensures (m, r.ahead) == Decoded(unmarshal, old(r.ahead), max)
  {
    ghost var all := r.ahead;
    var header := ReadFull(r, 4);
    if header.None? {
      return Err(ReadFailed);
    }
    var n := HeaderValue(header.value);
    if n == 0 || n > Unsigned(max) {
      return Err(InvalidLength);
    }
    var body := ReadFull(r, n);
    if body.None? {
      return Err(ReadFailed);
    }
    assert body.value == all[4..4 + n] && r.ahead == all[4 + n..];
    if !Valid(body.value) {
      return Err(NotUtf8);
    }
    var decoded := unmarshal(body.value);
    if decoded.None? {
      return Err(Malformed);
    }
    if decoded.value.protocol != VERSION {
      return Err(UnsupportedProtocol);
    }
    if decoded.value.kind == [] {
      return Err(TypeRequired);
    }
    m := Ok(decoded.value);
  }

  // ---------------------------------------------------------------------------
  // What a Read refuses
  // ---------------------------------------------------------------------------

  /** The length that four bytes announce, the most significant first. */
  function Announced(b: Bytes): nat
    requires |b| >= 4
  {
    16_777_216 * b[0] as nat + 65_536 * b[1] as nat + 256 * b[2] as nat + b[3] as nat
  }

  /** A frame that announces nothing or more than the limit is refused, whatever
      follows, after exactly its four length bytes.  A negative limit is none. */
  lemma OversizedIsRefused(unmarshal: Bytes -> Option<Message>, b: Bytes, max: Int64)
    requires |b| >= 4
    ensures Announced(b) == 0 || 0 <= max < Announced(b) ==> Decoded(unmarshal, b, max) == (Err(InvalidLength), b[4..])
  {
    HeaderOf(b);
  }

  lemma HeaderOf(b: Bytes)
    requires |b| >= 4
    ensures HeaderValue(b[..4]) == Announced(b)
  {
    var h := b[..4];
    assert h[0] == b[0] && h[1] == b[1] && h[2] == b[2] && h[3] == b[3];
  }

  /** A frame announces its body and holds nothing else. */
  lemma FrameAnnounces(body: Bytes)
    requires |body| < 0x1_0000_0000
    ensures var f := Frame(body); |f| == 4 + |body| && Announced(f) == |body| && f[4..] == body
  {
    HeaderIsExact(|body|);
    HeaderOf(Frame(body));
    assert Frame(body)[..4] == Header(|body|);
  }

  /** Too few bytes for a length, or for the body it announces, are an error that
      leaves nothing. */
  lemma ShortIsRefused(unmarshal: Bytes -> Option<Message>, b: Bytes, max: Int64)
    requires |b| < 4 || (0 < Announced(b) && (max < 0 || Announced(b) <= max) && |b| < 4 + Announced(b))
    ensures Decoded(unmarshal, b, max) == (Err(ReadFailed), [])
  {
    if |b| >= 4 {
      HeaderOf(b);
    }
  }

  /** A whole body within the limit is consumed with its length, and answered by the
      first test it fails: UTF-8, JSON, the protocol version, the type. */
  lemma BodyIsJudged(unmarshal: Bytes -> Option<Message>, b: Bytes, max: Int64)
    requires |b| >= 4 && 0 < Announced(b) && (max < 0 || Announced(b) <= max) && |b| >= 4 + Announced(b)
    ensures var n := Announced(b);
      var body, read := b[4..4 + n], Decoded(unmarshal, b, max);
      && read.1 == b[4 + n..]
      && (!Valid(body) ==> read.0 == Err(NotUtf8))
      && (Valid(body) && unmarshal(body).None? ==> read.0 == Err(Malformed))
      && (Valid(body) && unmarshal(body).Some? ==>
            var m := unmarshal(body).value;
            && (m.protocol != 1 ==> read.0 == Err(UnsupportedProtocol))
            && (m.protocol == 1 && m.kind == [] ==> read.0 == Err(TypeRequired))
            && (m.protocol == 1 && m.kind != [] ==> read.0 == Ok(m)))
  {
    HeaderOf(b);
    hide Valid;
  }

  /** A Read that returns a message took at most four bytes and the limit, from the
      front, and what it took was well-formed text. */
  lemma OkIsBounded(unmarshal: Bytes -> Option<Message>, b: Bytes, max: Int64)
    requires 0 <= max && Decoded(unmarshal, b, max).0.Ok?
    ensures var rest := Decoded(unmarshal, b, max).1;
      && |rest| <= |b| <= |rest| + 4 + max && b[|b| - |rest|..] == rest
      && |b| >= 4 && 0 < Announced(b) == |b| - |rest| - 4 && Valid(b[4..|b| - |rest|])
  {
    if |b| >= 4 {
      HeaderOf(b);
    }
    hide Valid;
  }

  // ---------------------------------------------------------------------------
  // Reading back what was written
  // ---------------------------------------------------------------------------

  /** The decoder agrees with `Unmarshal` on the objects that one reads, as
      `Unmarshal` itself does. */
  ghost predicate Decodes(unmarshal: Bytes -> Option<Message>) {
    forall b :: Unmarshal(b).Some? ==> unmarshal(b) == Unmarshal(b)
  }

  /** What the other end makes of a message. */
  function Outcome(m: Message): ReadResult<Message> {
    if m.protocol != VERSION then Err(UnsupportedProtocol)
    else if m.kind == [] then Err(TypeRequired)
    else Ok(Received(m))
  }

  /** The header tells the length exactly when it has 32 bits. */
  lemma HeaderIsExact(n: nat)
    ensures HeaderValue(Header(n)) == n % 0x1_0000_0000
    ensures HeaderValue(Header(n)) == n <==> n < 0x1_0000_0000
  {
    var q := n / 256;
    var r := q / 256;
    var t := r / 256;
    var h := Header(n);
    assert h[0] as nat == t % 256 && h[1] as nat == r % 256 && h[2] as nat == q % 256 && h[3] as nat == n % 256;
    RemainderIsUnique(n, t / 256, HeaderValue(h));
  }

  lemma RemainderIsUnique(n: nat, k: nat, r: nat)
    requires n == 0x1_0000_0000 * k + r && r < 0x1_0000_0000
    ensures r == n % 0x1_0000_0000
    ensures r == n <==> n < 0x1_0000_0000
  {
  }

  predicate Fits(m: Message, max: Int64) {
    |Marshal(m)| <= max && |Marshal(m)| < 0x1_0000_0000
  }

  /** One Read consumes one frame, four bytes and its body, and no more. */
  lemma FrameReadsBack(unmarshal: Bytes -> Option<Message>, m: Message, tail: Bytes, max: Int64)
    requires Decodes(unmarshal) && Fits(m, max)
    ensures Decoded(unmarshal, Frame(Marshal(m)) + tail, max) == (Outcome(m), tail)
  {
    hide Marshal, Unmarshal, Valid, Header, HeaderValue, Received;
    var body := Marshal(m);
    var b := Frame(body) + tail;
    HeaderIsExact(|body|);
    MarshalIsBounded(m);
    ObjectReadsBack(m);
    CoercedGrows(m.kind);
    assert Received(m).kind == Coerced(m.kind) && Received(m).protocol == m.protocol by {
      KindIsCoerced(m);
    }
    assert b[..4] == Header(|body|) && b[4..4 + |body|] == body && b[4 + |body|..] == tail;
  }

  lemma KindIsCoerced(m: Message)
    ensures Received(m).kind == Coerced(m.kind) && Received(m).protocol == m.protocol
    ensures m.kind == [] ==> Received(m).kind == []
  {
  }

  predicate WellFormed(m: Message) {
    Valid(m.kind) && forall i :: 0 <= i < 9 ==> Valid(m.texts[i])
  }

  lemma ReceivedKeepsWellFormed(m: Message)
    ensures Received(m) == m <==> WellFormed(m)
  {
    hide Coerced, Valid;
    CoercedKeepsValid(m.kind);
    forall i | 0 <= i < 9 ensures Coerced(m.texts[i]) == m.texts[i] <==> Valid(m.texts[i]) {
      CoercedKeepsValid(m.texts[i]);
    }
    var read := CoercedTexts(m.texts);
    assert read == m.texts <==> forall i :: 0 <= i < 9 ==> read[i] == m.texts[i];
  }

  /** What Write sends of a message comes back unchanged exactly when its fields
      are UTF-8, it has a type and its protocol is this version or left to Write. */
  lemma RoundTrip(unmarshal: Bytes -> Option<Message>, m: Message, tail: Bytes, max: Int64)
    requires Decodes(unmarshal) && Fits(Versioned(m), max)
    ensures Decoded(unmarshal, Frame(Marshal(Versioned(m))) + tail, max) == (Ok(Versioned(m)), tail)
      <==> WellFormed(m) && m.kind != [] && (m.protocol == VERSION || m.protocol == 0)
  {
    hide Decoded, Decodes, Fits, Marshal, Frame, Valid;
    FrameReadsBack(unmarshal, Versioned(m), tail, max);
    ReceivedKeepsWellFormed(Versioned(m));
  }

  function Stream(ms: seq<Message>): Bytes {
    if ms == [] then [] else Frame(Marshal(ms[0])) + Stream(ms[1..])
  }

  function AllVersioned(ms: seq<Message>): seq<Message> {
    seq(|ms|, i requires 0 <= i < |ms| => Versioned(ms[i]))
  }

  /** The results of `count` Reads in a row. */
  function DecodedMany(unmarshal: Bytes -> Option<Message>, b: Bytes, max: Int64, count: nat)
    : (seq<ReadResult<Message>>, Bytes)
    decreases count
  {
    if count == 0 then ([], b)
    else
      var first := Decoded(unmarshal, b, max);
      var others := DecodedMany(unmarshal, first.1, max, count - 1);
      ([first.0] + others.0, others.1)
  }

  function Outcomes(ms: seq<Message>): seq<ReadResult<Message>> {
    seq(|ms|, i requires 0 <= i < |ms| => Outcome(ms[i]))
  }

  function Successes(ms: seq<Message>): seq<ReadResult<Message>> {
    seq(|ms|, i requires 0 <= i < |ms| => Ok(ms[i]))
  }

  /** Any sequence of frames is read back one by one, in order. */
  lemma {:induction false} FramesReadBack(
    unmarshal: Bytes -> Option<Message>, ms: seq<Message>, tail: Bytes, max: Int64)
    requires Decodes(unmarshal) && forall i :: 0 <= i < |ms| ==> Fits(ms[i], max)
    ensures DecodedMany(unmarshal, Stream(ms) + tail, max, |ms|) == (Outcomes(ms), tail)
  {
    hide Decoded, Outcome, Marshal, Frame, Fits, Decodes;
    if ms == [] {
      assert Stream(ms) + tail == tail;
      assert Outcomes(ms) == [];
    } else {
      var others := Stream(ms[1..]) + tail;
      assert Stream(ms) + tail == Frame(Marshal(ms[0])) + others;
      FrameReadsBack(unmarshal, ms[0], others, max);
      FramesReadBack(unmarshal, ms[1..], tail, max);
      assert Outcomes(ms) == [Outcome(ms[0])] + Outcomes(ms[1..]);
    }
  }

  /** What Write sends of a message comes back as it was sent. */
  predicate Survives(m: Message) {
    WellFormed(m) && m.kind != [] && (m.protocol == VERSION || m.protocol == 0)
  }

  lemma OutcomeIsSuccess(m: Message)
    ensures Outcome(Versioned(m)) == Ok(Versioned(m)) <==> Survives(m)
  {
    hide Valid, Received;
    ReceivedKeepsWellFormed(Versioned(m));
  }

  /** Nothing of what follows the messages of a sequence that Write sends is consumed,
      and they come back as that same sequence exactly when each of them would come
      back alone. */
  lemma StreamReadsBack(unmarshal: Bytes -> Option<Message>, ms: seq<Message>, tail: Bytes, max: Int64)
    requires Decodes(unmarshal) && forall i :: 0 <= i < |ms| ==> Fits(Versioned(ms[i]), max)
    ensures var sent := AllVersioned(ms);
      var read := DecodedMany(unmarshal, Stream(sent) + tail, max, |ms|);
      && read.1 == tail
      && (read.0 == Successes(sent) <==> forall i :: 0 <= i < |ms| ==> Survives(ms[i]))
  {
    hide Decodes, Fits, Survives, Outcome, Versioned, DecodedMany, Stream;
    var sent := AllVersioned(ms);
    FramesReadBack(unmarshal, sent, tail, max);
    forall i | 0 <= i < |ms| ensures Outcomes(sent)[i] == Successes(sent)[i] <==> Survives(ms[i]) {
      OutcomeIsSuccess(ms[i]);
    }
    assert Outcomes(sent) == Successes(sent) <==> forall i :: 0 <= i < |ms| ==> Outcomes(sent)[i] == Successes(sent)[i];
  }

  /** A message whose only text is the single byte 0xFF, which is no UTF-8. */
  predicate OneBadByte(m: Message) {
    && m.protocol == VERSION && m.kind != [] && |m.kind| <= 0x1_0000 && Valid(m.kind)
    && forall i :: 0 <= i < 9 ==> m.texts[i] == if i == TEXT then ['\U{FF}'] else []
  }

  lemma {:induction false} EmptyTotal(texts: Texts, i: nat)
    requires i <= 9 && forall k :: i <= k < 9 ==> texts[k] == []
    ensures Total(texts, i) == 0
    decreases 9 - i
  {
    if i < 9 {
      EmptyTotal(texts, i + 1);
    }
  }

  lemma ByteIsReplaced(m: Message)
    requires OneBadByte(m)
    ensures Received(m) == m.(texts := m.texts[TEXT := REPLACEMENT])
  {
    CoercedKeepsValid(m.kind);
    assert Coerced([]) == [];
    assert Coerced(['\U{FF}']) == REPLACEMENT + Coerced([]);
    hide Coerced, Valid;
    assert forall i :: 0 <= i < 9 ==> CoercedTexts(m.texts)[i] == m.texts[TEXT := REPLACEMENT][i];
  }

  /** Such a message does not come back as it was: the byte arrives as U+FFFD. */
  lemma IllFormedByteChanges(unmarshal: Bytes -> Option<Message>, m: Message, tail: Bytes)
    requires Decodes(unmarshal) && OneBadByte(m)
    ensures Decoded(unmarshal, Frame(Marshal(m)) + tail, DEFAULT_MAX_FRAME)
         == (Ok(m.(texts := m.texts[TEXT := REPLACEMENT])), tail)
    ensures m.texts[TEXT] != REPLACEMENT
  {
    hide Decoded, Frame, Marshal, Decodes, Received, Total, Valid, Fits;
    EmptyTotal(m.texts[TEXT := []], 0);
    LargestTextFits(m);
    FrameReadsBack(unmarshal, m, tail, DEFAULT_MAX_FRAME);
    ByteIsReplaced(m);
    KindIsCoerced(m);
  }

  // ---------------------------------------------------------------------------
  // One end writing to the other
  // ---------------------------------------------------------------------------

  /** Writes messages one after another until one fails. */
  method WriteEach(w: Writer, ms: seq<Message>, max: Int64) returns (err: Option<WriteError>)
    modifies w
    ensures err.None? ==>
      && (forall i :: 0 <= i < |ms| ==> |Marshal(Versioned(ms[i]))| <= max)
      && w.sent == old(w.sent) + Stream(AllVersioned(ms))
    ensures err == Some(FrameTooLarge) ==> exists i :: 0 <= i < |ms| && |Marshal(Versioned(ms[i]))| > max
    ensures w.faults == old(w.faults) + if err.Some? && err.value != FrameTooLarge then [err.value] else []
  {
    hide Marshal, Frame, Versioned, Stream, AllVersioned;
    ghost var start := w.sent;
    err := None;
    StreamStarts(start, ms);
    for i := 0 to |ms|
      invariant forall k :: 0 <= k < i ==> |Marshal(Versioned(ms[k]))| <= max
      invariant w.sent == start + Stream(AllVersioned(ms[..i])) && w.faults == old(w.faults) && err.None?
    {
      err := Write(w, ms[i], max);
      if err.Some? {
        assert err == Some(FrameTooLarge) ==> |Marshal(Versioned(ms[i]))| > max;
        return;
      }
      StreamGrows(start, ms, i);
    }
    assert ms[..|ms|] == ms;
  }

  lemma StreamStarts(start: Bytes, ms: seq<Message>)
    ensures start == start + Stream(AllVersioned(ms[..0]))
  {
    assert AllVersioned(ms[..0]) == [];
  }

  lemma StreamGrows(start: Bytes, ms: seq<Message>, i: nat)
    requires i < |ms|
    ensures start + Stream(AllVersioned(ms[..i])) + Frame(Marshal(Versioned(ms[i])))
         == start + Stream(AllVersioned(ms[..i + 1]))
  {
    hide Stream, Frame, Marshal, Versioned;
    assert AllVersioned(ms[..i + 1]) == AllVersioned(ms[..i]) + [Versioned(ms[i])];
    StreamAppend(AllVersioned(ms[..i]), Versioned(ms[i]));
    AppendAssociates(start, Stream(AllVersioned(ms[..i])), Frame(Marshal(Versioned(ms[i]))));
  }

  lemma AppendAssociates(a: Bytes, b: Bytes, c: Bytes)
    ensures a + b + c == a + (b + c)
  {
  }

  lemma {:induction false} StreamAppend(ms: seq<Message>, m: Message)
    ensures Stream(ms + [m]) == Stream(ms) + Frame(Marshal(m))
  {
    hide Frame, Marshal;
    if ms == [] {
      assert Stream([m]) == Frame(Marshal(m)) + Stream([m][1..]);
    } else {
      assert (ms + [m])[1..] == ms[1..] + [m];
      StreamAppend(ms[1..], m);
    }
  }

  /** Reads `count` times in a row. */
  method ReadEach(r: Reader, count: nat, max: Int64, unmarshal: Bytes -> Option<Message>)
    returns (results: seq<ReadResult<Message>>)
    modifies r
    ensures (results, r.ahead) == DecodedMany(unmarshal, old(r.ahead), max, count)
  {
    hide Decoded;
    results := [];
    assert forall q: seq<ReadResult<Message>> :: [] + q == q;
    for i := 0 to count
      invariant var rest := DecodedMany(unmarshal, r.ahead, max, count - i);
        (results + rest.0, rest.1) == DecodedMany(unmarshal, old(r.ahead), max, count)
    {
      ghost var rest := DecodedMany(unmarshal, r.ahead, max, count - i);
      var m := Read(r, max, unmarshal);
      assert results + rest.0 == results + [m] + DecodedMany(unmarshal, r.ahead, max, count - i - 1).0;
      results := results + [m];
    }
    assert results + [] == results;
  }

  /** Whatever pieces the two streams move: once every message was written without
      an error, the other end reads exactly those messages if and only if each of
      them would come back alone. */
  method Transfer(ms: seq<Message>, max: Int64, unmarshal: Bytes -> Option<Message>)
    returns (err: Option<WriteError>, results: seq<ReadResult<Message>>)
    requires Decodes(unmarshal) && max < 0x1_0000_0000
    ensures err.None? ==>
      (results == Successes(AllVersioned(ms)) <==> forall i :: 0 <= i < |ms| ==> Survives(ms[i]))
  {
    hide Decodes, Survives, Stream, DecodedMany, Successes, AllVersioned, Marshal, Versioned;
    results := [];
    var w := new Writer();
    err := WriteEach(w, ms, max);
    if err.None? {
      var r := new Reader(w.sent);
      assert w.sent == Stream(AllVersioned(ms)) + [];
      forall i | 0 <= i < |ms| ensures Fits(Versioned(ms[i]), max) {
        assert |Marshal(Versioned(ms[i]))| <= max;
      }
      hide Fits;
      StreamReadsBack(unmarshal, ms, [], max);
      results := ReadEach(r, |ms|, max, unmarshal);
    }
  }

  /** A frame cut off anywhere is never taken for a message. */
  lemma CutFrameFails(unmarshal: Bytes -> Option<Message>, m: Message, k: nat, max: Int64)
    requires Fits(m, max) && k < |Frame(Marshal(m))|
    ensures Decoded(unmarshal, Frame(Marshal(m))[..k], max) == (Err(ReadFailed), [])
  {
    hide Marshal, Header, HeaderValue;
    var body := Marshal(m);
    HeaderIsExact(|body|);
    MarshalIsBounded(m);
    if k >= 4 {
      assert Frame(body)[..k][..4] == Header(|body|);
    }
  }

  // ---------------------------------------------------------------------------
  // The frame limit
  // ---------------------------------------------------------------------------

  lemma {:induction false} TotalSplits(texts: Texts, i: nat)
    requires i <= TEXT
    ensures Total(texts, i) == Total(texts[TEXT := []], i) + |texts[TEXT]|
    decreases TEXT - i
  {
    if i < TEXT {
      TotalSplits(texts, i + 1);
    } else {
      TotalAfter(texts, texts[TEXT := []], i + 1);
    }
  }

  lemma {:induction false} TotalAfter(texts: Texts, others: Texts, i: nat)
    requires i <= 9 && forall k :: i <= k < 9 ==> texts[k] == others[k]
    ensures Total(texts, i) == Total(others, i)
    decreases 9 - i
  {
    if i < 9 {
      TotalAfter(texts, others, i + 1);
    }
  }

  /** A text of at most 2^20 bytes always fits the default frame, whatever its
      bytes are, with 128 KiB to spare for the other fields. */
  lemma LargestTextFits(m: Message)
    requires |m.texts[TEXT]| <= 0x10_0000
    requires |m.kind| + Total(m.texts[TEXT := []], 0) <= 0x2_0000
    ensures Fits(m, DEFAULT_MAX_FRAME)
  {
    hide Marshal, Total;
    MarshalIsBounded(m);
    TotalSplits(m.texts, 0);
  }

  /** Six times the text limit would not be enough. */
  lemma SixTimesIsTooSmall()
    ensures exists m: Message :: |m.texts[TEXT]| == 0x10_0000 && WellFormed(m) && |Marshal(m)| > 6 * 0x10_0000
  {
    var text: Bytes := seq(0x10_0000, _ => '\U{1}');
    var m := Message([], VERSION, NO_TEXTS[TEXT := text]);
    Json.EscapeBoundIsTight(0x10_0000);
    AsciiIsValid(text);
    TextIsWritten(m.texts, 0);
  }

  lemma {:induction false} TextIsWritten(texts: Texts, i: nat)
    requires i <= TEXT && texts[TEXT] != []
    ensures |Optional(texts, i)| > |Json.Escape(texts[TEXT])|
    decreases TEXT - i
  {
    if i < TEXT {
      TextIsWritten(texts, i + 1);
    }
  }
}
