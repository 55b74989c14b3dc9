// The comparison code of internal/pairing/store.go that two people read to each
// other while pairing.  A string stands for the program's byte string, one char
// per byte, so comparing chars is comparing bytes.
module Transcript {
  import opened Store
  import opened StoreRuns

  datatype Party = Party(id: string, fingerprint: string, nonce: string)

  /** A SHA-256 sum. */
  type Digest = d: seq<nat> | |d| == 32 && forall k :: 0 <= k < 32 ==> d[k] < 256
    witness seq(32, _ => 0)

  const NUL: char := '\0'

  const A_TO_F: seq<string> := [
    "amber", "apple", "atlas", "birch", "blue", "bravo", "cedar", "coral", "delta", "ember", "falcon", "fern"]

  const F_TO_M: seq<string> := [
    "fjord", "gold", "harbor", "hazel", "indigo", "jade", "kiwi", "lake", "lemon", "lunar", "maple", "mesa"]

  const N_TO_S: seq<string> := [
    "navy", "olive", "onyx", "pearl", "pine", "quartz", "river", "robin", "sage", "silver", "solar", "stone"]

  const T_TO_Z: seq<string> := [
    "tango", "terra", "tiger", "ultra", "violet", "willow", "winter", "xenon", "yellow", "zebra"]

  const WORDS: seq<string> := A_TO_F + F_TO_M + N_TO_S + T_TO_Z

  predicate Less(a: string, b: string) {
    b != [] && (a == [] || a[0] < b[0] || (a[0] == b[0] && Less(a[1..], b[1..])))
  }

  function Join(parts: seq<string>, separator: char): string {
    if parts == [] then []
    else if |parts| == 1 then parts[0]
    else parts[0] + [separator] + Join(parts[1..], separator)
  }

  function Fields(p: Party): seq<string> {
    [p.id, p.fingerprint, p.nonce]
  }

  function Joined(p: Party): string {
    Join(Fields(p), NUL)
  }

  /** The hashed text: the two parties' fields, the smaller half first. */
  function Hashed(local: Party, remote: Party): string {
    if Less(Joined(remote), Joined(local)) then Join(Fields(remote) + Fields(local), NUL)
    else Join(Fields(local) + Fields(remote), NUL)
  }

  function Word(byte: nat): string {
    WORDS[byte % |WORDS|]
  }

  function Spoken(d: Digest): string {
    Join(seq(6, i requires 0 <= i < 6 => Word(d[i])), ' ')
  }

  method ComparisonCode(sha: string -> Digest, local: Party, remote: Party) returns (code: string)
    ensures code == Spoken(sha(Hashed(local, remote)))
  {
    var a, b := Fields(local), Fields(remote);
    if Less(Join(b, NUL), Join(a, NUL)) {
      a, b := b, a;
    }
    var h := sha(Join(a + b, NUL));
    var out := new string[6];
    for i := 0 to 6
      invariant forall k :: 0 <= k < i ==> out[k] == Word(h[k])
    {
      out[i] := WORDS[h[i] % |WORDS|];
    }
    assert out[..] == seq(6, i requires 0 <= i < 6 => Word(h[i]));
    code := Join(out[..], ' ');
  }

  // ---------------------------------------------------------------------------
  // Joining
  // ---------------------------------------------------------------------------

  predicate Free(parts: seq<string>, separator: char) {
    forall k :: 0 <= k < |parts| ==> separator !in parts[k]
  }

  lemma {:induction false} JoinAppend(xs: seq<string>, ys: seq<string>, separator: char)
    requires xs != [] && ys != []
    ensures Join(xs + ys, separator) == Join(xs, separator) + [separator] + Join(ys, separator)
  {
    assert (xs + ys)[1..] == xs[1..] + ys;
    if |xs| > 1 {
      JoinAppend(xs[1..], ys, separator);
    }
  }

  /** Two texts cut at their first separator are equal only piece by piece. */
  lemma {:induction false} CutIsUnique(a: string, rest: string, b: string, other: string, separator: char)
    requires separator !in a && separator !in b
    requires a + [separator] + rest == b + [separator] + other
    ensures a == b && rest == other
  {
    var s := a + [separator] + rest;
    assert s[0] == if a == [] then separator else a[0];
    assert s[0] == if b == [] then separator else b[0];
    if a != [] && b != [] {
      assert a[1..] + [separator] + rest == s[1..] == b[1..] + [separator] + other;
      CutIsUnique(a[1..], rest, b[1..], other, separator);
      assert a == [a[0]] + a[1..] && b == [b[0]] + b[1..];
    } else {
      assert rest == s[1..] == other;
    }
  }

  /** Joining loses nothing as long as the parts hold no separator. */
  lemma {:induction false} JoinIsInjective(xs: seq<string>, ys: seq<string>, separator: char)
    requires |xs| == |ys| && Free(xs, separator) && Free(ys, separator)
    requires Join(xs, separator) == Join(ys, separator)
    ensures xs == ys
  {
    if |xs| > 1 {
      var x, y := Join(xs[1..], separator), Join(ys[1..], separator);
      assert xs[0] + [separator] + x == ys[0] + [separator] + y;
      CutIsUnique(xs[0], x, ys[0], y, separator);
      JoinIsInjective(xs[1..], ys[1..], separator);
      assert xs == [xs[0]] + xs[1..] && ys == [ys[0]] + ys[1..];
    }
  }

  // ---------------------------------------------------------------------------
  // The transcript
  // ---------------------------------------------------------------------------

  lemma {:induction false} LessIsTotalOrder(a: string, b: string)
    ensures Less(a, b) || Less(b, a) || a == b
    ensures !(Less(a, b) && Less(b, a))
  {
    if a != [] && b != [] && a[0] == b[0] {
      LessIsTotalOrder(a[1..], b[1..]);
      assert a == [a[0]] + a[1..] && b == [b[0]] + b[1..];
    }
  }

  /** The two strings agree up to `k`, and then `a` ends or has the smaller byte. */
  predicate FirstDifference(a: string, b: string, k: nat) {
    k <= |a| && k < |b| && a[..k] == b[..k] && (k == |a| || a[k] < b[k])
  }

  lemma DifferenceStart(a: string, b: string, k: nat)
    requires FirstDifference(a, b, k)
    ensures k > 0 ==> a != [] && a[0] == b[0]
  {
    if k > 0 {
      assert a[0] == a[..k][0] == b[..k][0];
    }
  }

  /** The order is the lexicographic one. */
  lemma {:induction false} LessIsLexicographic(a: string, b: string)
    ensures Less(a, b) <==> exists k :: FirstDifference(a, b, k)
  {
    if a != [] && b != [] && a[0] == b[0] {
      LessIsLexicographic(a[1..], b[1..]);
      if k: nat :| FirstDifference(a[1..], b[1..], k) {
        assert a[..k + 1] == [a[0]] + a[1..][..k] && b[..k + 1] == [b[0]] + b[1..][..k];
        assert FirstDifference(a, b, k + 1);
      }
      if k: nat :| FirstDifference(a, b, k) {
        assert k > 0;
        assert a[1..][..k - 1] == a[..k][1..] && b[1..][..k - 1] == b[..k][1..];
        assert FirstDifference(a[1..], b[1..], k - 1);
      }
    } else {
      if Less(a, b) {
        assert FirstDifference(a, b, 0);
      }
      if k: nat :| FirstDifference(a, b, k) {
        DifferenceStart(a, b, k);
      }
    }
  }

  function Half(p: Party): string {
    p.id + [NUL] + p.fingerprint + [NUL] + p.nonce
  }

  /** What is hashed: the halves of both parties with NULs between all fields, the
      lexicographically smaller half first. */
  lemma HashedLayout(p: Party, q: Party)
    ensures (exists k :: FirstDifference(Half(q), Half(p), k)) ==> Hashed(p, q) == Half(q) + [NUL] + Half(p)
    ensures !(exists k :: FirstDifference(Half(q), Half(p), k)) ==> Hashed(p, q) == Half(p) + [NUL] + Half(q)
  {
    HalfIsJoined(p);
    HalfIsJoined(q);
    JoinAppend(Fields(p), Fields(q), NUL);
    JoinAppend(Fields(q), Fields(p), NUL);
    LessIsLexicographic(Half(q), Half(p));
  }

  lemma JoinTwo(x: string, xs: seq<string>, separator: char)
    requires xs != []
    ensures Join([x] + xs, separator) == x + [separator] + Join(xs, separator)
  {
    assert ([x] + xs)[1..] == xs;
  }

  lemma HalfIsJoined(p: Party)
    ensures Half(p) == Joined(p)
  {
    JoinTwo(p.id, [p.fingerprint, p.nonce], NUL);
    JoinTwo(p.fingerprint, [p.nonce], NUL);
    assert Fields(p) == [p.id] + [p.fingerprint, p.nonce] && [p.fingerprint, p.nonce] == [p.fingerprint] + [p.nonce];
  }

  lemma HashedIsSymmetric(p: Party, q: Party)
    ensures Hashed(p, q) == Hashed(q, p)
  {
    LessIsTotalOrder(Joined(p), Joined(q));
    JoinAppend(Fields(p), Fields(q), NUL);
    JoinAppend(Fields(q), Fields(p), NUL);
  }

  /** For all strings, and also when the two halves join to the same text. */
  lemma CodeIsSymmetric(sha: string -> Digest, p: Party, q: Party)
    ensures Spoken(sha(Hashed(p, q))) == Spoken(sha(Hashed(q, p)))
  {
    HashedIsSymmetric(p, q);
  }

  predicate Clean(p: Party) {
    Free(Fields(p), NUL)
  }

  function Ordered(p: Party, q: Party): (Party, Party) {
    if Less(Joined(q), Joined(p)) then (q, p) else (p, q)
  }

  lemma CleanFieldsAreDetermined(p: Party, q: Party, r: Party, t: Party)
    requires Clean(p) && Clean(q) && Clean(r) && Clean(t)
    requires Join(Fields(p) + Fields(q), NUL) == Join(Fields(r) + Fields(t), NUL)
    ensures p == r && q == t
  {
    var xs, ys := Fields(p) + Fields(q), Fields(r) + Fields(t);
    JoinIsInjective(xs, ys, NUL);
    assert xs[0] == ys[0] && xs[1] == ys[1] && xs[2] == ys[2];
    assert xs[3] == ys[3] && xs[4] == ys[4] && xs[5] == ys[5];
  }

  /** For NUL-free fields the transcript is exactly the unordered pair of parties. */
  lemma TranscriptIsThePair(p: Party, q: Party, r: Party, t: Party)
    requires Clean(p) && Clean(q) && Clean(r) && Clean(t)
    ensures Hashed(p, q) == Hashed(r, t) <==> (p == r && q == t) || (p == t && q == r)
  {
    HashedIsSymmetric(p, q);
    if Hashed(p, q) == Hashed(r, t) {
      var first, second := Ordered(p, q), Ordered(r, t);
      CleanFieldsAreDetermined(first.0, first.1, second.0, second.1);
    }
  }

  /** The fields must be NUL-free: one that is not can trade bytes with its neighbour. */
  lemma NulBlursFields()
    ensures exists p: Party, q: Party, r: Party :: p != r && p != q && r != q && Hashed(p, q) == Hashed(r, q)
  {
    var p, r, q := Party("a\0b", "c", "d"), Party("a", "b\0c", "d"), Party("x", "y", "z");
    calc {
      Joined(p);
      "a\0b" + ['\0'] + ("c" + ['\0'] + "d");
      "a" + ['\0'] + ("b\0c" + ['\0'] + "d");
      Joined(r);
    }
    JoinAppend(Fields(p), Fields(q), NUL);
    JoinAppend(Fields(q), Fields(p), NUL);
    JoinAppend(Fields(r), Fields(q), NUL);
    JoinAppend(Fields(q), Fields(r), NUL);
    assert Hashed(p, q) == Hashed(r, q);
  }

  // ---------------------------------------------------------------------------
  // The spoken words
  // ---------------------------------------------------------------------------

  /** A word's first three letters as one number. */
  function Key(w: string): nat
    requires |w| >= 3
  {
    (w[0] as nat * 128 + w[1] as nat) * 128 + w[2] as nat
  }

  predicate Plain(w: string) {
    |w| >= 3 && ' ' !in w
  }

  /** The word is in alphabetical order with the next, by three letters alone. */
  predicate Ascends(words: seq<string>, i: nat)
    requires i < |words|
  {
    Plain(words[i]) && (i + 1 < |words| ==> Plain(words[i + 1]) && Key(words[i]) < Key(words[i + 1]))
  }

  lemma AscendAToF(i: nat)
    requires i < |A_TO_F|
    ensures Ascends(A_TO_F, i)
  {
    match i {
      case 0 => case 1 => case 2 => case 3 => case 4 => case 5 => case 6 => case 7 =>
      case 8 => case 9 => case 10 => case 11 =>
      case _ => assert false;
    }
  }

  lemma AscendFToM(i: nat)
    requires i < |F_TO_M|
    ensures Ascends(F_TO_M, i)
  {
    match i {
      case 0 => case 1 => case 2 => case 3 => case 4 => case 5 => case 6 => case 7 =>
      case 8 => case 9 => case 10 => case 11 =>
      case _ => assert false;
    }
  }

  lemma AscendNToS(i: nat)
    requires i < |N_TO_S|
    ensures Ascends(N_TO_S, i)
  {
    match i {
      case 0 => case 1 => case 2 => case 3 => case 4 => case 5 => case 6 => case 7 =>
      case 8 => case 9 => case 10 => case 11 =>
      case _ => assert false;
    }
  }

  lemma AscendTToZ(i: nat)
    requires i < |T_TO_Z|
    ensures Ascends(T_TO_Z, i)
  {
    match i {
      case 0 => case 1 => case 2 => case 3 => case 4 => case 5 => case 6 => case 7 =>
      case 8 => case 9 =>
      case _ => assert false;
    }
  }

  /** The rows follow one another. */
  lemma RowsAscend()
    ensures Plain(A_TO_F[11]) && Plain(F_TO_M[0]) && Key(A_TO_F[11]) < Key(F_TO_M[0])
    ensures Plain(F_TO_M[11]) && Plain(N_TO_S[0]) && Key(F_TO_M[11]) < Key(N_TO_S[0])
    ensures Plain(N_TO_S[11]) && Plain(T_TO_Z[0]) && Key(N_TO_S[11]) < Key(T_TO_Z[0])
  {
  }

  lemma WordsAscend(i: nat)
    requires i < 46
    ensures |WORDS| == 46 && Ascends(WORDS, i)
  {
    RowsAscend();
    if i < 12 {
      AscendAToF(i);
    } else if i < 24 {
      AscendFToM(i - 12);
    } else if i < 36 {
      AscendNToS(i - 24);
    } else {
      AscendTToZ(i - 36);
    }
  }

  lemma {:induction false} EarlierIsLess(i: nat, j: nat)
    requires i < j < 46
    ensures |WORDS| == 46 && Plain(WORDS[i]) && Plain(WORDS[j]) && Key(WORDS[i]) < Key(WORDS[j])
    decreases j
  {
    hide Key, Plain;
    WordsAscend(j - 1);
    if i < j - 1 {
      EarlierIsLess(i, j - 1);
    }
  }

  lemma WordsAreDistinct(i: nat, j: nat)
    requires i < 46 && j < 46
    ensures |WORDS| == 46 && ' ' !in WORDS[i]
    ensures WORDS[i] == WORDS[j] <==> i == j
  {
    WordsAscend(i);
    hide Key;
    if i < j {
      EarlierIsLess(i, j);
    } else if j < i {
      EarlierIsLess(j, i);
    }
  }

  /** Word k of the code is the one its k-th byte names, modulo 46. */
  lemma CodeByPosition(d: Digest)
    ensures |WORDS| == 46
    ensures Spoken(d) == WORDS[d[0] % 46] + " " + WORDS[d[1] % 46] + " " + WORDS[d[2] % 46] + " "
                         + WORDS[d[3] % 46] + " " + WORDS[d[4] % 46] + " " + WORDS[d[5] % 46]
  {
    var parts := seq(6, i requires 0 <= i < 6 => Word(d[i]));
    assert parts == [parts[0], parts[1], parts[2], parts[3], parts[4], parts[5]];
    JoinSix(parts[0], parts[1], parts[2], parts[3], parts[4], parts[5]);
  }

  lemma JoinSix(a: string, b: string, c: string, d: string, e: string, f: string)
    ensures Join([a, b, c, d, e, f], ' ') == a + " " + b + " " + c + " " + d + " " + e + " " + f
  {
    hide Join;
    JoinThree(a, b, c);
    JoinThree(d, e, f);
    JoinAppend([a, b, c], [d, e, f], ' ');
    assert [a, b, c] + [d, e, f] == [a, b, c, d, e, f];
  }

  lemma JoinThree(a: string, b: string, c: string)
    ensures Join([a, b, c], ' ') == a + " " + b + " " + c
  {
    JoinTwo(a, [b, c], ' ');
    JoinTwo(b, [c], ' ');
    assert [a, b, c] == [a] + [b, c] && [b, c] == [b] + [c];
  }

  /** Two codes read alike exactly when the first six bytes agree modulo 46: the code
      shows that much of the digest and no more. */
  lemma CodeShowsSixResidues(d: Digest, e: Digest)
    ensures Spoken(d) == Spoken(e) <==> forall i :: 0 <= i < 6 ==> d[i] % 46 == e[i] % 46
  {
    var xs := seq(6, i requires 0 <= i < 6 => Word(d[i]));
    var ys := seq(6, i requires 0 <= i < 6 => Word(e[i]));
    hide Join;
    WordsAreDistinct(0, 0);
    forall i | 0 <= i < 6
      ensures ' ' !in xs[i] && ' ' !in ys[i]
      ensures xs[i] == ys[i] <==> d[i] % 46 == e[i] % 46
    {
      WordsAreDistinct(d[i] % 46, e[i] % 46);
      WordsAreDistinct(e[i] % 46, d[i] % 46);
    }
    assert xs == ys <==> forall i :: 0 <= i < 6 ==> xs[i] == ys[i];
    if Spoken(d) == Spoken(e) {
      JoinIsInjective(xs, ys, ' ');
    }
  }

  // ---------------------------------------------------------------------------
  // A pairing session
  // ---------------------------------------------------------------------------

  /** What one end believes about the other after reading its message. */
  function Seen(o: Offer): Party {
    Party(o.id, o.fingerprint, o.nonce)
  }

  function Sent(kind: string, name: string, p: Party): Offer {
    Offer(kind, p.id, name, p.nonce, p.fingerprint)
  }

  /** handleIncomingPair computes its code from the certificate's fingerprint. */
  function AnsweringCode(sha: string -> Digest, self: Party, offer: Offer, c: Certificate): string {
    Spoken(sha(Hashed(self, Party(offer.id, c.fingerprint, offer.nonce))))
  }

  /** pair computes its code from the fingerprint the answer states. */
  function OfferingCode(sha: string -> Digest, self: Party, answer: Offer): string {
    Spoken(sha(Hashed(self, Seen(answer))))
  }

  /** When both ends accept and each got the message the other sent, they store
      the same code. */
  lemma BothEndsStoreTheSameCode(
    sha: string -> Digest, dialler: Party, listener: Party, diallerName: string, listenerName: string,
    cfgD: Config, cfgL: Config, validID: string -> bool, certD: Certificate, certL: Certificate,
    wanted: string, wantedPrefix: string)
    ensures
      var offer, answer := Sent("pair_offer", diallerName, dialler), Sent("pair_answer", listenerName, listener);
      var stored := IncomingPair(cfgL, validID, offer, certD, AnsweringCode(sha, listener, offer, certD));
      var kept := OutgoingPair(cfgD, validID, answer, certL, wanted, wantedPrefix, OfferingCode(sha, dialler, answer));
      stored.Ok? && kept.Ok? ==>
        && stored.value.code == kept.value.code == Spoken(sha(Hashed(dialler, listener)))
        && stored.value.id == dialler.id && stored.value.fingerprint == dialler.fingerprint
        && kept.value.id == listener.id && kept.value.fingerprint == listener.fingerprint
  {
    HashedIsSymmetric(dialler, listener);
  }

  /** Conversely, two ends that hash the same transcript saw each other right:
      each one's view of the other is what that other end is. */
  lemma SameTranscriptMeansSameView(dialler: Party, listener: Party, offer: Offer, answer: Offer)
    requires Clean(dialler) && Clean(listener) && Clean(Seen(offer)) && Clean(Seen(answer))
    requires dialler != listener
    requires Hashed(listener, Seen(offer)) == Hashed(dialler, Seen(answer))
    ensures Seen(offer) == dialler && Seen(answer) == listener
  {
    TranscriptIsThePair(listener, Seen(offer), dialler, Seen(answer));
  }
}
