// Echo conservation: what a daemon broadcasts is paid for by what its user
// copied and by the suppression entries it lost, for every content separately.
module Echo {
  import opened Suppression
  import opened Engine

  // ---------------------------------------------------------------------------
  // The contents of the suppression list as a multiset
  // ---------------------------------------------------------------------------

  lemma TextsConcat(a: seq<Entry<Text>>, b: seq<Entry<Text>>, t: Text)
    ensures Texts(a + b)[t] == Texts(a)[t] + Texts(b)[t]
  {
    assert Hashes(a + b) == Hashes(a) + Hashes(b);
  }

  lemma TextsOne(e: Entry<Text>, t: Text)
    ensures Texts([e])[t] == if e.hash == t then 1 else 0
  {
    assert Hashes([e]) == [e.hash];
  }

  lemma TextsNonEmpty(s: seq<Entry<Text>>)
    requires s != []
    ensures Texts(s)[s[0].hash] > 0
  {
    assert Hashes(s)[0] == s[0].hash;
    assert s[0].hash in Hashes(s);
  }

  lemma {:induction false} PruneShrinks(s: seq<Entry<Text>>, now: nat, t: Text)
    ensures Texts(Unexpired(s, now))[t] <= Texts(s)[t]
  {
    if s != [] {
      var older, last := s[..|s| - 1], s[|s| - 1];
      PruneShrinks(older, now, t);
      TextsConcat(older, [last], t);
      assert s == older + [last];
      TextsConcat(Unexpired(older, now), if now < last.expires then [last] else [], t);
    }
  }

  lemma TrimShrinks(s: seq<Entry<Text>>, t: Text)
    ensures Texts(Trimmed(s))[t] <= Texts(s)[t]
  {
    if |s| >= MAX_SUPPRESSION_ENTRIES {
      var k := |s| - (MAX_SUPPRESSION_ENTRIES - 1);
      TextsConcat(s[..k], s[k..], t);
      assert s == s[..k] + s[k..];
    }
  }

  lemma TextsAdded(s: seq<Entry<Text>>, now: nat, e: Entry<Text>, t: Text)
    ensures Texts(Added(s, now, e))[t] + Shed(s, now)[t] == Texts(s)[t] + if e.hash == t then 1 else 0
  {
    PruneShrinks(s, now, t);
    TrimShrinks(Unexpired(s, now), t);
    TextsConcat(Trimmed(Unexpired(s, now)), [e], t);
    TextsOne(e, t);
  }

  lemma TextsWithout(s: seq<Entry<Text>>, k: nat, t: Text)
    requires k < |s|
    ensures Texts(s)[t] == Texts(Without(s, k))[t] + if s[k].hash == t then 1 else 0
  {
    var h := Hashes(s);
    assert h == h[..k] + [h[k]] + h[k + 1..];
    assert Hashes(Without(s, k)) == h[..k] + h[k + 1..];
  }

  /** Consuming `x` removes one copy of it, or finds none left after pruning. */
  lemma TextsConsumed(s: seq<Entry<Text>>, x: Text, now: nat, t: Text)
    ensures Matches(s, x, now) ==>
      Texts(s)[t] == Texts(Consumed(s, x, now))[t] + Expiring(s, now)[t] + if x == t then 1 else 0
    ensures !Matches(s, x, now) ==>
      Texts(s)[t] == Texts(Consumed(s, x, now))[t] + Expiring(s, now)[t] && Texts(Consumed(s, x, now))[x] == 0
  {
    PruneShrinks(s, now, t);
    var live := Unexpired(s, now);
    var k := Oldest(live, x);
    if k < |live| {
      TextsWithout(live, k, t);
    } else {
      assert x !in Hashes(live);
    }
  }

  // ---------------------------------------------------------------------------
  // The invariant of one daemon
  // ---------------------------------------------------------------------------

  // Counted for one content `t` at a time.

  function One(x: Text, t: Text): nat {
    if x == t then 1 else 0
  }

  /** Events that localLoop has yet to judge. */
  function Held(watcher: seq<Text>, l: Local, t: Text): nat {
    multiset(watcher)[t] + if l.Handling? then One(l.text, t) else 0
  }

  /** The event that passed localLoop's tests and is about to go out. */
  function Judged(l: Local, t: Text): nat {
    if l.Passed? then One(l.text, t) else 0
  }

  /** Writes whose echo, or whose undoing, is still to come. */
  function Due(owed: multiset<Text>, w: Writer, t: Text): nat {
    owed[t] + match w
              case Writing(x, false) => One(x, t)
              case Failed(x) => One(x, t)
              case _ => 0
  }

  /** Every event and every suppression entry for `t` is accounted for exactly. */
  ghost predicate Conserved(n: Node, t: Text) {
    n.broadcast[t] + n.ignored[t] + n.missed[t]
    + Judged(n.local, t) + Held(n.watcher, n.local, t) + Due(n.owed, n.writer, t)
    == multiset(n.copied)[t] + n.lost[t] + Texts(n.entries)[t]
  }

  /** A live suppression entry always has an event or a write still to meet it. */
  ghost predicate Covered(n: Node, t: Text) {
    Texts(n.entries)[t] <= Held(n.watcher, n.local, t) + Due(n.owed, n.writer, t)
  }

  /** Only valid texts get past the reader, so only they are ever suppressed. */
  ghost predicate Screened(n: Node, t: Text) {
    !ValidText(t, n.limit) ==> t !in n.inbox && n.writer != Taken(t) && Texts(n.entries)[t] == 0
  }

  ghost predicate Balanced(n: Node, t: Text) {
    Conserved(n, t) && Covered(n, t) && Screened(n, t)
  }

  lemma HeldGrows(watcher: seq<Text>, l: Local, x: Text, t: Text)
    ensures Held(watcher + [x], l, t) == Held(watcher, l, t) + One(x, t)
  {
  }

  lemma HeldTaken(watcher: seq<Text>, t: Text)
    requires watcher != []
    ensures Held(watcher[1..], Handling(watcher[0]), t) == Held(watcher, LocalIdle, t)
  {
    assert watcher == [watcher[0]] + watcher[1..];
  }

  lemma CopiedGrows(copied: seq<Text>, x: Text, t: Text)
    ensures multiset(copied + [x])[t] == multiset(copied)[t] + One(x, t)
  {
  }

  // Each step keeps the three parts.

  lemma CopyBalances(n: Node, now: nat, x: Text, t: Text)
    requires Balanced(n, t)
    ensures Balanced(NodeNext(n, now, UserCopy(x)), t)
  {
    hide Texts, ValidText, Held, Judged, Due, One;
    HeldGrows(n.watcher, n.local, x, t);
    CopiedGrows(n.copied, x, t);
  }

  lemma TakeBalances(n: Node, now: nat, t: Text)
    requires Balanced(n, t) && NodeEnabled(n, now, TakeEvent)
    ensures Balanced(NodeNext(n, now, TakeEvent), t)
  {
    hide Texts, ValidText, Held, Due, One;
    HeldTaken(n.watcher, t);
  }

  /** What consuming does to the books: an entry is met, lost or still there. */
  lemma ConsumeBooks(entries: seq<Entry<Text>>, lost: multiset<Text>, x: Text, now: nat, t: Text)
    ensures (lost + Expiring(entries, now))[t] + Texts(Consumed(entries, x, now))[t]
         + (if Matches(entries, x, now) then One(x, t) else 0)
         == lost[t] + Texts(entries)[t]
    ensures Texts(Consumed(entries, x, now))[t] <= Texts(entries)[t]
    ensures t == x ==>
      Texts(Consumed(entries, x, now))[t] == 0 || Texts(Consumed(entries, x, now))[t] < Texts(entries)[t]
  {
    TextsConsumed(entries, x, now, t);
    hide Texts, Expiring, Consumed, Matches;
  }

  /** Screening moves the event on or meets it with an entry. */
  lemma ScreenBooks(n: Node, now: nat, t: Text)
    requires n.local.Handling?
    ensures var r := ScreenNext(n, now);
      r.ignored[t] + Judged(r.local, t) + n.lost[t] + Texts(n.entries)[t]
      == n.ignored[t] + r.lost[t] + Texts(r.entries)[t] + One(n.local.text, t)
  {
    ConsumeBooks(n.entries, n.lost, n.local.text, now, t);
    hide Texts, Expiring, Consumed, Matches, ValidText;
  }

  lemma ScreenConserves(n: Node, now: nat, t: Text)
    requires Conserved(n, t) && n.local.Handling?
    ensures Conserved(ScreenNext(n, now), t)
  {
    ScreenBooks(n, now, t);
    hide Texts, Expiring, Consumed, Matches, ValidText, Due, One;
  }

  /** An event that no entry meets leaves no entry behind; one too large met none. */
  lemma ScreenEntries(n: Node, now: nat, t: Text)
    requires n.local.Handling? && Screened(n, t)
    ensures var r := ScreenNext(n, now);
      && Texts(r.entries)[t] <= Texts(n.entries)[t]
      && (t == n.local.text ==> Texts(r.entries)[t] == 0 || Texts(r.entries)[t] < Texts(n.entries)[t])
  {
    ConsumeBooks(n.entries, n.lost, n.local.text, now, t);
    hide Texts, Expiring, Consumed, Matches, ValidText;
  }

  lemma ScreenCovers(n: Node, now: nat, t: Text)
    requires Covered(n, t) && Screened(n, t) && n.local.Handling?
    ensures Covered(ScreenNext(n, now), t) && Screened(ScreenNext(n, now), t)
  {
    ScreenEntries(n, now, t);
    hide Texts, Expiring, Consumed, Matches, ValidText, Due;
  }

  lemma DispatchBalances(n: Node, now: nat, idOk: bool, targets: seq<nat>, t: Text)
    requires Balanced(n, t) && NodeEnabled(n, now, Dispatch(idOk, targets))
    ensures Balanced(NodeNext(n, now, Dispatch(idOk, targets)), t)
  {
    hide Texts, ValidText, Due;
  }

  lemma AddBalances(n: Node, now: nat, addAt: nat, t: Text)
    requires Balanced(n, t) && n.writer.Taken?
    ensures Balanced(AddNext(n, now, addAt), t)
  {
    hide Texts, Shed, Added, ValidText, Held, Judged;
    TextsAdded(n.entries, now, Entry("", n.writer.text, addAt + SUPPRESSION_TTL), t);
  }

  /** Taking back an entry, or finding that it has met an event already. */
  lemma UndoBooks(n: Node, now: nat, t: Text)
    requires n.writer.Failed?
    ensures var r := UndoNext(n, now);
      && r.missed[t] + n.lost[t] + Texts(n.entries)[t]
         == n.missed[t] + r.lost[t] + Texts(r.entries)[t] + One(n.writer.text, t)
      && Texts(r.entries)[t] <= Texts(n.entries)[t]
      && (t == n.writer.text ==> Texts(r.entries)[t] == 0 || Texts(r.entries)[t] < Texts(n.entries)[t])
  {
    ConsumeBooks(n.entries, n.lost, n.writer.text, now, t);
    hide Texts, Expiring, Consumed, Matches;
  }

  lemma UndoBalances(n: Node, now: nat, t: Text)
    requires Balanced(n, t) && n.writer.Failed?
    ensures Balanced(UndoNext(n, now), t)
  {
    UndoBooks(n, now, t);
    hide Texts, Expiring, Consumed, Matches, ValidText, Held, Judged;
  }

  lemma EarlyBalances(n: Node, now: nat, t: Text)
    requires Balanced(n, t) && NodeEnabled(n, now, EchoEarly)
    ensures Balanced(NodeNext(n, now, EchoEarly), t)
  {
    hide Texts, ValidText, Held, Judged, One;
    HeldGrows(n.watcher, n.local, n.writer.text, t);
  }

  lemma LateBalances(n: Node, now: nat, x: Text, t: Text)
    requires Balanced(n, t) && NodeEnabled(n, now, EchoLate(x))
    ensures Balanced(NodeNext(n, now, EchoLate(x)), t)
  {
    HeldGrows(n.watcher, n.local, x, t);
    assert Due(n.owed - multiset{x}, n.writer, t) + One(x, t) == Due(n.owed, n.writer, t);
    hide Texts, ValidText, Held, Judged, Due, One;
  }

  lemma InboxTakeBalances(n: Node, now: nat, t: Text)
    requires Balanced(n, t) && NodeEnabled(n, now, TakeInbox)
    ensures Balanced(NodeNext(n, now, TakeInbox), t)
  {
    hide Texts, ValidText, Held, Judged;
    assert n.inbox[0] in n.inbox && forall x :: x in n.inbox[1..] ==> x in n.inbox;
  }

  lemma WriteBalances(n: Node, now: nat, step: NodeStep, t: Text)
    requires Balanced(n, t) && NodeEnabled(n, now, step)
    requires step.WriteOk? || step.WriteFails?
    ensures Balanced(NodeNext(n, now, step), t)
  {
    hide Texts, ValidText, Held, Judged;
  }

  lemma NodeBalances(n: Node, now: nat, step: NodeStep, t: Text)
    requires Balanced(n, t) && NodeEnabled(n, now, step)
    ensures Balanced(NodeNext(n, now, step), t)
  {
    match step
    case Screen =>
      ScreenConserves(n, now, t);
      ScreenCovers(n, now, t);
    case Dispatch(idOk, targets) => DispatchBalances(n, now, idOk, targets, t);
    case AddEntry(addAt) => AddBalances(n, now, addAt, t);
    case UndoEntry => UndoBalances(n, now, t);
    case TakeInbox => InboxTakeBalances(n, now, t);
    case WriteOk => WriteBalances(n, now, step, t);
    case WriteFails => WriteBalances(n, now, step, t);
    case TakeEvent => TakeBalances(n, now, t);
    case UserCopy(x) => CopyBalances(n, now, x, t);
    case EchoEarly => EarlyBalances(n, now, t);
    case EchoLate(x) => LateBalances(n, now, x, t);
  }

  // ---------------------------------------------------------------------------
  // Every daemon, every run
  // ---------------------------------------------------------------------------

  /** A reader only holds texts its daemon accepts. */
  ghost predicate ReaderScreened(s: State, k: nat)
    requires k < |s.conns|
  {
    s.conns[k].reader.Enqueuing? && s.conns[k].dst < |s.nodes| ==>
      ValidText(s.conns[k].reader.text, s.nodes[s.conns[k].dst].limit)
  }

  ghost predicate Sound(s: State, t: Text) {
    && WellFormed(s)
    && (forall i :: 0 <= i < |s.nodes| ==> Balanced(s.nodes[i], t))
    && (forall k :: 0 <= k < |s.conns| ==> ReaderScreened(s, k))
  }

  lemma InboxBalances(n: Node, inbox: seq<Text>, t: Text)
    requires Balanced(n, t)
    requires inbox == n.inbox || forall p :: 0 <= p < |inbox| ==> ValidText(inbox[p], n.limit)
    ensures Balanced(n.(inbox := inbox), t)
  {
  }

  lemma LocalBalances(n: Node, l: Local, t: Text)
    requires Balanced(n, t) && n.local.Sending? && !l.Handling? && !l.Passed?
    ensures Balanced(n.(local := l), t)
  {
  }

  lemma StepBalances(s: State, step: Step, i: nat, t: Text)
    requires Sound(s, t) && Enabled(s, step) && i < |s.nodes|
    ensures Balanced(Next(s, step).nodes[i], t)
  {
    hide Conserved, Covered, Screened;
    var n, r := s.nodes[i], Next(s, step).nodes[i];
    match step
    case AtNode(j, ns) => if i == j { NodeBalances(n, s.now, ns, t); }
    case Send(j) =>
      assert Next(s, step) == SendNext(s, j);
      if i == j { LocalBalances(n, r.local, t); }
    case GiveUp(j) => if i == j { LocalBalances(n, r.local, t); }
    case Enqueue(k) =>
      assert Next(s, step) == EnqueueNext(s, k) && ReaderScreened(s, k);
      if i == s.conns[k].dst { InboxBalances(n, r.inbox, t); }
    case _ =>
  }

  lemma ReadersStayScreened(s: State, step: Step, k: nat)
    requires WellFormed(s) && Enabled(s, step) && k < |Next(s, step).conns|
    requires forall m :: 0 <= m < |s.conns| ==> ReaderScreened(s, m)
    ensures ReaderScreened(Next(s, step), k)
  {
    assert k < |s.conns| ==> ReaderScreened(s, k);
    ShapeIsKept(s, step);
    if k < |s.conns| { LimitsAreKept(s, step, s.conns[k].dst); }
    match step
    case Send(j) => assert Next(s, step) == SendNext(s, j);
    case Enqueue(m) => assert Next(s, step) == EnqueueNext(s, m);
    case _ =>
  }

  lemma StepKeepsSound(s: State, step: Step, t: Text)
    requires Sound(s, t) && Enabled(s, step)
    ensures Sound(Next(s, step), t)
  {
    StaysWellFormed(s, step);
    ShapeIsKept(s, step);
    forall i | 0 <= i < |s.nodes| ensures Balanced(Next(s, step).nodes[i], t) {
      StepBalances(s, step, i, t);
    }
    forall k | 0 <= k < |Next(s, step).conns| ensures ReaderScreened(Next(s, step), k) {
      ReadersStayScreened(s, step, k);
    }
  }

  /** The books of every daemon balance in every state of every run. */
  lemma {:induction false} RunsStaySound(states: seq<State>, steps: seq<Step>, j: nat, t: Text)
    requires Run(states, steps) && j < |states|
    ensures Sound(states[j], t)
  {
    if j > 0 {
      var p := j - 1;
      RunsStaySound(states, steps, p, t);
      assert Took(states[p], steps[p], states[p + 1]);
      hide Sound, Enabled, WellFormed, Next;
      StepKeepsSound(states[p], steps[p], t);
    }
  }

  /** No echo goes round for free: in every run, at every daemon and for every
      content, broadcasts never exceed user copies plus lost suppression entries. */
  lemma EchoBound(states: seq<State>, steps: seq<Step>, j: nat, i: nat)
    requires Run(states, steps) && j < |states| && i < |states[j].nodes|
    ensures var n := states[j].nodes[i];
      && n.broadcast + n.ignored + n.missed <= multiset(n.copied) + n.lost
      && |n.broadcast| <= |n.copied| + |n.lost|
  {
    var n := states[j].nodes[i];
    forall t: Text ensures (n.broadcast + n.ignored + n.missed)[t] <= (multiset(n.copied) + n.lost)[t] {
      RunsStaySound(states, steps, j, t);
    }
    var all, paid := n.broadcast + n.ignored + n.missed, multiset(n.copied) + n.lost;
    assert paid == all + (paid - all);
    assert |paid| == |all| + |paid - all| && |all| == |n.broadcast + n.ignored| + |n.missed|;
  }

  /** No event is waiting and no write is in progress or still to be reported. */
  ghost predicate AtRest(n: Node) {
    n.watcher == [] && !n.local.Handling? && !n.local.Passed? && n.writer.WriterIdle? && n.owed == multiset{}
  }

  /** Intentional repeats still go out: once a daemon is at rest each copy was
      broadcast once, except the ones it had to ignore; what it lost was sent
      again, and what a failed write could not take back was swallowed. */
  lemma EveryCopyGoesOut(states: seq<State>, steps: seq<Step>, j: nat, i: nat)
    requires Run(states, steps) && j < |states| && i < |states[j].nodes|
    requires AtRest(states[j].nodes[i])
    ensures var n := states[j].nodes[i];
      && n.entries == []
      && n.broadcast + n.ignored + n.missed == multiset(n.copied) + n.lost
  {
    var n := states[j].nodes[i];
    forall t: Text
      ensures (n.broadcast + n.ignored + n.missed)[t] == (multiset(n.copied) + n.lost)[t]
      ensures Texts(n.entries)[t] == 0
    {
      RunsStaySound(states, steps, j, t);
    }
    if n.entries != [] {
      TextsNonEmpty(n.entries);
    }
  }
}
