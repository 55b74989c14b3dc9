// When a suppression entry may be lost.  The engine's steps at one daemon are a
// trace of uses of its suppressor; what the trace says of every add, with the
// time of the step that made it, bounds what the daemon can broadcast.
module EchoTime {
  import opened Suppression
  import opened Channel
  import opened Engine
  import opened Echo

  /** One remote write: its content and when its entry was added. */
  datatype Add = Add(text: Text, at: nat)

  // ---------------------------------------------------------------------------
  // The uses of one daemon's suppressor, read off the steps of a run
  // ---------------------------------------------------------------------------

  /** Entries last five seconds from the step that adds them. */
  function UseOf(s: State, step: Step, i: nat): seq<Use<Text>> {
    if !step.AtNode? || step.i != i || i >= |s.nodes| then []
    else
      var n := s.nodes[i];
      match step.step
      case AddEntry(at) =>
        if n.writer.Taken? then [Put(s.now, Entry("", n.writer.text, at + 5_000_000_000))] else []
      case UndoEntry => if n.writer.Failed? then [Take(n.writer.text, s.now)] else []
      case Screen =>
        if n.local.Handling? && 1 <= |n.local.text| <= n.limit then [Take(n.local.text, s.now)] else []
      case _ => []
  }

  function AddOf(s: State, step: Step, i: nat): seq<Add> {
    if step.AtNode? && step.i == i && i < |s.nodes| && step.step.AddEntry? && s.nodes[i].writer.Taken? then
      [Add(s.nodes[i].writer.text, step.step.addAt)]
    else []
  }

  function Uses(states: seq<State>, steps: seq<Step>, i: nat, j: nat): seq<Use<Text>>
    requires j <= |steps| < |states|
  {
    if j == 0 then [] else Uses(states, steps, i, j - 1) + UseOf(states[j - 1], steps[j - 1], i)
  }

  function Adds(states: seq<State>, steps: seq<Step>, i: nat, j: nat): seq<Add>
    requires j <= |steps| < |states|
  {
    if j == 0 then [] else Adds(states, steps, i, j - 1) + AddOf(states[j - 1], steps[j - 1], i)
  }

  /** Every add so far with what became of it. */
  ghost function History(states: seq<State>, steps: seq<Step>, i: nat, j: nat): Ledger<Text>
    requires j <= |steps| < |states|
  {
    Recorded(Uses(states, steps, i, j))
  }

  // ---------------------------------------------------------------------------
  // What one step does
  // ---------------------------------------------------------------------------

  function Put1(uses: seq<Use<Text>>, t: Text): nat {
    if |uses| == 1 && uses[0].Put? then One(uses[0].entry.hash, t) else 0
  }

  function Hit1(entries: seq<Entry<Text>>, uses: seq<Use<Text>>, t: Text): nat {
    if |uses| == 1 && uses[0].Take? && Matches(entries, uses[0].hash, uses[0].at) then One(uses[0].hash, t) else 0
  }

  function Used(entries: seq<Entry<Text>>, uses: seq<Use<Text>>): seq<Entry<Text>> {
    if |uses| != 1 then entries
    else if uses[0].Put? then Added(entries, uses[0].pruneAt, uses[0].entry)
    else Consumed(entries, uses[0].hash, uses[0].at)
  }

  ghost function Noted(l: Ledger<Text>, uses: seq<Use<Text>>): Ledger<Text> {
    if |uses| != 1 then l
    else if uses[0].Put? then LedgerAdd(l, uses[0].pruneAt, uses[0].entry)
    else LedgerConsume(l, uses[0].hash, uses[0].at)
  }

  /** A daemon's list and what it has lost, before and after a use. */
  ghost predicate UseBooks(n: Node, r: Node, uses: seq<Use<Text>>, t: Text) {
    && r.entries == Used(n.entries, uses)
    && r.lost[t] + Texts(r.entries)[t] + Hit1(n.entries, uses, t) == n.lost[t] + Texts(n.entries)[t] + Put1(uses, t)
  }

  lemma AddUses(s: State, i: nat, at: nat, t: Text)
    requires i < |s.nodes| && NodeEnabled(s.nodes[i], s.now, AddEntry(at))
    ensures UseBooks(s.nodes[i], AddNext(s.nodes[i], s.now, at), UseOf(s, AtNode(i, AddEntry(at)), i), t)
  {
    var n := s.nodes[i];
    TextsAdded(n.entries, s.now, Entry("", n.writer.text, at + 5_000_000_000), t);
    hide Texts, Shed, Added;
  }

  lemma TakeUses(n: Node, r: Node, x: Text, now: nat, t: Text)
    requires r.entries == Consumed(n.entries, x, now) && r.lost == n.lost + Expiring(n.entries, now)
    ensures UseBooks(n, r, [Take(x, now)], t)
  {
    ConsumeBooks(n.entries, n.lost, x, now, t);
    hide Texts, Expiring, Consumed, Matches;
  }

  lemma UndoUses(s: State, i: nat, t: Text)
    requires i < |s.nodes| && s.nodes[i].writer.Failed?
    ensures UseBooks(s.nodes[i], UndoNext(s.nodes[i], s.now), UseOf(s, AtNode(i, UndoEntry), i), t)
  {
    var n := s.nodes[i];
    hide Expiring, Consumed, Matches, UseBooks;
    TakeUses(n, UndoNext(n, s.now), n.writer.text, s.now, t);
  }

  lemma ScreenUses(s: State, i: nat, t: Text)
    requires i < |s.nodes| && s.nodes[i].local.Handling?
    ensures UseBooks(s.nodes[i], ScreenNext(s.nodes[i], s.now), UseOf(s, AtNode(i, Screen), i), t)
  {
    var n := s.nodes[i];
    hide Expiring, Consumed, Matches, Texts;
    if 1 <= |n.local.text| <= n.limit {
      hide UseBooks;
      TakeUses(n, ScreenNext(n, s.now), n.local.text, s.now, t);
    } else {
      assert UseOf(s, AtNode(i, Screen), i) == [];
    }
  }

  lemma NodeUses(s: State, i: nat, ns: NodeStep, t: Text)
    requires i < |s.nodes| && NodeEnabled(s.nodes[i], s.now, ns)
    ensures UseBooks(s.nodes[i], NodeNext(s.nodes[i], s.now, ns), UseOf(s, AtNode(i, ns), i), t)
  {
    match ns
    case AddEntry(at) => hide UseBooks, UseOf; AddUses(s, i, at, t);
    case UndoEntry => hide UseBooks, UseOf; UndoUses(s, i, t);
    case Screen => hide UseBooks, UseOf; ScreenUses(s, i, t);
    case _ => hide Texts;
  }

  lemma StepUses(s: State, step: Step, i: nat, t: Text)
    requires WellFormed(s) && Enabled(s, step) && i < |s.nodes|
    ensures |Next(s, step).nodes| == |s.nodes|
    ensures UseBooks(s.nodes[i], Next(s, step).nodes[i], UseOf(s, step, i), t)
  {
    ShapeIsKept(s, step);
    match step
    case AtNode(j, ns) =>
      if i == j {
        hide UseBooks, UseOf, NodeNext;
        NodeUses(s, i, ns, t);
      }
    case Send(j) => assert Next(s, step) == SendNext(s, j);
    case Enqueue(k) => assert Next(s, step) == EnqueueNext(s, k);
    case _ =>
  }

  lemma UseTime(s: State, step: Step, i: nat)
    requires WellFormed(s) && Enabled(s, step)
    ensures s.now <= Next(s, step).now && |UseOf(s, step, i)| <= 1
    ensures UseOf(s, step, i) != [] ==> When(UseOf(s, step, i)[0]) == s.now
  {
    match step
    case Send(j) => assert Next(s, step) == SendNext(s, j);
    case Enqueue(k) => assert Next(s, step) == EnqueueNext(s, k);
    case _ =>
  }

  // ---------------------------------------------------------------------------
  // What a whole run does
  // ---------------------------------------------------------------------------

  lemma AppendUse(uses: seq<Use<Text>>, more: seq<Use<Text>>, t: Text)
    requires |more| <= 1
    ensures Listed(uses + more) == Used(Listed(uses), more)
    ensures Puts(uses + more, t) == Puts(uses, t) + Put1(more, t)
    ensures Hits(uses + more, t) == Hits(uses, t) + Hit1(Listed(uses), more, t)
    ensures Recorded(uses + more) == Noted(Recorded(uses), more)
  {
    hide Added, Consumed, LedgerAdd, LedgerConsume, Matches;
    if more == [] {
      assert uses + more == uses;
    } else {
      assert (uses + more)[..|uses|] == uses && (uses + more)[|uses|] == more[0];
    }
  }

  ghost predicate Traced(n: Node, uses: seq<Use<Text>>, t: Text) {
    && n.entries == Listed(uses)
    && n.lost[t] + Texts(n.entries)[t] + Hits(uses, t) == Puts(uses, t)
  }

  lemma TraceGrows(n: Node, r: Node, uses: seq<Use<Text>>, more: seq<Use<Text>>, t: Text)
    requires Traced(n, uses, t) && |more| <= 1 && UseBooks(n, r, more, t)
    ensures Traced(r, uses + more, t)
  {
    hide Listed, Hits, Puts, Hit1, Put1, Used, Texts;
    AppendUse(uses, more, t);
  }

  lemma StepTraces(s: State, step: Step, r: State, i: nat, uses: seq<Use<Text>>, t: Text)
    requires Took(s, step, r) && i < |s.nodes| == |r.nodes| && Traced(s.nodes[i], uses, t)
    ensures Traced(r.nodes[i], uses + UseOf(s, step, i), t)
  {
    hide Enabled, WellFormed, UseOf, UseBooks, Next, Traced;
    UseTime(s, step, i);
    StepUses(s, step, i, t);
    TraceGrows(s.nodes[i], r.nodes[i], uses, UseOf(s, step, i), t);
  }

  lemma {:induction false} RunsAreTraces(states: seq<State>, steps: seq<Step>, i: nat, j: nat, t: Text)
    requires Run(states, steps) && j < |states| && i < |states[j].nodes|
    ensures Traced(states[j].nodes[i], Uses(states, steps, i, j), t)
  {
    hide Traced;
    if j == 0 {
      StartsTraced(states[0], i, t);
    } else {
      var k := j - 1;
      assert Took(states[k], steps[k], states[j]);
      assert |states[k].nodes| == |states[j].nodes| by { ShapeIsKept(states[k], steps[k]); }
      RunsAreTraces(states, steps, i, k, t);
      hide Took, Init, UseOf, Run;
      StepTraces(states[k], steps[k], states[j], i, Uses(states, steps, i, k), t);
    }
  }

  lemma StartsTraced(s: State, i: nat, t: Text)
    requires Init(s) && i < |s.nodes|
    ensures Traced(s.nodes[i], [], t)
  {
    assert FreshNode(s.nodes[i]);
  }

  lemma {:induction false} TracesAreInTime(states: seq<State>, steps: seq<Step>, i: nat, j: nat)
    requires Run(states, steps) && j < |states|
    ensures InTime(Uses(states, steps, i, j)) && Clock(Uses(states, steps, i, j)) <= states[j].now
    decreases j
  {
    if j > 0 {
      var k := j - 1;
      assert Took(states[k], steps[k], states[j]) && |states| == |steps| + 1;
      TracesAreInTime(states, steps, i, k);
      hide Run, Init, Enabled, WellFormed, UseOf, Next, InTime, Clock, When;
      UseTime(states[k], steps[k], i);
      InTimeAppend(Uses(states, steps, i, k), UseOf(states[k], steps[k], i), states[k].now);
    }
  }

  lemma InTimeAppend(uses: seq<Use<Text>>, more: seq<Use<Text>>, now: nat)
    requires InTime(uses) && Clock(uses) <= now && |more| <= 1 && (more != [] ==> When(more[0]) == now)
    ensures InTime(uses + more) && Clock(uses + more) <= now
  {
    if uses == [] {
      assert uses + more == more;
    } else {
      assert forall p :: 0 <= p < |uses| ==> When(uses[p]) <= When(uses[|uses| - 1]);
    }
  }

  /** Records and adds correspond one to one; a record carries its add's content and
      a date five seconds after the step that made it. */
  ghost predicate Dated5(l: Ledger<Text>, adds: seq<Add>) {
    && |l| == |adds|
    && forall m :: 0 <= m < |l| ==>
         l[m].entry.hash == adds[m].text && l[m].entry.expires == adds[m].at + 5_000_000_000
  }

  lemma UseKeepsDates(l: Ledger<Text>, adds: seq<Add>, s: State, step: Step, i: nat)
    requires Dated5(l, adds)
    ensures var more := UseOf(s, step, i);
      |more| <= 1 && Dated5(Noted(l, more), adds + AddOf(s, step, i))
  {
    var more := UseOf(s, step, i);
    if more != [] {
      var u := more[0];
      if u.Put? {
        forall m | 0 <= m < |l| ensures LedgerAdd(l, u.pruneAt, u.entry)[m].entry == l[m].entry {
          AddFates(l, u.pruneAt, u.entry, m);
        }
        AddLast(l, u.pruneAt, u.entry);
      } else {
        forall m | 0 <= m < |l| ensures LedgerConsume(l, u.hash, u.at)[m].entry == l[m].entry {
          TakeFates(l, u.hash, u.at, m);
        }
        assert |LedgerConsume(l, u.hash, u.at)| == |l|;
      }
    }
    hide LedgerAdd, LedgerConsume;
    assert adds + [] == adds;
  }

  lemma AddLast(l: Ledger<Text>, at: nat, e: Entry<Text>)
    ensures var r := LedgerAdd(l, at, e); |r| == |l| + 1 && r[|l|] == Record(e, Live)
  {
  }

  lemma HistoryGrows(states: seq<State>, steps: seq<Step>, i: nat, j: nat)
    requires j < |steps| < |states|
    ensures |UseOf(states[j], steps[j], i)| <= 1
    ensures History(states, steps, i, j + 1) == Noted(History(states, steps, i, j), UseOf(states[j], steps[j], i))
    ensures Adds(states, steps, i, j + 1) == Adds(states, steps, i, j) + AddOf(states[j], steps[j], i)
  {
    assert |UseOf(states[j], steps[j], i)| <= 1;
    hide UseOf, AddOf, Noted, Recorded;
    AppendUse(Uses(states, steps, i, j), UseOf(states[j], steps[j], i), []);
  }

  lemma {:induction false} HistoryIsDated(states: seq<State>, steps: seq<Step>, i: nat, j: nat)
    requires j <= |steps| < |states|
    ensures Dated5(History(states, steps, i, j), Adds(states, steps, i, j))
    decreases j
  {
    if j > 0 {
      hide *;
      var k := j - 1;
      HistoryIsDated(states, steps, i, k);
      HistoryGrows(states, steps, i, k);
      UseKeepsDates(History(states, steps, i, k), Adds(states, steps, i, k), states[k], steps[k], i);
    }
  }

  // ---------------------------------------------------------------------------
  // Losses are timely
  // ---------------------------------------------------------------------------

  lemma {:induction false} CountsAgree(s: seq<Entry<Text>>, t: Text)
    ensures CountEntries(s, t) == Texts(s)[t]
  {
    if s != [] {
      var older, last := s[..|s| - 1], s[|s| - 1];
      CountsAgree(older, t);
      assert s == older + [last];
      TextsConcat(older, [last], t);
      TextsOne(last, t);
    }
  }

  /** What the daemon has lost of a content is what its history says expired or was
      pushed out; what it lists is what its history says is live. */
  lemma LostIsLapsed(states: seq<State>, steps: seq<Step>, i: nat, j: nat, t: Text)
    requires Run(states, steps) && j < |states| && i < |states[j].nodes|
    ensures var n, l := states[j].nodes[i], History(states, steps, i, j);
      && n.entries == LiveEntries(l)
      && n.lost[t] == CountFate(l, t, Expired) + CountFate(l, t, Evicted)
      && Justified(l, states[j].now)
  {
    var uses := Uses(states, steps, i, j);
    RunsAreTraces(states, steps, i, j, t);
    TracesAreInTime(states, steps, i, j);
    TraceRefines(uses);
    EveryAddIsAccountedFor(uses, t);
    CountsAgree(Listed(uses), t);
    hide Listed, LiveEntries, Recorded, Hits, Puts, CountFate, CountEntries, Texts, Uses, Run, InTime, Clock;
  }

  /** How many of the first adds, of `total`, are of this content and may be lost at
      `now`: five seconds old, or followed by 256 more. */
  function Lapsed(adds: seq<Add>, t: Text, now: nat, total: nat): nat {
    if adds == [] then 0
    else
      var m := |adds| - 1;
      Lapsed(adds[..m], t, now, total)
      + if adds[m].text == t && (adds[m].at + 5_000_000_000 <= now || m + 256 < total) then 1 else 0
  }

  lemma {:induction false} LapsedCounts(l: Ledger<Text>, adds: seq<Add>, t: Text, now: nat, total: nat)
    requires Dated5(l, adds)
    requires forall m :: 0 <= m < |l| ==>
      && (l[m].fate == Expired ==> l[m].entry.expires <= now)
      && (l[m].fate == Evicted ==> m + 256 < total)
    ensures CountFate(l, t, Expired) + CountFate(l, t, Evicted) <= Lapsed(adds, t, now, total)
  {
    if l != [] {
      var m := |l| - 1;
      LapsedCounts(l[..m], adds[..m], t, now, total);
    }
  }

  /** In every run, at every daemon and for every content, the broadcasts exceed the
      user copies by no more than the remote writes of that content that are five
      seconds old or were followed by 256 more. */
  lemma EchoBoundInTime(states: seq<State>, steps: seq<Step>, i: nat, j: nat, t: Text)
    requires Run(states, steps) && j < |states| && i < |states[j].nodes|
    ensures var n, adds := states[j].nodes[i], Adds(states, steps, i, j);
      n.broadcast[t] + n.ignored[t] + n.missed[t]
      <= multiset(n.copied)[t] + Lapsed(adds, t, states[j].now, |adds|)
  {
    var n, adds, l := states[j].nodes[i], Adds(states, steps, i, j), History(states, steps, i, j);
    RunsStaySound(states, steps, j, t);
    assert Balanced(n, t);
    LostIsLapsed(states, steps, i, j, t);
    HistoryIsDated(states, steps, i, j);
    hide Run, Sound, History, Adds, CountFate, Texts, Held, Judged, Due;
    LapsedCounts(l, adds, t, states[j].now, |adds|);
  }

  /** An add is lost only five seconds after the step that made it, or to a newer add
      that finds 255 newer ones still listed; it is met only by its own content; and
      what has become of an add stays so. */
  lemma LossIsTimely(states: seq<State>, steps: seq<Step>, i: nat, j: nat, m: nat)
    requires Run(states, steps) && j < |steps| && i < |states[j].nodes| && m < |History(states, steps, i, j)|
    ensures var l, r := History(states, steps, i, j), History(states, steps, i, j + 1);
      && m < |Adds(states, steps, i, j)| && m < |r| && r[m].entry == l[m].entry
      && (l[m].fate != Live ==> r[m].fate == l[m].fate)
      && (l[m].fate == Live && r[m].fate == Expired ==>
            Adds(states, steps, i, j)[m].at + 5_000_000_000 <= states[j].now)
      && (l[m].fate == Live && r[m].fate == Evicted ==>
            steps[j].AtNode? && steps[j].i == i && steps[j].step.AddEntry? && |LiveEntries(r[m + 1..])| >= 256)
      && (l[m].fate == Live && r[m].fate == Spent ==> Meets(states[j], steps[j], i, Adds(states, steps, i, j)[m].text))
  {
    HistoryIsDated(states, steps, i, j);
    var l, more := History(states, steps, i, j), UseOf(states[j], steps[j], i);
    assert Took(states[j], steps[j], states[j + 1]);
    UseTime(states[j], steps[j], i);
    AppendUse(Uses(states, steps, i, j), more, []);
    UseMeets(states[j], steps[j], i);
    hide Recorded, LiveEntries, Uses, Adds, Run, UseOf, Enabled, WellFormed, Next, Took, LedgerAdd, LedgerConsume,
      Meets;
    if more != [] {
      if more[0].Put? {
        AddFates(l, more[0].pruneAt, more[0].entry, m);
      } else {
        TakeFates(l, more[0].hash, more[0].at, m);
      }
    }
  }

  /** The step tests or takes back this content at this daemon. */
  predicate Meets(s: State, step: Step, i: nat, t: Text) {
    && step.AtNode? && step.i == i && i < |s.nodes|
    && ((step.step.Screen? && s.nodes[i].local == Handling(t))
        || (step.step.UndoEntry? && s.nodes[i].writer == Failed(t)))
  }

  lemma UseMeets(s: State, step: Step, i: nat)
    ensures var more := UseOf(s, step, i); more != [] ==>
      if more[0].Put? then step.AtNode? && step.i == i && step.step.AddEntry? && more[0].pruneAt == s.now
      else Meets(s, step, i, more[0].hash) && more[0].at == s.now
  {
  }

  // ---------------------------------------------------------------------------
  // An echo in time is swallowed
  // ---------------------------------------------------------------------------

  /** Before step `j` the add of step `k` is less than five seconds old, at most 256
      adds were made from it on, and no step after it tests or takes back its content
      at this daemon. */
  ghost predicate Undisturbed(states: seq<State>, steps: seq<Step>, i: nat, k: nat, j: nat, t: Text, at: nat)
  {
    && k < j <= |steps| < |states|
    && states[j].now < at + 5_000_000_000
    && |Adds(states, steps, i, j)| <= |Adds(states, steps, i, k)| + 256
    && forall p :: k < p < j ==> !Meets(states[p], steps[p], i, t)
  }

  lemma UndisturbedInit(states: seq<State>, steps: seq<Step>, i: nat, k: nat, j: nat, t: Text, at: nat)
    requires Run(states, steps) && k < j < |steps| && Undisturbed(states, steps, i, k, j + 1, t, at)
    ensures Undisturbed(states, steps, i, k, j, t, at) && !Meets(states[j], steps[j], i, t)
  {
    TimeMovesOn(states, steps, j, i);
    AddsGrow(states, steps, i, j);
    hide Run, Adds, Meets;
  }

  lemma AddsGrow(states: seq<State>, steps: seq<Step>, i: nat, j: nat)
    requires j < |steps| < |states|
    ensures Adds(states, steps, i, j) <= Adds(states, steps, i, j + 1)
  {
  }

  lemma TimeMovesOn(states: seq<State>, steps: seq<Step>, j: nat, i: nat)
    requires Run(states, steps) && j < |steps|
    ensures states[j].now <= states[j + 1].now && |states[j].nodes| == |states[j + 1].nodes|
  {
    assert Took(states[j], steps[j], states[j + 1]);
    UseTime(states[j], steps[j], i);
    ShapeIsKept(states[j], steps[j]);
  }

  /** At step `k` this daemon adds an entry for `t`, at time `at`. */
  ghost predicate AddsAt(states: seq<State>, steps: seq<Step>, i: nat, k: nat, t: Text, at: nat)
  {
    && k < |steps| < |states| && i < |states[k].nodes|
    && states[k].nodes[i].writer == Taken(t) && steps[k] == AtNode(i, AddEntry(at))
  }

  /** The add of step `k` is still live before step `j`. */
  ghost predicate StillLive(states: seq<State>, steps: seq<Step>, i: nat, k: nat, j: nat, t: Text, at: nat)
  {
    k <= j <= |steps| < |states| &&
    var m, r, adds := |Adds(states, steps, i, k)|, History(states, steps, i, j), Adds(states, steps, i, j);
    i < |states[j].nodes| && m < |adds| && adds[m] == Add(t, at) && m < |r| && r[m].fate == Live
  }

  lemma AddNoted(s: State, i: nat, t: Text, at: nat)
    requires i < |s.nodes| && s.nodes[i].writer == Taken(t)
    ensures UseOf(s, AtNode(i, AddEntry(at)), i) == [Put(s.now, Entry("", t, at + 5_000_000_000))]
    ensures AddOf(s, AtNode(i, AddEntry(at)), i) == [Add(t, at)]
  {
  }

  /** The step that adds an entry is recorded as a live add. */
  lemma AddIsRecorded(states: seq<State>, steps: seq<Step>, i: nat, k: nat, t: Text, at: nat)
    requires Run(states, steps) && k < |steps| && AddsAt(states, steps, i, k, t, at)
    ensures StillLive(states, steps, i, k, k + 1, t, at)
  {
    TimeMovesOn(states, steps, k, i);
    HistoryIsDated(states, steps, i, k);
    AddNoted(states[k], i, t, at);
    hide LedgerAdd, Recorded, Run, UseOf, AddOf;
    var l, more := History(states, steps, i, k), UseOf(states[k], steps[k], i);
    AppendUse(Uses(states, steps, i, k), more, []);
    AddLast(l, more[0].pruneAt, more[0].entry);
  }

  lemma LiveStep(states: seq<State>, steps: seq<Step>, i: nat, k: nat, j: nat, t: Text, at: nat)
    requires Run(states, steps) && k < j < |steps| && StillLive(states, steps, i, k, j, t, at)
    requires Undisturbed(states, steps, i, k, j + 1, t, at)
    ensures StillLive(states, steps, i, k, j + 1, t, at)
  {
    hide Run, History, Meets, Adds;
    var m := |Adds(states, steps, i, k)|;
    UndisturbedInit(states, steps, i, k, j, t, at);
    TimeMovesOn(states, steps, j, i);
    AddsGrow(states, steps, i, j);
    LossIsTimely(states, steps, i, j, m);
    LiveBound(states, steps, i, j + 1, m);
  }

  /** An add stays live while it is undisturbed. */
  lemma {:induction false} AddStaysLive(
      states: seq<State>, steps: seq<Step>, i: nat, k: nat, j: nat, t: Text, at: nat)
    requires Run(states, steps) && k < j <= |steps| && AddsAt(states, steps, i, k, t, at)
    requires Undisturbed(states, steps, i, k, j, t, at)
    ensures StillLive(states, steps, i, k, j, t, at)
    decreases j
  {
    hide *;
    if j == k + 1 {
      AddIsRecorded(states, steps, i, k, t, at);
    } else {
      UndisturbedInit(states, steps, i, k, j - 1, t, at);
      AddStaysLive(states, steps, i, k, j - 1, t, at);
      LiveStep(states, steps, i, k, j - 1, t, at);
    }
  }

  /** A record pushed out has 256 newer adds. */
  lemma LiveBound(states: seq<State>, steps: seq<Step>, i: nat, j: nat, m: nat)
    requires Run(states, steps) && j < |states| && i < |states[j].nodes| && m < |History(states, steps, i, j)|
    requires |Adds(states, steps, i, j)| <= m + 256
    ensures History(states, steps, i, j)[m].fate != Evicted
  {
    HistoryIsDated(states, steps, i, j);
    LostIsLapsed(states, steps, i, j, []);
  }

  /** An add still live and not over is met by a test of its content. */
  lemma LiveIsMet(states: seq<State>, steps: seq<Step>, i: nat, k: nat, j: nat, t: Text, at: nat)
    requires Run(states, steps) && k <= j < |states| && StillLive(states, steps, i, k, j, t, at)
    requires states[j].now < at + 5_000_000_000
    ensures Matches(states[j].nodes[i].entries, t, states[j].now)
  {
    var m, l := |Adds(states, steps, i, k)|, History(states, steps, i, j);
    HistoryIsDated(states, steps, i, j);
    LiveIsListed(l, m);
    LostIsLapsed(states, steps, i, j, t);
    hide Run, Adds, History, LiveEntries, Matches;
    MatchesIff(states[j].nodes[i].entries, t, states[j].now);
    assert l[m].entry in states[j].nodes[i].entries;
  }

  /** A text that a remote write put on the clipboard is not sent back: when localLoop
      tests it within five seconds of the add, with fewer than 256 adds since and no
      other test of the same text in between, the event ends there. */
  lemma EchoIsSwallowed(states: seq<State>, steps: seq<Step>, i: nat, k: nat, j: nat, t: Text, at: nat)
    requires Run(states, steps) && k < j < |steps| && AddsAt(states, steps, i, k, t, at)
    requires Undisturbed(states, steps, i, k, j, t, at)
    requires steps[j] == AtNode(i, Screen) && i < |states[j].nodes| && states[j].nodes[i].local == Handling(t)
    ensures i < |states[j + 1].nodes|
    ensures var n, r := states[j].nodes[i], states[j + 1].nodes[i];
      && r.local == LocalIdle && r.broadcast == n.broadcast
  {
    assert Took(states[j], steps[j], states[j + 1]);
    assert states[j].now < at + 5_000_000_000;
    TimeMovesOn(states, steps, j, i);
    AddStaysLive(states, steps, i, k, j, t, at);
    LiveIsMet(states, steps, i, k, j, t, at);
    hide Run, Adds, History, WellFormed, Matches, Consumed, Expiring, StillLive;
    var n := states[j].nodes[i];
    assert NodeNext(n, states[j].now, Screen) == ScreenNext(n, states[j].now);
  }
}
