// Without new user copies and without lost suppression entries the engine
// comes to rest: every internal step lowers an explicit weight, and while any
// queue is occupied some step is possible.
module Quiescence {
  import opened Suppression
  import opened Channel
  import opened Engine
  import opened Echo

  /** Steps the daemons, the watchers and the network take by themselves. */
  predicate Internal(step: Step) {
    match step
    case AtNode(_, ns) => !ns.UserCopy?
    case Tick(_) => false
    case Connect(_, _) => false
    case _ => true
  }

  // ---------------------------------------------------------------------------
  // The weight of what is in the pipeline
  // ---------------------------------------------------------------------------

  // One unit per stage still ahead of a message, so that each move loses one.

  function LocalWeight(l: Local): nat {
    match l
    case LocalIdle => 0
    case Handling(_) => 2
    case Passed(_) => 1
    case Sending(_, todo, at) =>
      17 * |todo| + match at case Check => 4 case At(Offer) => 3 case At(Evict) => 2 case At(Deliver) => 1
  }

  function WriterWeight(w: Writer): nat {
    match w
    case WriterIdle => 0
    case Taken(_) => 6
    case Writing(_, echoed) => if echoed then 1 else 5
    case Failed(_) => 1
  }

  /** What the books still allow a daemon to broadcast. */
  function Budget(n: Node): int {
    |n.copied| + |n.lost| - |n.broadcast|
  }

  function Load(n: Node): nat {
    3 * |n.watcher| + LocalWeight(n.local) + 7 * |n.inbox| + WriterWeight(n.writer) + 4 * |n.owed|
  }

  /** `fan` is the weight of one broadcast to every connection. */
  function NodeWeight(n: Node, fan: nat): int {
    Load(n) + fan * Budget(n)
  }

  function ConnWeight(c: Conn): nat {
    13 * |c.out| + 12 * |c.sending| + 11 * |c.link| + (if c.open then 1 else 0) + (if c.stopped then 0 else 1)
    + match c.reader
      case ReaderGone => 0
      case ReaderIdle => 1
      case Enqueuing(_, Offer) => 11
      case Enqueuing(_, Evict) => 10
      case Enqueuing(_, Deliver) => 9
  }

  function NodesWeight(nodes: seq<Node>, fan: nat): int {
    if nodes == [] then 0 else NodeWeight(nodes[0], fan) + NodesWeight(nodes[1..], fan)
  }

  function ConnsWeight(conns: seq<Conn>): nat {
    if conns == [] then 0 else ConnWeight(conns[0]) + ConnsWeight(conns[1..])
  }

  function Fan(s: State): nat {
    17 * |s.conns| + 4
  }

  function Weight(s: State): int {
    NodesWeight(s.nodes, Fan(s)) + ConnsWeight(s.conns)
  }

  lemma {:induction false} NodesWeightUpdate(nodes: seq<Node>, fan: nat, i: nat, n: Node)
    requires i < |nodes|
    ensures NodesWeight(nodes[i := n], fan)
         == NodesWeight(nodes, fan) - NodeWeight(nodes[i], fan) + NodeWeight(n, fan)
  {
    hide NodeWeight;
    if i == 0 {
      assert nodes[0 := n][1..] == nodes[1..];
    } else {
      assert nodes[i := n][1..] == nodes[1..][i - 1 := n];
      NodesWeightUpdate(nodes[1..], fan, i - 1, n);
    }
  }

  lemma {:induction false} ConnsWeightUpdate(conns: seq<Conn>, k: nat, c: Conn)
    requires k < |conns|
    ensures ConnsWeight(conns[k := c]) == ConnsWeight(conns) - ConnWeight(conns[k]) + ConnWeight(c)
  {
    hide ConnWeight;
    if k == 0 {
      assert conns[0 := c][1..] == conns[1..];
    } else {
      assert conns[k := c][1..] == conns[1..][k - 1 := c];
      ConnsWeightUpdate(conns[1..], k - 1, c);
    }
  }

  // ---------------------------------------------------------------------------
  // Every internal step loses weight
  // ---------------------------------------------------------------------------

  /** A list of distinct connections is no longer than the list of all of them. */
  lemma {:induction false} DistinctBelow(targets: seq<nat>, bound: nat)
    requires forall p :: 0 <= p < |targets| ==> targets[p] < bound
    requires forall p, q :: 0 <= p < q < |targets| ==> targets[p] != targets[q]
    ensures |targets| <= bound
    decreases bound
  {
    if bound - 1 in targets {
      var p :| 0 <= p < |targets| && targets[p] == bound - 1;
      var others := Without(targets, p);
      assert forall q :: 0 <= q < |others| ==> others[q] == targets[if q < p then q else q + 1];
      DistinctBelow(others, bound - 1);
    } else if targets != [] {
      assert targets[0] < bound - 1 by { assert targets[0] in targets; }
      DistinctBelow(targets, bound - 1);
    }
  }

  /** Changing one daemon and one connection changes the weight by their parts. */
  lemma WeightChange(s: State, t: State, i: nat, k: nat)
    requires i < |s.nodes| && |t.nodes| == |s.nodes| && t.nodes == s.nodes[i := t.nodes[i]]
    requires k < |s.conns| && |t.conns| == |s.conns| && t.conns == s.conns[k := t.conns[k]]
    requires Budget(t.nodes[i]) == Budget(s.nodes[i])
    ensures Weight(t) - Weight(s)
         == Load(t.nodes[i]) - Load(s.nodes[i]) + ConnWeight(t.conns[k]) - ConnWeight(s.conns[k])
  {
    NodesWeightUpdate(s.nodes, Fan(s), i, t.nodes[i]);
    ConnsWeightUpdate(s.conns, k, t.conns[k]);
    hide Budget, Load, ConnWeight;
  }

  lemma ConnChange(s: State, k: nat, c: Conn)
    requires k < |s.conns| && ConnWeight(c) < ConnWeight(s.conns[k])
    ensures Weight(WithConn(s, k, c)) < Weight(s)
  {
    ConnsWeightUpdate(s.conns, k, c);
    hide ConnWeight;
  }

  lemma DispatchShrinks(n: Node, now: nat, idOk: bool, targets: seq<nat>, conns: nat)
    requires NodeEnabled(n, now, Dispatch(idOk, targets)) && |targets| <= conns
    ensures var r := NodeNext(n, now, Dispatch(idOk, targets));
      || (Load(r) < Load(n) && Budget(r) == Budget(n))
      || (Load(r) < Load(n) + 17 * conns + 4 && Budget(r) == Budget(n) - 1)
  {
  }

  lemma PaidFor(fan: nat, budget: int)
    ensures fan * (budget - 1) == fan * budget - fan
  {
  }

  lemma OthersShrink(n: Node, now: nat, step: NodeStep)
    requires NodeEnabled(n, now, step) && !step.UserCopy? && !step.Dispatch?
    requires NodeNext(n, now, step).lost == n.lost
    ensures Load(NodeNext(n, now, step)) < Load(n) && Budget(NodeNext(n, now, step)) == Budget(n)
  {
    hide Consumed, Matches, Expiring, Shed, Added;
  }

  lemma NodeShrinks(n: Node, now: nat, step: NodeStep, conns: nat, fan: nat)
    requires NodeEnabled(n, now, step) && !step.UserCopy?
    requires step.Dispatch? ==> |step.targets| <= conns
    requires NodeNext(n, now, step).lost == n.lost && fan == 17 * conns + 4
    ensures NodeWeight(NodeNext(n, now, step), fan) < NodeWeight(n, fan)
  {
    hide NodeNext, Load, Budget;
    if step.Dispatch? {
      DispatchShrinks(n, now, step.idOk, step.targets, conns);
      PaidFor(fan, Budget(n));
    } else {
      OthersShrink(n, now, step);
    }
  }

  lemma SendEffectShrinks(l: Local, c: Conn)
    requires l.Sending? && l.todo != [] && (l.at == At(Deliver) ==> c.out == [])
    ensures var r := SendEffect(l, c);
      LocalWeight(r.0) + ConnWeight(r.1) < LocalWeight(l) + ConnWeight(c)
  {
  }

  lemma SendShrinks(s: State, i: nat)
    requires WellFormed(s) && Enabled(s, Send(i))
    ensures Weight(SendNext(s, i)) < Weight(s)
  {
    var l, k := s.nodes[i].local, s.nodes[i].local.todo[0];
    assert Aimed(l, i, s.conns);
    SendEffectShrinks(l, s.conns[k]);
    hide Weight, SendEffect, LocalWeight, ConnWeight;
    WeightChange(s, SendNext(s, i), i, k);
  }

  lemma GiveUpShrinks(s: State, i: nat)
    requires WellFormed(s) && Enabled(s, GiveUp(i))
    ensures Weight(Next(s, GiveUp(i))) < Weight(s)
  {
    hide Weight;
    var n := s.nodes[i];
    assert Aimed(n.local, i, s.conns);
    var r := n.(local := Advance(n.local));
    assert Load(r) < Load(n) && Budget(r) == Budget(n);
    NodeChange(s, i, r, s.now);
    assert Next(s, GiveUp(i)) == s.(nodes := s.nodes[i := r], now := s.now);
  }

  lemma EnqueueShrinks(s: State, k: nat)
    requires WellFormed(s) && Enabled(s, Enqueue(k))
    ensures Weight(EnqueueNext(s, k)) < Weight(s)
  {
    hide Weight;
    WeightChange(s, EnqueueNext(s, k), s.conns[k].dst, k);
  }

  /** No suppression entry is lost in going from `s` to `t`. */
  ghost predicate Lossless(s: State, t: State) {
    |s.nodes| == |t.nodes| && forall i :: 0 <= i < |s.nodes| ==> t.nodes[i].lost == s.nodes[i].lost
  }

  lemma TargetsFit(s: State, i: nat, targets: seq<nat>)
    requires Snapshot(s, i, targets)
    ensures |targets| <= |s.conns|
  {
    assert forall p :: 0 <= p < |targets| ==> targets[p] in targets;
    DistinctBelow(targets, |s.conns|);
  }

  lemma NodeChange(s: State, i: nat, n: Node, now: nat)
    requires i < |s.nodes| && NodeWeight(n, Fan(s)) < NodeWeight(s.nodes[i], Fan(s))
    ensures Weight(s.(nodes := s.nodes[i := n], now := now)) < Weight(s)
  {
    NodesWeightUpdate(s.nodes, Fan(s), i, n);
    hide NodeWeight;
  }

  lemma NodeStepShrinks(s: State, i: nat, ns: NodeStep)
    requires WellFormed(s) && Enabled(s, AtNode(i, ns)) && !ns.UserCopy?
    requires Lossless(s, Next(s, AtNode(i, ns)))
    ensures Weight(Next(s, AtNode(i, ns))) < Weight(s)
  {
    hide NodeNext, NodeWeight, NodeEnabled, Snapshot, WellFormed, Weight;
    var t := Next(s, AtNode(i, ns));
    if ns.Dispatch? { TargetsFit(s, i, ns.targets); }
    assert t.nodes[i].lost == s.nodes[i].lost;
    NodeShrinks(s.nodes[i], s.now, ns, |s.conns|, Fan(s));
    NodeChange(s, i, t.nodes[i], t.now);
  }

  lemma StepShrinks(s: State, step: Step)
    requires WellFormed(s) && Enabled(s, step) && Internal(step)
    requires Lossless(s, Next(s, step))
    ensures Weight(Next(s, step)) < Weight(s)
  {
    hide Weight;
    match step
    case AtNode(i, ns) => NodeStepShrinks(s, i, ns);
    case Send(i) => SendShrinks(s, i);
    case GiveUp(i) => GiveUpShrinks(s, i);
    case Enqueue(k) => EnqueueShrinks(s, k);
    case Close(k) => ConnChange(s, k, Next(s, step).conns[k]);
    case Break(k, _) => ConnChange(s, k, Next(s, step).conns[k]);
    case StopWriter(k) => ConnChange(s, k, Next(s, step).conns[k]);
    case StopReader(k) => ConnChange(s, k, Next(s, step).conns[k]);
    case WriterTake(k) => ConnChange(s, k, Next(s, step).conns[k]);
    case Transmit(k) => ConnChange(s, k, Next(s, step).conns[k]);
    case Receive(k) => ConnChange(s, k, Next(s, step).conns[k]);
  }

  lemma {:induction false} WeightNonNegative(nodes: seq<Node>, fan: nat)
    requires forall i :: 0 <= i < |nodes| ==> Budget(nodes[i]) >= 0
    ensures NodesWeight(nodes, fan) >= 0
  {
    if nodes != [] {
      WeightNonNegative(nodes[1..], fan);
      assert Budget(nodes[0]) >= 0;
    }
  }

  ghost predicate Settles(s: State, step: Step, t: State) {
    (Internal(step) || step.Tick?) && Lossless(s, t)
  }

  /** Between two states of a run users copy nothing, no connection is added and no
      suppression entry is lost; time may pass. */
  ghost predicate Settling(states: seq<State>, steps: seq<Step>, first: nat, last: nat)
    requires |states| == |steps| + 1 && first <= last < |states|
  {
    forall j :: first <= j < last ==> Settles(states[j], steps[j], states[j + 1])
  }

  function InternalSteps(steps: seq<Step>, first: nat, last: nat): nat
    requires first <= last <= |steps|
  {
    if first == last then 0
    else InternalSteps(steps, first, last - 1) + if Internal(steps[last - 1]) then 1 else 0
  }

  lemma TickWeighsNothing(s: State, d: nat)
    ensures Weight(s.(now := s.now + d)) == Weight(s)
  {
  }

  lemma {:induction false} SettlingShrinks(states: seq<State>, steps: seq<Step>, first: nat, last: nat)
    requires Run(states, steps) && first <= last < |states| && Settling(states, steps, first, last)
    ensures Weight(states[last]) + InternalSteps(steps, first, last) <= Weight(states[first])
    decreases last
  {
    hide Weight, Enabled, WellFormed, Init;
    if first < last {
      var j := last - 1;
      SettlingShrinks(states, steps, first, j);
      assert Took(states[j], steps[j], states[j + 1]) && Settles(states[j], steps[j], states[j + 1]);
      if steps[j].Tick? {
        TickWeighsNothing(states[j], steps[j].d);
      } else {
        hide Next;
        StepShrinks(states[j], steps[j]);
      }
    }
  }

  /** Once users stop copying, and while nothing expires, the steps that all daemons,
      watchers and connections can still take, however long they take, are at most
      the weight of the state they start from. */
  lemma Quiesces(states: seq<State>, steps: seq<Step>, first: nat, last: nat)
    requires Run(states, steps) && first <= last < |states| && Settling(states, steps, first, last)
    ensures InternalSteps(steps, first, last) <= Weight(states[first])
  {
    SettlingShrinks(states, steps, first, last);
    forall i | 0 <= i < |states[last].nodes| ensures Budget(states[last].nodes[i]) >= 0 {
      EchoBound(states, steps, last, i);
    }
    WeightNonNegative(states[last].nodes, Fan(states[last]));
  }

  // ---------------------------------------------------------------------------
  // No deadlock
  // ---------------------------------------------------------------------------

  ghost predicate NodeDrained(n: Node) {
    n.watcher == n.inbox == [] && n.local.LocalIdle? && n.writer.WriterIdle?
  }

  ghost predicate ConnDrained(c: Conn) {
    && !c.reader.Enqueuing? && (c.reader.ReaderIdle? ==> c.link == [])
    && (!c.stopped ==> c.out == c.sending == [])
  }

  ghost predicate Drained(s: State) {
    && (forall i :: 0 <= i < |s.nodes| ==> NodeDrained(s.nodes[i]))
    && (forall k :: 0 <= k < |s.conns| ==> ConnDrained(s.conns[k]))
  }

  /** The steps that move messages along, leaving out failures and late echoes. */
  predicate Moves(step: Step) {
    match step
    case AtNode(_, ns) =>
      || ns.TakeEvent? || ns.Screen? || (ns.Dispatch? && ns.idOk)
      || ns.TakeInbox? || ns.AddEntry? || ns.WriteOk? || ns.UndoEntry?
    case Send(_) => true
    case GiveUp(_) => true
    case WriterTake(_) => true
    case Transmit(_) => true
    case Receive(_) => true
    case Enqueue(_) => true
    case _ => false
  }

  /** Some snapshot of the connections can always be taken. */
  lemma {:induction false} SomeSnapshot(s: State, i: nat, upTo: nat) returns (targets: seq<nat>)
    requires upTo <= |s.conns|
    ensures forall k: nat :: k in targets <==> k < upTo && s.conns[k].src == i && s.conns[k].open
    ensures forall p, q :: 0 <= p < q < |targets| ==> targets[p] != targets[q]
  {
    if upTo == 0 {
      targets := [];
    } else {
      var k := upTo - 1;
      var before := SomeSnapshot(s, i, k);
      targets := if s.conns[k].src == i && s.conns[k].open then before + [k] else before;
      assert forall p :: 0 <= p < |before| ==> before[p] in before;
    }
  }

  lemma WriterCanMove(s: State, i: nat) returns (step: Step)
    requires WellFormed(s) && i < |s.nodes|
    requires s.nodes[i].inbox != [] || !s.nodes[i].writer.WriterIdle?
    ensures Moves(step) && Enabled(s, step)
  {
    step := match s.nodes[i].writer
            case WriterIdle => AtNode(i, TakeInbox)
            case Taken(_) => AtNode(i, AddEntry(s.now))
            case Writing(_, _) => AtNode(i, WriteOk)
            case Failed(_) => AtNode(i, UndoEntry);
  }

  lemma SenderCanMove(s: State, k: nat) returns (step: Step)
    requires WellFormed(s) && k < |s.conns| && !s.conns[k].stopped
    requires s.conns[k].out != [] || s.conns[k].sending != []
    ensures Moves(step) && Enabled(s, step)
  {
    step := if s.conns[k].sending == [] then WriterTake(k) else Transmit(k);
  }

  lemma NodeCanMove(s: State, i: nat) returns (step: Step)
    requires WellFormed(s) && i < |s.nodes| && !NodeDrained(s.nodes[i])
    ensures Moves(step) && Enabled(s, step)
  {
    var n := s.nodes[i];
    if n.inbox != [] || !n.writer.WriterIdle? {
      step := WriterCanMove(s, i);
    } else {
      match n.local
      case LocalIdle => step := AtNode(i, TakeEvent);
      case Handling(_) => step := AtNode(i, Screen);
      case Passed(_) =>
        var targets := SomeSnapshot(s, i, |s.conns|);
        step := AtNode(i, Dispatch(true, targets));
      case Sending(_, _, _) =>
        assert Aimed(n.local, i, s.conns);
        step := Send(i);
    }
  }

  lemma ConnCanMove(s: State, k: nat) returns (step: Step)
    requires WellFormed(s) && k < |s.conns| && !ConnDrained(s.conns[k])
    ensures Moves(step) && Enabled(s, step)
  {
    var c := s.conns[k];
    if !c.stopped && (c.out != [] || c.sending != []) {
      step := SenderCanMove(s, k);
    } else if c.reader.ReaderIdle? {
      step := Receive(k);
    } else if c.reader.stage == Deliver && s.nodes[c.dst].inbox != [] {
      step := WriterCanMove(s, c.dst);
    } else {
      step := Enqueue(k);
    }
  }

  /** While any queue or loop of any daemon holds a message that its reader and its
      writer have not given up, some message can move: a full queue never leaves the
      whole system waiting, even behind a write loop that has returned. */
  lemma NoDeadlock(s: State)
    requires WellFormed(s) && !Drained(s)
    ensures exists step :: Moves(step) && Enabled(s, step)
  {
    if i :| 0 <= i < |s.nodes| && !NodeDrained(s.nodes[i]) {
      var step := NodeCanMove(s, i);
    } else {
      var k :| 0 <= k < |s.conns| && !ConnDrained(s.conns[k]);
      var step := ConnCanMove(s, k);
    }
  }
}
