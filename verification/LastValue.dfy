// The last value of a burst arrives: when one daemon's user copies and the
// others' do not, what a connected peer hands to its clipboard is a subsequence
// of the valid copies, and once the queues have drained it ends with the last one.
module LastValue {
  import opened Suppression
  import opened Subsequences
  import opened Channel
  import opened Engine
  import opened Echo
  import opened Quiescence

  /** The texts the sender accepts, in order. */
  function Accepted(s: seq<Text>, limit: nat): seq<Text> {
    if s == [] then []
    else Accepted(s[..|s| - 1], limit) + if ValidText(s[|s| - 1], limit) then [s[|s| - 1]] else []
  }

  lemma {:induction false} AcceptedConcat(x: seq<Text>, y: seq<Text>, limit: nat)
    ensures Accepted(x + y, limit) == Accepted(x, limit) + Accepted(y, limit)
  {
    if y == [] {
      assert x + y == x;
    } else {
      AcceptedConcat(x, y[..|y| - 1], limit);
      assert (x + y)[..|x + y| - 1] == x + y[..|y| - 1];
    }
  }

  lemma AcceptedOne(t: Text, limit: nat)
    ensures Accepted([t], limit) == if ValidText(t, limit) then [t] else []
  {
    assert [t][..0] == [];
  }

  /** Which those are: not empty, and no longer than the sender's limit. */
  lemma AcceptedExactly(s: seq<Text>, t: Text, limit: nat)
    ensures Accepted([], limit) == []
    ensures Accepted(s + [t], limit) == Accepted(s, limit) + if 1 <= |t| <= limit then [t] else []
  {
    AcceptedConcat(s, [t], limit);
    AcceptedOne(t, limit);
  }

  lemma {:induction false} AcceptedAreValid(s: seq<Text>, limit: nat, t: Text)
    requires t in Accepted(s, limit)
    ensures ValidText(t, limit)
  {
    if s != [] && t in Accepted(s[..|s| - 1], limit) {
      AcceptedAreValid(s[..|s| - 1], limit, t);
    }
  }

  // ---------------------------------------------------------------------------
  // The pipeline from `a` to `b` over connection `c`, oldest text first
  // ---------------------------------------------------------------------------

  function Received(n: Node): seq<Text> {
    n.written + (if n.writer.Taken? then [n.writer.text] else []) + n.inbox
  }

  function InFlight(c: Conn): seq<Text> {
    (if c.reader.Enqueuing? then [c.reader.text] else []) + c.link + c.sending + c.out
  }

  function Unsent(l: Local, limit: nat, c: nat): seq<Text> {
    match l
    case LocalIdle => []
    case Handling(t) => Accepted([t], limit)
    case Passed(t) => [t]
    case Sending(t, todo, _) => if c in todo then [t] else []
  }

  function Pending(n: Node, c: nat): seq<Text> {
    Unsent(n.local, n.limit, c) + Accepted(n.watcher, n.limit)
  }

  /** The link is up: neither of its loops has ended. */
  predicate Up(c: Conn) {
    c.open && !c.stopped && !c.reader.ReaderGone?
  }

  /** The conditions under which the design promises delivery: the link stays up
      and is the only one, the peer accepts what the sender accepts, only `a`'s user
      copies, and no suppression entry is lost. */
  ghost predicate OneWay(s: State, a: nat, b: nat, c: nat) {
    && a < |s.nodes| && b < |s.nodes| && c < |s.conns|
    && s.conns[c].src == a && s.conns[c].dst == b
    && Up(s.conns[c])
    && (forall k :: 0 <= k < |s.conns| && k != c && s.conns[k].src == a ==> s.conns[k].dst != b)
    && s.nodes[a].limit <= s.nodes[b].limit
    && (forall i :: 0 <= i < |s.nodes| && i != a ==> s.nodes[i].copied == [])
    && (forall i :: 0 <= i < |s.nodes| ==> s.nodes[i].lost == multiset{})
  }

  function Pipeline(s: State, a: nat, b: nat, c: nat): seq<Text>
    requires a < |s.nodes| && b < |s.nodes| && c < |s.conns|
  {
    Received(s.nodes[b]) + InFlight(s.conns[c]) + Pending(s.nodes[a], c)
  }

  /** The connections still to be served are distinct and belong to `a`. */
  ghost predicate Serves(s: State, l: Local, a: nat) {
    l.Sending? ==>
      && (forall p, q :: 0 <= p < q < |l.todo| ==> l.todo[p] != l.todo[q])
      && (forall p :: 0 <= p < |l.todo| ==> l.todo[p] < |s.conns| && s.conns[l.todo[p]].src == a)
  }

  /** The daemon has received nothing. */
  ghost predicate Unreached(n: Node) {
    n.entries == [] && n.inbox == [] && n.writer.WriterIdle? && n.owed == multiset{}
  }

  /** Nobody but `a` sends, so nothing ever reaches `a`. */
  ghost predicate OnlySource(s: State, a: nat) {
    && a < |s.nodes|
    && (forall i :: 0 <= i < |s.nodes| && i != a ==> !s.nodes[i].local.Sending?)
    && (forall k :: 0 <= k < |s.conns| && s.conns[k].src != a ==> Clean(s.conns[k]))
    && Unreached(s.nodes[a])
    && Serves(s, s.nodes[a].local, a)
  }

  ghost predicate Delivers(s: State, a: nat, b: nat, c: nat) {
    && a < |s.nodes| && b < |s.nodes| && c < |s.conns|
    && Coalesces(Pipeline(s, a, b, c), Accepted(s.nodes[a].copied, s.nodes[a].limit))
  }

  // ---------------------------------------------------------------------------
  // Only `a` sends
  // ---------------------------------------------------------------------------

  /** The daemons other than `a` have broadcast nothing. */
  ghost predicate Silent(s: State, a: nat) {
    forall i :: 0 <= i < |s.nodes| && i != a ==> s.nodes[i].broadcast == multiset{}
  }

  lemma StaysUnreached(n: Node, now: nat, ns: NodeStep)
    requires NodeEnabled(n, now, ns) && Unreached(n)
    ensures Unreached(NodeNext(n, now, ns))
    ensures NodeNext(n, now, ns).local.Sending? ==>
      (ns.Dispatch? && NodeNext(n, now, ns).local.todo == ns.targets) || NodeNext(n, now, ns).local == n.local
  {
    hide ScreenNext, Accepted, AddNext, UndoNext, ValidText, Pending;
    if ns.Screen? {
      ScreenOpenly(n, now, 0);
      ScreenDoesNotSend(n, now);
    }
  }

  lemma ScreenDoesNotSend(n: Node, now: nat)
    requires n.local.Handling?
    ensures !ScreenNext(n, now).local.Sending?
    ensures var r := ScreenNext(n, now);
      r.inbox == n.inbox && r.writer == n.writer && r.owed == n.owed && r.broadcast == n.broadcast
  {
    hide Consumed, Matches, Expiring, ValidText;
  }

  lemma SilentDoesNotSend(n: Node, now: nat, ns: NodeStep)
    requires NodeEnabled(n, now, ns) && !n.local.Sending?
    requires NodeNext(n, now, ns).broadcast == multiset{}
    ensures !NodeNext(n, now, ns).local.Sending?
  {
    hide ScreenNext, AddNext, UndoNext;
    if ns.Screen? { ScreenDoesNotSend(n, now); }
    if ns.Dispatch? { NotEmpty(n.broadcast, n.local.text); }
    if ns.AddEntry? { assert AddNext(n, now, ns.addAt).local == n.local by { AddKeepsLocal(n, now, ns.addAt); } }
    if ns.UndoEntry? { assert UndoNext(n, now).local == n.local by { UndoKeepsLocal(n, now); } }
  }

  lemma NotEmpty(m: multiset<Text>, x: Text)
    ensures m + multiset{x} != multiset{}
  {
    assert x in m + multiset{x};
  }

  lemma AddKeepsLocal(n: Node, now: nat, addAt: nat)
    requires n.writer.Taken?
    ensures AddNext(n, now, addAt).local == n.local
  {
  }

  lemma UndoKeepsLocal(n: Node, now: nat)
    requires n.writer.Failed?
    ensures UndoNext(n, now).local == n.local
  {
  }

  lemma SourceNodeStep(s: State, i: nat, ns: NodeStep, a: nat)
    requires WellFormed(s) && Enabled(s, AtNode(i, ns)) && OnlySource(s, a)
    requires Silent(s, a) && Silent(Next(s, AtNode(i, ns)), a)
    ensures OnlySource(Next(s, AtNode(i, ns)), a)
  {
    hide NodeNext, NodeEnabled, Unreached;
    var t := Next(s, AtNode(i, ns));
    if i != a {
      assert t.nodes[i].broadcast == multiset{};
      SilentDoesNotSend(s.nodes[i], s.now, ns);
    } else {
      StaysUnreached(s.nodes[a], s.now, ns);
      if ns.Dispatch? {
        assert forall p :: 0 <= p < |ns.targets| ==> ns.targets[p] in ns.targets;
      }
    }
  }

  lemma SourceSend(s: State, i: nat, a: nat)
    requires WellFormed(s) && Enabled(s, Send(i)) && OnlySource(s, a)
    ensures OnlySource(SendNext(s, i), a)
  {
    assert i == a && Aimed(s.nodes[a].local, a, s.conns);
    hide WellFormed, Enabled;
  }

  lemma SourceGivesUp(s: State, i: nat, a: nat)
    requires WellFormed(s) && Enabled(s, GiveUp(i)) && OnlySource(s, a)
    ensures OnlySource(Next(s, GiveUp(i)), a)
  {
    assert i == a && Aimed(s.nodes[a].local, a, s.conns);
    hide WellFormed;
  }

  lemma SourceEnqueue(s: State, k: nat, a: nat)
    requires WellFormed(s) && Enabled(s, Enqueue(k)) && OnlySource(s, a)
    ensures OnlySource(EnqueueNext(s, k), a)
  {
    assert s.conns[k].src == a && Joins(s.conns[k], |s.nodes|);
  }

  lemma SourceStep(s: State, step: Step, a: nat)
    requires WellFormed(s) && Enabled(s, step) && OnlySource(s, a)
    requires Silent(s, a) && Silent(Next(s, step), a)
    ensures OnlySource(Next(s, step), a)
  {
    match step
    case AtNode(i, ns) => SourceNodeStep(s, i, ns, a);
    case Send(i) => SourceSend(s, i, a);
    case GiveUp(i) => SourceGivesUp(s, i, a);
    case Enqueue(k) => SourceEnqueue(s, k, a);
    case _ =>
  }

  // ---------------------------------------------------------------------------
  // What each step does to the pipeline
  // ---------------------------------------------------------------------------

  lemma ReceiverStep(n: Node, now: nat, ns: NodeStep)
    requires NodeEnabled(n, now, ns)
    ensures Received(NodeNext(n, now, ns)) == Received(n)
  {
    hide Added, Consumed, Matches, Expiring, Shed, ValidText;
    if ns.TakeInbox? {
      assert n.inbox == [n.inbox[0]] + n.inbox[1..];
    }
  }

  /** Without entries screening only tests the size. */
  lemma ScreenOpenly(n: Node, now: nat, c: nat)
    requires n.local.Handling? && n.entries == []
    ensures var r := ScreenNext(n, now);
      && Pending(r, c) == Pending(n, c)
      && r.copied == n.copied && r.limit == n.limit && r.entries == []
  {
    AcceptedOne(n.local.text, n.limit);
    assert Unexpired<Text>([], now) == [];
    hide Accepted;
  }

  /** At the source only new copies change what is pending. */
  lemma SenderStep(n: Node, now: nat, ns: NodeStep, c: nat)
    requires NodeEnabled(n, now, ns) && n.entries == [] && n.writer.WriterIdle? && n.owed == multiset{}
    requires ns.Dispatch? ==> ns.idOk && c in ns.targets
    ensures var r := NodeNext(n, now, ns);
      && Pending(r, c) == Pending(n, c) + (if ns.UserCopy? then Accepted([ns.copy], n.limit) else [])
      && Accepted(r.copied, n.limit)
         == Accepted(n.copied, n.limit) + (if ns.UserCopy? then Accepted([ns.copy], n.limit) else [])
      && r.limit == n.limit
  {
    hide ScreenNext, Accepted, AddNext, UndoNext;
    match ns
    case UserCopy(t) =>
      AcceptedConcat(n.watcher, [t], n.limit);
      AcceptedConcat(n.copied, [t], n.limit);
    case TakeEvent =>
      AcceptedConcat([n.watcher[0]], n.watcher[1..], n.limit);
      assert n.watcher == [n.watcher[0]] + n.watcher[1..];
    case Screen => ScreenOpenly(n, now, c);
    case Dispatch(_, _) =>
    case TakeInbox =>
  }

  /** One select of the fan-out, seen from connection `c`. */
  lemma SendOnPipeline(l: Local, c: Conn, k: nat, limit: nat)
    requires l.Sending? && l.todo != [] && l.todo[0] == k && c.open
    requires forall p, q :: 0 <= p < q < |l.todo| ==> l.todo[p] != l.todo[q]
    requires l.at == At(Deliver) ==> c.out == []
    ensures var r := SendEffect(l, c);
      && Unsent(l, limit, k) == [l.text]
      && ((r.1.out == c.out && Unsent(r.0, limit, k) == [l.text])
          || (r.1.out == [] && Unsent(r.0, limit, k) == [l.text])
          || (c.out == [] && r.1.out == [l.text] && Unsent(r.0, limit, k) == []))
      && r.1 == c.(out := r.1.out)
  {
  }

  lemma SendElsewhere(l: Local, c: Conn, k: nat, limit: nat)
    requires l.Sending? && l.todo != [] && l.todo[0] != k
    requires l.at == At(Deliver) ==> c.out == []
    ensures Unsent(SendEffect(l, c).0, limit, k) == Unsent(l, limit, k)
  {
    assert l.todo == [l.todo[0]] + l.todo[1..];
  }

  lemma NodeStepDelivers(s: State, i: nat, ns: NodeStep, a: nat, b: nat, c: nat)
    requires WellFormed(s) && Enabled(s, AtNode(i, ns)) && OneWay(s, a, b, c) && OnlySource(s, a)
    requires a != b && Delivers(s, a, b, c) && (i == a && ns.Dispatch? ==> ns.idOk)
    ensures Delivers(Next(s, AtNode(i, ns)), a, b, c)
  {
    hide Coalesces, Received, InFlight, Pending, NodeNext;
    var t := Next(s, AtNode(i, ns));
    if i == a {
      var more := if ns.UserCopy? then Accepted([ns.copy], s.nodes[a].limit) else [];
      SenderStep(s.nodes[a], s.now, ns, c);
      assert Pipeline(t, a, b, c) == Pipeline(s, a, b, c) + more;
      if ns.UserCopy? { AcceptedOne(ns.copy, s.nodes[a].limit); }
      AppendBoth(Pipeline(s, a, b, c), Accepted(s.nodes[a].copied, s.nodes[a].limit), more);
    } else if i == b {
      ReceiverStep(s.nodes[b], s.now, ns);
    }
  }

  /** Handing a text from one stage to the next leaves the pipeline as it was. */
  lemma Handover<T>(x: seq<T>, e: T, y: seq<T>)
    ensures (x + [e]) + y == (x + []) + ([e] + y)
  {
  }

  function Arriving(c: Conn): seq<Text> {
    (if c.reader.Enqueuing? then [c.reader.text] else []) + c.link + c.sending
  }

  lemma SplitPipeline(s: State, a: nat, b: nat, c: nat)
    requires a < |s.nodes| && b < |s.nodes| && c < |s.conns|
    ensures Pipeline(s, a, b, c)
         == Received(s.nodes[b]) + Arriving(s.conns[c]) + s.conns[c].out
            + (Unsent(s.nodes[a].local, s.nodes[a].limit, c) + Accepted(s.nodes[a].watcher, s.nodes[a].limit))
  {
    hide Received, Accepted, Unsent;
  }

  lemma SendDelivers(s: State, i: nat, a: nat, b: nat, c: nat)
    requires WellFormed(s) && Enabled(s, Send(i)) && OneWay(s, a, b, c) && OnlySource(s, a)
    requires a != b && Delivers(s, a, b, c)
    ensures Delivers(SendNext(s, i), a, b, c)
  {
    hide Coalesces, SendEffect, Received, Unsent, Accepted, Arriving;
    var n, m, q := s.nodes[a], s.conns[c], Accepted(s.nodes[a].copied, s.nodes[a].limit);
    var k := n.local.todo[0];
    var t := SendNext(s, i);
    assert i == a && t.nodes[b] == s.nodes[b];
    if k == c {
      SendOnPipeline(n.local, m, c, n.limit);
      var x, w := Received(s.nodes[b]) + Arriving(m), Accepted(n.watcher, n.limit);
      SplitPipeline(s, a, b, c);
      SplitPipeline(t, a, b, c);
      assert Arriving(t.conns[c]) == Arriving(m) by { ArrivingIgnoresOut(m, t.conns[c].out); }
      hide Pipeline;
      DropOvertaken(x, m.out, [n.local.text] + w, q);
      Handover(x, n.local.text, w);
      assert x + [] == x && [] + w == w;
    } else {
      SendElsewhere(n.local, s.conns[k], c, n.limit);
    }
  }

  lemma AdvanceElsewhere(l: Local, k: nat, limit: nat)
    requires l.Sending? && l.todo != [] && l.todo[0] != k
    ensures Unsent(Advance(l), limit, k) == Unsent(l, limit, k)
  {
    assert l.todo == [l.todo[0]] + l.todo[1..];
  }

  /** Only a closed connection is given up, so not the one that stays up. */
  lemma GiveUpDelivers(s: State, i: nat, a: nat, b: nat, c: nat)
    requires WellFormed(s) && Enabled(s, GiveUp(i)) && OneWay(s, a, b, c) && OnlySource(s, a)
    requires a != b && Delivers(s, a, b, c)
    ensures Delivers(Next(s, GiveUp(i)), a, b, c)
  {
    hide Coalesces, Received, Unsent, Accepted, Arriving;
    var n, t := s.nodes[a], Next(s, GiveUp(i));
    assert i == a && Aimed(n.local, a, s.conns) && t.nodes[b] == s.nodes[b];
    AdvanceElsewhere(n.local, c, n.limit);
    SplitPipeline(s, a, b, c);
    SplitPipeline(t, a, b, c);
    hide Pipeline, Advance;
  }

  lemma ArrivingIgnoresOut(c: Conn, out: seq<Text>)
    ensures Arriving(c.(out := out)) == Arriving(c)
  {
  }

  /** One select of the inbound enqueue, seen from the pipeline. */
  lemma EnqueueOnPipeline(r: Reader, inbox: seq<Text>)
    requires r.Enqueuing? && (r.stage == Deliver ==> inbox == [])
    ensures var e := EnqueueEffect(r, inbox);
      || (e.1 == inbox && e.0.Enqueuing? && e.0.text == r.text)
      || (e.1 == [] && e.0.Enqueuing? && e.0.text == r.text)
      || (inbox == [] && e == (ReaderIdle, [r.text]))
  {
  }

  /** What the receiver has handed to its clipboard or is about to. */
  function Writes(n: Node): seq<Text> {
    n.written + if n.writer.Taken? then [n.writer.text] else []
  }

  lemma SplitAtInbox(s: State, a: nat, b: nat, c: nat)
    requires a < |s.nodes| && b < |s.nodes| && c < |s.conns|
    ensures var m := s.conns[c];
      Pipeline(s, a, b, c)
         == Writes(s.nodes[b]) + s.nodes[b].inbox
            + ((if m.reader.Enqueuing? then [m.reader.text] else [])
               + (m.link + m.sending + m.out + Pending(s.nodes[a], c)))
  {
    hide Pending;
  }

  lemma EnqueueDelivers(s: State, k: nat, a: nat, b: nat, c: nat)
    requires WellFormed(s) && Enabled(s, Enqueue(k)) && OneWay(s, a, b, c) && OnlySource(s, a)
    requires a != b && Delivers(s, a, b, c)
    ensures Delivers(EnqueueNext(s, k), a, b, c)
  {
    hide Coalesces, Pending, EnqueueEffect, Writes, Accepted;
    var t := EnqueueNext(s, k);
    assert s.conns[k].src == a && Joins(s.conns[k], |s.nodes|);
    if k == c {
      var n, m, q := s.nodes[b], s.conns[c], Accepted(s.nodes[a].copied, s.nodes[a].limit);
      EnqueueOnPipeline(m.reader, n.inbox);
      SplitAtInbox(s, a, b, c);
      SplitAtInbox(t, a, b, c);
      assert Writes(t.nodes[b]) == Writes(n) by { WritesIgnoreInbox(n, t.nodes[b].inbox); }
      hide Pipeline;
      var x, y := Writes(n), m.link + m.sending + m.out + Pending(s.nodes[a], c);
      DropOvertaken(x, n.inbox, [m.reader.text] + y, q);
      Handover(x, m.reader.text, y);
      assert x + [] == x && [] + y == y;
    }
  }

  lemma WritesIgnoreInbox(n: Node, inbox: seq<Text>)
    ensures Writes(n.(inbox := inbox)) == Writes(n)
  {
  }

  /** Everything in flight was accepted by the sender, hence is by the receiver. */
  lemma LinkHeadAccepted(s: State, a: nat, b: nat, c: nat)
    requires OneWay(s, a, b, c) && Delivers(s, a, b, c) && s.conns[c].link != []
    ensures ValidText(s.conns[c].link[0], s.nodes[b].limit)
  {
    hide Received, Pending, Subsequence, Accepted;
    var t := s.conns[c].link[0];
    assert t in InFlight(s.conns[c]);
    assert t in Pipeline(s, a, b, c);
    SubsequenceMembers(Pipeline(s, a, b, c), Accepted(s.nodes[a].copied, s.nodes[a].limit), t);
    AcceptedAreValid(s.nodes[a].copied, s.nodes[a].limit, t);
  }

  /** The steps that end a connection, or a part of it. */
  predicate Cuts(step: Step) {
    step.Close? || step.Break? || step.StopWriter? || step.StopReader?
  }

  lemma ConnStepDelivers(s: State, step: Step, a: nat, b: nat, c: nat)
    requires WellFormed(s) && Enabled(s, step) && OneWay(s, a, b, c) && Delivers(s, a, b, c)
    requires step.Tick? || step.Connect? || (Cuts(step) && step.k != c)
          || step.WriterTake? || step.Transmit? || step.Receive?
    ensures Delivers(Next(s, step), a, b, c)
  {
    hide Coalesces, Received, Pending, InFlight, ValidText;
    var t := Next(s, step);
    assert t.nodes == s.nodes;
    if step == Receive(c) {
      LinkHeadAccepted(s, a, b, c);
      ReceiveMoves(s.conns[c]);
    } else if step == WriterTake(c) {
      TakeMoves(s.conns[c]);
    } else if step == Transmit(c) {
      TransmitMoves(s.conns[c]);
    }
    assert InFlight(t.conns[c]) == InFlight(s.conns[c]);
    hide Next;
  }

  // The moves inside a connection.

  lemma ReceiveMoves(m: Conn)
    requires m.reader.ReaderIdle? && m.link != []
    ensures InFlight(m.(link := m.link[1..], reader := Enqueuing(m.link[0], Offer))) == InFlight(m)
  {
    assert m.link == [m.link[0]] + m.link[1..];
  }

  lemma TakeMoves(m: Conn)
    requires m.sending == []
    ensures InFlight(m.(sending := m.out, out := [])) == InFlight(m)
  {
  }

  lemma TransmitMoves(m: Conn)
    ensures InFlight(m.(link := m.link + m.sending, sending := [])) == InFlight(m)
  {
  }

  lemma StepDelivers(s: State, step: Step, a: nat, b: nat, c: nat)
    requires WellFormed(s) && Enabled(s, step) && OneWay(s, a, b, c) && OnlySource(s, a)
    requires a != b && Delivers(s, a, b, c)
    requires Named(step, a) && (Cuts(step) ==> step.k != c)
    ensures Delivers(Next(s, step), a, b, c)
  {
    hide Delivers, OneWay, OnlySource, WellFormed;
    match step
    case AtNode(i, ns) => NodeStepDelivers(s, i, ns, a, b, c);
    case Send(i) => SendDelivers(s, i, a, b, c);
    case GiveUp(i) => GiveUpDelivers(s, i, a, b, c);
    case Enqueue(k) => EnqueueDelivers(s, k, a, b, c);
    case _ => ConnStepDelivers(s, step, a, b, c);
  }

  // ---------------------------------------------------------------------------
  // What the clipboard took
  // ---------------------------------------------------------------------------

  /** The writes that have ended. */
  function Finished(n: Node): seq<Text> {
    if n.writer.Writing? && n.written != [] then n.written[..|n.written| - 1] else n.written
  }

  /** The clipboard took some of the writes, and the latest unless that one failed. */
  ghost predicate Filed(n: Node) {
    && (n.writer.Writing? ==> n.written != [] && n.written[|n.written| - 1] == n.writer.text)
    && Subsequence(n.stored, Finished(n))
    && (!n.refused ==> Coalesces(n.stored, Finished(n)))
  }

  lemma WriteFiles(n: Node, now: nat)
    requires Filed(n) && n.writer.Writing?
    ensures Filed(NodeNext(n, now, WriteOk)) && (!n.writer.echoed ==> Filed(NodeNext(n, now, WriteFails)))
  {
    var done, x := Finished(n), n.writer.text;
    assert n.written == done + [x];
    TakeBoth(n.stored, done, x);
    Widen(n.stored, done, n.written);
    hide Subsequence;
  }

  lemma NodeFiles(n: Node, now: nat, ns: NodeStep)
    requires Filed(n) && NodeEnabled(n, now, ns)
    ensures Filed(NodeNext(n, now, ns))
  {
    hide Coalesces, Subsequence, Added, Shed, Consumed, Matches, Expiring, ValidText;
    match ns
    case WriteOk => WriteFiles(n, now);
    case WriteFails => WriteFiles(n, now);
    case AddEntry(addAt) => assert (n.written + [n.writer.text])[..|n.written|] == n.written;
    case _ =>
  }

  lemma StepFiles(s: State, step: Step, i: nat)
    requires WellFormed(s) && Enabled(s, step) && i < |s.nodes| && Filed(s.nodes[i])
    ensures Filed(Next(s, step).nodes[i])
  {
    match step
    case AtNode(j, ns) =>
      hide NodeNext, Filed;
      if i == j { NodeFiles(s.nodes[i], s.now, ns); }
    case Send(j) => assert Next(s, step) == SendNext(s, j);
    case Enqueue(k) => assert Next(s, step) == EnqueueNext(s, k);
    case _ =>
  }

  /** At every daemon in every run. */
  lemma {:induction false} RunsFile(states: seq<State>, steps: seq<Step>, j: nat, i: nat)
    requires Run(states, steps) && j < |states| && i < |states[j].nodes|
    ensures Filed(states[j].nodes[i])
  {
    if j == 0 {
      assert FreshNode(states[0].nodes[i]);
    } else {
      var p := j - 1;
      assert Took(states[p], steps[p], states[p + 1]);
      ShapeIsKept(states[p], steps[p]);
      hide Filed, Enabled, WellFormed, Next, Init;
      RunsFile(states, steps, p, i);
      StepFiles(states[p], steps[p], i);
    }
  }

  // ---------------------------------------------------------------------------
  // Whole runs
  // ---------------------------------------------------------------------------

  /** The step is not a failure of `a` to make an event ID. */
  predicate Named(step: Step, a: nat) {
    !(step.AtNode? && step.i == a && step.step.Dispatch? && !step.step.idOk)
  }

  ghost predicate OneWayRun(states: seq<State>, steps: seq<Step>, a: nat, b: nat, c: nat) {
    && Run(states, steps)
    && (forall j :: 0 <= j < |states| ==> OneWay(states[j], a, b, c))
    && (forall j :: 0 <= j < |steps| ==> Named(steps[j], a))
  }

  lemma OthersAreSilent(states: seq<State>, steps: seq<Step>, a: nat, b: nat, c: nat, j: nat)
    requires OneWayRun(states, steps, a, b, c) && j < |states|
    ensures Silent(states[j], a)
  {
    assert OneWay(states[j], a, b, c);
    forall i | 0 <= i < |states[j].nodes| && i != a
      ensures states[j].nodes[i].broadcast == multiset{}
    {
      EchoBound(states, steps, j, i);
      assert |states[j].nodes[i].broadcast| == 0;
    }
  }

  lemma StartDelivers(s: State, a: nat, b: nat, c: nat)
    requires Init(s) && OneWay(s, a, b, c)
    ensures OnlySource(s, a) && Delivers(s, a, b, c)
  {
    assert FreshNode(s.nodes[a]) && FreshNode(s.nodes[b]) && Clean(s.conns[c]);
    assert Pipeline(s, a, b, c) == [];
  }

  lemma StaysOpen(s: State, step: Step, c: nat)
    requires WellFormed(s) && Enabled(s, step) && c < |s.conns| && c < |Next(s, step).conns|
    requires Up(s.conns[c]) && Up(Next(s, step).conns[c])
    ensures Cuts(step) ==> step.k != c
  {
  }

  lemma {:induction false} RunsDeliver(
    states: seq<State>, steps: seq<Step>, a: nat, b: nat, c: nat, j: nat)
    requires OneWayRun(states, steps, a, b, c) && j < |states|
    ensures OneWay(states[j], a, b, c) && OnlySource(states[j], a) && Delivers(states[j], a, b, c)
  {
    hide Delivers, OnlySource, Init, Enabled, Next, Silent;
    assert OneWay(states[0], a, b, c) && OneWay(states[j], a, b, c);
    if j == 0 {
      StartDelivers(states[0], a, b, c);
    } else {
      var p := j - 1;
      RunsDeliver(states, steps, a, b, c, p);
      assert OneWay(states[p], a, b, c) && Named(steps[p], a);
      assert Took(states[p], steps[p], states[p + 1]);
      OthersAreSilent(states, steps, a, b, c, p);
      OthersAreSilent(states, steps, a, b, c, j);
      assert Joins(states[p].conns[c], |states[p].nodes|);
      StaysOpen(states[p], steps[p], c);
      SourceStep(states[p], steps[p], a);
      StepDelivers(states[p], steps[p], a, b, c);
    }
  }

  /** The peer's clipboard is handed nothing out of order and nothing not copied. */
  lemma WritesFollowCopies(states: seq<State>, steps: seq<Step>, a: nat, b: nat, c: nat, j: nat)
    requires OneWayRun(states, steps, a, b, c) && j < |states|
    ensures b < |states[j].nodes| && a < |states[j].nodes|
    ensures Subsequence(states[j].nodes[b].written,
                        Accepted(states[j].nodes[a].copied, states[j].nodes[a].limit))
  {
    hide Subsequence, OnlySource, OneWayRun, Pending, InFlight;
    RunsDeliver(states, steps, a, b, c, j);
    var s := states[j];
    var n := s.nodes[b];
    var rest := (if n.writer.Taken? then [n.writer.text] else []) + n.inbox + InFlight(s.conns[c])
      + Pending(s.nodes[a], c);
    assert Pipeline(s, a, b, c) == n.written + rest;
    SubsequencePrefix(n.written, rest, Accepted(s.nodes[a].copied, s.nodes[a].limit));
  }

  /** When no message can move any more, the last text handed to the peer's clipboard
      is the last valid text the user copied, whatever was coalesced on the way; and
      unless that last write failed, it is what the clipboard holds. */
  lemma LastValueArrives(states: seq<State>, steps: seq<Step>, a: nat, b: nat, c: nat, j: nat)
    requires OneWayRun(states, steps, a, b, c) && j < |states|
    requires WellFormed(states[j]) && forall step :: Moves(step) ==> !Enabled(states[j], step)
    ensures b < |states[j].nodes| && a < |states[j].nodes|
    ensures var n, copies := states[j].nodes[b], Accepted(states[j].nodes[a].copied, states[j].nodes[a].limit);
      && Coalesces(n.written, copies)
      && (!n.refused ==> Coalesces(n.stored, copies))
  {
    var s := states[j];
    if !Drained(s) {
      NoDeadlock(s);
    }
    RunsDeliver(states, steps, a, b, c, j);
    var n, copies := s.nodes[b], Accepted(s.nodes[a].copied, s.nodes[a].limit);
    hide OnlySource, Run, Drained, Enabled, Accepted, WellFormed, Moves, Coalesces;
    DrainedPipeline(s, a, b, c);
    RunsFile(states, steps, j, b);
    hide OneWay, Pipeline, OneWayRun;
    if !n.refused { FiledCoalesces(n, copies); }
  }

  lemma DrainedPipeline(s: State, a: nat, b: nat, c: nat)
    requires OneWay(s, a, b, c) && Drained(s)
    ensures Pipeline(s, a, b, c) == s.nodes[b].written && s.nodes[b].writer.WriterIdle?
  {
    assert NodeDrained(s.nodes[a]) && NodeDrained(s.nodes[b]) && ConnDrained(s.conns[c]);
  }

  lemma FiledCoalesces(n: Node, copies: seq<Text>)
    requires Filed(n) && n.writer.WriterIdle? && !n.refused && Coalesces(n.written, copies)
    ensures Coalesces(n.stored, copies)
  {
    hide Subsequence;
    SubsequenceTransitive(n.stored, n.written, copies);
  }

  // ---------------------------------------------------------------------------
  // Delivery in bounded work
  // ---------------------------------------------------------------------------

  /** Between two states nobody copies and no connection is added. */
  ghost predicate Quiet(steps: seq<Step>, first: nat, last: nat)
    requires first <= last <= |steps|
  {
    forall j :: first <= j < last ==> Internal(steps[j]) || steps[j].Tick?
  }

  lemma NodeKeepsCopies(n: Node, now: nat, ns: NodeStep)
    requires NodeEnabled(n, now, ns) && !ns.UserCopy?
    ensures NodeNext(n, now, ns).copied == n.copied && NodeNext(n, now, ns).limit == n.limit
  {
    hide Added, Shed, Consumed, Matches, Expiring, ValidText;
  }

  lemma StepKeepsCopies(s: State, step: Step, i: nat)
    requires WellFormed(s) && Enabled(s, step) && i < |s.nodes| && (Internal(step) || step.Tick?)
    ensures var t := Next(s, step);
      i < |t.nodes| && t.nodes[i].copied == s.nodes[i].copied && t.nodes[i].limit == s.nodes[i].limit
  {
    match step
    case AtNode(j, ns) =>
      hide NodeNext;
      if i == j { NodeKeepsCopies(s.nodes[i], s.now, ns); }
    case Send(j) => assert Next(s, step) == SendNext(s, j);
    case Enqueue(k) => assert Next(s, step) == EnqueueNext(s, k);
    case _ =>
  }

  lemma {:induction false} QuietKeepsCopies(states: seq<State>, steps: seq<Step>, first: nat, last: nat, i: nat)
    requires Run(states, steps) && first <= last < |states| && Quiet(steps, first, last)
    requires i < |states[first].nodes|
    ensures i < |states[last].nodes|
    ensures states[last].nodes[i].copied == states[first].nodes[i].copied
    ensures states[last].nodes[i].limit == states[first].nodes[i].limit
    decreases last
  {
    if first < last {
      var j := last - 1;
      hide Init, WellFormed, Enabled, Next, Internal;
      QuietKeepsCopies(states, steps, first, j, i);
      assert Took(states[j], steps[j], states[j + 1]);
      StepKeepsCopies(states[j], steps[j], i);
    }
  }

  lemma QuietSettles(states: seq<State>, steps: seq<Step>, a: nat, b: nat, c: nat, first: nat, last: nat)
    requires OneWayRun(states, steps, a, b, c) && first <= last < |states| && Quiet(steps, first, last)
    ensures Settling(states, steps, first, last)
  {
    forall j | first <= j < last ensures Settles(states[j], steps[j], states[j + 1]) {
      assert OneWay(states[j], a, b, c) && OneWay(states[j + 1], a, b, c);
      assert Took(states[j], steps[j], states[j + 1]);
      ShapeIsKept(states[j], steps[j]);
      hide Next, Enabled, WellFormed, Internal;
    }
  }

  /** After the last copy of a burst, work that only stops when nothing can move stops
      within the weight of the state at that copy, and has then handed the peer's
      clipboard that copy last. */
  lemma LastValueArrivesInTime(
    states: seq<State>, steps: seq<Step>, a: nat, b: nat, c: nat, first: nat, last: nat)
    requires OneWayRun(states, steps, a, b, c) && first <= last < |states| && Quiet(steps, first, last)
    requires WellFormed(states[last]) && forall step :: Moves(step) ==> !Enabled(states[last], step)
    ensures InternalSteps(steps, first, last) <= Weight(states[first])
    ensures a < |states[first].nodes| && b < |states[last].nodes|
    ensures
      var n, m := states[last].nodes[b], states[first].nodes[a];
      var copies := Accepted(m.copied, m.limit);
      && Coalesces(n.written, copies)
      && (!n.refused ==> Coalesces(n.stored, copies))
  {
    hide Coalesces, Accepted, Weight, InternalSteps, Enabled, Moves;
    assert OneWay(states[first], a, b, c);
    QuietSettles(states, steps, a, b, c, first, last);
    Quiesces(states, steps, first, last);
    QuietKeepsCopies(states, steps, first, last, a);
    LastValueArrives(states, steps, a, b, c, last);
  }

  /** And until then some message can always move. */
  lemma WorkGoesOn(states: seq<State>, steps: seq<Step>, a: nat, b: nat, c: nat, j: nat)
    requires OneWayRun(states, steps, a, b, c) && j < |states| && WellFormed(states[j])
    requires var s := states[j];
      a < |s.nodes| && b < |s.nodes| && !Coalesces(s.nodes[b].written, Accepted(s.nodes[a].copied, s.nodes[a].limit))
    ensures exists step :: Moves(step) && Enabled(states[j], step)
  {
    hide Coalesces, Accepted, Enabled, Moves;
    if forall step :: Moves(step) ==> !Enabled(states[j], step) {
      LastValueArrives(states, steps, a, b, c, j);
    }
  }
}
