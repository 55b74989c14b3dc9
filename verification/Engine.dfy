// The clipboard synchronisation engine of internal/daemon/daemon.go, for any
// number of daemons, as a system of atomic steps.
//
// Every receive, every send, every `select` and every locked operation of the
// event loops is one step, so the steps of different goroutines interleave
// freely.  A step may also take in what its goroutine does next without sharing
// it with another: making an event ID, testing a text.  Each daemon also keeps
// the books that the theorems speak about: what its user copied, what it
// broadcast, which suppression entries it lost.
module Engine {
  import opened Suppression
  import opened Channel

  newtype byte = x: int | 0 <= x < 256
  type Text = seq<byte>

  // Nanoseconds, the argument of NewSuppressor in New.
  const SUPPRESSION_TTL: nat := 5_000_000_000

  // ---------------------------------------------------------------------------
  // One daemon
  // ---------------------------------------------------------------------------

  /** Where enqueuePeer is: the test of `done`, then its three selects. */
  datatype SendStage = Check | At(stage: Stage)

  /** localLoop: waiting, holding an event, holding one that was not suppressed, or
      fanning it out to `todo`. */
  datatype Local =
    | LocalIdle
    | Handling(text: Text)
    | Passed(text: Text)
    | Sending(text: Text, todo: seq<nat>, at: SendStage)

  /** clipboardWriteLoop.  `echoed`: the watcher has already reported this write. */
  datatype Writer =
    | WriterIdle
    | Taken(text: Text)
    | Writing(text: Text, echoed: bool)
    | Failed(text: Text)

  datatype Node = Node(
    limit: nat,                    // MaxClipboardBytes
    watcher: seq<Text>,            // events channel
    local: Local,
    entries: seq<Entry<Text>>,     // the suppressor
    inbox: seq<Text>,              // clipWrites, capacity 1
    writer: Writer,
    owed: multiset<Text>,          // successful writes the watcher may still report
    // the books
    copied: seq<Text>,             // what the user copied
    broadcast: multiset<Text>,     // events sent on to the peers
    written: seq<Text>,            // what was handed to the system clipboard
    stored: seq<Text>,             // what it took, writes that failed left out
    refused: bool,                 // the latest write to end failed
    lost: multiset<Text>,          // suppression entries that expired or were evicted
    ignored: multiset<Text>,       // events dropped as empty, oversized or unnameable
    missed: multiset<Text>)        // failed writes that found no entry to take back

  datatype NodeStep =
    | UserCopy(copy: Text)
    | TakeEvent
    | Screen
    | Dispatch(idOk: bool, targets: seq<nat>)
    | TakeInbox
    | AddEntry(addAt: nat)
    | EchoEarly
    | WriteOk
    | WriteFails
    | UndoEntry
    | EchoLate(echo: Text)

  predicate ValidText(t: Text, limit: nat) {
    t != [] && |t| <= limit
  }

  predicate NodeEnabled(n: Node, now: nat, step: NodeStep) {
    match step
    case UserCopy(_) => true
    case TakeEvent => n.local.LocalIdle? && n.watcher != []
    case Screen => n.local.Handling?
    case Dispatch(_, _) => n.local.Passed?
    case TakeInbox => n.writer.WriterIdle? && n.inbox != []
    case AddEntry(addAt) => n.writer.Taken? && now <= addAt
    case EchoEarly => n.writer.Writing? && !n.writer.echoed
    case WriteOk => n.writer.Writing?
    case WriteFails => n.writer.Writing? && !n.writer.echoed
    case UndoEntry => n.writer.Failed?
    case EchoLate(t) => t in n.owed
  }

  function NodeNext(n: Node, now: nat, step: NodeStep): Node
    requires NodeEnabled(n, now, step)
  {
    match step
    case UserCopy(t) =>
      n.(watcher := n.watcher + [t], copied := n.copied + [t])
    case TakeEvent =>
      n.(watcher := n.watcher[1..], local := Handling(n.watcher[0]))
    case Screen => ScreenNext(n, now)
    case Dispatch(idOk, targets) =>
      var t := n.local.text;
      if !idOk then n.(local := LocalIdle, ignored := n.ignored + multiset{t})
      else
        n.(broadcast := n.broadcast + multiset{t},
           local := if targets == [] then LocalIdle else Sending(t, targets, Check))
    case TakeInbox =>
      n.(inbox := n.inbox[1..], writer := Taken(n.inbox[0]))
    case AddEntry(addAt) => AddNext(n, now, addAt)
    case EchoEarly =>
      n.(watcher := n.watcher + [n.writer.text], writer := Writing(n.writer.text, true))
    case WriteOk =>
      n.(writer := WriterIdle, owed := if n.writer.echoed then n.owed else n.owed + multiset{n.writer.text},
         stored := n.stored + [n.writer.text], refused := false)
    case WriteFails =>
      n.(writer := Failed(n.writer.text), refused := true)
    case UndoEntry => UndoNext(n, now)
    case EchoLate(t) =>
      n.(watcher := n.watcher + [t], owed := n.owed - multiset{t})
  }

  /** localLoop's tests of one event: its size, then the suppressor. */
  function ScreenNext(n: Node, now: nat): Node
    requires n.local.Handling?
  {
    var t := n.local.text;
    if !ValidText(t, n.limit) then
      n.(local := LocalIdle, ignored := n.ignored + multiset{t})
    else
      n.(entries := Consumed(n.entries, t, now), lost := n.lost + Expiring(n.entries, now),
         local := if Matches(n.entries, t, now) then LocalIdle else Passed(t))
  }

  /** clipboardWriteLoop's Add, after which it starts the write. */
  function AddNext(n: Node, now: nat, addAt: nat): Node
    requires n.writer.Taken?
  {
    var t := n.writer.text;
    n.(entries := Added(n.entries, now, Entry("", t, addAt + SUPPRESSION_TTL)),
       lost := n.lost + Shed(n.entries, now), writer := Writing(t, false), written := n.written + [t])
  }

  /** clipboardWriteLoop's Consume, after a write that failed. */
  function UndoNext(n: Node, now: nat): Node
    requires n.writer.Failed?
  {
    var t := n.writer.text;
    n.(entries := Consumed(n.entries, t, now), lost := n.lost + Expiring(n.entries, now), writer := WriterIdle,
       missed := n.missed + if Matches(n.entries, t, now) then multiset{} else multiset{t})
  }

  function Hashes(s: seq<Entry<Text>>): seq<Text> {
    seq(|s|, i requires 0 <= i < |s| => s[i].hash)
  }

  function Texts(s: seq<Entry<Text>>): multiset<Text> {
    multiset(Hashes(s))
  }

  /** The entries that pruning at `now` removes. */
  function Expiring(s: seq<Entry<Text>>, now: nat): multiset<Text> {
    Texts(s) - Texts(Unexpired(s, now))
  }

  /** The entries that making room for one more at `now` removes. */
  function Shed(s: seq<Entry<Text>>, now: nat): multiset<Text> {
    Texts(s) - Texts(Trimmed(Unexpired(s, now)))
  }

  predicate FreshNode(n: Node) {
    && n.watcher == n.inbox == n.copied == n.written == n.stored == [] && n.entries == [] && !n.refused
    && n.local == LocalIdle && n.writer == WriterIdle
    && n.owed == n.broadcast == n.lost == n.ignored == n.missed == multiset{}
  }

  // ---------------------------------------------------------------------------
  // Connections and the whole system
  // ---------------------------------------------------------------------------

  /** The reader goroutine, which ends at an error or at one frame too many. */
  datatype Reader = ReaderIdle | Enqueuing(text: Text, stage: Stage) | ReaderGone

  /** One direction of a connection: the sender's queue and write loop, the
      bytes in flight, and the reader goroutine at the other end. */
  datatype Conn = Conn(
    src: nat,
    dst: nat,
    open: bool,                 // in the sender's `conns`, `done` not closed
    stopped: bool,              // writeLoop has returned
    out: seq<Text>,             // capacity 1
    sending: seq<Text>,         // at most one message, held by writeLoop
    link: seq<Text>,
    reader: Reader)

  datatype State = State(now: nat, nodes: seq<Node>, conns: seq<Conn>)

  datatype Step =
    | Tick(d: nat)
    | Connect(src: nat, dst: nat)
    | Close(k: nat)               // `done` is closed
    | StopWriter(k: nat)          // writeLoop returns: a send failed, or `done` was closed
    | StopReader(k: nat)
    | Break(k: nat, keep: nat)    // the socket is closed and loses what was in flight
    | AtNode(i: nat, step: NodeStep)
    | Send(i: nat)
    | GiveUp(i: nat)              // the last select of enqueuePeer takes the closed `done`
    | WriterTake(k: nat)
    | Transmit(k: nat)
    | Receive(k: nat)
    | Enqueue(k: nat)

  predicate Clean(c: Conn) {
    c.out == c.sending == c.link == [] && !c.reader.Enqueuing?
  }

  /** The connections still to be served exist and are the daemon's own. */
  ghost predicate Owns(todo: seq<nat>, i: nat, conns: seq<Conn>) {
    forall p :: 0 <= p < |todo| ==> todo[p] < |conns| && conns[todo[p]].src == i
  }

  /** localLoop serves connections of its daemon; as their only producer it finds
      the queue empty when it gets to its last select. */
  ghost predicate Aimed(l: Local, i: nat, conns: seq<Conn>) {
    l.Sending? ==>
      && l.todo != [] && Owns(l.todo, i, conns)
      && (l.at == At(Deliver) ==> conns[l.todo[0]].out == [])
  }

  ghost predicate Joins(c: Conn, nodes: nat) {
    c.src < nodes && c.dst < nodes && c.src != c.dst
  }

  ghost predicate WellFormed(s: State) {
    && (forall k :: 0 <= k < |s.conns| ==> Joins(s.conns[k], |s.nodes|))
    && (forall i :: 0 <= i < |s.nodes| ==> Aimed(s.nodes[i].local, i, s.conns))
  }

  ghost predicate Init(s: State) {
    && WellFormed(s)
    && (forall i :: 0 <= i < |s.nodes| ==> FreshNode(s.nodes[i]))
    && (forall k :: 0 <= k < |s.conns| ==> Clean(s.conns[k]))
  }

  /** localLoop's copy of `conns`: the open ones of node `i`, in some order. */
  ghost predicate Snapshot(s: State, i: nat, targets: seq<nat>) {
    && (forall k: nat :: k in targets <==> k < |s.conns| && s.conns[k].src == i && s.conns[k].open)
    && (forall p, q :: 0 <= p < q < |targets| ==> targets[p] != targets[q])
  }

  ghost predicate Enabled(s: State, step: Step)
    requires WellFormed(s)
  {
    match step
    case Tick(_) => true
    case Connect(src, dst) => src < |s.nodes| && dst < |s.nodes| && src != dst
    case Close(k) => k < |s.conns| && s.conns[k].open
    case StopWriter(k) => k < |s.conns| && !s.conns[k].stopped
    case StopReader(k) => k < |s.conns| && s.conns[k].reader.ReaderIdle?
    case Break(k, keep) =>
      k < |s.conns| && (s.conns[k].stopped || !s.conns[k].open) && keep < |s.conns[k].link|
    case AtNode(i, ns) =>
      && i < |s.nodes| && NodeEnabled(s.nodes[i], s.now, ns)
      && (ns.Dispatch? ==> Snapshot(s, i, ns.targets))
    case Send(i) =>
      && i < |s.nodes| && s.nodes[i].local.Sending?
      && (s.nodes[i].local.at == At(Deliver) ==> s.conns[s.nodes[i].local.todo[0]].out == [])
    case GiveUp(i) =>
      && i < |s.nodes| && s.nodes[i].local.Sending?
      && s.nodes[i].local.at == At(Deliver) && !s.conns[s.nodes[i].local.todo[0]].open
    case WriterTake(k) => k < |s.conns| && !s.conns[k].stopped && s.conns[k].sending == [] && s.conns[k].out != []
    case Transmit(k) => k < |s.conns| && !s.conns[k].stopped && s.conns[k].sending != []
    case Receive(k) => k < |s.conns| && s.conns[k].reader.ReaderIdle? && s.conns[k].link != []
    case Enqueue(k) =>
      && k < |s.conns| && s.conns[k].reader.Enqueuing?
      && (s.conns[k].reader.stage == Deliver ==> s.nodes[s.conns[k].dst].inbox == [])
  }

  function Next(s: State, step: Step): State
    requires WellFormed(s) && Enabled(s, step)
  {
    match step
    case Tick(d) => s.(now := s.now + d)
    case Connect(src, dst) => s.(conns := s.conns + [Conn(src, dst, true, false, [], [], [], ReaderIdle)])
    case Close(k) => WithConn(s, k, s.conns[k].(open := false))
    case StopWriter(k) => WithConn(s, k, s.conns[k].(stopped := true, sending := []))
    case StopReader(k) => WithConn(s, k, s.conns[k].(reader := ReaderGone))
    case Break(k, keep) => WithConn(s, k, s.conns[k].(link := s.conns[k].link[..keep]))
    case AtNode(i, ns) =>
      var t := s.(nodes := s.nodes[i := NodeNext(s.nodes[i], s.now, ns)]);
      if ns.AddEntry? then t.(now := ns.addAt) else t
    case Send(i) => SendNext(s, i)
    case GiveUp(i) =>
      assert Aimed(s.nodes[i].local, i, s.conns);
      WithLocal(s, i, Advance(s.nodes[i].local))
    case WriterTake(k) => WithConn(s, k, s.conns[k].(sending := s.conns[k].out, out := []))
    case Transmit(k) => WithConn(s, k, s.conns[k].(link := s.conns[k].link + s.conns[k].sending, sending := []))
    case Receive(k) =>
      var c := s.conns[k];
      var t := c.link[0];
      WithConn(s, k, c.(link := c.link[1..],
        reader := if ValidText(t, s.nodes[c.dst].limit) then Enqueuing(t, Offer) else ReaderIdle))
    case Enqueue(k) => EnqueueNext(s, k)
  }

  function WithConn(s: State, k: nat, c: Conn): State
    requires k < |s.conns|
  {
    s.(conns := s.conns[k := c])
  }

  function WithLocal(s: State, i: nat, l: Local): State
    requires i < |s.nodes|
  {
    s.(nodes := s.nodes[i := s.nodes[i].(local := l)])
  }

  function WithInbox(s: State, i: nat, inbox: seq<Text>): State
    requires i < |s.nodes|
  {
    s.(nodes := s.nodes[i := s.nodes[i].(inbox := inbox)])
  }

  function Advance(l: Local): Local
    requires l.Sending? && l.todo != []
  {
    if |l.todo| == 1 then LocalIdle else Sending(l.text, l.todo[1..], Check)
  }

  /** One select of enqueuePeer, on the loop and the connection it serves. */
  function SendEffect(l: Local, c: Conn): (Local, Conn)
    requires l.Sending? && l.todo != []
    requires l.at == At(Deliver) ==> c.out == []
  {
    match l.at
    case Check => (if c.open then l.(at := At(Offer)) else Advance(l), c)
    case At(stage) =>
      var r := PutSelect(stage, l.text, c.out);
      (if r.0.Done? then Advance(l) else l.(at := At(r.0.stage)), c.(out := r.1))
  }

  function SendNext(s: State, i: nat): State
    requires WellFormed(s) && Enabled(s, Send(i))
  {
    assert Aimed(s.nodes[i].local, i, s.conns);
    var k := s.nodes[i].local.todo[0];
    var r := SendEffect(s.nodes[i].local, s.conns[k]);
    WithConn(WithLocal(s, i, r.0), k, r.1)
  }

  /** One select of enqueueClipboard, on the reader and its daemon's inbox. */
  function EnqueueEffect(r: Reader, inbox: seq<Text>): (Reader, seq<Text>)
    requires r.Enqueuing? && (r.stage == Deliver ==> inbox == [])
  {
    var e := PutSelect(r.stage, r.text, inbox);
    (if e.0.Done? then ReaderIdle else r.(stage := e.0.stage), e.1)
  }

  function EnqueueNext(s: State, k: nat): State
    requires WellFormed(s) && Enabled(s, Enqueue(k))
  {
    var c := s.conns[k];
    var r := EnqueueEffect(c.reader, s.nodes[c.dst].inbox);
    WithInbox(WithConn(s, k, c.(reader := r.0)), c.dst, r.1)
  }

  /** No step adds or removes a daemon, drops a connection or moves its ends. */
  lemma ShapeIsKept(s: State, step: Step)
    requires WellFormed(s) && Enabled(s, step)
    ensures var t := Next(s, step);
      && |t.nodes| == |s.nodes|
      && |s.conns| <= |t.conns|
      && (forall k :: 0 <= k < |s.conns| ==> t.conns[k].src == s.conns[k].src && t.conns[k].dst == s.conns[k].dst)
      && (forall k :: |s.conns| <= k < |t.conns| ==> Joins(t.conns[k], |s.nodes|))
  {
    match step
    case Send(i) => assert Next(s, step) == SendNext(s, i);
    case Enqueue(k) => assert Next(s, step) == EnqueueNext(s, k);
    case _ =>
  }

  lemma LimitsAreKept(s: State, step: Step, i: nat)
    requires WellFormed(s) && Enabled(s, step) && i < |s.nodes|
    ensures Next(s, step).nodes[i].limit == s.nodes[i].limit
  {
    match step
    case Send(j) => assert Next(s, step) == SendNext(s, j);
    case Enqueue(k) => assert Next(s, step) == EnqueueNext(s, k);
    case _ =>
  }

  /** A connection that `c` became keeps its source; another loop's view of it
      stands if the queue did not fill up. */
  lemma AimSurvives(l: Local, i: nat, conns: seq<Conn>, k: nat, c: Conn)
    requires Aimed(l, i, conns) && k < |conns| && c.src == conns[k].src
    requires conns[k].out == [] && conns[k].src == i ==> c.out == []
    ensures Aimed(l, i, conns[k := c])
  {
  }

  lemma AdvanceKeepsAim(l: Local, i: nat, conns: seq<Conn>)
    requires l.Sending? && Aimed(l, i, conns)
    ensures Aimed(Advance(l), i, conns)
  {
    if |l.todo| > 1 {
      assert forall p :: 0 <= p < |l.todo[1..]| ==> l.todo[1..][p] == l.todo[p + 1];
    }
  }

  lemma SendKeepsAim(s: State, i: nat, j: nat)
    requires WellFormed(s) && Enabled(s, Send(i)) && j < |s.nodes|
    ensures Aimed(SendNext(s, i).nodes[j].local, j, SendNext(s, i).conns)
  {
    var l := s.nodes[i].local;
    assert Aimed(l, i, s.conns) && Aimed(s.nodes[j].local, j, s.conns);
    var k := l.todo[0];
    var r := SendEffect(l, s.conns[k]);
    hide WellFormed, Enabled, Advance;
    if j == i {
      AdvanceKeepsAim(l, i, s.conns);
    } else {
      AimSurvives(s.nodes[j].local, j, s.conns, k, r.1);
    }
  }

  lemma NodeKeepsAim(s: State, i: nat, ns: NodeStep)
    requires WellFormed(s) && Enabled(s, AtNode(i, ns))
    ensures Aimed(NodeNext(s.nodes[i], s.now, ns).local, i, s.conns)
  {
    assert Aimed(s.nodes[i].local, i, s.conns);
    hide WellFormed, Added, Shed, Consumed, Matches, Expiring;
    if ns.Dispatch? {
      assert forall p :: 0 <= p < |ns.targets| ==> ns.targets[p] in ns.targets;
    }
  }

  lemma LocalStaysAimed(s: State, step: Step, i: nat)
    requires WellFormed(s) && Enabled(s, step) && i < |s.nodes|
    ensures Aimed(Next(s, step).nodes[i].local, i, Next(s, step).conns)
  {
    var l := s.nodes[i].local;
    assert Aimed(l, i, s.conns);
    hide WellFormed, NodeNext, NodeEnabled, Snapshot, SendNext, EnqueueEffect;
    match step
    case AtNode(j, ns) => if i == j { NodeKeepsAim(s, i, ns); }
    case Send(j) => SendKeepsAim(s, j, i);
    case GiveUp(j) => if i == j { AdvanceKeepsAim(l, i, s.conns); }
    case Enqueue(k) => AimSurvives(l, i, s.conns, k, Next(s, step).conns[k]);
    case Tick(_) =>
    case Connect(_, _) => hide Aimed; ConnectKeepsAim(l, i, s.conns, Next(s, step).conns);
    case _ => AimSurvives(l, i, s.conns, step.k, Next(s, step).conns[step.k]);
  }

  lemma ConnectKeepsAim(l: Local, i: nat, conns: seq<Conn>, more: seq<Conn>)
    requires Aimed(l, i, conns) && conns <= more
    ensures Aimed(l, i, more)
  {
  }

  lemma StaysWellFormed(s: State, step: Step)
    requires WellFormed(s) && Enabled(s, step)
    ensures WellFormed(Next(s, step))
  {
    ShapeIsKept(s, step);
    forall i | 0 <= i < |s.nodes| ensures Aimed(Next(s, step).nodes[i].local, i, Next(s, step).conns) {
      LocalStaysAimed(s, step, i);
    }
  }

  ghost predicate Took(s: State, step: Step, t: State) {
    WellFormed(s) && Enabled(s, step) && t == Next(s, step)
  }

  /** A run: the states passed through and the steps between them. */
  ghost predicate Run(states: seq<State>, steps: seq<Step>) {
    && |states| == |steps| + 1
    && Init(states[0])
    && forall j :: 0 <= j < |steps| ==> Took(states[j], steps[j], states[j + 1])
  }
}
