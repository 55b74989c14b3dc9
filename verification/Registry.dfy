// Connection ownership in internal/daemon/daemon.go: connectLoop, beginConnect,
// dialSync, handleSync, register, unregister and endConnect, on any number of
// daemons, with every goroutine's locked sections interleaved freely.
module Registry {
  import opened Wrappers
  import Backoff

  // Device IDs are compared only by their lexicographic order, so an ID is its
  // place in that order.
  type Id = nat
  type Fingerprint = string

  // ---------------------------------------------------------------------------
  // The tables one daemon keeps under its lock
  // ---------------------------------------------------------------------------

  /** `conns`, the Connected flags of `stats`, and `connecting`.  A connection is
      named by the goroutine that runs it. */
  datatype Tables = Tables(conns: map<Id, nat>, connected: set<Id>, connecting: set<Id>)

  function BeginNext(t: Tables, id: Id): (Tables, bool) {
    if id in t.connecting then (t, false) else (t.(connecting := t.connecting + {id}), true)
  }

  function EndNext(t: Tables, id: Id): Tables {
    t.(connecting := t.connecting - {id})
  }

  function RegisterNext(t: Tables, id: Id, g: nat): Tables {
    t.(conns := t.conns[id := g], connected := t.connected + {id})
  }

  function UnregisterNext(t: Tables, id: Id, g: nat): Tables {
    if id in t.conns && t.conns[id] == g then t.(conns := t.conns - {id}, connected := t.connected - {id}) else t
  }

  class Daemon {
    var conns: map<Id, nat>
    var connected: set<Id>
    var connecting: set<Id>

    function State(): Tables
      reads this
    {
      Tables(conns, connected, connecting)
    }

    constructor ()
      ensures State() == Tables(map[], {}, {})
    {
      conns, connected, connecting := map[], {}, {};
    }

    method BeginConnect(id: Id) returns (ok: bool)
      modifies this`connecting
      ensures (State(), ok) == BeginNext(old(State()), id)
    {
      if id in connecting {
        return false;
      }
      connecting := connecting + {id};
      ok := true;
    }

    method EndConnect(id: Id)
      modifies this`connecting
      ensures State() == EndNext(old(State()), id)
    {
      connecting := connecting - {id};
    }

    /** Installs the connection and names the one it replaces, to be closed after. */
    method Register(id: Id, g: nat) returns (ok: bool, prior: seq<nat>)
      modifies this`conns, this`connected
      ensures ok <==> !(id in old(conns) && old(conns)[id] == g)
      ensures State() == if ok then RegisterNext(old(State()), id, g) else old(State())
      ensures prior == if ok && id in old(conns) then [old(conns)[id]] else []
    {
      prior := [];
      if id in conns {
        if conns[id] == g {
          return false, [];
        }
        prior := [conns[id]];
      }
      conns := conns[id := g];
      connected := connected + {id};
      ok := true;
    }

    method Unregister(id: Id, g: nat)
      modifies this`conns, this`connected
      ensures State() == UnregisterNext(old(State()), id, g)
    {
      if id in conns && conns[id] == g {
        conns := conns - {id};
        connected := connected - {id};
      }
    }
  }

  // ---------------------------------------------------------------------------
  // Sockets and goroutines
  // ---------------------------------------------------------------------------

  /** A connection: whose certificate each end holds.  Any holder of a certificate
      may dial; only the program's own daemons check IDs before they do. */
  datatype Socket = Socket(dialler: Id, listener: Id, accepted: bool)

  /** Where a goroutine that carries one end of a sync connection is. */
  datatype Place =
    | Claimed               // beginConnect succeeded, no endpoint was dialled yet
    | Started               // dialling, or accepted and not yet authenticated
    | DialFailed            // dialSync failed; Next of the back-off is still to be called
    | Authenticated         // trusted.ID is known, before register
    | Replacing(prior: nat)   // registered, about to close the connection it replaced
    | Serving               // in readLoop
    | Unregistering         // `done` closed, the lock of unregister not yet taken
    | Ending                // past unregister or failed, the socket still to be closed
    | Returned              // handleSync returned; a dialler has still to call Reset
    | Leaving               // a dialler has still to call endConnect
    | Gone

  datatype G = G(
    home: Id,
    outbound: bool,
    dialled: Id,               // for a dialler, the peer beginConnect was called with
    pin: Fingerprint,          // for a dialler, the fingerprint it was told to expect
    socket: nat,
    peer: Id,                  // trusted.ID, once authenticated
    place: Place,
    done: bool,                // `done` is closed
    closed: bool)              // this end of the socket was closed

  /** `backoffs`: the Attempt field of each back-off of connectLoop, by daemon and peer. */
  datatype Sys = Sys(
    tables: map<Id, Tables>,
    backoffs: map<(Id, Id), Int64>,
    sockets: seq<Socket>,
    gs: seq<G>)

  datatype Step =
    | Claim(home: Id, id: Id, pin: Fingerprint)   // connectLoop, up to beginConnect
    | NoEndpoint(g: nat)
    | Dial(g: nat, at: Id)                        // the first endpoint; `at` is who answers
    | Redial(g: nat, at: Id)                      // the next of several endpoints
    | Knock(dialler: Id, listener: Id)            // somebody else dials
    | Accept(k: nat)
    | Authenticate(g: nat, remote: Fingerprint)
    | FailDial(g: nat)
    | Fail(g: nat)
    | Register(g: nat)
    | CloseOld(g: nat)
    | Sever(g: nat)
    | Finish(g: nat)
    | Unregister(g: nat)
    | HangUp(g: nat)
    | BackOff(g: nat)                             // Next
    | Reset(g: nat)
    | Leave(g: nat)

  function More(attempt: Int64): Int64 {
    var n: int := attempt;
    Backoff.Wrap(n + 1)
  }

  lemma MoreCounts(attempt: Int64)
    ensures More(attempt) == if attempt == TOP - 1 then -TOP else attempt + 1
  {
  }

  /** Whose certificate a goroutine sees. */
  function Remote(s: Sys, x: G): Id
    requires x.socket < |s.sockets|
  {
    if x.outbound then s.sockets[x.socket].listener else s.sockets[x.socket].dialler
  }

  /** `ids` maps a trusted fingerprint to the ID the store has for it. */
  ghost predicate Enabled(ids: Fingerprint -> Id, s: Sys, step: Step) {
    match step
    case Claim(home, id, pin) =>
      home in s.tables && home < id && ids(pin) == id && BeginNext(s.tables[home], id).1
    case NoEndpoint(g) => g < |s.gs| && s.gs[g].outbound && s.gs[g].place == Claimed
    case Dial(g, _) => g < |s.gs| && s.gs[g].outbound && s.gs[g].place == Claimed
    case Redial(g, _) => g < |s.gs| && s.gs[g].outbound && s.gs[g].place == Started
    case Knock(_, _) => true
    case Accept(k) => k < |s.sockets| && !s.sockets[k].accepted && s.sockets[k].listener in s.tables
    case Authenticate(g, remote) =>
      g < |s.gs| && s.gs[g].place == Started && s.gs[g].socket < |s.sockets|
      && ids(remote) == Remote(s, s.gs[g]) && (s.gs[g].outbound ==> remote == s.gs[g].pin)
    case FailDial(g) => g < |s.gs| && s.gs[g].outbound && s.gs[g].place == Started
    case Fail(g) => g < |s.gs| && (s.gs[g].place == Started || s.gs[g].place == Authenticated)
    case Register(g) =>
      g < |s.gs| && s.gs[g].home in s.tables && s.gs[g].place == Authenticated
      && s.gs[g].outbound == (s.gs[g].home < s.gs[g].peer)
    case CloseOld(g) => g < |s.gs| && s.gs[g].place.Replacing? && s.gs[g].place.prior < |s.gs|
    case Sever(g) => g < |s.gs|
    case Finish(g) => g < |s.gs| && s.gs[g].place == Serving
    case Unregister(g) => g < |s.gs| && s.gs[g].home in s.tables && s.gs[g].place == Unregistering
    case HangUp(g) => g < |s.gs| && s.gs[g].place == Ending
    case BackOff(g) =>
      g < |s.gs| && s.gs[g].outbound && s.gs[g].place == DialFailed && (s.gs[g].home, s.gs[g].dialled) in s.backoffs
    case Reset(g) => g < |s.gs| && s.gs[g].outbound && s.gs[g].place == Returned
    case Leave(g) =>
      g < |s.gs| && s.gs[g].home in s.tables
      && (s.gs[g].place == Leaving || (s.gs[g].place == Returned && !s.gs[g].outbound))
  }

  ghost function Next(ids: Fingerprint -> Id, s: Sys, step: Step): Sys
    requires Enabled(ids, s, step)
  {
    match step
    case Claim(home, id, pin) =>
      s.(tables := s.tables[home := BeginNext(s.tables[home], id).0],
         gs := s.gs + [G(home, true, id, pin, 0, id, Claimed, false, false)])
    case NoEndpoint(g) => Moved(s, g, s.gs[g].(place := Leaving))
    case Dial(g, at) =>
      var x := s.gs[g];
      s.(backoffs := if (x.home, x.dialled) in s.backoffs then s.backoffs else s.backoffs[(x.home, x.dialled) := 0],
         sockets := s.sockets + [Socket(x.home, at, false)],
         gs := s.gs[g := x.(socket := |s.sockets|, place := Started)])
    case Redial(g, at) =>
      s.(sockets := s.sockets + [Socket(s.gs[g].home, at, false)], gs := s.gs[g := s.gs[g].(socket := |s.sockets|)])
    case Knock(dialler, listener) => s.(sockets := s.sockets + [Socket(dialler, listener, false)])
    case Accept(k) =>
      var home := s.sockets[k].listener;
      s.(sockets := s.sockets[k := s.sockets[k].(accepted := true)],
         gs := s.gs + [G(home, false, home, "", k, home, Started, false, false)])
    case Authenticate(g, remote) => Moved(s, g, s.gs[g].(peer := ids(remote), place := Authenticated))
    case FailDial(g) => Moved(s, g, s.gs[g].(place := DialFailed))
    case Fail(g) => Moved(s, g, s.gs[g].(place := Ending))
    case Register(g) =>
      var x := s.gs[g];
      var t := s.tables[x.home];
      s.(tables := s.tables[x.home := RegisterNext(t, x.peer, g)],
         gs := s.gs[g := x.(place := if x.peer in t.conns then Replacing(t.conns[x.peer]) else Serving)])
    case CloseOld(g) =>
      var prior := s.gs[g].place.prior;
      var closed := Moved(s, prior, s.gs[prior].(closed := true));
      Moved(closed, g, closed.gs[g].(place := Serving))
    case Sever(g) => Moved(s, g, s.gs[g].(closed := true))
    case Finish(g) => Moved(s, g, s.gs[g].(place := Unregistering, done := true))
    case Unregister(g) =>
      var x := s.gs[g];
      s.(tables := s.tables[x.home := UnregisterNext(s.tables[x.home], x.peer, g)],
         gs := s.gs[g := x.(place := Ending)])
    case HangUp(g) => Moved(s, g, s.gs[g].(place := Returned, closed := true))
    case BackOff(g) =>
      var key := (s.gs[g].home, s.gs[g].dialled);
      Moved(s, g, s.gs[g].(place := Leaving)).(backoffs := s.backoffs[key := More(s.backoffs[key])])
    case Reset(g) =>
      Moved(s, g, s.gs[g].(place := Leaving)).(backoffs := s.backoffs[(s.gs[g].home, s.gs[g].dialled) := 0])
    case Leave(g) =>
      var x := s.gs[g];
      s.(tables := if x.outbound then s.tables[x.home := EndNext(s.tables[x.home], x.dialled)] else s.tables,
         gs := s.gs[g := x.(place := Gone)])
  }

  function Moved(s: Sys, g: nat, x: G): Sys
    requires g < |s.gs|
  {
    s.(gs := s.gs[g := x])
  }

  // ---------------------------------------------------------------------------
  // The invariant
  // ---------------------------------------------------------------------------

  /** The goroutine has registered its connection and not yet unregistered it. */
  predicate Holds(x: G) {
    x.place.Replacing? || x.place == Serving || x.place == Unregistering
  }

  predicate Registered(s: Sys, g: nat) {
    && g < |s.gs| && s.gs[g].home in s.tables
    && s.gs[g].peer in s.tables[s.gs[g].home].conns && s.tables[s.gs[g].home].conns[s.gs[g].peer] == g
  }

  ghost predicate Sane(ids: Fingerprint -> Id, s: Sys, g: nat)
    requires g < |s.gs|
  {
    var x := s.gs[g];
    && x.home in s.tables
    && (x.outbound ==> x.home < x.dialled && ids(x.pin) == x.dialled && x.peer == x.dialled)
    && (x.outbound && x.place != Gone ==> x.dialled in s.tables[x.home].connecting)
    && (Holds(x) ==> x.outbound == (x.home < x.peer))
    && (x.place == Unregistering ==> x.done)
    && (x.done ==> !Busy(x.place))
    && (x.outbound && Holds(x) ==> Registered(s, g) && !x.place.Replacing?)
    && (x.place.Replacing? ==> x.place.prior < |s.gs|)
  }

  /** `done` is still open. */
  predicate Busy(p: Place) {
    p == Claimed || p == Started || p == DialFailed || p == Authenticated || p.Replacing? || p == Serving
  }

  /** The goroutine has a socket. */
  predicate Attached(x: G) {
    x.place == Started || x.place == Authenticated || Holds(x)
  }

  /** The goroutine holds its own daemon's end of the socket, and once it has
      authenticated the other end it has that end's ID. */
  ghost predicate Plugged(s: Sys, g: nat)
    requires g < |s.gs|
  {
    var x := s.gs[g];
    Attached(x) ==>
      && x.socket < |s.sockets|
      && x.home == (if x.outbound then s.sockets[x.socket].dialler else s.sockets[x.socket].listener)
      && (x.place != Started ==> x.peer == Remote(s, x))
  }

  ghost predicate Paced(s: Sys, g: nat)
    requires g < |s.gs|
  {
    var x := s.gs[g];
    x.outbound && x.place != Claimed && x.place != Leaving && x.place != Gone ==> (x.home, x.dialled) in s.backoffs
  }

  /** An entry of `conns` belongs to a goroutine that registered it under that ID. */
  ghost predicate Backed(s: Sys, home: Id, id: Id)
    requires home in s.tables && id in s.tables[home].conns
  {
    var g := s.tables[home].conns[id];
    g < |s.gs| && s.gs[g].home == home && s.gs[g].peer == id && Holds(s.gs[g])
  }

  /** A connection that lost its place is closed, or about to be by its replacement. */
  ghost predicate Retired(s: Sys, g: nat)
    requires g < |s.gs|
  {
    Holds(s.gs[g]) && !Registered(s, g) ==>
      s.gs[g].closed || exists h :: 0 <= h < |s.gs| && s.gs[h].place == Replacing(g)
  }

  /** Both are between beginConnect and endConnect for the same peer. */
  ghost predicate SameDial(x: G, y: G) {
    && x.outbound && y.outbound && x.home == y.home && x.dialled == y.dialled
    && x.place != Gone && y.place != Gone
  }

  ghost predicate Inv(ids: Fingerprint -> Id, s: Sys) {
    && (forall g :: 0 <= g < |s.gs| ==> Sane(ids, s, g))
    && (forall home :: home in s.tables ==> s.tables[home].connected == s.tables[home].conns.Keys)
    && (forall home, id :: home in s.tables && id in s.tables[home].conns ==> Backed(s, home, id))
    && (forall g :: 0 <= g < |s.gs| ==> Retired(s, g))
    && (forall g, h :: 0 <= g < |s.gs| && 0 <= h < |s.gs| && g != h ==> !SameDial(s.gs[g], s.gs[h]))
  }

  /** A dialler that registers finds no older connection, and nobody else
      registers a connection under an ID a dialler holds. */
  lemma DiallerIsAlone(ids: Fingerprint -> Id, s: Sys, g: nat, h: nat)
    requires Inv(ids, s) && Enabled(ids, s, Register(g)) && h < |s.gs| && h != g
    requires Holds(s.gs[h]) && s.gs[h].home == s.gs[g].home && s.gs[h].peer == s.gs[g].peer
    ensures !s.gs[g].outbound && !s.gs[h].outbound
  {
    assert Sane(ids, s, g) && Sane(ids, s, h) && !SameDial(s.gs[g], s.gs[h]);
  }

  lemma SaneRegister(ids: Fingerprint -> Id, s: Sys, g: nat, h: nat)
    requires Inv(ids, s) && Enabled(ids, s, Register(g)) && h < |s.gs|
    ensures Sane(ids, Next(ids, s, Register(g)), h)
  {
    var x := s.gs[g];
    assert Sane(ids, s, h) && Sane(ids, s, g);
    if x.peer in s.tables[x.home].conns {
      var h := s.tables[x.home].conns[x.peer];
      assert Backed(s, x.home, x.peer);
      DiallerIsAlone(ids, s, g, h);
    }
    if h != g && Holds(s.gs[h]) && s.gs[h].home == x.home && s.gs[h].peer == x.peer {
      DiallerIsAlone(ids, s, g, h);
    }
    hide Inv;
  }

  lemma SaneLeave(ids: Fingerprint -> Id, s: Sys, g: nat, h: nat)
    requires Inv(ids, s) && Enabled(ids, s, Leave(g)) && h < |s.gs|
    ensures Sane(ids, Next(ids, s, Leave(g)), h)
  {
    assert Sane(ids, s, h) && (h != g ==> !SameDial(s.gs[g], s.gs[h]));
    hide Inv;
  }

  /** The steps of one goroutine that leave the daemons' tables alone. */
  predicate Local(step: Step) {
    !step.Claim? && !step.Accept? && !step.Register? && !step.Unregister? && !step.Leave?
  }

  /** What such a step may do to any goroutine: it registers and gives up nothing. */
  ghost predicate Drifts(s: Sys, t: Sys, h: nat)
    requires h < |s.gs| && h < |t.gs|
  {
    var x, y := s.gs[h], t.gs[h];
    && y.home == x.home && y.outbound == x.outbound && y.dialled == x.dialled && y.pin == x.pin
    && (Holds(y) <==> Holds(x)) && (Holds(x) || x.outbound ==> y.peer == x.peer)
    && (y.place == Gone <==> x.place == Gone) && (x.closed ==> y.closed)
    && (y.place == Unregistering ==> y.done) && (y.done ==> !Busy(y.place))
    && (y.place.Replacing? ==> y.place == x.place)
    && (x.place.Replacing? ==>
          y.place == x.place || (x.place.prior < |t.gs| && t.gs[x.place.prior].closed))
  }

  lemma LocalDrifts(ids: Fingerprint -> Id, s: Sys, step: Step, h: nat)
    requires Enabled(ids, s, step) && Local(step) && h < |s.gs| && Sane(ids, s, h)
    ensures var t := Next(ids, s, step); t.tables == s.tables && |t.gs| == |s.gs| && Drifts(s, t, h)
  {
    hide Registered, More;
    if step.CloseOld? || step.Sever? {
      ClosingDrifts(ids, s, step, h);
    } else {
      LocalShape(ids, s, step);
    }
  }

  lemma ClosingDrifts(ids: Fingerprint -> Id, s: Sys, step: Step, h: nat)
    requires Enabled(ids, s, step) && (step.CloseOld? || step.Sever?) && h < |s.gs| && Sane(ids, s, h)
    ensures var t := Next(ids, s, step); t.tables == s.tables && |t.gs| == |s.gs| && Drifts(s, t, h)
  {
    hide Registered, More;
  }

  lemma LocalShape(ids: Fingerprint -> Id, s: Sys, step: Step)
    requires Enabled(ids, s, step) && Local(step)
    ensures Next(ids, s, step).tables == s.tables && |Next(ids, s, step).gs| == |s.gs|
  {
    hide More;
  }

  lemma DriftKeepsSane(ids: Fingerprint -> Id, s: Sys, t: Sys, h: nat)
    requires h < |s.gs| && |t.gs| == |s.gs| && t.tables == s.tables && Drifts(s, t, h) && Sane(ids, s, h)
    ensures Sane(ids, t, h)
  {
  }

  lemma DriftKeepsRetired(s: Sys, t: Sys, g: nat)
    requires g < |s.gs| && |t.gs| == |s.gs| && t.tables == s.tables && Retired(s, g)
    requires forall h :: 0 <= h < |s.gs| ==> Drifts(s, t, h)
    ensures Retired(t, g)
  {
    assert Drifts(s, t, g);
    if Holds(s.gs[g]) && !Registered(s, g) && !s.gs[g].closed {
      var h :| 0 <= h < |s.gs| && s.gs[h].place == Replacing(g);
      assert Drifts(s, t, h);
    }
  }

  lemma LocalKeepsInv(ids: Fingerprint -> Id, s: Sys, step: Step)
    requires Inv(ids, s) && Enabled(ids, s, step) && Local(step)
    ensures Inv(ids, Next(ids, s, step))
  {
    var t := Next(ids, s, step);
    LocalShape(ids, s, step);
    hide Next, Enabled, Local, Retired, Drifts, Sane;
    forall h | 0 <= h < |s.gs| ensures Drifts(s, t, h) {
      LocalDrifts(ids, s, step, h);
    }
    forall h | 0 <= h < |s.gs| ensures Sane(ids, t, h) && Retired(t, h) {
      DriftKeepsSane(ids, s, t, h);
      DriftKeepsRetired(s, t, h);
    }
    forall home, id | home in t.tables && id in t.tables[home].conns ensures Backed(t, home, id) {
      assert Backed(s, home, id);
      DriftKeepsHolder(s, t, s.tables[home].conns[id]);
    }
    forall g, h | 0 <= g < |s.gs| && 0 <= h < |s.gs| && g != h ensures !SameDial(t.gs[g], t.gs[h]) {
      assert !SameDial(s.gs[g], s.gs[h]);
      DriftKeepsHolder(s, t, g);
      DriftKeepsHolder(s, t, h);
    }
  }

  lemma DriftKeepsHolder(s: Sys, t: Sys, h: nat)
    requires h < |s.gs| && h < |t.gs| && Drifts(s, t, h)
    ensures var x, y := s.gs[h], t.gs[h];
      && y.home == x.home && y.outbound == x.outbound && y.dialled == x.dialled
      && (Holds(y) <==> Holds(x)) && (Holds(x) ==> y.peer == x.peer) && (y.place == Gone <==> x.place == Gone)
  {
  }

  lemma SaneStart(ids: Fingerprint -> Id, s: Sys, step: Step, h: nat)
    requires Enabled(ids, s, step) && (step.Claim? || step.Accept?) && h < |Next(ids, s, step).gs|
    requires h < |s.gs| ==> Sane(ids, s, h)
    ensures Sane(ids, Next(ids, s, step), h)
  {
  }

  lemma SaneUnregister(ids: Fingerprint -> Id, s: Sys, g: nat, h: nat)
    requires Enabled(ids, s, Unregister(g)) && h < |s.gs| && Sane(ids, s, h)
    ensures Sane(ids, Next(ids, s, Unregister(g)), h)
  {
  }

  lemma SaneStep(ids: Fingerprint -> Id, s: Sys, step: Step, h: nat)
    requires Inv(ids, s) && Enabled(ids, s, step) && !Local(step) && h < |Next(ids, s, step).gs|
    ensures Sane(ids, Next(ids, s, step), h)
  {
    match step
    case Register(g) => SaneRegister(ids, s, g, h);
    case Leave(g) => SaneLeave(ids, s, g, h);
    case Claim(_, _, _) => hide Sane; SaneStart(ids, s, step, h);
    case Accept(_) => hide Sane; SaneStart(ids, s, step, h);
    case Unregister(g) => hide Sane; SaneUnregister(ids, s, g, h);
    case _ =>
  }

  lemma TablesStep(ids: Fingerprint -> Id, s: Sys, step: Step, home: Id)
    requires Inv(ids, s) && Enabled(ids, s, step) && !Local(step) && home in Next(ids, s, step).tables
    ensures var t := Next(ids, s, step).tables[home]; t.connected == t.conns.Keys
  {
    assert home in s.tables;
    hide Sane, Retired, Backed, SameDial;
  }

  /** An entry stays backed while its goroutine keeps its connection. */
  lemma BackedKept(s: Sys, t: Sys, home: Id, id: Id)
    requires home in s.tables && id in s.tables[home].conns && Backed(s, home, id)
    requires home in t.tables && id in t.tables[home].conns && |s.gs| <= |t.gs|
    requires t.tables[home].conns[id] == s.tables[home].conns[id]
    requires var g := s.tables[home].conns[id];
      t.gs[g].home == s.gs[g].home && t.gs[g].peer == s.gs[g].peer && Holds(t.gs[g])
    ensures Backed(t, home, id)
  {
  }

  lemma BackedStart(ids: Fingerprint -> Id, s: Sys, step: Step, home: Id, id: Id)
    requires Enabled(ids, s, step) && (step.Claim? || step.Accept?)
    requires home in s.tables && id in s.tables[home].conns && Backed(s, home, id)
    ensures var t := Next(ids, s, step);
      home in t.tables && id in t.tables[home].conns && Backed(t, home, id)
  {
    BackedKept(s, Next(ids, s, step), home, id);
  }

  lemma BackedStep(ids: Fingerprint -> Id, s: Sys, step: Step, home: Id, id: Id)
    requires Inv(ids, s) && Enabled(ids, s, step) && !Local(step)
    requires home in Next(ids, s, step).tables && id in Next(ids, s, step).tables[home].conns
    ensures Backed(Next(ids, s, step), home, id)
  {
    assert home in s.tables && (id in s.tables[home].conns ==> Backed(s, home, id));
    assert step.Leave? ==> Sane(ids, s, step.g);
    hide Inv, Sane;
    if step.Claim? || step.Accept? {
      BackedStart(ids, s, step, home, id);
    }
  }

  lemma ExclusiveStep(ids: Fingerprint -> Id, s: Sys, step: Step, g: nat, h: nat)
    requires Inv(ids, s) && Enabled(ids, s, step) && !Local(step)
    requires g < |Next(ids, s, step).gs| && h < |Next(ids, s, step).gs| && g != h
    ensures !SameDial(Next(ids, s, step).gs[g], Next(ids, s, step).gs[h])
  {
    assert g < |s.gs| && h < |s.gs| ==> !SameDial(s.gs[g], s.gs[h]);
    assert g < |s.gs| ==> Sane(ids, s, g);
    assert h < |s.gs| ==> Sane(ids, s, h);
    hide Inv;
  }

  lemma RetiredRegister(ids: Fingerprint -> Id, s: Sys, r: nat, g: nat)
    requires Enabled(ids, s, Register(r)) && g < |s.gs| && Retired(s, g)
    requires Sane(ids, s, g)
    ensures Retired(Next(ids, s, Register(r)), g)
  {
    var t := Next(ids, s, Register(r));
    if Holds(t.gs[g]) && !Registered(t, g) && !t.gs[g].closed {
      if Registered(s, g) {
        assert t.gs[r].place == Replacing(g);
      } else {
        var h :| 0 <= h < |s.gs| && s.gs[h].place == Replacing(g);
        assert t.gs[h].place == Replacing(g);
      }
    }
  }

  /** A goroutine that keeps its place stays retired while those that replace others
      keep theirs. */
  lemma RetiredKept(s: Sys, t: Sys, g: nat)
    requires g < |s.gs| <= |t.gs| && Retired(s, g) && Registered(t, g) == Registered(s, g)
    requires Holds(t.gs[g]) ==> Holds(s.gs[g]) && t.gs[g].closed == s.gs[g].closed
    requires forall h :: 0 <= h < |s.gs| && s.gs[h].place.Replacing? ==> t.gs[h].place == s.gs[h].place
    ensures Retired(t, g)
  {
    if Holds(t.gs[g]) && !Registered(t, g) && !t.gs[g].closed {
      var h :| 0 <= h < |s.gs| && s.gs[h].place == Replacing(g);
      assert t.gs[h].place == Replacing(g);
    }
  }

  lemma RetiredStart(ids: Fingerprint -> Id, s: Sys, step: Step, g: nat)
    requires Enabled(ids, s, step) && (step.Claim? || step.Accept?) && g < |s.gs| && Retired(s, g)
    ensures Retired(Next(ids, s, step), g)
  {
    hide Retired;
    RetiredKept(s, Next(ids, s, step), g);
  }

  lemma RetiredEnd(ids: Fingerprint -> Id, s: Sys, step: Step, g: nat)
    requires Enabled(ids, s, step) && (step.Unregister? || step.Leave?) && g < |s.gs| && Retired(s, g)
    requires step.g < |s.gs| && g != step.g && s.gs[g].home in s.tables
    ensures Retired(Next(ids, s, step), g)
  {
    hide Retired;
    RetiredKept(s, Next(ids, s, step), g);
  }

  lemma RetiredStep(ids: Fingerprint -> Id, s: Sys, step: Step, g: nat)
    requires Inv(ids, s) && Enabled(ids, s, step) && !Local(step) && g < |Next(ids, s, step).gs|
    ensures Retired(Next(ids, s, step), g)
  {
    assert g < |s.gs| ==> Retired(s, g) && Sane(ids, s, g);
    hide Inv;
    if step.Register? {
      RetiredRegister(ids, s, step.g, g);
    } else if step.Claim? || step.Accept? {
      if g < |s.gs| { RetiredStart(ids, s, step, g); }
    } else if step.g != g {
      RetiredEnd(ids, s, step, g);
    }
  }

  lemma StepKeepsInv(ids: Fingerprint -> Id, s: Sys, step: Step)
    requires Inv(ids, s) && Enabled(ids, s, step)
    ensures Inv(ids, Next(ids, s, step))
  {
    if Local(step) {
      LocalKeepsInv(ids, s, step);
    } else {
      var t := Next(ids, s, step);
      hide Next, Enabled, Local, Sane, Retired, SameDial;
      forall h | 0 <= h < |t.gs| ensures Sane(ids, t, h) && Retired(t, h) {
        SaneStep(ids, s, step, h);
        RetiredStep(ids, s, step, h);
      }
      forall home | home in t.tables ensures t.tables[home].connected == t.tables[home].conns.Keys {
        TablesStep(ids, s, step, home);
      }
      forall home, id | home in t.tables && id in t.tables[home].conns ensures Backed(t, home, id) {
        BackedStep(ids, s, step, home, id);
      }
      forall g, h | 0 <= g < |t.gs| && 0 <= h < |t.gs| && g != h ensures !SameDial(t.gs[g], t.gs[h]) {
        ExclusiveStep(ids, s, step, g, h);
      }
    }
  }

  lemma PluggedStep(ids: Fingerprint -> Id, s: Sys, step: Step, g: nat)
    requires Enabled(ids, s, step) && g < |Next(ids, s, step).gs|
    requires g < |s.gs| ==> Plugged(s, g) && Paced(s, g)
    ensures Plugged(Next(ids, s, step), g) && Paced(Next(ids, s, step), g)
  {
    hide BeginNext, EndNext, RegisterNext, UnregisterNext, More, Paced;
    assert Plugged(Next(ids, s, step), g);
    hide Plugged, Next, Enabled;
    PacedStep(ids, s, step, g);
  }

  lemma PacedStep(ids: Fingerprint -> Id, s: Sys, step: Step, g: nat)
    requires Enabled(ids, s, step) && g < |Next(ids, s, step).gs|
    requires g < |s.gs| ==> Paced(s, g)
    ensures Paced(Next(ids, s, step), g)
  {
    hide BeginNext, EndNext, RegisterNext, UnregisterNext, More;
  }

  // ---------------------------------------------------------------------------
  // Every run of every daemon
  // ---------------------------------------------------------------------------

  ghost predicate Init(s: Sys) {
    s.gs == [] && s.sockets == [] && forall home :: home in s.tables ==> s.tables[home] == Tables(map[], {}, {})
  }

  ghost predicate Took(ids: Fingerprint -> Id, s: Sys, step: Step, t: Sys) {
    Enabled(ids, s, step) && t == Next(ids, s, step)
  }

  ghost predicate Run(ids: Fingerprint -> Id, states: seq<Sys>, steps: seq<Step>) {
    && |states| == |steps| + 1 && Init(states[0])
    && forall j :: 0 <= j < |steps| ==> Took(ids, states[j], steps[j], states[j + 1])
  }

  lemma {:induction false} RunsKeepInv(ids: Fingerprint -> Id, states: seq<Sys>, steps: seq<Step>, j: nat)
    requires Run(ids, states, steps) && j < |states|
    ensures Inv(ids, states[j])
  {
    if j > 0 {
      var k := j - 1;
      RunsKeepInv(ids, states, steps, k);
      assert Took(ids, states[k], steps[k], states[k + 1]);
      hide Inv, Enabled, Next;
      StepKeepsInv(ids, states[k], steps[k]);
    }
  }

  lemma {:induction false} RunsStayPlugged(ids: Fingerprint -> Id, states: seq<Sys>, steps: seq<Step>, j: nat)
    requires Run(ids, states, steps) && j < |states|
    ensures forall g :: 0 <= g < |states[j].gs| ==> Plugged(states[j], g) && Paced(states[j], g)
  {
    if j > 0 {
      var k := j - 1;
      RunsStayPlugged(ids, states, steps, k);
      assert Took(ids, states[k], steps[k], states[k + 1]);
      hide Enabled, Next, Plugged, Paced;
      forall g | 0 <= g < |states[j].gs| ensures Plugged(states[j], g) && Paced(states[j], g) {
        PluggedStep(ids, states[k], steps[k], g);
      }
    }
  }

  /** The goroutine is between beginConnect and endConnect for this peer. */
  ghost predicate Dials(s: Sys, g: nat, home: Id, id: Id) {
    g < |s.gs| && s.gs[g].outbound && s.gs[g].home == home && s.gs[g].dialled == id && s.gs[g].place != Gone
  }

  /** An ID is marked as connecting for some goroutine that dials it. */
  ghost predicate Claimants(s: Sys) {
    forall home, id :: home in s.tables && id in s.tables[home].connecting ==> exists g :: Dials(s, g, home, id)
  }

  lemma DialsGoOn(ids: Fingerprint -> Id, s: Sys, step: Step, g: nat, home: Id, id: Id)
    requires Enabled(ids, s, step) && Dials(s, g, home, id) && step != Leave(g)
    ensures Dials(Next(ids, s, step), g, home, id)
  {
    hide BeginNext, EndNext, RegisterNext, UnregisterNext, More;
  }

  /** Only beginConnect marks an ID, and endConnect frees the one its goroutine dialled. */
  lemma ConnectingStep(ids: Fingerprint -> Id, s: Sys, step: Step, home: Id, id: Id)
    requires Enabled(ids, s, step) && home in Next(ids, s, step).tables
    requires id in Next(ids, s, step).tables[home].connecting
    ensures home in s.tables
    ensures id in s.tables[home].connecting || (step.Claim? && step.home == home && step.id == id)
    ensures step.Leave? ==> !Dials(s, step.g, home, id)
  {
    hide More;
  }

  lemma ClaimantsStep(ids: Fingerprint -> Id, s: Sys, step: Step)
    requires Enabled(ids, s, step) && Claimants(s)
    ensures Claimants(Next(ids, s, step))
  {
    var t := Next(ids, s, step);
    forall home, id | home in t.tables && id in t.tables[home].connecting ensures exists g :: Dials(t, g, home, id) {
      ConnectingStep(ids, s, step, home, id);
      if id in s.tables[home].connecting {
        var g :| Dials(s, g, home, id);
        DialsGoOn(ids, s, step, g, home, id);
      } else {
        assert Dials(t, |s.gs|, home, id);
      }
    }
  }

  lemma {:induction false} RunsKeepClaimants(ids: Fingerprint -> Id, states: seq<Sys>, steps: seq<Step>, j: nat)
    requires Run(ids, states, steps) && j < |states|
    ensures Claimants(states[j])
  {
    if j > 0 {
      var k := j - 1;
      RunsKeepClaimants(ids, states, steps, k);
      assert Took(ids, states[k], steps[k], states[k + 1]);
      hide Enabled, Next, Claimants;
      ClaimantsStep(ids, states[k], steps[k]);
    }
  }

  /** A peer is marked as connecting exactly while some goroutine dials it; so it can
      be dialled again exactly when none does. */
  lemma ConnectingIffDialled(
    ids: Fingerprint -> Id, states: seq<Sys>, steps: seq<Step>, j: nat, home: Id, id: Id, pin: Fingerprint)
    requires Run(ids, states, steps) && j < |states| && home in states[j].tables
    ensures id in states[j].tables[home].connecting <==>
      exists g :: 0 <= g < |states[j].gs| && states[j].gs[g].outbound && states[j].gs[g].home == home
        && states[j].gs[g].dialled == id && states[j].gs[g].place != Gone
    ensures home < id && ids(pin) == id ==>
      (Enabled(ids, states[j], Claim(home, id, pin)) <==> !exists g :: Dials(states[j], g, home, id))
  {
    RunsKeepInv(ids, states, steps, j);
    RunsKeepClaimants(ids, states, steps, j);
    var s := states[j];
    if id in s.tables[home].connecting {
      var g: nat :| Dials(s, g, home, id);
      assert s.gs[g].outbound && s.gs[g].home == home && s.gs[g].dialled == id && s.gs[g].place != Gone;
    }
    forall g: nat | Dials(s, g, home, id) ensures id in s.tables[home].connecting {
      assert Sane(ids, s, g);
    }
    forall g: nat | g < |s.gs| && s.gs[g].outbound && s.gs[g].home == home
        && s.gs[g].dialled == id && s.gs[g].place != Gone
      ensures Dials(s, g, home, id)
    {
    }
    hide Inv, Claimants;
  }

  /** For each peer ID, at most one goroutine is between beginConnect and
      endConnect, and it is the only one that ever has that peer's connection
      registered. */
  lemma DialExclusion(ids: Fingerprint -> Id, states: seq<Sys>, steps: seq<Step>, j: nat, g: nat)
    requires Run(ids, states, steps) && j < |states|
    requires g < |states[j].gs| && states[j].gs[g].outbound && states[j].gs[g].place != Gone
    ensures var s, x := states[j], states[j].gs[g];
      && x.home in s.tables && x.dialled in s.tables[x.home].connecting && x.home < x.dialled
      && (forall h :: 0 <= h < |s.gs| && h != g ==> !SameDial(x, s.gs[h]))
      && (x.dialled in s.tables[x.home].conns ==> s.tables[x.home].conns[x.dialled] == g)
  {
    RunsKeepInv(ids, states, steps, j);
    var s, x := states[j], states[j].gs[g];
    assert Sane(ids, s, g);
    if x.dialled in s.tables[x.home].conns {
      assert Backed(s, x.home, x.dialled);
      var h := s.tables[x.home].conns[x.dialled];
      assert Sane(ids, s, h) && (!SameDial(x, s.gs[h]) || h == g);
    }
  }

  /** The goroutine may call Next or Reset of the back-off of this peer. */
  ghost predicate Uses(s: Sys, g: nat, home: Id, id: Id) {
    && g < |s.gs| && s.gs[g].outbound && s.gs[g].home == home && s.gs[g].dialled == id
    && (s.gs[g].place == DialFailed || s.gs[g].place == Returned)
  }

  /** The call that a step makes of a back-off, if it makes one of this peer's. */
  ghost predicate Calls(s: Sys, step: Step, home: Id, id: Id) {
    (step.BackOff? || step.Reset?) && Uses(s, step.g, home, id)
  }

  lemma BackoffStep(ids: Fingerprint -> Id, s: Sys, step: Step, home: Id, id: Id)
    requires Enabled(ids, s, step)
    ensures var key, t := (home, id), Next(ids, s, step);
      if key !in s.backoffs then key in t.backoffs && !Calls(s, step, home, id) ==> t.backoffs[key] == 0
      else
        && key in t.backoffs
        && t.backoffs[key] == if !Calls(s, step, home, id) then s.backoffs[key]
                              else if step.Reset? then 0 else More(s.backoffs[key])
  {
    hide More, BeginNext, EndNext, RegisterNext, UnregisterNext;
    match step
    case BackOff(_) =>
    case Reset(_) =>
    case Dial(_, _) =>
    case _ =>
  }

  /** A peer's back-off exists once the peer was dialled, at no time can two
      goroutines use it, and nothing else changes it: a failed dial counts one more
      attempt, and a session that ended counts from zero again. */
  lemma BackoffHasOneUser(
    ids: Fingerprint -> Id, states: seq<Sys>, steps: seq<Step>, j: nat, home: Id, id: Id, g: nat)
    requires Run(ids, states, steps) && j < |steps| && Uses(states[j], g, home, id)
    ensures (home, id) in states[j].backoffs && (home, id) in states[j + 1].backoffs
    ensures forall h :: Uses(states[j], h, home, id) ==> h == g
    ensures var before, after := states[j].backoffs[(home, id)], states[j + 1].backoffs[(home, id)];
      && (steps[j] == BackOff(g) ==> after == if before == TOP - 1 then -TOP else before + 1)
      && (steps[j] == Reset(g) ==> after == 0)
      && (steps[j] != BackOff(g) && steps[j] != Reset(g) ==> after == before)
  {
    RunsKeepInv(ids, states, steps, j);
    RunsStayPlugged(ids, states, steps, j);
    var s := states[j];
    assert Took(ids, s, steps[j], states[j + 1]) && Paced(s, g);
    assert forall h :: 0 <= h < |s.gs| && h != g ==> !SameDial(s.gs[g], s.gs[h]);
    hide Inv, Next, Enabled;
    BackoffStep(ids, s, steps[j], home, id);
    MoreCounts(s.backoffs[(home, id)]);
    hide More;
  }

  /** While nobody may use it, a back-off only ever appears, at zero. */
  lemma IdleBackoffStays(ids: Fingerprint -> Id, states: seq<Sys>, steps: seq<Step>, j: nat, home: Id, id: Id)
    requires Run(ids, states, steps) && j < |steps|
    requires forall g :: !Uses(states[j], g, home, id)
    ensures (home, id) in states[j].backoffs ==>
      (home, id) in states[j + 1].backoffs && states[j + 1].backoffs[(home, id)] == states[j].backoffs[(home, id)]
    ensures (home, id) !in states[j].backoffs && (home, id) in states[j + 1].backoffs ==>
      states[j + 1].backoffs[(home, id)] == 0
  {
    assert Took(ids, states[j], steps[j], states[j + 1]);
    hide Next, Enabled;
    BackoffStep(ids, states[j], steps[j], home, id);
  }

  /** On the dialling side register never finds a connection to replace. */
  lemma DiallersNeverReplace(ids: Fingerprint -> Id, states: seq<Sys>, steps: seq<Step>, j: nat, g: nat)
    requires Run(ids, states, steps) && j < |states|
    requires Enabled(ids, states[j], Register(g)) && states[j].gs[g].outbound
    ensures states[j].gs[g].peer !in states[j].tables[states[j].gs[g].home].conns
  {
    RunsKeepInv(ids, states, steps, j);
    var s, x := states[j], states[j].gs[g];
    if x.peer in s.tables[x.home].conns {
      var h := s.tables[x.home].conns[x.peer];
      assert Backed(s, x.home, x.peer);
      DiallerIsAlone(ids, s, g, h);
    }
  }

  /** Connected says exactly which peers have a registered connection, and each
      registered connection is the one of the smaller ID dialling the larger. */
  lemma RegistryIsConsistent(
    ids: Fingerprint -> Id, states: seq<Sys>, steps: seq<Step>, j: nat, home: Id, id: Id)
    requires Run(ids, states, steps) && j < |states| && home in states[j].tables
    ensures id in states[j].tables[home].connected <==> id in states[j].tables[home].conns
    ensures id in states[j].tables[home].conns ==>
      var g := states[j].tables[home].conns[id];
      && g < |states[j].gs| && states[j].gs[g].home == home && states[j].gs[g].peer == id
      && (states[j].gs[g].outbound <==> home < id)
  {
    RunsKeepInv(ids, states, steps, j);
    if id in states[j].tables[home].conns {
      assert Backed(states[j], home, id);
      assert Sane(ids, states[j], states[j].tables[home].conns[id]);
    }
  }

  /** Whoever dialled: neither end of a connection between two different IDs is
      registered unless the smaller ID dialled it, and each end is registered under
      the ID of the other. */
  lemma SmallerIDDials(ids: Fingerprint -> Id, states: seq<Sys>, steps: seq<Step>, j: nat, g: nat)
    requires Run(ids, states, steps) && j < |states| && g < |states[j].gs| && Holds(states[j].gs[g])
    ensures var x := states[j].gs[g];
      && x.socket < |states[j].sockets|
      && var c := states[j].sockets[x.socket];
         && c.dialler <= c.listener
         && (if x.outbound then x.home == c.dialler && x.peer == c.listener
             else x.home == c.listener && x.peer == c.dialler)
  {
    RunsKeepInv(ids, states, steps, j);
    RunsStayPlugged(ids, states, steps, j);
    assert Sane(ids, states[j], g) && Plugged(states[j], g);
  }

  /** `done` of a registered connection is closed exactly while its goroutine is
      inside unregister, past the close and before the lock: code that finds a
      registered connection can meet a closed `done`, but only in that window. */
  lemma DoneOnlyWhileUnregistering(
    ids: Fingerprint -> Id, states: seq<Sys>, steps: seq<Step>, j: nat, g: nat)
    requires Run(ids, states, steps) && j < |states| && Registered(states[j], g)
    ensures states[j].gs[g].done <==> states[j].gs[g].place == Unregistering
  {
    RunsKeepInv(ids, states, steps, j);
    var s := states[j];
    assert Sane(ids, s, g) && Backed(s, s.gs[g].home, s.gs[g].peer);
  }

  /** Such a window can be met: the first connection of a daemon, once its reader
      has ended. */
  lemma DoneCanBeClosedWhileRegistered(ids: Fingerprint -> Id, home: Id, id: Id, pin: Fingerprint)
    requires home < id && ids(pin) == id
    ensures exists states: seq<Sys>, steps: seq<Step> ::
      Run(ids, states, steps) && |states| == 6 && Registered(states[5], 0) && states[5].gs[0].done
  {
    hide Took, Only, Next, Enabled, BeginNext, RegisterNext, Registered;
    var dialling, serving := BeginNext(EMPTY, id).0, RegisterNext(BeginNext(EMPTY, id).0, id, 0);
    var x := G(home, true, id, pin, 0, id, Claimed, false, false);
    var states := [
      Sys(map[home := EMPTY], map[], [], []),
      Sys(map[home := dialling], map[], [], [x]),
      Only(home, id, dialling, x.(place := Started)),
      Only(home, id, dialling, x.(place := Authenticated)),
      Only(home, id, serving, x.(place := Serving)),
      Only(home, id, serving, x.(place := Unregistering, done := true))];
    var steps := [Claim(home, id, pin), Dial(0, id), Authenticate(0, pin), Register(0), Finish(0)];
    FirstClaim(ids, home, id, pin, x);
    FirstDial(ids, home, id, x);
    FirstHello(ids, home, id, pin, x);
    FirstRegister(ids, home, id, x);
    assert Run(ids, states, steps);
  }

  lemma FirstClaim(ids: Fingerprint -> Id, home: Id, id: Id, pin: Fingerprint, x: G)
    requires home < id && ids(pin) == id && x == G(home, true, id, pin, 0, id, Claimed, false, false)
    ensures Took(ids, Sys(map[home := EMPTY], map[], [], []), Claim(home, id, pin),
                 Sys(map[home := BeginNext(EMPTY, id).0], map[], [], [x]))
  {
  }

  lemma FirstDial(ids: Fingerprint -> Id, home: Id, id: Id, x: G)
    requires x.outbound && x.home == home && x.dialled == id && x.place == Claimed && x.socket == 0
    ensures var t := BeginNext(EMPTY, id).0;
      Took(ids, Sys(map[home := t], map[], [], [x]), Dial(0, id), Only(home, id, t, x.(place := Started)))
  {
    hide BeginNext;
  }

  lemma FirstHello(ids: Fingerprint -> Id, home: Id, id: Id, pin: Fingerprint, x: G)
    requires ids(pin) == id && x.outbound && x.pin == pin && x.peer == id && x.socket == 0
    ensures var t := BeginNext(EMPTY, id).0;
      Took(ids, Only(home, id, t, x.(place := Started)), Authenticate(0, pin),
           Only(home, id, t, x.(place := Authenticated)))
  {
    hide BeginNext;
  }

  lemma FirstRegister(ids: Fingerprint -> Id, home: Id, id: Id, x: G)
    requires home < id && x.outbound && x.home == home && x.peer == id && !x.done
    ensures var t, u := BeginNext(EMPTY, id).0, RegisterNext(BeginNext(EMPTY, id).0, id, 0);
      var served := Only(home, id, u, x.(place := Serving));
      var ended := Only(home, id, u, x.(place := Unregistering, done := true));
      && Took(ids, Only(home, id, t, x.(place := Authenticated)), Register(0), served)
      && Took(ids, served, Finish(0), ended)
      && Registered(ended, 0) && ended.gs[0].done
  {
  }

  const EMPTY := Tables(map[], {}, {})

  /** One daemon with one dialler on one socket. */
  function Only(home: Id, id: Id, t: Tables, x: G): Sys {
    Sys(map[home := t], map[(home, id) := 0], [Socket(home, id, false)], [x])
  }

  ghost predicate HungUp(s: Sys, g: nat)
    requires g < |s.gs|
  {
    s.gs[g].place == Returned ==> s.gs[g].closed
  }

  lemma HungUpStep(ids: Fingerprint -> Id, s: Sys, step: Step, g: nat)
    requires Enabled(ids, s, step) && g < |Next(ids, s, step).gs|
    requires g < |s.gs| ==> HungUp(s, g)
    ensures HungUp(Next(ids, s, step), g)
  {
    hide BeginNext, EndNext, RegisterNext, UnregisterNext, More;
  }

  /** Once handleSync has returned, its end of the socket is closed. */
  lemma {:induction false} ReturnedMeansClosed(
    ids: Fingerprint -> Id, states: seq<Sys>, steps: seq<Step>, j: nat, g: nat)
    requires Run(ids, states, steps) && j < |states| && g < |states[j].gs| && states[j].gs[g].place == Returned
    ensures states[j].gs[g].closed
  {
    RunsHangUp(ids, states, steps, j);
    assert HungUp(states[j], g);
  }

  lemma {:induction false} RunsHangUp(ids: Fingerprint -> Id, states: seq<Sys>, steps: seq<Step>, j: nat)
    requires Run(ids, states, steps) && j < |states|
    ensures forall g :: 0 <= g < |states[j].gs| ==> HungUp(states[j], g)
  {
    if j > 0 {
      var k := j - 1;
      RunsHangUp(ids, states, steps, k);
      assert Took(ids, states[k], steps[k], states[k + 1]);
      hide Enabled, Next, HungUp;
      forall g | 0 <= g < |states[j].gs| ensures HungUp(states[j], g) {
        HungUpStep(ids, states[k], steps[k], g);
      }
    }
  }

  /** A stale unregister leaves its replacement registered and marked connected,
      and every replaced connection is closed or about to be by its replacement. */
  lemma ReplacementSurvives(
    ids: Fingerprint -> Id, states: seq<Sys>, steps: seq<Step>, j: nat, g: nat, h: nat)
    requires Run(ids, states, steps) && j < |steps| && steps[j] == Unregister(h)
    requires Registered(states[j], g) && g != h
    ensures Registered(states[j + 1], g)
    ensures var t := states[j + 1]; t.gs[g].peer in t.tables[t.gs[g].home].connected
    ensures forall r :: 0 <= r < |states[j].gs| ==> Retired(states[j], r)
  {
    RunsKeepInv(ids, states, steps, j);
    RunsKeepInv(ids, states, steps, j + 1);
    assert Took(ids, states[j], steps[j], states[j + 1]);
  }
}
