// The discovered-peer table of internal/discovery/discovery.go: a cache that
// forgets peers after 45 seconds and holds the 256 most recent ones.
module Discovery {

  const PEER_TTL: nat := 45_000_000_000   // nanoseconds
  const MAX_PEERS: nat := 256

  datatype Peer = Peer(
    id: string, name: string, fingerprint: string, os: string, port: int,
    addresses: seq<string>, lastSeen: nat)

  type Table = map<string, Peer>

  predicate Live(p: Peer, now: nat) {
    now < p.lastSeen + PEER_TTL
  }

  function Pruned(m: Table, now: nat): Table {
    map id | id in m && Live(m[id], now) :: m[id]
  }

  ghost predicate IsOldest(m: Table, victim: string) {
    victim in m && forall id :: id in m ==> m[victim].lastSeen <= m[id].lastSeen
  }

  /** What putting `p` may leave behind; ties for the oldest entry go either way. */
  ghost predicate PutOutcome(m: Table, p: Peer, r: Table) {
    var live := Pruned(m, p.lastSeen);
    if p.id in live || |live| < MAX_PEERS then r == live[p.id := p]
    else exists victim :: IsOldest(live, victim) && r == (live - {victim})[p.id := p]
  }

  // ---------------------------------------------------------------------------
  // The specification: the most recent observations of a history
  // ---------------------------------------------------------------------------

  datatype Sighting = Never | Seen(peer: Peer)

  function Latest(history: seq<Peer>, id: string): Sighting {
    if history == [] then Never
    else if history[|history| - 1].id == id then Seen(history[|history| - 1])
    else Latest(history[..|history| - 1], id)
  }

  /** The table holds latest sightings that are still live. */
  ghost predicate Sighted(m: Table, history: seq<Peer>, now: nat) {
    && |m| <= MAX_PEERS
    && (forall id :: id in m ==> Latest(history, id) == Seen(m[id]) && Live(m[id], now))
    && (forall i :: 0 <= i < |history| ==> history[i].lastSeen <= now)
  }

  /** A live peer is left out only of a full table, and was last seen no later than
      any that the table holds. */
  ghost predicate LeavesOutOlder(m: Table, history: seq<Peer>, now: nat) {
    forall id :: id !in m ==> Latest(history, id).Seen? && Live(Latest(history, id).peer, now) ==>
      |m| == MAX_PEERS && forall y :: y in m ==> Latest(history, id).peer.lastSeen <= m[y].lastSeen
  }

  ghost predicate MostRecent(m: Table, history: seq<Peer>, now: nat) {
    Sighted(m, history, now) && LeavesOutOlder(m, history, now)
  }

  lemma LatestAppend(history: seq<Peer>, p: Peer, id: string)
    ensures Latest(history + [p], id) == if p.id == id then Seen(p) else Latest(history, id)
  {
    assert (history + [p])[..|history|] == history;
  }

  lemma {:induction false} LatestIsPast(history: seq<Peer>, id: string, now: nat)
    requires forall i :: 0 <= i < |history| ==> history[i].lastSeen <= now
    ensures Latest(history, id).Seen? ==> Latest(history, id).peer.lastSeen <= now
  {
    if history != [] { LatestIsPast(history[..|history| - 1], id, now); }
  }

  lemma SmallerTable(a: Table, b: Table)
    requires a.Keys <= b.Keys
    ensures |a| <= |b|
    ensures |a| == |b| ==> a.Keys == b.Keys
  {
    assert b.Keys == a.Keys + (b.Keys - a.Keys);
    assert |a.Keys| == |a| && |b.Keys| == |b|;
  }

  lemma PruneKeepsMostRecent(m: Table, history: seq<Peer>, clock: nat, now: nat)
    requires MostRecent(m, history, clock) && clock <= now
    ensures MostRecent(Pruned(m, now), history, now)
  {
    var r := Pruned(m, now);
    SmallerTable(r, m);
    forall id | id !in r && Latest(history, id).Seen? && Live(Latest(history, id).peer, now)
      ensures |r| == MAX_PEERS && forall y :: y in r ==> Latest(history, id).peer.lastSeen <= r[y].lastSeen
    {
      assert id !in m;
      assert r.Keys == m.Keys by {
        forall y | y in m ensures y in r {
          assert Latest(history, id).peer.lastSeen <= m[y].lastSeen;
        }
      }
    }
  }

  lemma InsertSize(m: Table, p: Peer)
    ensures |m[p.id := p]| == |m| + if p.id in m then 0 else 1
  {
    var r := m[p.id := p];
    assert r.Keys == m.Keys + {p.id};
    assert |r.Keys| == |r| && |m.Keys| == |m|;
  }

  lemma RemoveSize(m: Table, id: string)
    requires id in m
    ensures |m - {id}| == |m| - 1
  {
    var r := m - {id};
    assert m.Keys == r.Keys + {id};
    assert |r.Keys| == |r| && |m.Keys| == |m|;
  }

  lemma InsertKeepsMostRecent(live: Table, history: seq<Peer>, p: Peer)
    requires MostRecent(live, history, p.lastSeen) && (p.id in live || |live| < MAX_PEERS)
    ensures MostRecent(live[p.id := p], history + [p], p.lastSeen)
  {
    var r, h := live[p.id := p], history + [p];
    InsertSize(live, p);
    forall id
      ensures Latest(h, id) == if p.id == id then Seen(p) else Latest(history, id)
      ensures Latest(h, id).Seen? ==> Latest(h, id).peer.lastSeen <= p.lastSeen
    {
      LatestAppend(history, p, id);
      LatestIsPast(history, id, p.lastSeen);
    }
    hide Latest;
  }

  lemma LatestSoFar(history: seq<Peer>, p: Peer, id: string)
    requires forall i :: 0 <= i < |history| ==> history[i].lastSeen <= p.lastSeen
    ensures var h := history + [p];
      && Latest(h, id) == (if p.id == id then Seen(p) else Latest(history, id))
      && (Latest(h, id).Seen? ==> Latest(h, id).peer.lastSeen <= p.lastSeen)
  {
    LatestAppend(history, p, id);
    LatestIsPast(history, id, p.lastSeen);
  }

  /** A peer left out was seen no later than any that stay. */
  lemma LeftOutIsOlder(live: Table, history: seq<Peer>, p: Peer, victim: string, id: string, y: string)
    requires MostRecent(live, history, p.lastSeen) && |live| == MAX_PEERS && IsOldest(live, victim)
    requires var r := (live - {victim})[p.id := p]; id !in r && y in r
    requires Latest(history, id).Seen? && Live(Latest(history, id).peer, p.lastSeen) && id != p.id
    requires Latest(history, id).peer.lastSeen <= p.lastSeen
    ensures Latest(history, id).peer.lastSeen <= (live - {victim})[p.id := p][y].lastSeen
  {
    hide Latest, Live;
    if y != p.id {
      assert y in live && (id in live ==> id == victim);
    }
  }

  lemma ReplaceKeepsSighted(live: Table, history: seq<Peer>, p: Peer, victim: string)
    requires Sighted(live, history, p.lastSeen) && p.id !in live && |live| == MAX_PEERS && victim in live
    ensures Sighted((live - {victim})[p.id := p], history + [p], p.lastSeen)
    ensures |(live - {victim})[p.id := p]| == MAX_PEERS
  {
    var r, h := (live - {victim})[p.id := p], history + [p];
    RemoveSize(live, victim);
    InsertSize(live - {victim}, p);
    forall id | id in r ensures Latest(h, id) == Seen(r[id]) && Live(r[id], p.lastSeen) {
      LatestAppend(history, p, id);
    }
    hide Latest, Live;
    assert forall i :: 0 <= i < |h| ==> h[i] == if i < |history| then history[i] else p;
  }

  lemma ReplaceLeavesOutOlder(live: Table, history: seq<Peer>, p: Peer, victim: string)
    requires MostRecent(live, history, p.lastSeen) && p.id !in live && |live| == MAX_PEERS
    requires IsOldest(live, victim) && |(live - {victim})[p.id := p]| == MAX_PEERS
    ensures LeavesOutOlder((live - {victim})[p.id := p], history + [p], p.lastSeen)
  {
    hide MostRecent, Latest, Live, IsOldest;
    var r, h := (live - {victim})[p.id := p], history + [p];
    forall id, y | id !in r && Latest(h, id).Seen? && Live(Latest(h, id).peer, p.lastSeen) && y in r
      ensures Latest(h, id).peer.lastSeen <= r[y].lastSeen
    {
      NoneIsLater(live, history, p);
      LatestSoFar(history, p, id);
      LeftOutIsOlder(live, history, p, victim, id, y);
    }
  }

  lemma NoneIsLater(live: Table, history: seq<Peer>, p: Peer)
    requires MostRecent(live, history, p.lastSeen)
    ensures forall i :: 0 <= i < |history| ==> history[i].lastSeen <= p.lastSeen
  {
  }

  lemma ReplaceKeepsMostRecent(live: Table, history: seq<Peer>, p: Peer, victim: string)
    requires MostRecent(live, history, p.lastSeen) && p.id !in live && |live| == MAX_PEERS
    requires IsOldest(live, victim)
    ensures MostRecent((live - {victim})[p.id := p], history + [p], p.lastSeen)
  {
    hide LeavesOutOlder, Sighted;
    ReplaceKeepsSighted(live, history, p, victim);
    ReplaceLeavesOutOlder(live, history, p, victim);
  }

  lemma PutKeepsMostRecent(m: Table, history: seq<Peer>, clock: nat, p: Peer, r: Table)
    requires MostRecent(m, history, clock) && clock <= p.lastSeen && PutOutcome(m, p, r)
    ensures MostRecent(r, history + [p], p.lastSeen)
  {
    var live := Pruned(m, p.lastSeen);
    PruneKeepsMostRecent(m, history, clock, p.lastSeen);
    hide MostRecent, Pruned;
    if p.id in live || |live| < MAX_PEERS {
      InsertKeepsMostRecent(live, history, p);
    } else {
      var victim :| IsOldest(live, victim) && r == (live - {victim})[p.id := p];
      assert |live| == MAX_PEERS by { SizeIsBounded(live, history, p.lastSeen); }
      ReplaceKeepsMostRecent(live, history, p, victim);
    }
  }

  lemma SizeIsBounded(m: Table, history: seq<Peer>, now: nat)
    requires MostRecent(m, history, now)
    ensures |m| <= MAX_PEERS
  {
  }

  // ---------------------------------------------------------------------------
  // Whole traces of observations and reads
  // ---------------------------------------------------------------------------

  datatype Event = Observe(peer: Peer) | Read(at: nat)

  function At(e: Event): nat {
    match e case Observe(p) => p.lastSeen case Read(t) => t
  }

  ghost predicate Step(m: Table, e: Event, r: Table) {
    match e
    case Observe(p) => PutOutcome(m, p, r)
    case Read(t) => r == Pruned(m, t)
  }

  ghost predicate Run(tables: seq<Table>, events: seq<Event>) {
    && |tables| == |events| + 1 && tables[0] == map[]
    && (forall i :: 0 <= i < |events| ==> Step(tables[i], events[i], tables[i + 1]))
    && (forall i, j :: 0 <= i < j < |events| ==> At(events[i]) <= At(events[j]))
  }

  function Observed(events: seq<Event>): seq<Peer> {
    if events == [] then []
    else
      var e := events[|events| - 1];
      Observed(events[..|events| - 1]) + if e.Observe? then [e.peer] else []
  }

  /** After any trace with a clock that does not run backwards, the table is the
      most recent part of what was observed, whichever way ties were broken. */
  lemma {:induction false} CacheIsMostRecent(tables: seq<Table>, events: seq<Event>, j: nat)
    requires Run(tables, events) && j < |tables|
    ensures MostRecent(tables[j], Observed(events[..j]), if j == 0 then 0 else At(events[j - 1]))
  {
    if j > 0 {
      var k := j - 1;
      CacheIsMostRecent(tables, events, k);
      assert Step(tables[k], events[k], tables[k + 1]);
      assert events[..j][..k] == events[..k] && events[..j][k] == events[k];
      assert k > 0 ==> At(events[k - 1]) <= At(events[k]);
      var h, clock := Observed(events[..k]), if k == 0 then 0 else At(events[k - 1]);
      hide MostRecent, Pruned, PutOutcome;
      match events[k]
      case Observe(p) => PutKeepsMostRecent(tables[k], h, clock, p, tables[j]);
      case Read(t) =>
        PruneKeepsMostRecent(tables[k], h, clock, t);
        assert h + [] == h;
    }
  }

  /** The last observation of its peer. */
  predicate LastOf(h: seq<Peer>, i: nat) {
    i < |h| && forall k :: i < k < |h| ==> h[k].id != h[i].id
  }

  lemma LastBefore(h: seq<Peer>, id: string)
    requires h != [] && h[|h| - 1].id != id
    ensures forall i: nat :: LastOf(h, i) && h[i].id == id <==> LastOf(h[..|h| - 1], i) && h[i].id == id
  {
    var older := h[..|h| - 1];
    forall i: nat | i < |older| && h[i].id == id ensures LastOf(h, i) <==> LastOf(older, i) {
      assert forall k :: 0 <= k < |older| ==> older[k] == h[k];
    }
  }

  lemma {:induction false} LatestIsLast(h: seq<Peer>, id: string)
    ensures Latest(h, id).Never? <==> forall i :: 0 <= i < |h| ==> h[i].id != id
    ensures forall i: nat :: LastOf(h, i) && h[i].id == id ==> Latest(h, id) == Seen(h[i])
    ensures Latest(h, id).Seen? ==> exists i: nat :: LastOf(h, i) && h[i].id == id && Latest(h, id).peer == h[i]
  {
    if h != [] {
      var n := |h| - 1;
      LatestIsLast(h[..n], id);
      if h[n].id == id {
        assert LastOf(h, n);
      } else {
        LastBefore(h, id);
        hide LastOf;
      }
    }
  }

  /** The same in numbers: at most 256 peers, each as it was last observed less than
      45 seconds ago; and a peer observed since then that is missing was observed no
      later than any of the 256 that the table then holds. */
  lemma CacheHolds(tables: seq<Table>, events: seq<Event>, j: nat, id: string)
    requires Run(tables, events) && 0 < j < |tables|
    ensures var m, h, now := tables[j], Observed(events[..j]), At(events[j - 1]);
      && |m| <= 256
      && (id in m ==>
            exists i: nat :: LastOf(h, i) && h[i].id == id && m[id] == h[i] && now < h[i].lastSeen + 45_000_000_000)
      && (id !in m ==>
            forall i: nat :: LastOf(h, i) && h[i].id == id && now < h[i].lastSeen + 45_000_000_000 ==>
              |m| == 256 && forall y :: y in m ==> h[i].lastSeen <= m[y].lastSeen)
  {
    CacheIsMostRecent(tables, events, j);
    LatestIsLast(Observed(events[..j]), id);
    hide Run, Observed, Latest, LastOf;
  }

  // ---------------------------------------------------------------------------
  // The cache in place
  // ---------------------------------------------------------------------------

  class Cache {
    var peers: Table
    ghost var history: seq<Peer>
    ghost var clock: nat

    ghost predicate Valid()
      reads this
    {
      MostRecent(peers, history, clock) && forall id :: id in peers ==> id != ""
    }

    constructor ()
      ensures Valid() && peers == map[] && history == [] && clock == 0
    {
      peers := map[];
      history, clock := [], 0;
    }

    method PruneLocked(now: nat)
      modifies this`peers
      ensures peers == Pruned(old(peers), now)
    {
      var todo := peers.Keys;
      while todo != {}
        invariant todo <= old(peers).Keys
        invariant forall id :: id in peers <==> id in old(peers) && (id in todo || Live(old(peers)[id], now))
        invariant forall id :: id in peers ==> peers[id] == old(peers)[id]
        decreases todo
      {
        var id :| id in todo;
        todo := todo - {id};
        if peers[id].lastSeen + PEER_TTL <= now {
          peers := peers - {id};
        }
      }
    }

    /** The loop that looks for the entry seen longest ago; "" stands for none yet. */
    method OldestID() returns (oldestID: string)
      requires peers != map[] && forall id :: id in peers ==> id != ""
      ensures IsOldest(peers, oldestID)
    {
      assert peers.Keys != {};
      oldestID := "";
      var oldest := 0;
      var todo := peers.Keys;
      while todo != {}
        invariant todo <= peers.Keys
        invariant oldestID == "" ==> todo == peers.Keys
        invariant oldestID != "" ==> oldestID in peers && oldest == peers[oldestID].lastSeen
        invariant oldestID != "" ==> forall id :: id in peers && id !in todo ==> oldest <= peers[id].lastSeen
        decreases todo
      {
        var id :| id in todo;
        todo := todo - {id};
        if oldestID == "" || peers[id].lastSeen < oldest {
          oldestID, oldest := id, peers[id].lastSeen;
        }
      }
    }

    /** Records an observation, made at the current time under the lock. */
    method PutPeerLocked(p: Peer)
      requires Valid() && clock <= p.lastSeen && p.id != ""
      modifies this
      ensures Valid() && history == old(history) + [p] && clock == p.lastSeen
      ensures PutOutcome(old(peers), p, peers)
    {
      hide MostRecent, Pruned;
      PruneLocked(p.lastSeen);
      assert forall id :: id in peers ==> id in old(peers) by { PrunedKeys(old(peers), p.lastSeen); }
      if p.id !in peers && |peers| >= MAX_PEERS {
        var oldestID := OldestID();
        peers := peers - {oldestID};
      }
      peers := peers[p.id := p];
      PutKeepsMostRecent(old(peers), history, clock, p, peers);
      history, clock := history + [p], p.lastSeen;
    }

    /** The live peers, each once; the program then sorts them by name. */
    method Peers(now: nat) returns (out: seq<Peer>)
      requires Valid() && clock <= now
      modifies this
      ensures Valid() && history == old(history) && clock == now
      ensures peers == Pruned(old(peers), now)
      ensures forall id :: id in peers ==> peers[id] in out
      ensures |out| == |peers| && forall i :: 0 <= i < |out| ==> exists id :: id in peers && peers[id] == out[i]
    {
      hide MostRecent;
      PruneKeepsMostRecent(peers, history, clock, now);
      PruneLocked(now);
      clock := now;
      out := [];
      var todo := peers.Keys;
      while todo != {}
        invariant todo <= peers.Keys
        invariant forall id :: id in peers && id !in todo ==> peers[id] in out
        invariant |out| + |todo| == |peers.Keys|
        invariant forall i :: 0 <= i < |out| ==> exists id :: id in peers && peers[id] == out[i]
        decreases todo
      {
        var id :| id in todo;
        todo := todo - {id};
        out := out + [peers[id]];
      }
    }
  }

  lemma PrunedKeys(m: Table, now: nat)
    ensures forall id :: id in Pruned(m, now) ==> id in m
  {
  }
}
