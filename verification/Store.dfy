// The trust store of internal/pairing/store.go.
//
// `Snapshot` is the whole store as a value: the two maps in memory and the file
// on disk.  Each operation is specified as a change from snapshot to snapshot in
// which a save either commits everything or changes nothing; the class below
// carries the program's own map updates and hand-written roll-backs.
module Store {
  import opened Wrappers

  datatype PeerState = Pending | Trusted | Rejected | Other(text: string)

  datatype Peer = Peer(
    id: string,
    name: string,
    fingerprint: string,
    state: PeerState,
    code: string,        // comparison code
    token: string,       // approval token
    updatedAt: nat)

  type Peers = map<string, Peer>

  /** The file: missing, not readable, not parseable, or a JSON object of peers. */
  datatype File = Absent | Unreadable | Corrupt | Saved(peers: Peers)

  datatype Snapshot = Snapshot(peers: Peers, pending: Peers, disk: File)

  datatype Error =
    | IdentityChanged | AlreadyTrusted | AlreadyPending | TooManyPending | NoToken
    | NoMatch | NoPendingMatch | Ambiguous | RequestChanged
    | EmptyName | UnknownPeer | SaveFailed | ReadFailed | ParseFailed

  type Answer<+T> = Result<T, Error>

  /** The library text functions the store calls, and its two tunable limits. */
  datatype Config = Config(
    trim: string -> string,
    sameName: (string, string) -> bool,    // case-insensitive comparison
    normalize: string -> string,
    pendingTTL: nat,
    maxPending: nat)

  // ---------------------------------------------------------------------------
  // Operations on snapshots
  // ---------------------------------------------------------------------------

  function Unexpired(pending: Peers, ttl: nat, now: nat): Peers {
    map id | id in pending && now < pending[id].updatedAt + ttl :: pending[id]
  }

  function Pruned(cfg: Config, s: Snapshot, now: nat): Snapshot {
    s.(pending := Unexpired(s.pending, cfg.pendingTTL, now))
  }

  /** An empty list of states allows every state. */
  predicate Allowed(p: Peer, states: seq<PeerState>) {
    states == [] || p.state in states
  }

  predicate Named(cfg: Config, id: string, p: Peer, query: string) {
    cfg.sameName(p.name, query) || query <= id
  }

  function Candidates(cfg: Config, m: Peers, query: string, states: seq<PeerState>): set<string> {
    set id | id in m && Allowed(m[id], states) && Named(cfg, id, m[id], query)
  }

  datatype Match = Match(id: string, peer: Peer)

  /** An exact ID wins, a pending one first; otherwise the reference must name
      exactly one entry of the two maps together. */
  ghost function Resolution(cfg: Config, s: Snapshot, text: string, states: seq<PeerState>): Answer<Match> {
    var query := cfg.trim(text);
    var inPeers, inPending := Candidates(cfg, s.peers, query, states), Candidates(cfg, s.pending, query, states);
    if query in s.pending && Allowed(s.pending[query], states) then Ok(Match(query, s.pending[query]))
    else if query in s.peers && Allowed(s.peers[query], states) then Ok(Match(query, s.peers[query]))
    else if |inPeers| + |inPending| == 0 then Err(if states == [Pending] then NoPendingMatch else NoMatch)
    else if |inPeers| + |inPending| > 1 then Err(Ambiguous)
    else if inPending == {} then var id :| id in inPeers; Ok(Match(id, s.peers[id]))
    else var id :| id in inPending; Ok(Match(id, s.pending[id]))
  }

  /** A save commits the new snapshot or leaves the old one in force. */
  function Commit(before: Snapshot, after: Snapshot, saves: bool): (Snapshot, Answer<()>) {
    if saves then (after.(disk := Saved(after.peers)), Ok(())) else (before, Err(SaveFailed))
  }

  function PutPendingSpec(cfg: Config, s: Snapshot, p: Peer, token: Answer<string>, pruneAt: nat, now: nat)
    : (Snapshot, Answer<Peer>)
  {
    var q := Pruned(cfg, s, pruneAt);
    if p.id in q.peers && q.peers[p.id].state == Trusted then
      (q, Err(if q.peers[p.id].fingerprint != p.fingerprint then IdentityChanged else AlreadyTrusted))
    else if p.id in q.pending && q.pending[p.id].fingerprint != p.fingerprint then (q, Err(AlreadyPending))
    else if p.id !in q.pending && |q.pending| >= cfg.maxPending then (q, Err(TooManyPending))
    else if token.Err? then (q, Err(token.error))
    else
      var r := p.(state := Pending, updatedAt := now, token := token.value);
      (q.(pending := q.pending[p.id := r]), Ok(r))
  }

  predicate Confirms(p: Peer, token: string, fingerprint: string, code: string) {
    token != "" && token == p.token && fingerprint == p.fingerprint && code == p.code
  }

  function Settled(p: Peer, state: PeerState, now: nat): Peer {
    p.(state := state, code := "", token := "", updatedAt := now)
  }

  /** Approve and Reject both move one entry from pending to the stored peers. */
  function Moved(s: Snapshot, m: Match, state: PeerState, now: nat): Snapshot {
    s.(peers := s.peers[m.id := Settled(m.peer, state, now)], pending := s.pending - {m.id})
  }

  ghost function ApproveSpec(
    cfg: Config, s: Snapshot, text: string, token: string, fingerprint: string, code: string,
    saves: bool, pruneAt: nat, now: nat): (Snapshot, Answer<()>)
  {
    var q := Pruned(cfg, s, pruneAt);
    var r := Resolution(cfg, q, text, [Pending]);
    if r.Err? then (q, Err(r.error))
    else if !Confirms(r.value.peer, token, fingerprint, code) then (q, Err(RequestChanged))
    else Commit(q, Moved(q, r.value, Trusted, now), saves)
  }

  ghost function RejectSpec(cfg: Config, s: Snapshot, text: string, saves: bool, pruneAt: nat, now: nat)
    : (Snapshot, Answer<()>)
  {
    var q := Pruned(cfg, s, pruneAt);
    var r := Resolution(cfg, q, text, []);
    if r.Err? then (q, Err(r.error))
    else Commit(q, Moved(q, r.value, Rejected, now), saves)
  }

  ghost function UnpairSpec(cfg: Config, s: Snapshot, text: string, saves: bool): (Snapshot, Answer<()>) {
    var r := Resolution(cfg, s, text, []);
    if r.Err? then (s, Err(r.error))
    else Commit(s, s.(peers := s.peers - {r.value.id}, pending := s.pending - {r.value.id}), saves)
  }

  function UpdateNameSpec(cfg: Config, s: Snapshot, id: string, text: string, saves: bool, now: nat)
    : (Snapshot, Answer<()>)
  {
    var name := cfg.normalize(text);
    if name == "" then (s, Err(EmptyName))
    else if id !in s.peers then (s, Err(UnknownPeer))
    else if s.peers[id].name == name then (s, Ok(()))
    else Commit(s, s.(peers := s.peers[id := s.peers[id].(name := name, updatedAt := now)]), saves)
  }

  /** What Load keeps of a file: no pending entries, no pairing secrets. */
  function Cleaned(m: Peers): Peers {
    map id | id in m && m[id].state != Pending :: m[id].(token := "", code := "")
  }

  function LoadPeers(f: File): Peers {
    if f.Saved? then Cleaned(f.peers) else map[]
  }

  function LoadSpec(f: File, saves: bool): Answer<Snapshot> {
    match f
    case Absent => if saves then Ok(Snapshot(map[], map[], Saved(map[]))) else Err(SaveFailed)
    case Unreadable => Err(ReadFailed)
    case Corrupt => Err(ParseFailed)
    case Saved(m) =>
      if forall id :: id in m ==> m[id].state != Pending then Ok(Snapshot(Cleaned(m), map[], f))
      else if saves then Ok(Snapshot(Cleaned(m), map[], Saved(Cleaned(m)))) else Err(SaveFailed)
  }

  /** Both maps together; a pending entry hides a stored one. */
  function Known(s: Snapshot): Peers {
    s.peers + s.pending
  }

  ghost predicate Lists(out: seq<Match>, m: Peers) {
    && (forall i :: 0 <= i < |out| ==> out[i].id in m && out[i].peer == m[out[i].id])
    && (forall i, j :: 0 <= i < j < |out| ==> out[i].id != out[j].id)
    && (forall id :: id in m ==> Match(id, m[id]) in out)
  }

  // ---------------------------------------------------------------------------
  // The shape every reachable store has
  // ---------------------------------------------------------------------------

  ghost predicate Shaped(cfg: Config, s: Snapshot) {
    && (forall id :: id in s.peers ==>
          s.peers[id].state != Pending && s.peers[id].code == "" && s.peers[id].token == "")
    && (forall id :: id in s.pending ==>
          && s.pending[id].state == Pending && s.pending[id].id == id
          && (id in s.peers ==> s.peers[id].state != Trusted))
    && |s.pending| <= cfg.maxPending
    && !s.disk.Unreadable? && !s.disk.Corrupt?
    && LoadPeers(s.disk) == s.peers
  }

  lemma {:induction false} SubmapCardinality(a: Peers, b: Peers)
    requires a.Keys <= b.Keys
    ensures |a| <= |b|
  {
    assert b.Keys == a.Keys + (b.Keys - a.Keys);
    assert |a.Keys| == |a| && |b.Keys| == |b|;
  }

  lemma PruneKeepsShape(cfg: Config, s: Snapshot, now: nat)
    requires Shaped(cfg, s)
    ensures Shaped(cfg, Pruned(cfg, s, now))
  {
    SubmapCardinality(Pruned(cfg, s, now).pending, s.pending);
  }

  lemma InsertCardinality(m: Peers, id: string, p: Peer)
    ensures |m[id := p]| == |m| + if id in m then 0 else 1
  {
    var n := m[id := p];
    assert n.Keys == m.Keys + {id};
    assert |n.Keys| == |n| && |m.Keys| == |m|;
  }

  lemma InsertKeepsShape(cfg: Config, s: Snapshot, p: Peer)
    requires Shaped(cfg, s) && p.state == Pending
    requires p.id in s.peers ==> s.peers[p.id].state != Trusted
    requires p.id in s.pending || |s.pending| < cfg.maxPending
    ensures Shaped(cfg, s.(pending := s.pending[p.id := p]))
  {
    InsertCardinality(s.pending, p.id, p);
  }

  lemma PutKeepsShape(cfg: Config, s: Snapshot, p: Peer, token: Answer<string>, pruneAt: nat, now: nat)
    requires Shaped(cfg, s)
    ensures Shaped(cfg, PutPendingSpec(cfg, s, p, token, pruneAt, now).0)
  {
    PruneKeepsShape(cfg, s, pruneAt);
    var q, r := Pruned(cfg, s, pruneAt), PutPendingSpec(cfg, s, p, token, pruneAt, now);
    hide Pruned, Shaped;
    if r.1.Ok? {
      InsertKeepsShape(cfg, q, r.1.value);
    }
  }

  /** Undoing an insertion: put the old entry back, or delete the new one. */
  lemma UndoPut(m: Peers, id: string, p: Peer)
    ensures id in m ==> m[id := p][id := m[id]] == m
    ensures id !in m ==> m[id := p] - {id} == m
  {
  }

  /** Putting back what Reject had moved. */
  lemma RollBack(peers: Peers, pending: Peers, id: string, p: Peer, oldPeer: Peer, oldPending: Peer)
    requires id in peers ==> oldPeer == peers[id]
    requires id in pending ==> oldPending == pending[id]
    ensures (if id in peers then peers[id := p][id := oldPeer] else peers[id := p] - {id}) == peers
    ensures (if id in pending then (pending - {id})[id := oldPending] else pending - {id}) == pending
  {
  }

  lemma UndoRemove(m: Peers, id: string)
    ensures id in m ==> (m - {id})[id := m[id]] == m
    ensures id !in m ==> m - {id} == m
  {
  }

  lemma PendingIsResolved(cfg: Config, s: Snapshot, text: string)
    requires Shaped(cfg, s) && Resolution(cfg, s, text, [Pending]).Ok?
    ensures var m := Resolution(cfg, s, text, [Pending]).value; m.id in s.pending && m.peer == s.pending[m.id]
  {
    ResolvedIsStored(cfg, s, text, [Pending]);
    hide Resolution;
  }

  /** A resolution names an entry that is stored and allowed. */
  lemma ResolvedIsStored(cfg: Config, s: Snapshot, text: string, states: seq<PeerState>)
    requires Resolution(cfg, s, text, states).Ok?
    ensures var m := Resolution(cfg, s, text, states).value;
      && Allowed(m.peer, states)
      && ((m.id in s.pending && m.peer == s.pending[m.id]) || (m.id in s.peers && m.peer == s.peers[m.id]))
  {
    var query := cfg.trim(text);
    var inPeers, inPending := Candidates(cfg, s.peers, query, states), Candidates(cfg, s.pending, query, states);
    assert |inPeers| == 1 && inPending == {} ==> inPeers != {};
  }

  // ---------------------------------------------------------------------------
  // Which entry a reference names
  // ---------------------------------------------------------------------------

  ghost predicate Fits(p: Peer, states: seq<PeerState>) {
    states == [] || exists i :: 0 <= i < |states| && p.state == states[i]
  }

  /** The name, but for case, or the start of the ID. */
  ghost predicate Mentions(cfg: Config, id: string, p: Peer, query: string) {
    cfg.sameName(p.name, query) || (|query| <= |id| && query == id[..|query|])
  }

  ghost predicate Exact(m: Peers, query: string, states: seq<PeerState>) {
    query in m && Fits(m[query], states)
  }

  ghost predicate Meant(cfg: Config, m: Peers, query: string, states: seq<PeerState>, id: string) {
    id in m && Fits(m[id], states) && Mentions(cfg, id, m[id], query)
  }

  /** The entry of `id` in this map, and no other entry of either, is meant. */
  ghost predicate OnlyMeant(cfg: Config, m: Peers, other: Peers, query: string, states: seq<PeerState>, id: string) {
    && Meant(cfg, m, query, states, id)
    && (forall x :: Meant(cfg, m, query, states, x) ==> x == id)
    && (forall x :: !Meant(cfg, other, query, states, x))
  }

  /** The pending entry of an exact ID, else its stored one, else the only one meant. */
  ghost predicate Names(cfg: Config, s: Snapshot, query: string, states: seq<PeerState>, id: string, p: Peer) {
    if Exact(s.pending, query, states) then id == query && p == s.pending[query]
    else if Exact(s.peers, query, states) then id == query && p == s.peers[query]
    else
      || (OnlyMeant(cfg, s.peers, s.pending, query, states, id) && p == s.peers[id])
      || (OnlyMeant(cfg, s.pending, s.peers, query, states, id) && p == s.pending[id])
  }

  lemma CandidatesAreMeant(cfg: Config, m: Peers, query: string, states: seq<PeerState>)
    ensures forall id :: id in Candidates(cfg, m, query, states) <==> Meant(cfg, m, query, states, id)
  {
  }

  lemma {:induction false} OnlyMember(s: set<string>, id: string)
    requires id in s && forall x :: x in s ==> x == id
    ensures |s| == 1
  {
    assert s == {id};
  }

  lemma OnlyMeantResolves(cfg: Config, s: Snapshot, text: string, states: seq<PeerState>, id: string)
    requires var q := cfg.trim(text); !Exact(s.pending, q, states) && !Exact(s.peers, q, states)
    ensures OnlyMeant(cfg, s.peers, s.pending, cfg.trim(text), states, id) ==>
      Resolution(cfg, s, text, states) == Ok(Match(id, s.peers[id]))
    ensures OnlyMeant(cfg, s.pending, s.peers, cfg.trim(text), states, id) ==>
      Resolution(cfg, s, text, states) == Ok(Match(id, s.pending[id]))
  {
    var q := cfg.trim(text);
    var inPeers, inPending := Candidates(cfg, s.peers, q, states), Candidates(cfg, s.pending, q, states);
    CandidatesAreMeant(cfg, s.peers, q, states);
    CandidatesAreMeant(cfg, s.pending, q, states);
    assert !(q in s.pending && Allowed(s.pending[q], states)) && !(q in s.peers && Allowed(s.peers[q], states));
    hide Candidates, Meant;
    if OnlyMeant(cfg, s.peers, s.pending, q, states, id) {
      OnlyMember(inPeers, id);
      assert inPending == {};
    }
    if OnlyMeant(cfg, s.pending, s.peers, q, states, id) {
      OnlyMember(inPending, id);
      assert inPeers == {};
    }
  }

  lemma ResolvedIsOnlyMeant(cfg: Config, s: Snapshot, text: string, states: seq<PeerState>)
    requires var q := cfg.trim(text); !Exact(s.pending, q, states) && !Exact(s.peers, q, states)
    requires Resolution(cfg, s, text, states).Ok?
    ensures var q, m := cfg.trim(text), Resolution(cfg, s, text, states).value;
      || (OnlyMeant(cfg, s.peers, s.pending, q, states, m.id) && m.peer == s.peers[m.id])
      || (OnlyMeant(cfg, s.pending, s.peers, q, states, m.id) && m.peer == s.pending[m.id])
  {
    var q, m := cfg.trim(text), Resolution(cfg, s, text, states).value;
    var inPeers, inPending := Candidates(cfg, s.peers, q, states), Candidates(cfg, s.pending, q, states);
    CandidatesAreMeant(cfg, s.peers, q, states);
    CandidatesAreMeant(cfg, s.pending, q, states);
    assert !(q in s.pending && Allowed(s.pending[q], states)) && !(q in s.peers && Allowed(s.peers[q], states));
    hide Candidates, Meant;
    assert |inPeers| == 1 && inPending == {} ==> inPeers != {};
    SingletonMember(if inPending == {} then inPeers else inPending, m.id);
  }

  /** A reference resolves to an entry just when it names that entry, whatever order
      the maps are walked in; an exact ID names its own entry whatever else it is the
      start of.  An ID that is in both maps counts twice, so a mere prefix of it is
      ambiguous. */
  lemma ResolvesIffUnambiguous(
      cfg: Config, s: Snapshot, text: string, states: seq<PeerState>, id: string, p: Peer)
    ensures Resolution(cfg, s, text, states) == Ok(Match(id, p)) <==> Names(cfg, s, cfg.trim(text), states, id, p)
  {
    var q := cfg.trim(text);
    assert forall x, m: Peers :: x in m ==> (Fits(m[x], states) <==> Allowed(m[x], states));
    if !Exact(s.pending, q, states) && !Exact(s.peers, q, states) {
      hide Resolution, OnlyMeant;
      OnlyMeantResolves(cfg, s, text, states, id);
      if Resolution(cfg, s, text, states).Ok? {
        ResolvedIsOnlyMeant(cfg, s, text, states);
      }
    }
  }

  /** A reference that means nothing, and one that means too much. */
  lemma ResolutionFails(cfg: Config, s: Snapshot, text: string, states: seq<PeerState>)
    requires forall id, p :: !Names(cfg, s, cfg.trim(text), states, id, p)
    ensures Resolution(cfg, s, text, states) == Err(
      if exists id ::
        Meant(cfg, s.peers, cfg.trim(text), states, id) || Meant(cfg, s.pending, cfg.trim(text), states, id)
      then Ambiguous else if states == [Pending] then NoPendingMatch else NoMatch)
  {
    var q := cfg.trim(text);
    var inPeers, inPending := Candidates(cfg, s.peers, q, states), Candidates(cfg, s.pending, q, states);
    CandidatesAreMeant(cfg, s.peers, q, states);
    CandidatesAreMeant(cfg, s.pending, q, states);
    var r := Resolution(cfg, s, text, states);
    if r.Ok? {
      ResolvesIffUnambiguous(cfg, s, text, states, r.value.id, r.value.peer);
    }
    hide Candidates, Meant, Names;
    assert |inPeers| + |inPending| == 0 <==> inPeers == {} && inPending == {};
  }

  // ---------------------------------------------------------------------------
  // Operations keep the shape
  // ---------------------------------------------------------------------------

  /** Saving a store without pending entries and secrets and loading it back. */
  lemma CleanedIsIdentity(m: Peers)
    requires forall id :: id in m ==> m[id].state != Pending && m[id].code == "" && m[id].token == ""
    ensures Cleaned(m) == m
  {
  }

  lemma CommitKeepsShape(cfg: Config, before: Snapshot, after: Snapshot, saves: bool)
    requires Shaped(cfg, before)
    requires forall id :: id in after.peers ==>
      after.peers[id].state != Pending && after.peers[id].code == "" && after.peers[id].token == ""
    requires after.pending.Keys <= before.pending.Keys
    requires forall id :: id in after.pending ==>
      after.pending[id] == before.pending[id] && (id in after.peers ==> after.peers[id].state != Trusted)
    ensures Shaped(cfg, Commit(before, after, saves).0)
  {
    CleanedIsIdentity(after.peers);
    SubmapCardinality(after.pending, before.pending);
  }

  lemma MoveKeepsShape(cfg: Config, s: Snapshot, m: Match, state: PeerState, saves: bool, now: nat)
    requires Shaped(cfg, s) && state != Pending
    ensures Shaped(cfg, Commit(s, Moved(s, m, state, now), saves).0)
  {
    var after := Moved(s, m, state, now);
    assert after.pending.Keys <= s.pending.Keys;
    CommitKeepsShape(cfg, s, after, saves);
  }

  lemma ApproveKeepsShape(
    cfg: Config, s: Snapshot, text: string, token: string, fingerprint: string, code: string,
    saves: bool, pruneAt: nat, now: nat)
    requires Shaped(cfg, s)
    ensures Shaped(cfg, ApproveSpec(cfg, s, text, token, fingerprint, code, saves, pruneAt, now).0)
  {
    PruneKeepsShape(cfg, s, pruneAt);
    var q := Pruned(cfg, s, pruneAt);
    var r := Resolution(cfg, q, text, [Pending]);
    hide Pruned, Resolution, Shaped, Commit, Moved;
    if r.Ok? { MoveKeepsShape(cfg, q, r.value, Trusted, saves, now); }
  }

  lemma RejectKeepsShape(cfg: Config, s: Snapshot, text: string, saves: bool, pruneAt: nat, now: nat)
    requires Shaped(cfg, s)
    ensures Shaped(cfg, RejectSpec(cfg, s, text, saves, pruneAt, now).0)
  {
    PruneKeepsShape(cfg, s, pruneAt);
    var q := Pruned(cfg, s, pruneAt);
    var r := Resolution(cfg, q, text, []);
    hide Pruned, Resolution, Shaped, Commit, Moved;
    if r.Ok? { MoveKeepsShape(cfg, q, r.value, Rejected, saves, now); }
  }

  lemma UnpairKeepsShape(cfg: Config, s: Snapshot, text: string, saves: bool)
    requires Shaped(cfg, s)
    ensures Shaped(cfg, UnpairSpec(cfg, s, text, saves).0)
  {
    var r := Resolution(cfg, s, text, []);
    hide Resolution;
    if r.Ok? {
      CommitKeepsShape(cfg, s, s.(peers := s.peers - {r.value.id}, pending := s.pending - {r.value.id}), saves);
    }
  }

  lemma RenameKeepsShape(cfg: Config, s: Snapshot, id: string, text: string, saves: bool, now: nat)
    requires Shaped(cfg, s)
    ensures Shaped(cfg, UpdateNameSpec(cfg, s, id, text, saves, now).0)
  {
    var name := cfg.normalize(text);
    if id in s.peers {
      CommitKeepsShape(cfg, s, s.(peers := s.peers[id := s.peers[id].(name := name, updatedAt := now)]), saves);
    }
  }

  // ---------------------------------------------------------------------------
  // The store in place
  // ---------------------------------------------------------------------------

  class PeerStore {
    const cfg: Config
    var peers: Peers
    var pending: Peers
    var disk: File

    ghost function Snap(): Snapshot
      reads this
    {
      Snapshot(peers, pending, disk)
    }

    ghost predicate Valid()
      reads this
    {
      Shaped(cfg, Snap())
    }

    constructor (cfg: Config, peers: Peers, disk: File)
      ensures this.cfg == cfg && Snap() == Snapshot(peers, map[], disk)
    {
      this.cfg := cfg;
      this.peers := peers;
      this.pending := map[];
      this.disk := disk;
    }

    /** Opens a store file, dropping pending entries and secrets of older releases. */
    static method Load(cfg: Config, f: File, saves: bool) returns (r: Answer<PeerStore>)
      ensures r.Ok? ==> fresh(r.value) && r.value.cfg == cfg && r.value.Valid()
      ensures match LoadSpec(f, saves)
              case Ok(s) => r.Ok? && r.value.Snap() == s
              case Err(e) => r == Err(e)
    {
      match f {
        case Absent =>
          if !saves {
            return Err(SaveFailed);
          }
          var store := new PeerStore(cfg, map[], Saved(map[]));
          r := Ok(store);
        case Unreadable =>
          r := Err(ReadFailed);
        case Corrupt =>
          r := Err(ParseFailed);
        case Saved(loaded) =>
          var kept: Peers := map[];
          var removedPending := false;
          var todo := loaded.Keys;
          while todo != {}
            invariant todo <= loaded.Keys
            invariant forall id :: id in kept <==> id in loaded && id !in todo && loaded[id].state != Pending
            invariant forall id :: id in kept ==> kept[id] == loaded[id].(token := "", code := "")
            invariant removedPending <==> exists id :: id in loaded && id !in todo && loaded[id].state == Pending
            decreases todo
          {
            var id :| id in todo;
            todo := todo - {id};
            if loaded[id].state == Pending {
              removedPending := true;
            } else {
              kept := kept[id := loaded[id].(token := "", code := "")];
            }
          }
          assert kept == Cleaned(loaded);
          CleanedIsIdentity(kept);
          if removedPending && !saves {
            return Err(SaveFailed);
          }
          var store := new PeerStore(cfg, kept, if removedPending then Saved(kept) else f);
          r := Ok(store);
      }
    }

    /** Writes a temporary file and renames it; a failure leaves the old file. */
    method SaveLocked(saves: bool) returns (ok: bool)
      modifies this`disk
      ensures ok == saves
      ensures disk == if saves then Saved(peers) else old(disk)
    {
      if saves {
        disk := Saved(peers);
      }
      ok := saves;
    }

    method PrunePendingLocked(now: nat)
      modifies this`pending
      ensures Snap() == Pruned(cfg, old(Snap()), now)
    {
      var ids := pending.Keys;
      var todo := ids;
      while todo != {}
        invariant todo <= ids == old(pending).Keys
        invariant forall id :: id in pending <==>
          id in ids && (id in todo || now < old(pending)[id].updatedAt + cfg.pendingTTL)
        invariant forall id :: id in pending ==> pending[id] == old(pending)[id]
        decreases todo
      {
        var id :| id in todo;
        todo := todo - {id};
        if pending[id].updatedAt + cfg.pendingTTL <= now {
          pending := pending - {id};
        }
      }
    }

    /** The entries of one map that a reference may mean, in map order. */
    method Matching(m: Peers, query: string, states: seq<PeerState>) returns (out: seq<Match>)
      ensures |out| == |Candidates(cfg, m, query, states)|
      ensures forall i :: 0 <= i < |out| ==>
        out[i].id in Candidates(cfg, m, query, states) && out[i].peer == m[out[i].id]
    {
      out := [];
      ghost var found: set<string> := {};
      var todo := m.Keys;
      while todo != {}
        invariant todo <= m.Keys
        invariant found == (set id | id in m && id !in todo && Allowed(m[id], states) && Named(cfg, id, m[id], query))
        invariant |out| == |found|
        invariant forall i :: 0 <= i < |out| ==> out[i].id in found && out[i].peer == m[out[i].id]
        decreases todo
      {
        var id :| id in todo;
        todo := todo - {id};
        if Allowed(m[id], states) && (cfg.sameName(m[id].name, query) || query <= id) {
          out := out + [Match(id, m[id])];
          found := found + {id};
        }
      }
      assert found == Candidates(cfg, m, query, states);
    }

    method ResolveLocked(text: string, states: seq<PeerState>) returns (r: Answer<Match>)
      ensures r == Resolution(cfg, Snap(), text, states)
    {
      var query := cfg.trim(text);
      if query in pending && Allowed(pending[query], states) {
        return Ok(Match(query, pending[query]));
      }
      if query in peers && Allowed(peers[query], states) {
        return Ok(Match(query, peers[query]));
      }
      var matches := Matching(peers, query, states);
      var more := Matching(pending, query, states);
      ghost var inPeers := Candidates(cfg, peers, query, states);
      ghost var inPending := Candidates(cfg, pending, query, states);
      if |matches| + |more| == 0 {
        return Err(if states == [Pending] then NoPendingMatch else NoMatch);
      }
      if |matches| + |more| > 1 {
        return Err(Ambiguous);
      }
      if |matches| == 1 {
        SingletonMember(inPeers, matches[0].id);
        r := Ok(matches[0]);
      } else {
        SingletonMember(inPending, more[0].id);
        r := Ok(more[0]);
      }
    }

    method PutPending(p: Peer, token: Answer<string>, pruneAt: nat, now: nat) returns (r: Answer<Peer>)
      requires Valid() && pruneAt <= now
      modifies this`pending
      ensures Valid()
      ensures (Snap(), r) == PutPendingSpec(cfg, old(Snap()), p, token, pruneAt, now)
    {
      PutKeepsShape(cfg, Snap(), p, token, pruneAt, now);
      PrunePendingLocked(pruneAt);
      if p.id in peers && peers[p.id].state == Trusted {
        if peers[p.id].fingerprint != p.fingerprint {
          return Err(IdentityChanged);
        }
        return Err(AlreadyTrusted);
      }
      if p.id in pending && pending[p.id].fingerprint != p.fingerprint {
        return Err(AlreadyPending);
      }
      if p.id !in pending && |pending| >= cfg.maxPending {
        return Err(TooManyPending);
      }
      if token.Err? {
        return Err(token.error);
      }
      var stored := p.(state := Pending, updatedAt := now, token := token.value);
      pending := pending[p.id := stored];
      r := Ok(stored);
    }

    method Approve(text: string, token: string, fingerprint: string, code: string, saves: bool, pruneAt: nat, now: nat)
      returns (r: Answer<()>)
      requires Valid() && pruneAt <= now
      modifies this`peers, this`pending, this`disk
      ensures Valid()
      ensures (Snap(), r) == ApproveSpec(cfg, old(Snap()), text, token, fingerprint, code, saves, pruneAt, now)
    {
      ApproveKeepsShape(cfg, Snap(), text, token, fingerprint, code, saves, pruneAt, now);
      PruneKeepsShape(cfg, Snap(), pruneAt);
      PrunePendingLocked(pruneAt);
      var found := ResolveLocked(text, [Pending]);
      if found.Err? {
        return Err(found.error);
      }
      var id, p := found.value.id, found.value.peer;
      if token == "" || token != p.token || fingerprint != p.fingerprint || code != p.code {
        return Err(RequestChanged);
      }
      PendingIsResolved(cfg, Snap(), text);
      hide Shaped, Resolution, Pruned;
      UndoPut(peers, id, Settled(p, Trusted, now));
      UndoRemove(pending, id);
      var request := p;
      pending := pending - {id};
      var hadOld := id in peers;
      var oldPeer := if hadOld then peers[id] else p;
      p := p.(state := Trusted, code := "", token := "", updatedAt := now);
      peers := peers[id := p];
      var ok := SaveLocked(saves);
      if !ok {
        if hadOld {
          peers := peers[id := oldPeer];
        } else {
          peers := peers - {id};
        }
        pending := pending[id := request];
        return Err(SaveFailed);
      }
      r := Ok(());
    }

    method Reject(text: string, saves: bool, pruneAt: nat, now: nat) returns (r: Answer<()>)
      requires Valid() && pruneAt <= now
      modifies this`peers, this`pending, this`disk
      ensures Valid()
      ensures (Snap(), r) == RejectSpec(cfg, old(Snap()), text, saves, pruneAt, now)
    {
      hide Resolution, Shaped, Unexpired, Candidates;
      RejectKeepsShape(cfg, Snap(), text, saves, pruneAt, now);
      PrunePendingLocked(pruneAt);
      var found := ResolveLocked(text, []);
      if found.Err? {
        return Err(found.error);
      }
      var id, p := found.value.id, found.value.peer;
      ghost var q := Snap();
      ghost var moved := Moved(q, found.value, Rejected, now);
      assert RejectSpec(cfg, old(Snap()), text, saves, pruneAt, now) == Commit(q, moved, saves);
      var hadPeer, hadPending := id in peers, id in pending;
      var oldPeer := if hadPeer then peers[id] else p;
      var oldPending := if hadPending then pending[id] else p;
      p := p.(state := Rejected, code := "", token := "", updatedAt := now);
      assert moved == Snapshot(peers[id := p], pending - {id}, disk);
      hide *;
      pending := pending - {id};
      peers := peers[id := p];
      var ok := SaveLocked(saves);
      if !ok {
        peers := if hadPeer then peers[id := oldPeer] else peers - {id};
        pending := if hadPending then pending[id := oldPending] else pending;
        RollBack(q.peers, q.pending, id, p, oldPeer, oldPending);
        return Err(SaveFailed);
      }
      r := Ok(());
    }

    method Unpair(text: string, saves: bool) returns (r: Answer<()>)
      requires Valid()
      modifies this`peers, this`pending, this`disk
      ensures Valid()
      ensures (Snap(), r) == UnpairSpec(cfg, old(Snap()), text, saves)
    {
      UnpairKeepsShape(cfg, Snap(), text, saves);
      var found := ResolveLocked(text, []);
      if found.Err? {
        return Err(found.error);
      }
      var id := found.value.id;
      hide Shaped, Resolution;
      UndoRemove(peers, id);
      UndoRemove(pending, id);
      var hadPeer, hadPending := id in peers, id in pending;
      var oldPeer := if hadPeer then peers[id] else found.value.peer;
      var oldPending := if hadPending then pending[id] else found.value.peer;
      peers := peers - {id};
      pending := pending - {id};
      var ok := SaveLocked(saves);
      if !ok {
        if hadPeer {
          peers := peers[id := oldPeer];
        }
        if hadPending {
          pending := pending[id := oldPending];
        }
        return Err(SaveFailed);
      }
      r := Ok(());
    }

    method UpdateName(id: string, text: string, saves: bool, now: nat) returns (r: Answer<()>)
      requires Valid()
      modifies this`peers, this`disk
      ensures Valid()
      ensures (Snap(), r) == UpdateNameSpec(cfg, old(Snap()), id, text, saves, now)
    {
      RenameKeepsShape(cfg, Snap(), id, text, saves, now);
      var name := cfg.normalize(text);
      if name == "" {
        return Err(EmptyName);
      }
      if id !in peers {
        return Err(UnknownPeer);
      }
      var oldPeer := peers[id];
      if oldPeer.name == name {
        return Ok(());
      }
      peers := peers[id := oldPeer.(name := name, updatedAt := now)];
      var ok := SaveLocked(saves);
      if !ok {
        peers := peers[id := oldPeer];
        assert peers == old(peers);
        return Err(SaveFailed);
      }
      r := Ok(());
    }

    /** The entry for an exact ID, a pending one first. */
    method Get(id: string, now: nat) returns (r: Answer<Peer>)
      requires Valid()
      modifies this`pending
      ensures Valid() && Snap() == Pruned(cfg, old(Snap()), now)
      ensures r == if id in pending then Ok(pending[id]) else if id in peers then Ok(peers[id]) else Err(UnknownPeer)
    {
      PruneKeepsShape(cfg, Snap(), now);
      PrunePendingLocked(now);
      if id in pending {
        return Ok(pending[id]);
      }
      if id in peers {
        return Ok(peers[id]);
      }
      r := Err(UnknownPeer);
    }

    /** One loop of List: the entries of `m` whose ID is not in `skip`. */
    method AppendListed(before: seq<Match>, m: Peers, skip: set<string>, ghost listed: Peers) returns (out: seq<Match>)
      requires Lists(before, listed) && listed.Keys !! m.Keys - skip
      ensures Lists(out, listed + (m - skip))
    {
      hide Lists;
      out := before;
      ghost var done := listed;
      var todo := m.Keys;
      while todo != {}
        invariant todo <= m.Keys
        invariant forall id :: id in done <==> id in listed || (id in m && id !in skip && id !in todo)
        invariant forall id :: id in done ==> done[id] == if id in listed then listed[id] else m[id]
        invariant Lists(out, done)
        decreases todo
      {
        var id :| id in todo;
        if id !in skip {
          ListsOneMore(out, done, id, m[id]);
          out := out + [Match(id, m[id])];
          done := done[id := m[id]];
        }
        todo := todo - {id};
      }
      assert done == listed + (m - skip);
    }

    /** Every known ID once, with the entry Get gives for it. */
    method List(now: nat) returns (out: seq<Match>)
      requires Valid()
      modifies this`pending
      ensures Valid() && Snap() == Pruned(cfg, old(Snap()), now)
      ensures forall i, j :: 0 <= i < j < |out| ==> out[i].id != out[j].id
      ensures forall id, p :: Match(id, p) in out <==>
        (id in pending && p == pending[id]) || (id !in pending && id in peers && p == peers[id])
    {
      PruneKeepsShape(cfg, Snap(), now);
      PrunePendingLocked(now);
      ListsKnown(Snap());
      hide Shaped, Pruned, Lists, Known;
      ListsNothing();
      ghost var first := map[] + (peers - pending.Keys);
      KnownInTwoParts(Snap(), first);
      out := AppendListed([], peers, pending.Keys, map[]);
      out := AppendListed(out, pending, {}, first);
    }

    /** An entry that is trusted with this certificate fingerprint, if there is one. */
    method TrustedFingerprint(fp: string) returns (r: Option<Peer>)
      ensures r.Some? ==> exists id ::
        id in peers && peers[id] == r.value && peers[id].state == Trusted && peers[id].fingerprint == fp
      ensures r.None? ==> forall id :: id in peers && peers[id].state == Trusted ==> peers[id].fingerprint != fp
    {
      r := None;
      var todo := peers.Keys;
      while todo != {}
        invariant todo <= peers.Keys
        invariant forall i :: i in peers && i !in todo ==> !(peers[i].state == Trusted && peers[i].fingerprint == fp)
        decreases todo
      {
        var i :| i in todo;
        if peers[i].state == Trusted && peers[i].fingerprint == fp {
          return Some(peers[i]);
        }
        todo := todo - {i};
      }
    }
  }

  lemma KnownInTwoParts(s: Snapshot, first: Peers)
    requires first == map[] + (s.peers - s.pending.Keys)
    ensures first.Keys !! s.pending.Keys - {}
    ensures first + (s.pending - {}) == Known(s)
  {
  }

  lemma ListsKnown(s: Snapshot)
    ensures forall out, id, p :: Lists(out, Known(s)) ==>
      (Match(id, p) in out <==>
         (id in s.pending && p == s.pending[id]) || (id !in s.pending && id in s.peers && p == s.peers[id]))
  {
  }

  lemma ListsNothing()
    ensures Lists([], map[])
  {
  }

  lemma ListsOneMore(out: seq<Match>, m: Peers, id: string, p: Peer)
    requires Lists(out, m) && id !in m
    ensures Lists(out + [Match(id, p)], m[id := p])
  {
    var r, n := out + [Match(id, p)], m[id := p];
    forall i | i in n ensures Match(i, n[i]) in r {
      if i == id {
        assert r[|out|] == Match(id, p);
      } else {
        assert Match(i, m[i]) in out;
      }
    }
  }

  lemma SingletonMember<T>(s: set<T>, x: T)
    requires |s| == 1 && x in s
    ensures s == {x}
  {
    assert |s - {x}| == 0;
  }
}
