// What a call of the trust store does, said without the functions that specify it:
// when it succeeds, and what it leaves for the peer its reference names, for every
// other peer, and in the file.  Then what that means over runs.
module StoreEffects {
  import opened Store
  import opened StoreRuns
  import opened Wrappers

  // ---------------------------------------------------------------------------
  // One call
  // ---------------------------------------------------------------------------

  /** The pending entry of `id` is younger than the TTL. */
  predicate Open(cfg: Config, s: Snapshot, now: nat, id: string) {
    id in s.pending && now < s.pending[id].updatedAt + cfg.pendingTTL
  }

  predicate SameEntry(a: Peers, b: Peers, id: string) {
    (id in a <==> id in b) && (id in a ==> a[id] == b[id])
  }

  /** Nothing changes for this ID, in memory or in the file. */
  predicate Untouched(s: Snapshot, t: Snapshot, id: string) {
    && SameEntry(s.peers, t.peers, id) && SameEntry(s.pending, t.pending, id)
    && SameEntry(LoadPeers(s.disk), LoadPeers(t.disk), id)
  }

  /** Pruning takes away what is no longer open and nothing else. */
  lemma PruneEffect(cfg: Config, s: Snapshot, now: nat)
    ensures var t := Pruned(cfg, s, now);
      && t.peers == s.peers && t.disk == s.disk
      && forall id ::
           if Open(cfg, s, now, id) then id in t.pending && t.pending[id] == s.pending[id] else id !in t.pending
  {
  }

  /** The call's reference names this entry: Approve searches the pending ones, Reject
      and Approve after pruning, Unpair without. */
  ghost predicate Picks(cfg: Config, s: Snapshot, c: Call, id: string, p: Peer)
    requires c.op.Unpair? || c.op.Reject? || c.op.Approve?
  {
    Names(cfg, if c.op.Unpair? then s else Pruned(cfg, s, c.at), cfg.trim(c.op.ref),
          if c.op.Approve? then [Pending] else [], id, p)
  }

  ghost predicate OthersStay(q: Snapshot, after: Snapshot, id: string) {
    forall x :: x != id ==> SameEntry(q.peers, after.peers, x) && SameEntry(q.pending, after.pending, x)
  }

  lemma CommittedUntouched(cfg: Config, q: Snapshot, after: Snapshot, id: string)
    requires Shaped(cfg, q) && Shaped(cfg, after.(disk := Saved(after.peers)))
    requires OthersStay(q, after, id)
    ensures var t := after.(disk := Saved(after.peers));
      LoadPeers(t.disk) == t.peers && forall x :: x != id ==> Untouched(q, t, x)
  {
    Intact(cfg, q);
    Intact(cfg, after.(disk := Saved(after.peers)));
    hide Shaped, LoadPeers;
  }

  lemma OthersStayOnMove(q: Snapshot, m: Match, state: PeerState, now: nat)
    ensures OthersStay(q, Moved(q, m, state, now), m.id)
  {
  }

  lemma MoveEffect(cfg: Config, q: Snapshot, m: Match, state: PeerState, saves: bool, now: nat)
    requires Shaped(cfg, q) && state != Pending
    ensures var r := Commit(q, Moved(q, m, state, now), saves); var t := r.0;
      && (r.1.Ok? <==> saves)
      && (saves ==>
            && m.id !in t.pending && t.disk == Saved(t.peers) && LoadPeers(t.disk) == t.peers
            && m.id in t.peers
            && t.peers[m.id] == Peer(m.peer.id, m.peer.name, m.peer.fingerprint, state, "", "", now)
            && forall x :: x != m.id ==> Untouched(q, t, x))
  {
    hide Shaped, LoadPeers, Untouched, OthersStay;
    if saves {
      MoveKeepsShape(cfg, q, m, state, saves, now);
      OthersStayOnMove(q, m, state, now);
      CommittedUntouched(cfg, q, Moved(q, m, state, now), m.id);
    }
  }

  lemma RemoveKeepsShape(cfg: Config, s: Snapshot, id: string)
    requires Shaped(cfg, s)
    ensures Shaped(cfg, Snapshot(s.peers - {id}, s.pending - {id}, Saved(s.peers - {id})))
  {
    CleanedIsIdentity(s.peers - {id});
    SubmapCardinality(s.pending - {id}, s.pending);
  }

  lemma RemoveEffect(cfg: Config, s: Snapshot, id: string)
    requires Shaped(cfg, s)
    ensures var t := Snapshot(s.peers - {id}, s.pending - {id}, Saved(s.peers - {id}));
      LoadPeers(t.disk) == t.peers && forall x :: x != id ==> Untouched(s, t, x)
  {
    hide Shaped, LoadPeers, Untouched, OthersStay;
    RemoveKeepsShape(cfg, s, id);
    OthersStayOnRemove(s, id);
    CommittedUntouched(cfg, s, Snapshot(s.peers - {id}, s.pending - {id}, s.disk), id);
  }

  lemma OthersStayOnRemove(s: Snapshot, id: string)
    ensures OthersStay(s, Snapshot(s.peers - {id}, s.pending - {id}, s.disk), id)
  {
  }

  /** Unpair of a reference that names `id` succeeds when its save does, and then `id`
      is in neither map nor in the file. */
  lemma UnpairEffect(cfg: Config, s: Snapshot, c: Call, id: string, p: Peer)
    requires Shaped(cfg, s) && c.op.Unpair? && Picks(cfg, s, c, id, p)
    ensures Fails(cfg, s, c) <==> !c.saves
    ensures !Fails(cfg, s, c) ==>
      var t := Next(cfg, s, Done(c));
      && id !in t.peers && id !in t.pending && id !in LoadPeers(t.disk) && t.disk == Saved(t.peers)
      && forall x :: x != id ==> Untouched(s, t, x)
  {
    ResolvesIffUnambiguous(cfg, s, c.op.ref, [], id, p);
    hide Resolution, Shaped, LoadPeers, Names, Untouched;
    RemoveEffect(cfg, s, id);
  }

  /** Reject of a reference that names `id` succeeds when its save does, and then `id`
      is stored as rejected and no longer pending. */
  lemma RejectEffect(cfg: Config, s: Snapshot, c: Call, id: string, p: Peer)
    requires Shaped(cfg, s) && c.op.Reject? && Picks(cfg, s, c, id, p)
    ensures Fails(cfg, s, c) <==> !c.saves
    ensures !Fails(cfg, s, c) ==>
      var q, t := Pruned(cfg, s, c.at), Next(cfg, s, Done(c));
      && id !in t.pending && t.disk == Saved(t.peers) && LoadPeers(t.disk) == t.peers
      && id in t.peers && t.peers[id] == Peer(p.id, p.name, p.fingerprint, Rejected, "", "", c.later)
      && forall x :: x != id ==> Untouched(q, t, x)
  {
    var q := Pruned(cfg, s, c.at);
    ResolvesIffUnambiguous(cfg, q, c.op.ref, [], id, p);
    PruneKeepsShape(cfg, s, c.at);
    hide Resolution, Shaped, LoadPeers, Names, Pruned, Untouched, Moved, Commit;
    MoveEffect(cfg, q, Match(id, p), Rejected, c.saves, c.later);
  }

  /** Approve of a reference that names the pending request of `id` succeeds just when
      its token, fingerprint and code are those of the request and its save does; then
      `id` is trusted with that fingerprint and no longer pending. */
  lemma ApproveEffect(cfg: Config, s: Snapshot, c: Call, id: string, p: Peer)
    requires Shaped(cfg, s) && c.op.Approve? && Picks(cfg, s, c, id, p)
    ensures Fails(cfg, s, c) <==>
      !(c.saves && c.op.token != "" && c.op.token == p.token && c.op.fingerprint == p.fingerprint
        && c.op.code == p.code)
    ensures !Fails(cfg, s, c) ==>
      var q, t := Pruned(cfg, s, c.at), Next(cfg, s, Done(c));
      && id !in t.pending && t.disk == Saved(t.peers) && LoadPeers(t.disk) == t.peers
      && id in t.peers && t.peers[id] == Peer(p.id, p.name, p.fingerprint, Trusted, "", "", c.later)
      && forall x :: x != id ==> Untouched(q, t, x)
  {
    var q := Pruned(cfg, s, c.at);
    ResolvesIffUnambiguous(cfg, q, c.op.ref, [Pending], id, p);
    PruneKeepsShape(cfg, s, c.at);
    hide Resolution, Shaped, LoadPeers, Names, Pruned, Untouched, Moved, Commit;
    MoveEffect(cfg, q, Match(id, p), Trusted, c.saves, c.later);
  }

  /** A reference that names no entry makes each of the three fail. */
  lemma UnnamedFails(cfg: Config, s: Snapshot, c: Call)
    requires c.op.Unpair? || c.op.Reject? || c.op.Approve?
    requires forall id, p :: !Picks(cfg, s, c, id, p)
    ensures Fails(cfg, s, c)
  {
    var q := if c.op.Unpair? then s else Pruned(cfg, s, c.at);
    var states := if c.op.Approve? then [Pending] else [];
    hide Names, Resolution, Pruned;
    if Resolution(cfg, q, c.op.ref, states).Ok? {
      var m := Resolution(cfg, q, c.op.ref, states).value;
      assert !Picks(cfg, s, c, m.id, m.peer);
      ResolvesIffUnambiguous(cfg, q, c.op.ref, states, m.id, m.peer);
    }
  }

  /** PutPending refuses a trusted ID, a second certificate for a pending one, and a
      new one when no place is free; otherwise the request is pending as given, with
      the new token and date. */
  lemma PutEffect(cfg: Config, s: Snapshot, c: Call)
    requires Shaped(cfg, s) && c.op.Put? && (c.op.newToken.Err? ==> c.op.newToken.error == NoToken)
    ensures var p, q := c.op.peer, Pruned(cfg, s, c.at);
      var r := PutPendingSpec(cfg, s, p, c.op.newToken, c.at, c.later).1;
      && (r == Err(IdentityChanged) <==> Trusts(s, p.id) && s.peers[p.id].fingerprint != p.fingerprint)
      && (r == Err(AlreadyTrusted) <==> Trusts(s, p.id) && s.peers[p.id].fingerprint == p.fingerprint)
      && (r == Err(AlreadyPending) <==>
            Open(cfg, s, c.at, p.id) && s.pending[p.id].fingerprint != p.fingerprint)
      && (r == Err(TooManyPending) <==>
            !Trusts(s, p.id) && !Open(cfg, s, c.at, p.id) && |q.pending| == cfg.maxPending)
      && (r.Ok? ==> c.op.newToken.Ok?)
      && (r.Err? ==> r.error in {IdentityChanged, AlreadyTrusted, AlreadyPending, TooManyPending, NoToken})
      && (r == Err(NoToken) ==> c.op.newToken.Err?)
    ensures !Fails(cfg, s, c) ==>
      var p, q, t := c.op.peer, Pruned(cfg, s, c.at), Next(cfg, s, Done(c));
      && t.peers == s.peers && t.disk == s.disk && c.op.newToken.Ok? && p.id in t.pending
      && t.pending[p.id] == Peer(p.id, p.name, p.fingerprint, Pending, p.code, c.op.newToken.value, c.later)
      && Requests(cfg, s, c, t.pending[p.id])
      && forall x :: x != p.id ==> Untouched(q, t, x)
  {
    PruneKeepsShape(cfg, s, c.at);
    hide LoadPeers;
  }

  /** UpdateName changes the name and the date of a known peer, in memory and in the
      file, when the name is new and the save succeeds. */
  lemma UpdateNameEffect(cfg: Config, s: Snapshot, c: Call)
    requires Shaped(cfg, s) && c.op.UpdateName?
    ensures var id, name := c.op.id, cfg.normalize(c.op.name);
      var r := UpdateNameSpec(cfg, s, id, c.op.name, c.saves, c.later).1;
      && (r == Err(EmptyName) <==> name == "")
      && (r == Err(UnknownPeer) <==> name != "" && id !in s.peers)
      && (r == Err(SaveFailed) <==> name != "" && id in s.peers && s.peers[id].name != name && !c.saves)
      && (r.Err? ==> r.error in {EmptyName, UnknownPeer, SaveFailed})
    ensures !Fails(cfg, s, c) ==>
      var id, t := c.op.id, Next(cfg, s, Done(c));
      && id in s.peers && id in t.peers && t.peers[id].name == cfg.normalize(c.op.name)
      && (s.peers[id].name == t.peers[id].name ==> t == s)
      && (s.peers[id].name != t.peers[id].name ==>
            t.disk == Saved(t.peers) && LoadPeers(t.disk) == t.peers && t.peers[id].updatedAt == c.later)
      && t.peers[id].(name := s.peers[id].name, updatedAt := s.peers[id].updatedAt) == s.peers[id]
      && SameEntry(s.pending, t.pending, id)
      && forall x :: x != id ==> Untouched(s, t, x)
  {
    RenameKeepsShape(cfg, s, c.op.id, c.op.name, c.saves, c.later);
    Intact(cfg, s);
    Intact(cfg, Next(cfg, s, Done(c)));
    hide Shaped, LoadPeers;
  }

  /** Load keeps every peer of the file that is not pending, with the name, the
      fingerprint, the state and the date it had, and no other. */
  lemma LoadEffect(m: Peers, saves: bool, id: string)
    requires LoadSpec(Saved(m), saves).Ok?
    ensures var t := LoadSpec(Saved(m), saves).value;
      && t.pending == map[] && t.disk.Saved?
      && (id in t.peers <==> id in m && m[id].state != Pending)
      && (id in t.peers ==>
            t.peers[id] == Peer(m[id].id, m[id].name, m[id].fingerprint, m[id].state, "", "", m[id].updatedAt))
      && (forall x :: x in t.disk.peers ==> t.disk.peers[x].state != Pending)
  {
  }

  /** Load creates a missing file, refuses one it cannot read or parse, and saves only
      when it has something to drop. */
  lemma LoadAnswers(f: File, saves: bool)
    ensures LoadSpec(f, saves) == Err(ReadFailed) <==> f == Unreadable
    ensures LoadSpec(f, saves) == Err(ParseFailed) <==> f == Corrupt
    ensures LoadSpec(f, saves) == Err(SaveFailed) <==>
      !saves && (f == Absent || (f.Saved? && exists id :: id in f.peers && f.peers[id].state == Pending))
    ensures f == Absent && saves ==> LoadSpec(f, saves) == Ok(Snapshot(map[], map[], Saved(map[])))
  {
  }

  // ---------------------------------------------------------------------------
  // Runs: trust is ended by a revocation, and given by an approval in time
  // ---------------------------------------------------------------------------

  /** The call succeeds as an Approve of `id`. */
  ghost predicate Approves(cfg: Config, s: Snapshot, c: Call, id: string) {
    && c.op.Approve? && !Fails(cfg, s, c)
    && exists p :: Picks(cfg, s, c, id, p)
  }

  /** The call succeeds as a Reject or an Unpair of `id`. */
  ghost predicate Ends(cfg: Config, s: Snapshot, c: Call, id: string) {
    && (c.op.Reject? || c.op.Unpair?) && !Fails(cfg, s, c)
    && exists p :: Picks(cfg, s, c, id, p)
  }

  /** The calls that settle an ID are these two kinds. */
  lemma SettlesIff(cfg: Config, s: Snapshot, c: Call, id: string)
    ensures Settles(cfg, s, c, id) <==> Approves(cfg, s, c, id) || Ends(cfg, s, c, id)
    ensures Revokes(cfg, s, c, id) <==> Ends(cfg, s, c, id)
  {
    hide Names, Resolution, Pruned, Commit, Moved, Confirms;
    if c.op.Reject? || c.op.Unpair? || c.op.Approve? {
      var q := if c.op.Unpair? then s else Pruned(cfg, s, c.at);
      var states := if c.op.Approve? then [Pending] else [];
      if Settles(cfg, s, c, id) {
        var m := Resolution(cfg, q, c.op.ref, states).value;
        ResolvesIffUnambiguous(cfg, q, c.op.ref, states, id, m.peer);
        assert Picks(cfg, s, c, id, m.peer);
      }
      if p :| Picks(cfg, s, c, id, p) {
        ResolvesIffUnambiguous(cfg, q, c.op.ref, states, id, p);
      }
    }
  }

  lemma EndsTrust(cfg: Config, s: Snapshot, c: Call, id: string)
    requires Shaped(cfg, s) && Ends(cfg, s, c, id)
    ensures !Trusts(Apply(cfg, s, c), id) && c.saves
  {
    hide Fails, Apply, Picks, Shaped, LoadPeers;
    var p :| Picks(cfg, s, c, id, p);
    if c.op.Unpair? {
      UnpairEffect(cfg, s, c, id, p);
    } else {
      RejectEffect(cfg, s, c, id, p);
    }
  }

  /** The step carries out an Approve of `id`, wholly or up to its rename. */
  ghost predicate ApprovedBy(cfg: Config, s: Snapshot, step: Step, id: string) {
    && !step.Restart? && Approves(cfg, s, step.call, id)
    && (step.Crashed? ==> step.renamed)
  }

  ghost predicate EndedBy(cfg: Config, s: Snapshot, step: Step, id: string) {
    && !step.Restart? && Ends(cfg, s, step.call, id)
    && (step.Crashed? ==> step.renamed)
  }

  lemma NewTrustIsApproved(cfg: Config, s: Snapshot, c: Call, id: string)
    requires Shaped(cfg, s) && !Trusts(s, id) && Trusts(Apply(cfg, s, c), id)
    ensures Approves(cfg, s, c, id)
  {
    TrustSource(cfg, s, c, id);
    var q := Pruned(cfg, s, c.at);
    hide Shaped, Names, Pruned, Resolution, Confirms;
    var r := Resolution(cfg, q, c.op.ref, [Pending]);
    if r.Ok? {
      ResolvesIffUnambiguous(cfg, q, c.op.ref, [Pending], r.value.id, r.value.peer);
      assert Picks(cfg, s, c, r.value.id, r.value.peer);
    }
  }

  /** No step between the two states carries out an Approve of `id`. */
  ghost predicate NeverApproved(cfg: Config, states: seq<Snapshot>, steps: seq<Step>, j: nat, k: nat, id: string)
    requires |states| == |steps| + 1 && k < |states|
  {
    forall m :: j <= m < k ==> !ApprovedBy(cfg, states[m], steps[m], id)
  }

  lemma StepKeepsDistrust(cfg: Config, s: Snapshot, step: Step, id: string)
    requires Shaped(cfg, s) && Enabled(cfg, s, step) && !Trusts(s, id) && !ApprovedBy(cfg, s, step, id)
    ensures !Trusts(Next(cfg, s, step), id)
  {
    hide Shaped, Apply, Approves;
    match step
    case Restart(saves) =>
      LoadedShape(cfg, s.disk, saves);
      Intact(cfg, s);
    case Done(c) =>
      if Trusts(Apply(cfg, s, c), id) { NewTrustIsApproved(cfg, s, c, id); }
    case Crashed(c, renamed, saves) =>
      LoadedShape(cfg, CrashFile(cfg, s, c, renamed), saves);
      CrashRefinement(cfg, s, c, renamed);
      if Trusts(Apply(cfg, s, c), id) { NewTrustIsApproved(cfg, s, c, id); }
  }

  lemma StepEndsTrust(cfg: Config, s: Snapshot, step: Step, id: string)
    requires Shaped(cfg, s) && Enabled(cfg, s, step) && EndedBy(cfg, s, step, id)
    ensures !Trusts(Next(cfg, s, step), id)
  {
    hide Shaped, Apply, Ends;
    EndsTrust(cfg, s, step.call, id);
    if step.Crashed? {
      LoadedShape(cfg, CrashFile(cfg, s, step.call, step.renamed), step.loadSaves);
      CrashRefinement(cfg, s, step.call, step.renamed);
    }
  }

  /** After a Reject or Unpair of an ID, be it cut off by a crash once the file was
      renamed, the ID is not trusted in any later state until an Approve of it. */
  lemma {:induction false} RevokedStaysUntrusted(
      cfg: Config, states: seq<Snapshot>, steps: seq<Step>, j: nat, k: nat, id: string)
    requires Run(cfg, states, steps) && j < k < |states|
    requires EndedBy(cfg, states[j], steps[j], id) && NeverApproved(cfg, states, steps, j + 1, k, id)
    ensures !Trusts(states[k], id)
    decreases k
  {
    var m := k - 1;
    assert Took(cfg, states[m], steps[m], states[k]);
    RunsKeepShape(cfg, states, steps, m);
    hide Run, Shaped, Enabled, Next, Trusts, EndedBy, ApprovedBy;
    if m == j {
      StepEndsTrust(cfg, states[j], steps[j], id);
    } else {
      assert !ApprovedBy(cfg, states[m], steps[m], id);
      RevokedStaysUntrusted(cfg, states, steps, j, m, id);
      StepKeepsDistrust(cfg, states[m], steps[m], id);
    }
  }

  /** Every clock reading of the steps in between is before this time. */
  ghost predicate Before(steps: seq<Step>, j: nat, k: nat, time: nat)
    requires k <= |steps|
  {
    forall m :: j < m < k ==> steps[m].Done? && steps[m].call.at < time
  }

  lemma PendingStays(cfg: Config, s: Snapshot, c: Call, id: string)
    requires Shaped(cfg, s) && Open(cfg, s, c.at, id) && !Settles(cfg, s, c, id)
    requires forall p :: Requests(cfg, s, c, p) ==> p.id != id
    ensures id in Apply(cfg, s, c).pending && Apply(cfg, s, c).pending[id] == s.pending[id]
  {
    hide Resolution, Shaped, Confirms;
    match c.op
    case Put(p, token) =>
      var r := PutPendingSpec(cfg, s, p, token, c.at, c.later).1;
      if r.Ok? { assert Requests(cfg, s, c, r.value); }
    case _ =>
  }

  lemma {:induction false} RequestStaysPending(
      cfg: Config, states: seq<Snapshot>, steps: seq<Step>, j: nat, k: nat, id: string, p: Peer)
    requires Run(cfg, states, steps) && j < k < |states| && Stands(cfg, states, steps, j, k, id, p)
    requires Before(steps, j, k, p.updatedAt + cfg.pendingTTL)
    ensures id in states[k].pending && states[k].pending[id] == p
    decreases k
  {
    var m := k - 1;
    assert Took(cfg, states[m], steps[m], states[k]);
    RunsKeepShape(cfg, states, steps, m);
    hide Shaped, Settles, Requests, Apply, Enabled, Run;
    if m == j {
      RequestIsStored(cfg, states[j], steps[j].call, p);
    } else {
      assert Bypasses(cfg, states[m], steps[m], id) && steps[m].Done?;
      RequestStaysPending(cfg, states, steps, j, m, id, p);
      PendingStays(cfg, states[m], steps[m].call, id);
    }
  }

  /** A request that still stands can be approved: an Approve of its ID in time, with
      the token PutPending gave and the fingerprint and code of the request, succeeds
      when its save does, and then the ID is trusted with that fingerprint. */
  lemma RequestCanBeApproved(
      cfg: Config, states: seq<Snapshot>, steps: seq<Step>, j: nat, k: nat, id: string, p: Peer, ref: string)
    requires Run(cfg, states, steps) && j < k < |steps| && Stands(cfg, states, steps, j, k, id, p)
    requires Before(steps, j, k + 1, p.updatedAt + cfg.pendingTTL)
    requires steps[k].call.saves && p.token != ""
    requires steps[k].call.op == Approve(ref, p.token, p.fingerprint, p.code) && cfg.trim(ref) == id
    ensures id in states[k + 1].peers && id !in states[k + 1].pending
    ensures var q := states[k + 1].peers[id]; q.state == Trusted && q.fingerprint == p.fingerprint && q.name == p.name
  {
    RequestStaysPending(cfg, states, steps, j, k, id, p);
    RunsKeepShape(cfg, states, steps, k);
    assert Took(cfg, states[k], steps[k], states[k + 1]);
    var s, c := states[k], steps[k].call;
    assert Open(cfg, s, c.at, id);
    assert s.pending[id].state == Pending;
    assert Exact(Pruned(cfg, s, c.at).pending, id, [Pending]);
    assert Picks(cfg, s, c, id, p);
    hide Run, Shaped, Fails, Apply, Picks, Pruned, Stands, Exact, LoadPeers, Before;
    ApproveEffect(cfg, s, c, id, p);
  }

  // ---------------------------------------------------------------------------
  // Pairing: which messages make a request
  // ---------------------------------------------------------------------------

  /** An offer is taken just when it is one, names itself well, carries a nonce, and
      its certificate is the one it names and is issued for its ID. */
  lemma OfferIsTakenIff(cfg: Config, validID: string -> bool, o: Offer, c: Certificate, code: string)
    ensures var r := IncomingPair(cfg, validID, o, c, code);
      && (r.Ok? <==>
            && o.kind == "pair_offer" && validID(o.id) && cfg.normalize(o.name) != "" && o.nonce != ""
            && o.fingerprint == c.fingerprint && c.commonName == "lanclip:" + o.id)
      && (r.Ok? ==>
            && r.value.id == o.id && r.value.name == cfg.normalize(o.name)
            && r.value.fingerprint == c.fingerprint && r.value.code == code)
  {
  }

  /** An answer must also come from the peer that was wanted, whose announced
      fingerprint starts the one of the certificate. */
  lemma AnswerIsTakenIff(
      cfg: Config, validID: string -> bool, o: Offer, c: Certificate,
      wanted: string, wantedPrefix: string, code: string)
    ensures var r := OutgoingPair(cfg, validID, o, c, wanted, wantedPrefix, code);
      && (r.Ok? <==>
            && o.kind == "pair_answer" && validID(o.id) && o.id == wanted && cfg.normalize(o.name) != ""
            && o.nonce != "" && o.fingerprint == c.fingerprint && wantedPrefix <= c.fingerprint
            && c.commonName == "lanclip:" + o.id)
      && (r.Ok? ==>
            && r.value.id == o.id && r.value.name == cfg.normalize(o.name)
            && r.value.fingerprint == c.fingerprint && r.value.code == code)
  {
  }
}
