// The trust store over whole runs: operations whose saves may fail, the clock,
// crashes in the middle of an operation, and restarts.
module StoreRuns {
  import opened Store
  import opened Wrappers

  // ---------------------------------------------------------------------------
  // Pairing: where pending entries come from
  // ---------------------------------------------------------------------------

  datatype Offer = Offer(kind: string, id: string, name: string, nonce: string, fingerprint: string)

  /** The peer's certificate: its fingerprint and its common name. */
  datatype Certificate = Certificate(fingerprint: string, commonName: string)

  const PREFIX := "lanclip:"

  /** ValidateCertificateIdentity: the certificate is issued for this device ID. */
  predicate CertifiesIdentity(c: Certificate, id: string) {
    c.commonName == PREFIX + id
  }

  function Candidate(cfg: Config, o: Offer, fingerprint: string, code: string): Peer {
    Peer(o.id, cfg.normalize(o.name), fingerprint, Other(""), code, "", 0)
  }

  /** handleIncomingPair: the checks on an offer, up to PutPending. */
  function IncomingPair(cfg: Config, validID: string -> bool, o: Offer, c: Certificate, code: string): Answer<Peer> {
    if o.kind != "pair_offer" then Err(ParseFailed)
    else if !validID(o.id) || cfg.normalize(o.name) == "" || o.nonce == "" || o.fingerprint != c.fingerprint
      || !CertifiesIdentity(c, o.id) then Err(IdentityChanged)
    else Ok(Candidate(cfg, o, c.fingerprint, code))
  }

  /** pair: the checks on an answer, up to PutPending; `wanted` was discovered. */
  function OutgoingPair(cfg: Config, validID: string -> bool, o: Offer, c: Certificate, wanted: string,
                        wantedPrefix: string, code: string): Answer<Peer> {
    if o.kind != "pair_answer" || !validID(o.id) || o.id != wanted || o.fingerprint != c.fingerprint
      || !(wantedPrefix <= c.fingerprint) || cfg.normalize(o.name) == "" || o.nonce == ""
      || !CertifiesIdentity(c, o.id) then Err(IdentityChanged)
    else Ok(Candidate(cfg, o, c.fingerprint, code))
  }

  /** A fingerprint is a collision-free hash of the certificate, so it determines
      the common name; `names` is that function. */
  ghost predicate Genuine(names: string -> string, c: Certificate) {
    c.commonName == names(c.fingerprint)
  }

  ghost predicate Owned(names: string -> string, id: string, fingerprint: string) {
    names(fingerprint) == PREFIX + id
  }

  /** Both pairing paths only ever propose an ID that the certificate carries. */
  lemma PairingProposesOwner(
    names: string -> string, cfg: Config, validID: string -> bool, o: Offer, c: Certificate,
    wanted: string, wantedPrefix: string, code: string)
    requires Genuine(names, c)
    ensures var r := IncomingPair(cfg, validID, o, c, code); r.Ok? ==> Owned(names, r.value.id, r.value.fingerprint)
    ensures var r := OutgoingPair(cfg, validID, o, c, wanted, wantedPrefix, code);
      r.Ok? ==> Owned(names, r.value.id, r.value.fingerprint)
  {
  }

  /** The peer is what one of the pairing paths makes of a message and a genuine
      certificate that passed its checks. */
  ghost predicate Proposed(names: string -> string, cfg: Config, validID: string -> bool, p: Peer) {
    || (exists o, c, code :: Genuine(names, c) && IncomingPair(cfg, validID, o, c, code) == Ok(p))
    || (exists o, c, wanted, prefix, code ::
          Genuine(names, c) && OutgoingPair(cfg, validID, o, c, wanted, prefix, code) == Ok(p))
  }

  lemma ProposedIsOwned(names: string -> string, cfg: Config, validID: string -> bool, p: Peer)
    requires Proposed(names, cfg, validID, p)
    ensures Owned(names, p.id, p.fingerprint)
  {
    if o, c, code :| Genuine(names, c) && IncomingPair(cfg, validID, o, c, code) == Ok(p) {
      PairingProposesOwner(names, cfg, validID, o, c, "", "", code);
    } else {
      var o, c, wanted, prefix, code :|
        Genuine(names, c) && OutgoingPair(cfg, validID, o, c, wanted, prefix, code) == Ok(p);
      PairingProposesOwner(names, cfg, validID, o, c, wanted, prefix, code);
    }
  }

  lemma OwnerIsUnique(names: string -> string, fingerprint: string, id: string, other: string)
    requires Owned(names, id, fingerprint) && Owned(names, other, fingerprint)
    ensures id == other
  {
    assert id == (PREFIX + id)[|PREFIX|..] && other == (PREFIX + other)[|PREFIX|..];
  }

  // ---------------------------------------------------------------------------
  // Steps
  // ---------------------------------------------------------------------------

  datatype Op =
    | Put(peer: Peer, newToken: Answer<string>)
    | Approve(ref: string, token: string, fingerprint: string, code: string)
    | Reject(ref: string)
    | Unpair(ref: string)
    | UpdateName(id: string, name: string)
    | Look   // Get, List and Resolve prune

  /** One operation, with the outcome of its save and its two clock readings. */
  datatype Call = Call(op: Op, saves: bool, at: nat, later: nat)

  /** A call that returns; a call cut off by a crash before or after its rename and
      followed by a restart; a restart while idle. */
  datatype Step =
    | Done(call: Call)
    | Crashed(call: Call, renamed: bool, loadSaves: bool)
    | Restart(loadSaves: bool)

  ghost function Apply(cfg: Config, s: Snapshot, c: Call): Snapshot {
    match c.op
    case Put(p, token) => PutPendingSpec(cfg, s, p, token, c.at, c.later).0
    case Approve(r, token, fp, code) => ApproveSpec(cfg, s, r, token, fp, code, c.saves, c.at, c.later).0
    case Reject(r) => RejectSpec(cfg, s, r, c.saves, c.at, c.later).0
    case Unpair(r) => UnpairSpec(cfg, s, r, c.saves).0
    case UpdateName(id, name) => UpdateNameSpec(cfg, s, id, name, c.saves, c.later).0
    case Look => Pruned(cfg, s, c.at)
  }

  /** The file a crash leaves: the old one, or the new one once it was renamed. */
  ghost function CrashFile(cfg: Config, s: Snapshot, c: Call, renamed: bool): File {
    if renamed then Apply(cfg, s, c).disk else s.disk
  }

  lemma ApplyKeepsShape(cfg: Config, s: Snapshot, c: Call)
    requires Shaped(cfg, s)
    ensures Shaped(cfg, Apply(cfg, s, c))
  {
    hide Shaped;
    match c.op
    case Put(p, token) => PutKeepsShape(cfg, s, p, token, c.at, c.later);
    case Approve(r, token, fp, code) => ApproveKeepsShape(cfg, s, r, token, fp, code, c.saves, c.at, c.later);
    case Reject(r) => RejectKeepsShape(cfg, s, r, c.saves, c.at, c.later);
    case Unpair(r) => UnpairKeepsShape(cfg, s, r, c.saves);
    case UpdateName(id, name) => RenameKeepsShape(cfg, s, id, name, c.saves, c.later);
    case Look => PruneKeepsShape(cfg, s, c.at);
  }

  ghost predicate Fails(cfg: Config, s: Snapshot, c: Call) {
    match c.op
    case Put(p, token) => PutPendingSpec(cfg, s, p, token, c.at, c.later).1.Err?
    case Approve(r, token, fp, code) => ApproveSpec(cfg, s, r, token, fp, code, c.saves, c.at, c.later).1.Err?
    case Reject(r) => RejectSpec(cfg, s, r, c.saves, c.at, c.later).1.Err?
    case Unpair(r) => UnpairSpec(cfg, s, r, c.saves).1.Err?
    case UpdateName(id, name) => UpdateNameSpec(cfg, s, id, name, c.saves, c.later).1.Err?
    case Look => false
  }

  /** A mutator that fails, for whatever reason, leaves the file and both maps as
      they were, but for the expiry of pending entries. */
  lemma FailureIsAtomic(cfg: Config, s: Snapshot, c: Call)
    requires Fails(cfg, s, c)
    ensures Apply(cfg, s, c) == if c.op.Unpair? || c.op.UpdateName? then s else Pruned(cfg, s, c.at)
  {
    hide Resolution, Pruned, Confirms;
  }

  /** A call whose save fails or that needs none changes neither peers nor file. */
  lemma UnsavedIsUnchanged(cfg: Config, s: Snapshot, c: Call)
    requires !c.saves
    ensures !c.op.Put? ==> (Apply(cfg, s, c) == s || Apply(cfg, s, c) == Pruned(cfg, s, c.at))
  {
    hide Resolution, Pruned, Confirms;
  }

  lemma Intact(cfg: Config, s: Snapshot)
    requires Shaped(cfg, s)
    ensures !s.disk.Unreadable? && !s.disk.Corrupt? && LoadPeers(s.disk) == s.peers
  {
  }

  /** At every point of every operation the file loads to exactly the peers before
      it or exactly the peers after it, and a failed save is the former. */
  lemma CrashRefinement(cfg: Config, s: Snapshot, c: Call, renamed: bool)
    requires Shaped(cfg, s)
    ensures var f := CrashFile(cfg, s, c, renamed);
      && !f.Unreadable? && !f.Corrupt?
      && LoadPeers(f) == (if renamed then Apply(cfg, s, c) else s).peers
    ensures !c.saves ==> Apply(cfg, s, c).peers == s.peers
  {
    ApplyKeepsShape(cfg, s, c);
    Intact(cfg, s);
    Intact(cfg, Apply(cfg, s, c));
    if !c.saves && !c.op.Put? { UnsavedIsUnchanged(cfg, s, c); }
    hide Resolution, LoadPeers, Shaped, ApproveSpec, RejectSpec, UnpairSpec, UpdateNameSpec;
  }

  /** Loading what a running store leaves on disk, if the load can save. */
  ghost function Loaded(f: File, saves: bool): Snapshot {
    match LoadSpec(f, saves)
    case Ok(s) => s
    case Err(_) => Snapshot(map[], map[], f)
  }

  /** A restart whose Load fails yields no store; it is not a step of a run. */
  ghost predicate Enabled(cfg: Config, s: Snapshot, step: Step) {
    match step
    case Done(_) => true
    case Crashed(c, renamed, saves) => LoadSpec(CrashFile(cfg, s, c, renamed), saves).Ok?
    case Restart(saves) => LoadSpec(s.disk, saves).Ok?
  }

  ghost function Next(cfg: Config, s: Snapshot, step: Step): Snapshot {
    match step
    case Done(c) => Apply(cfg, s, c)
    case Crashed(c, renamed, saves) => Loaded(CrashFile(cfg, s, c, renamed), saves)
    case Restart(saves) => Loaded(s.disk, saves)
  }

  lemma LoadedShape(cfg: Config, f: File, saves: bool)
    requires LoadSpec(f, saves).Ok?
    ensures var s := Loaded(f, saves);
      Shaped(cfg, s) && s.peers == LoadPeers(f) && s.pending == map[]
  {
    CleanedIsIdentity(LoadPeers(f));
  }

  /** A crash at any point of any operation, then a restart: exactly the peers from
      before or after the operation, and nothing pending. */
  lemma CrashLosesNothingElse(cfg: Config, s: Snapshot, c: Call, renamed: bool, saves: bool)
    requires Shaped(cfg, s) && Enabled(cfg, s, Crashed(c, renamed, saves))
    ensures var t := Next(cfg, s, Crashed(c, renamed, saves));
      && t.pending == map[]
      && (t.peers == s.peers || t.peers == Apply(cfg, s, c).peers)
  {
    CrashRefinement(cfg, s, c, renamed);
    hide Apply, Shaped;
    LoadedShape(cfg, CrashFile(cfg, s, c, renamed), saves);
  }

  lemma StepKeepsShape(cfg: Config, s: Snapshot, step: Step)
    requires Shaped(cfg, s) && Enabled(cfg, s, step)
    ensures Shaped(cfg, Next(cfg, s, step))
  {
    hide Shaped, Apply;
    match step
    case Done(c) => ApplyKeepsShape(cfg, s, c);
    case Crashed(c, renamed, saves) => LoadedShape(cfg, CrashFile(cfg, s, c, renamed), saves);
    case Restart(saves) => LoadedShape(cfg, s.disk, saves);
  }

  // ---------------------------------------------------------------------------
  // What a call does to one ID
  // ---------------------------------------------------------------------------

  predicate Trusts(s: Snapshot, id: string) {
    id in s.peers && s.peers[id].state == Trusted
  }

  /** The call succeeds as an Approve, Reject or Unpair of `id`. */
  ghost predicate Settles(cfg: Config, s: Snapshot, c: Call, id: string) {
    match c.op
    case Approve(r, token, fp, code) =>
      && ApproveSpec(cfg, s, r, token, fp, code, c.saves, c.at, c.later).1.Ok?
      && Resolution(cfg, Pruned(cfg, s, c.at), r, [Pending]).value.id == id
    case Reject(r) =>
      && RejectSpec(cfg, s, r, c.saves, c.at, c.later).1.Ok?
      && Resolution(cfg, Pruned(cfg, s, c.at), r, []).value.id == id
    case Unpair(r) =>
      UnpairSpec(cfg, s, r, c.saves).1.Ok? && Resolution(cfg, s, r, []).value.id == id
    case _ => false
  }

  ghost predicate Revokes(cfg: Config, s: Snapshot, c: Call, id: string) {
    !c.op.Approve? && Settles(cfg, s, c, id)
  }

  /** The call puts the pending request `p`. */
  ghost predicate Requests(cfg: Config, s: Snapshot, c: Call, p: Peer) {
    c.op.Put? && PutPendingSpec(cfg, s, c.op.peer, c.op.newToken, c.at, c.later).1 == Ok(p)
  }

  /** A pending entry survives unchanged or is gone, unless the call is about its ID. */
  lemma PendingFrame(cfg: Config, s: Snapshot, c: Call, id: string)
    requires Shaped(cfg, s) && id in Apply(cfg, s, c).pending
    ensures var p := Apply(cfg, s, c).pending[id];
      || Requests(cfg, s, c, p)
      || (id in s.pending && s.pending[id] == p && !Settles(cfg, s, c, id))
  {
    hide Resolution, Shaped, Confirms;
    match c.op
    case Put(p, token) =>
    case Approve(r, token, fp, code) =>
    case Reject(r) =>
    case _ =>
  }

  /** Approve confirms another ID than a trusted one. */
  lemma ApproveFrame(cfg: Config, s: Snapshot, c: Call, id: string)
    requires Shaped(cfg, s) && Trusts(s, id) && c.op.Approve?
    ensures id in Apply(cfg, s, c).peers && Apply(cfg, s, c).peers[id] == s.peers[id]
  {
    var q := Pruned(cfg, s, c.at);
    PruneKeepsShape(cfg, s, c.at);
    if Resolution(cfg, q, c.op.ref, [Pending]).Ok? { PendingIsResolved(cfg, q, c.op.ref); }
    hide Resolution, Confirms;
  }

  /** Nothing but Reject and Unpair ends trust, and nothing changes whom it names. */
  lemma TrustFrame(cfg: Config, s: Snapshot, c: Call, id: string)
    requires Shaped(cfg, s) && Trusts(s, id) && !Revokes(cfg, s, c, id)
    ensures Trusts(Apply(cfg, s, c), id)
    ensures Apply(cfg, s, c).peers[id].fingerprint == s.peers[id].fingerprint
  {
    hide Resolution, Confirms, Shaped, ApproveSpec, Unexpired;
    match c.op
    case Put(p, token) =>
    case Approve(r, token, fp, code) => ApproveFrame(cfg, s, c, id);
    case Reject(r) =>
    case Unpair(r) =>
    case _ =>
  }

  /** The only way into trust: an Approve confirming a pending request in time. */
  lemma TrustSource(cfg: Config, s: Snapshot, c: Call, id: string)
    requires Shaped(cfg, s) && !Trusts(s, id) && Trusts(Apply(cfg, s, c), id)
    ensures c.op.Approve? && id in s.pending
    ensures Confirms(s.pending[id], c.op.token, c.op.fingerprint, c.op.code)
    ensures c.at < s.pending[id].updatedAt + cfg.pendingTTL
    ensures Apply(cfg, s, c).peers[id].fingerprint == s.pending[id].fingerprint
  {
    if c.op.Approve? {
      var q := Pruned(cfg, s, c.at);
      PruneKeepsShape(cfg, s, c.at);
      if Resolution(cfg, q, c.op.ref, [Pending]).Ok? { PendingIsResolved(cfg, q, c.op.ref); }
      hide Resolution, Confirms;
    } else {
      OnlyApproveTrusts(cfg, s, c, id);
    }
  }

  lemma OnlyApproveTrusts(cfg: Config, s: Snapshot, c: Call, id: string)
    requires !Trusts(s, id) && !c.op.Approve?
    ensures !Trusts(Apply(cfg, s, c), id)
  {
    hide Resolution, Unexpired;
    match c.op
    case Put(p, token) =>
    case Reject(r) =>
    case Unpair(r) =>
    case _ =>
  }

  // ---------------------------------------------------------------------------
  // Runs
  // ---------------------------------------------------------------------------

  ghost predicate Took(cfg: Config, s: Snapshot, step: Step, t: Snapshot) {
    Enabled(cfg, s, step) && t == Next(cfg, s, step)
  }

  ghost predicate Run(cfg: Config, states: seq<Snapshot>, steps: seq<Step>) {
    && |states| == |steps| + 1
    && Shaped(cfg, states[0]) && states[0].pending == map[]
    && forall j :: 0 <= j < |steps| ==> Took(cfg, states[j], steps[j], states[j + 1])
  }

  lemma {:induction false} RunsKeepShape(cfg: Config, states: seq<Snapshot>, steps: seq<Step>, j: nat)
    requires Run(cfg, states, steps) && j < |states|
    ensures Shaped(cfg, states[j])
  {
    if j > 0 {
      var k := j - 1;
      RunsKeepShape(cfg, states, steps, k);
      assert Took(cfg, states[k], steps[k], states[k + 1]);
      hide Shaped, Next, Enabled;
      StepKeepsShape(cfg, states[k], steps[k]);
    }
  }

  /** Step `j` of the run puts the pending request `p`. */
  ghost predicate RequestedAt(cfg: Config, states: seq<Snapshot>, steps: seq<Step>, j: nat, p: Peer)
    requires |states| == |steps| + 1
  {
    j < |steps| && steps[j].Done? && Requests(cfg, states[j], steps[j].call, p)
  }

  /** The step neither restarts the store nor is a successful call about `id`. */
  ghost predicate Bypasses(cfg: Config, s: Snapshot, step: Step, id: string) {
    && step.Done?
    && !Settles(cfg, s, step.call, id)
    && forall p :: Requests(cfg, s, step.call, p) ==> p.id != id
  }

  ghost predicate Undisturbed(cfg: Config, states: seq<Snapshot>, steps: seq<Step>, j: nat, k: nat, id: string)
    requires |states| == |steps| + 1 && k < |states|
  {
    forall m :: j < m < k ==> Bypasses(cfg, states[m], steps[m], id)
  }

  /** `p` is the latest request for `id`, put at step `j` and still standing. */
  ghost predicate Stands(cfg: Config, states: seq<Snapshot>, steps: seq<Step>, j: nat, k: nat, id: string, p: Peer)
    requires |states| == |steps| + 1 && k < |states|
  {
    && j < k && p.id == id
    && RequestedAt(cfg, states, steps, j, p)
    && p.updatedAt == steps[j].call.later
    && Undisturbed(cfg, states, steps, j, k, id)
  }

  lemma {:induction false} PendingHasRequest(
    cfg: Config, states: seq<Snapshot>, steps: seq<Step>, k: nat, id: string) returns (j: nat)
    requires Run(cfg, states, steps) && k < |states| && id in states[k].pending
    ensures Stands(cfg, states, steps, j, k, id, states[k].pending[id])
  {
    hide Shaped, Settles, Requests, Apply;
    var m := k - 1;
    assert k > 0 && Took(cfg, states[m], steps[m], states[m + 1]);
    RunsKeepShape(cfg, states, steps, m);
    RunsKeepShape(cfg, states, steps, k);
    var p := states[k].pending[id];
    assert p.id == id by { PendingKeys(cfg, states[k], id); }
    match steps[m]
    case Crashed(c, renamed, saves) => LoadedShape(cfg, CrashFile(cfg, states[m], c, renamed), saves); assert false;
    case Restart(saves) => LoadedShape(cfg, states[m].disk, saves); assert false;
    case Done(c) =>
      PendingFrame(cfg, states[m], c, id);
      if Requests(cfg, states[m], c, p) {
        j := m;
        RequestIsDated(cfg, states[m], c, p);
      } else {
        j := PendingHasRequest(cfg, states, steps, m, id);
        if q :| Requests(cfg, states[m], c, q) && q.id == id {
          RequestIsStored(cfg, states[m], c, q);
        }
        assert Bypasses(cfg, states[m], steps[m], id);
      }
  }

  lemma PendingKeys(cfg: Config, s: Snapshot, id: string)
    requires Shaped(cfg, s) && id in s.pending
    ensures s.pending[id].id == id
  {
  }

  lemma RequestIsDated(cfg: Config, s: Snapshot, c: Call, p: Peer)
    requires Requests(cfg, s, c, p)
    ensures p.updatedAt == c.later
  {
  }

  lemma RequestIsStored(cfg: Config, s: Snapshot, c: Call, p: Peer)
    requires Requests(cfg, s, c, p)
    ensures p.id in Apply(cfg, s, c).pending && Apply(cfg, s, c).pending[p.id] == p
  {
  }

  /** The call a step carries out, wholly or up to its rename. */
  function CallOf(step: Step): Call
    requires !step.Restart?
  {
    step.call
  }

  /** An ID becomes trusted only by an Approve whose token, fingerprint and code are
      those of the latest request for that ID, put less than the TTL before, with no
      restart and no other successful call about the ID in between. */
  lemma TrustNeedsApproval(cfg: Config, states: seq<Snapshot>, steps: seq<Step>, k: nat, id: string)
    requires Run(cfg, states, steps) && k < |steps|
    requires !Trusts(states[k], id) && Trusts(states[k + 1], id)
    ensures !steps[k].Restart?
    ensures exists j, p ::
      && Stands(cfg, states, steps, j, k, id, p)
      && CallOf(steps[k]).op.Approve?
      && Confirms(p, CallOf(steps[k]).op.token, CallOf(steps[k]).op.fingerprint, CallOf(steps[k]).op.code)
      && CallOf(steps[k]).at < p.updatedAt + cfg.pendingTTL
      && states[k + 1].peers[id].fingerprint == p.fingerprint
  {
    hide Shaped, Apply, Stands, Confirms;
    var s, t := states[k], states[k + 1];
    RunsKeepShape(cfg, states, steps, k);
    assert Took(cfg, s, steps[k], t);
    match steps[k]
    case Restart(saves) =>
      LoadedShape(cfg, s.disk, saves);
      Intact(cfg, s);
    case Done(c) =>
      TrustSource(cfg, s, c, id);
      var j := PendingHasRequest(cfg, states, steps, k, id);
      assert CallOf(steps[k]) == c && Stands(cfg, states, steps, j, k, id, s.pending[id]);
    case Crashed(c, renamed, saves) =>
      CrashLosesNothingElse(cfg, s, c, renamed, saves);
      TrustSource(cfg, s, c, id);
      var j := PendingHasRequest(cfg, states, steps, k, id);
      assert CallOf(steps[k]) == c && Stands(cfg, states, steps, j, k, id, s.pending[id]);
  }

  /** No step between the two states carries out a Reject or Unpair of `id`. */
  ghost predicate NeverRevoked(cfg: Config, states: seq<Snapshot>, steps: seq<Step>, j: nat, k: nat, id: string)
    requires |states| == |steps| + 1 && k < |states|
  {
    forall m :: j <= m < k ==> Keeps(cfg, states[m], steps[m], id)
  }

  ghost predicate Keeps(cfg: Config, s: Snapshot, step: Step, id: string) {
    step.Restart? || !Revokes(cfg, s, step.call, id)
  }

  /** Once trusted, an ID stays trusted with the same fingerprint through every
      operation, failure, crash and restart, until a Reject or Unpair of it. */
  lemma {:induction false} TrustIsPinned(
    cfg: Config, states: seq<Snapshot>, steps: seq<Step>, j: nat, k: nat, id: string)
    requires Run(cfg, states, steps) && j <= k < |states|
    requires Trusts(states[j], id) && NeverRevoked(cfg, states, steps, j, k, id)
    ensures Trusts(states[k], id)
    ensures states[k].peers[id].fingerprint == states[j].peers[id].fingerprint
    decreases k
  {
    if j < k {
      hide Shaped, Apply, Revokes;
      var m := k - 1;
      TrustIsPinned(cfg, states, steps, j, m, id);
      RunsKeepShape(cfg, states, steps, m);
      assert Took(cfg, states[m], steps[m], states[m + 1]) && Keeps(cfg, states[m], steps[m], id);
      match steps[m]
      case Restart(saves) =>
        LoadedShape(cfg, states[m].disk, saves);
        Intact(cfg, states[m]);
      case Done(c) => TrustFrame(cfg, states[m], c, id);
      case Crashed(c, renamed, saves) =>
        CrashLosesNothingElse(cfg, states[m], c, renamed, saves);
        TrustFrame(cfg, states[m], c, id);
    }
  }

  // ---------------------------------------------------------------------------
  // A fingerprint determines an ID
  // ---------------------------------------------------------------------------

  ghost predicate AllOwned(names: string -> string, m: Peers) {
    forall id :: id in m ==> Owned(names, id, m[id].fingerprint)
  }

  ghost predicate OwnedStore(names: string -> string, s: Snapshot) {
    AllOwned(names, s.peers) && AllOwned(names, s.pending)
  }

  /** Every Put went through the checks of a pairing path. */
  ghost predicate PutsProposed(names: string -> string, cfg: Config, validID: string -> bool, step: Step) {
    !step.Restart? && step.call.op.Put? ==> Proposed(names, cfg, validID, step.call.op.peer)
  }

  lemma PruneKeepsOwners(names: string -> string, cfg: Config, s: Snapshot, now: nat)
    requires OwnedStore(names, s)
    ensures OwnedStore(names, Pruned(cfg, s, now)) && Pruned(cfg, s, now).peers == s.peers
  {
    hide Owned;
  }

  lemma ApplyKeepsOwners(names: string -> string, cfg: Config, s: Snapshot, c: Call)
    requires OwnedStore(names, s)
    requires c.op.Put? ==> Owned(names, c.op.peer.id, c.op.peer.fingerprint)
    ensures OwnedStore(names, Apply(cfg, s, c))
  {
    hide Owned, Confirms, Unexpired;
    PruneKeepsOwners(names, cfg, s, c.at);
    match c.op
    case Approve(r, _, _, _) =>
      if Resolution(cfg, Pruned(cfg, s, c.at), r, [Pending]).Ok? {
        ResolvedIsStored(cfg, Pruned(cfg, s, c.at), r, [Pending]);
      }
      hide Resolution;
    case Reject(r) =>
      if Resolution(cfg, Pruned(cfg, s, c.at), r, []).Ok? {
        ResolvedIsStored(cfg, Pruned(cfg, s, c.at), r, []);
      }
      hide Resolution;
    case _ => hide Resolution;
  }

  lemma {:induction false} RunsKeepOwners(
    names: string -> string, cfg: Config, validID: string -> bool,
    states: seq<Snapshot>, steps: seq<Step>, j: nat)
    requires Run(cfg, states, steps) && j < |states|
    requires AllOwned(names, states[0].peers)
    requires forall m :: 0 <= m < |steps| ==> PutsProposed(names, cfg, validID, steps[m])
    ensures OwnedStore(names, states[j])
  {
    if j > 0 {
      hide Shaped, Apply, Owned, Proposed;
      var m := j - 1;
      RunsKeepOwners(names, cfg, validID, states, steps, m);
      RunsKeepShape(cfg, states, steps, m);
      assert Took(cfg, states[m], steps[m], states[m + 1]) && PutsProposed(names, cfg, validID, steps[m]);
      if !steps[m].Restart? && steps[m].call.op.Put? {
        ProposedIsOwned(names, cfg, validID, steps[m].call.op.peer);
      }
      match steps[m]
      case Restart(saves) =>
        LoadedShape(cfg, states[m].disk, saves);
        Intact(cfg, states[m]);
      case Done(c) => ApplyKeepsOwners(names, cfg, states[m], c);
      case Crashed(c, renamed, saves) =>
        ApplyKeepsOwners(names, cfg, states[m], c);
        LoadedShape(cfg, CrashFile(cfg, states[m], c, renamed), saves);
        CrashLosesNothingElse(cfg, states[m], c, renamed, saves);
    }
  }

  function TrustedWith(peers: Peers, fp: string): set<string> {
    set id | id in peers && peers[id].state == Trusted && peers[id].fingerprint == fp
  }

  /** In every state of every run no two IDs of the store share a fingerprint, so
      TrustedFingerprint has one possible answer whatever the map order. */
  lemma FingerprintNamesOneID(
    names: string -> string, cfg: Config, validID: string -> bool,
    states: seq<Snapshot>, steps: seq<Step>, j: nat, fp: string)
    requires Run(cfg, states, steps) && j < |states|
    requires AllOwned(names, states[0].peers)
    requires forall m :: 0 <= m < |steps| ==> PutsProposed(names, cfg, validID, steps[m])
    ensures forall a, b :: a in Sharing(states[j], fp) && b in Sharing(states[j], fp) ==> a == b
    ensures forall a, b :: a in TrustedWith(states[j].peers, fp) && b in TrustedWith(states[j].peers, fp) ==> a == b
  {
    RunsKeepOwners(names, cfg, validID, states, steps, j);
    forall a, b | a in Sharing(states[j], fp) && b in Sharing(states[j], fp) ensures a == b {
      OwnerIsUnique(names, fp, a, b);
    }
    assert TrustedWith(states[j].peers, fp) <= Sharing(states[j], fp);
  }

  /** Every entry is filed under its own ID. */
  ghost predicate Filed(m: Peers) {
    forall id :: id in m ==> m[id].id == id
  }

  lemma MovedStaysFiled(cfg: Config, s: Snapshot, text: string, states: seq<PeerState>, state: PeerState, now: nat)
    requires Shaped(cfg, s) && Filed(s.peers) && Resolution(cfg, s, text, states).Ok?
    ensures Filed(Moved(s, Resolution(cfg, s, text, states).value, state, now).peers)
  {
    ResolvedIsStored(cfg, s, text, states);
    hide Resolution;
  }

  lemma ApproveStaysFiled(cfg: Config, s: Snapshot, c: Call)
    requires Shaped(cfg, s) && Filed(s.peers) && c.op.Approve?
    ensures Filed(Apply(cfg, s, c).peers)
  {
    hide Shaped, Unexpired, Resolution, Confirms, Moved, Filed;
    PruneKeepsShape(cfg, s, c.at);
    var q := Pruned(cfg, s, c.at);
    if Resolution(cfg, q, c.op.ref, [Pending]).Ok? {
      MovedStaysFiled(cfg, q, c.op.ref, [Pending], Trusted, c.later);
    }
  }

  lemma RejectStaysFiled(cfg: Config, s: Snapshot, c: Call)
    requires Shaped(cfg, s) && Filed(s.peers) && c.op.Reject?
    ensures Filed(Apply(cfg, s, c).peers)
  {
    hide Shaped, Unexpired, Resolution, Moved, Filed;
    PruneKeepsShape(cfg, s, c.at);
    var q := Pruned(cfg, s, c.at);
    if Resolution(cfg, q, c.op.ref, []).Ok? {
      MovedStaysFiled(cfg, q, c.op.ref, [], Rejected, c.later);
    }
  }

  lemma ApplyStaysFiled(cfg: Config, s: Snapshot, c: Call)
    requires Shaped(cfg, s) && Filed(s.peers)
    ensures Filed(Apply(cfg, s, c).peers)
  {
    if c.op.Approve? {
      ApproveStaysFiled(cfg, s, c);
    } else if c.op.Reject? {
      RejectStaysFiled(cfg, s, c);
    } else {
      hide Shaped, Unexpired, Resolution, ApproveSpec, RejectSpec;
    }
  }

  /** So the entry TrustedFingerprint returns carries the ID it is filed under, which
      is the one a later UpdateName of it is about. */
  lemma {:induction false} RunsStayFiled(cfg: Config, states: seq<Snapshot>, steps: seq<Step>, j: nat)
    requires Run(cfg, states, steps) && j < |states| && Filed(states[0].peers)
    ensures Filed(states[j].peers) && Filed(states[j].pending)
  {
    RunsKeepShape(cfg, states, steps, j);
    assert Filed(states[j].pending);
    if j > 0 {
      hide Shaped, Apply, Filed;
      var m := j - 1;
      RunsStayFiled(cfg, states, steps, m);
      RunsKeepShape(cfg, states, steps, m);
      assert Took(cfg, states[m], steps[m], states[m + 1]);
      match steps[m]
      case Restart(saves) =>
        LoadedShape(cfg, states[m].disk, saves);
        Intact(cfg, states[m]);
      case Done(c) => ApplyStaysFiled(cfg, states[m], c);
      case Crashed(c, renamed, saves) =>
        ApplyStaysFiled(cfg, states[m], c);
        CrashLosesNothingElse(cfg, states[m], c, renamed, saves);
    }
  }

  /** The IDs that some entry of either map lists with this fingerprint. */
  function Sharing(s: Snapshot, fp: string): set<string> {
    (set id | id in s.peers && s.peers[id].fingerprint == fp)
    + (set id | id in s.pending && s.pending[id].fingerprint == fp)
  }
}
