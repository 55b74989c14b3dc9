// The capacity-1 channels of internal/daemon/daemon.go that replace an unsent
// value instead of blocking: `clipWrites`, which every peer's reader fills, and
// each connection's `out`, which only localLoop fills.
//
// A producer runs three selects: offer the value; take out whatever is queued;
// offer the value again, now waiting if it has to.  Selects of different
// producers and of the consumer interleave freely.
module LatestQueue {
  import opened Channel
  import opened Subsequences

  /** A value, named by the producer that enqueues it and its place in its order. */
  datatype Item<T> = Item(owner: nat, nth: nat, value: T)

  datatype Producer<T> = Resting | Holding(item: Item<T>, stage: Stage)

  datatype Drop<T> = Drop(victim: Item<T>, newer: Item<T>)

  /** The channel and its producers, with logs of what went in, came out and was
      replaced. */
  datatype Queue<T> = Queue(
    slot: seq<Item<T>>,
    producers: seq<Producer<T>>,
    begun: seq<nat>,             // values each producer has started to enqueue
    put: seq<Item<T>>,
    taken: seq<Item<T>>,
    drops: seq<Drop<T>>)

  datatype Step<T> =
    | Begin(p: nat, value: T)
    | Advance(p: nat)
    | Take

  predicate Shaped<T>(q: Queue<T>) {
    |q.producers| == |q.begun|
  }

  predicate Enabled<T>(q: Queue<T>, step: Step<T>)
    requires Shaped(q)
  {
    match step
    case Begin(p, _) => p < |q.producers| && q.producers[p].Resting?
    case Advance(p) =>
      p < |q.producers| && q.producers[p].Holding? && (q.producers[p].stage == Deliver ==> q.slot == [])
    case Take => q.slot != []
  }

  function Next<T>(q: Queue<T>, step: Step<T>): Queue<T>
    requires Shaped(q) && Enabled(q, step)
  {
    match step
    case Begin(p, v) =>
      q.(producers := q.producers[p := Holding(Item(p, q.begun[p], v), Offer)],
         begun := q.begun[p := q.begun[p] + 1])
    case Advance(p) =>
      var h := q.producers[p];
      var r := PutSelect(h.stage, h.item, q.slot);
      q.(slot := r.1,
         producers := q.producers[p := if r.0.Done? then Resting else h.(stage := r.0.stage)],
         put := if r.0.Done? then q.put + [h.item] else q.put,
         drops := if h.stage == Evict && q.slot != [] then q.drops + [Drop(q.slot[0], h.item)] else q.drops)
    case Take =>
      q.(slot := q.slot[1..], taken := q.taken + [q.slot[0]])
  }

  ghost predicate Init<T>(q: Queue<T>) {
    && Shaped(q) && q.slot == q.put == q.taken == [] && q.drops == []
    && (forall p :: 0 <= p < |q.producers| ==> q.producers[p].Resting? && q.begun[p] == 0)
  }

  // ---------------------------------------------------------------------------
  // The invariant
  // ---------------------------------------------------------------------------

  /** Values of one producer appear in the order it enqueued them. */
  ghost predicate InOrder<T>(s: seq<Item<T>>) {
    forall i, j :: 0 <= i < j < |s| && s[i].owner == s[j].owner ==> s[i].nth < s[j].nth
  }

  /** A producer holds the newest value it has begun. */
  ghost predicate Current<T>(q: Queue<T>, p: nat)
    requires Shaped(q) && p < |q.producers|
  {
    q.producers[p].Holding? ==>
      q.producers[p].item.owner == p && q.producers[p].item.nth + 1 == q.begun[p]
  }

  /** A value already put precedes everything its producer still has to put. */
  ghost predicate Past<T>(q: Queue<T>, x: Item<T>)
    requires Shaped(q)
  {
    && x.owner < |q.producers|
    && x.nth < q.begun[x.owner]
    && (q.producers[x.owner].Holding? ==> x.nth < q.producers[x.owner].item.nth)
  }

  /** The value that replaced another is still held, about to be delivered, or was put. */
  ghost predicate Replaced<T>(q: Queue<T>, d: Drop<T>) {
    (d.newer.owner < |q.producers| && q.producers[d.newer.owner] == Holding(d.newer, Deliver)) || d.newer in q.put
  }

  /** A value gives way only to one that had not been put when it was. */
  ghost predicate GaveWay<T>(put: seq<Item<T>>, d: Drop<T>) {
    exists i :: 0 <= i < |put| && PutFirst(put, d, i)
  }

  ghost predicate PutFirst<T>(put: seq<Item<T>>, d: Drop<T>, i: nat)
    requires i < |put|
  {
    put[i] == d.victim && forall k :: 0 <= k <= i ==> put[k] != d.newer
  }

  /** The newest value put is queued, was taken, or is being replaced right now. */
  ghost predicate NewestKept<T>(q: Queue<T>) {
    || Coalesces(q.taken + q.slot, q.put)
    || (q.slot == [] &&
        exists p :: 0 <= p < |q.producers| && q.producers[p].Holding? && q.producers[p].stage == Deliver)
  }

  function Victims<T>(drops: seq<Drop<T>>): seq<Item<T>> {
    seq(|drops|, i requires 0 <= i < |drops| => drops[i].victim)
  }

  /** Every value put was taken, is queued or was dropped, exactly once. */
  ghost predicate Accounted<T>(q: Queue<T>) {
    multiset(q.put) == multiset(q.taken) + multiset(q.slot) + multiset(Victims(q.drops))
  }

  /** The channel of a single producer is empty when it makes its final offer. */
  ghost predicate Unblocked<T>(q: Queue<T>) {
    |q.producers| == 1 && q.producers[0].Holding? && q.producers[0].stage == Deliver ==> q.slot == []
  }

  ghost predicate LogInv<T>(q: Queue<T>) {
    && |q.slot| <= 1
    && Subsequence(q.taken + q.slot, q.put)
    && Accounted(q)
    && NewestKept(q)
  }

  ghost predicate HolderInv<T>(q: Queue<T>)
    requires Shaped(q)
  {
    && InOrder(q.put)
    && (forall p :: 0 <= p < |q.producers| ==> Current(q, p))
    && (forall i :: 0 <= i < |q.put| ==> Past(q, q.put[i]))
    && (forall i :: 0 <= i < |q.drops| ==> Replaced(q, q.drops[i]))
    && Unblocked(q)
  }

  ghost predicate Inv<T>(q: Queue<T>) {
    Shaped(q) && LogInv(q) && HolderInv(q)
  }

  lemma InitInv<T>(q: Queue<T>)
    requires Init(q)
    ensures Inv(q)
  {
  }

  lemma BeginInv<T>(q: Queue<T>, p: nat, v: T)
    requires Inv(q) && Enabled(q, Begin(p, v))
    ensures Inv(Next(q, Begin(p, v)))
  {
    hide Subsequence, Coalesces;
    var r := Next(q, Begin(p, v));
    forall m | 0 <= m < |r.producers| ensures Current(r, m) { assert Current(q, m); }
    forall i | 0 <= i < |r.put| ensures Past(r, r.put[i]) { assert Past(q, q.put[i]); }
    forall i | 0 <= i < |r.drops| ensures Replaced(r, r.drops[i]) { assert Replaced(q, q.drops[i]); }
    if m :| 0 <= m < |q.producers| && q.producers[m].Holding? && q.producers[m].stage == Deliver {
      assert r.producers[m] == q.producers[m];
    }
  }

  lemma TakeInv<T>(q: Queue<T>)
    requires Inv(q) && q.slot != []
    ensures Inv(Next(q, Take))
  {
    hide Subsequence, Coalesces;
    var r := Next(q, Take);
    assert r.taken + r.slot == q.taken + q.slot;
    assert q.slot == [q.slot[0]];
    forall m | 0 <= m < |r.producers| ensures Current(r, m) { assert Current(q, m); }
    forall i | 0 <= i < |r.put| ensures Past(r, r.put[i]) { assert Past(q, q.put[i]); }
    forall i | 0 <= i < |r.drops| ensures Replaced(r, r.drops[i]) { assert Replaced(q, q.drops[i]); }
  }

  lemma PutAccounts<T>(q: Queue<T>, r: Queue<T>, x: Item<T>)
    requires Accounted(q) && q.slot == []
    requires r.put == q.put + [x] && r.slot == [x] && r.taken == q.taken && r.drops == q.drops
    ensures Accounted(r)
  {
  }

  lemma SameAccounts<T>(q: Queue<T>, r: Queue<T>)
    requires Accounted(q)
    requires r.put == q.put && r.slot == q.slot && r.taken == q.taken && r.drops == q.drops
    ensures Accounted(r)
  {
  }

  lemma EvictAccounts<T>(q: Queue<T>, r: Queue<T>, d: Drop<T>)
    requires Accounted(q) && q.slot == [d.victim]
    requires r.put == q.put && r.slot == [] && r.taken == q.taken && r.drops == q.drops + [d]
    ensures Accounted(r)
  {
    assert Victims(r.drops) == Victims(q.drops) + [d.victim];
  }

  /** A select that puts its value: a first offer to an empty slot, or the last one. */
  lemma PutLogs<T>(q: Queue<T>, p: nat)
    requires Inv(q) && Enabled(q, Advance(p)) && q.slot == [] && q.producers[p].stage != Evict
    ensures LogInv(Next(q, Advance(p)))
  {
    hide Subsequence, HolderInv, Accounted;
    var r, x := Next(q, Advance(p)), q.producers[p].item;
    assert q.taken + q.slot == q.taken;
    TakeBoth(q.taken, q.put, x);
    assert r.put == q.put + [x] && r.slot == [x] && r.taken == q.taken && r.drops == q.drops;
    PutAccounts(q, r, x);
    assert r.put[|q.put|] == x && (r.taken + r.slot)[|q.taken|] == x;
  }

  lemma PutHolders<T>(q: Queue<T>, p: nat)
    requires Inv(q) && Enabled(q, Advance(p)) && q.slot == [] && q.producers[p].stage != Evict
    ensures HolderInv(Next(q, Advance(p)))
  {
    hide LogInv;
    var r, x := Next(q, Advance(p)), q.producers[p].item;
    assert r.put == q.put + [x] && r.producers == q.producers[p := Resting] && r.drops == q.drops;
    assert Current(q, p);
    forall i | 0 <= i < |r.put|
      ensures Past(r, r.put[i])
      ensures i < |q.put| && r.put[i].owner == p ==> r.put[i].nth < x.nth
    {
      assert i < |q.put| ==> Past(q, q.put[i]);
    }
    forall m | 0 <= m < |r.producers| ensures Current(r, m) { assert Current(q, m); }
    forall i | 0 <= i < |r.drops| ensures Replaced(r, r.drops[i]) {
      assert Replaced(q, q.drops[i]);
      assert x == r.put[|q.put|];
    }
  }

  lemma EvictLogs<T>(q: Queue<T>, p: nat)
    requires Inv(q) && Enabled(q, Advance(p)) && q.producers[p].stage == Evict
    ensures LogInv(Next(q, Advance(p)))
  {
    hide Subsequence, Coalesces, HolderInv, Accounted;
    var r, h := Next(q, Advance(p)), q.producers[p];
    assert r.producers[p] == Holding(h.item, Deliver);
    SubsequencePrefix(q.taken, q.slot, q.put);
    assert r.taken + r.slot == q.taken;
    if q.slot != [] {
      assert q.slot == [q.slot[0]];
      EvictAccounts(q, r, Drop(q.slot[0], h.item));
    } else {
      assert r.slot == q.slot && r.drops == q.drops;
      assert Accounted(r) by { SameAccounts(q, r); }
    }
  }

  /** A select that leaves the producer holding its value one stage further on. */
  lemma StageHolders<T>(q: Queue<T>, p: nat)
    requires Inv(q) && Enabled(q, Advance(p))
    requires q.producers[p].stage == Evict || (q.producers[p].stage == Offer && q.slot != [])
    ensures HolderInv(Next(q, Advance(p)))
  {
    hide LogInv;
    var r, h := Next(q, Advance(p)), q.producers[p];
    assert r.put == q.put && r.begun == q.begun;
    assert Current(q, p) && r.producers[p] == Holding(h.item, r.producers[p].stage);
    forall i | 0 <= i < |r.put| ensures Past(r, r.put[i]) { assert Past(q, q.put[i]); }
    forall m | 0 <= m < |r.producers| ensures Current(r, m) { assert Current(q, m); }
    forall i | 0 <= i < |r.drops| ensures Replaced(r, r.drops[i]) {
      assert i < |q.drops| ==> Replaced(q, q.drops[i]);
    }
  }

  lemma OfferLogs<T>(q: Queue<T>, p: nat)
    requires Inv(q) && Enabled(q, Advance(p)) && q.producers[p].stage == Offer && q.slot != []
    ensures LogInv(Next(q, Advance(p)))
  {
    hide Subsequence, Coalesces, HolderInv;
  }

  lemma StepInv<T>(q: Queue<T>, step: Step<T>)
    requires Inv(q) && Enabled(q, step)
    ensures Inv(Next(q, step))
  {
    match step
    case Begin(p, v) => BeginInv(q, p, v);
    case Take => TakeInv(q);
    case Advance(p) =>
      if q.producers[p].stage == Evict {
        EvictLogs(q, p);
        StageHolders(q, p);
      } else if q.slot == [] {
        PutLogs(q, p);
        PutHolders(q, p);
      } else {
        OfferLogs(q, p);
        StageHolders(q, p);
      }
  }

  // ---------------------------------------------------------------------------
  // What holds over every interleaving
  // ---------------------------------------------------------------------------

  ghost predicate Took<T>(q: Queue<T>, step: Step<T>, r: Queue<T>) {
    Shaped(q) && Enabled(q, step) && r == Next(q, step)
  }

  ghost predicate Run<T>(states: seq<Queue<T>>, steps: seq<Step<T>>) {
    && |states| == |steps| + 1 && Init(states[0])
    && forall j :: 0 <= j < |steps| ==> Took(states[j], steps[j], states[j + 1])
  }

  lemma {:induction false} RunsKeepInv<T>(states: seq<Queue<T>>, steps: seq<Step<T>>, j: nat)
    requires Run(states, steps) && j < |states|
    ensures Inv(states[j])
  {
    if j == 0 {
      InitInv(states[0]);
    } else {
      var k := j - 1;
      RunsKeepInv(states, steps, k);
      assert Took(states[k], steps[k], states[k + 1]);
      StepInv(states[k], steps[k]);
    }
  }

  lemma {:induction false} SubsequenceInOrder<T>(p: seq<Item<T>>, q: seq<Item<T>>)
    requires Subsequence(p, q) && InOrder(q)
    ensures InOrder(p)
    decreases |q|
  {
    if p != [] {
      var r, last := q[..|q| - 1], q[|q| - 1];
      assert InOrder(r);
      if Subsequence(p, r) {
        SubsequenceInOrder(p, r);
      } else {
        var older := p[..|p| - 1];
        SubsequenceInOrder(older, r);
        forall i | 0 <= i < |older| && older[i].owner == last.owner ensures older[i].nth < last.nth {
          SubsequenceMembers(older, r, older[i]);
          var k :| 0 <= k < |r| && r[k] == older[i];
          assert q[k] == older[i];
        }
      }
    }
  }

  lemma GaveWayGrows<T>(put: seq<Item<T>>, more: seq<Item<T>>, d: Drop<T>)
    requires GaveWay(put, d) && put <= more
    ensures GaveWay(more, d)
  {
    var i :| 0 <= i < |put| && PutFirst(put, d, i);
    assert PutFirst(more, d, i);
  }

  /** What is evicted was put, and what its producer holds was not yet. */
  lemma EvictedGivesWay<T>(q: Queue<T>, p: nat)
    requires Inv(q) && Enabled(q, Advance(p)) && q.slot != []
    ensures GaveWay(q.put, Drop(q.slot[0], q.producers[p].item))
  {
    var d := Drop(q.slot[0], q.producers[p].item);
    assert d.victim in q.put by {
      assert q.slot[0] in multiset(q.slot);
      assert q.slot[0] in multiset(q.put);
    }
    var i :| 0 <= i < |q.put| && q.put[i] == d.victim;
    assert Current(q, p);
    forall k | 0 <= k <= i ensures q.put[k] != d.newer {
      assert Past(q, q.put[k]);
    }
    assert PutFirst(q.put, d, i);
  }

  lemma {:induction false} RunsGiveWay<T>(states: seq<Queue<T>>, steps: seq<Step<T>>, j: nat, i: nat)
    requires Run(states, steps) && j < |states| && i < |states[j].drops|
    ensures GaveWay(states[j].put, states[j].drops[i])
  {
    assert j > 0;
    var k := j - 1;
    var q, r := states[k], states[j];
    assert Took(q, steps[k], states[k + 1]);
    RunsKeepInv(states, steps, k);
    hide GaveWay, Inv;
    if i < |q.drops| {
      RunsGiveWay(states, steps, k, i);
      GaveWayGrows(q.put, r.put, r.drops[i]);
    } else {
      EvictedGivesWay(q, steps[k].p);
    }
  }

  /** Under every interleaving the channel holds at most one value, what the
      consumer takes from each producer is in that producer's order, every value
      put is taken, queued or dropped exactly once, and a value is dropped only for
      one that had not been put when it was, and is about to be put or was put since. */
  lemma NothingIsReordered<T>(states: seq<Queue<T>>, steps: seq<Step<T>>, j: nat)
    requires Run(states, steps) && j < |states|
    ensures var q := states[j];
      && |q.slot| <= 1
      && Subsequence(q.taken, q.put) && InOrder(q.taken)
      && Accounted(q)
      && forall i :: 0 <= i < |q.drops| ==> Replaced(q, q.drops[i]) && GaveWay(q.put, q.drops[i])
  {
    RunsKeepInv(states, steps, j);
    forall i | 0 <= i < |states[j].drops| ensures GaveWay(states[j].put, states[j].drops[i]) {
      RunsGiveWay(states, steps, j, i);
    }
    hide GaveWay;
    var q := states[j];
    SubsequencePrefix(q.taken, q.slot, q.put);
    SubsequenceInOrder(q.taken, q.put);
  }

  /** Once no producer is in the middle of an enqueue, the newest value put is
      the one queued, or the last one taken. */
  lemma NewestSurvives<T>(states: seq<Queue<T>>, steps: seq<Step<T>>, j: nat)
    requires Run(states, steps) && j < |states|
    requires forall p :: 0 <= p < |states[j].producers| ==> states[j].producers[p].Resting?
    ensures Coalesces(states[j].taken + states[j].slot, states[j].put)
  {
    RunsKeepInv(states, steps, j);
  }

  /** A producer waits only for a consumer that has something to take, and a sole
      producer, such as localLoop for a connection's `out`, never waits at all. */
  lemma ProducersNeverStall<T>(states: seq<Queue<T>>, steps: seq<Step<T>>, j: nat, p: nat)
    requires Run(states, steps) && j < |states|
    requires p < |states[j].producers| && states[j].producers[p].Holding?
    ensures Shaped(states[j])
    ensures Enabled(states[j], Advance(p)) || Enabled(states[j], Take)
    ensures |states[j].producers| == 1 ==> Enabled(states[j], Advance(p))
  {
    RunsKeepInv(states, steps, j);
  }
}
