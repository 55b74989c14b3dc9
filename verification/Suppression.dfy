// The loop-suppression list of internal/sync/suppression.go.
//
// An entry is keyed by the content it suppresses.  The program keys it by the
// SHA-256 hash of that content; hashes are taken to be collision free, so the
// key type H below stands for either.
module Suppression {

  const MAX_SUPPRESSION_ENTRIES: nat := 256

  datatype Entry<H> = Entry(eventID: string, hash: H, expires: nat)

  // ---------------------------------------------------------------------------
  // The list as a value
  // ---------------------------------------------------------------------------

  /** The entries that have not expired at `now`, in order. */
  function Unexpired<H>(s: seq<Entry<H>>, now: nat): seq<Entry<H>> {
    if s == [] then []
    else
      var last := s[|s| - 1];
      Unexpired(s[..|s| - 1], now) + if now < last.expires then [last] else []
  }

  /** The position of the oldest entry for `h`, or the length when there is none. */
  function Oldest<H(==)>(s: seq<Entry<H>>, h: H): (k: nat)
    ensures k <= |s|
    ensures forall i :: 0 <= i < k ==> s[i].hash != h
    ensures k < |s| ==> s[k].hash == h
  {
    if s == [] then 0
    else if s[0].hash == h then 0
    else 1 + Oldest(s[1..], h)
  }

  function Without<T>(s: seq<T>, k: nat): seq<T>
    requires k < |s|
  {
    s[..k] + s[k + 1..]
  }

  /** The newest `room` elements. */
  function Newest<T>(s: seq<T>, room: nat): seq<T> {
    if |s| <= room then s else s[|s| - room..]
  }

  /** Room for one more entry: a full list gives up its oldest ones. */
  function Trimmed<H>(s: seq<Entry<H>>): seq<Entry<H>> {
    Newest(s, MAX_SUPPRESSION_ENTRIES - 1)
  }

  /** Add prunes at one reading of the clock and dates the entry by a later one. */
  function Added<H>(s: seq<Entry<H>>, pruneAt: nat, e: Entry<H>): seq<Entry<H>> {
    Trimmed(Unexpired(s, pruneAt)) + [e]
  }

  predicate Matches<H(==)>(s: seq<Entry<H>>, h: H, now: nat) {
    var live := Unexpired(s, now);
    Oldest(live, h) < |live|
  }

  function Consumed<H(==)>(s: seq<Entry<H>>, h: H, now: nat): seq<Entry<H>> {
    var live := Unexpired(s, now);
    var k := Oldest(live, h);
    if k < |live| then Without(live, k) else live
  }

  ghost predicate Sorted<H>(s: seq<Entry<H>>) {
    forall i, j :: 0 <= i < j < |s| ==> s[i].expires <= s[j].expires
  }

  /** The shape every reachable list has. */
  ghost predicate Bounded<H>(s: seq<Entry<H>>, horizon: nat) {
    && |s| <= MAX_SUPPRESSION_ENTRIES
    && Sorted(s)
    && forall i :: 0 <= i < |s| ==> s[i].expires <= horizon
  }

  lemma {:induction false} UnexpiredPrefix<H>(s: seq<Entry<H>>, i: nat, now: nat)
    requires i < |s|
    ensures Unexpired(s[..i + 1], now) == Unexpired(s[..i], now) + if now < s[i].expires then [s[i]] else []
  {
    assert s[..i + 1][..i] == s[..i];
  }

  lemma UnexpiredAppend<H>(s: seq<Entry<H>>, e: Entry<H>, now: nat)
    ensures Unexpired(s + [e], now) == Unexpired(s, now) + if now < e.expires then [e] else []
  {
    assert (s + [e])[..|s|] == s;
  }

  lemma {:induction false} AllStale<H>(s: seq<Entry<H>>, now: nat)
    requires forall i :: 0 <= i < |s| ==> s[i].expires <= now
    ensures Unexpired(s, now) == []
  {
    if s != [] {
      AllStale(s[..|s| - 1], now);
    }
  }

  lemma SortedInit<H>(s: seq<Entry<H>>)
    requires Sorted(s) && s != []
    ensures Sorted(s[..|s| - 1])
    ensures forall i :: 0 <= i < |s| ==> s[i].expires <= s[|s| - 1].expires
  {
  }

  /** In a list ordered by expiry, pruning removes exactly a prefix. */
  lemma {:induction false} PruneKeepsSuffix<H>(s: seq<Entry<H>>, now: nat) returns (k: nat)
    requires Sorted(s)
    ensures k <= |s|
    ensures Unexpired(s, now) == s[k..]
    ensures forall i :: 0 <= i < k ==> s[i].expires <= now
    ensures forall i :: k <= i < |s| ==> now < s[i].expires
  {
    hide Sorted, Unexpired;
    if s == [] {
      AllStale(s, now);
      return 0;
    }
    var n := |s| - 1;
    SortedInit(s);
    if s[n].expires <= now {
      AllStale(s, now);
      k := |s|;
    } else {
      k := PruneKeepsSuffix(s[..n], now);
      UnexpiredAppend(s[..n], s[n], now);
      SuffixAppend(s, k);
    }
  }

  lemma SuffixAppend<T>(s: seq<T>, k: nat)
    requires s != [] && k < |s|
    ensures s[..|s| - 1] + [s[|s| - 1]] == s
    ensures s[..|s| - 1][k..] + [s[|s| - 1]] == s[k..]
    ensures forall i :: 0 <= i < |s| - 1 ==> s[..|s| - 1][i] == s[i]
  {
  }

  lemma WithoutBounded<H>(s: seq<Entry<H>>, horizon: nat, k: nat)
    requires Bounded(s, horizon) && k < |s|
    ensures Bounded(Without(s, k), horizon)
  {
    var r := Without(s, k);
    forall i, j | 0 <= i < j < |r| ensures r[i].expires <= r[j].expires {
      assert r[i] == s[if i < k then i else i + 1];
      assert r[j] == s[if j < k then j else j + 1];
    }
  }

  lemma AddedBounded<H>(s: seq<Entry<H>>, clock: nat, pruneAt: nat, e: Entry<H>)
    requires Bounded(s, clock) && clock <= e.expires
    ensures Bounded(Added(s, pruneAt, e), e.expires) && |Added(s, pruneAt, e)| <= 256
  {
    var k := PruneKeepsSuffix(s, pruneAt);
  }

  lemma ConsumedBounded<H>(s: seq<Entry<H>>, horizon: nat, h: H, now: nat)
    requires Bounded(s, horizon)
    ensures Bounded(Consumed(s, h, now), horizon)
  {
    var k := PruneKeepsSuffix(s, now);
    if Matches(s, h, now) {
      WithoutBounded(s[k..], horizon, Oldest(s[k..], h));
    }
  }

  // ---------------------------------------------------------------------------
  // The list in place
  // ---------------------------------------------------------------------------

  class Suppressor<H(==)> {
    const ttl: nat
    var buf: array<Entry<H>>   // the backing array of the slice
    var len: nat               // the length of the slice
    ghost var clock: nat       // the latest reading of the clock
    ghost var ledger: Ledger<H>

    ghost predicate Valid()
      reads this, buf
    {
      && len <= buf.Length
      && Bounded(Entries(), clock + ttl)
      && LiveEntries(ledger) == Entries()
      && Justified(ledger, clock)
    }

    ghost function Entries(): seq<Entry<H>>
      reads this, buf
      requires len <= buf.Length
    {
      buf[..len]
    }

    constructor (ttl: nat)
      ensures Valid() && fresh(buf)
      ensures this.ttl == ttl && clock == 0
      ensures Entries() == [] && ledger == []
    {
      this.ttl := ttl;
      buf := new Entry<H>[0];
      len := 0;
      clock := 0;
      ledger := [];
    }

    /** Filters the slice in place, writing survivors over the entries already read. */
    method Prune(now: nat)
      requires len <= buf.Length
      modifies this`len, buf
      ensures len <= buf.Length && len <= old(len)
      ensures Entries() == Unexpired(old(Entries()), now)
    {
      ghost var before := buf[..len];
      var kept, i := 0, 0;
      while i < len
        invariant kept <= i <= len == |before| <= buf.Length
        invariant buf[..kept] == Unexpired(before[..i], now)
        invariant forall j :: i <= j < len ==> buf[j] == before[j]
      {
        UnexpiredPrefix(before, i, now);
        if now < buf[i].expires {
          buf[kept] := buf[i];
          kept := kept + 1;
        }
        i := i + 1;
      }
      assert before[..i] == before;
      len := kept;
    }

    /** Drops all but the newest 255 entries of a full slice by shifting them down. */
    method Trim()
      requires len <= buf.Length
      modifies this`len, buf
      ensures len <= buf.Length && len < MAX_SUPPRESSION_ENTRIES
      ensures Entries() == Trimmed(old(Entries()))
    {
      if len >= MAX_SUPPRESSION_ENTRIES {
        ghost var before := buf[..len];
        var shift := len - MAX_SUPPRESSION_ENTRIES + 1;
        var i := 0;
        while i < MAX_SUPPRESSION_ENTRIES - 1
          invariant i <= MAX_SUPPRESSION_ENTRIES - 1 && len == |before| <= buf.Length
          invariant forall j :: 0 <= j < i ==> buf[j] == before[j + shift]
          invariant forall j :: i <= j < len ==> buf[j] == before[j]
        {
          buf[i] := buf[i + shift];
          i := i + 1;
        }
        len := MAX_SUPPRESSION_ENTRIES - 1;
      }
    }

    /** Appends to the slice, moving to a larger array when the current one is full. */
    method Append(e: Entry<H>)
      requires len <= buf.Length
      modifies this`buf, this`len, buf
      ensures len <= buf.Length
      ensures buf == old(buf) || fresh(buf)
      ensures Entries() == old(Entries()) + [e]
    {
      if len == buf.Length {
        var a, n := buf, len;
        var bigger := new Entry<H>[2 * n + 1](i reads a => if 0 <= i < a.Length then a[i] else e);
        buf := bigger;
      }
      buf[len] := e;
      len := len + 1;
    }

    /** The position of the first match, or the length of the slice. */
    method Find(h: H) returns (i: nat)
      requires len <= buf.Length
      ensures i == Oldest(Entries(), h)
    {
      i := 0;
      while i < len && buf[i].hash != h
        invariant i <= len
        invariant forall j :: 0 <= j < i ==> buf[j].hash != h
      {
        i := i + 1;
      }
    }

    /** Deletes position `i` by moving the entries after it one place down. */
    method RemoveAt(i: nat)
      requires i < len <= buf.Length
      modifies this`len, buf
      ensures len <= buf.Length
      ensures Entries() == Without(old(Entries()), i)
    {
      ghost var before := buf[..len];
      var j := i;
      while j + 1 < len
        invariant i <= j < len == |before| <= buf.Length
        invariant forall m :: 0 <= m < i ==> buf[m] == before[m]
        invariant forall m :: i <= m < j ==> buf[m] == before[m + 1]
        invariant forall m :: j < m < len ==> buf[m] == before[m]
      {
        buf[j] := buf[j + 1];
        j := j + 1;
      }
      len := len - 1;
    }

    /** Records a remote write.  The clock is read twice, under the lock. */
    method Add(eventID: string, h: H, pruneAt: nat, addAt: nat)
      requires Valid() && clock <= pruneAt <= addAt
      modifies this, buf
      ensures Valid() && clock == addAt
      ensures buf == old(buf) || fresh(buf)
      ensures Entries() == Added(old(Entries()), pruneAt, Entry(eventID, h, addAt + ttl))
      ensures ledger == LedgerAdd(old(ledger), pruneAt, Entry(eventID, h, addAt + ttl))
    {
      hide Unexpired, Newest, LedgerAdd, LiveEntries;
      ghost var e := Entry(eventID, h, addAt + ttl);
      AddRefines(ledger, clock, pruneAt, e);
      AddedBounded(Entries(), clock + ttl, pruneAt, e);
      Prune(pruneAt);
      Trim();
      Append(Entry(eventID, h, addAt + ttl));
      ledger := LedgerAdd(ledger, pruneAt, e);
      clock := addAt;
    }

    /** Answers whether a local event is an echo, using up the oldest match. */
    method Consume(h: H, now: nat) returns (found: bool)
      requires Valid() && clock <= now
      modifies this, buf
      ensures Valid() && clock == now && buf == old(buf)
      ensures found == Matches(old(Entries()), h, now)
      ensures Entries() == Consumed(old(Entries()), h, now)
      ensures ledger == LedgerConsume(old(ledger), h, now)
    {
      hide Unexpired, Without, LedgerConsume, LiveEntries;
      ConsumeRefines(ledger, clock, h, now);
      ConsumedBounded(Entries(), clock + ttl, h, now);
      Prune(now);
      var i := Find(h);
      found := i < len;
      if found {
        RemoveAt(i);
      }
      ledger := LedgerConsume(ledger, h, now);
      clock := now;
    }
  }

  // ---------------------------------------------------------------------------
  // What became of every entry ever added
  // ---------------------------------------------------------------------------

  datatype Fate = Live | Spent | Expired | Evicted

  datatype Record<H> = Record(entry: Entry<H>, fate: Fate)

  /** Every entry ever added, in order, with what became of it. */
  type Ledger<H> = seq<Record<H>>

  function LiveEntries<H>(l: Ledger<H>): seq<Entry<H>> {
    if l == [] then []
    else LiveEntries(l[..|l| - 1]) + if l[|l| - 1].fate == Live then [l[|l| - 1].entry] else []
  }

  /** Nothing is written off early: an expired entry is past its date, and an
      evicted one has at least 256 newer adds. */
  ghost predicate Justified<H>(l: Ledger<H>, clock: nat) {
    forall i :: 0 <= i < |l| ==>
      && (l[i].fate == Expired ==> l[i].entry.expires <= clock)
      && (l[i].fate == Evicted ==> i + MAX_SUPPRESSION_ENTRIES < |l|)
  }

  ghost function Dated<H>(r: Record<H>, now: nat): Record<H> {
    if r.fate == Live && r.entry.expires <= now then Record(r.entry, Expired) else r
  }

  ghost function LedgerPrune<H>(l: Ledger<H>, now: nat): Ledger<H> {
    seq(|l|, i requires 0 <= i < |l| => Dated(l[i], now))
  }

  /** Only the newest `room` live entries stay live. */
  ghost function LedgerEvict<H>(l: Ledger<H>, room: nat): (r: Ledger<H>)
    ensures |r| == |l|
  {
    if l == [] then []
    else
      var older, last := l[..|l| - 1], l[|l| - 1];
      if last.fate != Live then LedgerEvict(older, room) + [last]
      else if room == 0 then LedgerEvict(older, 0) + [Record(last.entry, Evicted)]
      else LedgerEvict(older, room - 1) + [last]
  }

  ghost function LedgerAdd<H>(l: Ledger<H>, pruneAt: nat, e: Entry<H>): Ledger<H> {
    LedgerEvict(LedgerPrune(l, pruneAt), MAX_SUPPRESSION_ENTRIES - 1) + [Record(e, Live)]
  }

  /** The first live position for `h`, or the number of adds when there is none. */
  ghost function OldestLive<H>(l: Ledger<H>, h: H, from: nat := 0): (k: nat)
    requires from <= |l|
    ensures from <= k <= |l|
    ensures forall i :: from <= i < k ==> !(l[i].fate == Live && l[i].entry.hash == h)
    ensures k < |l| ==> l[k].fate == Live && l[k].entry.hash == h
    decreases |l| - from
  {
    if from == |l| || (l[from].fate == Live && l[from].entry.hash == h) then from
    else OldestLive(l, h, from + 1)
  }

  ghost function Spend<H>(l: Ledger<H>, h: H): Ledger<H> {
    var k := OldestLive(l, h);
    if k < |l| then l[k := Record(l[k].entry, Spent)] else l
  }

  ghost function LedgerConsume<H>(l: Ledger<H>, h: H, now: nat): Ledger<H> {
    Spend(LedgerPrune(l, now), h)
  }

  lemma {:induction false} PruneRefines<H>(l: Ledger<H>, now: nat)
    ensures LiveEntries(LedgerPrune(l, now)) == Unexpired(LiveEntries(l), now)
  {
    if l != [] {
      var older := l[..|l| - 1];
      PruneRefines(older, now);
      assert LedgerPrune(l, now)[..|l| - 1] == LedgerPrune(older, now);
      UnexpiredAppend(LiveEntries(older), l[|l| - 1].entry, now);
      assert LiveEntries(older) + [] == LiveEntries(older);
    }
  }

  lemma NewestAppend<T>(s: seq<T>, e: T, room: nat)
    ensures Newest(s + [e], room) == if room == 0 then [] else Newest(s, room - 1) + [e]
    ensures Newest(s, 0) == []
  {
  }

  lemma {:induction false} EvictRefines<H>(l: Ledger<H>, room: nat)
    ensures LiveEntries(LedgerEvict(l, room)) == Newest(LiveEntries(l), room)
  {
    if l != [] {
      var older, last := l[..|l| - 1], l[|l| - 1];
      var next := if last.fate == Live && room > 0 then room - 1 else room;
      EvictRefines(older, next);
      assert LedgerEvict(l, room)[..|l| - 1] == LedgerEvict(older, next);
      NewestAppend(LiveEntries(older), last.entry, room);
      hide Newest;
    }
  }

  /** Entries lose liveness through eviction only with `room` positions after them. */
  lemma {:induction false} EvictedHaveSuccessors<H>(l: Ledger<H>, room: nat, i: nat)
    requires i < |l|
    ensures var r := LedgerEvict(l, room);
      r[i] == l[i] || (r[i] == Record(l[i].entry, Evicted) && l[i].fate == Live && i + room < |l|)
  {
    var last := l[|l| - 1];
    if i < |l| - 1 {
      EvictedHaveSuccessors(l[..|l| - 1], if last.fate == Live && room > 0 then room - 1 else room, i);
    }
  }

  lemma {:induction false} LiveEntriesConcat<H>(a: Ledger<H>, b: Ledger<H>)
    ensures LiveEntries(a + b) == LiveEntries(a) + LiveEntries(b)
  {
    if b == [] {
      assert a + b == a;
    } else {
      LiveEntriesConcat(a, b[..|b| - 1]);
      assert (a + b)[..|a + b| - 1] == a + b[..|b| - 1];
    }
  }

  lemma {:induction false} NoLiveMatch<H>(l: Ledger<H>, h: H)
    requires forall i :: 0 <= i < |l| ==> !(l[i].fate == Live && l[i].entry.hash == h)
    ensures forall i :: 0 <= i < |LiveEntries(l)| ==> LiveEntries(l)[i].hash != h
  {
    if l != [] {
      NoLiveMatch(l[..|l| - 1], h);
    }
  }

  lemma OldestInConcat<H>(a: seq<Entry<H>>, e: Entry<H>, b: seq<Entry<H>>)
    requires forall i :: 0 <= i < |a| ==> a[i].hash != e.hash
    ensures Oldest(a + [e] + b, e.hash) == |a|
    ensures Without(a + [e] + b, |a|) == a + b
  {
    var s := a + [e] + b;
    assert s[|a|] == e;
    assert forall i :: 0 <= i < |a| ==> s[i] == a[i];
  }

  lemma LiveEntriesAround<H>(a: Ledger<H>, r: Record<H>, b: Ledger<H>)
    ensures LiveEntries(a + [r] + b)
         == LiveEntries(a) + (if r.fate == Live then [r.entry] else []) + LiveEntries(b)
  {
    LiveEntriesConcat(a + [r], b);
    LiveEntriesConcat(a, [r]);
    assert [r][..0] == [];
  }

  lemma SpendFound<H>(a: Ledger<H>, e: Entry<H>, b: Ledger<H>)
    requires forall i :: 0 <= i < |a| ==> !(a[i].fate == Live && a[i].entry.hash == e.hash)
    ensures var s := LiveEntries(a + [Record(e, Live)] + b); var k := Oldest(s, e.hash);
      k < |s| && LiveEntries(a + [Record(e, Spent)] + b) == Without(s, k)
  {
    hide LiveEntries, Without;
    NoLiveMatch(a, e.hash);
    LiveEntriesAround(a, Record(e, Live), b);
    LiveEntriesAround(a, Record(e, Spent), b);
    OldestInConcat(LiveEntries(a), e, LiveEntries(b));
    assert LiveEntries(a) + [] + LiveEntries(b) == LiveEntries(a) + LiveEntries(b);
  }

  lemma SpendRefines<H>(l: Ledger<H>, h: H)
    ensures var s := LiveEntries(l); var k := Oldest(s, h);
      && (k < |s| <==> OldestLive(l, h) < |l|)
      && LiveEntries(Spend(l, h)) == if k < |s| then Without(s, k) else s
  {
    hide LiveEntries, Without;
    var k := OldestLive(l, h);
    if k < |l| {
      var a, e, b := l[..k], l[k].entry, l[k + 1..];
      assert l == a + [Record(e, Live)] + b;
      assert Spend(l, h) == a + [Record(e, Spent)] + b;
      SpendFound(a, e, b);
    } else {
      NoLiveMatch(l, h);
    }
  }

  /** Adding to the list is adding to the ledger. */
  lemma AddRefines<H>(l: Ledger<H>, clock: nat, pruneAt: nat, e: Entry<H>)
    requires Justified(l, clock) && clock <= pruneAt
    ensures LiveEntries(LedgerAdd(l, pruneAt, e)) == Added(LiveEntries(l), pruneAt, e)
    ensures Justified(LedgerAdd(l, pruneAt, e), pruneAt)
  {
    var live := LedgerPrune(l, pruneAt);
    var kept := LedgerEvict(live, MAX_SUPPRESSION_ENTRIES - 1);
    PruneRefines(l, pruneAt);
    EvictRefines(live, MAX_SUPPRESSION_ENTRIES - 1);
    assert (kept + [Record(e, Live)])[..|kept|] == kept;
    forall i | 0 <= i < |l|
      ensures kept[i].fate == Expired ==> kept[i].entry.expires <= pruneAt
      ensures kept[i].fate == Evicted ==> i + MAX_SUPPRESSION_ENTRIES <= |l|
    {
      EvictedHaveSuccessors(live, MAX_SUPPRESSION_ENTRIES - 1, i);
    }
  }

  lemma SpendKeepsJustified<H>(l: Ledger<H>, clock: nat, h: H, now: nat)
    requires Justified(l, clock) && clock <= now
    ensures Justified(LedgerConsume(l, h, now), now)
  {
    var live := LedgerPrune(l, now);
    assert forall i :: 0 <= i < |l| ==> live[i] == Dated(l[i], now);
  }

  /** Consuming from the list is spending the oldest live match of the ledger. */
  lemma ConsumeRefines<H>(l: Ledger<H>, clock: nat, h: H, now: nat)
    requires Justified(l, clock) && clock <= now
    ensures LiveEntries(LedgerConsume(l, h, now)) == Consumed(LiveEntries(l), h, now)
    ensures Justified(LedgerConsume(l, h, now), now)
    ensures Matches(LiveEntries(l), h, now) <==> LedgerConsume(l, h, now) != LedgerPrune(l, now)
  {
    hide LiveEntries, LedgerPrune, Unexpired, Without;
    PruneRefines(l, now);
    SpendRefines(LedgerPrune(l, now), h);
    SpendKeepsJustified(l, clock, h, now);
  }

  // ---------------------------------------------------------------------------
  // Whole traces of adds and consumes
  // ---------------------------------------------------------------------------

  datatype Use<H> = Put(pruneAt: nat, entry: Entry<H>) | Take(hash: H, at: nat)

  function When<H>(u: Use<H>): nat {
    match u case Put(t, _) => t case Take(_, t) => t
  }

  ghost predicate InTime<H>(uses: seq<Use<H>>) {
    forall i, j :: 0 <= i < j < |uses| ==> When(uses[i]) <= When(uses[j])
  }

  function Clock<H>(uses: seq<Use<H>>): nat {
    if uses == [] then 0 else When(uses[|uses| - 1])
  }

  /** The list after a trace. */
  function Listed<H(==)>(uses: seq<Use<H>>): seq<Entry<H>> {
    if uses == [] then []
    else
      var older := Listed(uses[..|uses| - 1]);
      match uses[|uses| - 1]
      case Put(t, e) => Added(older, t, e)
      case Take(h, t) => Consumed(older, h, t)
  }

  ghost function Recorded<H>(uses: seq<Use<H>>): Ledger<H> {
    if uses == [] then []
    else
      var older := Recorded(uses[..|uses| - 1]);
      match uses[|uses| - 1]
      case Put(t, e) => LedgerAdd(older, t, e)
      case Take(h, t) => LedgerConsume(older, h, t)
  }

  /** How many adds of the trace were of this content. */
  ghost function Puts<H>(uses: seq<Use<H>>, h: H): nat {
    if uses == [] then 0
    else
      var last := uses[|uses| - 1];
      Puts(uses[..|uses| - 1], h) + if last.Put? && last.entry.hash == h then 1 else 0
  }

  /** How many consumes of the trace returned true for this content. */
  ghost function Hits<H>(uses: seq<Use<H>>, h: H): nat {
    if uses == [] then 0
    else
      var older, last := uses[..|uses| - 1], uses[|uses| - 1];
      Hits(older, h) + if last.Take? && last.hash == h && Matches(Listed(older), h, last.at) then 1 else 0
  }

  ghost function CountFate<H>(l: Ledger<H>, h: H, fate: Fate): nat {
    if l == [] then 0
    else CountFate(l[..|l| - 1], h, fate) + if l[|l| - 1].entry.hash == h && l[|l| - 1].fate == fate then 1 else 0
  }

  ghost function CountAdds<H>(l: Ledger<H>, h: H): nat {
    if l == [] then 0 else CountAdds(l[..|l| - 1], h) + if l[|l| - 1].entry.hash == h then 1 else 0
  }

  ghost function CountEntries<H>(s: seq<Entry<H>>, h: H): nat {
    if s == [] then 0 else CountEntries(s[..|s| - 1], h) + if s[|s| - 1].hash == h then 1 else 0
  }

  lemma {:induction false} FatesPartition<H>(l: Ledger<H>, h: H)
    ensures CountAdds(l, h)
         == CountFate(l, h, Spent) + CountFate(l, h, Expired) + CountFate(l, h, Evicted)
            + CountEntries(LiveEntries(l), h)
  {
    if l != [] {
      var older := l[..|l| - 1];
      FatesPartition(older, h);
      var s, e := LiveEntries(older), l[|l| - 1].entry;
      assert (s + [e])[..|s|] == s && s + [] == s;
    }
  }

  /** The same entries, none of them spent in between. */
  ghost predicate SameSpent<H>(l: Ledger<H>, r: Ledger<H>) {
    |l| == |r| && forall i :: 0 <= i < |l| ==> l[i].entry == r[i].entry && (l[i].fate == Spent <==> r[i].fate == Spent)
  }

  lemma {:induction false} SameSpentCounts<H>(l: Ledger<H>, r: Ledger<H>, h: H)
    requires SameSpent(l, r)
    ensures CountAdds(l, h) == CountAdds(r, h) && CountFate(l, h, Spent) == CountFate(r, h, Spent)
  {
    if l != [] {
      SameSpentCounts(l[..|l| - 1], r[..|r| - 1], h);
    }
  }

  lemma {:induction false} EvictSpendsNothing<H>(l: Ledger<H>, room: nat)
    ensures SameSpent(l, LedgerEvict(l, room))
  {
    if l != [] {
      var older, last := l[..|l| - 1], l[|l| - 1];
      EvictSpendsNothing(older, if last.fate == Live && room > 0 then room - 1 else room);
    }
  }

  lemma AddCounts<H>(l: Ledger<H>, pruneAt: nat, e: Entry<H>, h: H)
    ensures var r := LedgerAdd(l, pruneAt, e);
      && CountAdds(r, h) == CountAdds(l, h) + (if e.hash == h then 1 else 0)
      && CountFate(r, h, Spent) == CountFate(l, h, Spent)
  {
    var live := LedgerPrune(l, pruneAt);
    var kept := LedgerEvict(live, MAX_SUPPRESSION_ENTRIES - 1);
    EvictSpendsNothing(live, MAX_SUPPRESSION_ENTRIES - 1);
    SameSpentCounts(l, kept, h);
    assert (kept + [Record(e, Live)])[..|kept|] == kept;
  }

  lemma {:induction false} SpendOneCounts<H>(l: Ledger<H>, k: nat, h: H)
    requires k < |l| && l[k].fate == Live
    ensures var r := l[k := Record(l[k].entry, Spent)];
      && CountAdds(r, h) == CountAdds(l, h)
      && CountFate(r, h, Spent) == CountFate(l, h, Spent) + (if l[k].entry.hash == h then 1 else 0)
  {
    var n := |l| - 1;
    var r := l[k := Record(l[k].entry, Spent)];
    if k < n {
      SpendOneCounts(l[..n], k, h);
      assert r[..n] == l[..n][k := Record(l[k].entry, Spent)];
    } else {
      assert r[..n] == l[..n];
    }
  }

  lemma TakeCounts<H>(l: Ledger<H>, clock: nat, x: H, now: nat, h: H)
    requires Justified(l, clock) && clock <= now
    ensures var r := LedgerConsume(l, x, now);
      && CountAdds(r, h) == CountAdds(l, h)
      && CountFate(r, h, Spent)
         == CountFate(l, h, Spent) + (if x == h && Matches(LiveEntries(l), x, now) then 1 else 0)
  {
    var live := LedgerPrune(l, now);
    SameSpentCounts(l, live, h);
    ConsumeRefines(l, clock, x, now);
    var k := OldestLive(live, x);
    if k < |live| { SpendOneCounts(live, k, h); }
    hide CountAdds, CountFate, LiveEntries, Matches, LedgerPrune;
  }

  lemma InTimeInit<H>(uses: seq<Use<H>>)
    requires InTime(uses) && uses != []
    ensures var older := uses[..|uses| - 1]; InTime(older) && Clock(older) <= When(uses[|uses| - 1]) == Clock(uses)
  {
    var n := |uses| - 1;
    assert n > 0 ==> When(uses[n - 1]) <= When(uses[n]);
  }

  /** The list of a trace is the live part of its ledger. */
  lemma {:induction false} TraceRefines<H>(uses: seq<Use<H>>)
    requires InTime(uses)
    ensures LiveEntries(Recorded(uses)) == Listed(uses) && Justified(Recorded(uses), Clock(uses))
  {
    if uses != [] {
      var n := |uses| - 1;
      var older, last := uses[..n], uses[n];
      InTimeInit(uses);
      TraceRefines(older);
      hide InTime, Clock, LiveEntries, Justified, LedgerAdd, LedgerConsume, Added, Consumed, LedgerPrune, Matches;
      match last
      case Put(t, e) => AddRefines(Recorded(older), Clock(older), t, e);
      case Take(h, t) => ConsumeRefines(Recorded(older), Clock(older), h, t);
    }
  }

  lemma {:induction false} TraceCounts<H>(uses: seq<Use<H>>, h: H)
    requires InTime(uses)
    ensures CountAdds(Recorded(uses), h) == Puts(uses, h) && CountFate(Recorded(uses), h, Spent) == Hits(uses, h)
  {
    if uses != [] {
      var n := |uses| - 1;
      var older, last := uses[..n], uses[n];
      InTimeInit(uses);
      TraceCounts(older, h);
      TraceRefines(older);
      hide InTime, Clock, LiveEntries, Justified, LedgerAdd, LedgerConsume, CountAdds, CountFate, Matches;
      match last
      case Put(t, e) => AddCounts(Recorded(older), t, e, h);
      case Take(x, t) => TakeCounts(Recorded(older), Clock(older), x, t, h);
    }
  }

  /** After any trace, for each content: adds = consumes that returned true + expired
      + evicted + still listed; and nothing was written off early. */
  lemma EveryAddIsAccountedFor<H>(uses: seq<Use<H>>, h: H)
    requires InTime(uses)
    ensures var l := Recorded(uses);
      && Puts(uses, h)
         == Hits(uses, h) + CountFate(l, h, Expired) + CountFate(l, h, Evicted) + CountEntries(Listed(uses), h)
      && Justified(l, Clock(uses))
  {
    TraceRefines(uses);
    TraceCounts(uses, h);
    FatesPartition(Recorded(uses), h);
  }

  // ---------------------------------------------------------------------------
  // What one use does to one record
  // ---------------------------------------------------------------------------

  /** An entry for this content is listed and not over: then, and only then, it is met. */
  lemma {:induction false} MatchesIff<H>(s: seq<Entry<H>>, h: H, now: nat)
    ensures Matches(s, h, now) <==> exists i :: 0 <= i < |s| && s[i].hash == h && now < s[i].expires
  {
    UnexpiredMembers(s, now);
    var live := Unexpired(s, now);
    if Matches(s, h, now) {
      var e := live[Oldest(live, h)];
      assert e in live && e in s;
    }
    if i :| 0 <= i < |s| && s[i].hash == h && now < s[i].expires {
      assert s[i] in s && s[i] in live;
    }
    hide Unexpired;
  }

  lemma {:induction false} UnexpiredMembers<H>(s: seq<Entry<H>>, now: nat)
    ensures forall e :: e in Unexpired(s, now) <==> e in s && now < e.expires
  {
    if s != [] {
      UnexpiredMembers(s[..|s| - 1], now);
      assert s == s[..|s| - 1] + [s[|s| - 1]];
    }
  }

  lemma {:induction false} LiveIsListed<H>(l: Ledger<H>, m: nat)
    requires m < |l| && l[m].fate == Live
    ensures l[m].entry in LiveEntries(l)
  {
    if m < |l| - 1 {
      LiveIsListed(l[..|l| - 1], m);
    }
  }

  /** A record that stays live while the list was full of newer ones was not pushed out;
      one that was has that many newer records still live. */
  lemma {:induction false} EvictedHaveLiveSuccessors<H>(l: Ledger<H>, room: nat, i: nat)
    requires i < |l| && l[i].fate == Live
    ensures var r := LedgerEvict(l, room);
      r[i] == l[i] || (r[i] == Record(l[i].entry, Evicted) && |LiveEntries(r[i + 1..])| >= room)
  {
    var n := |l| - 1;
    if i < n {
      var older, last := l[..n], l[n];
      var next := if last.fate == Live && room > 0 then room - 1 else room;
      EvictedHaveLiveSuccessors(older, next, i);
      var r, q := LedgerEvict(l, room), LedgerEvict(older, next);
      assert r[i + 1..] == q[i + 1..] + [r[n]];
      assert (q[i + 1..] + [r[n]])[..n - i - 1] == q[i + 1..];
    }
  }

  /** An add ends a record because it is over, or because the newest 255 that are not
      and the new one fill the list; what has ended stays as it is. */
  lemma AddFates<H>(l: Ledger<H>, pruneAt: nat, e: Entry<H>, m: nat)
    requires m < |l|
    ensures var r := LedgerAdd(l, pruneAt, e);
      && |r| == |l| + 1 && r[m].entry == l[m].entry
      && (l[m].fate != Live ==> r[m].fate == l[m].fate)
      && (l[m].fate == Live && r[m].fate == Expired ==> l[m].entry.expires <= pruneAt)
      && (l[m].fate == Live && r[m].fate == Evicted ==> |LiveEntries(r[m + 1..])| >= 256)
      && (l[m].fate == Live ==> r[m].fate != Spent)
  {
    var live := LedgerPrune(l, pruneAt);
    var kept := LedgerEvict(live, MAX_SUPPRESSION_ENTRIES - 1);
    EvictedHaveSuccessors(live, MAX_SUPPRESSION_ENTRIES - 1, m);
    if live[m].fate == Live {
      EvictedHaveLiveSuccessors(live, MAX_SUPPRESSION_ENTRIES - 1, m);
      var r := kept + [Record(e, Live)];
      assert r[m + 1..] == kept[m + 1..] + [Record(e, Live)];
      assert (kept[m + 1..] + [Record(e, Live)])[..|kept| - m - 1] == kept[m + 1..];
    }
  }

  /** A consume ends a record because it is over, or because it is the one it meets. */
  lemma TakeFates<H>(l: Ledger<H>, h: H, now: nat, m: nat)
    requires m < |l|
    ensures var r := LedgerConsume(l, h, now);
      && |r| == |l| && r[m].entry == l[m].entry
      && (l[m].fate != Live ==> r[m].fate == l[m].fate)
      && (l[m].fate == Live && r[m].fate == Expired ==> l[m].entry.expires <= now)
      && (l[m].fate == Live && r[m].fate == Spent ==> l[m].entry.hash == h)
      && (l[m].fate == Live ==> r[m].fate != Evicted)
  {
  }
}
