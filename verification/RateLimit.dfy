// The two rate limiters of internal/daemon/daemon.go: pairing attempts per
// source and overall (allowPairAttempt), and clipboard frames per connection
// (the window in readLoop).
module RateLimit {
  import opened FixedWindow

  // Nanoseconds.
  const SECOND: nat := 1_000_000_000
  const MINUTE: nat := 60 * SECOND

  const MAX_PAIR_ATTEMPTS_PER_MINUTE: nat := 10
  const MAX_GLOBAL_PAIR_ATTEMPTS: nat := 64
  const MAX_PAIR_RATE_ENTRIES: nat := 256
  const MAX_CLIPBOARD_FRAMES_PER_SECOND: nat := 30

  // ---------------------------------------------------------------------------
  // Pairing attempts
  // ---------------------------------------------------------------------------

  /** A zero time in the program is Unset here. */
  datatype Rate = Unset | Rate(window: nat, count: nat)

  datatype Table = Table(rates: map<string, Rate>, global: Rate)

  function Rolled(r: Rate, now: nat): Rate {
    if r.Unset? || r.window + MINUTE <= now then Rate(now, 0) else r
  }

  predicate Current(r: Rate, now: nat) {
    r.Rate? && now < r.window + MINUTE
  }

  function Kept(rates: map<string, Rate>, now: nat): map<string, Rate> {
    map k | k in rates && Current(rates[k], now) :: rates[k]
  }

  /** Whether an attempt is allowed, and what it leaves behind; a refused attempt
      only ends windows that are over. */
  function Attempt(t: Table, source: string, now: nat): (Table, bool) {
    var global := Rolled(t.global, now);
    var rates := Kept(t.rates, now);
    var rate := Rolled(if source in rates then rates[source] else Unset, now);
    if source !in rates && |rates| >= MAX_PAIR_RATE_ENTRIES then (Table(rates, global), false)
    else if rate.count >= MAX_PAIR_ATTEMPTS_PER_MINUTE || global.count >= MAX_GLOBAL_PAIR_ATTEMPTS then
      (Table(rates, global), false)
    else (Table(rates[source := Rate(rate.window, rate.count + 1)], Rate(global.window, global.count + 1)), true)
  }

  /** An allowed attempt with its two window starts. */
  datatype Allowed = Allowed(source: string, at: nat, window: nat, sourceWindow: nat)

  function GlobalStamps(log: seq<Allowed>): seq<Stamp> {
    seq(|log|, i requires 0 <= i < |log| => Stamp(log[i].at, log[i].window))
  }

  function SourceStamps(log: seq<Allowed>, source: string): seq<Stamp> {
    if log == [] then []
    else
      var x := log[|log| - 1];
      SourceStamps(log[..|log| - 1], source) + if x.source == source then [Stamp(x.at, x.sourceWindow)] else []
  }

  // ---------------------------------------------------------------------------
  // One counter and the events it admitted
  // ---------------------------------------------------------------------------

  /** The counter holds the events of the latest window; when it is unset every
      window is over. */
  ghost predicate Tracks(r: Rate, s: seq<Stamp>, cap: nat, clock: nat) {
    && Windowed(s, MINUTE, cap)
    && (forall i :: 0 <= i < |s| ==> s[i].at <= clock)
    && (r.Unset? ==> forall i :: 0 <= i < |s| ==> s[i].window + MINUTE <= clock)
    && (r.Rate? ==>
          && r.window <= clock && r.count == InWindow(s, r.window)
          && forall i :: 0 <= i < |s| ==> s[i].window == r.window || s[i].window + MINUTE <= r.window)
  }

  lemma TracksLater(r: Rate, s: seq<Stamp>, cap: nat, clock: nat, now: nat)
    requires Tracks(r, s, cap, clock) && clock <= now
    ensures Tracks(r, s, cap, now)
    ensures !Current(r, now) ==> Tracks(Unset, s, cap, now)
  {
    hide Windowed;
  }

  lemma TracksRolled(r: Rate, s: seq<Stamp>, cap: nat, clock: nat, now: nat)
    requires Tracks(r, s, cap, clock) && clock <= now
    ensures Tracks(Rolled(r, now), s, cap, now)
  {
    TracksLater(r, s, cap, clock, now);
    if Rolled(r, now) != r { NoneInWindow(s, now); }
    hide Windowed;
  }

  lemma TracksAdmit(r: Rate, s: seq<Stamp>, cap: nat, now: nat)
    requires Tracks(r, s, cap, now) && r.Rate? && now < r.window + MINUTE && r.count < cap
    ensures Tracks(Rate(r.window, r.count + 1), s + [Stamp(now, r.window)], cap, now)
  {
    hide Windowed, InWindow;
    var x := Stamp(now, r.window);
    var more := s + [x];
    Extend(s, x, MINUTE, cap);
    forall i | 0 <= i < |more|
      ensures more[i].at <= now && (more[i].window == r.window || more[i].window + MINUTE <= r.window)
    {
      assert i < |s| ==> more[i] == s[i];
    }
  }

  // ---------------------------------------------------------------------------
  // The invariant of the table
  // ---------------------------------------------------------------------------

  function RateOf(rates: map<string, Rate>, source: string): Rate {
    if source in rates then rates[source] else Unset
  }

  ghost predicate SourceInv(t: Table, log: seq<Allowed>, clock: nat, k: string) {
    && Tracks(RateOf(t.rates, k), SourceStamps(log, k), MAX_PAIR_ATTEMPTS_PER_MINUTE, clock)
    && (k in t.rates ==> t.rates[k].Rate? && t.rates[k].count > 0)
  }

  ghost predicate Inv(t: Table, log: seq<Allowed>, clock: nat) {
    && Tracks(t.global, GlobalStamps(log), MAX_GLOBAL_PAIR_ATTEMPTS, clock)
    && forall k :: SourceInv(t, log, clock, k)
  }

  lemma SourceRolls(t: Table, log: seq<Allowed>, clock: nat, now: nat, k: string)
    requires Inv(t, log, clock) && clock <= now
    ensures SourceInv(Table(Kept(t.rates, now), Unset), log, now, k)
    ensures Tracks(Rolled(RateOf(Kept(t.rates, now), k), now), SourceStamps(log, k), MAX_PAIR_ATTEMPTS_PER_MINUTE, now)
  {
    assert SourceInv(t, log, clock, k);
    hide Tracks, SourceStamps;
    TracksLater(RateOf(t.rates, k), SourceStamps(log, k), MAX_PAIR_ATTEMPTS_PER_MINUTE, clock, now);
    TracksRolled(RateOf(Kept(t.rates, now), k), SourceStamps(log, k), MAX_PAIR_ATTEMPTS_PER_MINUTE, now, now);
  }

  /** What the log gains: one record when the attempt is allowed. */
  function Recorded(t: Table, log: seq<Allowed>, source: string, now: nat): seq<Allowed> {
    var r := Attempt(t, source, now);
    if r.1 then log + [Allowed(source, now, r.0.global.window, RateOf(r.0.rates, source).window)] else log
  }

  lemma StampsGrow(log: seq<Allowed>, x: Allowed, k: string)
    ensures GlobalStamps(log + [x]) == GlobalStamps(log) + [Stamp(x.at, x.window)]
    ensures SourceStamps(log + [x], k)
         == if x.source == k then SourceStamps(log, k) + [Stamp(x.at, x.sourceWindow)] else SourceStamps(log, k)
  {
    assert (log + [x])[..|log|] == log;
    assert SourceStamps(log, k) + [] == SourceStamps(log, k);
  }

  lemma GlobalStep(t: Table, log: seq<Allowed>, clock: nat, source: string, now: nat)
    requires Inv(t, log, clock) && clock <= now
    ensures Tracks(Attempt(t, source, now).0.global, GlobalStamps(Recorded(t, log, source, now)),
                   MAX_GLOBAL_PAIR_ATTEMPTS, now)
  {
    hide Tracks, SourceInv, GlobalStamps, SourceStamps;
    var s, g := GlobalStamps(log), Rolled(t.global, now);
    TracksRolled(t.global, s, MAX_GLOBAL_PAIR_ATTEMPTS, clock, now);
    if Attempt(t, source, now).1 {
      TracksAdmit(g, s, MAX_GLOBAL_PAIR_ATTEMPTS, now);
      StampsGrow(log, Recorded(t, log, source, now)[|log|], source);
    }
  }

  lemma RolledIsOpen(r: Rate, now: nat)
    ensures Current(Rolled(r, now), now)
  {
  }

  lemma AttemptRates(t: Table, source: string, now: nat, k: string)
    ensures var r := Attempt(t, source, now);
      var rate := Rolled(RateOf(Kept(t.rates, now), k), now);
      RateOf(r.0.rates, k)
      == if r.1 && k == source then Rate(rate.window, rate.count + 1) else RateOf(Kept(t.rates, now), k)
    ensures Attempt(t, source, now).1 ==>
      Rolled(RateOf(Kept(t.rates, now), source), now).count < MAX_PAIR_ATTEMPTS_PER_MINUTE
    ensures k in Attempt(t, source, now).0.rates ==>
      k in Kept(t.rates, now) || (Attempt(t, source, now).1 && k == source)
  {
    hide Kept, Rolled;
  }

  lemma SourceStep(t: Table, log: seq<Allowed>, clock: nat, source: string, now: nat, k: string)
    requires Inv(t, log, clock) && clock <= now
    ensures SourceInv(Attempt(t, source, now).0, Recorded(t, log, source, now), now, k)
  {
    hide Tracks, Inv, GlobalStamps, SourceStamps, Kept, Rolled, Attempt;
    SourceRolls(t, log, clock, now, k);
    AttemptRates(t, source, now, k);
    AttemptRates(t, source, now, source);
    var s, kept := SourceStamps(log, k), Kept(t.rates, now);
    var r := Rolled(RateOf(kept, k), now);
    if Attempt(t, source, now).1 {
      StampsGrow(log, Recorded(t, log, source, now)[|log|], k);
      if k == source {
        RolledIsOpen(RateOf(kept, k), now);
        TracksAdmit(r, s, MAX_PAIR_ATTEMPTS_PER_MINUTE, now);
      }
    }
  }

  lemma AttemptKeepsInv(t: Table, log: seq<Allowed>, clock: nat, source: string, now: nat)
    requires Inv(t, log, clock) && clock <= now
    ensures Inv(Attempt(t, source, now).0, Recorded(t, log, source, now), now)
  {
    GlobalStep(t, log, clock, source, now);
    forall k ensures SourceInv(Attempt(t, source, now).0, Recorded(t, log, source, now), now, k) {
      SourceStep(t, log, clock, source, now, k);
    }
  }

  // ---------------------------------------------------------------------------
  // The table never fills up
  // ---------------------------------------------------------------------------

  function Sources(log: seq<Allowed>, t: nat): set<string> {
    set i | 0 <= i < |log| && t <= log[i].at < t + MINUTE :: log[i].source
  }

  lemma {:induction false} FewSources(log: seq<Allowed>, t: nat)
    ensures |Sources(log, t)| <= InInterval(GlobalStamps(log), t, MINUTE)
  {
    if log != [] {
      var n := |log| - 1;
      FewSources(log[..n], t);
      assert GlobalStamps(log)[..n] == GlobalStamps(log[..n]);
      var more := if t <= log[n].at < t + MINUTE then {log[n].source} else {};
      assert Sources(log, t) == Sources(log[..n], t) + more by {
        assert forall i :: 0 <= i < n ==> log[..n][i] == log[i];
      }
      assert |Sources(log[..n], t) + more| <= |Sources(log[..n], t)| + |more|;
    }
  }

  lemma {:induction false} WindowHasStamp(log: seq<Allowed>, k: string, w: nat) returns (i: nat)
    requires InWindow(SourceStamps(log, k), w) > 0
    ensures i < |log| && log[i].source == k && log[i].sourceWindow == w
    ensures Stamp(log[i].at, w) in SourceStamps(log, k)
  {
    var n := |log| - 1;
    var x, s := log[n], SourceStamps(log[..|log| - 1], k);
    assert log[..n] + [x] == log;
    StampsGrow(log[..n], x, k);
    assert (s + [Stamp(x.at, x.sourceWindow)])[..|s|] == s;
    if x.source == k && x.sourceWindow == w {
      i := n;
    } else {
      i := WindowHasStamp(log[..n], k, w);
    }
  }

  lemma SubsetCardinality(a: set<string>, b: set<string>)
    requires a <= b
    ensures |a| <= |b|
  {
    assert b == a + (b - a);
  }

  /** Every source in the table was allowed something within the last minute. */
  lemma TableIsSmall(t: Table, log: seq<Allowed>, clock: nat, now: nat)
    requires Inv(t, log, clock) && clock <= now
    ensures |Kept(t.rates, now)| <= 2 * MAX_GLOBAL_PAIR_ATTEMPTS
  {
    var from := if now + 1 >= MINUTE then now + 1 - MINUTE else 0;
    var kept := Kept(t.rates, now);
    forall k | k in kept ensures k in Sources(log, from) {
      assert SourceInv(t, log, clock, k);
      var i := WindowHasStamp(log, k, t.rates[k].window);
      var s := SourceStamps(log, k);
      var j :| 0 <= j < |s| && s[j] == Stamp(log[i].at, t.rates[k].window);
      assert Fits(s[j], MINUTE) && s[j].at <= clock;
    }
    SubsetCardinality(kept.Keys, Sources(log, from));
    FewSources(log, from);
    TwoWindows(GlobalStamps(log), MINUTE, MAX_GLOBAL_PAIR_ATTEMPTS, from);
  }

  // ---------------------------------------------------------------------------
  // Whole traces
  // ---------------------------------------------------------------------------

  datatype Try = Try(source: string, at: nat)

  /** The clock is read just before the lock is taken; the trace is in lock order
      and its clock readings are assumed not to run backwards. */
  ghost predicate Ordered(a: seq<Try>) {
    forall i, j :: 0 <= i < j < |a| ==> a[i].at <= a[j].at
  }

  function Clock(a: seq<Try>): nat {
    if a == [] then 0 else a[|a| - 1].at
  }

  /** The table and the log after a trace of attempts. */
  function Replay(a: seq<Try>): (Table, seq<Allowed>) {
    if a == [] then (Table(map[], Unset), [])
    else
      var before, x := Replay(a[..|a| - 1]), a[|a| - 1];
      (Attempt(before.0, x.source, x.at).0, Recorded(before.0, before.1, x.source, x.at))
  }

  lemma {:induction false} ReplayInv(a: seq<Try>)
    requires Ordered(a)
    ensures Inv(Replay(a).0, Replay(a).1, Clock(a))
  {
    if a == [] {
      forall k ensures SourceInv(Table(map[], Unset), [], 0, k) { }
    } else {
      var older := a[..|a| - 1];
      ReplayInv(older);
      hide Inv, Attempt, Recorded;
      AttemptKeepsInv(Replay(older).0, Replay(older).1, Clock(older), a[|a| - 1].source, a[|a| - 1].at);
    }
  }

  /** Over any trace, any half-open minute holds at most 128 allowed attempts in all
      and at most 20 from one source. */
  lemma AttemptsAreLimited(a: seq<Try>, t: nat, source: string)
    requires Ordered(a)
    ensures InInterval(GlobalStamps(Replay(a).1), t, 60_000_000_000) <= 128
    ensures InInterval(SourceStamps(Replay(a).1, source), t, 60_000_000_000) <= 20
  {
    ReplayInv(a);
    assert SourceInv(Replay(a).0, Replay(a).1, Clock(a), source);
    hide Replay, Windowed;
    TwoWindows(GlobalStamps(Replay(a).1), MINUTE, MAX_GLOBAL_PAIR_ATTEMPTS, t);
    TwoWindows(SourceStamps(Replay(a).1, source), MINUTE, MAX_PAIR_ATTEMPTS_PER_MINUTE, t);
  }

  /** Events already allowed in the window that is open at `now`. */
  ghost function Used(r: Rate, s: seq<Stamp>, now: nat): nat {
    if Current(r, now) then InWindow(s, r.window) else 0
  }

  /** The guard on the size of the table never refuses anyone: after any trace the
      next attempt is allowed just when its source has used fewer than 10 and all
      sources together fewer than 64 of their open windows. */
  lemma AllowedIffUnderLimits(a: seq<Try>, x: Try)
    requires Ordered(a + [x])
    ensures var (t, log) := Replay(a);
      && |Kept(t.rates, x.at)| <= 128 < MAX_PAIR_RATE_ENTRIES
      && (Attempt(t, x.source, x.at).1 <==>
            Used(RateOf(t.rates, x.source), SourceStamps(log, x.source), x.at) < MAX_PAIR_ATTEMPTS_PER_MINUTE
            && Used(t.global, GlobalStamps(log), x.at) < MAX_GLOBAL_PAIR_ATTEMPTS)
  {
    var b := a + [x];
    assert forall i :: 0 <= i < |a| ==> b[i] == a[i];
    assert b[|a|] == x;
    ReplayInv(a);
    var (t, log) := Replay(a);
    assert Clock(a) <= x.at by {
      if a != [] { assert b[|a| - 1].at <= b[|a|].at; }
    }
    TableIsSmall(t, log, Clock(a), x.at);
    assert SourceInv(t, log, Clock(a), x.source);
    hide Replay, Windowed, Ordered;
  }

  // ---------------------------------------------------------------------------
  // What a refused attempt costs
  // ---------------------------------------------------------------------------

  function Then(t: Table, x: Try): Table {
    Attempt(t, x.source, x.at).0
  }

  function After(t: Table, b: seq<Try>): Table
    decreases |b|
  {
    if b == [] then t else After(Then(t, b[0]), b[1..])
  }

  function Verdicts(t: Table, b: seq<Try>): seq<bool>
    decreases |b|
  {
    if b == [] then [] else [Attempt(t, b[0].source, b[0].at).1] + Verdicts(Then(t, b[0]), b[1..])
  }

  lemma {:induction false} VerdictsAppend(t: Table, b: seq<Try>, x: Try)
    ensures Verdicts(t, b + [x]) == Verdicts(t, b) + [Attempt(After(t, b), x.source, x.at).1]
    decreases |b|
  {
    if b == [] {
      assert [x][1..] == [];
      assert Verdicts(Then(t, x), []) == [];
    } else {
      assert (b + [x])[1..] == b[1..] + [x];
      VerdictsAppend(Then(t, b[0]), b[1..], x);
    }
  }

  /** Entries that are over now are over later, so dropping them early is no matter. */
  lemma AttemptIgnoresStale(t: Table, now: nat, source: string, at: nat)
    requires now <= at
    ensures Attempt(Table(Kept(t.rates, now), t.global), source, at) == Attempt(t, source, at)
    ensures Attempt(Table(t.rates, Rolled(t.global, at)), source, at) == Attempt(t, source, at)
  {
    assert Kept(Kept(t.rates, now), at) == Kept(t.rates, at);
  }

  // Sources that nobody has used yet, told apart by their lengths.

  function Name(n: nat): string {
    seq(n, _ => 'x')
  }

  predicate Shorter(rates: map<string, Rate>, n: nat) {
    forall k :: k in rates ==> |k| < n
  }

  lemma {:induction false} NamesRunOut(keys: set<string>) returns (n: nat)
    ensures forall k :: k in keys ==> |k| < n
    decreases |keys|
  {
    if keys == {} {
      n := 0;
    } else {
      var k :| k in keys;
      var m := NamesRunOut(keys - {k});
      n := if m > |k| then m else |k| + 1;
      assert forall x :: x in keys ==> x == k || x in keys - {k};
    }
  }

  /** Sources are shorter than `from`, `size` of them count at time `at`, and the window
      over all of them started at `w` and has seen `count` attempts. */
  predicate Stands(t: Table, from: nat, at: nat, w: nat, count: nat, size: nat) {
    Shorter(t.rates, from) && |Kept(t.rates, at)| == size && t.global == Rate(w, count)
  }

  lemma FreshRates(rates: map<string, Rate>, from: nat, at: nat)
    requires Shorter(rates, from)
    ensures Name(from) !in rates
    ensures var r := Kept(rates, at)[Name(from) := Rate(at, 1)];
      Shorter(r, from + 1) && Kept(r, at) == r && |r| == |Kept(rates, at)| + 1
  {
    assert |Name(from)| == from && Name(from) !in rates;
    var kept := Kept(rates, at);
    var r := kept[Name(from) := Rate(at, 1)];
    assert Kept(r, at) == r;
    assert r.Keys == kept.Keys + {Name(from)} && |r.Keys| == |r| && |kept.Keys| == |kept|;
  }

  lemma FreshPasses(t: Table, from: nat, at: nat, w: nat, count: nat, size: nat)
    requires Stands(t, from, at, w, count, size) && at < w + MINUTE
    requires size < MAX_PAIR_RATE_ENTRIES && count < MAX_GLOBAL_PAIR_ATTEMPTS
    ensures Attempt(t, Name(from), at).1
    ensures Stands(Then(t, Try(Name(from), at)), from + 1, at, w, count + 1, size + 1)
  {
    FreshRates(t.rates, from, at);
    assert Name(from) !in Kept(t.rates, at);
    hide Kept, Shorter, Name;
  }

  /** `n` attempts at once, each from a source of its own. */
  function Burst(n: nat, from: nat, at: nat): seq<Try> {
    if n == 0 then [] else [Try(Name(from), at)] + Burst(n - 1, from + 1, at)
  }

  lemma AfterOne(t: Table, x: Try, b: seq<Try>)
    ensures After(t, [x] + b) == After(Then(t, x), b)
  {
    assert ([x] + b)[1..] == b;
  }

  lemma {:induction false} BurstPasses(t: Table, n: nat, from: nat, at: nat, w: nat, count: nat, size: nat)
    requires Stands(t, from, at, w, count, size) && at < w + MINUTE
    requires size + n <= MAX_PAIR_RATE_ENTRIES && count + n <= MAX_GLOBAL_PAIR_ATTEMPTS
    ensures Stands(After(t, Burst(n, from, at)), from + n, at, w, count + n, size + n)
    decreases n
  {
    hide Stands, Name, Then;
    if n > 0 {
      FreshPasses(t, from, at, w, count, size);
      var x, others := Try(Name(from), at), Burst(n - 1, from + 1, at);
      AfterOne(t, x, others);
      hide After;
      BurstPasses(Then(t, x), n - 1, from + 1, at, w, count + 1, size + 1);
    }
  }

  lemma {:induction false} BurstOrdered(n: nat, from: nat, at: nat)
    ensures |Burst(n, from, at)| == n && forall i :: 0 <= i < n ==> Burst(n, from, at)[i].at == at
  {
    if n > 0 {
      BurstOrdered(n - 1, from + 1, at);
    }
  }

  lemma KeptLater(rates: map<string, Rate>, at: nat, later: nat)
    requires at <= later
    ensures |Kept(rates, later)| <= |Kept(rates, at)|
  {
    SubsetCardinality(Kept(rates, later).Keys, Kept(rates, at).Keys);
    assert |Kept(rates, later).Keys| == |Kept(rates, later)| && |Kept(rates, at).Keys| == |Kept(rates, at)|;
  }

  /** After a full burst an attempt is refused unless the burst's window is over. */
  lemma FullWindow(r: Table, from: nat, at: nat)
    requires Shorter(r.rates, from) && |Kept(r.rates, at)| < MAX_PAIR_RATE_ENTRIES
    requires r.global.Rate? && r.global.count == MAX_GLOBAL_PAIR_ATTEMPTS
    ensures Attempt(r, Name(from), at).1 <==> !Current(r.global, at)
  {
    if !Current(r.global, at) {
      hide Attempt, Shorter, Kept, Name;
      AttemptIgnoresStale(r, at, Name(from), at);
      FreshPasses(Table(r.rates, Rate(at, 0)), from, at, at, 0, |Kept(r.rates, at)|);
    }
  }

  /** A full burst late in a window and one attempt more after it: the last is refused
      unless the window has just ended. */
  lemma LastOfBurst(t: Table, from: nat, at: nat, later: nat)
    requires Shorter(t.rates, from) && |Kept(t.rates, at)| <= 128 && at <= later
    requires Current(t.global, at) && t.global.count == 0
    ensures var burst := Burst(MAX_GLOBAL_PAIR_ATTEMPTS, from, at);
      Attempt(After(t, burst), Name(from + MAX_GLOBAL_PAIR_ATTEMPTS), later).1 <==> !Current(t.global, later)
  {
    hide After, Burst, Kept, Name, Shorter, Attempt;
    var n: nat := MAX_GLOBAL_PAIR_ATTEMPTS;
    BurstPasses(t, n, from, at, t.global.window, 0, |Kept(t.rates, at)|);
    var r := After(t, Burst(n, from, at));
    KeptLater(r.rates, at, later);
    FullWindow(r, from + n, later);
  }

  // A refusal that finds the window over all sources over: one attempt by "b" opens it,
  // ten by "a" near its end use up what "a" may, and "a" tries again once it is over.

  const LATE: nat := 59 * SECOND

  function Lead(k: nat): seq<Try> {
    if k == 0 then [Try("b", 0)] else Lead(k - 1) + [Try("a", LATE)]
  }

  lemma {:induction false} LeadOrdered(k: nat)
    ensures Ordered(Lead(k) + [Try("a", MINUTE)])
    ensures Lead(k) != [] && forall i :: 0 <= i < |Lead(k)| ==> Lead(k)[i].at <= LATE
    ensures Ordered(Lead(k))
  {
    if k > 0 {
      LeadOrdered(k - 1);
    }
  }

  /** The table after `k` attempts by "a". */
  predicate Led(t: Table, k: nat) {
    && t.global == Rate(0, k + 1) && t.rates.Keys <= {"a", "b"} && |t.rates| <= 2
    && ("a" in t.rates <==> k > 0) && (k > 0 ==> t.rates["a"] == Rate(LATE, k))
  }

  lemma LeadStarts()
    ensures Led(Attempt(Table(map[], Unset), "b", 0).0, 0)
  {
    assert Kept(map[], 0) == map[];
  }

  lemma KeptIsSmall(rates: map<string, Rate>, now: nat)
    requires rates.Keys <= {"a", "b"}
    ensures |Kept(rates, now)| <= 2
  {
    SubsetCardinality(Kept(rates, now).Keys, {"a", "b"});
    assert |Kept(rates, now).Keys| == |Kept(rates, now)|;
  }

  lemma LeadContinues(t: Table, k: nat)
    requires Led(t, k) && k < MAX_PAIR_ATTEMPTS_PER_MINUTE
    ensures Led(Attempt(t, "a", LATE).0, k + 1)
  {
    KeptIsSmall(t.rates, LATE);
    var r := Attempt(t, "a", LATE).0;
    SubsetCardinality(r.rates.Keys, {"a", "b"});
    assert |r.rates.Keys| == |r.rates|;
  }

  lemma {:induction false} LeadReplays(k: nat)
    requires k <= MAX_PAIR_ATTEMPTS_PER_MINUTE
    ensures Led(Replay(Lead(k)).0, k)
  {
    hide Led, Attempt, Recorded;
    if k == 0 {
      LeadStarts();
      assert Lead(0)[..0] == [];
      assert Replay(Lead(0)[..0]) == (Table(map[], Unset), []);
    } else {
      LeadReplays(k - 1);
      assert Lead(k)[..|Lead(k)| - 1] == Lead(k - 1);
      LeadContinues(Replay(Lead(k - 1)).0, k - 1);
    }
  }

  /** Refusals of the kind RefusalMatters speaks of happen. */
  lemma RefusalCanMatter()
    ensures exists a: seq<Try>, x: Try ::
      Ordered(a + [x]) && !Attempt(Replay(a).0, x.source, x.at).1 && !Current(Replay(a).0.global, x.at)
  {
    var n: nat := MAX_PAIR_ATTEMPTS_PER_MINUTE;
    var a, x := Lead(n), Try("a", MINUTE);
    LeadOrdered(n);
    LeadReplays(n);
    assert !Attempt(Replay(a).0, x.source, x.at).1 && !Current(Replay(a).0.global, x.at) by {
      LedRefuses(Replay(a).0, n);
    }
    hide Lead, Replay, Attempt, Ordered;
  }

  lemma LedRefuses(t: Table, k: nat)
    requires Led(t, k) && k == MAX_PAIR_ATTEMPTS_PER_MINUTE
    ensures !Attempt(t, "a", MINUTE).1 && !Current(t.global, MINUTE)
  {
    assert Kept(t.rates, MINUTE)["a"] == Rate(LATE, k);
  }

  /** A refused attempt is not recorded, and only ends windows that are over. */
  lemma RefusalChangesNoCount(t: Table, log: seq<Allowed>, source: string, now: nat)
    requires !Attempt(t, source, now).1
    ensures Recorded(t, log, source, now) == log
    ensures Attempt(t, source, now).0 == Table(Kept(t.rates, now), Rolled(t.global, now))
    ensures Attempt(Attempt(t, source, now).0, source, now) == Attempt(t, source, now)
  {
    var r := Attempt(t, source, now).0;
    assert Kept(r.rates, now) == r.rates;
  }

  /** A refused attempt leaves every later decision as it would have been exactly
      when the window over all sources is still open: one that finds it over opens
      a new one, and so moves the later windows. */
  lemma RefusalIsFree(a: seq<Try>, x: Try)
    requires Ordered(a + [x]) && !Attempt(Replay(a).0, x.source, x.at).1
    ensures var t := Replay(a).0;
      (forall b: seq<Try> :: Ordered([x] + b) ==> Verdicts(Then(t, x), b) == Verdicts(t, b))
      <==> Current(t.global, x.at)
  {
    var t := Replay(a).0;
    if Current(t.global, x.at) {
      forall b: seq<Try> | Ordered([x] + b) ensures Verdicts(Then(t, x), b) == Verdicts(t, b) {
        if b != [] {
          assert ([x] + b)[0] == x && ([x] + b)[1] == b[0];
          AttemptIgnoresStale(t, x.at, b[0].source, b[0].at);
        }
      }
    } else {
      var b := RefusalMatters(a, x);
    }
  }

  lemma RefusalMatters(a: seq<Try>, x: Try) returns (b: seq<Try>)
    requires Ordered(a + [x]) && !Attempt(Replay(a).0, x.source, x.at).1
    requires !Current(Replay(a).0.global, x.at)
    ensures Ordered([x] + b) && Verdicts(Then(Replay(a).0, x), b) != Verdicts(Replay(a).0, b)
  {
    hide Replay, Attempt, LongBurst, Then, Verdicts, Ordered;
    var t, now, at := Replay(a).0, x.at, x.at + 59 * SECOND;
    SmallAfter(a, x);
    var from := NamesRunOut(t.rates.Keys);
    assert Shorter(t.rates, from) && Shorter(Kept(t.rates, now), from);
    b := LongBurst(from, at, now + MINUTE);
    LongBurstOrdered(from, x, at, now + MINUTE);
    KeptLater(t.rates, now, at);
    KeptLater(Kept(t.rates, now), now, at);
    hide Kept, Shorter;
    LastVerdict(Table(Kept(t.rates, now), Rate(now, 0)), from, at, now + MINUTE);
    LastVerdict(Table(t.rates, Rate(at, 0)), from, at, now + MINUTE);
    RolledVerdicts(t, b, at);
  }

  /** Rolling a window early that the next attempt rolls anyway. */
  lemma RolledVerdicts(t: Table, b: seq<Try>, at: nat)
    requires b != [] && b[0].at == at && Rolled(t.global, at) == Rate(at, 0)
    ensures Verdicts(t, b) == Verdicts(Table(t.rates, Rate(at, 0)), b)
  {
    AttemptIgnoresStale(t, at, b[0].source, at);
    hide Attempt;
  }

  function LongBurst(from: nat, at: nat, later: nat): seq<Try> {
    Burst(MAX_GLOBAL_PAIR_ATTEMPTS, from, at) + [Try(Name(from + MAX_GLOBAL_PAIR_ATTEMPTS), later)]
  }

  lemma LongBurstOrdered(from: nat, x: Try, at: nat, later: nat)
    requires x.at <= at <= later
    ensures var b := LongBurst(from, at, later); Ordered([x] + b) && b != [] && b[0].at == at
  {
    BurstOrdered(MAX_GLOBAL_PAIR_ATTEMPTS, from, at);
    hide Burst, Name;
  }

  lemma LastVerdict(t: Table, from: nat, at: nat, later: nat)
    requires Shorter(t.rates, from) && |Kept(t.rates, at)| <= 128 && at <= later
    requires Current(t.global, at) && t.global.count == 0
    ensures var v := Verdicts(t, LongBurst(from, at, later));
      v != [] && (v[|v| - 1] <==> !Current(t.global, later))
  {
    hide Shorter, Kept, Attempt, Burst, Verdicts, After, Name;
    var n: nat := MAX_GLOBAL_PAIR_ATTEMPTS;
    LastOfBurst(t, from, at, later);
    VerdictsAppend(t, Burst(n, from, at), Try(Name(from + n), later));
  }

  /** What a refusal in a window that was over leaves behind. */
  lemma SmallAfter(a: seq<Try>, x: Try)
    requires Ordered(a + [x]) && !Attempt(Replay(a).0, x.source, x.at).1
    requires !Current(Replay(a).0.global, x.at)
    ensures var t := Replay(a).0;
      && |Kept(t.rates, x.at)| <= 128
      && Then(t, x) == Table(Kept(t.rates, x.at), Rate(x.at, 0))
      && Kept(Kept(t.rates, x.at), x.at) == Kept(t.rates, x.at)
  {
    AllowedIffUnderLimits(a, x);
    hide Replay, Used, Ordered;
    var t := Replay(a).0;
    assert Kept(Kept(t.rates, x.at), x.at) == Kept(t.rates, x.at);
  }

  // ---------------------------------------------------------------------------
  // The limiter in place
  // ---------------------------------------------------------------------------

  class PairLimiter {
    var pairRates: map<string, Rate>
    var pairGlobal: Rate
    ghost var log: seq<Allowed>
    ghost var clock: nat

    ghost function State(): Table
      reads this
    {
      Table(pairRates, pairGlobal)
    }

    ghost predicate Valid()
      reads this
    {
      Inv(State(), log, clock)
    }

    constructor ()
      ensures Valid() && log == [] && clock == 0 && State() == Table(map[], Unset)
    {
      pairRates := map[];
      pairGlobal := Unset;
      log := [];
      clock := 0;
      new;
      forall k ensures SourceInv(State(), log, clock, k) { }
    }

    method Prune(now: nat)
      modifies this`pairRates
      ensures pairRates == Kept(old(pairRates), now)
    {
      var todo := pairRates.Keys;
      while todo != {}
        invariant todo <= old(pairRates).Keys
        invariant forall k :: k in pairRates <==> k in old(pairRates) && (k in todo || Current(old(pairRates)[k], now))
        invariant forall k :: k in pairRates ==> pairRates[k] == old(pairRates)[k]
        decreases todo
      {
        var k :| k in todo;
        todo := todo - {k};
        if pairRates[k].Unset? || pairRates[k].window + MINUTE <= now {
          pairRates := pairRates - {k};
        }
      }
    }

    /** allowPairAttempt, for one source key. */
    method Allow(source: string, now: nat) returns (ok: bool)
      requires Valid() && clock <= now
      modifies this
      ensures Valid() && clock == now
      ensures (State(), ok) == Attempt(old(State()), source, now)
      ensures log == Recorded(old(State()), old(log), source, now)
    {
      AttemptKeepsInv(State(), log, clock, source, now);
      log := Recorded(State(), log, source, now);
      clock := now;
      hide Inv;
      if pairGlobal.Unset? || pairGlobal.window + MINUTE <= now {
        pairGlobal := Rate(now, 0);
      }
      Prune(now);
      var rate := if source in pairRates then pairRates[source] else Unset;
      if rate.Unset? && |pairRates| >= MAX_PAIR_RATE_ENTRIES {
        return false;
      }
      if rate.Unset? || rate.window + MINUTE <= now {
        rate := Rate(now, 0);
      }
      if rate.count >= MAX_PAIR_ATTEMPTS_PER_MINUTE {
        return false;
      }
      if pairGlobal.count >= MAX_GLOBAL_PAIR_ATTEMPTS {
        return false;
      }
      pairRates := pairRates[source := Rate(rate.window, rate.count + 1)];
      pairGlobal := Rate(pairGlobal.window, pairGlobal.count + 1);
      ok := true;
    }
  }

  // ---------------------------------------------------------------------------
  // Clipboard frames of one connection
  // ---------------------------------------------------------------------------

  /** The window of readLoop; a frame too many ends the connection. */
  class FrameLimiter {
    var window: nat
    var count: nat
    var closed: bool
    ghost var admitted: seq<Stamp>
    ghost var clock: nat

    ghost predicate Valid()
      reads this
    {
      && Windowed(admitted, SECOND, MAX_CLIPBOARD_FRAMES_PER_SECOND)
      && window <= clock
      && (!closed ==> count == InWindow(admitted, window))
      && (forall i :: 0 <= i < |admitted| ==> admitted[i].window == window || admitted[i].window + SECOND <= window)
    }

    constructor (now: nat)
      ensures Valid() && admitted == [] && !closed && clock == now
    {
      window, count, closed := now, 0, false;
      admitted, clock := [], now;
    }

    /** Whether the frame that arrived may be enqueued. */
    method Frame(now: nat) returns (ok: bool)
      requires Valid() && !closed && clock <= now
      modifies this
      ensures Valid() && clock == now
      ensures closed == !ok
      ensures ok <==> (if old(window) + 1_000_000_000 <= now then 0 else InWindow(old(admitted), old(window))) < 30
      ensures window == if old(window) + 1_000_000_000 <= now then now else old(window)
      ensures admitted == if ok then old(admitted) + [Stamp(now, window)] else old(admitted)
    {
      hide InWindow, Windowed;
      clock := now;
      if window + SECOND <= now {
        NoneInWindow(admitted, now);
        window, count := now, 0;
      }
      count := count + 1;
      if count > MAX_CLIPBOARD_FRAMES_PER_SECOND {
        closed := true;
        return false;
      }
      Extend(admitted, Stamp(now, window), SECOND, MAX_CLIPBOARD_FRAMES_PER_SECOND);
      admitted := admitted + [Stamp(now, window)];
      ok := true;
    }

    /** A connection enqueues at most 60 clipboard frames in any second. */
    lemma FramesAreLimited(t: nat)
      requires Valid()
      ensures InInterval(admitted, t, 1_000_000_000) <= 60
    {
      TwoWindows(admitted, SECOND, MAX_CLIPBOARD_FRAMES_PER_SECOND, t);
    }
  }
}
