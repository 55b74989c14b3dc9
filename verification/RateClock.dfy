// The pairing limiter by the clock alone.  Its verdicts are those of a reader of the
// trace who keeps no table: when the latest window over all sources and the latest
// window of this source began, and how many attempts each has let through since.
module RateClock {
  import opened FixedWindow
  import opened RateLimit

  // ---------------------------------------------------------------------------
  // Windows read off a sequence of times
  // ---------------------------------------------------------------------------

  /** The start of the latest window: each begins with the first time that finds the
      one before it a minute old. */
  function LatestWindow(times: seq<nat>): nat
    requires times != []
  {
    var last := times[|times| - 1];
    if |times| == 1 then last
    else
      var w := LatestWindow(times[..|times| - 1]);
      if w + 60_000_000_000 <= last then last else w
  }

  /** How many of these times are not before `w`. */
  function Since(times: seq<nat>, w: nat): nat {
    if times == [] then 0 else Since(times[..|times| - 1], w) + if w <= times[|times| - 1] then 1 else 0
  }

  /** What the window made by `openers` has let through, if it is still open. */
  function Spent(openers: seq<nat>, passed: seq<nat>, now: nat): nat {
    if openers == [] || LatestWindow(openers) + 60_000_000_000 <= now then 0
    else Since(passed, LatestWindow(openers))
  }

  // ---------------------------------------------------------------------------
  // The times of a trace
  // ---------------------------------------------------------------------------

  function Times(a: seq<Try>): seq<nat> {
    seq(|a|, i requires 0 <= i < |a| => a[i].at)
  }

  /** The attempts of a trace that were let through. */
  function Passed(a: seq<Try>): seq<Try> {
    if a == [] then []
    else
      var before, x := a[..|a| - 1], a[|a| - 1];
      Passed(before) + if Attempt(Replay(before).0, x.source, x.at).1 then [x] else []
  }

  function Of(a: seq<Try>, source: string): seq<Try> {
    if a == [] then []
    else Of(a[..|a| - 1], source) + if a[|a| - 1].source == source then [a[|a| - 1]] else []
  }

  // ---------------------------------------------------------------------------
  // The log tells the same
  // ---------------------------------------------------------------------------

  function Ats(s: seq<Stamp>): seq<nat> {
    seq(|s|, i requires 0 <= i < |s| => s[i].at)
  }

  lemma AtsGrow(s: seq<Stamp>, x: Stamp)
    ensures Ats(s + [x]) == Ats(s) + [x.at]
  {
  }

  lemma TimesGrow(a: seq<Try>, x: Try)
    ensures Times(a + [x]) == Times(a) + [x.at]
  {
  }

  lemma SinceGrows(times: seq<nat>, t: nat, w: nat)
    ensures Since(times + [t], w) == Since(times, w) + if w <= t then 1 else 0
  {
    assert (times + [t])[..|times|] == times;
  }

  lemma LatestGrows(times: seq<nat>, t: nat)
    ensures LatestWindow(times + [t]) ==
      if times == [] || LatestWindow(times) + 60_000_000_000 <= t then t else LatestWindow(times)
  {
    assert (times + [t])[..|times|] == times;
  }

  ghost predicate Follows(s: seq<Stamp>, i: nat)
    requires i < |s|
  {
    s[i].window == if i == 0 || s[i - 1].window + 60_000_000_000 <= s[i].at then s[i].at else s[i - 1].window
  }

  /** Each stamp carries the window that the times so far make. */
  ghost predicate Chained(s: seq<Stamp>) {
    forall i :: 0 <= i < |s| ==> Follows(s, i)
  }

  lemma ChainInit(s: seq<Stamp>)
    requires Chained(s) && s != []
    ensures Chained(s[..|s| - 1]) && Follows(s, |s| - 1)
  {
    var older := s[..|s| - 1];
    forall i | 0 <= i < |older| ensures Follows(older, i) {
      assert Follows(s, i);
    }
  }

  lemma ChainGrows(s: seq<Stamp>, x: Stamp)
    requires Chained(s)
    requires x.window == if s == [] || s[|s| - 1].window + 60_000_000_000 <= x.at then x.at else s[|s| - 1].window
    ensures Chained(s + [x])
  {
    var r := s + [x];
    forall i | 0 <= i < |r| ensures Follows(r, i) {
      assert i < |s| ==> Follows(s, i);
    }
  }

  lemma {:induction false} ChainIsLatest(s: seq<Stamp>)
    requires Chained(s) && s != []
    ensures LatestWindow(Ats(s)) == s[|s| - 1].window
  {
    var n := |s| - 1;
    var older := s[..n];
    assert s == older + [s[n]];
    AtsGrow(older, s[n]);
    LatestGrows(Ats(older), s[n].at);
    ChainInit(s);
    if n > 0 {
      ChainIsLatest(older);
      assert older[n - 1] == s[n - 1];
    }
    hide LatestWindow;
  }

  /** Stamps of earlier windows lie before the start of this one. */
  lemma {:induction false} SinceIsInWindow(s: seq<Stamp>, w: nat)
    requires forall i :: 0 <= i < |s| ==> Fits(s[i], MINUTE) && (s[i].window == w || s[i].window + MINUTE <= w)
    ensures Since(Ats(s), w) == InWindow(s, w)
  {
    if s != [] {
      var n := |s| - 1;
      var older := s[..n];
      assert s == older + [s[n]];
      AtsGrow(older, s[n]);
      SinceGrows(Ats(older), s[n].at, w);
      assert forall i :: 0 <= i < n ==> older[i] == s[i];
      SinceIsInWindow(older, w);
    }
  }

  // ---------------------------------------------------------------------------
  // What the table has to do with the clock
  // ---------------------------------------------------------------------------

  /** The windows of the table are the latest ones. */
  ghost predicate OnTime(t: Table, log: seq<Allowed>, source: string) {
    var s := SourceStamps(log, source);
    && Chained(s)
    && (source in t.rates ==> s != [] && t.rates[source].Rate? && t.rates[source].window == s[|s| - 1].window)
  }

  /** The log is the attempts let through, with their windows. */
  lemma {:induction false} LogIsPassed(a: seq<Try>, k: string)
    ensures Ats(GlobalStamps(Replay(a).1)) == Times(Passed(a))
    ensures Ats(SourceStamps(Replay(a).1, k)) == Times(Of(Passed(a), k))
  {
    if a != [] {
      var older, x := a[..|a| - 1], a[|a| - 1];
      LogIsPassed(older, k);
      LogGrows(Replay(older).0, Replay(older).1, Passed(older), x, k);
      hide Attempt, SourceStamps, GlobalStamps, Ats, Times, Of;
    }
  }

  lemma LogGrows(t: Table, log: seq<Allowed>, passed: seq<Try>, x: Try, k: string)
    requires Ats(GlobalStamps(log)) == Times(passed) && Ats(SourceStamps(log, k)) == Times(Of(passed, k))
    ensures var log' := Recorded(t, log, x.source, x.at);
      var passed' := passed + if Attempt(t, x.source, x.at).1 then [x] else [];
      Ats(GlobalStamps(log')) == Times(passed') && Ats(SourceStamps(log', k)) == Times(Of(passed', k))
  {
    var r := Attempt(t, x.source, x.at);
    if r.1 {
      var y := Allowed(x.source, x.at, r.0.global.window, RateOf(r.0.rates, x.source).window);
      StampsGrow(log, y, k);
      AtsGrow(GlobalStamps(log), Stamp(y.at, y.window));
      AtsGrow(SourceStamps(log, k), Stamp(y.at, y.sourceWindow));
      assert (passed + [x])[..|passed|] == passed;
      TimesGrow(passed, x);
      TimesGrow(Of(passed, k), x);
      hide SourceStamps, GlobalStamps, Ats, Times, Attempt;
      assert Of(passed, k) + [] == Of(passed, k);
    } else {
      assert passed + [] == passed;
    }
  }

  /** Every attempt, refused or not, opens the window over all sources when it finds
      the old one over. */
  lemma {:induction false} GlobalIsLatest(a: seq<Try>)
    ensures var g := Replay(a).0.global;
      if a == [] then g.Unset? else g.Rate? && g.window == LatestWindow(Times(a))
  {
    if a != [] {
      var older, x := a[..|a| - 1], a[|a| - 1];
      GlobalIsLatest(older);
      assert a == older + [x];
      TimesGrow(older, x);
      LatestGrows(Times(older), x.at);
      hide LatestWindow, Times, Kept;
    }
  }

  /** The window in which a source's next attempt falls. */
  lemma NextWindow(t: Table, log: seq<Allowed>, clock: nat, now: nat, k: string)
    requires SourceInv(t, log, clock, k) && clock <= now && OnTime(t, log, k)
    ensures var s, r := SourceStamps(log, k), Rolled(RateOf(Kept(t.rates, now), k), now);
      r.window == if s == [] || s[|s| - 1].window + 60_000_000_000 <= now then now else s[|s| - 1].window
  {
    hide SourceStamps, Windowed, Chained, InWindow;
  }

  lemma AttemptIsTimed(t: Table, x: Try)
    ensures var r := Attempt(t, x.source, x.at);
      r.0.global.Rate? && (r.1 ==> RateOf(r.0.rates, x.source).Rate?)
  {
  }

  lemma OtherStaysOnTime(t: Table, log: seq<Allowed>, x: Try, k: string)
    requires OnTime(t, log, k) && !(Attempt(t, x.source, x.at).1 && k == x.source)
    ensures OnTime(Attempt(t, x.source, x.at).0, Recorded(t, log, x.source, x.at), k)
  {
    AttemptRates(t, x.source, x.at, k);
    AttemptIsTimed(t, x);
    hide Attempt, SourceStamps, Chained, Rolled;
    var r := Attempt(t, x.source, x.at);
    if r.1 {
      StampsGrow(log, Allowed(x.source, x.at, r.0.global.window, RateOf(r.0.rates, x.source).window), k);
    }
  }

  /** A source's window is opened by an attempt of it that is let through. */
  lemma OwnStaysOnTime(t: Table, log: seq<Allowed>, clock: nat, x: Try)
    requires SourceInv(t, log, clock, x.source) && clock <= x.at && OnTime(t, log, x.source)
    requires Attempt(t, x.source, x.at).1
    ensures OnTime(Attempt(t, x.source, x.at).0, Recorded(t, log, x.source, x.at), x.source)
  {
    AttemptRates(t, x.source, x.at, x.source);
    NextWindow(t, log, clock, x.at, x.source);
    AttemptIsTimed(t, x);
    hide Attempt, SourceStamps, SourceInv, Chained, Rolled, Kept;
    var r := Attempt(t, x.source, x.at);
    var w := RateOf(r.0.rates, x.source).window;
    StampsGrow(log, Allowed(x.source, x.at, r.0.global.window, w), x.source);
    ChainGrows(SourceStamps(log, x.source), Stamp(x.at, w));
  }

  lemma {:induction false} SourceOnTime(a: seq<Try>, k: string)
    requires Ordered(a)
    ensures OnTime(Replay(a).0, Replay(a).1, k)
  {
    if a != [] {
      var older, x := a[..|a| - 1], a[|a| - 1];
      SourceOnTime(older, k);
      ReplayInv(older);
      assert Clock(older) <= x.at;
      hide OnTime, Attempt, Recorded, Ordered, Tracks;
      var (t, log) := Replay(older);
      assert SourceInv(t, log, Clock(older), k);
      hide Inv, SourceInv;
      if Attempt(t, x.source, x.at).1 && k == x.source {
        OwnStaysOnTime(t, log, Clock(older), x);
      } else {
        OtherStaysOnTime(t, log, x, k);
      }
    }
  }

  lemma SourceSpent(t: Table, log: seq<Allowed>, clock: nat, now: nat, k: string)
    requires Inv(t, log, clock) && clock <= now && OnTime(t, log, k)
    ensures var s := SourceStamps(log, k); Used(RateOf(t.rates, k), s, now) == Spent(Ats(s), Ats(s), now)
  {
    assert SourceInv(t, log, clock, k);
    var s := SourceStamps(log, k);
    if s != [] {
      ChainIsLatest(s);
      if k in t.rates {
        SinceIsInWindow(s, t.rates[k].window);
      }
    }
    hide SourceStamps, LatestWindow, Since, InWindow, Inv;
  }

  lemma GlobalSpent(t: Table, log: seq<Allowed>, clock: nat, now: nat, openers: seq<nat>)
    requires Inv(t, log, clock) && clock <= now
    requires if openers == [] then t.global.Unset? else t.global.Rate? && t.global.window == LatestWindow(openers)
    ensures var s := GlobalStamps(log); Used(t.global, s, now) == Spent(openers, Ats(s), now)
  {
    if t.global.Rate? {
      SinceIsInWindow(GlobalStamps(log), t.global.window);
    }
    hide GlobalStamps, LatestWindow, Since, InWindow;
  }

  /** After any trace the next attempt is let through just when its source has been
      let through fewer than ten times since the source's latest window began, and all
      sources together fewer than 64 times since their latest window began. */
  lemma AllowedByTheClock(a: seq<Try>, x: Try)
    requires Ordered(a + [x])
    ensures var own := Times(Of(Passed(a), x.source));
      Attempt(Replay(a).0, x.source, x.at).1 <==>
        Spent(own, own, x.at) < 10 && Spent(Times(a), Times(Passed(a)), x.at) < 64
  {
    OrderedInit(a, x);
    AllowedIffUnderLimits(a, x);
    ReplayInv(a);
    LogIsPassed(a, x.source);
    GlobalIsLatest(a);
    SourceOnTime(a, x.source);
    hide Inv, OnTime, Attempt, Replay, Used, Spent, Passed, Of, Times, Ordered;
    var t, log := Replay(a).0, Replay(a).1;
    SourceSpent(t, log, Clock(a), x.at, x.source);
    GlobalSpent(t, log, Clock(a), x.at, Times(a));
  }

  lemma OrderedInit(a: seq<Try>, x: Try)
    requires Ordered(a + [x])
    ensures Ordered(a) && Clock(a) <= x.at && |Times(a)| == |a|
  {
    var b := a + [x];
    assert forall i :: 0 <= i < |a| ==> b[i] == a[i];
    assert b[|a|] == x;
  }
}
