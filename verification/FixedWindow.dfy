// Fixed-window rate limits: a limiter that admits at most `cap` events per
// window, and starts a new window only when the old one is over, admits at most
// twice `cap` in any interval of that length.
module FixedWindow {

  /** An admitted event: when, and when its window had started. */
  datatype Stamp = Stamp(at: nat, window: nat)

  function InWindow(s: seq<Stamp>, w: nat): nat {
    if s == [] then 0 else InWindow(s[..|s| - 1], w) + if s[|s| - 1].window == w then 1 else 0
  }

  /** How many events fall into the half-open interval from `t`. */
  function InInterval(s: seq<Stamp>, t: nat, length: nat): nat {
    if s == [] then 0
    else InInterval(s[..|s| - 1], t, length) + if Inside(s[|s| - 1], t, length) then 1 else 0
  }

  ghost predicate Fits(x: Stamp, length: nat) {
    x.window <= x.at < x.window + length
  }

  ghost predicate Spaced(x: Stamp, y: Stamp, length: nat) {
    x.window == y.window || x.window + length <= y.window
  }

  ghost predicate Windowed(s: seq<Stamp>, length: nat, cap: nat) {
    && (forall i :: 0 <= i < |s| ==> Fits(s[i], length))
    && (forall i, j :: 0 <= i < j < |s| ==> Spaced(s[i], s[j], length))
    && (forall w :: InWindow(s, w) <= cap)
  }

  lemma InWindowGrows(s: seq<Stamp>, x: Stamp, w: nat)
    ensures InWindow(s + [x], w) == InWindow(s, w) + if w == x.window then 1 else 0
  {
    assert (s + [x])[..|s|] == s;
  }

  /** Admitting one more event in the latest window or a new one. */
  lemma Extend(s: seq<Stamp>, x: Stamp, length: nat, cap: nat)
    requires Windowed(s, length, cap) && Fits(x, length)
    requires forall i :: 0 <= i < |s| ==> Spaced(s[i], x, length)
    requires InWindow(s, x.window) < cap
    ensures Windowed(s + [x], length, cap)
    ensures forall w :: InWindow(s + [x], w) == InWindow(s, w) + if w == x.window then 1 else 0
  {
    hide InWindow, Fits, Spaced;
    var r := s + [x];
    forall w ensures InWindow(r, w) == InWindow(s, w) + if w == x.window then 1 else 0 {
      InWindowGrows(s, x, w);
    }
    forall i | 0 <= i < |r| ensures Fits(r[i], length) {
      assert i < |s| ==> r[i] == s[i];
    }
    forall i, j | 0 <= i < j < |r| ensures Spaced(r[i], r[j], length) {
      assert r[i] == s[i] && (j < |s| ==> r[j] == s[j]);
    }
    forall w ensures InWindow(r, w) <= cap {
      assert InWindow(s, w) <= cap;
    }
  }

  lemma {:induction false} NoneInWindow(s: seq<Stamp>, w: nat)
    requires forall i :: 0 <= i < |s| ==> s[i].window != w
    ensures InWindow(s, w) == 0
  {
    if s != [] { NoneInWindow(s[..|s| - 1], w); }
  }

  lemma {:induction false} IntervalInWindows(s: seq<Stamp>, t: nat, length: nat, a: nat, b: nat)
    requires forall i :: 0 <= i < |s| && Inside(s[i], t, length) ==> s[i].window == a || s[i].window == b
    ensures InInterval(s, t, length) <= InWindow(s, a) + InWindow(s, b)
  {
    if s != [] { IntervalInWindows(s[..|s| - 1], t, length, a, b); }
  }

  lemma {:induction false} NoneInInterval(s: seq<Stamp>, t: nat, length: nat)
    requires forall i :: 0 <= i < |s| ==> !Inside(s[i], t, length)
    ensures InInterval(s, t, length) == 0
  {
    if s != [] { NoneInInterval(s[..|s| - 1], t, length); }
  }

  predicate Inside(x: Stamp, t: nat, length: nat) {
    t <= x.at < t + length
  }

  /** The first event in the interval, or the number of events. */
  function FirstIn(s: seq<Stamp>, t: nat, length: nat, from: nat := 0): (k: nat)
    requires from <= |s|
    ensures from <= k <= |s|
    ensures forall i :: from <= i < k ==> !Inside(s[i], t, length)
    ensures k < |s| ==> Inside(s[k], t, length)
    decreases |s| - from
  {
    if from == |s| || Inside(s[from], t, length) then from else FirstIn(s, t, length, from + 1)
  }

  /** The last event in the interval. */
  function LastIn(s: seq<Stamp>, t: nat, length: nat, first: nat): (k: nat)
    requires first < |s| && Inside(s[first], t, length)
    ensures first <= k < |s| && Inside(s[k], t, length)
    ensures forall i :: k < i < |s| ==> !Inside(s[i], t, length)
  {
    var n := |s| - 1;
    if Inside(s[n], t, length) then n
    else
      assert forall i :: 0 <= i < n ==> s[..n][i] == s[i];
      LastIn(s[..n], t, length, first)
  }

  /** The events of one interval belong to at most two windows. */
  lemma TwoWindows(s: seq<Stamp>, length: nat, cap: nat, t: nat)
    requires Windowed(s, length, cap)
    ensures InInterval(s, t, length) <= 2 * cap
  {
    var first := FirstIn(s, t, length);
    if first == |s| {
      NoneInInterval(s, t, length);
    } else {
      var last := LastIn(s, t, length, first);
      var a, b := s[first].window, s[last].window;
      forall i | 0 <= i < |s| && Inside(s[i], t, length) ensures s[i].window == a || s[i].window == b {
        assert Fits(s[first], length) && Fits(s[last], length) && Fits(s[i], length);
        assert first < i ==> Spaced(s[first], s[i], length);
        assert i < last ==> Spaced(s[i], s[last], length);
      }
      IntervalInWindows(s, t, length, a, b);
      assert InWindow(s, a) <= cap && InWindow(s, b) <= cap;
    }
  }
}
