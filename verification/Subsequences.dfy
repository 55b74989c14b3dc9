// Subsequences, and the ones that keep the last element: what a queue that
// replaces old values by newer ones delivers.
module Subsequences {

  ghost predicate Subsequence<T>(p: seq<T>, q: seq<T>) {
    p == [] || (q != [] &&
      ((p[|p| - 1] == q[|q| - 1] && Subsequence(p[..|p| - 1], q[..|q| - 1])) || Subsequence(p, q[..|q| - 1])))
  }

  /** `p` is `q` with some elements left out, but never the last one. */
  ghost predicate Coalesces<T>(p: seq<T>, q: seq<T>) {
    && Subsequence(p, q)
    && (q != [] ==> p != [] && p[|p| - 1] == q[|q| - 1])
  }

  lemma {:induction false} DropOne<T>(x: seq<T>, e: T, y: seq<T>, q: seq<T>)
    requires Subsequence(x + [e] + y, q)
    ensures Subsequence(x + y, q)
    decreases |q|
  {
    var p := x + [e] + y;
    var r := q[..|q| - 1];
    if Subsequence(p, r) {
      DropOne(x, e, y, r);
    } else if y == [] {
      assert p[..|p| - 1] == x && x + y == x;
      Widen(x, r, q);
    } else {
      var z := y[..|y| - 1];
      assert p[..|p| - 1] == x + [e] + z;
      DropOne(x, e, z, r);
      assert (x + y)[..|x + y| - 1] == x + z;
    }
  }

  lemma Widen<T>(p: seq<T>, r: seq<T>, q: seq<T>)
    requires Subsequence(p, r) && q != [] && r == q[..|q| - 1]
    ensures Subsequence(p, q)
  {
  }

  /** Messages overtaken by a newer one may be dropped. */
  lemma {:induction false} DropOvertaken<T>(x: seq<T>, e: seq<T>, y: seq<T>, q: seq<T>)
    requires Coalesces(x + e + y, q) && y != []
    ensures Coalesces(x + y, q)
    decreases |e|
  {
    if e == [] {
      assert x + e + y == x + y;
    } else {
      assert x + e + y == x + [e[0]] + (e[1..] + y);
      DropOne(x, e[0], e[1..] + y, q);
      assert x + (e[1..] + y) == x + e[1..] + y;
      DropOvertaken(x, e[1..], y, q);
    }
  }

  lemma AppendBoth<T>(p: seq<T>, q: seq<T>, e: seq<T>)
    requires Coalesces(p, q) && |e| <= 1
    ensures Coalesces(p + e, q + e)
  {
    if e == [] {
      assert p + e == p && q + e == q;
    } else {
      assert (p + e)[..|p|] == p && (q + e)[..|q|] == q;
    }
  }

  lemma {:induction false} SubsequenceMembers<T>(p: seq<T>, q: seq<T>, e: T)
    requires Subsequence(p, q) && e in p
    ensures e in q
    decreases |q|
  {
    var r := q[..|q| - 1];
    if Subsequence(p, r) {
      SubsequenceMembers(p, r, e);
    } else if e != p[|p| - 1] {
      SubsequenceMembers(p[..|p| - 1], r, e);
    }
  }

  lemma {:induction false} SubsequencePrefix<T>(p: seq<T>, rest: seq<T>, q: seq<T>)
    requires Subsequence(p + rest, q)
    ensures Subsequence(p, q)
    decreases |rest|
  {
    if rest == [] {
      assert p + rest == p;
    } else {
      var n := |rest| - 1;
      assert p + rest == p + rest[..n] + [rest[n]] + [];
      DropOne(p + rest[..n], rest[n], [], q);
      assert p + rest[..n] + [] == p + rest[..n];
      SubsequencePrefix(p, rest[..n], q);
    }
  }

  lemma {:induction false} SubsequenceTransitive<T>(p: seq<T>, q: seq<T>, r: seq<T>)
    requires Subsequence(p, q) && Subsequence(q, r)
    ensures Subsequence(p, r)
    decreases |q| + |r|
  {
    if p != [] {
      var older := r[..|r| - 1];
      if Subsequence(q, older) {
        SubsequenceTransitive(p, q, older);
      } else if Subsequence(p, q[..|q| - 1]) {
        SubsequenceTransitive(p, q[..|q| - 1], older);
      } else {
        SubsequenceTransitive(p[..|p| - 1], q[..|q| - 1], older);
      }
    }
  }

  lemma TakeBoth<T>(p: seq<T>, q: seq<T>, e: T)
    requires Subsequence(p, q)
    ensures Subsequence(p + [e], q + [e])
  {
    assert (p + [e])[..|p|] == p && (q + [e])[..|q|] == q;
  }
}
