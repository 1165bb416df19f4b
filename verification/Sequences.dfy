/** Selecting and ordering the elements of a vector by index. */
module Sequences {

  datatype Option<+T> = None | Some(value: T)

  function Min(a: int, b: int): int { if a < b then a else b }
  function Max(a: int, b: int): int { if a < b then b else a }
  function Clamp(x: int, lo: int, hi: int): int { if x < lo then lo else if x > hi then hi else x }

  predicate InRange(idx: seq<nat>, n: nat) {
    forall j :: 0 <= j < |idx| ==> idx[j] < n
  }

  /** The elements of `s` at the given positions, in that order. */
  function Pick<T>(s: seq<T>, idx: seq<nat>): (r: seq<T>)
    requires InRange(idx, |s|)
    ensures |r| == |idx| && forall k :: 0 <= k < |r| ==> r[k] == s[idx[k]]
  {
    seq(|idx|, k requires 0 <= k < |idx| => s[idx[k]])
  }

  predicate Distinct<T(==)>(s: seq<T>) {
    forall i, j :: 0 <= i < j < |s| ==> s[i] != s[j]
  }

  /** The positions at which `p` holds, ascending. */
  function Where<T>(s: seq<T>, p: T -> bool): (idx: seq<nat>)
    ensures InRange(idx, |s|) && forall j :: 0 <= j < |idx| ==> p(s[idx[j]])
    ensures forall k: nat :: k < |s| && p(s[k]) ==> k in idx
    ensures forall a, b :: 0 <= a < b < |idx| ==> idx[a] < idx[b]
    decreases |s|
  {
    if s == [] then []
    else
      var n := |s| - 1;
      var front := Where(s[..n], p);
      if p(s[n]) then front + [n] else front
  }

  /** erase(remove_if(..., !p), end) */
  function Filter<T(!new)>(s: seq<T>, p: T -> bool): (r: seq<T>)
    ensures |r| <= |s|
    ensures forall x :: x in r <==> x in s && p(x)
  {
    var idx := Where(s, p);
    IncreasingShort(idx, |s|);
    assert forall x <- s :: p(x) ==> exists k: nat :: k < |s| && s[k] == x;
    assert forall k: nat :: k < |s| && p(s[k]) ==> exists a :: 0 <= a < |idx| && idx[a] == k;
    Pick(s, idx)
  }

  lemma {:induction false} IncreasingShort(idx: seq<nat>, n: nat)
    requires forall a, b :: 0 <= a < b < |idx| ==> idx[a] < idx[b]
    requires InRange(idx, n)
    ensures |idx| <= n
    decreases |idx|
  {
    if idx != [] {
      IncreasingShort(idx[..|idx| - 1], idx[|idx| - 1]);
    }
  }

  /** A strict weak order on the positions below `n`, as std::sort demands. */
  ghost predicate WeakOrder(n: nat, before: (nat, nat) -> bool) {
    && (forall a: nat, b: nat :: a < n && b < n && before(a, b) ==> !before(b, a))
    && (forall a: nat, b: nat, c: nat :: a < n && b < n && c < n && before(a, c) ==> before(a, b) || before(b, c))
  }

  ghost predicate Sorted(before: (nat, nat) -> bool, r: seq<nat>) {
    forall i, j :: 0 <= i < j < |r| ==> !before(r[j], r[i])
  }

  /** `r` lists the first `k` of `all` under the order, ties in any order. */
  ghost predicate IsTop(all: seq<nat>, k: nat, before: (nat, nat) -> bool, r: seq<nat>) {
    && |r| == Min(k, |all|) && Distinct(r) && Sorted(before, r)
    && (forall x <- r :: x in all)
    && (forall x <- r, y <- all :: y !in r ==> !before(y, x))
  }

  /** Stands for std::sort and std::partial_sort followed by resize: callers rely on IsTop only. */
  method SortTop(n: nat, all: seq<nat>, k: nat, before: (nat, nat) -> bool) returns (r: seq<nat>)
    requires WeakOrder(n, before) && Distinct(all) && InRange(all, n)
    ensures InRange(r, n) && IsTop(all, k, before, r)
  {
    var sorted: seq<nat> := [];
    for i := 0 to |all|
      invariant |sorted| == i && InRange(sorted, n) && Distinct(sorted) && Sorted(before, sorted)
      invariant forall x :: x in sorted <==> x in all[..i]
    {
      assert forall j :: 0 <= j < i ==> all[..i][j] != all[i];
      assert all[..i + 1] == all[..i] + [all[i]];
      sorted := Insert(n, sorted, all[i], before);
    }
    assert all[..|all|] == all;
    r := sorted[..Min(k, |sorted|)];
    forall x <- r, y <- all | y !in r ensures !before(y, x) {
      var i :| 0 <= i < |r| && r[i] == x;
      var j :| 0 <= j < |sorted| && sorted[j] == y;
      assert j >= |r|;
    }
  }

  method Insert(n: nat, s: seq<nat>, x: nat, before: (nat, nat) -> bool) returns (r: seq<nat>)
    requires WeakOrder(n, before) && Distinct(s) && Sorted(before, s) && x !in s && x < n && InRange(s, n)
    ensures |r| == |s| + 1 && InRange(r, n) && Distinct(r) && Sorted(before, r)
    ensures forall y :: y in r <==> y in s || y == x
  {
    var i := 0;
    while i < |s| && !before(x, s[i])
      invariant 0 <= i <= |s|
      invariant forall j :: 0 <= j < i ==> !before(x, s[j])
    {
      i := i + 1;
    }
    r := s[..i] + [x] + s[i..];
    assert forall y :: y in r <==> y in s[..i] || y == x || y in s[i..];
    assert s == s[..i] + s[i..];
    forall a, b | 0 <= a < b < |r| ensures !before(r[b], r[a]) && r[a] != r[b] {
      if a < i < b {
        assert r[a] == s[a] && r[b] == s[b - 1];
      } else if a == i {
        assert r[b] == s[b - 1];
        // before(x, s[i]), and s[b - 1] is not before s[i]
        assert s[i] in s && s[b - 1] in s;
      }
    }
  }

  /** How many elements satisfy `p`. */
  function Count<T>(s: seq<T>, p: T -> bool): (c: nat)
    ensures c <= |s|
  {
    if s == [] then 0 else Count(s[..|s| - 1], p) + (if p(s[|s| - 1]) then 1 else 0)
  }

  lemma {:induction false} CountIsWhere<T>(s: seq<T>, p: T -> bool)
    ensures Count(s, p) == |Where(s, p)|
    decreases |s|
  {
    if s != [] { CountIsWhere(s[..|s| - 1], p); }
  }

  /** Changing one element changes the count by that element's difference. */
  lemma {:induction false} CountUpdate<T>(s: seq<T>, p: T -> bool, i: nat, x: T)
    requires i < |s|
    ensures Count(s[i := x], p) == Count(s, p) + (if p(x) then 1 else 0) - (if p(s[i]) then 1 else 0)
    decreases |s|
  {
    var n := |s| - 1;
    if i < n {
      CountUpdate(s[..n], p, i, x);
      assert s[i := x][..n] == s[..n][i := x];
    } else {
      assert s[i := x][..n] == s[..n];
    }
  }

  /** Counts depend on the verdicts only. */
  lemma {:induction false} CountSame<S, T>(s: seq<S>, p: S -> bool, t: seq<T>, q: T -> bool)
    requires |s| == |t| && forall i :: 0 <= i < |s| ==> p(s[i]) == q(t[i])
    ensures Count(s, p) == Count(t, q)
    decreases |s|
  {
    if s != [] { CountSame(s[..|s| - 1], p, t[..|t| - 1], q); }
  }

  lemma EmptyListing(idx: seq<nat>)
    requires forall k: nat :: k !in idx
    ensures idx == []
  {
    HeadIsIn(idx);
  }

  lemma HeadIsIn(idx: seq<nat>)
    ensures idx != [] ==> idx[0] in idx
  {
  }

  /** A sequence without repetition that lists exactly the positions where `p` holds is as long
      as their number. */
  lemma {:induction false} CountByListing<T>(s: seq<T>, p: T -> bool, idx: seq<nat>)
    requires Distinct(idx) && forall k: nat :: k in idx <==> k < |s| && p(s[k])
    ensures |idx| == Count(s, p)
    decreases |s|
  {
    if s == [] {
      EmptyListing(idx);
    } else {
      var n := |s| - 1;
      if p(s[n]) {
        assert n in idx;
        var j :| 0 <= j < |idx| && idx[j] == n;
        var idx' := idx[..j] + idx[j + 1..];
        forall k: nat ensures k in idx' <==> k < n && p(s[..n][k]) {
          if k in idx && k != n {
            var m :| 0 <= m < |idx| && idx[m] == k;
            assert idx' [if m < j then m else m - 1] == k;
          }
          if k in idx' { var m :| 0 <= m < |idx'| && idx'[m] == k; assert k == idx[if m < j then m else m + 1]; }
        }
        CountByListing(s[..n], p, idx');
      } else {
        forall k: nat ensures k in idx <==> k < n && p(s[..n][k]) { }
        CountByListing(s[..n], p, idx);
      }
    }
  }

  // ---------------------------------------------------------------- greedy filtering

  /** A loop over `incoming` that keeps an element unless `dup` finds it among `existing` and what
      was kept so far: the positions kept among the first `n`. */
  function Greedy<T>(dup: (seq<T>, T) -> bool, existing: seq<T>, incoming: seq<T>, n: nat): (pos: seq<nat>)
    requires n <= |incoming|
    ensures InRange(pos, n) && forall a, b :: 0 <= a < b < |pos| ==> pos[a] < pos[b]
    decreases n
  {
    if n == 0 then []
    else
      var pos := Greedy(dup, existing, incoming, n - 1);
      if dup(existing + Pick(incoming, pos), incoming[n - 1]) then pos else pos + [n - 1]
  }

  /** `incoming[j]` clashes with an existing element or with one picked before it. */
  ghost predicate Redundant<T>(clash: (T, T) -> bool, existing: seq<T>, incoming: seq<T>, pos: seq<nat>, j: nat)
    requires InRange(pos, |incoming|) && j < |incoming|
  {
    || (exists i :: 0 <= i < |existing| && clash(existing[i], incoming[j]))
    || (exists m :: 0 <= m < |pos| && pos[m] < j && clash(incoming[pos[m]], incoming[j]))
  }

  /** When the loop reaches element `m`, `dup` tells whether it clashes with what it has. */
  ghost predicate DecidesAt<T>(dup: (seq<T>, T) -> bool, clash: (T, T) -> bool, existing: seq<T>, incoming: seq<T>,
                               m: nat)
    requires m < |incoming|
  {
    var pos := Greedy(dup, existing, incoming, m);
    dup(existing + Pick(incoming, pos), incoming[m]) <==> Redundant(clash, existing, incoming, pos, m)
  }

  lemma InExtended(prev: seq<nat>, n: nat, j: nat)
    ensures j in prev + [n] <==> j in prev || j == n
  {
    if j == n { assert (prev + [n])[|prev|] == j; }
  }

  /** Keeping position `n` does not change what is redundant up to it. */
  lemma RedundantStable<T>(clash: (T, T) -> bool, existing: seq<T>, incoming: seq<T>, prev: seq<nat>, n: nat, j: nat)
    requires InRange(prev, n) && j <= n < |incoming|
    ensures Redundant(clash, existing, incoming, prev + [n], j) <==> Redundant(clash, existing, incoming, prev, j)
  {
    var pos := prev + [n];
    assert forall m :: 0 <= m < |prev| ==> pos[m] == prev[m];
    if m :| 0 <= m < |pos| && pos[m] < j && clash(incoming[pos[m]], incoming[j]) {
      assert m < |prev|;
      assert prev[m] < j && clash(incoming[prev[m]], incoming[j]);
    }
  }

  lemma GreedyStep<T>(dup: (seq<T>, T) -> bool, clash: (T, T) -> bool, existing: seq<T>, incoming: seq<T>, n: nat,
                      j: nat)
    requires j <= n < |incoming| && DecidesAt(dup, clash, existing, incoming, n)
    ensures var prev := Greedy(dup, existing, incoming, n);
            var pos := Greedy(dup, existing, incoming, n + 1);
            && (j in pos <==> j in prev || (j == n && !Redundant(clash, existing, incoming, prev, n)))
            && (Redundant(clash, existing, incoming, pos, j) <==> Redundant(clash, existing, incoming, prev, j))
  {
    var prev := Greedy(dup, existing, incoming, n);
    RedundantStable(clash, existing, incoming, prev, n, j);
    InExtended(prev, n, j);
  }

  ghost predicate DecidesBelow<T>(dup: (seq<T>, T) -> bool, clash: (T, T) -> bool, existing: seq<T>, incoming: seq<T>,
                                  n: nat)
    requires n <= |incoming|
  {
    forall m: nat :: m < n ==> DecidesAt(dup, clash, existing, incoming, m)
  }

  lemma LastNotYetKept<T>(dup: (seq<T>, T) -> bool, existing: seq<T>, incoming: seq<T>, n: nat)
    requires n <= |incoming|
    ensures n !in Greedy(dup, existing, incoming, n)
  {
  }

  /** The filter keeps exactly the elements that repeat neither an existing element nor an earlier
      kept one. */
  lemma {:induction false} GreedyIsExact<T>(
      dup: (seq<T>, T) -> bool, clash: (T, T) -> bool, existing: seq<T>, incoming: seq<T>, n: nat, j: nat)
    requires j < n <= |incoming| && DecidesBelow(dup, clash, existing, incoming, n)
    ensures var pos := Greedy(dup, existing, incoming, n);
            j in pos <==> !Redundant(clash, existing, incoming, pos, j)
    decreases n
  {
    assert DecidesAt(dup, clash, existing, incoming, n - 1);
    GreedyStep(dup, clash, existing, incoming, n - 1, j);
    if j < n - 1 {
      GreedyIsExact(dup, clash, existing, incoming, n - 1, j);
    } else {
      LastNotYetKept(dup, existing, incoming, n - 1);
    }
  }
}
