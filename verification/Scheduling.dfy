/** Dealing jobs largest first to the least loaded of `m` machines, and how far that is from the best
    possible: the arithmetic behind `scripts/ci_shard_labels.py`. */
module Scheduling {

  function Sum(w: seq<nat>): nat {
    if w == [] then 0 else Sum(w[..|w| - 1]) + w[|w| - 1]
  }

  /** The work that the assignment `a` puts on machine `k`. */
  function Load(w: seq<nat>, a: seq<nat>, k: nat): nat
    requires |w| == |a|
  {
    if w == [] then 0
    else Load(w[..|w| - 1], a[..|a| - 1], k) + (if a[|a| - 1] == k then w[|w| - 1] else 0)
  }

  /** An assignment to `m` machines. */
  predicate Assigns(a: seq<nat>, m: nat) {
    forall j | 0 <= j < |a| :: a[j] < m
  }

  /** The work on the machines below `k`, together. */
  function LoadsBelow(w: seq<nat>, a: seq<nat>, k: nat): nat
    requires |w| == |a|
  {
    if k == 0 then 0 else LoadsBelow(w, a, k - 1) + Load(w, a, k - 1)
  }

  lemma {:induction false} LoadsBelowAppends(w: seq<nat>, a: seq<nat>, k: nat)
    requires |w| == |a| && w != []
    ensures var n := |w| - 1;
      LoadsBelow(w, a, k) == LoadsBelow(w[..n], a[..n], k) + (if a[n] < k then w[n] else 0)
  {
    if k > 0 {
      LoadsBelowAppends(w, a, k - 1);
    }
  }

  /** No work is lost: the loads add up to the total. */
  lemma {:induction false} LoadsAddUp(w: seq<nat>, a: seq<nat>, m: nat)
    requires |w| == |a| && Assigns(a, m)
    ensures LoadsBelow(w, a, m) == Sum(w)
  {
    if w == [] {
      NoWork(a, m);
    } else {
      LoadsAddUp(w[..|w| - 1], a[..|a| - 1], m);
      LoadsBelowAppends(w, a, m);
    }
  }

  lemma {:induction false} NoWork(a: seq<nat>, m: nat)
    requires a == []
    ensures LoadsBelow([], a, m) == 0
  {
    if m > 0 {
      NoWork(a, m - 1);
    }
  }

  /** If every machine has at most (at least) `c`, together they have at most (at least) `m * c`. */
  lemma {:induction false} Pigeonhole(w: seq<nat>, a: seq<nat>, m: nat, c: int)
    requires |w| == |a|
    ensures (forall k | 0 <= k < m :: Load(w, a, k) <= c) ==> LoadsBelow(w, a, m) <= m * c
    ensures (forall k | 0 <= k < m :: Load(w, a, k) >= c) ==> LoadsBelow(w, a, m) >= m * c
  {
    if m > 0 {
      Pigeonhole(w, a, m - 1, c);
      assert (m - 1) * c + c == m * c;
    }
  }

  lemma {:induction false} LoadHoldsJob(w: seq<nat>, a: seq<nat>, j: nat)
    requires |w| == |a| && j < |w|
    ensures Load(w, a, a[j]) >= w[j]
  {
    if j < |w| - 1 {
      LoadHoldsJob(w[..|w| - 1], a[..|a| - 1], j);
    }
  }

  // ---------------------------------------------------------------- big jobs

  /** A job counts two when it leaves no room beside it for one of size `q` within `t`, else one. */
  function Weights(p: seq<nat>, q: nat, t: nat): (w: seq<nat>)
    ensures |w| == |p| && forall j | 0 <= j < |p| :: w[j] == if p[j] + q > t then 2 else 1
  {
    seq(|p|, j requires 0 <= j < |p| => if p[j] + q > t then 2 else 1)
  }

  lemma WeightsOfPrefix(p: seq<nat>, q: nat, t: nat, n: nat)
    requires n <= |p|
    ensures Weights(p[..n], q, t) == Weights(p, q, t)[..n]
  {
  }

  /** When every job is at least `q` and three of them exceed `t`, a machine within `t` weighs two at most. */
  lemma {:induction false} WithinIsLight(p: seq<nat>, a: seq<nat>, k: nat, q: nat, t: nat)
    requires |p| == |a| && 3 * q > t && forall j | 0 <= j < |p| :: p[j] >= q
    ensures var weight, load := Load(Weights(p, q, t), a, k), Load(p, a, k);
      && (weight >= 1 ==> load >= q)
      && (weight >= 2 ==> load + q > t)
      && (weight >= 3 ==> load > t)
  {
    if p != [] {
      WithinIsLight(p[..|p| - 1], a[..|a| - 1], k, q, t);
      WeightsOfPrefix(p, q, t, |p| - 1);
    }
  }

  /** A machine with no room for `q` within `t`, when `q` itself fits, weighs at least two. */
  lemma {:induction false} FullIsHeavy(p: seq<nat>, a: seq<nat>, k: nat, q: nat, t: nat)
    requires |p| == |a| && q <= t
    ensures var weight, load := Load(Weights(p, q, t), a, k), Load(p, a, k);
      && (weight == 0 ==> load == 0)
      && (weight == 1 ==> load + q <= t)
  {
    if p != [] {
      FullIsHeavy(p[..|p| - 1], a[..|a| - 1], k, q, t);
      WeightsOfPrefix(p, q, t, |p| - 1);
    }
  }

  /** `i` is a least loaded of `m` machines. */
  ghost predicate Lightest(p: seq<nat>, a: seq<nat>, m: nat, i: nat)
    requires |p| == |a|
  {
    i < m && forall k | 0 <= k < m :: Load(p, a, i) <= Load(p, a, k)
  }

  ghost predicate Within(p: seq<nat>, a: seq<nat>, m: nat, t: nat) {
    |a| == |p| && Assigns(a, m) && forall k | 0 <= k < m :: Load(p, a, k) <= t
  }

  /** If the last, smallest job is more than a third of what some assignment needs, putting it on the
      least loaded machine of any assignment of the others stays within what that assignment needs. */
  lemma BigLastJobFits(p: seq<nat>, q: nat, a: seq<nat>, m: nat, i: nat, other: seq<nat>, t: nat)
    requires |a| == |p| && Assigns(a, m) && Lightest(p, a, m, i) && Within(p + [q], other, m, t)
    requires (forall j | 0 <= j < |p| :: p[j] >= q) && 3 * q > t
    ensures Load(p, a, i) + q <= t
  {
    var all, n := p + [q], |p|;
    var w := Weights(all, q, t);
    assert all[..n] == p;
    assert Sum(w) == Sum(w[..n]) + w[n];
    LoadHoldsJob(all, other, n);
    assert q <= t;
    forall k | 0 <= k < m ensures Load(w, other, k) <= 2 {
      WithinIsLight(all, other, k, q, t);
    }
    Pigeonhole(w, other, m, 2);
    LoadsAddUp(w, other, m);
    WeightsOfPrefix(all, q, t, n);
    LoadsAddUp(w[..n], a, m);
    if Load(p, a, i) + q > t {
      forall k | 0 <= k < m ensures Load(w[..n], a, k) >= 2 {
        FullIsHeavy(p, a, k, q, t);
      }
      Pigeonhole(w[..n], a, m, 2);
      assert false;
    }
  }

  /** `x` is at most (4m - 1) / 3m of `t`. */
  predicate NearlyWithin(m: nat, x: nat, t: nat) {
    3 * m * x <= (4 * m - 1) * t
  }

  /** One step of the dealing keeps within (4m - 1) / 3m of any assignment of the jobs dealt so far. */
  lemma StepIsBounded(p: seq<nat>, q: nat, a: seq<nat>, m: nat, i: nat, other: seq<nat>, t: nat)
    requires |a| == |p| && Assigns(a, m) && Lightest(p, a, m, i) && Within(p + [q], other, m, t)
    requires forall j | 0 <= j < |p| :: p[j] >= q
    ensures NearlyWithin(m, Load(p, a, i) + q, t)
  {
    var s := Load(p, a, i);
    if 3 * q > t {
      BigLastJobFits(p, q, a, m, i, other, t);
      OptimalIsWithin(m, s + q, t);
    } else {
      LightestIsBelowMean(p, q, a, m, i, other, t);
      SmallIsWithin(m, s, q, t);
    }
  }

  lemma LightestIsBelowMean(p: seq<nat>, q: nat, a: seq<nat>, m: nat, i: nat, other: seq<nat>, t: nat)
    requires |a| == |p| && Assigns(a, m) && Lightest(p, a, m, i) && Within(p + [q], other, m, t)
    ensures m * Load(p, a, i) + q <= m * t
  {
    assert (p + [q])[..|p|] == p;
    Pigeonhole(p, a, m, Load(p, a, i));
    LoadsAddUp(p, a, m);
    Pigeonhole(p + [q], other, m, t);
    LoadsAddUp(p + [q], other, m);
  }

  lemma OptimalIsWithin(m: nat, x: nat, t: nat)
    requires m >= 1 && x <= t
    ensures NearlyWithin(m, x, t)
  {
    Scaled(m, x, t);
    FourThirds(m, t);
    Scaled(m - 1, 0, t);
    assert 3 * m * x == 3 * (m * x);
  }

  lemma SmallIsWithin(m: nat, s: nat, q: nat, t: nat)
    requires m >= 1 && m * s + q <= m * t && 3 * q <= t
    ensures NearlyWithin(m, s + q, t)
  {
    Scaled(m - 1, 3 * q, t);
    FourThirds(m, t);
    assert (m - 1) * (3 * q) == 3 * (m * q) - 3 * q;
    assert 3 * m * (s + q) == 3 * (m * s) + 3 * (m * q);
  }

  lemma Scaled(m: nat, x: nat, y: nat)
    requires x <= y
    ensures m * x <= m * y
  {
  }

  lemma FourThirds(m: int, t: int)
    ensures (4 * m - 1) * t == 3 * (m * t) + (m - 1) * t
  {
  }
}
