/** Splitting the test suite into balanced shards (`scripts/ci_shard_labels.py`). */
module ShardLabels {
  import opened Orders
  import opened Scheduling

  /** A test class and how many tests it holds. */
  datatype ClassCount = ClassCount(name: string, tests: nat)

  /** Largest first, ties by label. */
  predicate Before(a: ClassCount, b: ClassCount) {
    a.tests > b.tests || (a.tests == b.tests && TextLe(a.name, b.name))
  }

  lemma BeforeIsTotal()
    ensures TotalOrder(Before)
  {
    TextLeIsTotal();
    forall a, b | Before(a, b) && Before(b, a) ensures a == b {
    }
  }

  /** The keys of a counter. */
  ghost predicate Distinct(counts: seq<ClassCount>) {
    forall i, j | 0 <= i < j < |counts| :: counts[i].name != counts[j].name
  }

  function Tests(jobs: seq<ClassCount>): (p: seq<nat>)
    ensures |p| == |jobs| && forall j | 0 <= j < |jobs| :: p[j] == jobs[j].tests
  {
    seq(|jobs|, j requires 0 <= j < |jobs| => jobs[j].tests)
  }

  // ---------------------------------------------------------------- dealing

  datatype Dealt = Dealt(shards: seq<seq<string>>, loads: seq<nat>, assign: seq<nat>)

  /** The first of the least among the first `n` loads. */
  function LightestOf(loads: seq<nat>, n: nat): (i: nat)
    requires 1 <= n <= |loads|
    ensures i < n
    ensures forall k | 0 <= k < n :: loads[i] <= loads[k] && (k < i ==> loads[i] < loads[k])
  {
    if n == 1 then 0
    else
      var i := LightestOf(loads, n - 1);
      if loads[n - 1] < loads[i] then n - 1 else i
  }

  function Deal(jobs: seq<ClassCount>, m: nat): (d: Dealt)
    requires m >= 1
    ensures |d.shards| == m && |d.loads| == m && |d.assign| == |jobs|
  {
    if jobs == [] then Dealt(seq(m, _ => []), seq(m, _ => 0), [])
    else
      var d, job := Deal(jobs[..|jobs| - 1], m), jobs[|jobs| - 1];
      var i := LightestOf(d.loads, m);
      Dealt(d.shards[i := d.shards[i] + [job.name]], d.loads[i := d.loads[i] + job.tests], d.assign + [i])
  }

  function SortEach(shards: seq<seq<string>>): (r: seq<seq<string>>)
    ensures |r| == |shards| && forall k | 0 <= k < |shards| :: r[k] == SortedSet(shards[k], TextLe)
  {
    seq(|shards|, k requires 0 <= k < |shards| => SortedSet(shards[k], TextLe))
  }

  function ShardsOf(counts: seq<ClassCount>, m: nat): (shards: seq<seq<string>>)
    requires m >= 1
    ensures |shards| == m
  {
    SortEach(Deal(SortedSet(counts, Before), m).shards)
  }

  /** `min(range(total), key=loads.__getitem__)`. */
  method FindLightest(loads: seq<nat>) returns (i: nat)
    requires |loads| >= 1
    ensures i == LightestOf(loads, |loads|)
  {
    i := 0;
    for k := 1 to |loads|
      invariant i == LightestOf(loads, k)
    {
      if loads[k] < loads[i] {
        i := k;
      }
    }
  }

  lemma DealNext(items: seq<ClassCount>, m: nat, n: nat)
    requires m >= 1 && n < |items|
    ensures var before, after := Deal(items[..n], m), Deal(items[..n + 1], m);
      var i := LightestOf(before.loads, m);
      && after.shards == before.shards[i := before.shards[i] + [items[n].name]]
      && after.loads == before.loads[i := before.loads[i] + items[n].tests]
  {
    assert items[..n + 1][..n] == items[..n];
  }

  /** `shard_labels`: the loop over the classes, largest first. */
  method DealClasses(counts: seq<ClassCount>, total: nat) returns (labels: seq<seq<string>>)
    requires total >= 1
    ensures labels == ShardsOf(counts, total)
  {
    var items := SortedSet(counts, Before);
    var shards: seq<seq<string>> := seq(total, _ => []);
    var loads: seq<nat> := seq(total, _ => 0);
    for n := 0 to |items|
      invariant |shards| == total && |loads| == total
      invariant shards == Deal(items[..n], total).shards && loads == Deal(items[..n], total).loads
    {
      DealNext(items, total, n);
      var i := FindLightest(loads);
      shards := shards[i := shards[i] + [items[n].name]];
      loads := loads[i := loads[i] + items[n].tests];
    }
    assert items[..|items|] == items;
    labels := SortEach(shards);
  }

  // ---------------------------------------------------------------- what was dealt

  /** Each load is the sum of what was dealt to its shard. */
  lemma {:induction false} DealKeepsLoads(jobs: seq<ClassCount>, m: nat)
    requires m >= 1
    ensures Assigns(Deal(jobs, m).assign, m)
    ensures forall k | 0 <= k < m :: Deal(jobs, m).loads[k] == Load(Tests(jobs), Deal(jobs, m).assign, k)
  {
    var d := Deal(jobs, m);
    if jobs == [] {
      assert Tests(jobs) == [];
    } else {
      var n := |jobs| - 1;
      DealKeepsLoads(jobs[..n], m);
      assert Tests(jobs)[..n] == Tests(jobs[..n]);
      assert d.assign[..n] == Deal(jobs[..n], m).assign;
    }
  }

  /** The classes an assignment sends to shard `k`. */
  function NamesAt(jobs: seq<ClassCount>, assign: seq<nat>, k: nat): set<string>
    requires |assign| == |jobs|
  {
    set j | 0 <= j < |jobs| && assign[j] == k :: jobs[j].name
  }

  lemma NamesAtAppends(jobs: seq<ClassCount>, assign: seq<nat>, k: nat)
    requires |assign| == |jobs| && jobs != []
    ensures var n := |jobs| - 1;
      NamesAt(jobs, assign, k)
      == NamesAt(jobs[..n], assign[..n], k) + (if assign[n] == k then {jobs[n].name} else {})
  {
    var n := |jobs| - 1;
    forall j | 0 <= j < n && assign[j] == k ensures jobs[j].name in NamesAt(jobs[..n], assign[..n], k) {
      assert jobs[..n][j].name == jobs[j].name && assign[..n][j] == k;
    }
  }

  /** Shard `k` holds the labels of the classes assigned to it. */
  lemma {:induction false} DealShelves(jobs: seq<ClassCount>, m: nat, k: nat)
    requires m >= 1 && k < m
    ensures Elements(Deal(jobs, m).shards[k]) == NamesAt(jobs, Deal(jobs, m).assign, k)
  {
    if jobs != [] {
      var n := |jobs| - 1;
      var before, d := Deal(jobs[..n], m), Deal(jobs, m);
      DealShelves(jobs[..n], m, k);
      NamesAtAppends(jobs, d.assign, k);
      assert d.assign[..n] == before.assign;
      assert Elements(before.shards[k] + [jobs[n].name]) == Elements(before.shards[k]) + {jobs[n].name};
    }
  }

  /** The first `m` classes go to the `m` shards in turn, so a shard is empty only for want of classes. */
  lemma {:induction false} DealFillsInTurn(jobs: seq<ClassCount>, m: nat, k: nat)
    requires m >= 1 && k < m && forall j | 0 <= j < |jobs| :: jobs[j].tests >= 1
    ensures Deal(jobs, m).shards[k] == [] <==> |jobs| <= k
    ensures Deal(jobs, m).loads[k] == 0 <==> |jobs| <= k
  {
    if jobs != [] {
      var n := |jobs| - 1;
      var loads := Deal(jobs[..n], m).loads;
      forall l: nat | l < m ensures loads[l] == 0 <==> n <= l {
        DealFillsInTurn(jobs[..n], m, l);
      }
      DealFillsInTurn(jobs[..n], m, k);
      assert n < m ==> loads[n] == 0;
    }
  }

  lemma {:induction false} PrefixNeedsLess(p: seq<nat>, a: seq<nat>, k: nat)
    requires |p| == |a| && p != []
    ensures Load(p[..|p| - 1], a[..|a| - 1], k) <= Load(p, a, k)
  {
  }

  lemma PrefixWithin(p: seq<nat>, q: nat, other: seq<nat>, m: nat, t: nat)
    requires Within(p + [q], other, m, t)
    ensures Within(p, other[..|p|], m, t)
  {
    assert (p + [q])[..|p|] == p;
    forall k | 0 <= k < m ensures Load(p, other[..|p|], k) <= t {
      PrefixNeedsLess(p + [q], other, k);
    }
  }

  /** Every load stays within (4m - 1) / 3m of the heaviest shard of any assignment whatever. */
  lemma {:induction false} DealIsNearlyOptimal(jobs: seq<ClassCount>, m: nat, other: seq<nat>, t: nat)
    requires m >= 1 && (forall i, j | 0 <= i < j < |jobs| :: jobs[i].tests >= jobs[j].tests)
    requires Within(Tests(jobs), other, m, t)
    ensures forall k | 0 <= k < m :: NearlyWithin(m, Deal(jobs, m).loads[k], t)
  {
    if jobs == [] {
      OptimalIsWithin(m, 0, t);
    } else {
      var n := |jobs| - 1;
      var p, q, d := Tests(jobs[..n]), jobs[n].tests, Deal(jobs[..n], m);
      assert Tests(jobs) == p + [q];
      PrefixWithin(p, q, other, m, t);
      DealIsNearlyOptimal(jobs[..n], m, other[..n], t);
      DealKeepsLoads(jobs[..n], m);
      StepIsBounded(p, q, d.assign, m, LightestOf(d.loads, m), other, t);
    }
  }

  /** Two shards differ by no more than one largest class. */
  lemma {:induction false} DealIsLevel(jobs: seq<ClassCount>, m: nat, largest: nat)
    requires m >= 1 && forall j | 0 <= j < |jobs| :: jobs[j].tests <= largest
    ensures forall k, l | 0 <= k < m && 0 <= l < m :: Deal(jobs, m).loads[k] - Deal(jobs, m).loads[l] <= largest
  {
    if jobs != [] {
      DealIsLevel(jobs[..|jobs| - 1], m, largest);
    }
  }

  /** `m` times `x` is at most the total and `m - 1` times `c`. */
  predicate NearMean(m: nat, x: nat, total: nat, c: nat) {
    m * x <= total + (m - 1) * c
  }

  /** Loads no further apart than `c` are each near the mean. */
  lemma SpreadBoundsLoad(p: seq<nat>, a: seq<nat>, m: nat, k: nat, c: nat)
    requires |a| == |p| && Assigns(a, m) && k < m
    requires forall l | 0 <= l < m :: Load(p, a, k) - Load(p, a, l) <= c
    ensures NearMean(m, Load(p, a, k), Sum(p), c)
  {
    LoadsAddUp(p, a, m);
    SpreadBelow(p, a, m, k, c);
  }

  lemma {:induction false} SpreadBelow(p: seq<nat>, a: seq<nat>, n: nat, k: nat, c: nat)
    requires |a| == |p| && forall l | 0 <= l < n :: Load(p, a, k) - Load(p, a, l) <= c
    ensures n * Load(p, a, k) <= LoadsBelow(p, a, n) + (if k < n then n - 1 else n) * c
  {
    if n > 0 {
      SpreadBelow(p, a, n - 1, k, c);
      var x := Load(p, a, k);
      assert n * x == (n - 1) * x + x;
      if k < n - 1 {
        assert (n - 1) * c == (n - 2) * c + c;
      } else if k > n - 1 {
        assert n * c == (n - 1) * c + c;
      }
    }
  }

  lemma DealIsNearMean(jobs: seq<ClassCount>, m: nat, largest: nat, k: nat)
    requires m >= 1 && k < m && forall j | 0 <= j < |jobs| :: jobs[j].tests <= largest
    ensures NearMean(m, Deal(jobs, m).loads[k], Sum(Tests(jobs)), largest)
  {
    DealIsLevel(jobs, m, largest);
    DealKeepsLoads(jobs, m);
    SpreadBoundsLoad(Tests(jobs), Deal(jobs, m).assign, m, k, largest);
  }
}
