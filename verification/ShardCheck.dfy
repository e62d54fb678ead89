/** What the shards of a discovered suite are worth, and what `--check` finds
    (`scripts/ci_shard_labels.py`). */
module ShardCheck {
  import opened Orders
  import opened Scheduling
  import opened ShardLabels

  /** A discovered test: its id, and the label of the class it belongs to. */
  datatype Test = Test(id: string, cls: string)

  /** The ids of the tests in the classes `labels`. */
  function Of(suite: seq<Test>, labels: set<string>): multiset<string> {
    if suite == [] then multiset{}
    else
      var t := suite[|suite| - 1];
      Of(suite[..|suite| - 1], labels) + (if t.cls in labels then multiset{t.id} else multiset{})
  }

  function Classes(suite: seq<Test>): set<string> {
    set j | 0 <= j < |suite| :: suite[j].cls
  }

  function Ids(suite: seq<Test>): multiset<string> {
    Of(suite, Classes(suite))
  }

  lemma {:induction false} OfUnion(suite: seq<Test>, a: set<string>, b: set<string>)
    requires a !! b
    ensures Of(suite, a + b) == Of(suite, a) + Of(suite, b)
  {
    if suite != [] {
      OfUnion(suite[..|suite| - 1], a, b);
    }
  }

  lemma {:induction false} OfIsMonotone(suite: seq<Test>, a: set<string>, b: set<string>)
    requires a * Classes(suite) <= b
    ensures Of(suite, a) <= Of(suite, b)
  {
    if suite != [] {
      var n := |suite| - 1;
      forall x | x in a * Classes(suite[..n]) ensures x in b {
        var j :| 0 <= j < n && suite[..n][j].cls == x;
        assert suite[j].cls == x;
      }
      OfIsMonotone(suite[..n], a, b);
      assert suite[n].cls in Classes(suite);
    }
  }

  lemma OfAll(suite: seq<Test>, labels: set<string>)
    requires Classes(suite) <= labels
    ensures Of(suite, labels) == Ids(suite)
  {
    OfIsMonotone(suite, labels, Classes(suite));
    OfIsMonotone(suite, Classes(suite), labels);
  }

  // ---------------------------------------------------------------- counting

  function Increment(counts: seq<ClassCount>, name: string): seq<ClassCount> {
    if counts == [] then [ClassCount(name, 1)]
    else if counts[0].name == name then [ClassCount(name, counts[0].tests + 1)] + counts[1..]
    else [counts[0]] + Increment(counts[1..], name)
  }

  /** `Counter(_class_label(t) for t in suite)`. */
  function CountsOf(suite: seq<Test>): seq<ClassCount> {
    if suite == [] then [] else Increment(CountsOf(suite[..|suite| - 1]), suite[|suite| - 1].cls)
  }

  function NameSet(counts: seq<ClassCount>): set<string> {
    set c | c in counts :: c.name
  }

  /** The count of `x`, zero when it has none. */
  function CountIn(counts: seq<ClassCount>, x: string): nat {
    if counts == [] then 0 else if counts[0].name == x then counts[0].tests else CountIn(counts[1..], x)
  }

  lemma {:induction false} IncrementCounts(counts: seq<ClassCount>, name: string, x: string)
    ensures CountIn(Increment(counts, name), x) == CountIn(counts, x) + (if x == name then 1 else 0)
  {
    if counts != [] && counts[0].name != name {
      IncrementCounts(counts[1..], name, x);
    }
  }

  lemma ConsIsDistinct(head: ClassCount, rest: seq<ClassCount>)
    ensures NameSet([head] + rest) == NameSet(rest) + {head.name}
    ensures Distinct(rest) && head.name !in NameSet(rest) ==> Distinct([head] + rest)
    ensures Distinct([head] + rest) ==> Distinct(rest) && head.name !in NameSet(rest)
  {
    var all := [head] + rest;
    forall i | 0 <= i < |rest| ensures all[i + 1] == rest[i] && rest[i].name in NameSet(rest) {
      assert rest[i] in rest;
    }
    assert all[0] == head;
    assert forall c :: c in all <==> c == head || c in rest;
  }

  lemma {:induction false} IncrementIsDistinct(counts: seq<ClassCount>, name: string)
    requires Distinct(counts) && forall c | c in counts :: c.tests >= 1
    ensures Distinct(Increment(counts, name)) && NameSet(Increment(counts, name)) == NameSet(counts) + {name}
    ensures forall c | c in Increment(counts, name) :: c.tests >= 1
  {
    if counts != [] {
      var rest := counts[1..];
      assert counts == [counts[0]] + rest;
      ConsIsDistinct(counts[0], rest);
      if counts[0].name != name {
        IncrementIsDistinct(rest, name);
        ConsIsDistinct(counts[0], Increment(rest, name));
      } else {
        ConsIsDistinct(ClassCount(name, counts[0].tests + 1), rest);
      }
    }
  }

  lemma {:induction false} CountOfEntry(counts: seq<ClassCount>, c: ClassCount)
    requires Distinct(counts) && c in counts
    ensures CountIn(counts, c.name) == c.tests
  {
    var rest := counts[1..];
    assert counts == [counts[0]] + rest;
    ConsIsDistinct(counts[0], rest);
    if c != counts[0] {
      assert c in rest;
      CountOfEntry(rest, c);
    }
  }

  lemma {:induction false} CountsAreDistinct(suite: seq<Test>)
    ensures Distinct(CountsOf(suite)) && NameSet(CountsOf(suite)) == Classes(suite)
    ensures forall c | c in CountsOf(suite) :: c.tests >= 1
  {
    if suite != [] {
      var n := |suite| - 1;
      CountsAreDistinct(suite[..n]);
      IncrementIsDistinct(CountsOf(suite[..n]), suite[n].cls);
      ClassesAppend(suite[..n], suite[n]);
      assert suite == suite[..n] + [suite[n]];
    }
  }

  lemma ClassesAppend(suite: seq<Test>, t: Test)
    ensures Classes(suite + [t]) == Classes(suite) + {t.cls}
  {
    var all := suite + [t];
    assert all[|suite|] == t;
    forall x | x in Classes(suite) ensures x in Classes(all) {
      var j :| 0 <= j < |suite| && suite[j].cls == x;
      assert all[j].cls == x;
    }
  }

  lemma {:induction false} CountsAddUp(suite: seq<Test>, x: string)
    ensures CountIn(CountsOf(suite), x) == |Of(suite, {x})|
  {
    if suite != [] {
      var n := |suite| - 1;
      CountsAddUp(suite[..n], x);
      IncrementCounts(CountsOf(suite[..n]), suite[n].cls, x);
    }
  }

  /** Each class is counted once, by the number of its tests, which is never zero. */
  lemma CountsAreExact(suite: seq<Test>)
    ensures Distinct(CountsOf(suite)) && NameSet(CountsOf(suite)) == Classes(suite)
    ensures forall c | c in CountsOf(suite) :: c.tests == |Of(suite, {c.name})| && c.tests >= 1
  {
    CountsAreDistinct(suite);
    forall c | c in CountsOf(suite) ensures c.tests == |Of(suite, {c.name})| {
      CountOfEntry(CountsOf(suite), c);
      CountsAddUp(suite, c.name);
    }
  }

  lemma {:induction false} NoLabels(suite: seq<Test>)
    ensures Of(suite, {}) == multiset{}
  {
    if suite != [] {
      NoLabels(suite[..|suite| - 1]);
    }
  }

  // ---------------------------------------------------------------- the shards of a suite

  /** The classes of the suite in the order they are dealt. */
  function Jobs(suite: seq<Test>): seq<ClassCount> {
    SortedSet(CountsOf(suite), Before)
  }

  /** `shard_labels(m)` when discovery finds `suite`. */
  function Shards(suite: seq<Test>, m: nat): (shards: seq<seq<string>>)
    requires m >= 1
    ensures |shards| == m
  {
    ShardsOf(CountsOf(suite), m)
  }

  ghost predicate Exact(suite: seq<Test>, jobs: seq<ClassCount>) {
    Distinct(jobs) && forall c | c in jobs :: c.tests == |Of(suite, {c.name})| && c.tests >= 1
  }

  lemma JobsAreExact(suite: seq<Test>)
    ensures Exact(suite, Jobs(suite)) && NameSet(Jobs(suite)) == Classes(suite)
    ensures forall i, j | 0 <= i < j < |Jobs(suite)| :: Jobs(suite)[i].tests >= Jobs(suite)[j].tests
  {
    var counts, jobs := CountsOf(suite), Jobs(suite);
    BeforeIsTotal();
    SortedSetSorts(counts, Before);
    CountsAreExact(suite);
    forall c ensures c in jobs <==> c in counts {
      assert c in Elements(jobs) <==> c in Elements(counts);
    }
    forall i, j | 0 <= i < j < |jobs| ensures jobs[i].name != jobs[j].name {
      assert jobs[i] in counts && jobs[j] in counts;
      DifferentEntries(counts, jobs[i], jobs[j]);
    }
  }

  lemma DifferentEntries(counts: seq<ClassCount>, a: ClassCount, b: ClassCount)
    requires Distinct(counts) && a in counts && b in counts && a != b
    ensures a.name != b.name
  {
  }

  lemma {:induction false} DistinctSize(counts: seq<ClassCount>)
    requires Distinct(counts)
    ensures |NameSet(counts)| == |counts|
  {
    if counts != [] {
      assert counts == [counts[0]] + counts[1..];
      ConsIsDistinct(counts[0], counts[1..]);
      DistinctSize(counts[1..]);
    }
  }

  /** The load of a machine is the number of tests of the classes sent to it. */
  lemma {:induction false} LoadCounts(suite: seq<Test>, jobs: seq<ClassCount>, a: seq<nat>, k: nat)
    requires |a| == |jobs| && Exact(suite, jobs)
    ensures Load(Tests(jobs), a, k) == |Of(suite, NamesAt(jobs, a, k))|
  {
    if jobs == [] {
      NoLabels(suite);
      assert NamesAt(jobs, a, k) == {};
    } else {
      var n := |jobs| - 1;
      LoadCounts(suite, jobs[..n], a[..n], k);
      assert Tests(jobs)[..n] == Tests(jobs[..n]);
      NamesAtAppends(jobs, a, k);
      var before := NamesAt(jobs[..n], a[..n], k);
      assert jobs[n] in jobs && Load(Tests(jobs)[..n], a[..n], k) == |Of(suite, before)|;
      if a[n] == k {
        assert NamesAt(jobs, a, k) == before + {jobs[n].name};
        OfUnion(suite, before, {jobs[n].name});
      } else {
        assert NamesAt(jobs, a, k) == before;
      }
    }
  }

  /** What shard `k` holds, and how many tests that is. */
  lemma ShardHolds(suite: seq<Test>, m: nat, k: nat)
    requires m >= 1 && k < m
    ensures StrictlySorted(Shards(suite, m)[k], TextLe)
    ensures Elements(Shards(suite, m)[k]) == NamesAt(Jobs(suite), Deal(Jobs(suite), m).assign, k)
    ensures |Of(suite, Elements(Shards(suite, m)[k]))| == Deal(Jobs(suite), m).loads[k]
  {
    var jobs := Jobs(suite);
    TextLeIsTotal();
    SortedSetSorts(Deal(jobs, m).shards[k], TextLe);
    DealShelves(jobs, m, k);
    JobsAreExact(suite);
    DealKeepsLoads(jobs, m);
    LoadCounts(suite, jobs, Deal(jobs, m).assign, k);
  }

  lemma NameIsOnce(jobs: seq<ClassCount>, a: seq<nat>, m: nat, x: string)
    requires |a| == |jobs| && Distinct(jobs) && Assigns(a, m)
    ensures x in NameSet(jobs) <==> exists k :: 0 <= k < m && x in NamesAt(jobs, a, k)
    ensures forall k, l | 0 <= k < l < m :: !(x in NamesAt(jobs, a, k) && x in NamesAt(jobs, a, l))
  {
    if x in NameSet(jobs) {
      var j :| 0 <= j < |jobs| && jobs[j].name == x;
      assert x in NamesAt(jobs, a, a[j]);
    }
  }

  /** Every class of the suite is in exactly one shard, and nothing else is. */
  lemma EveryClassInOneShard(suite: seq<Test>, m: nat, x: string)
    requires m >= 1
    ensures x in Classes(suite) <==> exists k :: 0 <= k < m && x in Shards(suite, m)[k]
    ensures forall k, l | 0 <= k < l < m :: !(x in Shards(suite, m)[k] && x in Shards(suite, m)[l])
  {
    var jobs, shards := Jobs(suite), Shards(suite, m);
    var a := Deal(jobs, m).assign;
    JobsAreExact(suite);
    DealKeepsLoads(jobs, m);
    forall k | 0 <= k < m ensures x in shards[k] <==> x in NamesAt(jobs, a, k) {
      ShardHolds(suite, m, k);
      assert x in Elements(shards[k]) <==> x in shards[k];
    }
    NameIsOnce(jobs, a, m, x);
  }

  function SentTo(suite: seq<Test>, other: string -> nat, k: nat): set<string> {
    set x | x in Classes(suite) && other(x) == k
  }

  /** Another split of the classes, as an assignment of the jobs. */
  function Assigned(jobs: seq<ClassCount>, other: string -> nat): (b: seq<nat>)
    ensures |b| == |jobs| && forall j | 0 <= j < |jobs| :: b[j] == other(jobs[j].name)
  {
    if jobs == [] then [] else Assigned(jobs[..|jobs| - 1], other) + [other(jobs[|jobs| - 1].name)]
  }

  lemma OtherIsWithin(suite: seq<Test>, m: nat, other: string -> nat, t: nat)
    requires forall x | x in Classes(suite) :: other(x) < m
    requires forall l | 0 <= l < m :: |Of(suite, SentTo(suite, other, l))| <= t
    ensures Within(Tests(Jobs(suite)), Assigned(Jobs(suite), other), m, t)
  {
    var jobs := Jobs(suite);
    var b := Assigned(jobs, other);
    JobsAreExact(suite);
    forall j | 0 <= j < |jobs| ensures b[j] < m {
      assert jobs[j].name in NameSet(jobs);
    }
    forall l | 0 <= l < m ensures Load(Tests(jobs), b, l) <= t {
      LoadCounts(suite, jobs, b, l);
      assert NamesAt(jobs, b, l) == SentTo(suite, other, l) by {
        SentIsNamed(suite, jobs, other, l);
      }
    }
  }

  lemma SentIsNamed(suite: seq<Test>, jobs: seq<ClassCount>, other: string -> nat, l: nat)
    requires NameSet(jobs) == Classes(suite)
    ensures NamesAt(jobs, Assigned(jobs, other), l) == SentTo(suite, other, l)
  {
    var b := Assigned(jobs, other);
    forall x ensures x in NamesAt(jobs, b, l) <==> x in NameSet(jobs) && other(x) == l {
      if x in NameSet(jobs) && other(x) == l {
        var c :| c in jobs && c.name == x;
        var j :| 0 <= j < |jobs| && jobs[j] == c;
        assert b[j] == l;
      }
    }
  }

  /** The heaviest shard has at most (4m - 1) / 3m of the tests of the heaviest shard of any other split. */
  lemma ShardIsNearlyOptimal(suite: seq<Test>, m: nat, k: nat, other: string -> nat, t: nat)
    requires m >= 1 && k < m
    requires forall x | x in Classes(suite) :: other(x) < m
    requires forall l | 0 <= l < m :: |Of(suite, SentTo(suite, other, l))| <= t
    ensures 3 * m * |Of(suite, Elements(Shards(suite, m)[k]))| <= (4 * m - 1) * t
  {
    JobsAreExact(suite);
    OtherIsWithin(suite, m, other, t);
    DealIsNearlyOptimal(Jobs(suite), m, Assigned(Jobs(suite), other), t);
    ShardHolds(suite, m, k);
    assert NearlyWithin(m, Deal(Jobs(suite), m).loads[k], t);
  }

  /** Shards differ by at most one largest class, and none exceeds the mean by more than (m - 1) / m of it. */
  lemma ShardsAreLevel(suite: seq<Test>, m: nat, k: nat, l: nat, largest: nat)
    requires m >= 1 && k < m && l < m
    requires forall x | x in Classes(suite) :: |Of(suite, {x})| <= largest
    ensures |Of(suite, Elements(Shards(suite, m)[k]))| - |Of(suite, Elements(Shards(suite, m)[l]))| <= largest
    ensures m * |Of(suite, Elements(Shards(suite, m)[k]))| <= |suite| + (m - 1) * largest
  {
    var jobs := Jobs(suite);
    JobsAreExact(suite);
    forall j | 0 <= j < |jobs| ensures jobs[j].tests <= largest {
      assert jobs[j].name in NameSet(jobs);
    }
    ShardHolds(suite, m, k);
    ShardHolds(suite, m, l);
    DealIsLevel(jobs, m, largest);
    DealIsNearMean(jobs, m, largest, k);
    TestsAddUp(suite);
    assert NearMean(m, Deal(jobs, m).loads[k], |suite|, largest);
  }

  /** The classes between them hold every test. */
  lemma TestsAddUp(suite: seq<Test>)
    ensures Sum(Tests(Jobs(suite))) == |suite|
  {
    var jobs := Jobs(suite);
    var one := seq(|jobs|, _ => 0);
    JobsAreExact(suite);
    LoadsAddUp(Tests(jobs), one, 1);
    assert LoadsBelow(Tests(jobs), one, 1) == LoadsBelow(Tests(jobs), one, 0) + Load(Tests(jobs), one, 0);
    LoadCounts(suite, jobs, one, 0);
    assert NamesAt(jobs, one, 0) == NameSet(jobs);
    OfSize(suite, Classes(suite));
  }

  lemma {:induction false} OfSize(suite: seq<Test>, labels: set<string>)
    requires Classes(suite) <= labels
    ensures |Of(suite, labels)| == |suite|
  {
    if suite != [] {
      var n := |suite| - 1;
      assert Classes(suite) == Classes(suite[..n]) + {suite[n].cls};
      OfSize(suite[..n], labels);
    }
  }

  /** The split depends on how many tests each class has, not on the order they were discovered in. */
  lemma DiscoveryOrderDoesNotMatter(a: seq<Test>, b: seq<Test>, m: nat)
    requires m >= 1 && forall x :: |Of(a, {x})| == |Of(b, {x})|
    ensures Shards(a, m) == Shards(b, m)
  {
    BeforeIsTotal();
    CountsWithin(a, b);
    CountsWithin(b, a);
    assert Elements(CountsOf(a)) == Elements(CountsOf(b));
    SortedSetDependsOnElements(CountsOf(a), CountsOf(b), Before);
  }

  lemma CountsWithin(a: seq<Test>, b: seq<Test>)
    requires forall x :: |Of(a, {x})| == |Of(b, {x})|
    ensures forall c | c in CountsOf(a) :: c in CountsOf(b)
  {
    CountsAreExact(a);
    CountsAreExact(b);
    forall c | c in CountsOf(a) ensures c in CountsOf(b) {
      assert |Of(b, {c.name})| >= 1;
      NoneCounted(b, c.name);
      assert c.name in NameSet(CountsOf(b));
      var d :| d in CountsOf(b) && d.name == c.name;
      assert d == c;
    }
  }

  lemma NoneCounted(suite: seq<Test>, name: string)
    ensures name !in Classes(suite) ==> Of(suite, {name}) == multiset{}
  {
    if name !in Classes(suite) {
      OfIsMonotone(suite, {name}, {});
      NoLabels(suite);
    }
  }

  // ---------------------------------------------------------------- the check

  /** `_discover(labels)`: given no labels, the runner finds the whole suite. */
  function Discovered(suite: seq<Test>, labels: seq<string>): multiset<string> {
    if labels == [] then Ids(suite) else Of(suite, Elements(labels))
  }

  /** What the shards find, together. */
  function Seen(suite: seq<Test>, shards: seq<seq<string>>): multiset<string> {
    if shards == [] then multiset{}
    else Seen(suite, shards[..|shards| - 1]) + Discovered(suite, shards[|shards| - 1])
  }

  /** No test id is discovered twice. */
  ghost predicate NoneTwice(ids: multiset<string>) {
    forall x | x in ids :: ids[x] == 1
  }

  function Union(shards: seq<seq<string>>): set<string> {
    if shards == [] then {} else Union(shards[..|shards| - 1]) + Elements(shards[|shards| - 1])
  }

  lemma {:induction false} UnionHolds(shards: seq<seq<string>>, x: string)
    ensures x in Union(shards) <==> exists k :: 0 <= k < |shards| && x in shards[k]
  {
    if shards != [] {
      var n := |shards| - 1;
      UnionHolds(shards[..n], x);
      if x in Union(shards[..n]) {
        var k :| 0 <= k < n && x in shards[..n][k];
        assert x in shards[k];
      }
      if k :| 0 <= k < n && x in shards[k] {
        assert x in shards[..n][k];
      }
    }
  }

  ghost predicate Apart(shards: seq<seq<string>>) {
    forall k, l | 0 <= k < l < |shards| :: Elements(shards[k]) !! Elements(shards[l])
  }

  /** Shards that are disjoint and not empty find the tests of their classes, once each. */
  lemma {:induction false} SeenOfDisjoint(suite: seq<Test>, shards: seq<seq<string>>)
    requires Apart(shards) && forall k | 0 <= k < |shards| :: shards[k] != []
    ensures Seen(suite, shards) == Of(suite, Union(shards))
  {
    if shards == [] {
      NoLabels(suite);
    } else {
      var n := |shards| - 1;
      SeenOfDisjoint(suite, shards[..n]);
      forall x | x in Union(shards[..n]) ensures x !in Elements(shards[n]) {
        UnionHolds(shards[..n], x);
        var k :| 0 <= k < n && x in shards[..n][k];
        assert x in Elements(shards[k]);
      }
      OfUnion(suite, Union(shards[..n]), Elements(shards[n]));
    }
  }

  lemma ShardsAreApart(suite: seq<Test>, m: nat)
    requires m >= 1
    ensures Apart(Shards(suite, m)) && Classes(suite) <= Union(Shards(suite, m))
  {
    var shards := Shards(suite, m);
    forall k, l | 0 <= k < l < m ensures Elements(shards[k]) !! Elements(shards[l]) {
      forall x | x in Elements(shards[k]) ensures x !in Elements(shards[l]) {
        EveryClassInOneShard(suite, m, x);
      }
    }
    forall x | x in Classes(suite) ensures x in Union(shards) {
      EveryClassInOneShard(suite, m, x);
      UnionHolds(shards, x);
    }
  }

  /** With a class for every shard, the shards find the whole suite and nothing twice over. */
  lemma SeenIsTheSuite(suite: seq<Test>, m: nat)
    requires 1 <= m <= |Classes(suite)|
    ensures Seen(suite, Shards(suite, m)) == Ids(suite)
  {
    forall k | 0 <= k < m ensures Shards(suite, m)[k] != [] {
      ShardIsEmptyIff(suite, m, k);
    }
    ShardsAreApart(suite, m);
    SeenOfDisjoint(suite, Shards(suite, m));
    OfAll(suite, Union(Shards(suite, m)));
  }

  lemma {:induction false} ShardIsSeen(suite: seq<Test>, shards: seq<seq<string>>, k: nat)
    requires k < |shards|
    ensures Discovered(suite, shards[k]) <= Seen(suite, shards)
  {
    if k < |shards| - 1 {
      ShardIsSeen(suite, shards[..|shards| - 1], k);
    }
  }

  lemma ShardIsEmptyIff(suite: seq<Test>, m: nat, k: nat)
    requires k < m
    ensures |Of(suite, Elements(Shards(suite, m)[k]))| == 0 <==> |Classes(suite)| <= k
    ensures Shards(suite, m)[k] == [] <==> |Classes(suite)| <= k
  {
    JobsAreExact(suite);
    DistinctSize(Jobs(suite));
    DealFillsInTurn(Jobs(suite), m, k);
    ShardHolds(suite, m, k);
    NoLabels(suite);
    if |Classes(suite)| <= k {
      assert Deal(Jobs(suite), m).shards[k] == [];
      assert Shards(suite, m)[k] == SortedSet([], TextLe);
    }
  }

  lemma LastShardIsEmpty(suite: seq<Test>, m: nat)
    requires m > |Classes(suite)| && suite != []
    ensures Shards(suite, m)[m - 1] == [] && m >= 2
    ensures Shards(suite, m)[0] != [] && Of(suite, Elements(Shards(suite, m)[0])) != multiset{}
  {
    assert suite[0].cls in Classes(suite);
    ShardIsEmptyIff(suite, m, m - 1);
    ShardIsEmptyIff(suite, m, 0);
  }

  /** With a shard to spare, some test is found twice: in its own shard and in an empty one. */
  lemma EmptyShardSeesTwice(suite: seq<Test>, m: nat)
    requires m > |Classes(suite)| && suite != []
    ensures !NoneTwice(Seen(suite, Shards(suite, m)))
  {
    var shards := Shards(suite, m);
    LastShardIsEmpty(suite, m);
    var first := Of(suite, Elements(shards[0]));
    var x :| x in first;
    OfIsMonotone(suite, Elements(shards[0]), Classes(suite));
    ShardIsSeen(suite, shards[..m - 1], 0);
    assert Seen(suite, shards) == Seen(suite, shards[..m - 1]) + Ids(suite);
    assert Seen(suite, shards)[x] >= 2;
  }

  lemma {:induction false} NothingToSee(shards: seq<seq<string>>)
    ensures Seen([], shards) == multiset{}
  {
    if shards != [] {
      NothingToSee(shards[..|shards| - 1]);
    }
  }

  /** The verdict of the check, from what the shards find. */
  ghost predicate Covers(full: multiset<string>, seen: multiset<string>) {
    (forall x :: x in full <==> x in seen) && NoneTwice(seen)
  }

  lemma CheckIsExact(suite: seq<Test>, m: nat)
    requires m >= 1
    ensures Covers(Ids(suite), Seen(suite, Shards(suite, m)))
         <==> NoneTwice(Ids(suite)) && (suite == [] || m <= |Classes(suite)|)
  {
    if suite == [] {
      NothingToSee(Shards(suite, m));
    } else if m <= |Classes(suite)| {
      SeenIsTheSuite(suite, m);
    } else {
      EmptyShardSeesTwice(suite, m);
    }
  }

  /** `check`: it passes exactly when no test id occurs twice in the suite and there are at least as
      many classes as shards; an empty shard is rediscovered as the whole suite. */
  method Check(suite: seq<Test>, total: nat) returns (ok: bool)
    requires total >= 1
    ensures ok <==> NoneTwice(Ids(suite)) && (suite == [] || total <= |Classes(suite)|)
  {
    var full := Ids(suite);
    var seen: multiset<string> := multiset{};
    var shards := DealClasses(CountsOf(suite), total);
    for i := 0 to |shards|
      invariant seen == Seen(suite, shards[..i])
    {
      assert shards[..i + 1][..i] == shards[..i];
      seen := seen + Discovered(suite, shards[i]);
    }
    assert shards[..|shards|] == shards;
    var missing := set x | x in full && x !in seen;
    var extra := set x | x in seen && x !in full;
    var dupes := set x | x in seen && seen[x] > 1;
    ok := missing == {} && extra == {} && dupes == {};
    VerdictIsCovers(full, seen, missing, extra, dupes);
    CheckIsExact(suite, total);
  }

  lemma VerdictIsCovers(full: multiset<string>, seen: multiset<string>, missing: set<string>, extra: set<string>,
      dupes: set<string>)
    requires missing == (set x | x in full && x !in seen) && extra == (set x | x in seen && x !in full)
    requires dupes == (set x | x in seen && seen[x] > 1)
    ensures missing == {} && extra == {} && dupes == {} <==> Covers(full, seen)
  {
    if Covers(full, seen) {
      assert forall x :: x !in dupes;
    } else if missing == {} && extra == {} && dupes == {} {
      forall x ensures x in full <==> x in seen {
        assert x !in missing && x !in extra;
      }
      forall x | x in seen ensures seen[x] == 1 {
        assert x !in dupes;
      }
      assert false;
    }
  }

  /** The classes are dealt largest first, and by label where they are of one size. */
  lemma JobsAreInOrder(suite: seq<Test>, i: nat, j: nat)
    requires i < j < |Jobs(suite)|
    ensures var a, b := Jobs(suite)[i], Jobs(suite)[j];
      a.tests > b.tests || (a.tests == b.tests && a.name != b.name && TextLe(a.name, b.name))
  {
    BeforeIsTotal();
    SortedSetSorts(CountsOf(suite), Before);
  }
}
