/** The nightly pass: file what is close to an open cluster, open a cluster for each unusual group of the rest
    (`detect` in `services/anomalies/detect.py`). */
module Detection {
  import opened Orders
  import opened Grouping

  const SAME: real := 0.6
  const MIN_COMPANIES: nat := 3
  const SPIKE: nat := 2

  /** A recent report: its company, whether no evidence row holds it yet, and whether anybody may read it. */
  datatype Report = Report(company: (Option<nat>, Option<nat>), unfiled: bool, shared: bool)

  datatype Filed = Filed(cluster: nat, report: nat)

  ghost predicate Matches(scores: seq<real>) {
    exists k :: 0 <= k < |scores| && scores[k] >= SAME
  }

  ghost predicate IsNearest(scores: seq<real>, c: nat) {
    && c < |scores| && scores[c] >= SAME
    && forall k | 0 <= k < |scores| :: scores[k] <= scores[c] && (k > c ==> scores[k] < scores[c])
  }

  /** The reports close to no open cluster. */
  ghost function Unmatched(scores: seq<seq<real>>): seq<nat> {
    if scores == [] then []
    else
      var n := |scores| - 1;
      Unmatched(scores[..n]) + (if Matches(scores[n]) then [] else [n])
  }

  /** What the first loop has filed of the first `n` reports: those close to an open cluster, once each. */
  ghost predicate Files(reports: seq<Report>, scores: seq<seq<real>>, n: nat, filed: seq<Filed>)
    requires n <= |reports| == |scores|
  {
    && (forall e | e in filed :: e.report < n && reports[e.report].unfiled && IsNearest(scores[e.report], e.cluster))
    && (forall a, b | 0 <= a < b < |filed| :: filed[a].report < filed[b].report)
    && (forall i | 0 <= i < n && reports[i].unfiled && Matches(scores[i]) :: exists e :: e in filed && e.report == i)
  }

  lemma FilesNext(reports: seq<Report>, scores: seq<seq<real>>, n: nat, filed: seq<Filed>, c: nat)
    requires n < |reports| == |scores| && Files(reports, scores, n, filed)
    ensures IsNearest(scores[n], c) && reports[n].unfiled ==> Files(reports, scores, n + 1, filed + [Filed(c, n)])
    ensures !Matches(scores[n]) || !reports[n].unfiled ==> Files(reports, scores, n + 1, filed)
  {
    var after := filed + [Filed(c, n)];
    if IsNearest(scores[n], c) && reports[n].unfiled {
      forall i | 0 <= i < n + 1 && reports[i].unfiled && Matches(scores[i])
        ensures exists e :: e in after && e.report == i
      {
        if i < n {
          var e :| e in filed && e.report == i;
          assert e in after;
        } else {
          assert Filed(c, n) in after;
        }
      }
      assert forall a | 0 <= a < |filed| :: filed[a] in filed;
    }
  }

  /** The first loop: each report that is close to an open cluster is filed under the nearest, once; the rest
      are left for grouping. */
  method FileMatched(reports: seq<Report>, scores: seq<seq<real>>) returns (filed: seq<Filed>, rest: seq<nat>)
    requires |scores| == |reports|
    ensures rest == Unmatched(scores)
    ensures forall e | e in filed ::
      e.report < |reports| && reports[e.report].unfiled && IsNearest(scores[e.report], e.cluster)
    ensures forall a, b | 0 <= a < b < |filed| :: filed[a].report < filed[b].report
    ensures forall i | 0 <= i < |reports| && reports[i].unfiled && Matches(scores[i]) ::
      exists e :: e in filed && e.report == i
  {
    filed, rest := [], [];
    for i := 0 to |reports|
      invariant rest == Unmatched(scores[..i])
      invariant Files(reports, scores, i, filed)
    {
      assert scores[..i + 1][..i] == scores[..i];
      var best := Nearest(scores[i], SAME);
      FilesNext(reports, scores, i, filed, if best.Some? then best.value else 0);
      if best.None? {
        rest := rest + [i];
      } else {
        assert IsNearest(scores[i], best.value) && Matches(scores[i]);
        if reports[i].unfiled {
          filed := filed + [Filed(best.value, i)];
        }
      }
    }
    assert scores[..|scores|] == scores;
  }

  predicate InRange(members: seq<nat>, n: nat) {
    forall i | 0 <= i < |members| :: members[i] < n
  }

  function Companies(reports: seq<Report>, members: seq<nat>): set<(Option<nat>, Option<nat>)>
    requires InRange(members, |reports|)
  {
    set i | 0 <= i < |members| :: reports[members[i]].company
  }

  /** At least three companies and three reports, and at least twice the earlier count. */
  predicate Unusual(reports: seq<Report>, before: nat, members: seq<nat>)
    requires InRange(members, |reports|)
  {
    |Companies(reports, members)| >= MIN_COMPANIES && |members| >= MIN_COMPANIES && |members| >= before * SPIKE
  }

  predicate HasShared(reports: seq<Report>, members: seq<nat>)
    requires InRange(members, |reports|)
  {
    exists i :: 0 <= i < |members| && reports[members[i]].shared
  }

  ghost predicate AllInRange(groups: Groups, n: nat) {
    forall k | 0 <= k < |groups| :: InRange(groups[k], n)
  }

  /** The numbers of the unusual groups, with `before[k]` earlier reports close to group `k`. */
  ghost function News(reports: seq<Report>, groups: Groups, before: seq<nat>): nat -> bool
    requires |before| == |groups| && AllInRange(groups, |reports|)
  {
    (k: nat) => k < |groups| && Unusual(reports, before[k], groups[k])
  }

  /** A group is named by the model when anybody may read a report of it. */
  lemma SharedIs(reports: seq<Report>, members: seq<nat>)
    requires InRange(members, |reports|)
    ensures HasShared(reports, members) <==> exists m: nat :: m < |reports| && m in members && reports[m].shared
  {
    if HasShared(reports, members) {
      var i :| 0 <= i < |members| && reports[members[i]].shared;
      assert members[i] in members;
    }
    if m: nat :| m < |reports| && m in members && reports[m].shared {
      var i :| 0 <= i < |members| && members[i] == m;
    }
  }

  lemma KeptNextGroup(groups: Groups, keep: nat -> bool, k: nat)
    requires k < |groups|
    ensures KeptGroups(groups[..k + 1], keep)
         == if keep(k) then KeptGroups(groups[..k], keep) + [groups[k]] else KeptGroups(groups[..k], keep)
  {
    KeptSnoc(groups[..k], groups[k], keep);
    assert groups[..k + 1] == groups[..k] + [groups[k]];
  }

  /** The two tests of a group, one after the other. */
  method IsUnusual(reports: seq<Report>, before: nat, members: seq<nat>) returns (unusual: bool)
    requires InRange(members, |reports|)
    ensures unusual == Unusual(reports, before, members)
  {
    if |Companies(reports, members)| < MIN_COMPANIES {
      return false;
    }
    var least := if before * SPIKE > MIN_COMPANIES then before * SPIKE else MIN_COMPANIES;
    unusual := |members| >= least;
  }

  /** The second loop: a cluster for each unusual group, in order, until the model that names them stops. A
      group with nothing shared in it is named without the model. */
  method OpenClusters(reports: seq<Report>, groups: Groups, before: seq<nat>, answers: seq<bool>)
    returns (found: Groups, stopped: bool)
    requires |before| == |answers| == |groups| && AllInRange(groups, |reports|)
    ensures !stopped ==> found == KeptGroups(groups, News(reports, groups, before))
    ensures stopped ==> exists k ::
      && 0 <= k < |groups| && found == KeptGroups(groups[..k], News(reports, groups, before))
      && Unusual(reports, before[k], groups[k]) && HasShared(reports, groups[k]) && !answers[k]
  {
    found, stopped := [], false;
    ghost var news := News(reports, groups, before);
    for k := 0 to |groups|
      invariant found == KeptGroups(groups[..k], news)
    {
      KeptNextGroup(groups, news, k);
      var unusual := IsUnusual(reports, before[k], groups[k]);
      if !unusual {
        continue;
      }
      if HasShared(reports, groups[k]) && !answers[k] {
        return found, true;
      }
      found := found + [groups[k]];
    }
    assert groups[..|groups|] == groups;
  }

  lemma FlatSnoc(front: Groups, g: seq<nat>)
    ensures Flat(front + [g]) == Flat(front) + multiset(g)
  {
    assert (front + [g])[..|front|] == front;
  }

  lemma {:induction false} KeptIsPart(groups: Groups, keep: nat -> bool)
    ensures Flat(KeptGroups(groups, keep)) <= Flat(groups)
  {
    if groups != [] {
      var n := |groups| - 1;
      var front, last := groups[..n], groups[n];
      KeptIsPart(front, keep);
      assert groups == front + [last];
      FlatSnoc(front, last);
      FlatSnoc(KeptGroups(front, keep), last);
      assert KeptGroups(groups, keep) == KeptGroups(front, keep) + (if keep(n) then [last] else []);
      assert !keep(n) ==> KeptGroups(groups, keep) == KeptGroups(front, keep);
    }
  }

  /** `g` is a group that is kept. */
  ghost predicate KeptOne(groups: Groups, keep: nat -> bool, g: seq<nat>) {
    exists j :: 0 <= j < |groups| && keep(j) && groups[j] == g
  }

  lemma KeptOneGrows(front: Groups, last: seq<nat>, keep: nat -> bool, g: seq<nat>)
    requires KeptOne(front, keep, g) || (keep(|front|) && g == last)
    ensures KeptOne(front + [last], keep, g)
  {
    if KeptOne(front, keep, g) {
      var j :| 0 <= j < |front| && keep(j) && front[j] == g;
      assert (front + [last])[j] == g;
    } else {
      assert (front + [last])[|front|] == g;
    }
  }

  lemma {:induction false} KeptAreKept(groups: Groups, keep: nat -> bool, k: nat)
    requires k < |KeptGroups(groups, keep)|
    ensures KeptOne(groups, keep, KeptGroups(groups, keep)[k])
  {
    var n := |groups| - 1;
    var front := KeptGroups(groups[..n], keep);
    if k < |front| {
      KeptAreKept(groups[..n], keep, k);
    }
    assert groups == groups[..n] + [groups[n]];
    KeptOneGrows(groups[..n], groups[n], keep, KeptGroups(groups, keep)[k]);
  }

  lemma {:induction false} UnmatchedAre(scores: seq<seq<real>>, i: int)
    ensures i in Unmatched(scores) <==> 0 <= i < |scores| && !Matches(scores[i])
  {
    if scores != [] {
      var n := |scores| - 1;
      UnmatchedAre(scores[..n], i);
      assert 0 <= i < n ==> scores[..n][i] == scores[i];
    }
  }

  lemma OnceEachAppends(front: seq<nat>, n: nat)
    requires n !in front && multiset(front) == multiset(Elements(front))
    ensures multiset(front + [n]) == multiset(Elements(front + [n]))
  {
    assert Elements(front + [n]) == Elements(front) + {n} && n !in Elements(front);
  }

  lemma {:induction false} UnmatchedOnceEach(scores: seq<seq<real>>)
    ensures multiset(Unmatched(scores)) == multiset(Elements(Unmatched(scores)))
  {
    if scores != [] {
      var n := |scores| - 1;
      UnmatchedOnceEach(scores[..n]);
      UnmatchedAre(scores[..n], n);
      OnceEachAppends(Unmatched(scores[..n]), n);
    }
  }

  lemma OnceAtMost(part: multiset<nat>, rest: seq<nat>, i: nat)
    requires part <= multiset(rest) && multiset(rest) == multiset(Elements(rest)) && i in part
    ensures part[i] == 1 && i in rest
  {
    assert i in multiset(rest) && multiset(Elements(rest))[i] <= 1;
  }

  /** A report of a new cluster is in it once, in no other, and close to no open one. */
  lemma FoundOnce(scores: seq<seq<real>>, near: Near, keep: nat -> bool, i: nat)
    requires i in Flat(KeptGroups(Grouped(Unmatched(scores), near), keep))
    ensures Flat(KeptGroups(Grouped(Unmatched(scores), near), keep))[i] == 1
    ensures i < |scores| && !Matches(scores[i])
  {
    KeptIsPart(Grouped(Unmatched(scores), near), keep);
    GroupsPartition(Unmatched(scores), near);
    UnmatchedOnceEach(scores);
    OnceAtMost(Flat(KeptGroups(Grouped(Unmatched(scores), near), keep)), Unmatched(scores), i);
    UnmatchedAre(scores, i);
  }

  lemma FoundAreUnusual(reports: seq<Report>, groups: Groups, before: seq<nat>, k: nat)
    requires |before| == |groups| && AllInRange(groups, |reports|)
    requires k < |KeptGroups(groups, News(reports, groups, before))|
    ensures exists j :: 0 <= j < |groups| && KeptGroups(groups, News(reports, groups, before))[k] == groups[j]
                        && Unusual(reports, before[j], groups[j])
  {
    var news := News(reports, groups, before);
    KeptAreKept(groups, news, k);
    var j :| 0 <= j < |groups| && news(j) && groups[j] == KeptGroups(groups, news)[k];
  }

  /** What a pass finds: each report in at most one new cluster and in none if it was close to an open one, and
      every new cluster unusual. */
  lemma FoundAreNews(reports: seq<Report>, scores: seq<seq<real>>, near: Near, before: seq<nat>)
    requires |scores| == |reports| && |before| == |Grouped(Unmatched(scores), near)|
    requires AllInRange(Grouped(Unmatched(scores), near), |reports|)
    ensures var groups := Grouped(Unmatched(scores), near);
      var found := KeptGroups(groups, News(reports, groups, before));
      && (forall i | i in Flat(found) :: Flat(found)[i] == 1 && 0 <= i < |reports| && !Matches(scores[i]))
      && (forall k | 0 <= k < |found| ::
            exists j :: 0 <= j < |groups| && found[k] == groups[j] && Unusual(reports, before[j], groups[j]))
  {
    var groups := Grouped(Unmatched(scores), near);
    var news := News(reports, groups, before);
    var found := KeptGroups(groups, news);
    forall i | i in Flat(found) ensures Flat(found)[i] == 1 && 0 <= i < |reports| && !Matches(scores[i]) {
      FoundOnce(scores, near, news, i);
    }
    forall k | 0 <= k < |found|
      ensures exists j :: 0 <= j < |groups| && found[k] == groups[j] && Unusual(reports, before[j], groups[j])
    {
      FoundAreUnusual(reports, groups, before, k);
    }
  }

  /** Once the reports of the new clusters are filed and left out, the next pass groups the others as this one did. */
  lemma LeftoversRegroup(reports: seq<Report>, rest: seq<nat>, near: Near, before: seq<nat>)
    requires |before| == |Grouped(rest, near)| && AllInRange(Grouped(rest, near), |reports|)
    ensures var groups := Grouped(rest, near);
      var news := News(reports, groups, before);
      Grouped(KeptItems(rest, near, (k: nat) => !news(k)), near) == KeptGroups(groups, (k: nat) => !news(k))
  {
    var news := News(reports, Grouped(rest, near), before);
    RemovalIsLocal(rest, near, (k: nat) => !news(k));
  }

  /** A group is unusual exactly when three of its reports are of three companies and it is at least twice as large as
      what came before. */
  lemma UnusualIff(reports: seq<Report>, before: nat, members: seq<nat>)
    requires InRange(members, |reports|)
    ensures Unusual(reports, before, members)
       <==> |members| >= before + before && exists i, j, k :: ThreeCompanies(reports, members, i, j, k)
  {
    var companies := Companies(reports, members);
    if |companies| >= 3 {
      var a := Pick(companies);
      assert |companies - {a}| >= 2;
      var b := Pick(companies - {a});
      assert |companies - {a} - {b}| >= 1;
      var c := Pick(companies - {a} - {b});
      var i: nat :| i < |members| && reports[members[i]].company == a;
      var j: nat :| j < |members| && reports[members[j]].company == b;
      var k: nat :| k < |members| && reports[members[k]].company == c;
      assert ThreeCompanies(reports, members, i, j, k);
    }
    if i: nat, j: nat, k: nat :| ThreeCompanies(reports, members, i, j, k) {
      var three := {reports[members[i]].company, reports[members[j]].company, reports[members[k]].company};
      assert three <= companies;
      SubsetIsSmaller(three, companies);
      ThreeMembers(members, i, j, k);
    }
  }

  lemma ThreeMembers(members: seq<nat>, i: nat, j: nat, k: nat)
    requires i < |members| && j < |members| && k < |members| && i != j && j != k && i != k
    ensures |members| >= 3
  {
  }

  ghost predicate ThreeCompanies(reports: seq<Report>, members: seq<nat>, i: nat, j: nat, k: nat)
    requires InRange(members, |reports|)
  {
    && i < |members| && j < |members| && k < |members|
    && reports[members[i]].company != reports[members[j]].company
    && reports[members[j]].company != reports[members[k]].company
    && reports[members[i]].company != reports[members[k]].company
  }

  lemma {:induction false} SubsetIsSmaller<T>(a: set<T>, b: set<T>)
    requires a <= b
    ensures |a| <= |b|
  {
    if a != {} {
      var x := Pick(a);
      SubsetIsSmaller(a - {x}, b - {x});
    }
  }

  /** A report is close to an open cluster from a score of six tenths on. */
  lemma MatchesFromSixTenths(scores: seq<real>)
    ensures Matches(scores) <==> exists k :: 0 <= k < |scores| && scores[k] * 10.0 >= 6.0
  {
    if k :| 0 <= k < |scores| && scores[k] * 10.0 >= 6.0 {
      assert scores[k] >= SAME;
    }
    if k :| 0 <= k < |scores| && scores[k] >= SAME {
      assert scores[k] * 10.0 >= 6.0;
    }
  }
}
