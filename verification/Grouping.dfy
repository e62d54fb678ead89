/** Greedy first-fit grouping and nearest centroid (`services/anomalies/detect.py`). Closeness of vectors is an
    arbitrary relation `near(x, seed)`, neither symmetric nor reflexive, and a score an arbitrary real. */
module Grouping {
  import opened Orders

  type Near = (nat, nat) -> bool

  type Groups = seq<seq<nat>>

  ghost predicate NoneEmpty(groups: Groups) {
    forall k | 0 <= k < |groups| :: groups[k] != []
  }

  /** The first group whose seed `x` is close to, or the place of a new one. */
  function Home(groups: Groups, x: nat, near: Near): (h: nat)
    requires NoneEmpty(groups)
    ensures h <= |groups|
  {
    if groups == [] then 0
    else
      var n := |groups| - 1;
      var h := Home(groups[..n], x, near);
      if h < n then h else if near(x, groups[n][0]) then n else n + 1
  }

  lemma {:induction false} HomeFits(groups: Groups, x: nat, near: Near)
    requires NoneEmpty(groups)
    ensures var h := Home(groups, x, near);
      && (h < |groups| ==> near(x, groups[h][0]))
      && forall k | 0 <= k < h :: !near(x, groups[k][0])
  {
    if groups != [] {
      HomeFits(groups[..|groups| - 1], x, near);
    }
  }

  function Place(groups: Groups, x: nat, near: Near): (r: Groups)
    requires NoneEmpty(groups)
    ensures NoneEmpty(r)
  {
    var h := Home(groups, x, near);
    if h < |groups| then groups[h := groups[h] + [x]] else groups + [[x]]
  }

  /** The groups of `xs`, taken in order. */
  function Grouped(xs: seq<nat>, near: Near): (groups: Groups)
    ensures NoneEmpty(groups)
  {
    if xs == [] then [] else Place(Grouped(xs[..|xs| - 1], near), xs[|xs| - 1], near)
  }

  function Upto(n: nat): seq<nat> {
    if n == 0 then [] else Upto(n - 1) + [n - 1]
  }

  lemma GroupedSnoc(xs: seq<nat>, x: nat, near: Near)
    ensures Grouped(xs + [x], near) == Place(Grouped(xs, near), x, near)
  {
    assert (xs + [x])[..|xs|] == xs;
  }

  lemma HomeIsFirst(groups: Groups, x: nat, near: Near, h: nat)
    requires NoneEmpty(groups) && h <= |groups| && (h < |groups| ==> near(x, groups[h][0]))
    requires forall k | 0 <= k < h :: !near(x, groups[k][0])
    ensures h == Home(groups, x, near)
  {
    HomeFits(groups, x, near);
  }

  /** The inner loop: the first group whose seed is close, if there is one. */
  method FindHome(groups: Groups, x: nat, near: Near) returns (h: nat)
    requires NoneEmpty(groups)
    ensures h == Home(groups, x, near)
  {
    h := 0;
    while h < |groups| && !near(x, groups[h][0])
      invariant h <= |groups|
      invariant forall k | 0 <= k < h :: !near(x, groups[k][0])
    {
      h := h + 1;
    }
    HomeIsFirst(groups, x, near, h);
  }

  /** `group`: item by item, into its home or into a group of its own. */
  method Group(n: nat, near: Near) returns (groups: Groups)
    ensures groups == Grouped(Upto(n), near)
  {
    groups := [];
    for i := 0 to n
      invariant groups == Grouped(Upto(i), near)
    {
      GroupedSnoc(Upto(i), i, near);
      var h := FindHome(groups, i, near);
      groups := if h < |groups| then groups[h := groups[h] + [i]] else groups + [[i]];
    }
  }

  // ---------------------------------------------------------------- what the groups are

  function Flat(groups: Groups): multiset<nat> {
    if groups == [] then multiset{} else Flat(groups[..|groups| - 1]) + multiset(groups[|groups| - 1])
  }

  lemma {:induction false} FlatJoins(groups: Groups, h: nat, x: nat)
    requires h < |groups|
    ensures Flat(groups[h := groups[h] + [x]]) == Flat(groups) + multiset{x}
  {
    var n, after := |groups| - 1, groups[h := groups[h] + [x]];
    if h < n {
      FlatJoins(groups[..n], h, x);
      assert after[..n] == groups[..n][h := groups[..n][h] + [x]];
    } else {
      assert after[..n] == groups[..n];
    }
  }

  /** The groups partition the items. */
  lemma {:induction false} GroupsPartition(xs: seq<nat>, near: Near)
    ensures Flat(Grouped(xs, near)) == multiset(xs)
  {
    if xs != [] {
      var n := |xs| - 1;
      GroupsPartition(xs[..n], near);
      var before := Grouped(xs[..n], near);
      var h := Home(before, xs[n], near);
      assert xs == xs[..n] + [xs[n]];
      if h < |before| {
        FlatJoins(before, h, xs[n]);
      } else {
        assert (before + [[xs[n]]])[..|before|] == before;
      }
    }
  }

  /** Nobody in group `k` is close to an earlier group's seed, and everybody but its seed is close to its seed. */
  ghost predicate FirstFit(groups: Groups, near: Near)
    requires NoneEmpty(groups)
  {
    && (forall k, i | 0 <= k < |groups| && 0 < i < |groups[k]| :: near(groups[k][i], groups[k][0]))
    && (forall j, k, i | 0 <= j < k < |groups| && 0 <= i < |groups[k]| :: !near(groups[k][i], groups[j][0]))
  }

  lemma {:induction false} GroupsAreFirstFit(xs: seq<nat>, near: Near)
    ensures FirstFit(Grouped(xs, near), near)
  {
    if xs != [] {
      GroupsAreFirstFit(xs[..|xs| - 1], near);
      HomeFits(Grouped(xs[..|xs| - 1], near), xs[|xs| - 1], near);
    }
  }

  /** Seeds are pairwise not close: no later one to an earlier one. */
  lemma SeedsAreApart(xs: seq<nat>, near: Near, j: nat, k: nat)
    requires j < k < |Grouped(xs, near)|
    ensures !near(Grouped(xs, near)[k][0], Grouped(xs, near)[j][0])
  {
    GroupsAreFirstFit(xs, near);
  }

  /** Every group of a prefix is the beginning of the group in the same place of the whole. */
  ghost predicate Begins(before: Groups, after: Groups) {
    |before| <= |after| && forall k | 0 <= k < |before| :: before[k] <= after[k]
  }

  lemma PlaceBegins(before: Groups, groups: Groups, x: nat, near: Near)
    requires NoneEmpty(groups) && Begins(before, groups)
    ensures Begins(before, Place(groups, x, near))
  {
  }

  /** Grouping a prefix is the restriction of grouping the whole. */
  lemma {:induction false} PrefixBegins(xs: seq<nat>, near: Near, n: nat)
    requires n <= |xs|
    ensures Begins(Grouped(xs[..n], near), Grouped(xs, near))
  {
    if n < |xs| {
      var last := |xs| - 1;
      PrefixBegins(xs[..last], near, n);
      assert xs[..last][..n] == xs[..n];
      PlaceBegins(Grouped(xs[..n], near), Grouped(xs[..last], near), xs[last], near);
    } else {
      assert xs[..n] == xs;
    }
  }

  lemma SplitAt(xs: seq<nat>, n: nat)
    requires n <= |xs|
    ensures multiset(xs) == multiset(xs[..n]) + multiset(xs[n..])
  {
    assert xs == xs[..n] + xs[n..];
  }

  /** And what it adds is what lies past the prefix. */
  lemma PrefixLacksTheRest(xs: seq<nat>, near: Near, n: nat)
    requires n <= |xs|
    ensures Flat(Grouped(xs, near)) == Flat(Grouped(xs[..n], near)) + multiset(xs[n..])
  {
    GroupsPartition(xs, near);
    GroupsPartition(xs[..n], near);
    SplitAt(xs, n);
  }

  // ---------------------------------------------------------------- taking groups away

  /** The groups whose number is kept. */
  function KeptGroups(groups: Groups, keep: nat -> bool): Groups {
    if groups == [] then []
    else
      var n := |groups| - 1;
      KeptGroups(groups[..n], keep) + (if keep(n) then [groups[n]] else [])
  }

  /** The items that went to a group that is kept. */
  function KeptItems(xs: seq<nat>, near: Near, keep: nat -> bool): seq<nat> {
    if xs == [] then []
    else
      var n := |xs| - 1;
      KeptItems(xs[..n], near, keep) + (if keep(Home(Grouped(xs[..n], near), xs[n], near)) then [xs[n]] else [])
  }

  lemma {:induction false} KeptAreNotEmpty(groups: Groups, keep: nat -> bool)
    requires NoneEmpty(groups)
    ensures NoneEmpty(KeptGroups(groups, keep))
  {
    if groups != [] {
      KeptAreNotEmpty(groups[..|groups| - 1], keep);
    }
  }

  lemma PlaceSnoc(front: Groups, g: seq<nat>, x: nat, near: Near)
    requires NoneEmpty(front) && g != []
    ensures var h, n := Home(front, x, near), |front|;
      && Home(front + [g], x, near) == (if h < n then h else if near(x, g[0]) then n else n + 1)
      && Place(front + [g], x, near) ==
        if h < n then Place(front, x, near) + [g]
        else if near(x, g[0]) then front + [g + [x]] else front + [g, [x]]
  {
    assert (front + [g])[..|front|] == front;
  }

  lemma KeptSnoc(front: Groups, g: seq<nat>, keep: nat -> bool)
    ensures KeptGroups(front + [g], keep)
      == if keep(|front|) then KeptGroups(front, keep) + [g] else KeptGroups(front, keep)
  {
    assert (front + [g])[..|front|] == front;
  }

  /** The place of an item among the kept groups alone. */
  lemma {:induction false} KeptHome(groups: Groups, x: nat, near: Near, keep: nat -> bool)
    requires NoneEmpty(groups)
    ensures NoneEmpty(KeptGroups(groups, keep))
    ensures var h, kept := Home(groups, x, near), KeptGroups(groups, keep);
      && (h == |groups| ==> Home(kept, x, near) == |kept|)
      && (h < |groups| && keep(h) ==> Home(kept, x, near) < |kept|)
  {
    KeptAreNotEmpty(groups, keep);
    if groups != [] {
      var n := |groups| - 1;
      var front, g := groups[..n], groups[n];
      KeptHome(front, x, near, keep);
      KeptSnoc(front, g, keep);
      assert groups == front + [g];
      if keep(n) {
        PlaceSnoc(KeptGroups(front, keep), g, x, near);
      }
    }
  }

  /** Placing an item of a kept group among the kept groups alone puts it where it was; an item of another
      group changes none that is kept. */
  lemma {:induction false} KeptPlace(groups: Groups, x: nat, near: Near, keep: nat -> bool)
    requires NoneEmpty(groups) && NoneEmpty(KeptGroups(groups, keep))
    ensures var kept := KeptGroups(groups, keep);
      KeptGroups(Place(groups, x, near), keep) == if keep(Home(groups, x, near)) then Place(kept, x, near) else kept
  {
    if groups == [] {
      KeptSnoc([], [x], keep);
      assert Place(groups, x, near) == [] + [[x]];
    } else {
      var front, g := groups[..|groups| - 1], groups[|groups| - 1];
      assert groups == front + [g];
      KeptHome(front, x, near, keep);
      if Home(front, x, near) < |front| {
        KeptPlace(front, x, near, keep);
        KeptPlaceFront(front, g, x, near, keep);
      } else {
        KeptPlaceBack(front, g, x, near, keep);
      }
    }
  }

  lemma KeptPlaceFront(front: Groups, g: seq<nat>, x: nat, near: Near, keep: nat -> bool)
    requires NoneEmpty(front) && g != [] && NoneEmpty(KeptGroups(front, keep)) && Home(front, x, near) < |front|
    requires keep(Home(front, x, near)) ==> Home(KeptGroups(front, keep), x, near) < |KeptGroups(front, keep)|
    requires var kept := KeptGroups(front, keep);
      KeptGroups(Place(front, x, near), keep) == if keep(Home(front, x, near)) then Place(kept, x, near) else kept
    ensures NoneEmpty(KeptGroups(front + [g], keep))
    ensures var kept := KeptGroups(front + [g], keep);
      KeptGroups(Place(front + [g], x, near), keep)
        == if keep(Home(front + [g], x, near)) then Place(kept, x, near) else kept
  {
    var kept, placed, h := KeptGroups(front, keep), Place(front, x, near), Home(front, x, near);
    PlaceSnoc(front, g, x, near);
    assert Home(front + [g], x, near) == h && Place(front + [g], x, near) == placed + [g];
    KeptSnoc(front, g, keep);
    KeptSnoc(placed, g, keep);
    if keep(h) && keep(|front|) {
      PlaceSnoc(kept, g, x, near);
      assert Place(kept + [g], x, near) == Place(kept, x, near) + [g];
    }
  }

  lemma KeptPlaceBack(front: Groups, g: seq<nat>, x: nat, near: Near, keep: nat -> bool)
    requires NoneEmpty(front) && g != [] && NoneEmpty(KeptGroups(front, keep)) && Home(front, x, near) == |front|
    requires Home(KeptGroups(front, keep), x, near) == |KeptGroups(front, keep)|
    ensures NoneEmpty(KeptGroups(front + [g], keep))
    ensures var kept := KeptGroups(front + [g], keep);
      KeptGroups(Place(front + [g], x, near), keep)
        == if keep(Home(front + [g], x, near)) then Place(kept, x, near) else kept
  {
    var kept := KeptGroups(front, keep);
    PlaceSnoc(front, g, x, near);
    PlaceSnoc(kept, g, x, near);
    KeptSnoc(front, g, keep);
    if near(x, g[0]) {
      KeptSnoc(front, g + [x], keep);
    } else {
      KeptPlaceNew(front, g, x, near, keep, kept);
    }
  }

  lemma KeptPlaceNew(front: Groups, g: seq<nat>, x: nat, near: Near, keep: nat -> bool, kept: Groups)
    requires NoneEmpty(front) && NoneEmpty(kept) && g != [] && kept == KeptGroups(front, keep)
    requires Home(kept, x, near) == |kept| && !near(x, g[0])
    ensures var before := if keep(|front|) then kept + [g] else kept;
      KeptGroups(front + [g, [x]], keep) == if keep(|front| + 1) then Place(before, x, near) else before
  {
    KeptSnoc(front, g, keep);
    KeptSnoc(front + [g], [x], keep);
    PlaceSnoc(kept, g, x, near);
    assert front + [g, [x]] == (front + [g]) + [[x]];
    assert kept + [g, [x]] == (kept + [g]) + [[x]];
  }

  lemma KeptNext(groups: Groups, items: seq<nat>, x: nat, near: Near, keep: nat -> bool)
    requires NoneEmpty(groups) && Grouped(items, near) == KeptGroups(groups, keep)
    ensures var next := if keep(Home(groups, x, near)) then [x] else [];
      Grouped(items + next, near) == KeptGroups(Place(groups, x, near), keep)
  {
    KeptAreNotEmpty(groups, keep);
    KeptPlace(groups, x, near, keep);
    GroupedSnoc(items, x, near);
    assert items + [] == items;
  }

  /** Taking whole groups out of the input leaves every other group as it was. */
  lemma {:induction false} RemovalIsLocal(xs: seq<nat>, near: Near, keep: nat -> bool)
    ensures Grouped(KeptItems(xs, near, keep), near) == KeptGroups(Grouped(xs, near), keep)
  {
    if xs != [] {
      var n := |xs| - 1;
      RemovalIsLocal(xs[..n], near, keep);
      KeptNext(Grouped(xs[..n], near), KeptItems(xs[..n], near, keep), xs[n], near, keep);
    }
  }

  /** What is kept of the input is exactly the kept groups' items. */
  lemma KeptItemsAreTheirs(xs: seq<nat>, near: Near, keep: nat -> bool)
    ensures multiset(KeptItems(xs, near, keep)) == Flat(KeptGroups(Grouped(xs, near), keep))
  {
    RemovalIsLocal(xs, near, keep);
    GroupsPartition(KeptItems(xs, near, keep), near);
  }

  // ---------------------------------------------------------------- the nearest open cluster

  /** `nearest`: the last of the best, if it reaches the threshold. */
  method Nearest(scores: seq<real>, threshold: real) returns (best: Option<nat>)
    ensures best.None? <==> forall k | 0 <= k < |scores| :: scores[k] < threshold
    ensures best.Some? ==> best.value < |scores| && scores[best.value] >= threshold
    ensures best.Some? ==> forall k | 0 <= k < |scores| ::
      scores[k] <= scores[best.value] && (k > best.value ==> scores[k] < scores[best.value])
  {
    best := None;
    var bestScore := threshold;
    for k := 0 to |scores|
      invariant if best.Some? then best.value < k && bestScore == scores[best.value] >= threshold
        else bestScore == threshold
      invariant forall j | 0 <= j < k :: if best.Some? then scores[j] <= bestScore else scores[j] < threshold
      invariant best.Some? ==> forall j | best.value < j < k :: scores[j] < bestScore
    {
      if scores[k] >= bestScore {
        best, bestScore := Some(k), scores[k];
      }
    }
  }
}
