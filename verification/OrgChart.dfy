/** The org chart: who is above and below whom, on any chart, and the edits that would loop it
    (`services/accounts/hierarchy.py`, `services/accounts/serializers.py`). */
module OrgChart {
  import opened Orders

  /** Everyone, and whom they report to. */
  type Chart = map<nat, Option<nat>>

  function Boss(chart: Chart, u: nat): Option<nat> {
    if u in chart then chart[u] else None
  }

  /** Every manager is on the chart: `reports_to` is a foreign key. */
  ghost predicate Closed(chart: Chart) {
    forall u | u in chart && chart[u].Some? :: chart[u].value in chart
  }

  /** Whom one comes to, `n` steps up. */
  function Up(chart: Chart, u: nat, n: nat): Option<nat>
    decreases n
  {
    if n == 0 then Some(u)
    else
      match Boss(chart, u)
      case None => None
      case Some(b) => Up(chart, b, n - 1)
  }

  /** `a` manages `u`, directly or not. On a chart with a cycle one may be above oneself. */
  ghost predicate Above(chart: Chart, a: nat, u: nat) {
    exists n: nat :: n >= 1 && Up(chart, u, n) == Some(a)
  }

  ghost predicate Acyclic(chart: Chart) {
    forall u :: !Above(chart, u, u)
  }

  // ---------------------------------------------------------------- the chain above

  function ChainFrom(chart: Chart, current: Option<nat>, seen: set<nat>): seq<nat>
    requires Closed(chart) && (current.Some? ==> current.value in chart)
    decreases chart.Keys - seen
  {
    if current.None? || current.value in seen then []
    else [current.value] + ChainFrom(chart, chart[current.value], seen + {current.value})
  }

  /** `ancestors`, nearest first. */
  function Chain(chart: Chart, u: nat): seq<nat>
    requires Closed(chart)
  {
    ChainFrom(chart, Boss(chart, u), {u})
  }

  method Ancestors(chart: Chart, u: nat) returns (chain: seq<nat>)
    requires Closed(chart)
    ensures chain == Chain(chart, u)
  {
    var seen := {u};
    chain := [];
    var current := Boss(chart, u);
    while current.Some? && current.value !in seen
      invariant current.Some? ==> current.value in chart
      invariant chain + ChainFrom(chart, current, seen) == Chain(chart, u)
      decreases chart.Keys - seen
    {
      chain := chain + [current.value];
      seen := seen + {current.value};
      current := chart[current.value];
    }
  }

  lemma {:induction false} UpAdds(chart: Chart, u: nat, a: nat, b: nat)
    ensures Up(chart, u, a + b) == match Up(chart, u, a) case None => None case Some(x) => Up(chart, x, b)
    decreases a
  {
    if a > 0 && Boss(chart, u).Some? {
      UpAdds(chart, Boss(chart, u).value, a - 1, b);
    }
  }

  /** `c` goes up from `n + 1` steps above `u`, past nobody in `seen` and nobody twice. */
  ghost predicate Climbs(chart: Chart, u: nat, n: nat, c: seq<nat>, seen: set<nat>) {
    && (forall i | 0 <= i < |c| :: Up(chart, u, n + 1 + i) == Some(c[i]) && c[i] !in seen)
    && (forall i, j | 0 <= i < j < |c| :: c[i] != c[j])
  }

  lemma ClimbsOn(chart: Chart, u: nat, n: nat, v: nat, rest: seq<nat>, seen: set<nat>)
    requires Up(chart, u, n + 1) == Some(v) && v !in seen && Climbs(chart, u, n + 1, rest, seen + {v})
    ensures Climbs(chart, u, n, [v] + rest, seen)
  {
    var c := [v] + rest;
    forall i | 0 <= i < |c| ensures Up(chart, u, n + 1 + i) == Some(c[i]) && c[i] !in seen && (i > 0 ==> c[i] != v) {
      if i > 0 {
        var k := i - 1;
        assert c[i] == rest[k];
        assert Up(chart, u, (n + 1) + 1 + k) == Some(rest[k]);
      }
    }
    forall i, j | 0 <= i < j < |c| ensures c[i] != c[j] {
      assert c[j] == rest[j - 1];
      if i > 0 {
        assert c[i] == rest[i - 1];
      }
    }
  }

  lemma {:induction false} ChainFromClimbs(chart: Chart, u: nat, current: Option<nat>, seen: set<nat>, n: nat)
    requires Closed(chart) && (current.Some? ==> current.value in chart) && current == Up(chart, u, n + 1)
    ensures Climbs(chart, u, n, ChainFrom(chart, current, seen), seen)
    decreases chart.Keys - seen
  {
    if current.Some? && current.value !in seen {
      var v := current.value;
      UpAdds(chart, u, n + 1, 1);
      assert Up(chart, v, 1) == chart[v];
      ChainFromClimbs(chart, u, chart[v], seen + {v}, n + 1);
      ClimbsOn(chart, u, n, v, ChainFrom(chart, chart[v], seen + {v}), seen);
    }
  }

  /** A set nobody in which reports outside it. */
  ghost predicate ClosedUp(chart: Chart, s: set<nat>) {
    forall x | x in s && Boss(chart, x).Some? :: Boss(chart, x).value in s
  }

  lemma {:induction false} UpStays(chart: Chart, s: set<nat>, u: nat, n: nat)
    requires ClosedUp(chart, s) && u in s
    ensures Up(chart, u, n).Some? ==> Up(chart, u, n).value in s
    decreases n
  {
    if n > 0 && Boss(chart, u).Some? {
      UpStays(chart, s, Boss(chart, u).value, n - 1);
    }
  }

  lemma {:induction false} ChainFromCloses(chart: Chart, current: Option<nat>, seen: set<nat>)
    requires Closed(chart) && (current.Some? ==> current.value in chart)
    requires forall x | x in seen && Boss(chart, x).Some? :: Boss(chart, x).value in seen || Boss(chart, x) == current
    ensures ClosedUp(chart, seen + Elements(ChainFrom(chart, current, seen)))
    decreases chart.Keys - seen
  {
    if current.Some? && current.value !in seen {
      var v := current.value;
      ChainFromCloses(chart, chart[v], seen + {v});
      var rest := ChainFrom(chart, chart[v], seen + {v});
      assert seen + Elements([v] + rest) == (seen + {v}) + Elements(rest);
    } else {
      assert seen + Elements<nat>([]) == seen;
    }
  }

  /** On any chart, cyclic or not, the chain is everyone above but oneself, each once and nearest first. */
  lemma ChainIsEveryoneAbove(chart: Chart, u: nat)
    requires Closed(chart)
    ensures forall a :: a in Chain(chart, u) <==> a != u && Above(chart, a, u)
    ensures forall i | 0 <= i < |Chain(chart, u)| :: Up(chart, u, i + 1) == Some(Chain(chart, u)[i])
    ensures forall i, j | 0 <= i < j < |Chain(chart, u)| :: Chain(chart, u)[i] != Chain(chart, u)[j]
  {
    var c := Chain(chart, u);
    assert Up(chart, u, 1) == Boss(chart, u);
    ChainFromClimbs(chart, u, Boss(chart, u), {u}, 0);
    forall i | 0 <= i < |c| ensures Up(chart, u, i + 1) == Some(c[i]) && c[i] != u {
      assert Up(chart, u, 0 + 1 + i) == Some(c[i]);
    }
    ChainFromCloses(chart, Boss(chart, u), {u});
    forall a ensures a in c <==> a != u && Above(chart, a, u) {
      if a in c {
        var i :| 0 <= i < |c| && c[i] == a;
        assert Up(chart, u, i + 1) == Some(a);
      }
      if a != u && Above(chart, a, u) {
        var n: nat :| n >= 1 && Up(chart, u, n) == Some(a);
        UpStays(chart, {u} + Elements(c), u, n);
      }
    }
  }

  // ---------------------------------------------------------------- everyone below

  /** The direct reports of the frontier that are not found yet. */
  function Reports(chart: Chart, found: set<nat>, frontier: set<nat>): set<nat> {
    set x | x in chart && chart[x].Some? && chart[x].value in frontier && x !in found
  }

  function WalkFrom(chart: Chart, found: set<nat>, frontier: set<nat>): set<nat>
    decreases chart.Keys - found, frontier != {}
  {
    if frontier == {} then found
    else
      var reports := Reports(chart, found, frontier);
      assert reports != {} ==> chart.Keys - (found + reports) < chart.Keys - found;
      assert reports == {} ==> found + reports == found;
      WalkFrom(chart, found + reports, reports)
  }

  /** `_walk_subtree`. */
  function Subtree(chart: Chart, u: nat): set<nat> {
    WalkFrom(chart, {}, {u}) - {u}
  }

  method WalkSubtree(chart: Chart, u: nat) returns (found: set<nat>)
    ensures found == Subtree(chart, u)
  {
    found := {};
    var frontier := {u};
    while frontier != {}
      invariant WalkFrom(chart, found, frontier) == WalkFrom(chart, {}, {u})
      decreases chart.Keys - found, frontier != {}
    {
      var reports := Reports(chart, found, frontier);
      assert reports != {} ==> chart.Keys - (found + reports) < chart.Keys - found;
      assert reports == {} ==> found + reports == found;
      found := found + reports;
      frontier := reports;
    }
    found := found - {u};
  }

  ghost predicate AllBelow(chart: Chart, u: nat, s: set<nat>) {
    forall x | x in s :: Above(chart, u, x)
  }

  lemma AboveDirectly(chart: Chart, u: nat, b: nat, x: nat)
    requires Boss(chart, x) == Some(b) && (b == u || Above(chart, u, b))
    ensures Above(chart, u, x)
  {
    if b == u {
      assert Up(chart, x, 1) == Some(u);
    } else {
      var n: nat :| n >= 1 && Up(chart, b, n) == Some(u);
      assert Up(chart, x, n + 1) == Some(u);
    }
  }

  /** A walk finds only people below, and all the reports of whomever it has been to. */
  lemma {:induction false} WalkFromFinds(chart: Chart, u: nat, found: set<nat>, frontier: set<nat>)
    requires AllBelow(chart, u, found) && frontier <= found + {u}
    requires forall x | x in chart && chart[x].Some? && chart[x].value in found + {u} - frontier :: x in found
    ensures var all := WalkFrom(chart, found, frontier);
      && AllBelow(chart, u, all)
      && forall x | x in chart && chart[x].Some? && chart[x].value in all + {u} :: x in all
    decreases chart.Keys - found, frontier != {}
  {
    if frontier != {} {
      var reports := Reports(chart, found, frontier);
      forall x | x in reports ensures Above(chart, u, x) {
        AboveDirectly(chart, u, chart[x].value, x);
      }
      assert reports != {} ==> chart.Keys - (found + reports) < chart.Keys - found;
      assert reports == {} ==> found + reports == found;
      WalkFromFinds(chart, u, found + reports, reports);
    }
  }

  lemma {:induction false} BelowIsFound(chart: Chart, u: nat, all: set<nat>, x: nat, n: nat)
    requires forall y | y in chart && chart[y].Some? && chart[y].value in all + {u} :: y in all
    requires n >= 1 && Up(chart, x, n) == Some(u)
    ensures x in all
    decreases n
  {
    if n > 1 {
      BelowIsFound(chart, u, all, Boss(chart, x).value, n - 1);
    } else {
      assert Up(chart, Boss(chart, x).value, 0) == Some(u);
    }
  }

  /** On any chart, the walk finds everyone below but oneself. */
  lemma SubtreeIsEveryoneBelow(chart: Chart, u: nat)
    ensures forall x :: x in Subtree(chart, u) <==> x != u && Above(chart, u, x)
  {
    WalkFromFinds(chart, u, {}, {u});
    var all := WalkFrom(chart, {}, {u});
    forall x | Above(chart, u, x) ensures x in all {
      var n: nat :| n >= 1 && Up(chart, x, n) == Some(u);
      BelowIsFound(chart, u, all, x, n);
    }
  }

  /** The two walks are dual. */
  lemma ChainAndSubtreeAreDual(chart: Chart, a: nat, u: nat)
    requires Closed(chart) && a != u
    ensures a in Chain(chart, u) <==> u in Subtree(chart, a)
  {
    ChainIsEveryoneAbove(chart, u);
    SubtreeIsEveryoneBelow(chart, a);
  }

  /** `scope_ids`: oneself, everyone below, one's function, everyone above. */
  function Scope(chart: Chart, teams: map<nat, (nat, string)>, u: nat): set<nat>
    requires Closed(chart) && u in teams
  {
    {u} + Subtree(chart, u) + (set x | x in teams && teams[x] == teams[u]) + Elements(Chain(chart, u))
  }

  /** Whoever may read somebody's words may be read by them. */
  lemma ScopeIsMutual(chart: Chart, teams: map<nat, (nat, string)>, a: nat, b: nat)
    requires Closed(chart) && a in teams && b in teams
    ensures a in Scope(chart, teams, b) <==> b in Scope(chart, teams, a)
  {
    if a != b {
      ChainAndSubtreeAreDual(chart, a, b);
      ChainAndSubtreeAreDual(chart, b, a);
    }
  }

  /** A user as one request holds it, with its memo. */
  class RequestUser {
    const id: nat
    const saved: bool
    var memo: Option<set<nat>>

    constructor (id: nat, saved: bool)
      ensures this.id == id && this.saved == saved && memo == None
    {
      this.id, this.saved, memo := id, saved, None;
    }

    /** `subtree_ids`: walked once, then remembered for the life of the object. */
    method SubtreeIds(chart: Chart) returns (ids: set<nat>)
      modifies this
      ensures ids == (if old(memo).Some? then old(memo).value else Subtree(chart, id))
      ensures memo == (if old(memo).Some? || saved then Some(ids) else None)
    {
      if memo.Some? {
        return memo.value;
      }
      ids := WalkSubtree(chart, id);
      if saved {
        memo := Some(ids);
      }
    }
  }

  /** One's scope is oneself, everyone below or above on the chart, and everyone of the same organisation and
      function, and nobody else. */
  lemma ScopeIs(chart: Chart, teams: map<nat, (nat, string)>, u: nat, x: nat)
    requires Closed(chart) && u in teams
    ensures x in Scope(chart, teams, u)
       <==> || x == u || Above(chart, u, x) || Above(chart, x, u)
            || (x in teams && teams[x].0 == teams[u].0 && teams[x].1 == teams[u].1)
  {
    SubtreeIsEveryoneBelow(chart, u);
    ChainIsEveryoneAbove(chart, u);
  }
}
