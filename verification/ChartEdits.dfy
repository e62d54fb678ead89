/** Edits of the org chart: refused exactly when they would loop it (`services/accounts/hierarchy.py`,
    `services/accounts/serializers.py`). */
module ChartEdits {
  import opened Orders
  import opened OrgChart

  /** `would_cycle`. */
  function WouldCycle(chart: Chart, u: nat, manager: Option<nat>): bool
    requires Closed(chart)
  {
    manager.Some? && (manager.value == u || u in Chain(chart, manager.value))
  }

  /** Two charts that differ at most in whom `u` reports to: climbing to `u` is the same on both. */
  lemma {:induction false} FirstHit(one: Chart, two: Chart, u: nat, x: nat, n: nat)
    requires (forall y | y != u :: Boss(one, y) == Boss(two, y)) && Up(one, x, n) == Some(u)
    ensures exists j: nat :: j <= n && Up(two, x, j) == Some(u)
    decreases n
  {
    if x == u {
      assert Up(two, x, 0) == Some(u);
    } else {
      var b := Boss(one, x).value;
      FirstHit(one, two, u, b, n - 1);
      var j: nat :| j <= n - 1 && Up(two, b, j) == Some(u);
      assert Up(two, x, j + 1) == Some(u);
    }
  }

  /** A climb that does not come past `u` is the same on both. */
  lemma {:induction false} PastNobody(one: Chart, two: Chart, u: nat, x: nat, n: nat)
    requires forall y | y != u :: Boss(one, y) == Boss(two, y)
    requires forall k: nat | k < n :: Up(one, x, k) != Some(u)
    ensures Up(one, x, n) == Up(two, x, n)
    decreases n
  {
    if n > 0 {
      assert Up(one, x, 0) == Some(x);
      if Boss(one, x).Some? {
        forall k: nat | k < n - 1 ensures Up(one, Boss(one, x).value, k) != Some(u) {
          assert Up(one, x, k + 1) == Up(one, Boss(one, x).value, k);
        }
        PastNobody(one, two, u, Boss(one, x).value, n - 1);
      }
    }
  }

  /** A cycle can be walked from any of its members. */
  lemma CycleTurns(chart: Chart, x: nat, n: nat, k: nat, u: nat)
    requires Up(chart, x, n) == Some(x) && Up(chart, x, k) == Some(u)
    ensures Up(chart, u, n) == Some(u)
  {
    UpAdds(chart, x, k, n);
    UpAdds(chart, x, n, k);
  }

  lemma NoReturn(chart: Chart, x: nat, n: nat)
    requires Acyclic(chart) && n >= 1
    ensures Up(chart, x, n) != Some(x)
  {
    assert !Above(chart, x, x);
  }

  lemma RefusedWouldCycle(chart: Chart, u: nat, m: nat)
    requires Closed(chart) && WouldCycle(chart, u, Some(m))
    ensures !Acyclic(chart[u := Some(m)])
  {
    var after := chart[u := Some(m)];
    assert Boss(after, u) == Some(m);
    if m == u {
      assert Up(after, u, 1) == Some(u);
    } else {
      ChainIsEveryoneAbove(chart, m);
      var n: nat :| n >= 1 && Up(chart, m, n) == Some(u);
      FirstHit(chart, after, u, m, n);
      var j: nat :| j <= n && Up(after, m, j) == Some(u);
      assert Up(after, u, j + 1) == Some(u);
    }
    assert Above(after, u, u);
  }

  lemma AcceptedDoesNotCycle(chart: Chart, u: nat, m: nat)
    requires Closed(chart) && Acyclic(chart) && !WouldCycle(chart, u, Some(m))
    ensures Acyclic(chart[u := Some(m)])
  {
    var after := chart[u := Some(m)];
    ChainIsEveryoneAbove(chart, m);
    forall j: nat ensures Up(chart, m, j) != Some(u) {
      assert j > 0 ==> !Above(chart, u, m);
    }
    forall x: nat ensures !Above(after, x, x) {
      if Above(after, x, x) {
        var n: nat :| n >= 1 && Up(after, x, n) == Some(x);
        if k: nat :| k < n && Up(after, x, k) == Some(u) {
          CycleTurns(after, x, n, k, u);
          assert Boss(after, u) == Some(m) && Up(after, m, n - 1) == Some(u);
          FirstHit(after, chart, u, m, n - 1);
          assert false;
        } else {
          NoReturn(chart, x, n);
          PastNobody(after, chart, u, x, n);
          assert false;
        }
      }
    }
  }

  /** On an acyclic chart `would_cycle` refuses exactly the edits that would make a cycle. */
  lemma WouldCycleIsExact(chart: Chart, u: nat, manager: Option<nat>)
    requires Closed(chart) && Acyclic(chart)
    ensures WouldCycle(chart, u, manager) <==> !Acyclic(chart[u := manager])
  {
    match manager
    case Some(m) =>
      if WouldCycle(chart, u, manager) {
        RefusedWouldCycle(chart, u, m);
      } else {
        AcceptedDoesNotCycle(chart, u, m);
      }
    case None =>
      FewerBosses(chart, chart[u := None]);
  }

  /** Taking bosses away makes no cycle. */
  lemma FewerBosses(chart: Chart, after: Chart)
    requires Acyclic(chart) && forall x | Boss(after, x).Some? :: Boss(chart, x) == Boss(after, x)
    ensures Acyclic(after)
  {
    forall x: nat ensures !Above(after, x, x) {
      if Above(after, x, x) {
        var n: nat :| n >= 1 && Up(after, x, n) == Some(x);
        UpOfFewer(chart, after, x, n);
        assert Above(chart, x, x);
        assert false;
      }
    }
  }

  lemma {:induction false} UpOfFewer(chart: Chart, after: Chart, x: nat, n: nat)
    requires forall y | Boss(after, y).Some? :: Boss(chart, y) == Boss(after, y)
    ensures Up(after, x, n).Some? ==> Up(chart, x, n) == Up(after, x, n)
    decreases n
  {
    if n > 0 && Boss(after, x).Some? {
      UpOfFewer(chart, after, Boss(after, x).value, n - 1);
    }
  }

  // ---------------------------------------------------------------- runs

  datatype Step =
    | Edit(u: nat, manager: Option<nat>)    // a member's page
    | Create(u: nat, manager: Option<nat>)  // a new member; nothing is checked but the manager's existence
    | Delete(u: nat)                        // their reports are left without a manager

  predicate Accepted(chart: Chart, step: Step)
    requires Closed(chart)
  {
    match step
    case Edit(u, manager) =>
      u in chart && (manager.Some? ==> manager.value in chart) && !WouldCycle(chart, u, manager)
    case Create(u, manager) => u !in chart && (manager.Some? ==> manager.value in chart)
    case Delete(u) => u in chart
  }

  function Apply(chart: Chart, step: Step): Chart {
    match step
    case Edit(u, manager) => chart[u := manager]
    case Create(u, manager) => chart[u := manager]
    case Delete(u) => map x | x in chart && x != u :: if chart[x] == Some(u) then None else chart[x]
  }

  /** An edit or a creation sets one person's manager; a deletion takes the person off, leaves those who reported to
      them at the top, and changes nobody else. */
  lemma StepDoes(chart: Chart, u: nat, manager: Option<nat>, x: nat)
    ensures Boss(Apply(chart, Edit(u, manager)), x) == if x == u then manager else Boss(chart, x)
    ensures Boss(Apply(chart, Create(u, manager)), x) == if x == u then manager else Boss(chart, x)
    ensures x in Apply(chart, Edit(u, manager)) <==> x == u || x in chart
    ensures x in Apply(chart, Create(u, manager)) <==> x == u || x in chart
    ensures x in Apply(chart, Delete(u)) <==> x != u && x in chart
    ensures x != u ==> Boss(Apply(chart, Delete(u)), x) == if Boss(chart, x) == Some(u) then None else Boss(chart, x)
  {
  }

  lemma StepKeepsAcyclic(chart: Chart, step: Step)
    requires Closed(chart) && Acyclic(chart) && Accepted(chart, step)
    ensures Closed(Apply(chart, step)) && Acyclic(Apply(chart, step))
  {
    match step
    case Edit(u, manager) =>
      WouldCycleIsExact(chart, u, manager);
    case Create(u, manager) =>
      if manager.Some? {
        NobodyIsNew(chart, u, manager.value);
      }
      WouldCycleIsExact(chart, u, manager);
    case Delete(u) =>
      FewerBosses(chart, Apply(chart, step));
  }

  /** Somebody not on the chart is above nobody. */
  lemma NobodyIsNew(chart: Chart, u: nat, m: nat)
    requires Closed(chart) && u !in chart && m in chart
    ensures u !in Chain(chart, m)
  {
    ChainIsEveryoneAbove(chart, m);
    if Above(chart, u, m) {
      var n: nat :| n >= 1 && Up(chart, m, n) == Some(u);
      UpStays(chart, chart.Keys, m, n);
      assert false;
    }
  }

  ghost predicate Reaches(chart: Chart, steps: seq<Step>, last: Chart)
    decreases |steps|
  {
    if steps == [] then last == chart
    else Closed(chart) && Accepted(chart, steps[0]) && Reaches(Apply(chart, steps[0]), steps[1..], last)
  }

  /** The chart stays acyclic over every run of accepted edits, creations and deletions. */
  lemma {:induction false} ChartStaysAcyclic(chart: Chart, steps: seq<Step>, last: Chart)
    requires Closed(chart) && Acyclic(chart) && Reaches(chart, steps, last)
    ensures Closed(last) && Acyclic(last)
    decreases |steps|
  {
    if steps != [] {
      StepKeepsAcyclic(chart, steps[0]);
      ChartStaysAcyclic(Apply(chart, steps[0]), steps[1..], last);
    }
  }

  /** On an acyclic chart a chain stops only at its top. */
  lemma ChainReachesTheTop(chart: Chart, u: nat)
    requires Closed(chart) && Acyclic(chart)
    ensures Up(chart, u, |Chain(chart, u)| + 1) == None
  {
    var c := Chain(chart, u);
    var n := |c| + 1;
    ChainIsEveryoneAbove(chart, u);
    if Up(chart, u, n).Some? {
      var x := Up(chart, u, n).value;
      assert Above(chart, x, u);
      NoReturn(chart, u, n);
      var i :| 0 <= i < |c| && c[i] == x;
      NoReturn(chart, x, n - (i + 1));
      UpAdds(chart, u, i + 1, n - (i + 1));
      assert false;
    }
  }

  // ---------------------------------------------------------------- two edits checked on the same chart

  /** `b` is `a` or above `a`. */
  ghost predicate AtOrAbove(chart: Chart, b: nat, a: nat) {
    exists n: nat :: Up(chart, a, n) == Some(b)
  }

  lemma AtOrAboveIsInChain(chart: Chart, b: nat, a: nat)
    requires Closed(chart)
    ensures AtOrAbove(chart, b, a) <==> b == a || b in Chain(chart, a)
  {
    ChainIsEveryoneAbove(chart, a);
    if AtOrAbove(chart, b, a) && b != a {
      var n: nat :| Up(chart, a, n) == Some(b);
      assert n >= 1 && Above(chart, b, a);
    }
    if b in Chain(chart, a) {
      var n: nat :| n >= 1 && Up(chart, a, n) == Some(b);
    }
    assert Up(chart, a, 0) == Some(a);
  }

  /** Moving somebody moves nobody above those who are not below them. */
  lemma MovedElsewhere(one: Chart, two: Chart, u: nat, x: nat, b: nat)
    requires (forall y | y != u :: Boss(one, y) == Boss(two, y)) && !AtOrAbove(one, u, x)
    ensures AtOrAbove(one, b, x) <==> AtOrAbove(two, b, x)
  {
    if n: nat :| Up(one, x, n) == Some(b) {
      PastNobody(one, two, u, x, n);
      assert Up(two, x, n) == Some(b);
    }
    if n: nat :| Up(two, x, n) == Some(b) {
      forall k: nat | k < n ensures Up(two, x, k) != Some(u) {
        if Up(two, x, k) == Some(u) {
          FirstHit(two, one, u, x, k);
        }
      }
      PastNobody(two, one, u, x, n);
      assert Up(one, x, n) == Some(b);
    }
  }

  /** Whoever is below `u`, or is `u`, has above them whoever `u` is given as a manager. */
  lemma ThroughTheMoved(one: Chart, two: Chart, u: nat, m: nat, w: nat, b: nat)
    requires (forall y | y != u :: Boss(one, y) == Boss(two, y)) && Boss(two, u) == Some(m)
    requires AtOrAbove(one, u, w) && AtOrAbove(two, b, m)
    ensures AtOrAbove(two, b, w)
  {
    var n: nat :| Up(one, w, n) == Some(u);
    FirstHit(one, two, u, w, n);
    var j: nat :| j <= n && Up(two, w, j) == Some(u);
    var k: nat :| Up(two, m, k) == Some(b);
    UpAdds(two, w, j, k + 1);
    assert Up(two, u, k + 1) == Some(b);
  }

  /** Somebody the chart put above `w` only once `u` was moved is above `u`'s new manager. */
  lemma OnlyThroughTheMoved(one: Chart, two: Chart, u: nat, m: nat, w: nat, b: nat)
    requires (forall y | y != u :: Boss(one, y) == Boss(two, y)) && Boss(two, u) == Some(m) && Acyclic(two)
    requires AtOrAbove(two, b, w) && !AtOrAbove(one, b, w)
    ensures AtOrAbove(one, u, w) && AtOrAbove(two, b, m)
  {
    var n: nat :| Up(two, w, n) == Some(b);
    if AtOrAbove(one, u, w) {
      var i: nat :| Up(one, w, i) == Some(u);
      FirstHit(one, two, u, w, i);
      var j: nat :| j <= i && Up(two, w, j) == Some(u);
      if j < n {
        UpAdds(two, w, j, n - j);
        assert Up(two, m, n - j - 1) == Some(b);
      } else {
        BeforeTheMoved(one, two, u, w, n, j, b);
      }
    } else {
      MovedElsewhere(one, two, u, w, b);
    }
  }

  /** Climbing no further than to `u` for the first time is the same on both charts. */
  lemma BeforeTheMoved(one: Chart, two: Chart, u: nat, w: nat, n: nat, j: nat, b: nat)
    requires (forall y | y != u :: Boss(one, y) == Boss(two, y)) && Acyclic(two)
    requires n <= j && Up(two, w, j) == Some(u) && Up(two, w, n) == Some(b)
    ensures AtOrAbove(one, b, w)
  {
    forall k: nat | k < n ensures Up(two, w, k) != Some(u) {
      if Up(two, w, k) == Some(u) {
        NoReturn(two, u, j - k);
        UpAdds(two, w, k, j - k);
        assert false;
      }
    }
    PastNobody(two, one, u, w, n);
  }

  /** Two edits of different people, each accepted on the same acyclic chart, loop it together if and only if each
      person is, or is above, the other's new manager. */
  lemma TogetherTheyCycleIff(chart: Chart, u: nat, m: nat, v: nat, w: nat)
    requires AcceptedTogether(chart, Edit(u, Some(m)), Edit(v, Some(w))) && u != v
    ensures !Acyclic(Apply(Apply(chart, Edit(u, Some(m))), Edit(v, Some(w))))
       <==> (v == m || v in Chain(chart, m)) && (u == w || u in Chain(chart, w))
  {
    var one, two := chart, Apply(chart, Edit(u, Some(m)));
    StepKeepsAcyclic(chart, Edit(u, Some(m)));
    WouldCycleIsExact(two, v, Some(w));
    AtOrAboveIsInChain(two, v, w);
    AtOrAboveIsInChain(one, v, w);
    AtOrAboveIsInChain(one, u, w);
    AtOrAboveIsInChain(one, v, m);
    AtOrAboveIsInChain(one, u, m);
    assert Boss(two, u) == Some(m);
    MovedElsewhere(one, two, u, m, v);
    if AtOrAbove(one, u, w) && AtOrAbove(one, v, m) {
      ThroughTheMoved(one, two, u, m, w, v);
    }
    if AtOrAbove(two, v, w) {
      OnlyThroughTheMoved(one, two, u, m, w, v);
    }
  }

  /** Two edits of the same person do not: the later one stands. */
  lemma SamePersonIsSafe(chart: Chart, u: nat, m: Option<nat>, w: Option<nat>)
    requires AcceptedTogether(chart, Edit(u, m), Edit(u, w))
    ensures Acyclic(Apply(Apply(chart, Edit(u, m)), Edit(u, w)))
  {
    WouldCycleIsExact(chart, u, w);
    assert chart[u := m][u := w] == chart[u := w];
  }

  /** For instance two people who each become the other's manager. */
  lemma CheckedTogetherMayCycle()
    ensures exists chart, a, b :: AcceptedTogether(chart, a, b) && !Acyclic(Apply(Apply(chart, a), b))
  {
    var chart: Chart := map[1 := None, 2 := None];
    var a, b := Edit(1, Some(2)), Edit(2, Some(1));
    forall x: nat ensures !Above(chart, x, x) {
      assert forall n: nat :: n >= 1 ==> Up(chart, x, n) == None;
    }
    assert Boss(chart, 1) == None && Boss(chart, 2) == None;
    assert Chain(chart, 1) == [] && Chain(chart, 2) == [];
    assert AcceptedTogether(chart, a, b);
    TogetherTheyCycleIff(chart, 1, 2, 2, 1);
  }

  ghost predicate AcceptedTogether(chart: Chart, a: Step, b: Step) {
    Closed(chart) && Acyclic(chart) && Accepted(chart, a) && Accepted(chart, b)
  }
}
