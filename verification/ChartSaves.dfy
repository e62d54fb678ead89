/** Edits of the org chart with their check and their save as two steps, which is what they are: the serializer
    checks, and nothing is locked until the whole row is saved, manager and all, whatever field the edit was of
    (`services/accounts/serializers.py`). */
module ChartSaves {
  import opened Orders
  import opened OrgChart
  import opened ChartEdits

  /** An edit that passed its check and is not saved yet. */
  datatype Pending = Pending(u: nat, manager: Option<nat>)

  /** The chart, every id ever given, the edits checked, and those of them that another save has overtaken. */
  datatype State = State(chart: Chart, ids: set<nat>, checked: map<nat, Pending>, overtaken: set<nat>)

  datatype Move =
    | Check(r: nat, u: nat, manager: Option<nat>)
    | Load(r: nat, u: nat)  // an edit of anything else: its save writes the manager back as it was loaded
    | Save(r: nat)
    | Add(u: nat, manager: Option<nat>)
    | Remove(u: nat)

  ghost predicate Possible(st: State, move: Move) {
    match move
    case Check(r, u, manager) =>
      r !in st.checked && u in st.chart && (manager.Some? ==> manager.value in st.chart)
    case Load(r, u) => r !in st.checked && u in st.chart
    case Save(r) => r in st.checked
    case Add(u, manager) => u !in st.ids && (manager.Some? ==> manager.value in st.chart)
    case Remove(u) => u in st.chart
  }

  /** An edit is saved unless its person or the new manager is gone by then. */
  predicate Stands(chart: Chart, p: Pending) {
    p.u in chart && (p.manager.Some? ==> p.manager.value in chart)
  }

  ghost function Moved(st: State, move: Move): State
    requires Closed(st.chart) && Possible(st, move)
  {
    match move
    case Check(r, u, manager) =>
      if WouldCycle(st.chart, u, manager) then st
      else st.(checked := st.checked[r := Pending(u, manager)], overtaken := st.overtaken - {r})
    case Load(r, u) => st.(checked := st.checked[r := Pending(u, Boss(st.chart, u))], overtaken := st.overtaken - {r})
    case Save(r) =>
      var p, others := st.checked[r], st.checked - {r};
      if Stands(st.chart, p)
      then State(Apply(st.chart, Edit(p.u, p.manager)), st.ids, others, st.overtaken + others.Keys)
      else st.(checked := others)
    case Add(u, manager) => st.(chart := Apply(st.chart, Create(u, manager)), ids := st.ids + {u})
    case Remove(u) => st.(chart := Apply(st.chart, Delete(u)))
  }

  /** No edit is saved that another save has overtaken since its check. */
  ghost predicate Orderly(st: State, moves: seq<Move>, last: State)
    decreases |moves|
  {
    if moves == [] then last == st
    else
      && Closed(st.chart) && Possible(st, moves[0]) && (moves[0].Save? ==> moves[0].r !in st.overtaken)
      && Orderly(Moved(st, moves[0]), moves[1..], last)
  }

  /** A check that nothing has overtaken still stands. */
  ghost predicate Inv(st: State) {
    && Closed(st.chart) && Acyclic(st.chart) && st.chart.Keys <= st.ids
    && forall r | r in st.checked :: CheckHolds(st, r)
  }

  ghost predicate CheckHolds(st: State, r: nat)
    requires Closed(st.chart) && r in st.checked
  {
    var p := st.checked[r];
    && p.u in st.ids && (p.manager.Some? ==> p.manager.value in st.ids)
    && (r !in st.overtaken && Stands(st.chart, p) ==> !WouldCycle(st.chart, p.u, p.manager))
  }

  /** A new member is above nobody who was there before. */
  lemma AddKeepsCheck(chart: Chart, x: nat, boss: Option<nat>, u: nat, m: nat)
    requires Closed(chart) && x !in chart && (boss.Some? ==> boss.value in chart) && m in chart && u in chart
    requires !WouldCycle(chart, u, Some(m))
    ensures Closed(chart[x := boss]) && !WouldCycle(chart[x := boss], u, Some(m))
  {
    var after := chart[x := boss];
    NobodyIsNew(chart, x, m);
    AtOrAboveIsInChain(chart, x, m);
    MovedElsewhere(chart, after, x, m, u);
    AtOrAboveIsInChain(chart, u, m);
    AtOrAboveIsInChain(after, u, m);
  }

  /** Nor does a deletion put anybody above anybody. */
  lemma RemoveKeepsCheck(chart: Chart, x: nat, u: nat, m: nat)
    requires Closed(chart) && m in chart && !WouldCycle(chart, u, Some(m))
    ensures Closed(Apply(chart, Delete(x))) && !WouldCycle(Apply(chart, Delete(x)), u, Some(m))
  {
    var after := Apply(chart, Delete(x));
    AtOrAboveIsInChain(chart, u, m);
    AtOrAboveIsInChain(after, u, m);
    if AtOrAbove(after, u, m) {
      var n: nat :| Up(after, m, n) == Some(u);
      UpOfFewer(chart, after, m, n);
      assert AtOrAbove(chart, u, m);
    }
  }

  lemma AddKeepsInv(st: State, u: nat, manager: Option<nat>)
    requires Inv(st) && Possible(st, Add(u, manager))
    ensures Inv(Moved(st, Add(u, manager)))
  {
    var after := Moved(st, Add(u, manager));
    StepKeepsAcyclic(st.chart, Create(u, manager));
    forall r | r in st.checked ensures CheckHolds(after, r) {
      var p := st.checked[r];
      assert CheckHolds(st, r);
      if p.manager.Some? && Stands(after.chart, p) {
        if r !in st.overtaken {
          AddKeepsCheck(st.chart, u, manager, p.u, p.manager.value);
        }
      }
    }
  }

  lemma RemoveKeepsInv(st: State, u: nat)
    requires Inv(st) && Possible(st, Remove(u))
    ensures Inv(Moved(st, Remove(u)))
  {
    var after := Moved(st, Remove(u));
    StepKeepsAcyclic(st.chart, Delete(u));
    forall r | r in st.checked ensures CheckHolds(after, r) {
      var p := st.checked[r];
      assert CheckHolds(st, r);
      if p.manager.Some? && Stands(after.chart, p) {
        if r !in st.overtaken {
          RemoveKeepsCheck(st.chart, u, p.u, p.manager.value);
        }
      }
    }
  }

  lemma SaveKeepsInv(st: State, r: nat)
    requires Inv(st) && r in st.checked && r !in st.overtaken
    ensures Inv(Moved(st, Save(r)))
  {
    var p, after := st.checked[r], Moved(st, Save(r));
    assert CheckHolds(st, r);
    if Stands(st.chart, p) {
      StepKeepsAcyclic(st.chart, Edit(p.u, p.manager));
    }
    forall o | o in after.checked ensures CheckHolds(after, o) {
      assert CheckHolds(st, o);
    }
  }

  /** On an acyclic chart one's own manager is accepted again. */
  lemma OwnManagerIsAccepted(chart: Chart, u: nat)
    requires Closed(chart) && Acyclic(chart) && u in chart
    ensures !WouldCycle(chart, u, Boss(chart, u))
  {
    WouldCycleIsExact(chart, u, Boss(chart, u));
    assert Apply(chart, Edit(u, Boss(chart, u))) == chart;
  }

  lemma LoadKeepsInv(st: State, r: nat, u: nat)
    requires Inv(st) && Possible(st, Load(r, u))
    ensures Inv(Moved(st, Load(r, u)))
  {
    var after := Moved(st, Load(r, u));
    OwnManagerIsAccepted(st.chart, u);
    forall o | o in after.checked ensures CheckHolds(after, o) {
      assert o in st.checked ==> CheckHolds(st, o);
    }
  }

  lemma MoveKeepsInv(st: State, move: Move)
    requires Inv(st) && Possible(st, move) && (move.Save? ==> move.r !in st.overtaken)
    ensures Inv(Moved(st, move))
  {
    match move
    case Check(r, u, manager) =>
      var after := Moved(st, move);
      forall o | o in after.checked ensures CheckHolds(after, o) {
        assert o in st.checked ==> CheckHolds(st, o);
      }
    case Load(r, u) => LoadKeepsInv(st, r, u);
    case Save(r) => SaveKeepsInv(st, r);
    case Add(u, manager) => AddKeepsInv(st, u, manager);
    case Remove(u) => RemoveKeepsInv(st, u);
  }

  /** The chart stays acyclic over every run of checks, loads, saves, creations and deletions in which no other edit,
      of whatever field, is saved between an edit's check or load and its save; creations and deletions may be. */
  lemma {:induction false} OrderlyStaysAcyclic(st: State, moves: seq<Move>, last: State)
    requires Inv(st) && Orderly(st, moves, last)
    ensures Closed(last.chart) && Acyclic(last.chart)
    decreases |moves|
  {
    if moves != [] {
      MoveKeepsInv(st, moves[0]);
      OrderlyStaysAcyclic(Moved(st, moves[0]), moves[1..], last);
    }
  }

  /** Whatever has been saved since, an edit whose people are still there loops the chart exactly when the check,
      made again as it is saved, would refuse it. */
  lemma LateSaveCyclesIff(chart: Chart, p: Pending)
    requires Closed(chart) && Acyclic(chart) && Stands(chart, p)
    ensures !Acyclic(Apply(chart, Edit(p.u, p.manager))) <==> WouldCycle(chart, p.u, p.manager)
  {
    WouldCycleIsExact(chart, p.u, p.manager);
  }

  /** An edit of a name can loop the chart: loaded before its person's manager is taken away, and saved after that
      manager was put below its person, it brings the manager back. */
  lemma LoadedManagerReturns(chart: Chart, u: nat, m: nat)
    requires Closed(chart) && Acyclic(chart) && u in chart && chart[u] == Some(m) && m in chart && chart[m] == None
    ensures u != m && !WouldCycle(chart, u, None) && Closed(Apply(chart, Edit(u, None)))
    ensures var freed := Apply(chart, Edit(u, None));
      && !WouldCycle(freed, m, Some(u))
      && !Acyclic(Apply(Apply(freed, Edit(m, Some(u))), Edit(u, Boss(chart, u))))
  {
    assert Up(chart, u, 1) == Some(m) && !Above(chart, u, u);
    var freed := Apply(chart, Edit(u, None));
    assert Boss(freed, u) == None && Chain(freed, u) == [];
    var looped := Apply(Apply(freed, Edit(m, Some(u))), Edit(u, Boss(chart, u)));
    assert Boss(looped, u) == Some(m) && Boss(looped, m) == Some(u);
    assert Up(looped, u, 1) == Some(m);
    assert Up(looped, u, 2) == Some(u);
    assert Above(looped, u, u);
  }
}
