/** The snapshots a send stores do not depend on the order or the repetition of its history. */
module SnapshotOrder {
  import opened Orders
  import opened Snapshots
  import opened Conversations
  import opened Provenance
  import opened Soundness
  import opened SharedRuns

  /** The same replies, in any order and any number. */
  ghost predicate SameHistory(w: seq<Fed>, u: seq<Fed>) {
    Elements(w) == Elements(u)
  }

  lemma SameHistoryKnown<S>(turns: seq<Turn>, start: Option<S>, w: seq<Fed>, u: seq<Fed>,
                            of: (Answer, Json) -> Option<S>, union: (S, S) -> S)
    requires WalkOf(turns, w) && WalkOf(turns, u) && SameHistory(w, u)
    ensures Fold(turns, start, w, of, union).Some? ==> Fold(turns, start, u, of, union).Some?
  {
    FoldIsKnownIff(turns, start, w, of, union);
    FoldIsKnownIff(turns, start, u, of, union);
    forall i | 0 <= i < |u| ensures u[i] in w {
      assert u[i] in Elements(u);
    }
  }

  lemma SameHistoryContents<S, E>(turns: seq<Turn>, w: seq<Fed>, u: seq<Fed>, of: (Answer, Json) -> Option<S>,
                                  content: S -> set<E>)
    requires WalkOf(turns, w) && WalkOf(turns, u) && SameHistory(w, u)
    ensures Contents(turns, w, of, content) <= Contents(turns, u, of, content)
  {
    forall e | e in Contents(turns, w, of, content) ensures e in Contents(turns, u, of, content) {
      var i :| 0 <= i < |w| && e in ContentOf(turns, w[i], of, content);
      assert w[i] in Elements(w);
      var j :| 0 <= j < |u| && u[j] == w[i];
      assert e in ContentOf(turns, u[j], of, content);
    }
  }

  /** The content of a known fold is the same for the same history. */
  lemma SameHistoryHolds<S(!new), E>(turns: seq<Turn>, start: Option<S>, w: seq<Fed>, u: seq<Fed>,
                               of: (Answer, Json) -> Option<S>, union: (S, S) -> S, content: S -> set<E>)
    requires WalkOf(turns, w) && WalkOf(turns, u) && SameHistory(w, u)
    requires forall a, b :: content(union(a, b)) == content(a) + content(b)
    ensures var f, g := Fold(turns, start, w, of, union), Fold(turns, start, u, of, union);
      (f.Some? <==> g.Some?) && (f.Some? ==> content(f.value) == content(g.value))
  {
    SameHistoryKnown(turns, start, w, u, of, union);
    SameHistoryKnown(turns, start, u, w, of, union);
    SameHistoryContents(turns, w, u, of, content);
    SameHistoryContents(turns, u, w, of, content);
    FoldHolds(turns, start, w, of, union, content);
    FoldHolds(turns, start, u, of, union, content);
  }

  /** A fold over some history is a union, and so in its one canonical order. */
  lemma FoldIsUnion<S>(turns: seq<Turn>, start: Option<S>, w: seq<Fed>, of: (Answer, Json) -> Option<S>,
                       union: (S, S) -> S)
    returns (a: S, b: S)
    requires WalkOf(turns, w) && w != [] && Fold(turns, start, w, of, union).Some?
    ensures Fold(turns, start, w, of, union) == Some(union(a, b))
  {
    var before, x := Fold(turns, start, w[..|w| - 1], of, union), w[|w| - 1];
    a, b := before.value, of(turns[x.turn].answer, x.context).value;
  }

  lemma SameCounted(turns: seq<Turn>, start: Option<Counted>, w: seq<Fed>, u: seq<Fed>,
                    of: (Answer, Json) -> Option<Counted>)
    requires WalkOf(turns, w) && WalkOf(turns, u) && SameHistory(w, u)
    ensures Fold(turns, start, w, of, UnionCounted) == Fold(turns, start, u, of, UnionCounted)
  {
    ContentsAdd();
    SameHistoryHolds(turns, start, w, u, of, UnionCounted, AccountsIn);
    SameHistoryHolds(turns, start, w, u, of, UnionCounted, DepartmentsIn);
    var f, g := Fold(turns, start, w, of, UnionCounted), Fold(turns, start, u, of, UnionCounted);
    if u != [] {
      NonEmptyTogether(u, w);
    }
    if w != [] && f.Some? {
      NonEmptyTogether(w, u);
      var a, b := FoldIsUnion(turns, start, w, of, UnionCounted);
      var c, d := FoldIsUnion(turns, start, u, of, UnionCounted);
      UnionIsCanonical(a, b, c, d);
    }
  }

  lemma UnionIsCanonical(a: Counted, b: Counted, c: Counted, d: Counted)
    requires AccountsIn(UnionCounted(a, b)) == AccountsIn(UnionCounted(c, d))
    requires DepartmentsIn(UnionCounted(a, b)) == DepartmentsIn(UnionCounted(c, d))
    ensures UnionCounted(a, b) == UnionCounted(c, d)
  {
    TextLeIsTotal();
    SortedSetSorts(a.accounts + b.accounts, IntLe);
    SortedSetSorts(c.accounts + d.accounts, IntLe);
    SortedSetSorts(a.departments + b.departments, TextLe);
    SortedSetSorts(c.departments + d.departments, TextLe);
    SortedIsCanonical(UnionCounted(a, b).accounts, UnionCounted(c, d).accounts, IntLe);
    SortedIsCanonical(UnionCounted(a, b).departments, UnionCounted(c, d).departments, TextLe);
  }

  lemma NonEmptyTogether(w: seq<Fed>, u: seq<Fed>)
    requires SameHistory(w, u) && w != []
    ensures u != []
  {
    assert w[0] in Elements(w);
    assert w[0] in u;
  }

  lemma SameRecords(turns: seq<Turn>, start: Option<seq<Ref>>, w: seq<Fed>, u: seq<Fed>)
    requires WalkOf(turns, w) && WalkOf(turns, u) && SameHistory(w, u)
    ensures Fold(turns, start, w, RecordsOf, UnionRecords) == Fold(turns, start, u, RecordsOf, UnionRecords)
  {
    ContentsAdd();
    SameHistoryHolds(turns, start, w, u, RecordsOf, UnionRecords, RefsIn);
    var f, g := Fold(turns, start, w, RecordsOf, UnionRecords), Fold(turns, start, u, RecordsOf, UnionRecords);
    if u != [] {
      NonEmptyTogether(u, w);
    }
    if w != [] && f.Some? {
      NonEmptyTogether(w, u);
      var a, b := FoldIsUnion(turns, start, w, RecordsOf, UnionRecords);
      var c, d := FoldIsUnion(turns, start, u, RecordsOf, UnionRecords);
      RefLeIsTotal();
      UnionRecordsAdds(a, b);
      UnionRecordsAdds(c, d);
      SortedIsCanonical(f.value, g.value, RefLe);
    }
  }

  ghost predicate SomeFolds(w: seq<Fed>) {
    exists x :: x in w && x.Folds?
  }

  ghost predicate SomeCarries(turns: seq<Turn>, w: seq<Fed>)
    requires WalkOf(turns, w)
  {
    exists i :: 0 <= i < |w| && w[i].Folds? && turns[w[i].turn].answer.carries != Some(false)
  }

  lemma SomeCarriesAppends(turns: seq<Turn>, w: seq<Fed>)
    requires WalkOf(turns, w) && w != []
    ensures var init, x := w[..|w| - 1], w[|w| - 1];
      && (SomeFolds(w) <==> SomeFolds(init) || x.Folds?)
      && (SomeCarries(turns, w)
          <==> SomeCarries(turns, init) || (x.Folds? && turns[x.turn].answer.carries != Some(false)))
  {
    var init, x := w[..|w| - 1], w[|w| - 1];
    assert forall y :: y in w <==> y in init || y == x;
    if SomeCarries(turns, init) {
      var i :| 0 <= i < |init| && init[i].Folds? && turns[init[i].turn].answer.carries != Some(false);
      assert w[i] == init[i];
    }
    if SomeCarries(turns, w) {
      var i :| 0 <= i < |w| && w[i].Folds? && turns[w[i].turn].answer.carries != Some(false);
      if i < |init| {
        assert init[i] == w[i];
      }
    }
  }

  lemma {:induction false} FoldCarriesIs(turns: seq<Turn>, start: Option<bool>, w: seq<Fed>)
    requires WalkOf(turns, w)
    ensures FoldCarries(turns, start, w)
         == if SomeFolds(w) then Some(start == Some(true) || SomeCarries(turns, w)) else start
  {
    if w != [] {
      FoldCarriesIs(turns, start, w[..|w| - 1]);
      SomeCarriesAppends(turns, w);
    }
  }

  lemma SomeOfSame(turns: seq<Turn>, w: seq<Fed>, u: seq<Fed>)
    requires WalkOf(turns, w) && WalkOf(turns, u) && SameHistory(w, u)
    ensures (SomeFolds(w) ==> SomeFolds(u)) && (SomeCarries(turns, w) ==> SomeCarries(turns, u))
  {
    forall i | 0 <= i < |w| ensures w[i] in u {
      assert w[i] in Elements(w);
    }
    if SomeCarries(turns, w) {
      var i :| 0 <= i < |w| && w[i].Folds? && turns[w[i].turn].answer.carries != Some(false);
      var j :| 0 <= j < |u| && u[j] == w[i];
    }
  }

  lemma SameCarries(turns: seq<Turn>, start: Option<bool>, w: seq<Fed>, u: seq<Fed>)
    requires WalkOf(turns, w) && WalkOf(turns, u) && SameHistory(w, u)
    ensures FoldCarries(turns, start, w) == FoldCarries(turns, start, u)
  {
    FoldCarriesIs(turns, start, w);
    FoldCarriesIs(turns, start, u);
    SomeOfSame(turns, w, u);
    SomeOfSame(turns, u, w);
  }

  /** Every reply of the history that is heard names its question. */
  ghost predicate NamesQuestions(turns: seq<Turn>, fed: seq<Seen>)
    requires InRange(turns, fed)
  {
    forall k | 0 <= k < |fed| && Heard(turns, fed[k]) :: turns[fed[k].turn].answer.replyTo.Some?
  }

  /** A reply that names its question is taken the same way wherever it stands. */
  lemma {:induction false} WalkMembers(turns: seq<Turn>, fed: seq<Seen>, other: seq<Seen>, asking: bool, n: nat)
    requires n <= |fed| && InRange(turns, fed) && InRange(turns, other) && NamesQuestions(turns, fed)
    requires forall e | e in fed :: e in other
    ensures Elements(Walk(turns, fed, asking, n)) <= Elements(Walk(turns, other, asking, |other|))
  {
    if n > 0 {
      WalkMembers(turns, fed, other, asking, n - 1);
      var e := fed[n - 1];
      assert e in fed;
      var k :| 0 <= k < |other| && other[k] == e;
      assert Contribution(turns, fed, asking, n - 1) == Contribution(turns, other, asking, k);
      WalkHolds(turns, other, asking, k, |other|);
    }
  }

  /** Two histories with the same turns, in any order and however often repeated, leave the very same
      snapshots on the reply, when the replies among them that are heard name their questions. */
  lemma SnapshotsIgnoreOrder(turns: seq<Turn>, fed: seq<Seen>, other: seq<Seen>, ask: Json, seesAll: bool,
                             g: Grounding, q: nat)
    requires InRange(turns, fed) && InRange(turns, other) && NamesQuestions(turns, fed)
    requires Elements(fed) == Elements(other) && (ask == Null || ValidAsk(ask))
    ensures NewAnswer(turns, fed, ask, seesAll, g, q) == NewAnswer(turns, other, ask, seesAll, g, q)
  {
    forall e ensures e in fed <==> e in other {
      assert e in Elements(fed) <==> e in Elements(other);
    }
    assert NamesQuestions(turns, other) by {
      forall k | 0 <= k < |other| && Heard(turns, other[k]) ensures turns[other[k].turn].answer.replyTo.Some? {
        assert other[k] in fed;
      }
    }
    WalkMembers(turns, fed, other, ask != Null, |fed|);
    WalkMembers(turns, other, fed, ask != Null, |other|);
    var w, u := Walk(turns, fed, ask != Null, |fed|), Walk(turns, other, ask != Null, |other|);
    assert WalkOf(turns, w) && WalkOf(turns, u) && SameHistory(w, u);
    SameCarries(turns, OwnCarries(ask, seesAll), w, u);
    SameHistoryHolds(turns, OwnIds(ask, g), w, u, IdsOf, UnionIds, (s: set<int>) => s);
    SameCounted(turns, OwnCounted(ask, g.pipeline), w, u, PipelineOf);
    SameCounted(turns, OwnCounted(ask, g.tickets), w, u, TicketsOf);
    SameRecords(turns, OwnRecords(ask, g.records), w, u);
  }

  /** Where one reply does not name its question, order matters: fed after its Ask question it marks the new reply,
      fed after another question it does not, though the turns are the same. */
  lemma OrderMattersWithoutAQuestion(turns: seq<Turn>, g: Grounding, q: nat)
    requires |turns| == 3 && turns[0].Question? && Truthy(turns[0].context)
    requires turns[1].Question? && !Truthy(turns[1].context)
    requires turns[2].Reply? && turns[2].answer.replyTo.None? && turns[2].answer.carries.None?
    ensures var asked, other, reply := Seen(0, false, false), Seen(1, false, false), Seen(2, false, false);
      && NewAnswer(turns, [other, asked, reply], Null, false, g, q).carries.Some?
      && NewAnswer(turns, [asked, other, reply], Null, false, g, q).carries.None?
  {
    var asked, other, reply := Seen(0, false, false), Seen(1, false, false), Seen(2, false, false);
    LastOfThree(turns, [other, asked, reply], g, q);
    LastOfThree(turns, [asked, other, reply], g, q);
  }

  /** Two questions and then such a reply: it is taken to answer the second. */
  lemma LastOfThree(turns: seq<Turn>, fed: seq<Seen>, g: Grounding, q: nat)
    requires InRange(turns, fed) && |fed| == 3 && turns[fed[0].turn].Question? && turns[fed[1].turn].Question?
    requires Heard(turns, fed[2]) && !fed[1].contextHidden
    requires turns[fed[2].turn].answer.replyTo.None? && turns[fed[2].turn].answer.carries.None?
    ensures NewAnswer(turns, fed, Null, false, g, q).carries.Some? <==> Truthy(turns[fed[1].turn].context)
  {
    var context := turns[fed[1].turn].context;
    assert Walk(turns, fed, false, 0) == [] && Walk(turns, fed, false, 1) == [] && Walk(turns, fed, false, 2) == [];
    assert LastSeen(turns, fed, 2) == context;
    assert Walk(turns, fed, false, 3) == if Truthy(context) then [Folds(fed[2].turn, context)] else [];
  }
}
