/** What the snapshots of a reply do not answer for: what plain digests drew on without citing it
    (`services/copilot/views.py`, `services/copilot/context.py`). */
module Escapes {
  import opened Orders
  import opened Snapshots
  import opened Conversations
  import opened Provenance
  import opened Soundness
  import opened SharedRuns
  import opened SharedReading
  import opened SendMessage

  // ---------------------------------------------------------------- what a fold holds, exactly

  ghost predicate HoldsIn<S, E>(turns: seq<Turn>, x: Fed, of: (Answer, Json) -> Option<S>, content: S -> set<E>, e: E)
    requires x.Folds? ==> x.turn < |turns| && turns[x.turn].Reply?
  {
    x.Folds? && (of(turns[x.turn].answer, x.context).Some? ==> e in content(of(turns[x.turn].answer, x.context).value))
  }

  /** A fold is unknown or holds something exactly when its own grounding is or does, something blocks it, or one
      of the snapshots folded in is or does. */
  lemma FoldHoldsIff<S(!new), E>(turns: seq<Turn>, start: Option<S>, w: seq<Fed>, of: (Answer, Json) -> Option<S>,
                                 union: (S, S) -> S, content: S -> set<E>, e: E)
    requires WalkOf(turns, w)
    requires forall a, b :: content(union(a, b)) == content(a) + content(b)
    ensures var fold := Fold(turns, start, w, of, union);
      (fold.Some? ==> e in content(fold.value))
      <==> (start.Some? ==> e in content(start.value)) || Blocks in w
           || exists i :: 0 <= i < |w| && HoldsIn(turns, w[i], of, content, e)
  {
    var fold := Fold(turns, start, w, of, union);
    FoldIsKnownIff(turns, start, w, of, union);
    FoldHolds(turns, start, w, of, union, content);
    if fold.None? {
      if start.Some? {
        var i :| 0 <= i < |w| && !(w[i].Folds? && of(turns[w[i].turn].answer, w[i].context).Some?);
        assert w[i] == Blocks || HoldsIn(turns, w[i], of, content, e);
      }
    } else {
      if e in Contents(turns, w, of, content) {
        var i :| 0 <= i < |w| && e in ContentOf(turns, w[i], of, content);
        assert HoldsIn(turns, w[i], of, content, e);
      }
      if i :| 0 <= i < |w| && HoldsIn(turns, w[i], of, content, e) {
        assert e in ContentOf(turns, w[i], of, content);
      }
    }
  }

  /** Whether the mark is found in the snapshots of a folded reply, as the walk reads them. */
  ghost predicate FoundIn(turns: seq<Turn>, x: Fed, m: Mark)
    requires x.Folds? ==> x.turn < |turns| && turns[x.turn].Reply?
  {
    x.Folds? &&
      var a := turns[x.turn].answer;
      IsFound(m, StoredIds(a.customerIds), a.carries, PipelineOf(a, x.context), TicketsOf(a, x.context),
             RecordsOf(a, x.context))
  }

  ghost predicate SomeFinds(turns: seq<Turn>, w: seq<Fed>, m: Mark)
    requires WalkOf(turns, w)
  {
    exists i :: 0 <= i < |w| && FoundIn(turns, w[i], m)
  }

  lemma {:induction false} CarriesIsTrueIff(turns: seq<Turn>, start: Option<bool>, w: seq<Fed>)
    requires WalkOf(turns, w)
    ensures FoldCarries(turns, start, w) == Some(true)
       <==> start == Some(true)
            || exists i :: 0 <= i < |w| && w[i].Folds? && turns[w[i].turn].answer.carries != Some(false)
    ensures FoldCarries(turns, start, w).None? <==> start.None? && forall i | 0 <= i < |w| :: w[i].Blocks?
  {
    if w != [] {
      CarriesIsTrueIff(turns, start, w[..|w| - 1]);
    }
  }

  /** A fold in terms of one mark, when the content holds `e` just where the snapshot is looked up for it. */
  lemma MarkHoldsIff<S(!new), E>(turns: seq<Turn>, start: Option<S>, w: seq<Fed>, of: (Answer, Json) -> Option<S>,
                                 union: (S, S) -> S, content: S -> set<E>, e: E, m: Mark)
    requires WalkOf(turns, w)
    requires forall a, b :: content(union(a, b)) == content(a) + content(b)
    requires forall i | 0 <= i < |w| :: HoldsIn(turns, w[i], of, content, e) <==> FoundIn(turns, w[i], m)
    ensures var fold := Fold(turns, start, w, of, union);
      (fold.Some? ==> e in content(fold.value))
      <==> (start.Some? ==> e in content(start.value)) || Blocks in w || SomeFinds(turns, w, m)
  {
    FoldHoldsIff(turns, start, w, of, union, content, e);
    if SomeFinds(turns, w, m) {
      var i :| 0 <= i < |w| && FoundIn(turns, w[i], m);
      assert HoldsIn(turns, w[i], of, content, e);
    }
  }

  lemma AnomalyHoldsIff(turns: seq<Turn>, start: Option<set<int>>, carries: Option<bool>, w: seq<Fed>)
    requires WalkOf(turns, w) && FoldCarries(turns, carries, w).Some?
    ensures (Fold(turns, start, w, IdsOf, UnionIds).Some? ==> FoldCarries(turns, carries, w) != Some(false))
       <==> start.None? || carries == Some(true) || Blocks in w || SomeFinds(turns, w, AnomalyText)
  {
    FoldIsKnownIff(turns, start, w, IdsOf, UnionIds);
    CarriesIsTrueIff(turns, carries, w);
    var fold := Fold(turns, start, w, IdsOf, UnionIds);
    if fold.None? {
      if start.Some? {
        var i :| 0 <= i < |w| && !(w[i].Folds? && IdsOf(turns[w[i].turn].answer, w[i].context).Some?);
        assert w[i] == Blocks || FoundIn(turns, w[i], AnomalyText);
      }
    } else if FoldCarries(turns, carries, w) == Some(true) {
      if carries != Some(true) {
        var i :| 0 <= i < |w| && w[i].Folds? && turns[w[i].turn].answer.carries != Some(false);
        assert FoundIn(turns, w[i], AnomalyText);
      }
    } else {
      var carried := FoldCarries(turns, carries, w).value;
      assert !carried && Blocks !in w;
      forall i | 0 <= i < |w| ensures !FoundIn(turns, w[i], AnomalyText) {
        assert w[i].Folds? && IdsOf(turns[w[i].turn].answer, w[i].context).Some?;
      }
    }
  }

  // ---------------------------------------------------------------- what a new reply holds, exactly

  /** Whether the mark is found so in an Ask send's own grounding. */
  ghost predicate OwnFinds(ask: Json, seesAll: bool, g: Grounding, m: Mark)
    requires ask == Null || ValidAsk(ask)
  {
    ask != Null && IsFound(m, OwnIds(ask, g), OwnCarries(ask, seesAll), OwnCounted(ask, g.pipeline),
                          OwnCounted(ask, g.tickets), OwnRecords(ask, g.records))
  }

  function Itself(ids: set<int>): set<int> {
    ids
  }

  lemma CustomerHoldsIff(turns: seq<Turn>, fed: seq<Seen>, ask: Json, g: Grounding, c: int)
    requires InRange(turns, fed) && (ask == Null || ValidAsk(ask))
    ensures var w, ids := Walk(turns, fed, ask != Null, |fed|), FoldsOf(turns, fed, ask, g).0;
      (ids.Some? ==> c in ids.value)
      <==> OwnFinds(ask, false, g, Customer(c)) || Blocks in w || SomeFinds(turns, w, Customer(c))
  {
    var w := Walk(turns, fed, ask != Null, |fed|);
    MarkHoldsIff(turns, OwnIds(ask, g), w, IdsOf, UnionIds, Itself, c, Customer(c));
  }

  lemma AccountHoldsIff(turns: seq<Turn>, fed: seq<Seen>, ask: Json, g: Grounding, n: int)
    requires InRange(turns, fed) && (ask == Null || ValidAsk(ask))
    ensures var w, folds := Walk(turns, fed, ask != Null, |fed|), FoldsOf(turns, fed, ask, g);
      && ((folds.1.Some? ==> n in AccountsIn(folds.1.value))
          <==> OwnFinds(ask, false, g, PipelineAccount(n)) || Blocks in w || SomeFinds(turns, w, PipelineAccount(n)))
      && ((folds.2.Some? ==> n in AccountsIn(folds.2.value))
          <==> OwnFinds(ask, false, g, TicketAccount(n)) || Blocks in w || SomeFinds(turns, w, TicketAccount(n)))
  {
    var w := Walk(turns, fed, ask != Null, |fed|);
    ContentsAdd();
    MarkHoldsIff(turns, OwnCounted(ask, g.pipeline), w, PipelineOf, UnionCounted, AccountsIn, n, PipelineAccount(n));
    MarkHoldsIff(turns, OwnCounted(ask, g.tickets), w, TicketsOf, UnionCounted, AccountsIn, n, TicketAccount(n));
  }

  lemma DepartmentHoldsIff(turns: seq<Turn>, fed: seq<Seen>, ask: Json, g: Grounding, d: string)
    requires InRange(turns, fed) && (ask == Null || ValidAsk(ask))
    ensures var w, folds := Walk(turns, fed, ask != Null, |fed|), FoldsOf(turns, fed, ask, g);
      && ((folds.1.Some? ==> d in DepartmentsIn(folds.1.value))
          <==> OwnFinds(ask, false, g, PipelineDepartment(d)) || Blocks in w
               || SomeFinds(turns, w, PipelineDepartment(d)))
      && ((folds.2.Some? ==> d in DepartmentsIn(folds.2.value))
          <==> OwnFinds(ask, false, g, TicketDepartment(d)) || Blocks in w
               || SomeFinds(turns, w, TicketDepartment(d)))
  {
    var w := Walk(turns, fed, ask != Null, |fed|);
    ContentsAdd();
    MarkHoldsIff(turns, OwnCounted(ask, g.pipeline), w, PipelineOf, UnionCounted, DepartmentsIn, d,
                 PipelineDepartment(d));
    MarkHoldsIff(turns, OwnCounted(ask, g.tickets), w, TicketsOf, UnionCounted, DepartmentsIn, d,
                 TicketDepartment(d));
  }

  lemma RecordHoldsIff(turns: seq<Turn>, fed: seq<Seen>, ask: Json, g: Grounding, ref: Ref)
    requires InRange(turns, fed) && (ask == Null || ValidAsk(ask))
    ensures var w, records := Walk(turns, fed, ask != Null, |fed|), FoldsOf(turns, fed, ask, g).3;
      (records.Some? ==> ref in RefsIn(records.value))
      <==> OwnFinds(ask, false, g, Record(ref)) || Blocks in w || SomeFinds(turns, w, Record(ref))
  {
    var w := Walk(turns, fed, ask != Null, |fed|);
    ContentsAdd();
    MarkHoldsIff(turns, OwnRecords(ask, g.records), w, RecordsOf, UnionRecords, RefsIn, ref, Record(ref));
  }

  lemma FoldsFindIff(turns: seq<Turn>, fed: seq<Seen>, ask: Json, seesAll: bool, g: Grounding, m: Mark)
    requires InRange(turns, fed) && (ask == Null || ValidAsk(ask))
    requires FoldCarries(turns, OwnCarries(ask, seesAll), Walk(turns, fed, ask != Null, |fed|)).Some?
    ensures var w, folds := Walk(turns, fed, ask != Null, |fed|), FoldsOf(turns, fed, ask, g);
      IsFound(m, folds.0, FoldCarries(turns, OwnCarries(ask, seesAll), w), folds.1, folds.2, folds.3)
      <==> OwnFinds(ask, seesAll, g, m) || Blocks in w || SomeFinds(turns, w, m)
  {
    match m
    case Customer(c) => CustomerHoldsIff(turns, fed, ask, g, c);
    case AnomalyText =>
      AnomalyHoldsIff(turns, OwnIds(ask, g), OwnCarries(ask, seesAll), Walk(turns, fed, ask != Null, |fed|));
    case PipelineAccount(n) => AccountHoldsIff(turns, fed, ask, g, n);
    case PipelineDepartment(d) => DepartmentHoldsIff(turns, fed, ask, g, d);
    case TicketAccount(n) => AccountHoldsIff(turns, fed, ask, g, n);
    case TicketDepartment(d) => DepartmentHoldsIff(turns, fed, ask, g, d);
    case Record(ref) => RecordHoldsIff(turns, fed, ask, g, ref);
  }

  /** A mark is found in the snapshots of a marked new reply exactly when it is in its own Ask grounding, a reply it
      was fed blocks, or it is found in one that it folds in. */
  lemma NewAnswerFindsIff(turns: seq<Turn>, fed: seq<Seen>, ask: Json, seesAll: bool, g: Grounding, q: nat, m: Mark)
    requires InRange(turns, fed) && (ask == Null || ValidAsk(ask))
    ensures var a, w := NewAnswer(turns, fed, ask, seesAll, g, q), Walk(turns, fed, ask != Null, |fed|);
      a.carries.Some? ==>
        (IsFound(m, StoredIds(a.customerIds), a.carries, PipelineOf(a, ask), TicketsOf(a, ask), RecordsOf(a, ask))
         <==> OwnFinds(ask, seesAll, g, m) || Blocks in w || SomeFinds(turns, w, m))
  {
    if NewAnswer(turns, fed, ask, seesAll, g, q).carries.Some? {
      NewAnswerReadsBack(turns, fed, ask, seesAll, g, q, ask);
      FoldsFindIff(turns, fed, ask, seesAll, g, m);
    }
  }

  ghost predicate SomeUnknown(turns: seq<Turn>, w: seq<Fed>)
    requires WalkOf(turns, w)
  {
    exists i :: 0 <= i < |w| && w[i].Folds? && StoredIds(turns[w[i].turn].answer.customerIds).None?
  }

  lemma IdsUnknownIff(turns: seq<Turn>, start: Option<set<int>>, w: seq<Fed>)
    requires WalkOf(turns, w)
    ensures Fold(turns, start, w, IdsOf, UnionIds).None?
       <==> start.None? || Blocks in w || SomeUnknown(turns, w)
  {
    FoldIsKnownIff(turns, start, w, IdsOf, UnionIds);
    if start.Some? && Fold(turns, start, w, IdsOf, UnionIds).None? {
      var i :| 0 <= i < |w| && !(w[i].Folds? && IdsOf(turns[w[i].turn].answer, w[i].context).Some?);
      assert w[i] == Blocks || w[i].Folds?;
    }
  }

  /** Whether the snapshots of a folded reply, as the walk reads them, answer for the mark. */
  ghost predicate HeldIn(turns: seq<Turn>, x: Fed, m: Mark)
    requires x.Folds? ==> x.turn < |turns| && turns[x.turn].Reply?
  {
    x.Folds? && Held(m, turns[x.turn].answer, x.context)
  }

  ghost predicate SomeHolds(turns: seq<Turn>, w: seq<Fed>, m: Mark)
    requires WalkOf(turns, w)
  {
    exists i :: 0 <= i < |w| && HeldIn(turns, w[i], m)
  }

  lemma SomeHoldsSplits(turns: seq<Turn>, w: seq<Fed>, m: Mark)
    requires WalkOf(turns, w)
    ensures SomeHolds(turns, w, m) <==> SomeUnknown(turns, w) || SomeFinds(turns, w, m)
  {
    if SomeHolds(turns, w, m) {
      var i :| 0 <= i < |w| && HeldIn(turns, w[i], m);
      assert FoundIn(turns, w[i], m) || StoredIds(turns[w[i].turn].answer.customerIds).None?;
    }
    if SomeUnknown(turns, w) {
      var i :| 0 <= i < |w| && w[i].Folds? && StoredIds(turns[w[i].turn].answer.customerIds).None?;
      assert HeldIn(turns, w[i], m);
    }
    if SomeFinds(turns, w, m) {
      var i :| 0 <= i < |w| && FoundIn(turns, w[i], m);
      assert HeldIn(turns, w[i], m);
    }
  }

  /** Whether an Ask send's own grounding answers for the mark. */
  ghost predicate OwnHolds(ask: Json, seesAll: bool, g: Grounding, m: Mark)
    requires ask == Null || ValidAsk(ask)
  {
    ask != Null && HeldBy(m, OwnIds(ask, g), OwnCarries(ask, seesAll), OwnCounted(ask, g.pipeline),
                          OwnCounted(ask, g.tickets), OwnRecords(ask, g.records))
  }

  lemma FoldsHoldIff(turns: seq<Turn>, fed: seq<Seen>, ask: Json, seesAll: bool, g: Grounding, m: Mark)
    requires InRange(turns, fed) && (ask == Null || ValidAsk(ask))
    requires FoldCarries(turns, OwnCarries(ask, seesAll), Walk(turns, fed, ask != Null, |fed|)).Some?
    ensures var w, folds := Walk(turns, fed, ask != Null, |fed|), FoldsOf(turns, fed, ask, g);
      HeldBy(m, folds.0, FoldCarries(turns, OwnCarries(ask, seesAll), w), folds.1, folds.2, folds.3)
      <==> OwnHolds(ask, seesAll, g, m) || Blocks in w || SomeHolds(turns, w, m)
  {
    var w := Walk(turns, fed, ask != Null, |fed|);
    WalkIsAWalk(turns, fed, ask != Null, |fed|);
    IdsUnknownIff(turns, OwnIds(ask, g), w);
    SomeHoldsSplits(turns, w, m);
    FoldsFindIff(turns, fed, ask, seesAll, g, m);
  }

  /** The snapshots of a marked new reply answer for a mark exactly when its own Ask grounding does, a reply it was fed
      blocks, or one that it folds in does. */
  lemma NewAnswerHoldsIff(turns: seq<Turn>, fed: seq<Seen>, ask: Json, seesAll: bool, g: Grounding, q: nat, m: Mark)
    requires InRange(turns, fed) && (ask == Null || ValidAsk(ask))
    ensures var a, w := NewAnswer(turns, fed, ask, seesAll, g, q), Walk(turns, fed, ask != Null, |fed|);
      a.carries.Some? ==>
        (Held(m, a, ask) <==> OwnHolds(ask, seesAll, g, m) || Blocks in w || SomeHolds(turns, w, m))
  {
    if NewAnswer(turns, fed, ask, seesAll, g, q).carries.Some? {
      NewAnswerReadsBack(turns, fed, ask, seesAll, g, q, ask);
      FoldsHoldIff(turns, fed, ask, seesAll, g, m);
    }
  }

  // ---------------------------------------------------------------- what escapes

  /** Nobody looks for the mark on the reply, or it is looked for and missed. */
  ghost predicate Escaped(m: Mark, a: Answer, context: Json) {
    !Marked(a, context) || !Held(m, a, context)
  }

  /** Reply `k` of the history is heard, is taken for an Ask reply or a reply fed one, and is unknown about the mark
      or holds it. */
  ghost predicate HearsHolder(turns: seq<Turn>, fed: seq<Seen>, k: nat, m: Mark)
    requires k < |fed| && InRange(turns, fed)
  {
    Heard(turns, fed[k]) &&
      var context := TakenContext(turns, fed, k);
      && (Truthy(context) || turns[fed[k].turn].answer.carries.Some?)
      && HeldIn(turns, Folds(fed[k].turn, context), m)
  }

  lemma SomeHoldsAppends(turns: seq<Turn>, w: seq<Fed>, added: seq<Fed>, m: Mark)
    requires WalkOf(turns, w) && WalkOf(turns, w + added) && WalkOf(turns, added)
    ensures SomeHolds(turns, w + added, m) <==> SomeHolds(turns, w, m) || SomeHolds(turns, added, m)
  {
    var all := w + added;
    if SomeHolds(turns, w, m) {
      var i :| 0 <= i < |w| && HeldIn(turns, w[i], m);
      assert all[i] == w[i];
    }
    if SomeHolds(turns, added, m) {
      var i :| 0 <= i < |added| && HeldIn(turns, added[i], m);
      assert all[|w| + i] == added[i];
    }
    if SomeHolds(turns, all, m) {
      var i :| 0 <= i < |all| && HeldIn(turns, all[i], m);
      assert if i < |w| then all[i] == w[i] else all[i] == added[i - |w|];
    }
  }

  lemma TurnHoldsIff(turns: seq<Turn>, fed: seq<Seen>, k: nat, m: Mark)
    requires k < |fed| && InRange(turns, fed)
    ensures var added := Contribution(turns, fed, false, k);
      && WalkOf(turns, added) && Blocks !in added
      && (SomeHolds(turns, added, m) <==> HearsHolder(turns, fed, k, m))
  {
    var added := Contribution(turns, fed, false, k);
    if HearsHolder(turns, fed, k, m) {
      assert HeldIn(turns, added[0], m);
    }
  }

  /** One of the first `n` turns of the history is such a reply. */
  ghost predicate SomeoneHolds(turns: seq<Turn>, fed: seq<Seen>, n: nat, m: Mark)
    requires n <= |fed| && InRange(turns, fed)
  {
    exists k :: 0 <= k < n && HearsHolder(turns, fed, k, m)
  }

  lemma SomeoneHoldsNext(turns: seq<Turn>, fed: seq<Seen>, n: nat, m: Mark)
    requires 0 < n <= |fed| && InRange(turns, fed)
    ensures SomeoneHolds(turns, fed, n, m) <==> SomeoneHolds(turns, fed, n - 1, m) || HearsHolder(turns, fed, n - 1, m)
  {
  }

  lemma {:induction false} NothingBlocksAPlainWalk(turns: seq<Turn>, fed: seq<Seen>, n: nat)
    requires n <= |fed| && InRange(turns, fed)
    ensures WalkOf(turns, Walk(turns, fed, false, n)) && Blocks !in Walk(turns, fed, false, n)
  {
    WalkIsAWalk(turns, fed, false, n);
    if n > 0 {
      NothingBlocksAPlainWalk(turns, fed, n - 1);
    }
  }

  lemma WalkHoldsNext(turns: seq<Turn>, fed: seq<Seen>, n: nat, m: Mark, before: seq<Fed>, after: seq<Fed>)
    requires 0 < n <= |fed| && InRange(turns, fed) && WalkOf(turns, before) && WalkOf(turns, after)
    requires after == before + Contribution(turns, fed, false, n - 1)
    ensures SomeHolds(turns, after, m) <==> SomeHolds(turns, before, m) || HearsHolder(turns, fed, n - 1, m)
  {
    TurnHoldsIff(turns, fed, n - 1, m);
    SomeHoldsAppends(turns, before, Contribution(turns, fed, false, n - 1), m);
  }

  lemma {:induction false} SomeHoldsIff(turns: seq<Turn>, fed: seq<Seen>, n: nat, m: Mark, w: seq<Fed>)
    requires n <= |fed| && InRange(turns, fed) && WalkOf(turns, w) && w == Walk(turns, fed, false, n)
    ensures SomeHolds(turns, w, m) <==> SomeoneHolds(turns, fed, n, m)
  {
    if n > 0 {
      var before := Walk(turns, fed, false, n - 1);
      WalkIsAWalk(turns, fed, false, n - 1);
      SomeHoldsIff(turns, fed, n - 1, m, before);
      WalkHoldsNext(turns, fed, n, m, before, w);
      SomeoneHoldsNext(turns, fed, n, m);
    }
  }

  /** A reply to a plain send misses a mark it drew on exactly when no Ask-shaped reply it was fed holds it; and only
      a plain digest, its own or one behind a reply it was fed, can have drawn on what it misses. */
  lemma WhatEscapesAPlainReply(turns: seq<Turn>, taints: seq<Taint>, fed: seq<Seen>, seesAll: bool, g: Grounding,
                               drew: set<Mark>, q: nat, m: Mark)
    requires InRange(turns, fed) && Sound(turns, taints) && Attentive(turns, fed, false)
    ensures var a, t := NewAnswer(turns, fed, Null, seesAll, g, q),
                        DrawsOn(turns, taints, fed, OwnTaint(Null, g, drew), |fed|);
      && (Escaped(m, a, Null) <==> !SomeoneHolds(turns, fed, |fed|, m))
      && (Escaped(m, a, Null) ==> m !in t.asked)
  {
    NewAnswerIsCovered(turns, taints, fed, Null, seesAll, g, drew, q);
    NewAnswerHoldsIff(turns, fed, Null, seesAll, g, q, m);
    NothingBlocksAPlainWalk(turns, fed, |fed|);
    SomeHoldsIff(turns, fed, |fed|, m, Walk(turns, fed, false, |fed|));
    CarriesIsTrueIff(turns, None, Walk(turns, fed, false, |fed|));
  }

  /** An Ask reply misses nothing its own digest or any reply it was fed drew on without citing it: a plain reply in
      its history leaves it with nothing known, and so with no reader but its asker. */
  lemma NothingEscapesAnAskReply(turns: seq<Turn>, taints: seq<Taint>, fed: seq<Seen>, ask: Json, seesAll: bool,
                                 g: Grounding, drew: set<Mark>, q: nat, m: Mark)
    requires InRange(turns, fed) && ValidAsk(ask) && Sound(turns, taints) && Attentive(turns, fed, true)
    requires Honest(ask, seesAll, g, drew)
    ensures var a, t := NewAnswer(turns, fed, ask, seesAll, g, q),
                        DrawsOn(turns, taints, fed, OwnTaint(ask, g, drew), |fed|);
      m in t.asked + t.plain ==> !Escaped(m, a, ask)
  {
    NewAnswerIsCovered(turns, taints, fed, ask, seesAll, g, drew, q);
    assert Truthy(ask);
  }

  lemma PlainHistoryLeavesNoIds(turns: seq<Turn>, fed: seq<Seen>, ask: Json, seesAll: bool, g: Grounding, q: nat,
                                k: nat)
    requires InRange(turns, fed) && ValidAsk(ask) && k < |fed| && Heard(turns, fed[k])
    requires !Truthy(TakenContext(turns, fed, k))
    ensures StoredIds(NewAnswer(turns, fed, ask, seesAll, g, q).customerIds).None?
  {
    var w := Walk(turns, fed, true, |fed|);
    WalkHolds(turns, fed, true, k, |fed|);
    assert Contribution(turns, fed, true, k)[0] == Blocks;
    assert Blocks in w;
    var i :| 0 <= i < |w| && w[i] == Blocks;
    FoldIsKnownIff(turns, OwnIds(ask, g), w, IdsOf, UnionIds);
    assert FoldsOf(turns, fed, ask, g).0.None?;
    CarriesStarts(turns, OwnCarries(ask, seesAll), w);
    NewAnswerReadsBack(turns, fed, ask, seesAll, g, q, ask);
  }

  lemma NoIdsNoReader(r: Reader, a: Answer, question: Turn)
    requires question.Question? && Marked(a, question.context) && StoredIds(a.customerIds).None?
    requires question.author != Some(r.id)
    ensures !ReadableBy(r, a, Some(question))
  {
  }

  /** A plain reply in the history of an Ask send leaves its reply with no customer ids, so nobody but its asker is
      shown it. */
  lemma PlainHistorySealsAnAskReply(turns: seq<Turn>, fed: seq<Seen>, ask: Json, seesAll: bool, g: Grounding, q: nat,
                                    k: nat, r: Reader, question: Turn)
    requires InRange(turns, fed) && ValidAsk(ask) && k < |fed| && Heard(turns, fed[k])
    requires !Truthy(TakenContext(turns, fed, k)) && question.Question? && question.context == ask
    requires question.author != Some(r.id)
    ensures !ReadableBy(r, NewAnswer(turns, fed, ask, seesAll, g, q), Some(question))
  {
    PlainHistoryLeavesNoIds(turns, fed, ask, seesAll, g, q, k);
    NoIdsNoReader(r, NewAnswer(turns, fed, ask, seesAll, g, q), question);
  }

  // ---------------------------------------------------------------- who a plain mark reaches

  /** Some reader who may open no customer and no account of those barred may read the record. */
  predicate OpenToSome(s: Source, customers: set<int>, accounts: set<int>) {
    && (s.companyType == Text("customer") ==> s.companyId.Int? && s.companyId.n !in customers)
    && (s.companyType == Text("account") ==> s.companyId.Int? && s.companyId.n !in accounts)
    && (IsOneOf(s.kind, RECORD_KINDS) ==> RecordId(s.id).Some?)
  }

  ghost predicate Checked(a: Answer, s: Source) {
    s in a.sources || (WellFormedRecords(a.records).Some?
                       && exists ref :: ref in WellFormedRecords(a.records).value && AsSource(ref) == s)
  }

  /** By what is stored on a plain reply: every record it is checked against is open to such a reader, and when it is
      marked all four snapshots are known, its flag is false, and none names a company that is barred. */
  ghost predicate Shows(a: Answer, context: Json, customers: set<int>, accounts: set<int>) {
    && (a.records == Null || a.records == UNKNOWN || WellFormedRecords(a.records).Some?)
    && (forall s | Checked(a, s) :: OpenToSome(s, customers, accounts))
    && (a.carries.Some? ==>
          && a.carries == Some(false)
          && StoredIds(a.customerIds).Some? && StoredIds(a.customerIds).value !! customers
          && PipelineOf(a, context).Some? && AccountsIn(PipelineOf(a, context).value) !! accounts
          && TicketsOf(a, context).Some? && AccountsIn(TicketsOf(a, context).value) !! accounts
          && RecordsOf(a, context).Some?)
  }

  function BarredCustomers(m: Mark): set<int> {
    if m.Customer? then {m.id} else {}
  }

  function BarredAccounts(m: Mark): set<int> {
    if m.PipelineAccount? || m.TicketAccount? then {m.account} else {}
  }

  function RefsOf(a: Answer): seq<Ref> {
    if WellFormedRecords(a.records).Some? then WellFormedRecords(a.records).value else []
  }

  /** The companies of one kind that a reply's records name. */
  function CompaniesIn(a: Answer, kind: string): set<int> {
    (set s | s in a.sources && s.companyType == Text(kind) && s.companyId.Int? :: s.companyId.n)
    + (set ref | ref in RefsOf(a) && ref.companyType == kind :: ref.companyId)
  }

  function RecordsNamed(a: Answer): set<int> {
    (set s | s in a.sources && RecordId(s.id).Some? :: RecordId(s.id).value)
    + (set ref | ref in RefsOf(a) && RecordId(Int(ref.id)).Some? :: RecordId(Int(ref.id)).value)
  }

  /** Leads, sees a slice, and may read all that the reply names but what is barred. */
  ghost function Insider(id: UserId, a: Answer, context: Json, customers: set<int>, accounts: set<int>): Reader
    requires Shows(a, context, customers, accounts)
  {
    var counted := if a.carries.None? then {}
                   else AccountsIn(PipelineOf(a, context).value) + AccountsIn(TicketsOf(a, context).value);
    var grounded := if a.carries.None? then {} else StoredIds(a.customerIds).value;
    Reader(id, false, true, "", CompaniesIn(a, "customer") + grounded - customers,
           CompaniesIn(a, "account") + counted - accounts, {}, {}, {}, map[],
           map[], map kind | kind in Elements(RECORD_KINDS) :: RecordsNamed(a))
  }

  lemma InsiderReadsRecord(id: UserId, a: Answer, context: Json, customers: set<int>, accounts: set<int>, s: Source)
    requires Shows(a, context, customers, accounts) && Checked(a, s)
    ensures SourceReadable(Insider(id, a, context, customers, accounts), s)
  {
    var r := Insider(id, a, context, customers, accounts);
    assert OpenToSome(s, customers, accounts);
    if s !in a.sources {
      var ref :| ref in WellFormedRecords(a.records).value && AsSource(ref) == s;
      assert ref in RefsOf(a);
    }
    if IsOneOf(s.kind, RECORD_KINDS) {
      assert s.kind.s in Elements(RECORD_KINDS);
      assert RecordId(s.id).value in RecordsNamed(a);
    }
    assert s.companyType == Text("customer") ==> s.companyId.n in CompaniesIn(a, "customer");
    assert s.companyType == Text("account") ==> s.companyId.n in CompaniesIn(a, "account");
  }

  lemma InsiderReads(id: UserId, a: Answer, q: Turn, customers: set<int>, accounts: set<int>)
    requires q.Question? && !Truthy(q.context) && q.author.Some? && q.author.value != id
    requires Shows(a, q.context, customers, accounts)
    ensures ReadableBy(Insider(id, a, q.context, customers, accounts), a, Some(q))
  {
    var r := Insider(id, a, q.context, customers, accounts);
    forall s | Checked(a, s) ensures SourceReadable(r, s) {
      InsiderReadsRecord(id, a, q.context, customers, accounts, s);
    }
    assert RefsReadable(r, a) by {
      forall ref | WellFormedRecords(a.records).Some? && ref in WellFormedRecords(a.records).value
        ensures SourceReadable(r, AsSource(ref))
      {
        assert Checked(a, AsSource(ref));
      }
    }
    if a.carries.Some? {
      assert StoredIds(a.customerIds).value <= r.customers;
      assert SnapshotReadable(r, a, q.context);
    }
  }

  lemma ReadIsShown(r: Reader, a: Answer, q: Turn, m: Mark)
    requires q.Question? && !Truthy(q.context) && q.author.Some? && r.id != q.author.value
    requires m.Customer? || m.AnomalyText? || m.PipelineAccount? || m.TicketAccount?
    requires ReadableBy(r, a, Some(q)) && !MayRead(r, m)
    ensures Shows(a, q.context, BarredCustomers(m), BarredAccounts(m))
  {
    assert RefsReadable(r, a);
    forall s | Checked(a, s) ensures OpenToSome(s, BarredCustomers(m), BarredAccounts(m)) {
      assert SourceReadable(r, s);
    }
    if a.carries.Some? {
      assert SnapshotReadable(r, a, q.context);
    }
  }

  /** A customer, an account or anomaly text that a plain reply drew on reaches some reader who did not ask and may
      not read it if and only if the reply shows it so, by what is stored on it. */
  lemma PlainMarkReachesIff(a: Answer, q: Turn, m: Mark)
    requires q.Question? && !Truthy(q.context) && q.author.Some?
    requires m.Customer? || m.AnomalyText? || m.PipelineAccount? || m.TicketAccount?
    ensures (exists r: Reader :: r.id != q.author.value && ReadableBy(r, a, Some(q)) && !MayRead(r, m))
       <==> Shows(a, q.context, BarredCustomers(m), BarredAccounts(m))
  {
    if r: Reader :| r.id != q.author.value && ReadableBy(r, a, Some(q)) && !MayRead(r, m) {
      ReadIsShown(r, a, q, m);
    }
    if Shows(a, q.context, BarredCustomers(m), BarredAccounts(m)) {
      var id := q.author.value + 1;
      InsiderReads(id, a, q, BarredCustomers(m), BarredAccounts(m));
      assert !MayRead(Insider(id, a, q.context, BarredCustomers(m), BarredAccounts(m)), m);
    }
  }

  // ---------------------------------------------------------------- the leak, and its reader

  /** A reply left unmarked is read by everybody who may read what it cites, whatever its digest drew on. */
  lemma UnmarkedIsReadByItsSources(turns: seq<Turn>, fed: seq<Seen>, seesAll: bool, g: Grounding, q: nat, r: Reader,
                                   question: Turn)
    requires InRange(turns, fed) && question.Question? && question.context == Null
    requires NewAnswer(turns, fed, Null, seesAll, g, q).carries.None?
    ensures ReadableBy(r, NewAnswer(turns, fed, Null, seesAll, g, q), Some(question))
       <==> forall c | c in g.sources :: SourceReadable(r, c)
  {
  }

  /** Sees a slice, may open customer 7 alone, and may not read email 5. */
  const OUTSIDER := Reader(2, false, false, "", {7}, {}, {1}, {}, {}, map[], map["email" := {5}], map[])

  /** The first send of a conversation, when it is a plain one. */
  lemma FirstPlainSend(s: Thread, sender: Reader, drew: set<Mark>)
    requires Begun(s)
    ensures var after := Run(s, SendSteps(sender, true, Null, NO_GROUNDING, drew));
      && after.turns == [Question(Some(sender.id), Null),
                         Reply(Answer(Some(0), Null, Null, Null, Null, None, []))]
      && after.taints == [UNTAINTED, Taint({}, drew, {})]
  {
    SendIsARun(s, sender, true, Null, NO_GROUNDING, drew);
    var fed := Window(View(sender, s.turns, true));
    assert fed == [];
    assert Elements<Source>([]) == {};
  }

  /** A plain send whose digest names customer 9 and cites nothing: in the smallest run there is, its reply is shown
      to a partial reader who may not open that customer. */
  lemma PlainDigestLeaks(s: Thread, sender: Reader)
    requires Begun(s) && sender.id == 1
    ensures var after := Run(s, SendSteps(sender, true, Null, NO_GROUNDING, {Customer(9)}));
      var v := PartialView(OUTSIDER, after.turns);
      && |after.turns| == |after.taints| == 2 && Customer(9) in after.taints[1].plain
      && !MayRead(OUTSIDER, Customer(9))
      && exists k :: 0 <= k < |v| && v[k].turn == 1 && ShownToAnother(after, OUTSIDER, v, k)
  {
    FirstPlainSend(s, sender, {Customer(9)});
    var after := Run(s, SendSteps(sender, true, Null, NO_GROUNDING, {Customer(9)}));
    TwoTurnsShown(after, Answer(Some(0), Null, Null, Null, Null, None, []));
  }

  lemma TwoTurnsShown(s: Thread, a: Answer)
    requires s.turns == [Question(Some(1), Null), Reply(a)] && a == Answer(Some(0), Null, Null, Null, Null, None, [])
    ensures var v := PartialView(OUTSIDER, s.turns);
      exists k :: 0 <= k < |v| && v[k].turn == 1 && ShownToAnother(s, OUTSIDER, v, k)
  {
    var v := PartialView(OUTSIDER, s.turns);
    PartialViewShape(OUTSIDER, s.turns);
    assert LastQuestion(s.turns, 1) == Some(0);
    assert Admitted(OUTSIDER, 0, Some(1));
    assert InView(s.turns, Verdicts(OUTSIDER, s.turns), 1);
    var k :| 0 <= k < |v| && v[k].turn == 1;
    assert Answered(s.turns, 1) == Some(0);
    assert ReadableBy(OUTSIDER, a, QuestionAt(s.turns, Some(0)));
    assert ShownToAnother(s, OUTSIDER, v, k);
  }

  /** An Ask reply about customer 7 that counted nothing and quoted nothing but what it cites. */
  function Fed7(cited: seq<Source>): Answer {
    Answer(Some(0), IntList([7]), EncodeCounted(NO_PIPELINE), EncodeCounted(NO_PIPELINE), List([]), Some(false), cited)
  }

  const BOTH := [Seen(0, false, false), Seen(1, false, false)]

  lemma Fed7IsHeld(turns: seq<Turn>, taints: seq<Taint>, cited: seq<Source>)
    requires turns == [Question(Some(1), PLACE), Reply(Fed7(cited))]
    requires taints == [UNTAINTED, Taint({Customer(7)}, {}, Elements(cited))]
    ensures Sound(turns, taints) && AnsweredContext(turns, 1) == PLACE && Truthy(PLACE)
    ensures StoredIds(Fed7(cited).customerIds) == Some({7})
  {
    assert "surface" in PLACE.fields;
    assert Elements([7]) == {7};
  }

  lemma Fed7ReadsBack(cited: seq<Source>)
    ensures PipelineOf(Fed7(cited), PLACE) == Some(NO_PIPELINE) && TicketsOf(Fed7(cited), PLACE) == Some(NO_PIPELINE)
    ensures RecordsOf(Fed7(cited), PLACE) == Some([])
  {
    KnownReadsBack(Fed7(cited), PLACE, NO_PIPELINE, []);
    assert EncodeRecords([]) == List([]);
  }

  lemma FoldOfOne<S>(turns: seq<Turn>, start: Option<S>, x: Fed, of: (Answer, Json) -> Option<S>, union: (S, S) -> S)
    requires WalkOf(turns, [x]) && (x.Folds? ==> x.turn < |turns| && turns[x.turn].Reply?)
    ensures Fold(turns, start, [x], of, union) == FoldStep(turns, start, x, of, union)
  {
    assert [x][..0] == [] && [x][0] == x;
  }

  lemma Fed7Ids(turns: seq<Turn>, cited: seq<Source>)
    requires turns == [Question(Some(1), PLACE), Reply(Fed7(cited))] && StoredIds(Fed7(cited).customerIds) == Some({7})
    ensures WalkOf(turns, [Folds(1, PLACE)]) && FoldCarries(turns, None, [Folds(1, PLACE)]) == Some(false)
    ensures Fold(turns, Some({}), [Folds(1, PLACE)], IdsOf, UnionIds) == Some({7})
  {
    FoldOfOne(turns, Some({}), Folds(1, PLACE), IdsOf, UnionIds);
    assert UnionIds({}, {7}) == {7};
    assert [Folds(1, PLACE)][..0] == [];
  }

  lemma Fed7Counted(turns: seq<Turn>, cited: seq<Source>, of: (Answer, Json) -> Option<Counted>)
    requires turns == [Question(Some(1), PLACE), Reply(Fed7(cited))] && of(Fed7(cited), PLACE) == Some(NO_PIPELINE)
    ensures WalkOf(turns, [Folds(1, PLACE)])
    ensures var c := Fold(turns, Some(NO_PIPELINE), [Folds(1, PLACE)], of, UnionCounted);
      c.Some? && AccountsIn(c.value) == {} && DepartmentsIn(c.value) == {}
  {
    FoldOfOne(turns, Some(NO_PIPELINE), Folds(1, PLACE), of, UnionCounted);
    UnionCountedAdds(NO_PIPELINE, NO_PIPELINE);
    assert AccountsIn(NO_PIPELINE) == {} && DepartmentsIn(NO_PIPELINE) == {};
  }

  lemma Fed7Records(turns: seq<Turn>, cited: seq<Source>)
    requires turns == [Question(Some(1), PLACE), Reply(Fed7(cited))] && RecordsOf(Fed7(cited), PLACE) == Some([])
    ensures WalkOf(turns, [Folds(1, PLACE)])
    ensures Fold(turns, Some([]), [Folds(1, PLACE)], RecordsOf, UnionRecords) == Some([])
  {
    FoldOfOne(turns, Some([]), Folds(1, PLACE), RecordsOf, UnionRecords);
    UnionRecordsAdds([], []);
    var r := UnionRecords([], []);
    assert RefsIn([]) == {};
    assert forall x :: x in r ==> x in RefsIn(r);
    assert r == [];
  }

  lemma NothingCountedIsRead(a: Answer)
    requires StoredIds(a.customerIds) == Some({7}) && a.carries == Some(false) && a.sources == []
    requires WellFormedRecords(a.records) == Some([])
    requires PipelineOf(a, Null).Some? && AccountsIn(PipelineOf(a, Null).value) == {}
    requires TicketsOf(a, Null).Some? && AccountsIn(TicketsOf(a, Null).value) == {}
    requires DepartmentsIn(PipelineOf(a, Null).value) == {} && DepartmentsIn(TicketsOf(a, Null).value) == {}
    ensures ReadableBy(OUTSIDER, a, Some(PLAIN))
  {
    var pipeline, tickets := PipelineOf(a, Null).value, TicketsOf(a, Null).value;
    assert forall d | d in pipeline.departments :: d in DepartmentsIn(pipeline);
    assert forall d | d in tickets.departments :: d in DepartmentsIn(tickets);
    assert SnapshotReadable(OUTSIDER, a, Null);
  }

  lemma Fed7Walk(turns: seq<Turn>, cited: seq<Source>)
    requires turns == [Question(Some(1), PLACE), Reply(Fed7(cited))]
    ensures InRange(turns, BOTH) && Walk(turns, BOTH, false, 2) == [Folds(1, PLACE)]
  {
    Fed7IsHeld(turns, [UNTAINTED, Taint({Customer(7)}, {}, Elements(cited))], cited);
    assert Walk(turns, BOTH, false, 0) == [] && Walk(turns, BOTH, false, 1) == [];
  }

  /** A fold that counted nothing. */
  predicate CountsNothing(c: Option<Counted>) {
    c.Some? && AccountsIn(c.value) == {} && DepartmentsIn(c.value) == {}
  }

  lemma Fed7Folds(turns: seq<Turn>, cited: seq<Source>)
    requires turns == [Question(Some(1), PLACE), Reply(Fed7(cited))] && InRange(turns, BOTH)
    requires Walk(turns, BOTH, false, 2) == [Folds(1, PLACE)]
    ensures FoldCarries(turns, None, Walk(turns, BOTH, false, 2)) == Some(false)
    ensures var folds := FoldsOf(turns, BOTH, Null, NO_GROUNDING);
      folds.0 == Some({7}) && CountsNothing(folds.1) && CountsNothing(folds.2) && folds.3 == Some([])
  {
    Fed7IsHeld(turns, [UNTAINTED, Taint({Customer(7)}, {}, Elements(cited))], cited);
    Fed7ReadsBack(cited);
    Fed7Ids(turns, cited);
    Fed7Counted(turns, cited, PipelineOf);
    Fed7Counted(turns, cited, TicketsOf);
    Fed7Records(turns, cited);
  }

  /** What a plain send over that one reply stores, whatever it cited: its customer, nothing counted, nothing quoted. */
  lemma AfterFed7(turns: seq<Turn>, cited: seq<Source>)
    requires turns == [Question(Some(1), PLACE), Reply(Fed7(cited))]
    ensures InRange(turns, BOTH) && Walk(turns, BOTH, false, 2) == [Folds(1, PLACE)]
    ensures var a := NewAnswer(turns, BOTH, Null, false, NO_GROUNDING, 2);
      && a.carries == Some(false) && StoredIds(a.customerIds) == Some({7})
      && RecordsOf(a, Null) == Some([]) && ReadableBy(OUTSIDER, a, Some(PLAIN))
  {
    Fed7Walk(turns, cited);
    Fed7Folds(turns, cited);
    NewAnswerReadsBack(turns, BOTH, Null, false, NO_GROUNDING, 2, Null);
    NothingCountedIsRead(NewAnswer(turns, BOTH, Null, false, NO_GROUNDING, 2));
  }

  /** Nor does being marked help: fed an Ask reply about customer 7, a plain reply whose digest names customer 9 is
      stored with customer 7 alone, and goes to whoever may open that one. */
  lemma MarkedPlainDigestEscapes(turns: seq<Turn>, taints: seq<Taint>)
    requires turns == [Question(Some(1), PLACE), Reply(Fed7([]))]
    requires taints == [UNTAINTED, Taint({Customer(7)}, {}, Elements([]))]
    ensures var a := NewAnswer(turns, BOTH, Null, false, NO_GROUNDING, 2);
      && Sound(turns, taints) && InRange(turns, BOTH)
      && a.carries == Some(false) && StoredIds(a.customerIds) == Some({7})
      && Customer(9) in DrawsOn(turns, taints, BOTH, OwnTaint(Null, NO_GROUNDING, {Customer(9)}), 2).plain
      && ReadableBy(OUTSIDER, a, Some(PLAIN)) && !MayRead(OUTSIDER, Customer(9))
  {
    Fed7IsHeld(turns, taints, []);
    AfterFed7(turns, []);
    PlainFrom(turns, taints, BOTH, OwnTaint(Null, NO_GROUNDING, {Customer(9)}), 2, Customer(9));
  }
}
