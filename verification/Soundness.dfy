/** What the snapshots stored with a reply answer for: everything that Ask digests behind it drew on without citing it,
    and behind an Ask reply what plain digests drew on too. */
module Soundness {
  import opened Orders
  import opened Snapshots
  import opened Conversations
  import opened Provenance

  // ---------------------------------------------------------------- what a fold holds

  /** Unknown is sticky and nothing else makes a fold unknown. */
  lemma {:induction false} FoldIsKnownIff<S>(turns: seq<Turn>, start: Option<S>, w: seq<Fed>,
                                             of: (Answer, Json) -> Option<S>, union: (S, S) -> S)
    requires WalkOf(turns, w)
    ensures Fold(turns, start, w, of, union).Some? <==>
            start.Some? && forall i | 0 <= i < |w| :: w[i].Folds? && of(turns[w[i].turn].answer, w[i].context).Some?
  {
    if w != [] {
      FoldIsKnownIff(turns, start, w[..|w| - 1], of, union);
    }
  }

  /** Everything the snapshots folded in hold. */
  ghost function Contents<S, E>(turns: seq<Turn>, w: seq<Fed>, of: (Answer, Json) -> Option<S>,
                                content: S -> set<E>): set<E>
    requires WalkOf(turns, w)
  {
    set i, e | 0 <= i < |w| && e in ContentOf(turns, w[i], of, content) :: e
  }

  ghost function ContentOf<S, E>(turns: seq<Turn>, x: Fed, of: (Answer, Json) -> Option<S>,
                                 content: S -> set<E>): set<E>
    requires x.Folds? ==> x.turn < |turns| && turns[x.turn].Reply?
  {
    if x.Folds? && of(turns[x.turn].answer, x.context).Some?
    then content(of(turns[x.turn].answer, x.context).value) else {}
  }

  /** A known fold holds its own grounding and every snapshot folded in, and nothing else. */
  lemma {:induction false} FoldHolds<S(!new), E>(turns: seq<Turn>, start: Option<S>, w: seq<Fed>,
                                           of: (Answer, Json) -> Option<S>, union: (S, S) -> S, content: S -> set<E>)
    requires WalkOf(turns, w)
    requires forall a, b :: content(union(a, b)) == content(a) + content(b)
    ensures var fold := Fold(turns, start, w, of, union);
      fold.Some? ==> start.Some? && content(fold.value) == content(start.value) + Contents(turns, w, of, content)
  {
    if w != [] {
      var init, x := w[..|w| - 1], w[|w| - 1];
      FoldHolds(turns, start, init, of, union, content);
      if Fold(turns, start, w, of, union).Some? {
        forall e ensures e in Contents(turns, w, of, content) <==>
                         e in Contents(turns, init, of, content) || e in ContentOf(turns, x, of, content)
        {
          if e in Contents(turns, init, of, content) {
            var i :| 0 <= i < |init| && e in ContentOf(turns, init[i], of, content);
            assert w[i] == init[i];
          }
          if e in ContentOf(turns, x, of, content) {
            assert w[|w| - 1] == x;
          }
          if e in Contents(turns, w, of, content) {
            var i :| 0 <= i < |w| && e in ContentOf(turns, w[i], of, content);
            if i < |init| {
              assert init[i] == w[i];
            }
          }
        }
        assert Contents(turns, w, of, content) == Contents(turns, init, of, content) + ContentOf(turns, x, of, content);
      }
    }
  }

  // ---------------------------------------------------------------- coverage

  function AccountsIn(c: Counted): set<int> { Elements(c.accounts) }
  function DepartmentsIn(c: Counted): set<string> { Elements(c.departments) }
  function RefsIn(rs: seq<Ref>): set<Ref> { Elements(rs) }

  /** Where the mark is looked for among four snapshots, any of which may be unknown. The anomaly flag means
      something only beside known customer ids (see `CarriesAloneIsNotEnough`). */
  ghost predicate IsFound(m: Mark, ids: Option<set<int>>, carries: Option<bool>,
                          pipeline: Option<Counted>, tickets: Option<Counted>, records: Option<seq<Ref>>)
  {
    match m
    case Customer(c) => ids.Some? ==> c in ids.value
    case AnomalyText => ids.Some? ==> carries != Some(false)
    case PipelineAccount(n) => pipeline.Some? ==> n in AccountsIn(pipeline.value)
    case PipelineDepartment(d) => pipeline.Some? ==> d in DepartmentsIn(pipeline.value)
    case TicketAccount(n) => tickets.Some? ==> n in AccountsIn(tickets.value)
    case TicketDepartment(d) => tickets.Some? ==> d in DepartmentsIn(tickets.value)
    case Record(ref) => records.Some? ==> ref in RefsIn(records.value)
  }

  /** Four snapshots answer for a mark: it is found, or the customer ids are unknown, and then nobody but the asker
      is shown the reply and every reply that is fed it. */
  ghost predicate HeldBy(m: Mark, ids: Option<set<int>>, carries: Option<bool>,
                         pipeline: Option<Counted>, tickets: Option<Counted>, records: Option<seq<Ref>>)
  {
    ids.None? || IsFound(m, ids, carries, pipeline, tickets, records)
  }

  ghost predicate Held(m: Mark, a: Answer, context: Json) {
    HeldBy(m, StoredIds(a.customerIds), a.carries, PipelineOf(a, context), TicketsOf(a, context), RecordsOf(a, context))
  }

  /** What is known about a reply is all of it: its customer ids are unknown, or each snapshot is unknown or holds
      everything that Ask digests put into the reply, and for an Ask reply everything that plain digests did too; a
      reply that is not marked drew on no Ask digest at all. */
  ghost predicate Covers(a: Answer, context: Json, t: Taint) {
    if !Marked(a, context) then t.asked == {}
    else
      && (forall m | m in t.asked :: Held(m, a, context))
      && (Truthy(context) ==> forall m | m in t.plain :: Held(m, a, context))
  }

  ghost predicate Sound(turns: seq<Turn>, taints: seq<Taint>) {
    && |taints| == |turns|
    && forall i | 0 <= i < |turns| && turns[i].Reply? :: Covers(turns[i].answer, AnsweredContext(turns, i), taints[i])
  }

  /** What an Ask grounding owes its caller: whatever it declares known is everything its digest drew on without
      citing it. `drew` is what the digest really drew on so. A plain grounding declares nothing and owes nothing. */
  ghost predicate Honest(ask: Json, seesAll: bool, g: Grounding, drew: set<Mark>)
    requires ask == Null || ValidAsk(ask)
  {
    ask != Null ==> forall m | m in drew ::
      && HeldBy(m, OwnIds(ask, g), None, OwnCounted(ask, g.pipeline), OwnCounted(ask, g.tickets),
                OwnRecords(ask, g.records))
      && (m == AnomalyText ==> NamesAStoredAnomaly(ask) && seesAll)
  }

  /** What a send's own digest puts into its reply. Its sources are exactly the records it quotes and cites. */
  ghost function OwnTaint(ask: Json, g: Grounding, drew: set<Mark>): Taint {
    if ask == Null then Taint({}, drew, Elements(g.sources)) else Taint(drew, {}, Elements(g.sources))
  }

  /** What a new reply transitively draws on: its own digest and every reply whose words it was fed. */
  ghost function DrawsOn(turns: seq<Turn>, taints: seq<Taint>, fed: seq<Seen>, own: Taint, n: nat): Taint
    requires n <= |fed| && InRange(turns, fed) && |taints| == |turns|
  {
    if n == 0 then own
    else
      var before, e := DrawsOn(turns, taints, fed, own, n - 1), fed[n - 1];
      if Heard(turns, e) then Join(before, taints[e.turn]) else before
  }

  /** What a reply drew on comes from its own digest or from a reply it was fed. */
  lemma {:induction false} AskedFrom(turns: seq<Turn>, taints: seq<Taint>, fed: seq<Seen>, own: Taint, n: nat, m: Mark)
    requires n <= |fed| && InRange(turns, fed) && |taints| == |turns|
    ensures m in DrawsOn(turns, taints, fed, own, n).asked <==>
      m in own.asked || exists k :: 0 <= k < n && Heard(turns, fed[k]) && m in taints[fed[k].turn].asked
  {
    if n > 0 {
      AskedFrom(turns, taints, fed, own, n - 1, m);
    }
  }

  /** The same of what plain digests drew on. */
  lemma {:induction false} PlainFrom(turns: seq<Turn>, taints: seq<Taint>, fed: seq<Seen>, own: Taint, n: nat, m: Mark)
    requires n <= |fed| && InRange(turns, fed) && |taints| == |turns|
    ensures m in DrawsOn(turns, taints, fed, own, n).plain <==>
      m in own.plain || exists k :: 0 <= k < n && Heard(turns, fed[k]) && m in taints[fed[k].turn].plain
  {
    if n > 0 {
      PlainFrom(turns, taints, fed, own, n - 1, m);
    }
  }

  /** And of what was cited. */
  lemma {:induction false} CitedFrom(turns: seq<Turn>, taints: seq<Taint>, fed: seq<Seen>, own: Taint, n: nat,
                                     c: Source)
    requires n <= |fed| && InRange(turns, fed) && |taints| == |turns|
    ensures c in DrawsOn(turns, taints, fed, own, n).cited <==>
      c in own.cited || exists k :: 0 <= k < n && Heard(turns, fed[k]) && c in taints[fed[k].turn].cited
  {
    if n > 0 {
      CitedFrom(turns, taints, fed, own, n - 1, c);
    }
  }

  // ---------------------------------------------------------------- the walk hears every Ask-shaped reply

  /** The walk misses no Ask-shaped reply it is fed, and takes no reply for an answer to an Ask
      question other than its own. */
  ghost predicate Attentive(turns: seq<Turn>, fed: seq<Seen>, asking: bool)
    requires InRange(turns, fed)
  {
    forall k | 0 <= k < |fed| && Heard(turns, fed[k]) ::
      var taken, actual := TakenContext(turns, fed, k), AnsweredContext(turns, fed[k].turn);
      var a := turns[fed[k].turn].answer;
      && (taken == actual || !Truthy(taken))
      && (Marked(a, actual) ==> asking || Truthy(taken) || a.carries.Some?)
  }

  lemma {:induction false} WalkHolds(turns: seq<Turn>, fed: seq<Seen>, asking: bool, k: nat, n: nat)
    requires k < n <= |fed| && InRange(turns, fed)
    ensures forall x | x in Contribution(turns, fed, asking, k) :: x in Walk(turns, fed, asking, n)
  {
    if k < n - 1 {
      WalkHolds(turns, fed, asking, k, n - 1);
    }
  }

  /** A marked reply that is heard either blocks the new snapshots or is folded into them. */
  lemma MarkedIsCounted(turns: seq<Turn>, fed: seq<Seen>, asking: bool, k: nat)
    requires k < |fed| && InRange(turns, fed) && Attentive(turns, fed, asking)
    requires Heard(turns, fed[k]) && Marked(turns[fed[k].turn].answer, AnsweredContext(turns, fed[k].turn))
    ensures var w := Walk(turns, fed, asking, |fed|);
      Blocks in w || Folds(fed[k].turn, TakenContext(turns, fed, k)) in w
  {
    WalkHolds(turns, fed, asking, k, |fed|);
    var c := Contribution(turns, fed, asking, k);
    assert c[0] in c;
  }

  /** A snapshot read against a falsy context is the stored one, whatever question was answered. */
  lemma FalsyContextReadsStored(a: Answer, taken: Json, actual: Json)
    requires taken == actual || !Truthy(taken)
    ensures PipelineOf(a, taken).Some? ==> PipelineOf(a, actual) == PipelineOf(a, taken)
    ensures TicketsOf(a, taken).Some? ==> TicketsOf(a, actual) == TicketsOf(a, taken)
    ensures RecordsOf(a, taken).Some? ==> RecordsOf(a, actual) == RecordsOf(a, taken)
  {
  }

  // ---------------------------------------------------------------- the new reply is covered

  /** The four folds a send computes, before they are stored. */
  ghost function FoldsOf(turns: seq<Turn>, fed: seq<Seen>, ask: Json, g: Grounding)
    : (Option<set<int>>, Option<Counted>, Option<Counted>, Option<seq<Ref>>)
    requires InRange(turns, fed)
  {
    var w := Walk(turns, fed, ask != Null, |fed|);
    (Fold(turns, OwnIds(ask, g), w, IdsOf, UnionIds),
     Fold(turns, OwnCounted(ask, g.pipeline), w, PipelineOf, UnionCounted),
     Fold(turns, OwnCounted(ask, g.tickets), w, TicketsOf, UnionCounted),
     Fold(turns, OwnRecords(ask, g.records), w, RecordsOf, UnionRecords))
  }

  /** A mark held in a snapshot that was folded in is held by the fold. */
  lemma FoldedIsHeld<S(!new), E>(turns: seq<Turn>, start: Option<S>, w: seq<Fed>, x: Fed,
                           of: (Answer, Json) -> Option<S>, union: (S, S) -> S, content: S -> set<E>, e: E)
    requires WalkOf(turns, w) && (Blocks in w || x in w) && x.Folds?
    requires x.turn < |turns| && turns[x.turn].Reply?
    requires forall a, b :: content(union(a, b)) == content(a) + content(b)
    requires of(turns[x.turn].answer, x.context).Some? ==> e in content(of(turns[x.turn].answer, x.context).value)
    ensures var fold := Fold(turns, start, w, of, union); fold.Some? ==> e in content(fold.value)
  {
    FoldIsKnownIff(turns, start, w, of, union);
    FoldHolds(turns, start, w, of, union, content);
    if Fold(turns, start, w, of, union).Some? {
      var i :| 0 <= i < |w| && w[i] == x;
      assert e in ContentOf(turns, w[i], of, content);
    }
  }

  /** A mark in the send's own grounding is held by the fold. */
  lemma OwnIsHeld<S(!new), E>(turns: seq<Turn>, start: Option<S>, w: seq<Fed>,
                        of: (Answer, Json) -> Option<S>, union: (S, S) -> S, content: S -> set<E>, e: E)
    requires WalkOf(turns, w)
    requires forall a, b :: content(union(a, b)) == content(a) + content(b)
    requires start.Some? ==> e in content(start.value)
    ensures var fold := Fold(turns, start, w, of, union); fold.Some? ==> e in content(fold.value)
  {
    FoldHolds(turns, start, w, of, union, content);
  }

  lemma ContentsAdd()
    ensures forall a, b :: UnionIds(a, b) == a + b
    ensures forall a, b :: AccountsIn(UnionCounted(a, b)) == AccountsIn(a) + AccountsIn(b)
    ensures forall a, b :: DepartmentsIn(UnionCounted(a, b)) == DepartmentsIn(a) + DepartmentsIn(b)
    ensures forall a, b :: RefsIn(UnionRecords(a, b)) == RefsIn(a) + RefsIn(b)
  {
    forall a, b ensures AccountsIn(UnionCounted(a, b)) == AccountsIn(a) + AccountsIn(b)
                ensures DepartmentsIn(UnionCounted(a, b)) == DepartmentsIn(a) + DepartmentsIn(b)
    {
      UnionCountedAdds(a, b);
    }
    forall a, b ensures RefsIn(UnionRecords(a, b)) == RefsIn(a) + RefsIn(b) {
      UnionRecordsAdds(a, b);
    }
  }

  lemma {:induction false} CarriesSticks(turns: seq<Turn>, start: Option<bool>, w: seq<Fed>, x: Fed)
    requires WalkOf(turns, w) && x in w && x.Folds?
    ensures FoldCarries(turns, start, w).Some?
    ensures x.turn < |turns| && turns[x.turn].Reply?
    ensures turns[x.turn].answer.carries != Some(false) ==> FoldCarries(turns, start, w) == Some(true)
  {
    var init := w[..|w| - 1];
    if w[|w| - 1] != x {
      assert x in init;
      CarriesSticks(turns, start, init, x);
    }
  }

  lemma {:induction false} CarriesStarts(turns: seq<Turn>, start: Option<bool>, w: seq<Fed>)
    requires WalkOf(turns, w)
    ensures start.Some? ==> FoldCarries(turns, start, w).Some?
    ensures start == Some(true) ==> FoldCarries(turns, start, w) == Some(true)
    ensures start.None? && FoldCarries(turns, start, w).Some? ==> exists x :: x in w && x.Folds?
  {
    if w != [] {
      CarriesStarts(turns, start, w[..|w| - 1]);
      if w[|w| - 1].Folds? {
        assert w[|w| - 1] in w;
      }
    }
  }

  /** Known customer ids were known all along: the send's own, and those of every reply folded in. */
  lemma KnownIdsWereKnown(turns: seq<Turn>, fed: seq<Seen>, ask: Json, g: Grounding)
    requires InRange(turns, fed) && FoldsOf(turns, fed, ask, g).0.Some?
    ensures OwnIds(ask, g).Some? && Blocks !in Walk(turns, fed, ask != Null, |fed|)
    ensures forall x | x in Walk(turns, fed, ask != Null, |fed|) ::
      x.Folds? && x.turn < |turns| && turns[x.turn].Reply? && StoredIds(turns[x.turn].answer.customerIds).Some?
  {
    FoldIsKnownIff(turns, OwnIds(ask, g), Walk(turns, fed, ask != Null, |fed|), IdsOf, UnionIds);
  }

  /** Whatever the send's own digest drew on is held by its folds. */
  lemma OwnMarkIsHeld(turns: seq<Turn>, fed: seq<Seen>, ask: Json, seesAll: bool, g: Grounding, drew: set<Mark>,
                      m: Mark)
    requires InRange(turns, fed) && ValidAsk(ask) && Honest(ask, seesAll, g, drew) && m in drew
    ensures var w, folds := Walk(turns, fed, ask != Null, |fed|), FoldsOf(turns, fed, ask, g);
      HeldBy(m, folds.0, FoldCarries(turns, OwnCarries(ask, seesAll), w), folds.1, folds.2, folds.3)
  {
    if FoldsOf(turns, fed, ask, g).0.Some? {
      KnownIdsWereKnown(turns, fed, ask, g);
      OwnMarkIsFound(turns, fed, ask, seesAll, g, m);
    }
  }

  lemma OwnMarkIsFound(turns: seq<Turn>, fed: seq<Seen>, ask: Json, seesAll: bool, g: Grounding, m: Mark)
    requires InRange(turns, fed) && ValidAsk(ask)
    requires IsFound(m, OwnIds(ask, g), None, OwnCounted(ask, g.pipeline), OwnCounted(ask, g.tickets),
                     OwnRecords(ask, g.records))
    requires m == AnomalyText ==> NamesAStoredAnomaly(ask) && seesAll
    ensures var w, folds := Walk(turns, fed, ask != Null, |fed|), FoldsOf(turns, fed, ask, g);
      IsFound(m, folds.0, FoldCarries(turns, OwnCarries(ask, seesAll), w), folds.1, folds.2, folds.3)
  {
    var w := Walk(turns, fed, ask != Null, |fed|);
    ContentsAdd();
    match m
    case Customer(c) => OwnIsHeld(turns, OwnIds(ask, g), w, IdsOf, UnionIds, (s: set<int>) => s, c);
    case AnomalyText => CarriesStarts(turns, OwnCarries(ask, seesAll), w);
    case PipelineAccount(n) =>
      OwnIsHeld(turns, OwnCounted(ask, g.pipeline), w, PipelineOf, UnionCounted, AccountsIn, n);
    case PipelineDepartment(d) =>
      OwnIsHeld(turns, OwnCounted(ask, g.pipeline), w, PipelineOf, UnionCounted, DepartmentsIn, d);
    case TicketAccount(n) => OwnIsHeld(turns, OwnCounted(ask, g.tickets), w, TicketsOf, UnionCounted, AccountsIn, n);
    case TicketDepartment(d) =>
      OwnIsHeld(turns, OwnCounted(ask, g.tickets), w, TicketsOf, UnionCounted, DepartmentsIn, d);
    case Record(ref) => OwnIsHeld(turns, OwnRecords(ask, g.records), w, RecordsOf, UnionRecords, RefsIn, ref);
  }

  /** A reply that blocks leaves nothing known, so whatever it drew on is held. */
  lemma BlockedHoldsAll(turns: seq<Turn>, fed: seq<Seen>, ask: Json, seesAll: bool, g: Grounding, m: Mark)
    requires InRange(turns, fed) && ValidAsk(ask) && Blocks in Walk(turns, fed, true, |fed|)
    ensures var w, folds := Walk(turns, fed, true, |fed|), FoldsOf(turns, fed, ask, g);
      HeldBy(m, folds.0, FoldCarries(turns, OwnCarries(ask, seesAll), w), folds.1, folds.2, folds.3)
  {
    FoldIsKnownIff(turns, OwnIds(ask, g), Walk(turns, fed, true, |fed|), IdsOf, UnionIds);
  }

  /** The same of the anomaly flag, which is read beside the customer ids. */
  lemma FoldedAnomalyIsHeld(turns: seq<Turn>, start: Option<set<int>>, carries: Option<bool>, w: seq<Fed>, x: Fed)
    requires WalkOf(turns, w) && (Blocks in w || x in w) && x.Folds? && x.turn < |turns| && turns[x.turn].Reply?
    requires StoredIds(turns[x.turn].answer.customerIds).Some? ==> turns[x.turn].answer.carries != Some(false)
    ensures Fold(turns, start, w, IdsOf, UnionIds).Some? ==> FoldCarries(turns, carries, w) != Some(false)
  {
    FoldIsKnownIff(turns, start, w, IdsOf, UnionIds);
    if Fold(turns, start, w, IdsOf, UnionIds).Some? {
      var i :| 0 <= i < |w| && w[i] == x;
      CarriesSticks(turns, carries, w, x);
    }
  }

  /** What a reply holds, read as the walk reads it, is held by the folds it goes into. */
  lemma FoldedInIsHeld(turns: seq<Turn>, fed: seq<Seen>, ask: Json, seesAll: bool, g: Grounding, x: Fed, m: Mark)
    requires InRange(turns, fed) && (ask == Null || ValidAsk(ask))
    requires x.Folds? && x.turn < |turns| && turns[x.turn].Reply?
    requires var w := Walk(turns, fed, ask != Null, |fed|); Blocks in w || x in w
    requires Held(m, turns[x.turn].answer, x.context)
    ensures var w, folds := Walk(turns, fed, ask != Null, |fed|), FoldsOf(turns, fed, ask, g);
      HeldBy(m, folds.0, FoldCarries(turns, OwnCarries(ask, seesAll), w), folds.1, folds.2, folds.3)
  {
    if FoldsOf(turns, fed, ask, g).0.Some? {
      KnownIdsWereKnown(turns, fed, ask, g);
      FoldedInIsFound(turns, fed, ask, seesAll, g, x, m);
    }
  }

  lemma FoldedInIsFound(turns: seq<Turn>, fed: seq<Seen>, ask: Json, seesAll: bool, g: Grounding, x: Fed, m: Mark)
    requires InRange(turns, fed) && (ask == Null || ValidAsk(ask))
    requires x in Walk(turns, fed, ask != Null, |fed|) && x.Folds? && x.turn < |turns| && turns[x.turn].Reply?
    requires var a := turns[x.turn].answer;
      IsFound(m, StoredIds(a.customerIds), a.carries, PipelineOf(a, x.context), TicketsOf(a, x.context),
              RecordsOf(a, x.context))
    ensures var w, folds := Walk(turns, fed, ask != Null, |fed|), FoldsOf(turns, fed, ask, g);
      IsFound(m, folds.0, FoldCarries(turns, OwnCarries(ask, seesAll), w), folds.1, folds.2, folds.3)
  {
    var w := Walk(turns, fed, ask != Null, |fed|);
    ContentsAdd();
    match m
    case Customer(c) => FoldedIsHeld(turns, OwnIds(ask, g), w, x, IdsOf, UnionIds, (s: set<int>) => s, c);
    case AnomalyText => FoldedAnomalyIsHeld(turns, OwnIds(ask, g), OwnCarries(ask, seesAll), w, x);
    case PipelineAccount(n) =>
      FoldedIsHeld(turns, OwnCounted(ask, g.pipeline), w, x, PipelineOf, UnionCounted, AccountsIn, n);
    case PipelineDepartment(d) =>
      FoldedIsHeld(turns, OwnCounted(ask, g.pipeline), w, x, PipelineOf, UnionCounted, DepartmentsIn, d);
    case TicketAccount(n) =>
      FoldedIsHeld(turns, OwnCounted(ask, g.tickets), w, x, TicketsOf, UnionCounted, AccountsIn, n);
    case TicketDepartment(d) =>
      FoldedIsHeld(turns, OwnCounted(ask, g.tickets), w, x, TicketsOf, UnionCounted, DepartmentsIn, d);
    case Record(ref) => FoldedIsHeld(turns, OwnRecords(ask, g.records), w, x, RecordsOf, UnionRecords, RefsIn, ref);
  }

  lemma HeldAsTaken(m: Mark, a: Answer, taken: Json, actual: Json)
    requires (taken == actual || !Truthy(taken)) && Held(m, a, actual)
    ensures Held(m, a, taken)
  {
    FalsyContextReadsStored(a, taken, actual);
  }

  /** What an Ask-shaped reply holds, once it is folded in, the fold holds. */
  lemma FoldedMarkIsHeld(turns: seq<Turn>, fed: seq<Seen>, ask: Json, seesAll: bool, g: Grounding, k: nat, m: Mark)
    requires InRange(turns, fed) && (ask == Null || ValidAsk(ask)) && Attentive(turns, fed, ask != Null)
    requires k < |fed| && Heard(turns, fed[k])
    requires var a, actual := turns[fed[k].turn].answer, AnsweredContext(turns, fed[k].turn);
      Marked(a, actual) && Held(m, a, actual)
    ensures var w, folds := Walk(turns, fed, ask != Null, |fed|), FoldsOf(turns, fed, ask, g);
      HeldBy(m, folds.0, FoldCarries(turns, OwnCarries(ask, seesAll), w), folds.1, folds.2, folds.3)
  {
    var j, taken := fed[k].turn, TakenContext(turns, fed, k);
    MarkedIsCounted(turns, fed, ask != Null, k);
    HeldAsTaken(m, turns[j].answer, taken, AnsweredContext(turns, j));
    FoldedInIsHeld(turns, fed, ask, seesAll, g, Folds(j, taken), m);
  }

  /** Whatever a fed reply drew on through Ask digests, and to an Ask send through plain digests too, is held by
      the folds of the reply it was fed to. */
  lemma FedMarkIsHeld(turns: seq<Turn>, taints: seq<Taint>, fed: seq<Seen>, ask: Json, seesAll: bool, g: Grounding,
                      k: nat, m: Mark)
    requires InRange(turns, fed) && (ask == Null || ValidAsk(ask)) && Sound(turns, taints)
    requires Attentive(turns, fed, ask != Null) && k < |fed| && Heard(turns, fed[k])
    requires m in taints[fed[k].turn].asked || (ask != Null && m in taints[fed[k].turn].plain)
    ensures var w, folds := Walk(turns, fed, ask != Null, |fed|), FoldsOf(turns, fed, ask, g);
      HeldBy(m, folds.0, FoldCarries(turns, OwnCarries(ask, seesAll), w), folds.1, folds.2, folds.3)
  {
    var w, j := Walk(turns, fed, ask != Null, |fed|), fed[k].turn;
    var a, taken, actual := turns[j].answer, TakenContext(turns, fed, k), AnsweredContext(turns, j);
    assert Covers(a, actual, taints[j]);
    if ask != Null && !Truthy(taken) {
      WalkHolds(turns, fed, true, k, |fed|);
      assert Contribution(turns, fed, true, k)[0] == Blocks;
      BlockedHoldsAll(turns, fed, ask, seesAll, g, m);
    } else {
      FoldedMarkIsHeld(turns, fed, ask, seesAll, g, k, m);
    }
  }

  lemma FoldedRecordsAreValid(turns: seq<Turn>, fed: seq<Seen>, ask: Json, g: Grounding)
    requires InRange(turns, fed)
    ensures var records := FoldsOf(turns, fed, ask, g).3; records.Some? ==> ValidRefs(records.value)
  {
    var w, own := Walk(turns, fed, ask != Null, |fed|), OwnRecords(ask, g.records);
    var records := FoldsOf(turns, fed, ask, g).3;
    ContentsAdd();
    FoldHolds(turns, own, w, RecordsOf, UnionRecords, RefsIn);
    if records.Some? {
      forall ref | ref in records.value ensures ValidRef(ref) {
        assert ref in RefsIn(records.value);
        if ref in RefsIn(own.value) {
          WellFormedRecordsAreValid(g.records);
        } else {
          var i :| 0 <= i < |w| && ref in ContentOf(turns, w[i], RecordsOf, RefsIn);
          WellFormedRecordsAreValid(turns[w[i].turn].answer.records);
        }
      }
    }
  }

  /** The stored fields of a marked new reply read back, on any surface, as exactly its folds:
      what was unknown is unknown again, never empty. */
  lemma NewAnswerReadsBack(turns: seq<Turn>, fed: seq<Seen>, ask: Json, seesAll: bool, g: Grounding, q: nat,
                           context: Json)
    requires InRange(turns, fed) && (ask == Null || ValidAsk(ask))
    ensures var a, folds := NewAnswer(turns, fed, ask, seesAll, g, q), FoldsOf(turns, fed, ask, g);
      a.carries.Some? ==>
        && StoredIds(a.customerIds) == folds.0
        && PipelineOf(a, context) == folds.1
        && TicketsOf(a, context) == folds.2
        && RecordsOf(a, context) == folds.3
  {
    var a, folds := NewAnswer(turns, fed, ask, seesAll, g, q), FoldsOf(turns, fed, ask, g);
    if a.carries.Some? {
      FoldedRecordsAreValid(turns, fed, ask, g);
      StoredCountedReadsBack(folds.1);
      StoredCountedReadsBack(folds.2);
      StoredRecordsReadBack(folds.3);
    }
  }

  /** A plain reply left unmarked was fed no Ask-shaped reply, and nothing that drew on an Ask digest. */
  lemma UnmarkedHeardNothing(turns: seq<Turn>, taints: seq<Taint>, fed: seq<Seen>, start: Option<bool>, k: nat)
    requires InRange(turns, fed) && Sound(turns, taints) && Attentive(turns, fed, false)
    requires FoldCarries(turns, start, Walk(turns, fed, false, |fed|)).None?
    requires k < |fed| && Heard(turns, fed[k])
    ensures !Marked(turns[fed[k].turn].answer, AnsweredContext(turns, fed[k].turn))
    ensures taints[fed[k].turn].asked == {}
  {
    var w, a := Walk(turns, fed, false, |fed|), turns[fed[k].turn].answer;
    assert Covers(a, AnsweredContext(turns, fed[k].turn), taints[fed[k].turn]);
    if Marked(a, AnsweredContext(turns, fed[k].turn)) {
      WalkHolds(turns, fed, false, k, |fed|);
      var x := Folds(fed[k].turn, TakenContext(turns, fed, k));
      assert Contribution(turns, fed, false, k)[0] == x;
      assert x in w;
      CarriesSticks(turns, start, w, x);
      assert false;
    }
  }

  /** What a heard reply put into a new one, the new one holds. */
  lemma HeardMarkIsHeld(turns: seq<Turn>, taints: seq<Taint>, fed: seq<Seen>, ask: Json, seesAll: bool,
                        g: Grounding, q: nat, k: nat, m: Mark)
    requires InRange(turns, fed) && (ask == Null || ValidAsk(ask)) && Sound(turns, taints)
    requires Attentive(turns, fed, ask != Null) && k < |fed| && Heard(turns, fed[k])
    requires m in taints[fed[k].turn].asked || (ask != Null && m in taints[fed[k].turn].plain)
    ensures var a := NewAnswer(turns, fed, ask, seesAll, g, q); Marked(a, ask) && Held(m, a, ask)
  {
    var a := NewAnswer(turns, fed, ask, seesAll, g, q);
    CarriesStarts(turns, OwnCarries(ask, seesAll), Walk(turns, fed, ask != Null, |fed|));
    NewAnswerReadsBack(turns, fed, ask, seesAll, g, q, ask);
    FedMarkIsHeld(turns, taints, fed, ask, seesAll, g, k, m);
    if a.carries.None? {
      UnmarkedHeardNothing(turns, taints, fed, OwnCarries(ask, seesAll), k);
    }
  }

  /** What an Ask reply's own digest drew on, it holds. */
  lemma OwnMarkIsKept(turns: seq<Turn>, fed: seq<Seen>, ask: Json, seesAll: bool, g: Grounding, drew: set<Mark>,
                      q: nat, m: Mark)
    requires InRange(turns, fed) && ValidAsk(ask) && Honest(ask, seesAll, g, drew) && m in drew
    ensures var a := NewAnswer(turns, fed, ask, seesAll, g, q); Marked(a, ask) && Held(m, a, ask)
  {
    CarriesStarts(turns, OwnCarries(ask, seesAll), Walk(turns, fed, true, |fed|));
    NewAnswerReadsBack(turns, fed, ask, seesAll, g, q, ask);
    OwnMarkIsHeld(turns, fed, ask, seesAll, g, drew, m);
  }

  /** The reply a send stores is covered: every snapshot it keeps is unknown, or holds everything that Ask
      digests, its own or those behind any reply it was fed, put into it; an Ask reply's hold what plain digests
      put into it too. */
  lemma NewAnswerIsCovered(turns: seq<Turn>, taints: seq<Taint>, fed: seq<Seen>, ask: Json, seesAll: bool,
                           g: Grounding, drew: set<Mark>, q: nat)
    requires InRange(turns, fed) && (ask == Null || ValidAsk(ask)) && Sound(turns, taints)
    requires Attentive(turns, fed, ask != Null) && Honest(ask, seesAll, g, drew)
    ensures Covers(NewAnswer(turns, fed, ask, seesAll, g, q), ask,
                   DrawsOn(turns, taints, fed, OwnTaint(ask, g, drew), |fed|))
  {
    var own := OwnTaint(ask, g, drew);
    var t := DrawsOn(turns, taints, fed, own, |fed|);
    var a := NewAnswer(turns, fed, ask, seesAll, g, q);
    forall m | m in t.asked ensures Marked(a, ask) && Held(m, a, ask) {
      AskedFrom(turns, taints, fed, own, |fed|, m);
      if m in own.asked {
        OwnMarkIsKept(turns, fed, ask, seesAll, g, drew, q, m);
      } else {
        var k :| 0 <= k < |fed| && Heard(turns, fed[k]) && m in taints[fed[k].turn].asked;
        HeardMarkIsHeld(turns, taints, fed, ask, seesAll, g, q, k, m);
      }
    }
    forall m | ask != Null && m in t.plain ensures Held(m, a, ask) {
      PlainFrom(turns, taints, fed, own, |fed|, m);
      var k :| 0 <= k < |fed| && Heard(turns, fed[k]) && m in taints[fed[k].turn].plain;
      HeardMarkIsHeld(turns, taints, fed, ask, seesAll, g, q, k, m);
    }
  }
}
