/** Cited records: what a reply quotes from its sources, what becomes of them when the reply is fed to another, and
    who reads the other (`services/copilot/views.py`, `services/copilot/dashboard_grounding.py`). */
module Citations {
  import opened Orders
  import opened Snapshots
  import opened Conversations
  import opened Provenance
  import opened Soundness
  import opened SharedRuns
  import opened SharedReading
  import opened Escapes

  function SourcesIn(records: seq<Ref>): set<Source> {
    set r | r in records :: AsSource(r)
  }

  /** A reply answers for a record that went into it: it cites it, stores it among its quoted records, or stores so
      little that nobody but its asker is shown it. */
  ghost predicate CiteHeld(c: Source, a: Answer, context: Json) {
    || c in a.sources
    || (Marked(a, context)
        && (StoredIds(a.customerIds).None?
            || (RecordsOf(a, context).Some? ==> c in SourcesIn(RecordsOf(a, context).value))))
  }

  ghost predicate CitesCovered(a: Answer, context: Json, t: Taint) {
    forall c | c in t.cited :: CiteHeld(c, a, context)
  }

  /** Every reply answers for every cited record that went into it. */
  ghost predicate CitesSound(turns: seq<Turn>, taints: seq<Taint>) {
    && |taints| == |turns|
    && forall i | 0 <= i < |turns| && turns[i].Reply? ::
         CitesCovered(turns[i].answer, AnsweredContext(turns, i), taints[i])
  }

  /** What a reply cites went into it. */
  ghost predicate CitesCounted(turns: seq<Turn>, taints: seq<Taint>) {
    && |taints| == |turns|
    && forall i | 0 <= i < |turns| && turns[i].Reply? :: Elements(turns[i].answer.sources) <= taints[i].cited
  }

  // ---------------------------------------------------------------- what a new reply keeps of the citations it was fed

  ghost predicate CiteHeldIn(turns: seq<Turn>, x: Fed, c: Source)
    requires x.Folds? ==> x.turn < |turns| && turns[x.turn].Reply?
  {
    x.Folds? &&
      var a := turns[x.turn].answer;
      || StoredIds(a.customerIds).None?
      || (RecordsOf(a, x.context).Some? ==> c in SourcesIn(RecordsOf(a, x.context).value))
  }

  /** By what is stored and about to be: the send cites the record itself, quotes it, or has nothing known to store;
      or a reply it is fed blocks, or one it folds in has nothing known or had it quoted. */
  ghost predicate Kept(turns: seq<Turn>, fed: seq<Seen>, ask: Json, g: Grounding, c: Source)
    requires InRange(turns, fed)
  {
    var w := Walk(turns, fed, ask != Null, |fed|);
    || c in g.sources
    || (ask != Null
        && (OwnIds(ask, g).None?
            || (OwnRecords(ask, g.records).Some? ==> c in SourcesIn(OwnRecords(ask, g.records).value))))
    || Blocks in w
    || SomeKeeps(turns, w, c)
  }

  ghost predicate SomeKeeps(turns: seq<Turn>, w: seq<Fed>, c: Source)
    requires WalkOf(turns, w)
  {
    exists i :: 0 <= i < |w| && CiteHeldIn(turns, w[i], c)
  }

  /** No reply of the window cites a record that the new one does not keep. */
  ghost predicate Recites(turns: seq<Turn>, fed: seq<Seen>, ask: Json, g: Grounding)
    requires InRange(turns, fed)
  {
    forall k, c | 0 <= k < |fed| && Heard(turns, fed[k]) && c in turns[fed[k].turn].answer.sources ::
      Kept(turns, fed, ask, g, c)
  }

  lemma SourcesAdd()
    ensures forall a, b :: SourcesIn(UnionRecords(a, b)) == SourcesIn(a) + SourcesIn(b)
  {
    forall a, b ensures SourcesIn(UnionRecords(a, b)) == SourcesIn(a) + SourcesIn(b) {
      UnionRecordsAdds(a, b);
      assert forall r :: r in UnionRecords(a, b) <==> r in Elements(UnionRecords(a, b));
      assert forall r :: r in Elements(a) + Elements(b) <==> r in a || r in b;
    }
  }

  /** A new reply answers for a record exactly when it keeps it. */
  lemma NewCiteHeldIff(turns: seq<Turn>, fed: seq<Seen>, ask: Json, seesAll: bool, g: Grounding, q: nat, c: Source)
    requires InRange(turns, fed) && (ask == Null || ValidAsk(ask))
    ensures CiteHeld(c, NewAnswer(turns, fed, ask, seesAll, g, q), ask) <==> Kept(turns, fed, ask, g, c)
  {
    var w, a := Walk(turns, fed, ask != Null, |fed|), NewAnswer(turns, fed, ask, seesAll, g, q);
    CarriesIsTrueIff(turns, OwnCarries(ask, seesAll), w);
    if a.carries.Some? {
      NewAnswerReadsBack(turns, fed, ask, seesAll, g, q, ask);
      MarkedCiteHeldIff(turns, fed, ask, g, w, c);
    } else {
      NothingBlocksAPlainWalk(turns, fed, |fed|);
    }
  }

  ghost predicate SomeQuotes(turns: seq<Turn>, w: seq<Fed>, c: Source)
    requires WalkOf(turns, w)
  {
    exists i :: 0 <= i < |w| && HoldsIn(turns, w[i], RecordsOf, SourcesIn, c)
  }

  lemma SomeKeepsIff(turns: seq<Turn>, w: seq<Fed>, c: Source)
    requires WalkOf(turns, w)
    ensures SomeKeeps(turns, w, c) <==> SomeUnknown(turns, w) || SomeQuotes(turns, w, c)
  {
    if SomeQuotes(turns, w, c) {
      var i :| 0 <= i < |w| && HoldsIn(turns, w[i], RecordsOf, SourcesIn, c);
      assert CiteHeldIn(turns, w[i], c);
    }
    if SomeUnknown(turns, w) {
      var i :| 0 <= i < |w| && w[i].Folds? && StoredIds(turns[w[i].turn].answer.customerIds).None?;
      assert CiteHeldIn(turns, w[i], c);
    }
    if SomeKeeps(turns, w, c) {
      var i :| 0 <= i < |w| && CiteHeldIn(turns, w[i], c);
      assert HoldsIn(turns, w[i], RecordsOf, SourcesIn, c) || StoredIds(turns[w[i].turn].answer.customerIds).None?;
    }
  }

  lemma QuotedIff(turns: seq<Turn>, start: Option<seq<Ref>>, w: seq<Fed>, c: Source)
    requires WalkOf(turns, w)
    ensures var records := Fold(turns, start, w, RecordsOf, UnionRecords);
      (records.Some? ==> c in SourcesIn(records.value))
      <==> (start.Some? ==> c in SourcesIn(start.value)) || Blocks in w || SomeQuotes(turns, w, c)
  {
    SourcesAdd();
    FoldHoldsIff(turns, start, w, RecordsOf, UnionRecords, SourcesIn, c);
  }

  lemma MarkedCiteHeldIff(turns: seq<Turn>, fed: seq<Seen>, ask: Json, g: Grounding, w: seq<Fed>, c: Source)
    requires InRange(turns, fed) && (ask == Null || ValidAsk(ask)) && w == Walk(turns, fed, ask != Null, |fed|)
    ensures var folds := FoldsOf(turns, fed, ask, g);
      c in g.sources || folds.0.None? || (folds.3.Some? ==> c in SourcesIn(folds.3.value))
      <==> Kept(turns, fed, ask, g, c)
  {
    WalkIsAWalk(turns, fed, ask != Null, |fed|);
    IdsUnknownIff(turns, OwnIds(ask, g), w);
    QuotedIff(turns, OwnRecords(ask, g.records), w, c);
    SomeKeepsIff(turns, w, c);
  }

  /** What a reply of the window answers for without citing it, the new one keeps. */
  lemma UncitedIsKept(turns: seq<Turn>, fed: seq<Seen>, ask: Json, g: Grounding, k: nat, c: Source)
    requires InRange(turns, fed) && Attentive(turns, fed, ask != Null) && k < |fed| && Heard(turns, fed[k])
    requires var a := turns[fed[k].turn].answer;
      CiteHeld(c, a, AnsweredContext(turns, fed[k].turn)) && c !in a.sources
    ensures Kept(turns, fed, ask, g, c)
  {
    var a, taken, actual := turns[fed[k].turn].answer, TakenContext(turns, fed, k), AnsweredContext(turns, fed[k].turn);
    var w := Walk(turns, fed, ask != Null, |fed|);
    MarkedIsCounted(turns, fed, ask != Null, k);
    FalsyContextReadsStored(a, taken, actual);
    if Blocks !in w {
      var i :| 0 <= i < |w| && w[i] == Folds(fed[k].turn, taken);
      assert CiteHeldIn(turns, w[i], c);
    }
  }

  /** While the replies of a conversation answer for the cited records behind them, a new one does if and only if no
      reply of its window cites a record it does not keep. */
  lemma NewAnswerCitesIff(turns: seq<Turn>, taints: seq<Taint>, fed: seq<Seen>, ask: Json, seesAll: bool,
                          g: Grounding, drew: set<Mark>, q: nat)
    requires InRange(turns, fed) && (ask == Null || ValidAsk(ask)) && Attentive(turns, fed, ask != Null)
    requires CitesSound(turns, taints) && CitesCounted(turns, taints)
    ensures CitesCovered(NewAnswer(turns, fed, ask, seesAll, g, q), ask,
                         DrawsOn(turns, taints, fed, OwnTaint(ask, g, drew), |fed|))
       <==> Recites(turns, fed, ask, g)
  {
    var a, own := NewAnswer(turns, fed, ask, seesAll, g, q), OwnTaint(ask, g, drew);
    var t := DrawsOn(turns, taints, fed, own, |fed|);
    forall c ensures CiteHeld(c, a, ask) <==> Kept(turns, fed, ask, g, c) {
      NewCiteHeldIff(turns, fed, ask, seesAll, g, q, c);
    }
    if Recites(turns, fed, ask, g) {
      forall c | c in t.cited ensures Kept(turns, fed, ask, g, c) {
        DrawnCiteIsKept(turns, taints, fed, ask, g, own, c);
      }
    }
    if CitesCovered(a, ask, t) {
      forall k, c | 0 <= k < |fed| && Heard(turns, fed[k]) && c in turns[fed[k].turn].answer.sources
        ensures Kept(turns, fed, ask, g, c) {
        CitedFrom(turns, taints, fed, own, |fed|, c);
        assert c in Elements(turns[fed[k].turn].answer.sources);
        assert c in t.cited;
      }
    }
  }

  lemma DrawnCiteIsKept(turns: seq<Turn>, taints: seq<Taint>, fed: seq<Seen>, ask: Json, g: Grounding, own: Taint,
                        c: Source)
    requires InRange(turns, fed) && Attentive(turns, fed, ask != Null) && CitesSound(turns, taints)
    requires Recites(turns, fed, ask, g) && own.cited == Elements(g.sources)
    requires c in DrawsOn(turns, taints, fed, own, |fed|).cited
    ensures Kept(turns, fed, ask, g, c)
  {
    CitedFrom(turns, taints, fed, own, |fed|, c);
    if c !in g.sources {
      var k :| 0 <= k < |fed| && Heard(turns, fed[k]) && c in taints[fed[k].turn].cited;
      assert CitesCovered(turns[fed[k].turn].answer, AnsweredContext(turns, fed[k].turn), taints[fed[k].turn]);
      if c !in turns[fed[k].turn].answer.sources {
        UncitedIsKept(turns, fed, ask, g, k, c);
      }
    }
  }

  // ---------------------------------------------------------------- over every run

  ghost predicate CitesInv(s: Thread) {
    CitesSound(s.turns, s.taints)
  }

  /** A reply is stored only when its window cites nothing it does not keep. */
  ghost predicate RecitingStep(s: Thread, step: Step) {
    step.StoreReply? && step.id in s.pending && Ready(s, s.pending[step.id]) ==>
      var p := s.pending[step.id];
      Recites(s.turns, p.fed, p.ask, p.grounding)
  }

  ghost predicate RecitingRun(s: Thread, steps: seq<Step>)
    decreases |steps|
  {
    steps != [] ==> RecitingStep(s, steps[0]) && RecitingRun(Apply(s, steps[0]), steps[1..])
  }

  lemma TurnIsCounted(turns: seq<Turn>, taints: seq<Taint>, t: Turn, taint: Taint)
    requires WellFormed(turns) && CitesCounted(turns, taints)
    requires t.Reply? ==> Elements(t.answer.sources) <= taint.cited
    ensures CitesCounted(turns + [t], taints + [taint])
  {
  }

  /** One more turn: the conversation stays covered if and only if it was and the turn is. */
  lemma TurnCitesIff(turns: seq<Turn>, taints: seq<Taint>, t: Turn, taint: Taint)
    requires WellFormed(turns) && |taints| == |turns|
    ensures CitesSound(turns + [t], taints + [taint])
       <==> CitesSound(turns, taints)
            && (t.Reply? ==> CitesCovered(t.answer, AnsweredContext(turns + [t], |turns|), taint))
  {
    var after, more := turns + [t], taints + [taint];
    forall i | 0 <= i < |turns| && turns[i].Reply?
      ensures after[i] == turns[i] && more[i] == taints[i] && AnsweredContext(after, i) == AnsweredContext(turns, i) {
      AnsweredContextStays(turns, t, i);
    }
    if CitesSound(after, more) {
      forall i | 0 <= i < |turns| && turns[i].Reply?
        ensures CitesCovered(turns[i].answer, AnsweredContext(turns, i), taints[i]) {
        assert CitesCovered(after[i].answer, AnsweredContext(after, i), more[i]);
      }
      assert t.Reply? ==> CitesCovered(after[|turns|].answer, AnsweredContext(after, |turns|), more[|turns|]);
    }
  }

  lemma StoreReplyCitesIff(s: Thread, id: nat)
    requires Heeds(s) && id in s.pending && Ready(s, s.pending[id])
    requires CitesInv(s) && CitesCounted(s.turns, s.taints)
    ensures CitesInv(Apply(s, StoreReply(id))) <==> RecitingStep(s, StoreReply(id))
    ensures CitesCounted(Apply(s, StoreReply(id)).turns, Apply(s, StoreReply(id)).taints)
  {
    var p := s.pending[id];
    var q := p.question.value;
    var a := NewAnswer(s.turns, p.fed, p.ask, p.seesAll, p.grounding, q);
    var turns := s.turns + [Reply(a)];
    assert turns[|s.turns|] == Reply(a) && turns[q] == s.turns[q];
    assert AnsweredContext(turns, |s.turns|) == p.ask;
    NewAnswerCitesIff(s.turns, s.taints, p.fed, p.ask, p.seesAll, p.grounding, p.drew, q);
    TurnCitesIff(s.turns, s.taints, Reply(a), TaintOf(s, p));
    forall c | c in a.sources ensures c in TaintOf(s, p).cited {
      CitedFrom(s.turns, s.taints, p.fed, OwnTaint(p.ask, p.grounding, p.drew), |p.fed|, c);
    }
    TurnIsCounted(s.turns, s.taints, Reply(a), TaintOf(s, p));
  }

  /** What one step does to the cited records of a covered conversation. */
  lemma StepCitesIff(s: Thread, step: Step)
    requires Heeds(s) && CitesInv(s) && CitesCounted(s.turns, s.taints)
    ensures CitesInv(Apply(s, step)) <==> RecitingStep(s, step)
    ensures CitesCounted(Apply(s, step).turns, Apply(s, step).taints)
  {
    match step
    case StoreReply(id) =>
      if id in s.pending && Ready(s, s.pending[id]) {
        StoreReplyCitesIff(s, id);
      }
    case StoreQuestion(id) =>
      if id in s.pending && s.pending[id].question.None? {
        var t := Question(Some(s.pending[id].sender), s.pending[id].ask);
        TurnCitesIff(s.turns, s.taints, t, UNTAINTED);
        TurnIsCounted(s.turns, s.taints, t, UNTAINTED);
      }
    case _ =>
  }

  /** What a stored reply does not answer for it never will. */
  lemma {:induction false} BrokenStays(s: Thread, steps: seq<Step>)
    requires Heeds(s) && |s.taints| == |s.turns| && !CitesInv(s) && EdgeSafeRun(s, steps)
    ensures !CitesInv(Run(s, steps))
    decreases |steps|
  {
    if steps != [] {
      StepKeepsHeeding(s, steps[0]);
      StepKeepsBroken(s, steps[0]);
      BrokenStays(Apply(s, steps[0]), steps[1..]);
    }
  }

  lemma StepKeepsBroken(s: Thread, step: Step)
    requires Heeds(s) && |s.taints| == |s.turns| && !CitesInv(s)
    ensures |Apply(s, step).taints| == |Apply(s, step).turns| && !CitesInv(Apply(s, step))
  {
    var after := Apply(s, step);
    if |after.turns| > |s.turns| {
      var t, taint := after.turns[|s.turns|], after.taints[|s.turns|];
      assert after.turns == s.turns + [t] && after.taints == s.taints + [taint];
      TurnCitesIff(s.turns, s.taints, t, taint);
    }
  }

  /** Over every run of sends, whatever their digests drew on, every reply of the conversation answers for the cited
      records behind it if and only if each was stored with a window that cites nothing it does not keep. */
  lemma {:induction false} RunCitesIff(s: Thread, steps: seq<Step>)
    requires Heeds(s) && CitesInv(s) && CitesCounted(s.turns, s.taints) && EdgeSafeRun(s, steps)
    ensures CitesInv(Run(s, steps)) <==> RecitingRun(s, steps)
    decreases |steps|
  {
    if steps != [] {
      StepKeepsHeeding(s, steps[0]);
      StepCitesIff(s, steps[0]);
      if RecitingStep(s, steps[0]) {
        RunCitesIff(Apply(s, steps[0]), steps[1..]);
      } else {
        BrokenStays(Apply(s, steps[0]), steps[1..]);
      }
    }
  }

  // ---------------------------------------------------------------- who reads a cited record

  lemma HeldCiteIsReadable(r: Reader, a: Answer, question: Turn, c: Source)
    requires question.Question? && question.author != Some(r.id) && ReadableBy(r, a, Some(question))
    requires CiteHeld(c, a, question.context)
    ensures SourceReadable(r, c)
  {
    if c !in a.sources {
      assert SnapshotReadable(r, a, question.context);
      var records := RecordsOf(a, question.context).value;
      var ref :| ref in records && AsSource(ref) == c;
      assert WellFormedRecords(a.records) == Some(records);
    }
  }

  /** A reply that answers for the cited records behind it, shown with its words to a partial reader who did not ask
      for it, was built only from cited records that reader may read. */
  lemma ShownCitesAreReadable(s: Thread, r: Reader, k: nat, c: Source)
    requires WellFormed(s.turns) && CitesInv(s)
    requires var v := PartialView(r, s.turns);
      k < |v| && v[k].turn < |s.turns| && ShownToAnother(s, r, v, k) && c in s.taints[v[k].turn].cited
    ensures SourceReadable(r, c)
  {
    PartialViewShape(r, s.turns);
    var i := PartialView(r, s.turns)[k].turn;
    var a, q := s.turns[i].answer, QuestionAt(s.turns, Answered(s.turns, i));
    assert InView(s.turns, Verdicts(r, s.turns), i);
    assert CitesCovered(a, AnsweredContext(s.turns, i), s.taints[i]);
    assert q.Some? && ReadableBy(r, a, q);
    HeldCiteIsReadable(r, a, q.value, c);
  }

  const EMAIL_5 := Source(Text("email"), Int(5), Text("customer"), Int(7))

  lemma Email5IsHidden()
    ensures !SourceReadable(OUTSIDER, EMAIL_5)
  {
    assert RECORD_KINDS[1] == "email" && IsOneOf(EMAIL_5.kind, RECORD_KINDS);
    assert RecordId(EMAIL_5.id) == Some(5);
    assert Within(OUTSIDER.existing, "email", 5);
  }

  lemma CitedIsRefused(r: Reader, a: Answer, question: Turn, c: Source)
    requires question.Question? && question.author != Some(r.id) && c in a.sources && !SourceReadable(r, c)
    ensures !ReadableBy(r, a, Some(question))
  {
  }

  /** Nothing of the send, and no reply of its window, keeps a record that only the one Ask reply cites. */
  lemma Email5IsNotKept(turns: seq<Turn>)
    requires turns == [Question(Some(1), PLACE), Reply(Fed7([EMAIL_5]))]
    requires InRange(turns, BOTH) && Walk(turns, BOTH, false, 2) == [Folds(1, PLACE)]
    requires StoredIds(Fed7([EMAIL_5]).customerIds) == Some({7}) && RecordsOf(Fed7([EMAIL_5]), PLACE) == Some([])
    ensures !Recites(turns, BOTH, Null, NO_GROUNDING)
  {
    var w := [Folds(1, PLACE)];
    assert !CiteHeldIn(turns, w[0], EMAIL_5);
    assert !Kept(turns, BOTH, Null, NO_GROUNDING, EMAIL_5);
    assert Heard(turns, BOTH[1]) && EMAIL_5 in turns[BOTH[1].turn].answer.sources;
  }

  /** The condition is needed: an Ask reply cites an email, and somebody who may open its customer and not the email
      is refused that reply, but shown the plain one that was fed it. */
  lemma CitedRecordEscapes(turns: seq<Turn>, taints: seq<Taint>)
    requires turns == [Question(Some(1), PLACE), Reply(Fed7([EMAIL_5]))]
    requires taints == [UNTAINTED, Taint({Customer(7)}, {}, Elements([EMAIL_5]))]
    ensures Sound(turns, taints) && InRange(turns, BOTH) && !Recites(turns, BOTH, Null, NO_GROUNDING)
    ensures EMAIL_5 in DrawsOn(turns, taints, BOTH, OwnTaint(Null, NO_GROUNDING, {}), 2).cited
    ensures !SourceReadable(OUTSIDER, EMAIL_5) && !ReadableBy(OUTSIDER, turns[1].answer, Some(turns[0]))
    ensures ReadableBy(OUTSIDER, NewAnswer(turns, BOTH, Null, false, NO_GROUNDING, 2), Some(PLAIN))
  {
    Fed7IsHeld(turns, taints, [EMAIL_5]);
    Fed7ReadsBack([EMAIL_5]);
    AfterFed7(turns, [EMAIL_5]);
    Email5IsNotKept(turns);
    Email5IsHidden();
    CitedIsRefused(OUTSIDER, turns[1].answer, turns[0], EMAIL_5);
    CitedFrom(turns, taints, BOTH, OwnTaint(Null, NO_GROUNDING, {}), 2, EMAIL_5);
    assert EMAIL_5 in Elements([EMAIL_5]) && Heard(turns, BOTH[1]);
  }
}
