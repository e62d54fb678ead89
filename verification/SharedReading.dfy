/** What a partial reader of a shared conversation can be shown, and where the guarantee stops. */
module SharedReading {
  import opened Orders
  import opened Snapshots
  import opened Conversations
  import opened Provenance
  import opened Soundness
  import opened SharedRuns

  /** Whether this reader could have read the thing a reply drew on. */
  ghost predicate MayRead(r: Reader, m: Mark) {
    match m
    case Customer(c) => r.seesEverything || c in r.customers
    case AnomalyText => r.seesEverything
    case PipelineAccount(n) => r.seesEverything || n in r.accounts
    case PipelineDepartment(d) => r.seesEverything || r.leadership || d == "" || d == r.team
    case TicketAccount(n) => r.seesEverything || n in r.accounts
    case TicketDepartment(d) => r.leadership || d == "" || d == r.team
    case Record(ref) => SourceReadable(r, AsSource(ref))
  }

  /** A marked reply readable by somebody other than its asker holds nothing that reader may not read. */
  lemma ReadableMarkIsSafe(r: Reader, a: Answer, q: Turn, m: Mark)
    requires q.Question? && Marked(a, q.context) && q.author != Some(r.id)
    requires ReadableBy(r, a, Some(q)) && Held(m, a, q.context)
    ensures MayRead(r, m)
  {
    assert SnapshotReadable(r, a, q.context) && RefsReadable(r, a);
    if m.Record? {
      var refs := RecordsOf(a, q.context).value;
      assert m.ref in refs;
      assert WellFormedRecords(a.records) == Some(refs);
    }
  }

  /** The asker of the question a reply answers, when there is one. */
  function AskerOf(turns: seq<Turn>, i: nat): Option<UserId>
    requires i < |turns| && turns[i].Reply?
  {
    var q := QuestionAt(turns, Answered(turns, i));
    if q.Some? then q.value.author else None
  }

  /** What the snapshots of reply `i` answer for: whatever Ask digests put into it and, when it is an Ask reply
      itself, whatever plain digests did. */
  ghost function Guarded(turns: seq<Turn>, taints: seq<Taint>, i: nat): set<Mark>
    requires i < |turns| && turns[i].Reply? && |taints| == |turns|
  {
    taints[i].asked + if Truthy(AnsweredContext(turns, i)) then taints[i].plain else {}
  }

  /** Reply `k` of a view is shown with its words to somebody who did not ask for it. */
  ghost predicate ShownToAnother(s: Thread, r: Reader, v: seq<Seen>, k: nat)
    requires k < |v| && v[k].turn < |s.turns|
  {
    Heard(s.turns, v[k]) && AskerOf(s.turns, v[k].turn) != Some(r.id)
  }

  /** In a sound conversation, a reply a partial reader did not ask for and is shown with its words drew, through
      the digests its snapshots answer for, only on things that reader may read. */
  lemma ShownIsSafe(s: Thread, r: Reader, k: nat, m: Mark)
    requires Inv(s)
    requires var v := PartialView(r, s.turns);
      && k < |v| && v[k].turn < |s.turns| && ShownToAnother(s, r, v, k)
      && m in Guarded(s.turns, s.taints, v[k].turn)
    ensures MayRead(r, m)
  {
    PartialViewShape(r, s.turns);
    var v := PartialView(r, s.turns);
    var i := v[k].turn;
    var a, q := s.turns[i].answer, QuestionAt(s.turns, Answered(s.turns, i));
    assert ReadableBy(r, a, q);
    assert Covers(a, AnsweredContext(s.turns, i), s.taints[i]);
    assert InView(s.turns, Verdicts(r, s.turns), i);
    assert q.Some?;
    ReadableMarkIsSafe(r, a, q.value, m);
  }

  /** No reply of another asker is shown to this partial reader while an Ask digest anywhere behind it, or for an
      Ask reply any digest, drew on something they may not read themselves. */
  ghost predicate NothingGuardedLeaks(s: Thread, r: Reader) {
    var v := PartialView(r, s.turns);
    && |s.taints| == |s.turns| && InOrder(s.turns, v)
    && forall k, m | 0 <= k < |v| && ShownToAnother(s, r, v, k) && m in Guarded(s.turns, s.taints, v[k].turn) ::
         MayRead(r, m)
  }

  lemma SoundLeaksNothing(s: Thread, r: Reader)
    requires Inv(s)
    ensures NothingGuardedLeaks(s, r)
  {
    var v := PartialView(r, s.turns);
    PartialViewShape(r, s.turns);
    forall k, m | 0 <= k < |v| && ShownToAnother(s, r, v, k) && m in Guarded(s.turns, s.taints, v[k].turn)
      ensures MayRead(r, m)
    {
      ShownIsSafe(s, r, k, m);
    }
  }

  /** From any sound conversation, over every run of sends, however they interleave and whoever sends them,
      nothing guarded leaks to any partial reader while no window cuts off a legacy Ask question. */
  lemma RunsFromSoundAreSafe(s: Thread, steps: seq<Step>, r: Reader)
    requires Inv(s) && EdgeSafeRun(s, steps) && forall i | 0 <= i < |steps| :: HonestStep(steps[i])
    ensures NothingGuardedLeaks(Run(s, steps), r)
  {
    RunKeepsInv(s, steps);
    SoundLeaksNothing(Run(s, steps), r);
  }

  /** A conversation begun under this code leaks nothing guarded, ever: all its replies name their questions. */
  lemma EveryRunIsSafe(s: Thread, steps: seq<Step>, r: Reader)
    requires Begun(s) && forall i | 0 <= i < |steps| :: HonestStep(steps[i])
    ensures NothingGuardedLeaks(Run(s, steps), r)
  {
    HonestRunIsSound(s, steps);
    SoundLeaksNothing(Run(s, steps), r);
  }

  // ---------------------------------------------------------------- where it stops

  lemma {:induction false} QuestionsAddNothing(turns: seq<Turn>, fed: seq<Seen>, n: nat)
    requires 1 <= n <= |fed| && InRange(turns, fed) && forall k | 1 <= k < |fed| :: turns[fed[k].turn].Question?
    requires Contribution(turns, fed, false, 0) == []
    ensures Walk(turns, fed, false, n) == []
  {
    if n == 1 {
      assert Walk(turns, fed, false, 0) == [];
    } else {
      QuestionsAddNothing(turns, fed, n - 1);
    }
  }

  const PLACE := Dict(map["surface" := Text("organizations")])
  const PLAIN := Question(Some(1), Null)
  const NO_GROUNDING := Grounding(None, Null, Null, Null, [])

  /** An Ask question and its reply, stored before `reply_to` existed, then nineteen plain questions. */
  function LegacyTurns(): (turns: seq<Turn>)
    ensures |turns| == 21 && turns[0] == Question(Some(1), PLACE)
    ensures turns[1] == Reply(Answer(None, IntList([7]), Null, Null, Null, None, []))
    ensures forall k | 2 <= k < 21 :: turns[k] == PLAIN
  {
    [Question(Some(1), PLACE), Reply(Answer(None, IntList([7]), Null, Null, Null, None, []))]
    + seq(19, _ => PLAIN)
  }

  function LegacyTaints(): (taints: seq<Taint>)
    ensures |taints| == 21 && taints[1] == Taint({Customer(7)}, {}, {})
  {
    [UNTAINTED, Taint({Customer(7)}, {}, {})] + seq(19, _ => UNTAINTED)
  }

  lemma LegacyHolds()
    ensures AnsweredContext(LegacyTurns(), 1) == PLACE && Truthy(PLACE)
    ensures LegacyTurns()[1].Reply? && Held(Customer(7), LegacyTurns()[1].answer, PLACE)
  {
    assert LastQuestion(LegacyTurns(), 1) == Some(0);
    assert "surface" in PLACE.fields;
    assert Elements([7]) == {7};
    assert StoredIds(LegacyTurns()[1].answer.customerIds) == Some({7});
  }

  lemma LegacyIsSound()
    ensures Sound(LegacyTurns(), LegacyTaints())
    ensures AnsweredContext(LegacyTurns(), 1) == PLACE && Truthy(PLACE)
  {
    LegacyHolds();
  }

  /** The edge is real: the legacy Ask reply, first of the newest twenty turns, is taken for a plain
      one, and the plain reply fed it is stored unmarked though it drew on the same customer. */
  lemma CutOffQuestionIsMissed(sender: Reader)
    ensures var turns, taints, fed := LegacyTurns(), LegacyTaints(), Window(View(sender, LegacyTurns(), true));
      && Sound(turns, taints) && InRange(turns, fed) && !EdgeSafe(turns, fed, false)
      && NewAnswer(turns, fed, Null, sender.seesEverything, NO_GROUNDING, 21).carries == None
      && Customer(7) in DrawsOn(turns, taints, fed, UNTAINTED, |fed|).asked
  {
    var turns, taints := LegacyTurns(), LegacyTaints();
    LegacyIsSound();
    var fed := Window(View(sender, turns, true));
    assert fed == WholeView(turns)[1..];
    assert forall k | 0 <= k < |fed| :: fed[k] == Seen(k + 1, false, false);
    assert Heard(turns, fed[0]);
    assert LastSeen(turns, fed, 0) == Null;
    QuestionsAddNothing(turns, fed, |fed|);
    AskedFrom(turns, taints, fed, UNTAINTED, |fed|, Customer(7));
  }

  /** A reply that was fed an Ask reply carrying anomaly text, in a conversation of its own. */
  const FED_ANOMALY := [PLAIN, Reply(Answer(Some(0), Null, UNKNOWN, UNKNOWN, UNKNOWN, Some(true), []))]
  const ANOMALY_TAINTS := [UNTAINTED, Taint({AnomalyText}, {}, {})]
  const NOTHING_FOUND := Grounding(Some([]), EncodeCounted(NO_PIPELINE), EncodeCounted(NO_PIPELINE), List([]), [])

  lemma FedAnomalyWalk()
    ensures InRange(FED_ANOMALY, [Seen(1, false, false)])
    ensures Walk(FED_ANOMALY, [Seen(1, false, false)], true, 1) == [Blocks]
    ensures Sound(FED_ANOMALY, ANOMALY_TAINTS)
    ensures AnomalyText in DrawsOn(FED_ANOMALY, ANOMALY_TAINTS, [Seen(1, false, false)], UNTAINTED, 1).asked
  {
    var fed := [Seen(1, false, false)];
    assert Heard(FED_ANOMALY, fed[0]);
    assert Contribution(FED_ANOMALY, fed, true, 0) == [Blocks];
    assert Walk(FED_ANOMALY, fed, true, 0) == [];
    assert Held(AnomalyText, FED_ANOMALY[1].answer, Null);
    AskedFrom(FED_ANOMALY, ANOMALY_TAINTS, fed, UNTAINTED, 1, AnomalyText);
  }

  lemma FedAnomalyFolds()
    ensures var fed := [Seen(1, false, false)];
      InRange(FED_ANOMALY, fed) && WalkOf(FED_ANOMALY, [Blocks])
      && FoldCarries(FED_ANOMALY, OwnCarries(PLACE, false), [Blocks]) == Some(false)
      && Fold(FED_ANOMALY, OwnIds(PLACE, NOTHING_FOUND), [Blocks], IdsOf, UnionIds) == None
  {
    var none: seq<Fed> := [];
    assert [Blocks] == none + [Blocks];
    CarriesAppends(FED_ANOMALY, Some(false), none, Blocks);
    FoldAppends(FED_ANOMALY, OwnIds(PLACE, NOTHING_FOUND), none, Blocks, IdsOf, UnionIds);
  }

  lemma NewAnswerCarries(turns: seq<Turn>, fed: seq<Seen>, ask: Json, seesAll: bool, g: Grounding, q: nat)
    requires InRange(turns, fed) && ValidAsk(ask)
    ensures var w := Walk(turns, fed, true, |fed|);
      && NewAnswer(turns, fed, ask, seesAll, g, q).carries == FoldCarries(turns, OwnCarries(ask, seesAll), w)
      && (Fold(turns, OwnIds(ask, g), w, IdsOf, UnionIds).None? ==>
            NewAnswer(turns, fed, ask, seesAll, g, q).customerIds == Null)
  {
  }

  /** `carries_anomaly_text` alone proves nothing: an Ask reply fed that reply is stored with `False`
      though it drew on the anomaly text. Its customer ids are unknown, which is what withholds it. */
  lemma CarriesAloneIsNotEnough()
    ensures var fed := [Seen(1, false, false)];
      && InRange(FED_ANOMALY, fed) && ValidAsk(PLACE) && Sound(FED_ANOMALY, ANOMALY_TAINTS)
      && Honest(PLACE, false, NOTHING_FOUND, {})
      && AnomalyText in DrawsOn(FED_ANOMALY, ANOMALY_TAINTS, fed, UNTAINTED, 1).asked
      && NewAnswer(FED_ANOMALY, fed, PLACE, false, NOTHING_FOUND, 2).carries == Some(false)
      && NewAnswer(FED_ANOMALY, fed, PLACE, false, NOTHING_FOUND, 2).customerIds == Null
  {
    FedAnomalyWalk();
    FedAnomalyFolds();
    NewAnswerCarries(FED_ANOMALY, [Seen(1, false, false)], PLACE, false, NOTHING_FOUND, 2);
  }
}
