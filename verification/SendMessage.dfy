/** `SendMessageView.post`: one send, from the request to the two stored turns. */
module SendMessage {
  import opened Orders
  import opened PyText
  import opened Snapshots
  import opened Conversations
  import opened Provenance
  import opened Soundness
  import opened SharedRuns
  import Grants
  import Handoff

  const MAX_MESSAGE_LENGTH := 8000

  datatype Outcome = Empty | TooLong | AgentDisabled | NotFound | SessionClosed | BadContext | ModelFailed | Stored

  // ---------------------------------------------------------------- storing the question first changes nothing

  lemma ContributionStays(turns: seq<Turn>, t: Turn, fed: seq<Seen>, asking: bool, k: nat)
    requires WellFormed(turns) && InRange(turns, fed) && k < |fed|
    ensures InRange(turns + [t], fed)
    ensures Contribution(turns + [t], fed, asking, k) == Contribution(turns, fed, asking, k)
  {
    LastSeenStays(turns, t, fed, k);
    assert (turns + [t])[fed[k].turn] == turns[fed[k].turn];
    if Heard(turns, fed[k]) {
      assert TakenContext(turns + [t], fed, k) == TakenContext(turns, fed, k);
    }
  }

  lemma InRangeStays(turns: seq<Turn>, t: Turn, fed: seq<Seen>)
    requires InRange(turns, fed)
    ensures InRange(turns + [t], fed)
  {
  }

  lemma {:induction false} WalkStays(turns: seq<Turn>, t: Turn, fed: seq<Seen>, asking: bool, n: nat)
    requires WellFormed(turns) && InRange(turns, fed) && n <= |fed|
    ensures InRange(turns + [t], fed) && Walk(turns + [t], fed, asking, n) == Walk(turns, fed, asking, n)
  {
    InRangeStays(turns, t, fed);
    var longer := turns + [t];
    if n > 0 {
      WalkStays(turns, t, fed, asking, n - 1);
      ContributionStays(turns, t, fed, asking, n - 1);
      assert Contribution(longer, fed, asking, n - 1) == Contribution(turns, fed, asking, n - 1);
      assert Walk(longer, fed, asking, n - 1) == Walk(turns, fed, asking, n - 1);
    }
  }

  lemma {:induction false} FoldStays<S>(turns: seq<Turn>, t: Turn, start: Option<S>, w: seq<Fed>,
                                        of: (Answer, Json) -> Option<S>, union: (S, S) -> S)
    requires WalkOf(turns, w)
    ensures WalkOf(turns + [t], w) && Fold(turns + [t], start, w, of, union) == Fold(turns, start, w, of, union)
  {
    if w != [] {
      FoldStays(turns, t, start, w[..|w| - 1], of, union);
    }
  }

  lemma {:induction false} CarriesStays(turns: seq<Turn>, t: Turn, start: Option<bool>, w: seq<Fed>)
    requires WalkOf(turns, w)
    ensures WalkOf(turns + [t], w) && FoldCarries(turns + [t], start, w) == FoldCarries(turns, start, w)
  {
    if w != [] {
      CarriesStays(turns, t, start, w[..|w| - 1]);
    }
  }

  lemma NewAnswerStays(turns: seq<Turn>, t: Turn, fed: seq<Seen>, ask: Json, seesAll: bool, g: Grounding, q: nat)
    requires WellFormed(turns) && InRange(turns, fed) && (ask == Null || ValidAsk(ask))
    ensures InRange(turns + [t], fed)
    ensures NewAnswer(turns + [t], fed, ask, seesAll, g, q) == NewAnswer(turns, fed, ask, seesAll, g, q)
  {
    WalkStays(turns, t, fed, ask != Null, |fed|);
    var w := Walk(turns, fed, ask != Null, |fed|);
    CarriesStays(turns, t, OwnCarries(ask, seesAll), w);
    FoldStays(turns, t, OwnIds(ask, g), w, IdsOf, UnionIds);
    FoldStays(turns, t, OwnCounted(ask, g.pipeline), w, PipelineOf, UnionCounted);
    FoldStays(turns, t, OwnCounted(ask, g.tickets), w, TicketsOf, UnionCounted);
    FoldStays(turns, t, OwnRecords(ask, g.records), w, RecordsOf, UnionRecords);
  }

  lemma {:induction false} DrawsOnGrows(turns: seq<Turn>, taints: seq<Taint>, t: Turn, taint: Taint, fed: seq<Seen>,
                                        own: Taint, n: nat)
    requires InRange(turns, fed) && n <= |fed| && |taints| == |turns|
    ensures InRange(turns + [t], fed)
    ensures DrawsOn(turns + [t], taints + [taint], fed, own, n) == DrawsOn(turns, taints, fed, own, n)
  {
    if n > 0 {
      DrawsOnGrows(turns, taints, t, taint, fed, own, n - 1);
    }
  }

  // ---------------------------------------------------------------- the conversation

  /** The newest turns of the sender's own view. */
  method History(sender: Reader, turns: seq<Turn>, whole: bool) returns (fed: seq<Seen>)
    ensures fed == Window(View(sender, turns, whole)) && InRange(turns, fed)
  {
    var view := VisibleMessages(sender, turns, whole);
    WindowIsInRange(sender, turns, whole);
    fed := if |view| <= HISTORY_WINDOW then view else view[|view| - HISTORY_WINDOW..];
  }

  lemma WindowIsInRange(sender: Reader, turns: seq<Turn>, whole: bool)
    ensures InRange(turns, Window(View(sender, turns, whole)))
  {
    WindowIsHeardOrCut(sender, turns, whole, false);
  }

  /** The reply row: its four snapshots, or none of them when the send is plain and nothing Ask-shaped was heard. */
  method Compose(turns: seq<Turn>, fed: seq<Seen>, ask: Json, seesAll: bool, g: Grounding, question: nat)
    returns (answer: Answer)
    requires InRange(turns, fed) && (ask == Null || ValidAsk(ask))
    ensures answer == NewAnswer(turns, fed, ask, seesAll, g, question)
  {
    var asking := ask != Null;
    var ids, carries := AskSnapshot(turns, fed, ask, seesAll, g);
    answer := Answer(Some(question), Null, Null, Null, Null, None, g.sources);
    if carries.Some? {
      var pipeline := FoldedSnapshot(turns, fed, asking, OwnCounted(ask, g.pipeline), PipelineOf, UnionCounted);
      var tickets := FoldedSnapshot(turns, fed, asking, OwnCounted(ask, g.tickets), TicketsOf, UnionCounted);
      var records := FoldedSnapshot(turns, fed, asking, OwnRecords(ask, g.records), RecordsOf, UnionRecords);
      answer := Answer(Some(question), if ids.None? then Null else IntList(SortedInts(ids.value)),
                       StoredCounted(pipeline), StoredCounted(tickets), StoredRecords(records), carries, g.sources);
    }
  }

  /** One conversation's rows. `taints` is what each turn really drew on; the program never reads it. */
  class Conversation {
    var turns: seq<Turn>
    ghost var taints: seq<Taint>

    constructor ()
      ensures Valid() && turns == []
    {
      turns, taints := [], [];
    }

    ghost predicate Valid()
      reads this
    {
      WellFormed(turns) && Sound(turns, taints) && PointsBack(turns)
    }

    /** The rows as a state of the runs in `SharedRuns`, with no send in flight. */
    ghost function Rows(): Thread
      reads this
    {
      Thread(turns, taints, map[])
    }

    /** A send. `mentioned` is whether the sender gets a slice of the conversation, `ask` the context the Ask
        serializer accepted (`None` when it refused one, `Null` when none was sent), and `answers` whether the model
        call succeeds. Either both turns are stored, as the three steps of an uninterrupted send by somebody who
        sees what the session grants them, or nothing is. */
    method Post(session: Handoff.SessionRows, sender: Reader, mentioned: bool, agentEnabled: bool, content: string,
                ask: Option<Json>, g: Grounding, answers: bool, ghost drew: set<Mark>)
      returns (outcome: Outcome)
      requires Valid()
      requires ask.Some? && ask.value != Null ==> ValidAsk(ask.value)
      requires ask.Some? ==> Honest(ask.value, sender.seesEverything, g, drew)
      modifies this
      ensures Valid()
      ensures outcome == Stored
         <==> 0 < |Strip(content)| <= MAX_MESSAGE_LENGTH && agentEnabled && ask.Some? && answers
              && session.status != Grants.Closed && (mentioned || Grants.SeesWhole(session.State(), sender.id))
      ensures var sees := mentioned || Grants.SeesWhole(session.State(), sender.id);
        && (outcome == Empty <==> Strip(content) == "")
        && (outcome == TooLong <==> |Strip(content)| > 8000)
        && (outcome == AgentDisabled <==> 0 < |Strip(content)| <= 8000 && !agentEnabled)
        && (outcome == NotFound <==> 0 < |Strip(content)| <= 8000 && agentEnabled && !sees)
        && (outcome == SessionClosed <==>
              0 < |Strip(content)| <= 8000 && agentEnabled && sees && session.status == Grants.Closed)
        && (outcome == BadContext <==>
              0 < |Strip(content)| <= 8000 && agentEnabled && sees && session.status != Grants.Closed && ask.None?)
      ensures outcome != Stored ==> turns == old(turns) && taints == old(taints)
      ensures outcome == Stored ==>
        var n := |old(turns)|;
        && |turns| == n + 2 && turns[..n] == old(turns) && turns[n] == Question(Some(sender.id), ask.value)
        && turns[n + 1].Reply? && turns[n + 1].answer.replyTo == Some(n) && turns[n + 1].answer.sources == g.sources
      ensures outcome == Stored
          ==> Rows() == Run(old(Rows()),
                            SendSteps(sender, Grants.SeesWhole(session.State(), sender.id), ask.value, g, drew))
    {
      var text := Strip(content);
      if text == "" { return Empty; }
      if |text| > MAX_MESSAGE_LENGTH { return TooLong; }
      if !agentEnabled { return AgentDisabled; }
      var whole := Grants.ChecksWhole(session.State(), sender.id);
      if !whole && !mentioned { return NotFound; }
      if session.status == Grants.Closed { return SessionClosed; }
      if ask.None? { return BadContext; }
      var context := ask.value;
      var fed := History(sender, turns, whole);
      if !answers { return ModelFailed; }
      Store(sender, whole, fed, context, g, drew);
      outcome := Stored;
    }

    /** The question's row, then the reply's. */
    method Store(sender: Reader, whole: bool, fed: seq<Seen>, context: Json, g: Grounding, ghost drew: set<Mark>)
      requires Valid() && fed == Window(View(sender, turns, whole)) && InRange(turns, fed)
      requires (context == Null || ValidAsk(context)) && Honest(context, sender.seesEverything, g, drew)
      modifies this
      ensures Valid() && Rows() == Run(old(Rows()), SendSteps(sender, whole, context, g, drew))
      ensures exists a :: turns == old(turns) + [Question(Some(sender.id), context), Reply(a)]
                          && a.replyTo == Some(|old(turns)|) && a.sources == g.sources
    {
      var answer := Compose(turns, fed, context, sender.seesEverything, g, |turns|);
      SendIsARun(Rows(), sender, whole, context, g, drew);
      ghost var taint := DrawsOn(turns, taints, fed, OwnTaint(context, g, drew), |fed|);
      turns := turns + [Question(Some(sender.id), context), Reply(answer)];
      taints := taints + [UNTAINTED, taint];
    }
  }

  /** The steps of one send, with nothing between them. */
  function SendSteps(sender: Reader, whole: bool, ask: Json, g: Grounding, drew: set<Mark>): seq<Step> {
    [Begin(0, sender, whole, ask, g, drew), StoreQuestion(0), StoreReply(0)]
  }

  lemma RunOfThree(s: Thread, a: Step, b: Step, c: Step)
    ensures Run(s, [a, b, c]) == Apply(Apply(Apply(s, a), b), c)
  {
    var steps := [a, b, c];
    assert steps[1..] == [b, c] && [b, c][1..] == [c] && [c][1..] == [];
    assert Run(Apply(s, a), [b, c]) == Run(Apply(Apply(s, a), b), [c]);
    assert Run(Apply(Apply(Apply(s, a), b), c), []) == Apply(Apply(Apply(s, a), b), c);
  }

  /** What an uninterrupted send leaves. */
  ghost function Sent(s: Thread, sender: Reader, whole: bool, ask: Json, g: Grounding, drew: set<Mark>): Thread
    requires InRange(s.turns, Window(View(sender, s.turns, whole))) && (ask == Null || ValidAsk(ask))
    requires |s.taints| == |s.turns|
  {
    Both(s, Pending(sender.id, sender.seesEverything, ask, g, drew, Window(View(sender, s.turns, whole)), None))
  }

  /** The two turns of a send with nothing between them. */
  ghost function Both(s: Thread, p: Pending): Thread
    requires InRange(s.turns, p.fed) && (p.ask == Null || ValidAsk(p.ask)) && |s.taints| == |s.turns|
  {
    Thread(s.turns + [Question(Some(p.sender), p.ask),
                      Reply(NewAnswer(s.turns, p.fed, p.ask, p.seesAll, p.grounding, |s.turns|))],
           s.taints + [UNTAINTED, TaintOf(s, p)], map[])
  }

  /** Storing the question changes nothing of what the reply will be, or of what it drew on. */
  lemma SameReply(s: Thread, p: Pending, t: Turn, p2: Pending)
    requires WellFormed(s.turns) && InRange(s.turns, p.fed) && |s.taints| == |s.turns|
    requires (p.ask == Null || ValidAsk(p.ask)) && p2 == p.(question := Some(|s.turns|))
    ensures var s2 := Thread(s.turns + [t], s.taints + [UNTAINTED], map[0 := p2]);
      && Ready(s2, p2) && TaintOf(s2, p2) == TaintOf(s, p)
      && NewAnswer(s2.turns, p.fed, p.ask, p.seesAll, p.grounding, |s.turns|)
      == NewAnswer(s.turns, p.fed, p.ask, p.seesAll, p.grounding, |s.turns|)
  {
    NewAnswerStays(s.turns, t, p.fed, p.ask, p.seesAll, p.grounding, |s.turns|);
    DrawsOnGrows(s.turns, s.taints, t, UNTAINTED, p.fed, OwnTaint(p.ask, p.grounding, p.drew), |p.fed|);
  }

  lemma ReplyAfterQuestion(s: Thread, s2: Thread, p: Pending, p2: Pending, t: Turn)
    requires WellFormed(s.turns) && InRange(s.turns, p.fed) && |s.taints| == |s.turns|
    requires (p.ask == Null || ValidAsk(p.ask)) && t == Question(Some(p.sender), p.ask)
    requires p2 == p.(question := Some(|s.turns|))
    requires s2 == Thread(s.turns + [t], s.taints + [UNTAINTED], map[0 := p2])
    ensures Apply(s2, StoreReply(0)) == Both(s, p)
  {
    SameReply(s, p, t, p2);
    var a, taint := NewAnswer(s.turns, p.fed, p.ask, p.seesAll, p.grounding, |s.turns|), TaintOf(s, p);
    assert Apply(s2, StoreReply(0)) == Thread(s2.turns + [Reply(a)], s2.taints + [taint], s2.pending - {0});
    assert s.turns + [t] + [Reply(a)] == s.turns + [t, Reply(a)];
    assert s.taints + [UNTAINTED] + [taint] == s.taints + [UNTAINTED, taint];
    assert s2.pending - {0} == map[];
  }

  lemma QuestionThenReply(s: Thread, p: Pending)
    requires WellFormed(s.turns) && InRange(s.turns, p.fed) && |s.taints| == |s.turns|
    requires (p.ask == Null || ValidAsk(p.ask)) && p.question == None && s.pending == map[0 := p]
    ensures Apply(Apply(s, StoreQuestion(0)), StoreReply(0)) == Both(s, p)
  {
    var t, p2 := Question(Some(p.sender), p.ask), p.(question := Some(|s.turns|));
    var s2 := Apply(s, StoreQuestion(0));
    assert s.pending[0 := p2] == map[0 := p2];
    ReplyAfterQuestion(s, s2, p, p2, t);
  }

  lemma SentInSteps(s: Thread, sender: Reader, whole: bool, ask: Json, g: Grounding, drew: set<Mark>)
    requires WellFormed(s.turns) && InRange(s.turns, Window(View(sender, s.turns, whole)))
    requires (ask == Null || ValidAsk(ask)) && |s.taints| == |s.turns| && s.pending == map[]
    ensures Apply(Apply(Apply(s, Begin(0, sender, whole, ask, g, drew)), StoreQuestion(0)), StoreReply(0))
            == Sent(s, sender, whole, ask, g, drew)
  {
    var fed := Window(View(sender, s.turns, whole));
    var p := Pending(sender.id, sender.seesEverything, ask, g, drew, fed, None);
    var s1 := Apply(s, Begin(0, sender, whole, ask, g, drew));
    assert s1 == Thread(s.turns, s.taints, map[0 := p]);
    QuestionThenReply(s1, p);
  }

  lemma SendStepsReach(s: Thread, sender: Reader, whole: bool, ask: Json, g: Grounding, drew: set<Mark>)
    requires WellFormed(s.turns) && InRange(s.turns, Window(View(sender, s.turns, whole)))
    requires (ask == Null || ValidAsk(ask)) && |s.taints| == |s.turns| && s.pending == map[]
    ensures Run(s, SendSteps(sender, whole, ask, g, drew)) == Sent(s, sender, whole, ask, g, drew)
  {
    SentInSteps(s, sender, whole, ask, g, drew);
    RunOfThree(s, Begin(0, sender, whole, ask, g, drew), StoreQuestion(0), StoreReply(0));
  }

  /** The two turns a send stores are what its three steps store, and they keep the conversation sound. */
  lemma SendIsARun(s: Thread, sender: Reader, whole: bool, ask: Json, g: Grounding, drew: set<Mark>)
    requires Inv(s) && PointsBack(s.turns) && s.pending == map[]
    requires (ask == Null || ValidAsk(ask)) && Honest(ask, sender.seesEverything, g, drew)
    ensures InRange(s.turns, Window(View(sender, s.turns, whole)))
    ensures var after := Sent(s, sender, whole, ask, g, drew);
      && Run(s, SendSteps(sender, whole, ask, g, drew)) == after
      && Inv(after) && PointsBack(after.turns)
  {
    var steps := SendSteps(sender, whole, ask, g, drew);
    WindowIsInRange(sender, s.turns, whole);
    SendStepsReach(s, sender, whole, ask, g, drew);
    forall i | 0 <= i < |steps| ensures HonestStep(steps[i]) {
    }
    HonestRunIsSound(s, steps);
  }
}
