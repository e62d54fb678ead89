/** Runs of a shared conversation: anyone sends, sends interleave, and what each reply's snapshots answer for they
    go on answering for (`services/copilot/views.py`). */
module SharedRuns {
  import opened Orders
  import opened Snapshots
  import opened Conversations
  import opened Provenance
  import opened Soundness

  const HISTORY_WINDOW := 20

  /** The newest turns of a view, oldest first. */
  function Window(view: seq<Seen>): seq<Seen> {
    if |view| <= HISTORY_WINDOW then view else view[|view| - HISTORY_WINDOW..]
  }

  // ---------------------------------------------------------------- a window of a view is walked rightly

  /** What a window can miss: a plain send whose first turns, before any question of the window, hold
      an unmarked reply with no `reply_to` whose Ask question was cut off. */
  ghost predicate EdgeSafe(turns: seq<Turn>, fed: seq<Seen>, asking: bool)
    requires InRange(turns, fed)
  {
    asking || forall k | 0 <= k < |fed| && Heard(turns, fed[k])
                         && (forall j | 0 <= j < k :: turns[fed[j].turn].Reply?) ::
      var a := turns[fed[k].turn].answer;
      a.replyTo.None? && a.carries.None? ==> !Truthy(AnsweredContext(turns, fed[k].turn))
  }

  lemma TurnOrder(turns: seq<Turn>, v: seq<Seen>, a: nat, b: nat)
    requires InOrder(turns, v) && a < |v| && b < |v|
    ensures v[a].turn < v[b].turn <==> a < b
  {
  }

  /** A reply shown in a view, and paired by position, has its question shown before it with its context. */
  lemma ViewKeepsQuestions(r: Reader, turns: seq<Turn>, whole: bool, v: seq<Seen>, p: nat) returns (at: nat)
    requires v == View(r, turns, whole) && p < |v| && v[p].turn < |turns| && Heard(turns, v[p])
    requires turns[v[p].turn].answer.replyTo.None? && LastQuestion(turns, v[p].turn).Some?
    ensures at < p && v[at] == Seen(LastQuestion(turns, v[p].turn).value, false, false)
  {
    var i := v[p].turn;
    var q := LastQuestion(turns, i).value;
    if whole {
      at := q;
    } else {
      var ok := Verdicts(r, turns);
      var kept := Kept(turns, ok, |turns|);
      KeptIsInOrder(turns, ok, |turns|);
      assert kept[p].turn == i;
      KeptHolds(turns, ok, |turns|, q);
      at :| 0 <= at < |kept| && kept[at] == Seen(q, false, false);
      ShownAnswersHold(turns, ok, |turns|, i, q);
      TurnOrder(turns, kept, at, p);
    }
  }

  /** Every reply shown and paired by position comes after its question, shown with its context. */
  ghost predicate Paired(turns: seq<Turn>, v: seq<Seen>)
    requires InRange(turns, v)
  {
    forall p | 0 <= p < |v| && NeedsPairing(turns, v[p]) :: PairedAt(turns, v, p)
  }

  predicate NeedsPairing(turns: seq<Turn>, e: Seen)
    requires e.turn < |turns|
  {
    Heard(turns, e) && turns[e.turn].answer.replyTo.None? && LastQuestion(turns, e.turn).Some?
  }

  ghost predicate PairedAt(turns: seq<Turn>, v: seq<Seen>, p: nat)
    requires p < |v| && v[p].turn < |turns| && NeedsPairing(turns, v[p])
  {
    exists at :: 0 <= at < p && v[at] == Seen(LastQuestion(turns, v[p].turn).value, false, false)
  }

  lemma ViewIsPaired(r: Reader, turns: seq<Turn>, whole: bool)
    ensures InOrder(turns, View(r, turns, whole)) && Paired(turns, View(r, turns, whole))
  {
    var v := View(r, turns, whole);
    ViewIsInOrder(r, turns, whole);
    forall p | 0 <= p < |v| && NeedsPairing(turns, v[p]) ensures PairedAt(turns, v, p) {
      var at := ViewKeepsQuestions(r, turns, whole, v, p);
    }
  }

  /** Either no question comes before place `k`, or the nearest one does, at `j`. */
  lemma {:induction false} NearestQuestion(turns: seq<Turn>, fed: seq<Seen>, k: nat) returns (j: Option<nat>)
    requires k <= |fed| && InRange(turns, fed)
    ensures j.None? ==> LastSeen(turns, fed, k) == Null && forall i | 0 <= i < k :: turns[fed[i].turn].Reply?
    ensures j.Some? ==> j.value < k && turns[fed[j.value].turn].Question?
                        && (forall i | j.value < i < k :: turns[fed[i].turn].Reply?)
                        && LastSeen(turns, fed, k)
                           == (if fed[j.value].contextHidden then Null else turns[fed[j.value].turn].context)
  {
    if k == 0 {
      j := None;
    } else if turns[fed[k - 1].turn].Question? {
      j := Some(k - 1);
    } else {
      j := NearestQuestion(turns, fed, k - 1);
    }
  }

  lemma ViewIsInOrder(r: Reader, turns: seq<Turn>, whole: bool)
    ensures InOrder(turns, View(r, turns, whole))
  {
    if !whole {
      PartialViewShape(r, turns);
    }
  }

  /** The nearest question of the view before a reply it shows is the one the reply is paired with. */
  lemma NearestIsLast(turns: seq<Turn>, v: seq<Seen>, j: nat, k: nat)
    requires j < k < |v| && InOrder(turns, v) && Paired(turns, v)
    requires Heard(turns, v[k]) && turns[v[k].turn].answer.replyTo.None?
    requires turns[v[j].turn].Question? && (forall i | j < i < k :: turns[v[i].turn].Reply?)
    ensures LastQuestion(turns, v[k].turn) == Some(v[j].turn) && !v[j].contextHidden
  {
    TurnOrder(turns, v, j, k);
    var q := LastQuestion(turns, v[k].turn).value;
    assert PairedAt(turns, v, k);
    var at :| 0 <= at < k && v[at] == Seen(q, false, false);
    TurnOrder(turns, v, at, j);
  }

  /** The context the walk takes a reply of the window to answer is the real one, or none at all
      when the question was cut off. */
  lemma WindowContexts(turns: seq<Turn>, v: seq<Seen>, lo: nat, k: nat)
    requires InOrder(turns, v) && Paired(turns, v) && lo + k < |v| && Heard(turns, v[lo + k])
    ensures var fed := v[lo..];
      var taken, actual := TakenContext(turns, fed, k), AnsweredContext(turns, fed[k].turn);
      if turns[fed[k].turn].answer.replyTo.Some? || exists j :: 0 <= j < k && turns[fed[j].turn].Question?
      then taken == actual else taken == Null
  {
    var fed, i := v[lo..], v[lo + k].turn;
    assert fed[k] == v[lo + k];
    if turns[i].answer.replyTo.None? {
      var near := NearestQuestion(turns, fed, k);
      if near.Some? {
        var j := lo + near.value;
        assert fed[near.value] == v[j];
        forall x | j < x < lo + k ensures turns[v[x].turn].Reply? {
          assert fed[x - lo] == v[x];
        }
        NearestIsLast(turns, v, j, lo + k);
        assert AnsweredContext(turns, i) == turns[v[j].turn].context;
      }
    }
  }

  /** The walk hears every Ask-shaped reply of a window exactly when nothing was cut off at its edge. */
  lemma WindowIsHeardIff(r: Reader, turns: seq<Turn>, whole: bool, lo: nat, asking: bool)
    requires lo <= |View(r, turns, whole)|
    ensures var fed := View(r, turns, whole)[lo..];
      InRange(turns, fed) && (Attentive(turns, fed, asking) <==> EdgeSafe(turns, fed, asking))
  {
    ViewIsPaired(r, turns, whole);
    PairedWindowIsHeardIff(turns, View(r, turns, whole), lo, asking);
  }

  lemma PairedWindowIsHeardIff(turns: seq<Turn>, v: seq<Seen>, lo: nat, asking: bool)
    requires InOrder(turns, v) && Paired(turns, v) && lo <= |v|
    ensures InRange(turns, v[lo..]) && (Attentive(turns, v[lo..], asking) <==> EdgeSafe(turns, v[lo..], asking))
  {
    var fed := v[lo..];
    forall k | 0 <= k < |fed| ensures fed[k].turn < |turns| {
      assert fed[k] == v[lo + k];
    }
    forall k | 0 <= k < |fed| && Heard(turns, fed[k])
      ensures var taken, actual := TakenContext(turns, fed, k), AnsweredContext(turns, fed[k].turn);
        if turns[fed[k].turn].answer.replyTo.Some? || exists j :: 0 <= j < k && turns[fed[j].turn].Question?
        then taken == actual else taken == Null
    {
      assert fed[k] == v[lo + k];
      WindowContexts(turns, v, lo, k);
    }
  }

  /** The same of the window a send takes. */
  lemma WindowIsHeardOrCut(r: Reader, turns: seq<Turn>, whole: bool, asking: bool)
    ensures var fed := Window(View(r, turns, whole));
      InRange(turns, fed) && (Attentive(turns, fed, asking) <==> EdgeSafe(turns, fed, asking))
  {
    var v := View(r, turns, whole);
    var lo := if |v| <= HISTORY_WINDOW then 0 else |v| - HISTORY_WINDOW;
    assert Window(v) == v[lo..];
    WindowIsHeardIff(r, turns, whole, lo, asking);
  }

  // ---------------------------------------------------------------- sends, step by step

  /** A send between reading its history and storing its reply. `drew` is what its digest really
      drew on, which the code never sees. */
  datatype Pending = Pending(sender: UserId, seesAll: bool, ask: Json, grounding: Grounding, drew: set<Mark>,
                             fed: seq<Seen>, question: Option<nat>)

  /** A conversation, what each of its turns drew on, and the sends in flight. */
  datatype Thread = Thread(turns: seq<Turn>, taints: seq<Taint>, pending: map<nat, Pending>)

  /** A conversation with no turn yet, and no send in flight. */
  predicate Begun(s: Thread) {
    s.turns == [] && s.taints == [] && s.pending == map[]
  }

  datatype Step =
    /** Anyone reads their view, whole or partial, and calls the model with its newest turns. */
    | Begin(id: nat, reader: Reader, whole: bool, ask: Json, grounding: Grounding, drew: set<Mark>)
    /** The model answered: the question is stored, then the reply. */
    | StoreQuestion(id: nat)
    | StoreReply(id: nat)
    /** The model call failed: nothing is stored. */
    | Fail(id: nat)

  function Fed(s: Thread, step: Step): seq<Seen>
    requires step.Begin?
  {
    Window(View(step.reader, s.turns, step.whole))
  }

  /** Storing a reply never fails to find its history: turns are only ever added. */
  ghost predicate Ready(s: Thread, p: Pending) {
    && InRange(s.turns, p.fed) && |s.taints| == |s.turns| && (p.ask == Null || ValidAsk(p.ask))
    && p.question.Some?
  }

  /** What the reply of a send in flight will have drawn on. */
  ghost function TaintOf(s: Thread, p: Pending): Taint
    requires InRange(s.turns, p.fed) && |s.taints| == |s.turns|
  {
    DrawsOn(s.turns, s.taints, p.fed, OwnTaint(p.ask, p.grounding, p.drew), |p.fed|)
  }

  ghost function Apply(s: Thread, step: Step): Thread {
    match step
    case Begin(id, reader, whole, ask, grounding, drew) =>
      if id in s.pending || !(ask == Null || ValidAsk(ask)) then s
      else
        var p := Pending(reader.id, reader.seesEverything, ask, grounding, drew, Fed(s, step), None);
        s.(pending := s.pending[id := p])
    case StoreQuestion(id) =>
      if id !in s.pending || s.pending[id].question.Some? then s
      else
        var p := s.pending[id];
        Thread(s.turns + [Question(Some(p.sender), p.ask)], s.taints + [UNTAINTED],
               s.pending[id := p.(question := Some(|s.turns|))])
    case StoreReply(id) =>
      if id !in s.pending || !Ready(s, s.pending[id]) then s
      else
        var p := s.pending[id];
        Thread(s.turns + [Reply(NewAnswer(s.turns, p.fed, p.ask, p.seesAll, p.grounding, p.question.value))],
               s.taints + [TaintOf(s, p)],
               s.pending - {id})
    case Fail(id) =>
      if id in s.pending && s.pending[id].question.None? then s.(pending := s.pending - {id}) else s
  }

  ghost function Run(s: Thread, steps: seq<Step>): Thread
    decreases |steps|
  {
    if steps == [] then s else Run(Apply(s, steps[0]), steps[1..])
  }

  /** A send whose Ask grounding, if it has one, reports what its digest draws on. */
  ghost predicate HonestStep(step: Step) {
    step.Begin? && (step.ask == Null || ValidAsk(step.ask)) ==>
      Honest(step.ask, step.reader.seesEverything, step.grounding, step.drew)
  }

  /** ... and whose window has cut off no Ask question of an unmarked reply with no `reply_to`. */
  ghost predicate EdgeSafeStep(s: Thread, step: Step) {
    step.Begin? ==> InRange(s.turns, Fed(s, step)) && EdgeSafe(s.turns, Fed(s, step), step.ask != Null)
  }

  ghost predicate EdgeSafeRun(s: Thread, steps: seq<Step>)
    decreases |steps|
  {
    steps != [] ==> EdgeSafeStep(s, steps[0]) && EdgeSafeRun(Apply(s, steps[0]), steps[1..])
  }

  /** What the walk needs of the conversation and of the sends in flight, whatever their digests drew on. */
  ghost predicate Heeds(s: Thread) {
    && WellFormed(s.turns)
    && forall id | id in s.pending :: PendingHeeds(s.turns, s.pending[id])
  }

  ghost predicate PendingHeeds(turns: seq<Turn>, p: Pending) {
    && InRange(turns, p.fed) && (p.ask == Null || ValidAsk(p.ask)) && Attentive(turns, p.fed, p.ask != Null)
    && (p.question.Some? ==> p.question.value < |turns|
                             && turns[p.question.value] == Question(Some(p.sender), p.ask))
  }

  /** And the Ask groundings of the sends in flight report what their digests draw on. */
  ghost predicate Inv(s: Thread) {
    && Heeds(s) && Sound(s.turns, s.taints)
    && forall id | id in s.pending :: HonestPending(s.pending[id])
  }

  ghost predicate HonestPending(p: Pending) {
    (p.ask == Null || ValidAsk(p.ask)) && Honest(p.ask, p.seesAll, p.grounding, p.drew)
  }

  // ---------------------------------------------------------------- turns already stored keep their meaning

  lemma {:induction false} LastQuestionStays(turns: seq<Turn>, t: Turn, i: nat)
    requires i <= |turns|
    ensures LastQuestion(turns + [t], i) == LastQuestion(turns, i)
  {
    if i > 0 {
      LastQuestionStays(turns, t, i - 1);
    }
  }

  lemma AnsweredContextStays(turns: seq<Turn>, t: Turn, i: nat)
    requires WellFormed(turns) && i < |turns| && turns[i].Reply?
    ensures AnsweredContext(turns + [t], i) == AnsweredContext(turns, i)
  {
    LastQuestionStays(turns, t, i);
  }

  lemma {:induction false} LastSeenStays(turns: seq<Turn>, t: Turn, fed: seq<Seen>, k: nat)
    requires InRange(turns, fed) && k <= |fed|
    ensures InRange(turns + [t], fed) && LastSeen(turns + [t], fed, k) == LastSeen(turns, fed, k)
  {
    if k > 0 {
      LastSeenStays(turns, t, fed, k - 1);
    }
  }

  lemma AttentiveStays(turns: seq<Turn>, t: Turn, fed: seq<Seen>, asking: bool)
    requires WellFormed(turns) && InRange(turns, fed) && Attentive(turns, fed, asking)
    ensures InRange(turns + [t], fed) && Attentive(turns + [t], fed, asking)
  {
    forall k | 0 <= k < |fed| && Heard(turns, fed[k])
      ensures TakenContext(turns + [t], fed, k) == TakenContext(turns, fed, k)
      ensures AnsweredContext(turns + [t], fed[k].turn) == AnsweredContext(turns, fed[k].turn)
    {
      LastSeenStays(turns, t, fed, k);
      AnsweredContextStays(turns, t, fed[k].turn);
    }
  }

  lemma SoundGrows(turns: seq<Turn>, taints: seq<Taint>, t: Turn, taint: Taint)
    requires WellFormed(turns) && Sound(turns, taints)
    requires t.Reply? ==> Covers(t.answer, AnsweredContext(turns + [t], |turns|), taint)
    ensures Sound(turns + [t], taints + [taint])
  {
    forall i | 0 <= i < |turns| && turns[i].Reply?
      ensures Covers((turns + [t])[i].answer, AnsweredContext(turns + [t], i), (taints + [taint])[i])
    {
      AnsweredContextStays(turns, t, i);
    }
  }

  lemma PendingHeedsStill(s: Thread, t: Turn)
    requires Heeds(s)
    ensures forall id | id in s.pending :: PendingHeeds(s.turns + [t], s.pending[id])
  {
    forall id | id in s.pending ensures PendingHeeds(s.turns + [t], s.pending[id]) {
      AttentiveStays(s.turns, t, s.pending[id].fed, s.pending[id].ask != Null);
    }
  }

  lemma BeginKeepsHeeding(s: Thread, step: Step)
    requires Heeds(s) && EdgeSafeStep(s, step) && step.Begin?
    ensures Heeds(Apply(s, step))
  {
    WindowIsHeardOrCut(step.reader, s.turns, step.whole, step.ask != Null);
  }

  lemma QuestionKeepsHeeding(s: Thread, id: nat)
    requires Heeds(s) && id in s.pending && s.pending[id].question.None?
    ensures Heeds(Apply(s, StoreQuestion(id)))
  {
    var t := Question(Some(s.pending[id].sender), s.pending[id].ask);
    PendingHeedsStill(s, t);
    assert (s.turns + [t])[|s.turns|] == t;
  }

  lemma ReplyKeepsHeeding(s: Thread, id: nat)
    requires Heeds(s) && id in s.pending && Ready(s, s.pending[id])
    ensures Heeds(Apply(s, StoreReply(id)))
  {
    var after := Apply(s, StoreReply(id));
    var p := s.pending[id];
    var t := Reply(NewAnswer(s.turns, p.fed, p.ask, p.seesAll, p.grounding, p.question.value));
    PendingHeedsStill(s, t);
    assert after.turns == s.turns + [t];
    assert forall o | o in after.pending :: o in s.pending && after.pending[o] == s.pending[o];
  }

  lemma StepKeepsHeeding(s: Thread, step: Step)
    requires Heeds(s) && EdgeSafeStep(s, step)
    ensures Heeds(Apply(s, step))
  {
    match step
    case Begin(_, _, _, _, _, _) => BeginKeepsHeeding(s, step);
    case StoreQuestion(id) =>
      if id in s.pending && s.pending[id].question.None? {
        QuestionKeepsHeeding(s, id);
      }
    case StoreReply(id) =>
      if id in s.pending && Ready(s, s.pending[id]) {
        ReplyKeepsHeeding(s, id);
      }
    case Fail(_) =>
  }

  // ---------------------------------------------------------------- every run is sound

  lemma StoreQuestionKeepsInv(s: Thread, id: nat)
    requires Inv(s) && id in s.pending && s.pending[id].question.None?
    ensures Inv(Apply(s, StoreQuestion(id)))
  {
    QuestionKeepsHeeding(s, id);
    SoundGrows(s.turns, s.taints, Question(Some(s.pending[id].sender), s.pending[id].ask), UNTAINTED);
  }

  lemma StepKeepsInv(s: Thread, step: Step)
    requires Inv(s) && HonestStep(step) && EdgeSafeStep(s, step)
    ensures Inv(Apply(s, step))
  {
    match step
    case Begin(_, _, _, _, _, _) => BeginKeepsHeeding(s, step);
    case StoreQuestion(id) =>
      if id in s.pending && s.pending[id].question.None? {
        StoreQuestionKeepsInv(s, id);
      }
    case StoreReply(id) =>
      if id in s.pending && Ready(s, s.pending[id]) {
        StoreReplyKeepsInv(s, id);
      }
    case Fail(_) =>
  }

  lemma StoreReplyKeepsSound(s: Thread, p: Pending, a: Answer)
    requires WellFormed(s.turns) && Sound(s.turns, s.taints) && PendingHeeds(s.turns, p) && HonestPending(p)
    requires Ready(s, p)
    requires a == NewAnswer(s.turns, p.fed, p.ask, p.seesAll, p.grounding, p.question.value)
    ensures Sound(s.turns + [Reply(a)], s.taints + [TaintOf(s, p)])
  {
    var q, turns := p.question.value, s.turns + [Reply(a)];
    NewAnswerIsCovered(s.turns, s.taints, p.fed, p.ask, p.seesAll, p.grounding, p.drew, q);
    assert turns[|s.turns|] == Reply(a) && turns[q] == s.turns[q];
    assert AnsweredContext(turns, |s.turns|) == p.ask;
    SoundGrows(s.turns, s.taints, Reply(a), TaintOf(s, p));
  }

  lemma StoreReplyKeepsInv(s: Thread, id: nat)
    requires Inv(s) && id in s.pending && Ready(s, s.pending[id])
    ensures Inv(Apply(s, StoreReply(id)))
  {
    var p := s.pending[id];
    StoreReplyKeepsSound(s, p, NewAnswer(s.turns, p.fed, p.ask, p.seesAll, p.grounding, p.question.value));
    ReplyKeepsHeeding(s, id);
  }

  lemma {:induction false} RunKeepsInv(s: Thread, steps: seq<Step>)
    requires Inv(s) && EdgeSafeRun(s, steps) && forall i | 0 <= i < |steps| :: HonestStep(steps[i])
    ensures Inv(Run(s, steps))
    decreases |steps|
  {
    if steps != [] {
      StepKeepsInv(s, steps[0]);
      RunKeepsInv(Apply(s, steps[0]), steps[1..]);
    }
  }

  /** Every reply of the conversation names its question, as every reply stored by a send does. */
  ghost predicate PointsBack(turns: seq<Turn>) {
    forall i | 0 <= i < |turns| && turns[i].Reply? :: turns[i].answer.replyTo.Some?
  }

  lemma {:induction false} PointingBackIsEdgeSafe(s: Thread, steps: seq<Step>)
    requires PointsBack(s.turns)
    ensures EdgeSafeRun(s, steps)
    decreases |steps|
  {
    if steps != [] {
      if steps[0].Begin? {
        WindowIsHeardOrCut(steps[0].reader, s.turns, steps[0].whole, steps[0].ask != Null);
      }
      PointingBackIsEdgeSafe(Apply(s, steps[0]), steps[1..]);
    }
  }

  /** So a conversation whose replies name their questions stays sound over every run of honest sends. */
  lemma HonestRunIsSound(s: Thread, steps: seq<Step>)
    requires Inv(s) && PointsBack(s.turns) && forall i | 0 <= i < |steps| :: HonestStep(steps[i])
    ensures Inv(Run(s, steps)) && PointsBack(Run(s, steps).turns)
  {
    PointingBackIsEdgeSafe(s, steps);
    RunKeepsInv(s, steps);
    RunKeepsPointing(s, steps);
  }

  lemma {:induction false} RunKeepsPointing(s: Thread, steps: seq<Step>)
    requires PointsBack(s.turns)
    ensures PointsBack(Run(s, steps).turns)
    decreases |steps|
  {
    if steps != [] {
      RunKeepsPointing(Apply(s, steps[0]), steps[1..]);
    }
  }

  /** The window is the newest twenty of a view, or all of it. */
  lemma WindowIsNewest(view: seq<Seen>)
    ensures |Window(view)| == if |view| < 20 then |view| else 20
    ensures view == view[..|view| - |Window(view)|] + Window(view)
  {
    if |view| > 20 {
      assert Window(view) == view[|view| - 20..];
    } else {
      assert view[..0] + view == view;
    }
  }

  /** What each step of a send stores: nothing when it begins or its model call fails, which ends it; its question with
      its context; then one reply, which ends it. No other send in flight is touched. */
  lemma StepStores(s: Thread, step: Step, other: nat)
    requires other != step.id
    ensures var after := Apply(s, step);
      && (other in after.pending <==> other in s.pending)
      && (other in s.pending ==> after.pending[other] == s.pending[other])
      && (step.Begin? || step.Fail? ==> after.turns == s.turns && after.taints == s.taints)
      && (step.Fail? && step.id in s.pending ==>
            (step.id in after.pending <==> s.pending[step.id].question.Some?))
      && (step.StoreQuestion? && step.id in s.pending && s.pending[step.id].question.None? ==>
            && after.turns == s.turns + [Question(Some(s.pending[step.id].sender), s.pending[step.id].ask)]
            && step.id in after.pending && after.pending[step.id].question == Some(|s.turns|))
      && (step.StoreReply? && step.id in s.pending && Ready(s, s.pending[step.id]) ==>
            && step.id !in after.pending && |after.turns| == |s.turns| + 1 && after.turns[..|s.turns|] == s.turns
            && after.turns[|s.turns|].Reply?
            && after.turns[|s.turns|].answer.replyTo == s.pending[step.id].question)
  {
  }

  /** A reply is stored only after its question. */
  lemma ReplyNeedsQuestion(s: Thread, id: nat)
    requires id in s.pending && s.pending[id].question.None?
    ensures Apply(s, StoreReply(id)) == s
  {
  }
}
