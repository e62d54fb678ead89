/** The turns of a shared Copilot conversation, and what one reader sees of them
    (`services/copilot/views.py`). */
module Conversations {
  import opened Orders
  import opened PyText
  import opened Snapshots

  /** A cited record, as its JSON reference carries it. */
  datatype Source = Source(kind: Json, id: Json, companyType: Json, companyId: Json)

  /** A stored turn. Turns are named by their place in the conversation. */
  datatype Turn =
    | Question(author: Option<UserId>, context: Json)
    | Reply(answer: Answer)

  /** What a stored reply keeps beside its words: the question it answers, the snapshots of what
      it was built from, and whether it could carry stored anomaly text. */
  datatype Answer = Answer(
    replyTo: Option<nat>, customerIds: Json, pipeline: Json, tickets: Json, records: Json,
    carries: Option<bool>, sources: seq<Source>)

  /** A reader as the visibility rules see them at the moment of reading. `customers` and
      `accounts` are what they may open, `allowed` and `mine` come from the org chart,
      `elsewhere` are people now in another organisation, `addressed` the people each turn was
      directed at, and `existing`/`readable` the records of each kind with a rule of its own. */
  datatype Reader = Reader(
    id: UserId, seesEverything: bool, leadership: bool, team: string,
    customers: set<int>, accounts: set<int>,
    allowed: set<UserId>, mine: set<UserId>, elsewhere: set<UserId>,
    addressed: map<nat, set<UserId>>,
    existing: map<string, set<int>>, readable: map<string, set<int>>)

  /** One turn of a view: a reply may be withheld, a question's Ask context hidden. */
  datatype Seen = Seen(turn: nat, withheld: bool, contextHidden: bool)

  // ---------------------------------------------------------------- which question a reply answers

  /** Replies point back at questions already asked. */
  ghost predicate WellFormed(turns: seq<Turn>) {
    forall i | 0 <= i < |turns| && turns[i].Reply? && turns[i].answer.replyTo.Some? ::
      var q := turns[i].answer.replyTo.value; q < i && turns[q].Question?
  }

  /** The question nearest before place `i`. */
  function LastQuestion(turns: seq<Turn>, i: nat): (q: Option<nat>)
    requires i <= |turns|
    ensures q.Some? ==> q.value < i && turns[q.value].Question?
                        && forall j | q.value < j < i :: turns[j].Reply?
    ensures q.None? ==> forall j | 0 <= j < i :: turns[j].Reply?
  {
    if i == 0 then None
    else if turns[i - 1].Question? then Some(i - 1)
    else LastQuestion(turns, i - 1)
  }

  /** `reply_to`, or for a row written before it existed the question just before. */
  function Answered(turns: seq<Turn>, i: nat): Option<nat>
    requires i < |turns| && turns[i].Reply?
  {
    if turns[i].answer.replyTo.Some? then turns[i].answer.replyTo else LastQuestion(turns, i)
  }

  function ContextAt(turns: seq<Turn>, q: Option<nat>): Json {
    if q.Some? && q.value < |turns| && turns[q.value].Question? then turns[q.value].context else Null
  }

  /** The Ask context of the question a reply answers; `Null` when there is none. */
  function AnsweredContext(turns: seq<Turn>, i: nat): Json
    requires i < |turns| && turns[i].Reply?
  {
    ContextAt(turns, Answered(turns, i))
  }

  /** An Ask reply, or a reply that was fed one as history. */
  predicate Marked(turn: Answer, context: Json)
  {
    Truthy(context) || turn.carries.Some?
  }

  // ---------------------------------------------------------------- what a reply's stored fields mean

  const SURFACES := ["dashboard", "organizations", "contacts", "accounts", "pipelines"]
  const PIPELINE_AREAS := ["overview", "revenue"]
  const TICKET_AREAS := ["overview", "support"]

  predicate IsOneOf(v: Json, names: seq<string>) {
    v.Text? && v.s in names
  }

  predicate IsSupportFocus(focus: Json) {
    && focus.Dict?
    && Get(focus, "kind") == Text("attention")
    && Get(focus, "key").Text? && StartsWith(Get(focus, "key").s, "support:")
  }

  predicate IsDetail(context: Json) {
    context.Dict? && Get(context, "surface") == Text("organizations") && Get(context, "view") == Text("detail")
  }

  function RecordsOf(turn: Answer, context: Json): Option<seq<Ref>>
  {
    var stored := WellFormedRecords(turn.records);
    if stored.Some? then stored
    else if turn.records != Null then None
    else if !context.Dict? || !Truthy(context) then None
    else if IsDetail(context) then None
    else if IsOneOf(Get(context, "surface"), ["contacts", "accounts", "pipelines"]) then None
    else Some([])
  }

  function PipelineOf(turn: Answer, context: Json): Option<Counted>
  {
    var stored := WellFormedCounted(turn.pipeline);
    if stored.Some? then stored
    else if turn.pipeline != Null then None
    else if !context.Dict? || !Truthy(context) then None
    else if Get(context, "surface") == Text("dashboard") && IsOneOf(Get(context, "area"), PIPELINE_AREAS) then None
    else if IsOneOf(Get(context, "surface"), ["accounts", "pipelines"]) then None
    else Some(NO_PIPELINE)
  }

  function TicketsOf(turn: Answer, context: Json): Option<Counted>
  {
    var stored := WellFormedCounted(turn.tickets);
    if stored.Some? then stored
    else if turn.tickets != Null then None
    else if !context.Dict? || !Truthy(context) then None
    else if IsOneOf(Get(context, "surface"), ["organizations", "contacts", "accounts", "pipelines"]) then None
    else if Get(context, "surface") == Text("dashboard")
            && (IsOneOf(Get(context, "area"), TICKET_AREAS) || IsSupportFocus(Get(context, "focus"))) then None
    else Some(NO_PIPELINE)
  }

  /** A fold stored as unknown is unknown on every surface, with or without a context. */
  lemma UnknownStaysUnknown(turn: Answer, context: Json)
    ensures turn.pipeline == StoredCounted(None) ==> PipelineOf(turn, context) == None
    ensures turn.tickets == StoredCounted(None) ==> TicketsOf(turn, context) == None
    ensures turn.records == StoredRecords(None) ==> RecordsOf(turn, context) == None
  {
    StoredCountedReadsBack(None);
    StoredRecordsReadBack(None);
  }

  /** A fold that is known reads back as exactly itself, whatever question it answers. */
  lemma KnownReadsBack(turn: Answer, context: Json, c: Counted, rs: seq<Ref>)
    requires ValidRefs(rs)
    ensures turn.pipeline == StoredCounted(Some(c)) ==> PipelineOf(turn, context) == Some(c)
    ensures turn.tickets == StoredCounted(Some(c)) ==> TicketsOf(turn, context) == Some(c)
    ensures turn.records == StoredRecords(Some(rs)) ==> RecordsOf(turn, context) == Some(rs)
  {
    StoredCountedReadsBack(Some(c));
    StoredRecordsReadBack(Some(rs));
  }

  // ---------------------------------------------------------------- may this reader read this reply?

  predicate DepartmentsReadable(r: Reader, departments: seq<string>) {
    r.leadership || forall d | d in departments :: d == "" || d == r.team
  }

  predicate PipelineReadableBy(r: Reader, c: Counted) {
    && (r.seesEverything || r.leadership || forall d | d in c.departments :: d == "" || d == r.team)
    && Elements(c.accounts) <= r.accounts
  }

  predicate WellFormedFilters(context: Json)
    requires context.Dict?
  {
    "filters" !in context.fields
    || (context.fields["filters"].Dict?
        && forall k | k in context.fields["filters"].fields :: context.fields["filters"].fields[k].Text?)
  }

  const RECORD_KINDS := ["contribution", "email", "note", "ticket", "task", "opportunity", "risk"]
  const MISSING_IS_UNREADABLE := ["opportunity", "risk"]

  function RecordId(v: Json): Option<int> {
    if v.Int? then (if v.n > 0 then Some(v.n) else None)
    else if v.Text? && IsDigits(v.s) then (if DigitsValue(v.s) > 0 then Some(DigitsValue(v.s)) else None)
    else None
  }

  predicate Within(ids: map<string, set<int>>, kind: string, id: int) {
    kind in ids && id in ids[kind]
  }

  predicate CompanyOpen(r: Reader, s: Source) {
    && (s.companyType == Text("customer") ==> s.companyId.Int? && s.companyId.n in r.customers)
    && (s.companyType == Text("account") ==> s.companyId.Int? && s.companyId.n in r.accounts)
  }

  predicate RecordReadable(r: Reader, s: Source) {
    IsOneOf(s.kind, RECORD_KINDS) ==>
      var id := RecordId(s.id);
      && id.Some?
      && (Within(r.readable, s.kind.s, id.value)
          || (!Within(r.existing, s.kind.s, id.value) && s.kind.s !in MISSING_IS_UNREADABLE))
  }

  predicate SourceReadable(r: Reader, s: Source) {
    CompanyOpen(r, s) && RecordReadable(r, s)
  }

  function AsSource(ref: Ref): Source {
    Source(Text(ref.kind), Int(ref.id), Text(ref.companyType), Int(ref.companyId))
  }

  /** May this reader read all the records of a reply, cited or only quoted? */
  predicate RefsReadable(r: Reader, turn: Answer)
  {
    && (forall s | s in turn.sources :: SourceReadable(r, s))
    && var refs := WellFormedRecords(turn.records);
       refs.Some? ==> forall ref | ref in refs.value :: SourceReadable(r, AsSource(ref))
  }

  /** The checks an Ask-shaped reply passes for somebody other than its asker. */
  predicate SnapshotReadable(r: Reader, turn: Answer, context: Json)
  {
    var grounded := StoredIds(turn.customerIds);
    var tickets := TicketsOf(turn, context);
    && grounded.Some?
    && (if tickets.None? then r.seesEverything && r.leadership
        else DepartmentsReadable(r, tickets.value.departments))
    && RecordsOf(turn, context).Some?
    && (!r.seesEverything ==>
          && grounded.value <= r.customers
          && turn.carries == Some(false)
          && (var pipeline := PipelineOf(turn, context);
              pipeline.Some? && PipelineReadableBy(r, pipeline.value))
          && tickets.Some? && Elements(tickets.value.accounts) <= r.accounts)
  }

  /** `_reply_readable_by`: `answered` is the question the reply answers. */
  predicate ReadableBy(r: Reader, turn: Answer, answered: Option<Turn>)
    requires answered.Some? ==> answered.value.Question?
  {
    var asked := answered.Some? && Truthy(answered.value.context);
    var fed := answered.Some? && !asked && turn.carries.Some?;
    var recordsOk := turn.records == Null || turn.records == UNKNOWN || WellFormedRecords(turn.records).Some?;
    if !asked && !fed then recordsOk && RefsReadable(r, turn)
    else
      var context, author := answered.value.context, answered.value.author;
      if asked && !context.Dict? then false
      else if author.None? then false
      else if author.value in r.elsewhere then false
      else if author.value == r.id then asked || (recordsOk && RefsReadable(r, turn))
      else
        && (asked ==> IsOneOf(Get(context, "surface"), SURFACES) && WellFormedFilters(context))
        && SnapshotReadable(r, turn, context)
        && recordsOk && RefsReadable(r, turn)
  }

  // ---------------------------------------------------------------- the partial view, declaratively

  /** Whether a reader of a slice gets this question: their own, addressed to them or their
      reports, or addressed to nobody and written within their scope. */
  predicate Admitted(r: Reader, i: nat, author: Option<UserId>) {
    var targets := if i in r.addressed then r.addressed[i] else {};
    if author == Some(r.id) || targets * r.mine != {} then true
    else if targets != {} then false
    else author.None? || author.value in r.allowed
  }

  function QuestionAt(turns: seq<Turn>, q: Option<nat>): (t: Option<Turn>)
    ensures t.Some? ==> t.value.Question?
  {
    if q.Some? && q.value < |turns| && turns[q.value].Question? then Some(turns[q.value]) else None
  }

  /** Per turn: is this question admitted, is this reply readable? */
  function Verdicts(r: Reader, turns: seq<Turn>): (ok: seq<bool>)
    ensures |ok| == |turns|
  {
    seq(|turns|, i requires 0 <= i < |turns| =>
      if turns[i].Question? then Admitted(r, i, turns[i].author)
      else ReadableBy(r, turns[i].answer, QuestionAt(turns, Answered(turns, i))))
  }

  /** A question is in the view when admitted, a reply when the question before it is. */
  predicate InView(turns: seq<Turn>, ok: seq<bool>, i: nat)
    requires i < |turns| == |ok|
  {
    if turns[i].Question? then ok[i]
    else LastQuestion(turns, i).Some? && ok[LastQuestion(turns, i).value]
  }

  /** The turns of the view among the first `n`, replies withheld where they must be. */
  function Kept(turns: seq<Turn>, ok: seq<bool>, n: nat): (v: seq<Seen>)
    requires n <= |turns| == |ok|
    ensures forall k | 0 <= k < |v| :: v[k].turn < n
  {
    if n == 0 then []
    else if InView(turns, ok, n - 1)
    then Kept(turns, ok, n - 1) + [Seen(n - 1, turns[n - 1].Reply? && !ok[n - 1], false)]
    else Kept(turns, ok, n - 1)
  }

  lemma {:induction false} KeptIsInOrder(turns: seq<Turn>, ok: seq<bool>, n: nat)
    requires n <= |turns| == |ok|
    ensures InOrder(turns, Kept(turns, ok, n))
    ensures forall k | 0 <= k < |Kept(turns, ok, n)| ::
      var e := Kept(turns, ok, n)[k];
      InView(turns, ok, e.turn) && e == Seen(e.turn, turns[e.turn].Reply? && !ok[e.turn], false)
  {
    if n > 0 {
      KeptIsInOrder(turns, ok, n - 1);
    }
  }

  lemma {:induction false} KeptHolds(turns: seq<Turn>, ok: seq<bool>, n: nat, i: nat)
    requires i < n <= |turns| == |ok| && InView(turns, ok, i)
    ensures Seen(i, turns[i].Reply? && !ok[i], false) in Kept(turns, ok, n)
  {
    if i < n - 1 {
      KeptHolds(turns, ok, n - 1, i);
    }
  }

  /** Reply `i` is shown with its words, and answers question `q`. */
  predicate ShownAnswer(turns: seq<Turn>, ok: seq<bool>, i: nat, q: nat)
    requires i < |turns| == |ok|
  {
    turns[i].Reply? && InView(turns, ok, i) && ok[i] && Answered(turns, i) == Some(q)
  }

  /** The questions that a reply shown in the view answers. */
  function ShownAnswers(turns: seq<Turn>, ok: seq<bool>, n: nat): set<nat>
    requires n <= |turns| == |ok|
  {
    if n == 0 then {}
    else
      var before, i := ShownAnswers(turns, ok, n - 1), n - 1;
      if turns[i].Reply? && InView(turns, ok, i) && ok[i] && Answered(turns, i).Some?
      then before + {Answered(turns, i).value} else before
  }

  lemma {:induction false} ShownAnswersFrom(turns: seq<Turn>, ok: seq<bool>, n: nat, q: nat) returns (i: nat)
    requires n <= |turns| == |ok| && q in ShownAnswers(turns, ok, n)
    ensures i < n && ShownAnswer(turns, ok, i, q)
  {
    if ShownAnswer(turns, ok, n - 1, q) {
      i := n - 1;
    } else {
      i := ShownAnswersFrom(turns, ok, n - 1, q);
    }
  }

  lemma {:induction false} ShownAnswersHold(turns: seq<Turn>, ok: seq<bool>, n: nat, i: nat, q: nat)
    requires i < n <= |turns| == |ok| && ShownAnswer(turns, ok, i, q)
    ensures q in ShownAnswers(turns, ok, n)
  {
    if i < n - 1 {
      ShownAnswersHold(turns, ok, n - 1, i, q);
    }
  }

  /** The second pass: an Ask question no shown reply answers loses its context. */
  function HideContexts(turns: seq<Turn>, kept: seq<Seen>, answered: set<nat>): (v: seq<Seen>)
    requires forall k | 0 <= k < |kept| :: kept[k].turn < |turns|
    ensures |v| == |kept|
    ensures forall k | 0 <= k < |v| ::
      v[k] == kept[k].(contextHidden := kept[k].contextHidden ||
        (turns[kept[k].turn].Question? && Truthy(turns[kept[k].turn].context) && kept[k].turn !in answered))
  {
    seq(|kept|, k requires 0 <= k < |kept| =>
      var t := kept[k].turn;
      if turns[t].Question? && Truthy(turns[t].context) && t !in answered
      then kept[k].(contextHidden := true) else kept[k])
  }

  function Slice(turns: seq<Turn>, ok: seq<bool>): seq<Seen>
    requires |turns| == |ok|
  {
    HideContexts(turns, Kept(turns, ok, |turns|), ShownAnswers(turns, ok, |turns|))
  }

  /** What somebody without whole-conversation access sees. */
  function PartialView(r: Reader, turns: seq<Turn>): seq<Seen> {
    Slice(turns, Verdicts(r, turns))
  }

  function WholeView(turns: seq<Turn>): seq<Seen> {
    seq(|turns|, i requires 0 <= i => Seen(i, false, false))
  }

  function View(r: Reader, turns: seq<Turn>, whole: bool): seq<Seen> {
    if whole then WholeView(turns) else PartialView(r, turns)
  }

  /** In-order, in-range, and every reply in it is behind a question of the same view. */
  ghost predicate InOrder(turns: seq<Turn>, v: seq<Seen>) {
    && (forall k, l | 0 <= k < l < |v| :: v[k].turn < v[l].turn)
    && (forall k | 0 <= k < |v| :: v[k].turn < |turns|)
  }

  /** Some reply in the view answers question `q` and is not withheld. */
  ghost predicate AnsweredInView(turns: seq<Turn>, v: seq<Seen>, q: nat)
    requires InOrder(turns, v)
  {
    exists l :: 0 <= l < |v| && turns[v[l].turn].Reply? && !v[l].withheld && Answered(turns, v[l].turn) == Some(q)
  }

  /** A slice is an in-order part of the conversation: each reply in it is readable or withheld,
      and an Ask question keeps its context exactly when a reply to it is shown in the same view. */
  lemma PartialViewShape(r: Reader, turns: seq<Turn>)
    ensures var v := PartialView(r, turns);
      && InOrder(turns, v)
      && (forall i | 0 <= i < |turns| ::
            InView(turns, Verdicts(r, turns), i) <==> exists k :: 0 <= k < |v| && v[k].turn == i)
      && (forall k | 0 <= k < |v| && turns[v[k].turn].Reply? ::
            v[k].withheld <==> !ReadableBy(r, turns[v[k].turn].answer, QuestionAt(turns, Answered(turns, v[k].turn))))
      && (forall k | 0 <= k < |v| && turns[v[k].turn].Question? && Truthy(turns[v[k].turn].context) ::
            v[k].contextHidden <==> !AnsweredInView(turns, v, v[k].turn))
  {
    var ok := Verdicts(r, turns);
    SliceShape(turns, ok);
    KeptIsInOrder(turns, ok, |turns|);
    var v, kept := Slice(turns, ok), Kept(turns, ok, |turns|);
    forall i | 0 <= i < |turns| && InView(turns, ok, i) ensures exists k :: 0 <= k < |v| && v[k].turn == i {
      KeptHolds(turns, ok, |turns|, i);
      var k :| 0 <= k < |kept| && kept[k] == Seen(i, turns[i].Reply? && !ok[i], false);
      assert v[k].turn == i;
    }
  }

  lemma SliceShape(turns: seq<Turn>, ok: seq<bool>)
    requires |turns| == |ok|
    ensures var v := Slice(turns, ok);
      && InOrder(turns, v)
      && (forall k | 0 <= k < |v| && turns[v[k].turn].Reply? :: v[k].withheld <==> !ok[v[k].turn])
      && (forall k | 0 <= k < |v| && turns[v[k].turn].Question? && Truthy(turns[v[k].turn].context) ::
            v[k].contextHidden <==> !AnsweredInView(turns, v, v[k].turn))
  {
    var v := Slice(turns, ok);
    KeptIsInOrder(turns, ok, |turns|);
    forall k | 0 <= k < |v| && turns[v[k].turn].Question? && Truthy(turns[v[k].turn].context)
      ensures v[k].contextHidden <==> !AnsweredInView(turns, v, v[k].turn)
    {
      SliceAnswers(turns, ok, v[k].turn);
    }
  }

  lemma SliceAnswers(turns: seq<Turn>, ok: seq<bool>, q: nat)
    requires |turns| == |ok| && InOrder(turns, Slice(turns, ok))
    ensures q in ShownAnswers(turns, ok, |turns|) <==> AnsweredInView(turns, Slice(turns, ok), q)
  {
    var v, kept := Slice(turns, ok), Kept(turns, ok, |turns|);
    KeptIsInOrder(turns, ok, |turns|);
    if q in ShownAnswers(turns, ok, |turns|) {
      var i := ShownAnswersFrom(turns, ok, |turns|, q);
      KeptHolds(turns, ok, |turns|, i);
      var l :| 0 <= l < |kept| && kept[l] == Seen(i, false, false);
      assert v[l] == Seen(i, false, false);
    }
    if AnsweredInView(turns, v, q) {
      var l :| 0 <= l < |v| && turns[v[l].turn].Reply? && !v[l].withheld && Answered(turns, v[l].turn) == Some(q);
      assert kept[l] == v[l];
      ShownAnswersHold(turns, ok, |turns|, v[l].turn, q);
    }
  }

  // ---------------------------------------------------------------- the partial view, as computed

  /** What the first pass knows after `n` turns. */
  ghost predicate Passed(turns: seq<Turn>, ok: seq<bool>, n: nat, last: Option<nat>, previousKept: bool,
                         answered: set<nat>, kept: seq<Seen>)
    requires n <= |turns| == |ok|
  {
    && last == LastQuestion(turns, n) && (previousKept <==> last.Some? && ok[last.value])
    && answered == ShownAnswers(turns, ok, n) && kept == Kept(turns, ok, n)
  }

  lemma PassedQuestion(turns: seq<Turn>, ok: seq<bool>, n: nat, last: Option<nat>, previousKept: bool,
                       answered: set<nat>, kept: seq<Seen>)
    requires n < |turns| == |ok| && turns[n].Question? && Passed(turns, ok, n, last, previousKept, answered, kept)
    ensures Passed(turns, ok, n + 1, Some(n), ok[n], answered, if ok[n] then kept + [Seen(n, false, false)] else kept)
  {
  }

  lemma PassedReply(turns: seq<Turn>, ok: seq<bool>, n: nat, last: Option<nat>, previousKept: bool,
                    answered: set<nat>, kept: seq<Seen>)
    requires n < |turns| == |ok| && turns[n].Reply? && Passed(turns, ok, n, last, previousKept, answered, kept)
    ensures var q := Answered(turns, n);
      Passed(turns, ok, n + 1, last, previousKept,
             if previousKept && ok[n] && q.Some? then answered + {q.value} else answered,
             if previousKept then kept + [Seen(n, !ok[n], false)] else kept)
  {
  }

  lemma ReplyVerdict(r: Reader, turns: seq<Turn>, i: nat)
    requires i < |turns| && turns[i].Reply?
    ensures var q := if turns[i].answer.replyTo.Some? then turns[i].answer.replyTo else LastQuestion(turns, i);
      q == Answered(turns, i) && Verdicts(r, turns)[i] == ReadableBy(r, turns[i].answer, QuestionAt(turns, q))
  {
  }

  /** One reply of the first pass. */
  method PassReply(r: Reader, turns: seq<Turn>, i: nat, lastUserTurn: Option<nat>, previousKept: bool,
                   answeredReadably: set<nat>, kept: seq<Seen>)
    returns (nextAnswered: set<nat>, nextKept: seq<Seen>)
    requires i < |turns| && turns[i].Reply?
    requires Passed(turns, Verdicts(r, turns), i, lastUserTurn, previousKept, answeredReadably, kept)
    ensures Passed(turns, Verdicts(r, turns), i + 1, lastUserTurn, previousKept, nextAnswered, nextKept)
  {
    PassedReply(turns, Verdicts(r, turns), i, lastUserTurn, previousKept, answeredReadably, kept);
    nextAnswered, nextKept := answeredReadably, kept;
    if previousKept {
      ReplyVerdict(r, turns, i);
      var answer := turns[i].answer;
      var answered := if answer.replyTo.Some? then answer.replyTo else lastUserTurn;
      var readable := ReadableBy(r, answer, QuestionAt(turns, answered));
      nextKept := kept + [Seen(i, !readable, false)];
      if readable && answered.Some? {
        nextAnswered := answeredReadably + {answered.value};
      }
    }
  }

  /** The first pass of `visible_messages`: what is kept, and the questions answered readably. */
  method FirstPass(r: Reader, turns: seq<Turn>) returns (kept: seq<Seen>, answeredReadably: set<nat>)
    ensures kept == Kept(turns, Verdicts(r, turns), |turns|)
    ensures answeredReadably == ShownAnswers(turns, Verdicts(r, turns), |turns|)
  {
    ghost var ok := Verdicts(r, turns);
    kept, answeredReadably := [], {};
    var previousKept := false;
    var lastUserTurn: Option<nat> := None;
    for i := 0 to |turns|
      invariant Passed(turns, ok, i, lastUserTurn, previousKept, answeredReadably, kept)
    {
      if turns[i].Question? {
        PassedQuestion(turns, ok, i, lastUserTurn, previousKept, answeredReadably, kept);
        lastUserTurn := Some(i);
        previousKept := Admitted(r, i, turns[i].author);
        if previousKept {
          kept := kept + [Seen(i, false, false)];
        }
      } else {
        answeredReadably, kept := PassReply(r, turns, i, lastUserTurn, previousKept, answeredReadably, kept);
      }
    }
  }

  /** `visible_messages`: one pass over the turns, then a second that hides contexts. */
  method VisibleMessages(r: Reader, turns: seq<Turn>, whole: bool) returns (view: seq<Seen>)
    ensures view == View(r, turns, whole)
  {
    if whole {
      view := seq(|turns|, i requires 0 <= i => Seen(i, false, false));
      return;
    }
    var kept, answeredReadably := FirstPass(r, turns);
    view := HideContexts(turns, kept, answeredReadably);
  }
}
