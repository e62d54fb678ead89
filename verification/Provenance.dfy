/** What each reply was built from, and the snapshots of it that `SendMessageView` stores
    (`services/copilot/views.py`). */
module Provenance {
  import opened Orders
  import opened PyText
  import opened Snapshots
  import opened Conversations

  // ---------------------------------------------------------------- what a reply drew on

  /** One thing an answer can have been built from, whether or not anyone recorded it. */
  datatype Mark =
    | Customer(id: int)
    | AnomalyText
    | PipelineAccount(account: int)
    | PipelineDepartment(department: string)
    | TicketAccount(account: int)
    | TicketDepartment(department: string)
    | Record(ref: Ref)

  /** Everything a reply was built from, through its own digest and through every reply whose words it was fed:
      what Ask digests drew on, what plain digests drew on, and the records either of them cited. */
  datatype Taint = Taint(asked: set<Mark>, plain: set<Mark>, cited: set<Source>)

  const UNTAINTED := Taint({}, {}, {})

  function Join(a: Taint, b: Taint): Taint {
    Taint(a.asked + b.asked, a.plain + b.plain, a.cited + b.cited)
  }

  /** What one Ask surface's grounding reports about its digest. */
  datatype Grounding = Grounding(customerIds: Option<seq<int>>, pipeline: Json, tickets: Json, records: Json,
                                 sources: seq<Source>)

  predicate ValidAsk(ask: Json) {
    ask.Dict? && IsOneOf(Get(ask, "surface"), SURFACES)
  }

  predicate NamesAStoredAnomaly(ask: Json)
    requires ask.Dict?
  {
    var focus := Get(ask, "focus");
    || Get(ask, "area") == Text("overview")
    || (focus.Dict? && Get(focus, "kind") == Text("attention")
        && Get(focus, "key").Text? && StartsWith(Get(focus, "key").s, "anomaly:"))
  }

  // ---------------------------------------------------------------- the walk over history

  /** What one fed reply adds to a snapshot: it makes it unknown, or its own is folded in. */
  datatype Fed = Blocks | Folds(turn: nat, context: Json)

  ghost predicate InRange(turns: seq<Turn>, fed: seq<Seen>) {
    forall k | 0 <= k < |fed| :: fed[k].turn < |turns|
  }

  /** The context, as the view carries it, of the question nearest before place `k` of `fed`. */
  function LastSeen(turns: seq<Turn>, fed: seq<Seen>, k: nat): Json
    requires k <= |fed| && InRange(turns, fed)
  {
    if k == 0 then Null
    else if turns[fed[k - 1].turn].Question?
    then (if fed[k - 1].contextHidden then Null else turns[fed[k - 1].turn].context)
    else LastSeen(turns, fed, k - 1)
  }

  predicate Heard(turns: seq<Turn>, e: Seen)
    requires e.turn < |turns|
  {
    turns[e.turn].Reply? && !e.withheld
  }

  /** The Ask context the walk takes a fed reply to answer. */
  function TakenContext(turns: seq<Turn>, fed: seq<Seen>, k: nat): Json
    requires k < |fed| && InRange(turns, fed) && turns[fed[k].turn].Reply?
  {
    var a := turns[fed[k].turn].answer;
    if a.replyTo.Some? then ContextAt(turns, a.replyTo) else LastSeen(turns, fed, k)
  }

  function Contribution(turns: seq<Turn>, fed: seq<Seen>, asking: bool, k: nat): seq<Fed>
    requires k < |fed| && InRange(turns, fed)
  {
    if !Heard(turns, fed[k]) then []
    else
      var context := TakenContext(turns, fed, k);
      if !Truthy(context) && asking then [Blocks]
      else if !Truthy(context) && turns[fed[k].turn].answer.carries.None? then []
      else [Folds(fed[k].turn, context)]
  }

  function Walk(turns: seq<Turn>, fed: seq<Seen>, asking: bool, n: nat): (w: seq<Fed>)
    requires n <= |fed| && InRange(turns, fed)
    ensures forall x | x in w :: x.Folds? ==> x.turn < |turns| && turns[x.turn].Reply?
  {
    if n == 0 then [] else Walk(turns, fed, asking, n - 1) + Contribution(turns, fed, asking, n - 1)
  }

  ghost predicate WalkOf(turns: seq<Turn>, w: seq<Fed>) {
    forall i | 0 <= i < |w| && w[i].Folds? :: w[i].turn < |turns| && turns[w[i].turn].Reply?
  }

  function FoldStep<S>(turns: seq<Turn>, acc: Option<S>, x: Fed,
                       of: (Answer, Json) -> Option<S>, union: (S, S) -> S): Option<S>
    requires x.Folds? ==> x.turn < |turns| && turns[x.turn].Reply?
  {
    if x.Blocks? then None
    else
      var earlier := of(turns[x.turn].answer, x.context);
      if acc.None? || earlier.None? then None else Some(union(acc.value, earlier.value))
  }

  /** `_folded_snapshot`: unknown is sticky, known snapshots are united. */
  function Fold<S>(turns: seq<Turn>, start: Option<S>, w: seq<Fed>,
                   of: (Answer, Json) -> Option<S>, union: (S, S) -> S): Option<S>
    requires WalkOf(turns, w)
  {
    if w == [] then start
    else FoldStep(turns, Fold(turns, start, w[..|w| - 1], of, union), w[|w| - 1], of, union)
  }

  lemma FoldAppends<S>(turns: seq<Turn>, start: Option<S>, w: seq<Fed>, x: Fed,
                       of: (Answer, Json) -> Option<S>, union: (S, S) -> S)
    requires WalkOf(turns, w) && (x.Folds? ==> x.turn < |turns| && turns[x.turn].Reply?)
    ensures WalkOf(turns, w + [x])
    ensures Fold(turns, start, w + [x], of, union) == FoldStep(turns, Fold(turns, start, w, of, union), x, of, union)
  {
    assert (w + [x])[..|w|] == w;
  }

  function CarriesStep(turns: seq<Turn>, before: Option<bool>, x: Fed): Option<bool>
    requires x.Folds? ==> x.turn < |turns| && turns[x.turn].Reply?
  {
    if x.Blocks? then before
    else Some(before == Some(true) || turns[x.turn].answer.carries != Some(false))
  }

  function FoldCarries(turns: seq<Turn>, start: Option<bool>, w: seq<Fed>): Option<bool>
    requires WalkOf(turns, w)
  {
    if w == [] then start
    else CarriesStep(turns, FoldCarries(turns, start, w[..|w| - 1]), w[|w| - 1])
  }

  lemma CarriesAppends(turns: seq<Turn>, start: Option<bool>, w: seq<Fed>, x: Fed)
    requires WalkOf(turns, w) && (x.Folds? ==> x.turn < |turns| && turns[x.turn].Reply?)
    ensures WalkOf(turns, w + [x])
    ensures FoldCarries(turns, start, w + [x]) == CarriesStep(turns, FoldCarries(turns, start, w), x)
  {
    assert (w + [x])[..|w|] == w;
  }

  // ---------------------------------------------------------------- the four snapshots

  function IdsOf(a: Answer, context: Json): Option<set<int>> {
    StoredIds(a.customerIds)
  }

  function UnionIds(a: set<int>, b: set<int>): set<int> {
    a + b
  }

  function OwnIds(ask: Json, g: Grounding): Option<set<int>> {
    if ask == Null then Some({}) else if g.customerIds.None? then None else Some(Elements(g.customerIds.value))
  }

  function OwnCarries(ask: Json, senderSeesAll: bool): Option<bool>
    requires ask == Null || ask.Dict?
  {
    if ask == Null then None else Some(NamesAStoredAnomaly(ask) && senderSeesAll)
  }

  function OwnCounted(ask: Json, own: Json): Option<Counted> {
    if ask == Null then Some(NO_PIPELINE) else WellFormedCounted(own)
  }

  function OwnRecords(ask: Json, own: Json): Option<seq<Ref>> {
    if ask == Null then Some([]) else WellFormedRecords(own)
  }

  /** What `SendMessageView` stores with a reply: the snapshots of its own grounding folded with
      those of every Ask-shaped reply it was fed; nothing at all for a plain reply fed none. */
  function NewAnswer(turns: seq<Turn>, fed: seq<Seen>, ask: Json, senderSeesAll: bool, g: Grounding,
                     question: nat): Answer
    requires InRange(turns, fed) && (ask == Null || ValidAsk(ask))
  {
    var w := Walk(turns, fed, ask != Null, |fed|);
    var carries := FoldCarries(turns, OwnCarries(ask, senderSeesAll), w);
    if carries.None? then Answer(Some(question), Null, Null, Null, Null, None, g.sources)
    else
      var ids := Fold(turns, OwnIds(ask, g), w, IdsOf, UnionIds);
      Answer(Some(question),
             if ids.None? then Null else IntList(SortedInts(ids.value)),
             StoredCounted(Fold(turns, OwnCounted(ask, g.pipeline), w, PipelineOf, UnionCounted)),
             StoredCounted(Fold(turns, OwnCounted(ask, g.tickets), w, TicketsOf, UnionCounted)),
             StoredRecords(Fold(turns, OwnRecords(ask, g.records), w, RecordsOf, UnionRecords)),
             carries, g.sources)
  }

  /** What one more fed turn does to a fold; `context` is the one it is taken to answer. */
  function FoldTurn<S>(turns: seq<Turn>, e: Seen, context: Json, asking: bool, acc: Option<S>,
                       of: (Answer, Json) -> Option<S>, union: (S, S) -> S): Option<S>
    requires e.turn < |turns|
  {
    if !Heard(turns, e) then acc
    else if !Truthy(context) && asking then None
    else if !Truthy(context) && turns[e.turn].answer.carries.None? then acc
    else FoldStep(turns, acc, Folds(e.turn, context), of, union)
  }

  function CarriesTurn(turns: seq<Turn>, e: Seen, context: Json, asking: bool, acc: Option<bool>): Option<bool>
    requires e.turn < |turns|
  {
    if !Heard(turns, e) || (!Truthy(context) && (asking || turns[e.turn].answer.carries.None?)) then acc
    else CarriesStep(turns, acc, Folds(e.turn, context))
  }

  /** The context a turn is taken to answer, `last` being the one of the question nearest before it. */
  function AnsweredIn(turns: seq<Turn>, e: Seen, last: Json): Json
    requires e.turn < |turns|
  {
    var turn := turns[e.turn];
    if turn.Question? then Null
    else if turn.answer.replyTo.Some? then ContextAt(turns, turn.answer.replyTo) else last
  }

  function LastAfter(turns: seq<Turn>, e: Seen, last: Json): Json
    requires e.turn < |turns|
  {
    var turn := turns[e.turn];
    if turn.Question? then (if e.contextHidden then Null else turn.context) else last
  }

  lemma WalkIsAWalk(turns: seq<Turn>, fed: seq<Seen>, asking: bool, n: nat)
    requires n <= |fed| && InRange(turns, fed)
    ensures WalkOf(turns, Walk(turns, fed, asking, n))
  {
    var w := Walk(turns, fed, asking, n);
    forall i | 0 <= i < |w| && w[i].Folds? ensures w[i].turn < |turns| && turns[w[i].turn].Reply? {
      assert w[i] in w;
    }
  }

  /** What one reply contributes, folded in. */
  lemma FoldContribution<S>(turns: seq<Turn>, start: Option<S>, w: seq<Fed>, added: seq<Fed>, e: Seen, context: Json,
                            asking: bool, of: (Answer, Json) -> Option<S>, union: (S, S) -> S)
    requires WalkOf(turns, w) && e.turn < |turns|
    requires added == [] || added == [Blocks] || added == [Folds(e.turn, context)]
    requires added == [] <==> !Heard(turns, e)
                              || (!Truthy(context) && !asking && turns[e.turn].answer.carries.None?)
    requires added == [Blocks] <==> Heard(turns, e) && !Truthy(context) && asking
    ensures WalkOf(turns, w + added)
    ensures Fold(turns, start, w + added, of, union)
         == FoldTurn(turns, e, context, asking, Fold(turns, start, w, of, union), of, union)
  {
    if added == [] {
      assert w + added == w;
    } else {
      FoldAppends(turns, start, w, added[0], of, union);
    }
  }

  lemma WalkStep<S>(turns: seq<Turn>, fed: seq<Seen>, asking: bool, k: nat, start: Option<S>,
                    of: (Answer, Json) -> Option<S>, union: (S, S) -> S)
    requires k < |fed| && InRange(turns, fed)
    ensures WalkOf(turns, Walk(turns, fed, asking, k)) && WalkOf(turns, Walk(turns, fed, asking, k + 1))
    ensures Fold(turns, start, Walk(turns, fed, asking, k + 1), of, union)
         == FoldTurn(turns, fed[k], AnsweredIn(turns, fed[k], LastSeen(turns, fed, k)), asking,
                     Fold(turns, start, Walk(turns, fed, asking, k), of, union), of, union)
  {
    WalkIsAWalk(turns, fed, asking, k);
    var context := AnsweredIn(turns, fed[k], LastSeen(turns, fed, k));
    FoldContribution(turns, start, Walk(turns, fed, asking, k), Contribution(turns, fed, asking, k), fed[k], context,
                     asking, of, union);
  }

  lemma CarriesWalkStep(turns: seq<Turn>, fed: seq<Seen>, asking: bool, k: nat, start: Option<bool>)
    requires k < |fed| && InRange(turns, fed)
    ensures WalkOf(turns, Walk(turns, fed, asking, k)) && WalkOf(turns, Walk(turns, fed, asking, k + 1))
    ensures FoldCarries(turns, start, Walk(turns, fed, asking, k + 1))
         == CarriesTurn(turns, fed[k], AnsweredIn(turns, fed[k], LastSeen(turns, fed, k)), asking,
                        FoldCarries(turns, start, Walk(turns, fed, asking, k)))
  {
    WalkIsAWalk(turns, fed, asking, k);
    WalkIsAWalk(turns, fed, asking, k + 1);
    var w, added := Walk(turns, fed, asking, k), Contribution(turns, fed, asking, k);
    if added == [] {
      assert w + added == w;
    } else {
      CarriesAppends(turns, start, w, added[0]);
      assert added == [added[0]];
    }
  }

  /** One reply of the history, in `ask_snapshot`. */
  method AskTurn(turns: seq<Turn>, e: Seen, context: Json, asking: bool, ids: Option<set<int>>, carries: Option<bool>)
    returns (nextIds: Option<set<int>>, nextCarries: Option<bool>)
    requires e.turn < |turns|
    ensures nextIds == FoldTurn(turns, e, context, asking, ids, IdsOf, UnionIds)
    ensures nextCarries == CarriesTurn(turns, e, context, asking, carries)
  {
    var turn := turns[e.turn];
    nextIds, nextCarries := ids, carries;
    if turn.Reply? && !e.withheld {
      var fromAsk := Truthy(context);
      if !fromAsk && asking {
        nextIds := None;
      } else if fromAsk || turn.answer.carries.Some? {
        var earlier := StoredIds(turn.answer.customerIds);
        nextIds := if ids.None? || earlier.None? then None else Some(ids.value + earlier.value);
        nextCarries := Some(carries == Some(true) || turn.answer.carries != Some(false));
      }
    }
  }

  /** The two accumulators of `ask_snapshot` after `k` turns. */
  ghost predicate AskFolded(turns: seq<Turn>, fed: seq<Seen>, asking: bool, k: nat, own: Option<set<int>>,
                            ownCarries: Option<bool>, ids: Option<set<int>>, carries: Option<bool>)
    requires k <= |fed| && InRange(turns, fed)
  {
    && ids == Fold(turns, own, Walk(turns, fed, asking, k), IdsOf, UnionIds)
    && carries == FoldCarries(turns, ownCarries, Walk(turns, fed, asking, k))
  }

  lemma AskFoldedNext(turns: seq<Turn>, fed: seq<Seen>, asking: bool, k: nat, own: Option<set<int>>,
                      ownCarries: Option<bool>, ids: Option<set<int>>, carries: Option<bool>)
    requires k < |fed| && InRange(turns, fed) && AskFolded(turns, fed, asking, k, own, ownCarries, ids, carries)
    ensures var context := AnsweredIn(turns, fed[k], LastSeen(turns, fed, k));
      AskFolded(turns, fed, asking, k + 1, own, ownCarries,
                FoldTurn(turns, fed[k], context, asking, ids, IdsOf, UnionIds),
                CarriesTurn(turns, fed[k], context, asking, carries))
  {
    WalkStep(turns, fed, asking, k, own, IdsOf, UnionIds);
    CarriesWalkStep(turns, fed, asking, k, ownCarries);
  }

  /** `ask_snapshot`, the loop. */
  method AskSnapshot(turns: seq<Turn>, fed: seq<Seen>, ask: Json, senderSeesAll: bool, g: Grounding)
    returns (ids: Option<set<int>>, carries: Option<bool>)
    requires InRange(turns, fed) && (ask == Null || ValidAsk(ask))
    ensures carries == FoldCarries(turns, OwnCarries(ask, senderSeesAll), Walk(turns, fed, ask != Null, |fed|))
    ensures ids == if carries.None? then None
                   else Fold(turns, OwnIds(ask, g), Walk(turns, fed, ask != Null, |fed|), IdsOf, UnionIds)
  {
    var asking := ask != Null;
    var own, ownCarries := OwnIds(ask, g), OwnCarries(ask, senderSeesAll);
    var grounded := own;
    carries := ownCarries;
    var last := Null;
    for k := 0 to |fed|
      invariant last == LastSeen(turns, fed, k)
      invariant AskFolded(turns, fed, asking, k, own, ownCarries, grounded, carries)
    {
      AskFoldedNext(turns, fed, asking, k, own, ownCarries, grounded, carries);
      var context := AnsweredIn(turns, fed[k], last);
      grounded, carries := AskTurn(turns, fed[k], context, asking, grounded, carries);
      last := LastAfter(turns, fed[k], last);
    }
    ids := if carries.None? then None else grounded;
  }

  /** One reply of the history, in `_folded_snapshot`. */
  method FoldedTurn<S>(turns: seq<Turn>, e: Seen, context: Json, asking: bool, snapshot: Option<S>,
                       of: (Answer, Json) -> Option<S>, union: (S, S) -> S)
    returns (next: Option<S>)
    requires e.turn < |turns|
    ensures next == FoldTurn(turns, e, context, asking, snapshot, of, union)
  {
    var turn := turns[e.turn];
    next := snapshot;
    if turn.Reply? && !e.withheld {
      var fromAsk := Truthy(context);
      if !fromAsk && asking {
        next := None;
      } else if fromAsk || turn.answer.carries.Some? {
        var earlier := of(turn.answer, context);
        next := if snapshot.None? || earlier.None? then None else Some(union(snapshot.value, earlier.value));
      }
    }
  }

  /** `_folded_snapshot`, the loop, for any kind of snapshot. */
  method FoldedSnapshot<S>(turns: seq<Turn>, fed: seq<Seen>, asking: bool, own: Option<S>,
                           of: (Answer, Json) -> Option<S>, union: (S, S) -> S)
    returns (snapshot: Option<S>)
    requires InRange(turns, fed)
    ensures snapshot == Fold(turns, own, Walk(turns, fed, asking, |fed|), of, union)
  {
    snapshot := own;
    var last := Null;
    for k := 0 to |fed|
      invariant last == LastSeen(turns, fed, k)
      invariant snapshot == Fold(turns, own, Walk(turns, fed, asking, k), of, union)
    {
      WalkStep(turns, fed, asking, k, own, of, union);
      var context := AnsweredIn(turns, fed[k], last);
      snapshot := FoldedTurn(turns, fed[k], context, asking, snapshot, of, union);
      last := LastAfter(turns, fed[k], last);
    }
  }
}
