/** Conversations older than the snapshots: what the pass over them establishes, and what it leaves open
    (`services/copilot/legacy.py`, `services/copilot/views.py`). */
module LegacyHistory {
  import opened Orders
  import opened Snapshots
  import opened Conversations
  import opened Provenance
  import opened Soundness
  import opened SharedRuns
  import opened SharedReading
  import opened Escapes
  import opened LegacyBackfill

  // ---------------------------------------------------------------- the three snapshots that came later

  datatype Kind = Pipelines | Tickets | Records

  function Column(a: Answer, kind: Kind): Json {
    match kind
    case Pipelines => a.pipeline
    case Tickets => a.tickets
    case Records => a.records
  }

  /** Whether the snapshot is known, as it is read beside the context. */
  predicate Known(a: Answer, context: Json, kind: Kind) {
    match kind
    case Pipelines => PipelineOf(a, context).Some?
    case Tickets => TicketsOf(a, context).Some?
    case Records => RecordsOf(a, context).Some?
  }

  /** Whether a known snapshot holds the mark; marks of another kind are not in it. */
  ghost predicate Holds(a: Answer, context: Json, kind: Kind, m: Mark)
    requires Known(a, context, kind)
  {
    match kind
    case Pipelines =>
      var c := PipelineOf(a, context).value;
      (m.PipelineAccount? && m.account in AccountsIn(c)) || (m.PipelineDepartment? && m.department in DepartmentsIn(c))
    case Tickets =>
      var c := TicketsOf(a, context).value;
      (m.TicketAccount? && m.account in AccountsIn(c)) || (m.TicketDepartment? && m.department in DepartmentsIn(c))
    case Records => m.Record? && m.ref in RefsIn(RecordsOf(a, context).value)
  }

  function KindOf(m: Mark): Option<Kind> {
    match m
    case Customer(_) => None
    case AnomalyText => None
    case PipelineAccount(_) => Some(Pipelines)
    case PipelineDepartment(_) => Some(Pipelines)
    case TicketAccount(_) => Some(Tickets)
    case TicketDepartment(_) => Some(Tickets)
    case Record(_) => Some(Records)
  }

  const BLANK := Answer(None, Null, Null, Null, Null, None, [])

  /** Whether a digest for this context may draw on the kind: a missing snapshot beside it reads as unknown. */
  predicate MayCarry(context: Json, kind: Kind) {
    !Known(BLANK, context, kind)
  }

  /** A missing snapshot is unknown where the digest may carry its kind, and reads as nothing elsewhere. */
  lemma MissingReads(a: Answer, context: Json, kind: Kind, m: Mark)
    requires Column(a, kind) == Null
    ensures Known(a, context, kind) <==> !MayCarry(context, kind)
    ensures Known(a, context, kind) ==> !Holds(a, context, kind, m)
  {
  }

  lemma HeldByKind(a: Answer, context: Json, m: Mark)
    requires KindOf(m).Some?
    ensures Held(m, a, context) <==> StoredIds(a.customerIds).None? || !Known(a, context, KindOf(m).value)
                                     || Holds(a, context, KindOf(m).value, m)
  {
  }

  // ---------------------------------------------------------------- what such a conversation can have been built from

  /** The rows once the pass has been over the first `n`; later ones are as they were stored. */
  function AfterPass(turns: seq<Turn>, n: nat): (after: seq<Turn>)
    ensures |after| == |turns|
    ensures forall i | 0 <= i < |turns| ::
      after[i] == if i < n && Legacy(turns, i) then MarkTurn(turns[i]) else turns[i]
  {
    seq(|turns|, i requires 0 <= i < |turns| => if i < n && Legacy(turns, i) then MarkTurn(turns[i]) else turns[i])
  }

  /** Each snapshot has its date: the pass came before all three, and an Ask-shaped reply without one is older than
      the column, as is everything before it. */
  ghost predicate Dated(turns: seq<Turn>, n: nat) {
    && n <= |turns|
    && (forall i, kind | 0 <= i < n && turns[i].Reply? :: Column(turns[i].answer, kind) == Null)
    && (forall i, j, kind | 0 <= j < i < |turns| && turns[i].Reply? && turns[j].Reply?
                            && Marked(turns[i].answer, AnsweredContext(turns, i))
                            && Column(turns[i].answer, kind) == Null :: Column(turns[j].answer, kind) == Null)
  }

  predicate Flagged(a: Answer) {
    a.carries != Some(false)
  }

  /** `a`, whose customer ids are known, can have folded in `b`: in the ids, in the flag, and in each snapshot that
      was stored by then. */
  ghost predicate Folded(b: Answer, before: Json, a: Answer, context: Json)
    requires StoredIds(a.customerIds).Some?
  {
    && StoredIds(b.customerIds).Some? && StoredIds(b.customerIds).value <= StoredIds(a.customerIds).value
    && (Flagged(b) ==> Flagged(a))
    && (forall kind | Column(a, kind) != Null && Known(a, context, kind) ::
          Known(b, before, kind) && forall m | Holds(b, before, kind, m) :: Holds(a, context, kind, m))
  }

  /** By what is stored, reply `i` can have been fed reply `j`. An Ask reply with known ids was fed only Ask replies
      with known ids, and holds theirs; a plain one holds those of the Ask-shaped replies it was fed, and since the
      pass it is marked if it was fed any. A reply with unknown ids, and a plain one older than the pass, can have
      been fed anything. */
  ghost predicate CouldFeed(turns: seq<Turn>, n: nat, j: nat, i: nat)
    requires i < |turns| && turns[i].Reply?
  {
    && j < i && turns[j].Reply?
    && var b := if i < n then turns[j].answer else AfterPass(turns, n)[j].answer;
       var a, before, context := turns[i].answer, AnsweredContext(turns, j), AnsweredContext(turns, i);
       if !Marked(a, context) then i >= n ==> !Marked(b, before)
       else StoredIds(a.customerIds).Some? ==>
         if Truthy(context) then Truthy(before) && Folded(b, before, a, context)
         else Marked(b, before) ==> Folded(b, before, a, context)
  }

  /** What the digest of an Ask reply can have drawn on: what its surface carries, and within what it stored. */
  ghost predicate OwnMay(turns: seq<Turn>, i: nat, m: Mark)
    requires i < |turns| && turns[i].Reply?
  {
    var a, context := turns[i].answer, AnsweredContext(turns, i);
    && Truthy(context)
    && (KindOf(m).Some? ==> MayCarry(context, KindOf(m).value))
    && Held(m, a, context)
  }

  /** Taints that the conversation can have had, with what each reply was fed. */
  ghost predicate CouldBe(turns: seq<Turn>, n: nat, taints: seq<Taint>, feeds: seq<set<nat>>) {
    && |taints| == |turns| == |feeds|
    && forall i | 0 <= i < |turns| && turns[i].Reply? ::
         && (forall j | j in feeds[i] :: CouldFeed(turns, n, j, i))
         && (forall m | m in taints[i].asked :: OwnMay(turns, i, m) || Fed(taints, feeds, i, m))
         && (forall m | m in taints[i].plain :: !Truthy(AnsweredContext(turns, i)) || FedPlain(taints, feeds, i, m))
  }

  ghost predicate Fed(taints: seq<Taint>, feeds: seq<set<nat>>, i: nat, m: Mark)
    requires i < |feeds|
  {
    exists j :: j in feeds[i] && j < |taints| && m in taints[j].asked
  }

  ghost predicate FedPlain(taints: seq<Taint>, feeds: seq<set<nat>>, i: nat, m: Mark)
    requires i < |feeds|
  {
    exists j :: j in feeds[i] && j < |taints| && m in taints[j].plain
  }

  // ---------------------------------------------------------------- the two things that are lost

  /** Ask reply `i` can have been fed Ask reply `j`, whose digest may carry a kind, and says by a missing snapshot that
      it drew on nothing of the kind. */
  ghost predicate Uncounted(turns: seq<Turn>, n: nat, j: nat, i: nat) {
    && i < |turns| && turns[i].Reply? && CouldFeed(turns, n, j, i)
    && var a, context := turns[i].answer, AnsweredContext(turns, i);
       && Truthy(context) && Truthy(AnsweredContext(turns, j)) && StoredIds(a.customerIds).Some?
       && exists kind :: UncountedKind(a, context, AnsweredContext(turns, j), kind)
  }

  ghost predicate UncountedKind(a: Answer, context: Json, before: Json, kind: Kind) {
    Column(a, kind) == Null && !MayCarry(context, kind) && MayCarry(before, kind)
  }

  /** A plain reply that was marked before the pass can have been fed one that was not, and so what an Ask reply
      before that had drawn on, without holding it. */
  ghost predicate Overheard(turns: seq<Turn>, n: nat, y: nat, j: nat, k: nat) {
    && y < j < k < n <= |turns| && turns[y].Reply? && turns[k].Reply? && Legacy(turns, j)
    && Truthy(AnsweredContext(turns, y)) && !Truthy(AnsweredContext(turns, k))
    && var b, a := turns[y].answer, turns[k].answer;
       && a.carries.Some? && StoredIds(a.customerIds).Some?
       && !(StoredIds(b.customerIds).Some? && StoredIds(b.customerIds).value <= StoredIds(a.customerIds).value
            && (Flagged(b) ==> Flagged(a)))
  }

  ghost predicate NothingLost(turns: seq<Turn>, n: nat) {
    && (forall j, i :: !Uncounted(turns, n, j, i))
    && (forall y, j, k :: !Overheard(turns, n, y, j, k))
  }

  // ---------------------------------------------------------------- reading the rows after the pass

  lemma {:induction false} PassKeepsQuestions(turns: seq<Turn>, n: nat, i: nat)
    requires i <= |turns|
    ensures LastQuestion(AfterPass(turns, n), i) == LastQuestion(turns, i)
  {
    if i > 0 {
      PassKeepsQuestions(turns, n, i - 1);
    }
  }

  lemma PassKeepsContexts(turns: seq<Turn>, n: nat, i: nat)
    requires WellFormed(turns) && i < |turns| && turns[i].Reply?
    ensures AnsweredContext(AfterPass(turns, n), i) == AnsweredContext(turns, i)
    ensures AskReply(turns, i) <==> Truthy(AnsweredContext(turns, i))
  {
    PassKeepsQuestions(turns, n, i);
    AskReplyIsByContext(turns, i);
  }

  lemma PassKeepsWellFormed(turns: seq<Turn>, n: nat)
    requires WellFormed(turns)
    ensures WellFormed(AfterPass(turns, n))
  {
  }

  // ---------------------------------------------------------------- nothing lost is enough

  /** What a reply drew on through Ask digests, the digest of an Ask reply up to there can have drawn on. */
  lemma {:induction false} Origin(turns: seq<Turn>, n: nat, taints: seq<Taint>, feeds: seq<set<nat>>, i: nat, m: Mark)
    returns (y: nat)
    requires CouldBe(turns, n, taints, feeds) && i < |turns| && turns[i].Reply? && m in taints[i].asked
    ensures y <= i && turns[y].Reply? && OwnMay(turns, y, m)
  {
    if OwnMay(turns, i, m) {
      y := i;
    } else {
      var j :| j in feeds[i] && j < |taints| && m in taints[j].asked;
      assert CouldFeed(turns, n, j, i);
      y := Origin(turns, n, taints, feeds, j, m);
    }
  }

  /** An Ask reply with known ids has no plain digest behind it. */
  lemma {:induction false} NoPlainBehind(turns: seq<Turn>, n: nat, taints: seq<Taint>, feeds: seq<set<nat>>, i: nat,
                                         m: Mark)
    requires WellFormed(turns) && CouldBe(turns, n, taints, feeds) && i < |turns| && turns[i].Reply?
    requires Truthy(AnsweredContext(turns, i)) && StoredIds(turns[i].answer.customerIds).Some?
    ensures m !in taints[i].plain
  {
    if m in taints[i].plain {
      var j :| j in feeds[i] && j < |taints| && m in taints[j].plain;
      assert CouldFeed(turns, n, j, i);
      AsFedIsAsk(turns, n, j, i);
      NoPlainBehind(turns, n, taints, feeds, j, m);
    }
  }

  /** Ask replies are as they were stored, before the pass and after. */
  lemma AsFedIsAsk(turns: seq<Turn>, n: nat, j: nat, i: nat)
    requires WellFormed(turns) && i < |turns| && turns[i].Reply? && CouldFeed(turns, n, j, i)
    requires Truthy(AnsweredContext(turns, j))
    ensures AfterPass(turns, n)[j] == turns[j]
  {
    PassKeepsContexts(turns, n, j);
  }

  /** What one reply holds and another folded in, the other holds, but for a kind it stores no snapshot of. */
  lemma FoldedIsKept(b: Answer, before: Json, a: Answer, context: Json, m: Mark)
    requires StoredIds(a.customerIds).Some? && Folded(b, before, a, context) && Held(m, b, before)
    requires KindOf(m).Some? ==> Column(a, KindOf(m).value) != Null || MayCarry(context, KindOf(m).value)
    ensures Held(m, a, context)
  {
    if KindOf(m).Some? {
      var kind := KindOf(m).value;
      HeldByKind(a, context, m);
      HeldByKind(b, before, m);
      if Column(a, kind) == Null {
        MissingReads(a, context, kind, m);
      }
    }
  }

  /** Between Ask replies, where nothing goes uncounted. */
  lemma AskKeepsAsk(turns: seq<Turn>, n: nat, j: nat, i: nat, m: Mark)
    requires WellFormed(turns) && Dated(turns, n) && !Uncounted(turns, n, j, i)
    requires i < |turns| && turns[i].Reply? && CouldFeed(turns, n, j, i)
    requires Truthy(AnsweredContext(turns, i)) && StoredIds(turns[i].answer.customerIds).Some?
    requires Held(m, turns[j].answer, AnsweredContext(turns, j))
    ensures Held(m, turns[i].answer, AnsweredContext(turns, i))
  {
    var b, a, before, context := turns[j].answer, turns[i].answer, AnsweredContext(turns, j), AnsweredContext(turns, i);
    AsFedIsAsk(turns, n, j, i);
    if KindOf(m).Some? && Column(a, KindOf(m).value) == Null && !MayCarry(context, KindOf(m).value) {
      var kind := KindOf(m).value;
      assert Column(b, kind) == Null;
      assert !UncountedKind(a, context, before, kind);
      HeldByKind(b, before, m);
      MissingReads(b, before, kind, m);
      assert false;
    } else {
      FoldedIsKept(b, before, a, context, m);
    }
  }

  /** A snapshot missing beside a plain question is unknown. */
  lemma PlainMayCarry(context: Json, kind: Kind)
    requires !Truthy(context)
    ensures MayCarry(context, kind)
  {
  }

  /** What a marked plain reply was fed, it holds, where nothing was overheard. */
  lemma PlainKeepsMarked(turns: seq<Turn>, n: nat, j: nat, i: nat, m: Mark)
    requires i < |turns| && turns[i].Reply? && CouldFeed(turns, n, j, i)
    requires Marked(turns[i].answer, AnsweredContext(turns, i)) && !Truthy(AnsweredContext(turns, i))
    requires StoredIds(turns[i].answer.customerIds).Some?
    requires var b := if i < n then turns[j].answer else AfterPass(turns, n)[j].answer;
      Marked(b, AnsweredContext(turns, j)) && Held(m, b, AnsweredContext(turns, j))
    ensures Held(m, turns[i].answer, AnsweredContext(turns, i))
  {
    var b := if i < n then turns[j].answer else AfterPass(turns, n)[j].answer;
    var context := AnsweredContext(turns, i);
    if KindOf(m).Some? {
      PlainMayCarry(context, KindOf(m).value);
    }
    FoldedIsKept(b, AnsweredContext(turns, j), turns[i].answer, context, m);
  }

  lemma OverheardIsHeld(turns: seq<Turn>, n: nat, y: nat, j: nat, k: nat, m: Mark)
    requires Dated(turns, n) && !Overheard(turns, n, y, j, k) && y < j < k < n && Legacy(turns, j)
    requires turns[y].Reply? && turns[k].Reply? && OwnMay(turns, y, m) && !Truthy(AnsweredContext(turns, k))
    requires turns[k].answer.carries.Some?
    ensures Held(m, turns[k].answer, AnsweredContext(turns, k))
  {
    var a, context := turns[k].answer, AnsweredContext(turns, k);
    if KindOf(m).Some? {
      HeldByKind(a, context, m);
      PlainMayCarry(context, KindOf(m).value);
      MissingReads(a, context, KindOf(m).value, m);
    }
  }

  lemma AfterAskIsLegacy(turns: seq<Turn>, y: nat, i: nat)
    requires WellFormed(turns) && y < i < |turns| && turns[y].Reply? && turns[i].Reply?
    requires Truthy(AnsweredContext(turns, y)) && !Marked(turns[i].answer, AnsweredContext(turns, i))
    ensures Legacy(turns, i)
  {
    AskReplyIsByContext(turns, y);
    AskReplyIsByContext(turns, i);
    assert SeenAsk(turns, i);
  }

  /** Before the pass an unmarked plain reply that drew on an Ask digest is one that the pass marks. */
  lemma DrewOnAsk(turns: seq<Turn>, n: nat, taints: seq<Taint>, feeds: seq<set<nat>>, i: nat, m: Mark)
    returns (y: nat)
    requires WellFormed(turns) && CouldBe(turns, n, taints, feeds) && i < |turns| && turns[i].Reply?
    requires !Marked(turns[i].answer, AnsweredContext(turns, i)) && m in taints[i].asked
    ensures y < i && turns[y].Reply? && OwnMay(turns, y, m) && Legacy(turns, i)
  {
    y := Origin(turns, n, taints, feeds, i, m);
    assert Truthy(AnsweredContext(turns, y));
    AfterAskIsLegacy(turns, y, i);
  }

  ghost predicate CoveredAt(turns: seq<Turn>, n: nat, taints: seq<Taint>, i: nat)
    requires i < |turns| == |taints| && turns[i].Reply?
  {
    Covers(AfterPass(turns, n)[i].answer, AnsweredContext(turns, i), taints[i])
  }

  ghost predicate CoveredUpTo(turns: seq<Turn>, n: nat, taints: seq<Taint>, i: nat)
    requires i <= |turns| == |taints|
  {
    forall j | 0 <= j < i && turns[j].Reply? :: CoveredAt(turns, n, taints, j)
  }

  lemma CoveredOneMore(turns: seq<Turn>, n: nat, taints: seq<Taint>, i: nat)
    requires i < |turns| == |taints| && CoveredUpTo(turns, n, taints, i)
    requires turns[i].Reply? ==> CoveredAt(turns, n, taints, i)
    ensures CoveredUpTo(turns, n, taints, i + 1)
  {
  }

  lemma AskFedIsHeld(turns: seq<Turn>, n: nat, taints: seq<Taint>, j: nat, i: nat, m: Mark)
    requires WellFormed(turns) && Dated(turns, n) && !Uncounted(turns, n, j, i) && |taints| == |turns|
    requires i < |turns| && turns[i].Reply? && Truthy(AnsweredContext(turns, i))
    requires StoredIds(turns[i].answer.customerIds).Some?
    requires CouldFeed(turns, n, j, i) && m in taints[j].asked && CoveredAt(turns, n, taints, j)
    ensures Held(m, turns[i].answer, AnsweredContext(turns, i))
  {
    AsFedIsAsk(turns, n, j, i);
    AskKeepsAsk(turns, n, j, i, m);
  }

  lemma AskIsCovered(turns: seq<Turn>, n: nat, taints: seq<Taint>, feeds: seq<set<nat>>, i: nat)
    requires WellFormed(turns) && Dated(turns, n) && CouldBe(turns, n, taints, feeds) && NothingLost(turns, n)
    requires i < |turns| && turns[i].Reply? && Truthy(AnsweredContext(turns, i))
    requires StoredIds(turns[i].answer.customerIds).Some?
    requires CoveredUpTo(turns, n, taints, i)
    ensures CoveredAt(turns, n, taints, i)
  {
    PassKeepsContexts(turns, n, i);
    forall m | m in taints[i].asked ensures Held(m, turns[i].answer, AnsweredContext(turns, i)) {
      if !OwnMay(turns, i, m) {
        var j :| j in feeds[i] && j < |taints| && m in taints[j].asked;
        assert CouldFeed(turns, n, j, i) && !Uncounted(turns, n, j, i);
        AskFedIsHeld(turns, n, taints, j, i, m);
      }
    }
    forall m ensures m !in taints[i].plain {
      NoPlainBehind(turns, n, taints, feeds, i, m);
    }
  }

  lemma PlainFedIsHeld(turns: seq<Turn>, n: nat, taints: seq<Taint>, feeds: seq<set<nat>>, j: nat, i: nat, m: Mark)
    requires WellFormed(turns) && Dated(turns, n) && CouldBe(turns, n, taints, feeds) && NothingLost(turns, n)
    requires i < |turns| && turns[i].Reply? && !Truthy(AnsweredContext(turns, i))
    requires turns[i].answer.carries.Some? && StoredIds(turns[i].answer.customerIds).Some?
    requires CouldFeed(turns, n, j, i) && m in taints[j].asked && CoveredAt(turns, n, taints, j)
    ensures Held(m, turns[i].answer, AnsweredContext(turns, i))
  {
    PassKeepsContexts(turns, n, j);
    var b := if i < n then turns[j].answer else AfterPass(turns, n)[j].answer;
    if Marked(b, AnsweredContext(turns, j)) {
      PlainKeepsMarked(turns, n, j, i, m);
    } else if i < n {
      var y := DrewOnAsk(turns, n, taints, feeds, j, m);
      assert !Overheard(turns, n, y, j, i);
      OverheardIsHeld(turns, n, y, j, i, m);
    }
  }

  lemma PlainIsCovered(turns: seq<Turn>, n: nat, taints: seq<Taint>, feeds: seq<set<nat>>, i: nat)
    requires WellFormed(turns) && Dated(turns, n) && CouldBe(turns, n, taints, feeds) && NothingLost(turns, n)
    requires i < |turns| && turns[i].Reply? && !Truthy(AnsweredContext(turns, i))
    requires turns[i].answer.carries.Some? && StoredIds(turns[i].answer.customerIds).Some?
    requires CoveredUpTo(turns, n, taints, i)
    ensures CoveredAt(turns, n, taints, i)
  {
    forall m | m in taints[i].asked ensures Held(m, turns[i].answer, AnsweredContext(turns, i)) {
      var j :| j in feeds[i] && j < |taints| && m in taints[j].asked;
      assert CouldFeed(turns, n, j, i);
      PlainFedIsHeld(turns, n, taints, feeds, j, i, m);
    }
  }

  lemma UnmarkedBeforeThePass(turns: seq<Turn>, n: nat, taints: seq<Taint>, feeds: seq<set<nat>>, i: nat, m: Mark)
    requires WellFormed(turns) && CouldBe(turns, n, taints, feeds) && i < n && i < |turns| && turns[i].Reply?
    requires !Marked(AfterPass(turns, n)[i].answer, AnsweredContext(turns, i))
    ensures m !in taints[i].asked
  {
    if m in taints[i].asked {
      var y := DrewOnAsk(turns, n, taints, feeds, i, m);
    }
  }

  lemma UnmarkedSinceThePass(turns: seq<Turn>, n: nat, taints: seq<Taint>, feeds: seq<set<nat>>, i: nat)
    requires CouldBe(turns, n, taints, feeds) && n <= i < |turns| && turns[i].Reply?
    requires !Marked(turns[i].answer, AnsweredContext(turns, i))
    requires CoveredUpTo(turns, n, taints, i)
    ensures taints[i].asked == {}
  {
    forall j | j in feeds[i] && j < |taints| ensures taints[j].asked == {} {
      assert CouldFeed(turns, n, j, i);
      assert CoveredAt(turns, n, taints, j);
    }
    forall m ensures m !in taints[i].asked {
      assert !Fed(taints, feeds, i, m) && !OwnMay(turns, i, m);
    }
  }

  /** A reply that is unmarked when the pass has been drew on no Ask digest. */
  lemma UnmarkedIsCovered(turns: seq<Turn>, n: nat, taints: seq<Taint>, feeds: seq<set<nat>>, i: nat)
    requires WellFormed(turns) && CouldBe(turns, n, taints, feeds) && i < |turns| && turns[i].Reply?
    requires !Marked(AfterPass(turns, n)[i].answer, AnsweredContext(turns, i))
    requires CoveredUpTo(turns, n, taints, i)
    ensures CoveredAt(turns, n, taints, i)
  {
    if i < n {
      forall m ensures m !in taints[i].asked {
        UnmarkedBeforeThePass(turns, n, taints, feeds, i, m);
      }
    } else {
      UnmarkedSinceThePass(turns, n, taints, feeds, i);
    }
  }

  lemma ReplyIsCovered(turns: seq<Turn>, n: nat, taints: seq<Taint>, feeds: seq<set<nat>>, i: nat)
    requires WellFormed(turns) && Dated(turns, n) && CouldBe(turns, n, taints, feeds) && NothingLost(turns, n)
    requires i < |turns| && turns[i].Reply?
    requires CoveredUpTo(turns, n, taints, i)
    ensures CoveredAt(turns, n, taints, i)
  {
    var a, context := AfterPass(turns, n)[i].answer, AnsweredContext(turns, i);
    if !Marked(a, context) {
      UnmarkedIsCovered(turns, n, taints, feeds, i);
    } else if StoredIds(a.customerIds).Some? {
      assert a == turns[i].answer;
      if Truthy(context) {
        AskIsCovered(turns, n, taints, feeds, i);
      } else {
        PlainIsCovered(turns, n, taints, feeds, i);
      }
    }
  }

  lemma TurnIsCovered(turns: seq<Turn>, n: nat, taints: seq<Taint>, feeds: seq<set<nat>>, i: nat)
    requires WellFormed(turns) && Dated(turns, n) && CouldBe(turns, n, taints, feeds) && NothingLost(turns, n)
    requires i < |turns| && CoveredUpTo(turns, n, taints, i)
    ensures CoveredUpTo(turns, n, taints, i + 1)
  {
    if turns[i].Reply? {
      ReplyIsCovered(turns, n, taints, feeds, i);
    }
    CoveredOneMore(turns, n, taints, i);
  }

  lemma {:induction false} EveryReplyIsCovered(turns: seq<Turn>, n: nat, taints: seq<Taint>, feeds: seq<set<nat>>,
                                               i: nat)
    requires WellFormed(turns) && Dated(turns, n) && CouldBe(turns, n, taints, feeds) && NothingLost(turns, n)
    requires i <= |turns|
    ensures CoveredUpTo(turns, n, taints, i)
  {
    if i > 0 {
      EveryReplyIsCovered(turns, n, taints, feeds, i - 1);
      TurnIsCovered(turns, n, taints, feeds, i - 1);
    }
  }

  lemma CoveredIsSound(turns: seq<Turn>, n: nat, taints: seq<Taint>)
    requires WellFormed(turns) && |taints| == |turns|
    ensures Sound(AfterPass(turns, n), taints)
       <==> CoveredUpTo(turns, n, taints, |turns|)
  {
    var after := AfterPass(turns, n);
    forall i | 0 <= i < |turns| && turns[i].Reply?
      ensures after[i].Reply? && AnsweredContext(after, i) == AnsweredContext(turns, i)
    {
      PassKeepsContexts(turns, n, i);
    }
    if Sound(after, taints) {
      forall i | 0 <= i < |turns| && turns[i].Reply? ensures CoveredAt(turns, n, taints, i) {
        assert Covers(after[i].answer, AnsweredContext(after, i), taints[i]);
      }
    }
  }

  // ---------------------------------------------------------------- and needed

  /** Two replies, or more, drew on one thing; nobody else on any. */
  ghost function Shared(turns: seq<Turn>, who: set<nat>, m: Mark): (taints: seq<Taint>)
    ensures |taints| == |turns|
    ensures forall i | 0 <= i < |turns| :: taints[i] == if i in who then Taint({m}, {}, {}) else UNTAINTED
  {
    seq(|turns|, i requires 0 <= i < |turns| => if i in who then Taint({m}, {}, {}) else UNTAINTED)
  }

  /** Each reply fed the one before it in the chain. */
  ghost function Chained(turns: seq<Turn>, chain: map<nat, nat>): (feeds: seq<set<nat>>)
    ensures |feeds| == |turns|
    ensures forall i | 0 <= i < |turns| :: feeds[i] == if i in chain then {chain[i]} else {}
  {
    seq(|turns|, i requires 0 <= i < |turns| => if i in chain then {chain[i]} else {})
  }

  lemma SharedCouldBe(turns: seq<Turn>, n: nat, who: set<nat>, m: Mark, chain: map<nat, nat>)
    requires forall i | i in who && i < |turns| && turns[i].Reply? ::
      OwnMay(turns, i, m) || (i in chain && chain[i] in who && chain[i] < |turns|)
    requires forall i | i in chain && i < |turns| && turns[i].Reply? :: CouldFeed(turns, n, chain[i], i)
    ensures CouldBe(turns, n, Shared(turns, who, m), Chained(turns, chain))
  {
    var taints, feeds := Shared(turns, who, m), Chained(turns, chain);
    forall i, o | 0 <= i < |turns| && turns[i].Reply? && o in taints[i].asked
      ensures OwnMay(turns, i, o) || Fed(taints, feeds, i, o)
    {
      if !OwnMay(turns, i, m) {
        assert chain[i] in feeds[i] && m in taints[chain[i]].asked;
      }
    }
  }

  function SomeMark(kind: Kind): (m: Mark)
    ensures KindOf(m) == Some(kind)
  {
    match kind
    case Pipelines => PipelineAccount(0)
    case Tickets => TicketAccount(0)
    case Records => Record(Ref("", 0, "", 0))
  }

  lemma MissedBreaks(turns: seq<Turn>, n: nat, taints: seq<Taint>, i: nat, m: Mark)
    requires WellFormed(turns) && i < |turns| == |taints| && turns[i].Reply? && m in taints[i].asked
    requires Marked(turns[i].answer, AnsweredContext(turns, i))
    requires !Held(m, turns[i].answer, AnsweredContext(turns, i))
    ensures !Sound(AfterPass(turns, n), taints)
  {
    PassKeepsContexts(turns, n, i);
    assert AfterPass(turns, n)[i] == turns[i];
    assert !CoveredAt(turns, n, taints, i);
    CoveredIsSound(turns, n, taints);
  }

  lemma UncountedBreaks(turns: seq<Turn>, n: nat, j: nat, i: nat) returns (taints: seq<Taint>, feeds: seq<set<nat>>)
    requires WellFormed(turns) && Dated(turns, n) && Uncounted(turns, n, j, i)
    ensures CouldBe(turns, n, taints, feeds) && !Sound(AfterPass(turns, n), taints)
  {
    var a, context, before := turns[i].answer, AnsweredContext(turns, i), AnsweredContext(turns, j);
    var kind :| UncountedKind(a, context, before, kind);
    var m := SomeMark(kind);
    taints, feeds := Shared(turns, {j, i}, m), Chained(turns, map[i := j]);
    assert Column(turns[j].answer, kind) == Null;
    MissingReads(turns[j].answer, before, kind, m);
    HeldByKind(turns[j].answer, before, m);
    assert OwnMay(turns, j, m);
    SharedCouldBe(turns, n, {j, i}, m, map[i := j]);
    MissingReads(a, context, kind, m);
    HeldByKind(a, context, m);
    MissedBreaks(turns, n, taints, i, m);
  }

  /** A customer outside a finite set. */
  lemma {:induction false} Outside(ids: set<int>) returns (c: int)
    ensures c !in ids && forall x | x in ids :: x < c
  {
    if ids == {} {
      c := 0;
    } else {
      var x := Pick(ids);
      var d := Outside(ids - {x});
      c := if x < d then d else x + 1;
      assert forall z | z in ids :: z == x || z in ids - {x};
    }
  }

  lemma NotWithin(a: set<int>, b: set<int>)
    requires !(a <= b)
    ensures a - b != {}
  {
    if a - b == {} {
      forall x | x in a ensures x in b {
        assert x !in a - b;
      }
    }
  }

  /** What the Ask reply can have drawn on and the one that overheard it does not hold. */
  lemma OverheardMark(turns: seq<Turn>, n: nat, y: nat, j: nat, k: nat) returns (m: Mark)
    requires Overheard(turns, n, y, j, k)
    ensures OwnMay(turns, y, m) && !Held(m, turns[k].answer, AnsweredContext(turns, k))
  {
    var b, a := turns[y].answer, turns[k].answer;
    var ids := StoredIds(a.customerIds).value;
    if StoredIds(b.customerIds).None? {
      var c := Outside(ids);
      m := Customer(c);
    } else if Flagged(b) && !Flagged(a) {
      m := AnomalyText;
    } else {
      var others := StoredIds(b.customerIds).value - ids;
      NotWithin(StoredIds(b.customerIds).value, ids);
      var c := Pick(others);
      m := Customer(c);
    }
  }

  lemma OverheardFeeds(turns: seq<Turn>, n: nat, y: nat, j: nat, k: nat)
    requires WellFormed(turns) && Overheard(turns, n, y, j, k)
    ensures CouldFeed(turns, n, y, j) && CouldFeed(turns, n, j, k)
    ensures Marked(turns[k].answer, AnsweredContext(turns, k))
  {
    PassKeepsContexts(turns, n, j);
  }

  lemma OverheardCouldBe(turns: seq<Turn>, n: nat, y: nat, j: nat, k: nat, m: Mark)
    returns (taints: seq<Taint>, feeds: seq<set<nat>>)
    requires y < j < k < |turns| && turns[y].Reply? && turns[j].Reply? && turns[k].Reply? && OwnMay(turns, y, m)
    requires CouldFeed(turns, n, y, j) && CouldFeed(turns, n, j, k)
    ensures CouldBe(turns, n, taints, feeds) && m in taints[k].asked
  {
    var chain := map[j := y, k := j];
    taints, feeds := Shared(turns, {y, j, k}, m), Chained(turns, chain);
    assert chain[j] == y && chain[k] == j;
    SharedCouldBe(turns, n, {y, j, k}, m, chain);
  }

  lemma OverheardBreaks(turns: seq<Turn>, n: nat, y: nat, j: nat, k: nat)
    returns (taints: seq<Taint>, feeds: seq<set<nat>>)
    requires WellFormed(turns) && Overheard(turns, n, y, j, k)
    ensures CouldBe(turns, n, taints, feeds) && !Sound(AfterPass(turns, n), taints)
  {
    var m := OverheardMark(turns, n, y, j, k);
    OverheardFeeds(turns, n, y, j, k);
    taints, feeds := OverheardCouldBe(turns, n, y, j, k, m);
    MissedBreaks(turns, n, taints, k, m);
  }

  // ---------------------------------------------------------------- exactly

  /** When the pass has been over its first `n` turns, a conversation is sound for all taints that it can have if and
      only if nothing is lost: no Ask reply that can have been fed another says by a missing snapshot that it drew on
      nothing of a kind which the other's surface carries, and no marked plain reply can have overheard an Ask reply
      whose ids or flag it lacks. */
  lemma OldConversationIsSoundIff(turns: seq<Turn>, n: nat)
    requires WellFormed(turns) && Dated(turns, n)
    ensures (forall taints, feeds | CouldBe(turns, n, taints, feeds) :: Sound(AfterPass(turns, n), taints))
       <==> NothingLost(turns, n)
  {
    if NothingLost(turns, n) {
      forall taints, feeds | CouldBe(turns, n, taints, feeds) ensures Sound(AfterPass(turns, n), taints) {
        EveryReplyIsCovered(turns, n, taints, feeds, |turns|);
        CoveredIsSound(turns, n, taints);
      }
    } else if j, i :| Uncounted(turns, n, j, i) {
      var taints, feeds := UncountedBreaks(turns, n, j, i);
    } else {
      var y, j, k :| Overheard(turns, n, y, j, k);
      var taints, feeds := OverheardBreaks(turns, n, y, j, k);
    }
  }

  lemma BackfillIsAfterPass(turns: seq<Turn>)
    ensures Backfilled(turns) == AfterPass(turns, |turns|)
  {
  }

  /** As the pass met it, a conversation had none of the three snapshots. */
  predicate Unsnapshotted(turns: seq<Turn>) {
    forall i | 0 <= i < |turns| && turns[i].Reply? ::
      var a := turns[i].answer; a.pipeline == Null && a.tickets == Null && a.records == Null
  }

  /** So the pass leaves a conversation as it met it sound for all taints that it can have if and only if nothing in
      it is lost. */
  lemma BackfillIsSoundIff(turns: seq<Turn>)
    requires WellFormed(turns) && Unsnapshotted(turns)
    ensures (forall taints, feeds | CouldBe(turns, |turns|, taints, feeds) :: Sound(Backfilled(turns), taints))
       <==> NothingLost(turns, |turns|)
  {
    forall i, kind | 0 <= i < |turns| && turns[i].Reply? ensures Column(turns[i].answer, kind) == Null {
    }
    BackfillIsAfterPass(turns);
    OldConversationIsSoundIff(turns, |turns|);
  }

  /** And over every run from there, while no window cuts off a legacy Ask question, nothing guarded leaks. */
  lemma OldConversationsAreSafe(s: Thread, turns: seq<Turn>, n: nat, feeds: seq<set<nat>>, steps: seq<Step>, r: Reader)
    requires WellFormed(turns) && Dated(turns, n) && NothingLost(turns, n) && CouldBe(turns, n, s.taints, feeds)
    requires s.turns == AfterPass(turns, n) && s.pending == map[]
    requires EdgeSafeRun(s, steps) && forall i | 0 <= i < |steps| :: HonestStep(steps[i])
    ensures NothingGuardedLeaks(Run(s, steps), r)
  {
    OldConversationIsSoundIff(turns, n);
    PassKeepsWellFormed(turns, n);
    RunsFromSoundAreSafe(s, steps, r);
  }

  // ---------------------------------------------------------------- a figure that went uncounted

  const REVENUE := Dict(map["surface" := Text("dashboard"), "area" := Text("revenue")])
  const HEALTH := Dict(map["surface" := Text("dashboard"), "area" := Text("health")])

  /** A reply about customer 7, older than the three snapshots. */
  function Old7(question: nat): Answer {
    Answer(Some(question), IntList([7]), Null, Null, Null, Some(false), [])
  }

  lemma DashboardCarries()
    ensures Truthy(REVENUE) && Truthy(HEALTH) && MayCarry(REVENUE, Pipelines)
    ensures !MayCarry(HEALTH, Pipelines) && !MayCarry(HEALTH, Tickets) && !MayCarry(HEALTH, Records)
    ensures IsOneOf(Get(HEALTH, "surface"), SURFACES)
  {
    assert "surface" in REVENUE.fields && "surface" in HEALTH.fields;
    assert Get(REVENUE, "surface") == Text("dashboard") == Get(HEALTH, "surface");
    assert Get(REVENUE, "area") == Text("revenue") && Get(HEALTH, "area") == Text("health");
    assert PIPELINE_AREAS[1] == "revenue" && SURFACES[0] == "dashboard";
  }

  lemma Old7Ids(question: nat)
    ensures StoredIds(Old7(question).customerIds) == Some({7})
  {
    assert Elements([7]) == {7};
  }

  /** A Revenue reply and a Health reply that was fed it, as the pass met them. */
  ghost predicate Old7Twice(turns: seq<Turn>) {
    turns == [Question(Some(1), REVENUE), Reply(Old7(0)), Question(Some(1), HEALTH), Reply(Old7(2))]
  }

  /** The Revenue reply had counted an account's pipeline. */
  ghost predicate Counted3(taints: seq<Taint>, feeds: seq<set<nat>>) {
    var t := Taint({Customer(7), PipelineAccount(3)}, {}, {});
    taints == [UNTAINTED, t, UNTAINTED, t] && feeds == [{}, {}, {}, {1}]
  }

  lemma Old7IsUncounted(turns: seq<Turn>, n: nat)
    requires Old7Twice(turns) && n == 4
    ensures WellFormed(turns) && Unsnapshotted(turns) && AfterPass(turns, n) == turns
    ensures Uncounted(turns, n, 1, 3)
    ensures AnsweredContext(turns, 1) == REVENUE && AnsweredContext(turns, 3) == HEALTH
  {
    DashboardCarries();
    Old7Ids(0);
    Old7Ids(2);
    OldRepliesFold(turns);
    assert UncountedKind(Old7(2), HEALTH, REVENUE, Pipelines);
  }

  lemma Old7IsRead(turns: seq<Turn>)
    requires Old7Twice(turns)
    ensures turns[3].Reply? && turns[2].Question? && ReadableBy(OUTSIDER, turns[3].answer, Some(turns[2]))
  {
    DashboardCarries();
    Old7Ids(2);
    HealthIsRead(Old7(2), Question(Some(1), HEALTH));
  }

  /** The pass changes nothing, the Health reply reads as having counted no pipeline, and somebody who may not open
      the account is shown it. */
  lemma UncountedPipelineEscapes(turns: seq<Turn>, n: nat, taints: seq<Taint>, feeds: seq<set<nat>>)
    requires Old7Twice(turns) && Counted3(taints, feeds) && n == |turns|
    ensures WellFormed(turns) && Unsnapshotted(turns) && Uncounted(turns, n, 1, 3) && CouldBe(turns, n, taints, feeds)
    ensures Backfilled(turns) == turns && !Sound(Backfilled(turns), taints)
    ensures turns[3].Reply? && turns[2].Question? && ReadableBy(OUTSIDER, turns[3].answer, Some(turns[2]))
    ensures PipelineAccount(3) in taints[3].asked && !MayRead(OUTSIDER, PipelineAccount(3))
  {
    Old7IsUncounted(turns, n);
    DashboardCarries();
    Old7Ids(0);
    Old7Ids(2);
    OldRepliesCouldBe(turns, n, taints, feeds);
    HealthMisses(turns, n, taints);
    Old7IsRead(turns);
  }

  lemma HealthMisses(turns: seq<Turn>, n: nat, taints: seq<Taint>)
    requires WellFormed(turns) && |turns| == |taints| == n == 4 && turns[3] == Reply(Old7(2))
    requires PipelineAccount(3) in taints[3].asked && AfterPass(turns, n) == turns
    requires AnsweredContext(turns, 3) == HEALTH && Truthy(HEALTH) && !MayCarry(HEALTH, Pipelines)
    requires StoredIds(Old7(2).customerIds) == Some({7})
    ensures Backfilled(turns) == turns && !Sound(Backfilled(turns), taints)
  {
    BackfillIsAfterPass(turns);
    MissingReads(Old7(2), HEALTH, Pipelines, PipelineAccount(3));
    HeldByKind(Old7(2), HEALTH, PipelineAccount(3));
    MissedBreaks(turns, n, taints, 3, PipelineAccount(3));
  }

  lemma OldRepliesFold(turns: seq<Turn>)
    requires turns == [Question(Some(1), REVENUE), Reply(Old7(0)), Question(Some(1), HEALTH), Reply(Old7(2))]
    requires Truthy(REVENUE) && Truthy(HEALTH)
    requires StoredIds(Old7(0).customerIds) == Some({7}) == StoredIds(Old7(2).customerIds)
    ensures CouldFeed(turns, 4, 1, 3) && AnsweredContext(turns, 1) == REVENUE && AnsweredContext(turns, 3) == HEALTH
    ensures AfterPass(turns, 4) == turns
  {
    assert AskReply(turns, 1) && AskReply(turns, 3);
    assert Folded(Old7(0), REVENUE, Old7(2), HEALTH);
    assert forall i | 0 <= i < 4 :: !Legacy(turns, i);
  }

  lemma OldRepliesCouldBe(turns: seq<Turn>, n: nat, taints: seq<Taint>, feeds: seq<set<nat>>)
    requires |turns| == 4 && turns[1] == Reply(Old7(0)) && turns[3] == Reply(Old7(2))
    requires turns[0].Question? && turns[2].Question? && Counted3(taints, feeds)
    requires AnsweredContext(turns, 1) == REVENUE && Truthy(REVENUE) && MayCarry(REVENUE, Pipelines)
    requires CouldFeed(turns, n, 1, 3) && StoredIds(Old7(0).customerIds) == Some({7})
    ensures CouldBe(turns, n, taints, feeds)
  {
    MissingReads(Old7(0), REVENUE, Pipelines, PipelineAccount(3));
    HeldByKind(Old7(0), REVENUE, PipelineAccount(3));
    assert OwnMay(turns, 1, Customer(7)) && OwnMay(turns, 1, PipelineAccount(3));
    forall m | m in taints[3].asked ensures Fed(taints, feeds, 3, m) {
      assert 1 in feeds[3] && m in taints[1].asked;
    }
  }

  lemma HealthIsRead(a: Answer, question: Turn)
    requires a == Old7(2) && question == Question(Some(1), HEALTH) && StoredIds(a.customerIds) == Some({7})
    requires !MayCarry(HEALTH, Pipelines) && !MayCarry(HEALTH, Tickets) && !MayCarry(HEALTH, Records)
    requires Truthy(HEALTH) && IsOneOf(Get(HEALTH, "surface"), SURFACES)
    ensures ReadableBy(OUTSIDER, a, Some(question))
  {
    assert PipelineOf(a, HEALTH) == Some(NO_PIPELINE) == TicketsOf(a, HEALTH);
    assert RecordsOf(a, HEALTH) == Some([]);
    assert SnapshotReadable(OUTSIDER, a, HEALTH);
  }
}
