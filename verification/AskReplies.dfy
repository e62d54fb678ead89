/** What a send stores, in the fields of what was asked, of its grounding and of the replies it was fed
    (`services/copilot/views.py`). */
module AskReplies {
  import opened Orders
  import opened PyText
  import opened Snapshots
  import opened Conversations
  import opened Provenance
  import opened Soundness
  import opened Escapes

  // ---------------------------------------------------------------- what an Ask grounding owes

  /** The digest of such a question can quote the text of a stored anomaly: the overview's, or one whose focus is an
      anomaly that needs attention. */
  predicate CanQuoteAnomalies(ask: Json)
    requires ask.Dict?
  {
    || ("area" in ask.fields && ask.fields["area"] == Text("overview"))
    || ("focus" in ask.fields && OnAnAnomaly(ask.fields["focus"]))
  }

  predicate OnAnAnomaly(focus: Json) {
    && focus.Dict? && "kind" in focus.fields && focus.fields["kind"] == Text("attention")
    && "key" in focus.fields && focus.fields["key"].Text?
    && |focus.fields["key"].s| >= 8 && focus.fields["key"].s[..8] == "anomaly:"
  }

  lemma NamingAnomalies(ask: Json)
    requires ask.Dict?
    ensures NamesAStoredAnomaly(ask) <==> CanQuoteAnomalies(ask)
  {
  }

  /** A digest may draw on anomaly text exactly when the sender sees everything and the question can quote some. */
  lemma HonestAnomalyIff(ask: Json, seesAll: bool, g: Grounding)
    requires ValidAsk(ask)
    ensures Honest(ask, seesAll, g, {AnomalyText}) <==> seesAll && CanQuoteAnomalies(ask)
  {
    NamingAnomalies(ask);
  }

  /** And on anything else when the grounding reports no customer ids, or what it reports of the kind is malformed or
      names it. */
  lemma HonestMarkIff(ask: Json, seesAll: bool, g: Grounding, m: Mark)
    requires ValidAsk(ask) && !m.AnomalyText?
    ensures Honest(ask, seesAll, g, {m}) <==> g.customerIds.None? || Reports(g, m)
  {
  }

  predicate Reports(g: Grounding, m: Mark)
    requires g.customerIds.Some? && !m.AnomalyText?
  {
    match m
    case Customer(c) => c in g.customerIds.value
    case PipelineAccount(n) =>
      var p := WellFormedCounted(g.pipeline); p.Some? ==> n in p.value.accounts
    case PipelineDepartment(d) =>
      var p := WellFormedCounted(g.pipeline); p.Some? ==> d in p.value.departments
    case TicketAccount(n) =>
      var t := WellFormedCounted(g.tickets); t.Some? ==> n in t.value.accounts
    case TicketDepartment(d) =>
      var t := WellFormedCounted(g.tickets); t.Some? ==> d in t.value.departments
    case Record(ref) =>
      var rs := WellFormedRecords(g.records); rs.Some? ==> ref in rs.value
  }

  /** Honesty is a matter of each thing drawn on, and a plain grounding owes nothing. */
  lemma HonestIsByMark(ask: Json, seesAll: bool, g: Grounding, drew: set<Mark>)
    requires ask == Null || ValidAsk(ask)
    ensures Honest(ask, seesAll, g, drew) <==> ask == Null || forall m | m in drew :: Honest(ask, seesAll, g, {m})
  {
    if ask != Null && forall m | m in drew :: Honest(ask, seesAll, g, {m}) {
      forall m | m in drew ensures Honest(ask, seesAll, g, {m}) && m in {m} {
      }
    }
  }

  // ---------------------------------------------------------------- which of the history is folded in

  lemma {:induction false} WalkMembersAre(turns: seq<Turn>, fed: seq<Seen>, asking: bool, n: nat, x: Fed)
    requires n <= |fed| && InRange(turns, fed)
    ensures x in Walk(turns, fed, asking, n) <==> exists k :: 0 <= k < n && x in Contribution(turns, fed, asking, k)
  {
    if n > 0 {
      WalkMembersAre(turns, fed, asking, n - 1, x);
    }
  }

  /** Reply `k` of the history is heard, and taken for an Ask reply or, in a plain send, for one that was fed an
      Ask reply. */
  ghost predicate IsFolded(turns: seq<Turn>, fed: seq<Seen>, asking: bool, k: nat)
    requires k < |fed| && InRange(turns, fed)
  {
    Heard(turns, fed[k])
    && (Truthy(TakenContext(turns, fed, k)) || (!asking && turns[fed[k].turn].answer.carries.Some?))
  }

  lemma FoldedIsWalked(turns: seq<Turn>, fed: seq<Seen>, asking: bool, k: nat)
    requires k < |fed| && InRange(turns, fed)
    ensures IsFolded(turns, fed, asking, k)
       <==> exists x :: x in Contribution(turns, fed, asking, k) && x.Folds? && x.turn == fed[k].turn
    ensures forall x | x in Contribution(turns, fed, asking, k) && x.Folds? :: x.turn == fed[k].turn
  {
    if IsFolded(turns, fed, asking, k) {
      var x := Folds(fed[k].turn, TakenContext(turns, fed, k));
      assert Contribution(turns, fed, asking, k)[0] == x;
    }
  }

  ghost predicate SomeFolded(turns: seq<Turn>, fed: seq<Seen>, asking: bool)
    requires InRange(turns, fed)
  {
    exists k :: 0 <= k < |fed| && IsFolded(turns, fed, asking, k)
  }

  ghost predicate SomeFlagged(turns: seq<Turn>, fed: seq<Seen>, asking: bool)
    requires InRange(turns, fed)
  {
    exists k :: 0 <= k < |fed| && IsFolded(turns, fed, asking, k)
                && turns[fed[k].turn].answer.carries != Some(false)
  }

  lemma FoldedGoesIn(turns: seq<Turn>, fed: seq<Seen>, asking: bool, k: nat, w: seq<Fed>) returns (i: nat)
    requires k < |fed| && InRange(turns, fed) && IsFolded(turns, fed, asking, k) && w == Walk(turns, fed, asking, |fed|)
    ensures i < |w| && w[i].Folds? && w[i].turn == fed[k].turn
  {
    FoldedIsWalked(turns, fed, asking, k);
    var x :| x in Contribution(turns, fed, asking, k) && x.Folds? && x.turn == fed[k].turn;
    WalkMembersAre(turns, fed, asking, |fed|, x);
    i :| 0 <= i < |w| && w[i] == x;
  }

  lemma WalkedWasFolded(turns: seq<Turn>, fed: seq<Seen>, asking: bool, i: nat, w: seq<Fed>) returns (k: nat)
    requires InRange(turns, fed) && w == Walk(turns, fed, asking, |fed|) && i < |w| && w[i].Folds?
    ensures k < |fed| && IsFolded(turns, fed, asking, k) && fed[k].turn == w[i].turn
  {
    WalkMembersAre(turns, fed, asking, |fed|, w[i]);
    k :| 0 <= k < |fed| && w[i] in Contribution(turns, fed, asking, k);
    FoldedIsWalked(turns, fed, asking, k);
  }

  ghost predicate Walked(w: seq<Fed>, i: int) {
    0 <= i < |w| && w[i].Folds?
  }

  lemma SomeFoldedIff(turns: seq<Turn>, fed: seq<Seen>, asking: bool, w: seq<Fed>)
    requires InRange(turns, fed) && w == Walk(turns, fed, asking, |fed|)
    ensures SomeFolded(turns, fed, asking) <==> exists i :: Walked(w, i)
  {
    if SomeFolded(turns, fed, asking) {
      var k :| 0 <= k < |fed| && IsFolded(turns, fed, asking, k);
      var i := FoldedGoesIn(turns, fed, asking, k, w);
      assert Walked(w, i);
    }
    if i :| Walked(w, i) {
      var k := WalkedWasFolded(turns, fed, asking, i, w);
    }
  }

  ghost predicate WalkedFlagged(turns: seq<Turn>, w: seq<Fed>, i: int)
    requires WalkOf(turns, w)
  {
    Walked(w, i) && turns[w[i].turn].answer.carries != Some(false)
  }

  lemma SomeFlaggedIff(turns: seq<Turn>, fed: seq<Seen>, asking: bool, w: seq<Fed>)
    requires InRange(turns, fed) && w == Walk(turns, fed, asking, |fed|) && WalkOf(turns, w)
    ensures SomeFlagged(turns, fed, asking) <==> exists i :: WalkedFlagged(turns, w, i)
  {
    if SomeFlagged(turns, fed, asking) {
      var k :| 0 <= k < |fed| && IsFolded(turns, fed, asking, k) && turns[fed[k].turn].answer.carries != Some(false);
      var i := FoldedGoesIn(turns, fed, asking, k, w);
      assert WalkedFlagged(turns, w, i);
    }
    if i :| WalkedFlagged(turns, w, i) {
      var k := WalkedWasFolded(turns, fed, asking, i, w);
    }
  }

  lemma CarriesInWalk(turns: seq<Turn>, start: Option<bool>, w: seq<Fed>)
    requires WalkOf(turns, w)
    ensures FoldCarries(turns, start, w) == Some(true)
       <==> start == Some(true) || exists i :: WalkedFlagged(turns, w, i)
    ensures FoldCarries(turns, start, w).None? <==> start.None? && !exists i :: Walked(w, i)
  {
    CarriesIsTrueIff(turns, start, w);
    if i :| 0 <= i < |w| && w[i].Folds? && turns[w[i].turn].answer.carries != Some(false) {
      assert WalkedFlagged(turns, w, i);
    }
    if i :| 0 <= i < |w| && !w[i].Blocks? {
      assert Walked(w, i);
    }
  }

  // ---------------------------------------------------------------- the flag

  lemma StoredCarries(turns: seq<Turn>, fed: seq<Seen>, ask: Json, seesAll: bool, g: Grounding, q: nat, w: seq<Fed>)
    requires InRange(turns, fed) && (ask == Null || ValidAsk(ask)) && w == Walk(turns, fed, ask != Null, |fed|)
    ensures WalkOf(turns, w)
    ensures NewAnswer(turns, fed, ask, seesAll, g, q).carries == FoldCarries(turns, OwnCarries(ask, seesAll), w)
  {
    WalkIsAWalk(turns, fed, ask != Null, |fed|);
  }

  /** An Ask reply is flagged as able to carry anomaly text exactly when its sender sees everything and its question
      can quote some, or a reply folded in was not known to be free of it; otherwise it is marked free. */
  lemma AskFlagIff(turns: seq<Turn>, fed: seq<Seen>, ask: Json, seesAll: bool, g: Grounding, q: nat)
    requires InRange(turns, fed) && ValidAsk(ask)
    ensures var flag := NewAnswer(turns, fed, ask, seesAll, g, q).carries;
      flag.Some? && (flag == Some(true) <==> (seesAll && CanQuoteAnomalies(ask)) || SomeFlagged(turns, fed, true))
  {
    var w := Walk(turns, fed, true, |fed|);
    NamingAnomalies(ask);
    WalkIsAWalk(turns, fed, true, |fed|);
    SomeFlaggedIff(turns, fed, true, w);
    CarriesInWalk(turns, OwnCarries(ask, seesAll), w);
    StoredCarries(turns, fed, ask, seesAll, g, q, w);
  }

  /** A plain reply has a flag exactly when something was folded in, and it is set when some of that was not known to
      be free of anomaly text. */
  lemma PlainFlagIff(turns: seq<Turn>, fed: seq<Seen>, seesAll: bool, g: Grounding, q: nat)
    requires InRange(turns, fed)
    ensures var flag := NewAnswer(turns, fed, Null, seesAll, g, q).carries;
      (flag.Some? <==> SomeFolded(turns, fed, false)) && (flag == Some(true) <==> SomeFlagged(turns, fed, false))
  {
    var w := Walk(turns, fed, false, |fed|);
    WalkIsAWalk(turns, fed, false, |fed|);
    SomeFoldedIff(turns, fed, false, w);
    SomeFlaggedIff(turns, fed, false, w);
    CarriesInWalk(turns, None, w);
    StoredCarries(turns, fed, Null, seesAll, g, q, w);
  }

  // ---------------------------------------------------------------- what is stored when nothing was heard

  lemma {:induction false} NothingWalked(turns: seq<Turn>, fed: seq<Seen>, asking: bool, n: nat)
    requires n <= |fed| && InRange(turns, fed) && forall k | 0 <= k < |fed| :: !Heard(turns, fed[k])
    ensures Walk(turns, fed, asking, n) == []
  {
    if n > 0 {
      NothingWalked(turns, fed, asking, n - 1);
    }
  }

  /** Every new reply names its question and cites what its grounding cites. */
  lemma ReplyNamesItsQuestion(turns: seq<Turn>, fed: seq<Seen>, ask: Json, seesAll: bool, g: Grounding, q: nat)
    requires InRange(turns, fed) && (ask == Null || ValidAsk(ask))
    ensures var a := NewAnswer(turns, fed, ask, seesAll, g, q); a.replyTo == Some(q) && a.sources == g.sources
  {
  }

  /** An Ask reply that heard nothing stores what its grounding reports, each in its own column, and unknown where the
      grounding reports nothing well-formed. */
  lemma UnfedAskStores(turns: seq<Turn>, fed: seq<Seen>, ask: Json, seesAll: bool, g: Grounding, q: nat)
    requires InRange(turns, fed) && ValidAsk(ask) && forall k | 0 <= k < |fed| :: !Heard(turns, fed[k])
    ensures var a := NewAnswer(turns, fed, ask, seesAll, g, q);
      && (a.customerIds == Null <==> g.customerIds.None?)
      && (g.customerIds.Some? ==>
            exists ids :: a.customerIds == IntList(ids) && Elements(ids) == Elements(g.customerIds.value))
      && a.pipeline == (if WellFormedCounted(g.pipeline).Some? then g.pipeline else UNKNOWN)
      && a.tickets == (if WellFormedCounted(g.tickets).Some? then g.tickets else UNKNOWN)
      && a.records == (if WellFormedRecords(g.records).Some? then g.records else UNKNOWN)
  {
    NothingWalked(turns, fed, true, |fed|);
    WellFormedKeepsTheValue(g.pipeline);
    WellFormedKeepsTheValue(g.tickets);
    WellFormedKeepsTheValue(g.records);
    var a := NewAnswer(turns, fed, ask, seesAll, g, q);
    if g.customerIds.Some? {
      var ids := SortedInts(Elements(g.customerIds.value));
      assert a.customerIds == IntList(ids) && Elements(ids) == Elements(g.customerIds.value);
    }
  }

  /** A plain one stores nothing at all. */
  lemma UnfedPlainStores(turns: seq<Turn>, fed: seq<Seen>, seesAll: bool, g: Grounding, q: nat)
    requires InRange(turns, fed) && forall k | 0 <= k < |fed| :: !Heard(turns, fed[k])
    ensures NewAnswer(turns, fed, Null, seesAll, g, q) == Answer(Some(q), Null, Null, Null, Null, None, g.sources)
  {
    NothingWalked(turns, fed, false, |fed|);
  }

  /** Stored ids are read back as a set exactly when they are a list of whole numbers. */
  lemma StoredIdsAre(v: Json, ids: set<int>)
    ensures StoredIds(v) == Some(ids) <==> exists ns :: v == IntList(ns) && Elements(ns) == ids
  {
    if StoredIds(v) == Some(ids) {
      assert IntList(Ints(v.items)).items == v.items;
      assert v == IntList(Ints(v.items));
    }
  }
}
