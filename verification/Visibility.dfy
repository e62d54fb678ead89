/** What a partial reader is shown, in terms of who wrote a turn, whom it is addressed to and what a reply stores
    (`services/copilot/views.py`). */
module Visibility {
  import opened Orders
  import opened PyText
  import opened Snapshots
  import opened Conversations

  // ---------------------------------------------------------------- which turns

  ghost predicate InSlice(r: Reader, turns: seq<Turn>, i: nat) {
    exists k :: 0 <= k < |PartialView(r, turns)| && PartialView(r, turns)[k].turn == i
  }

  predicate AddressedTo(r: Reader, i: nat, u: UserId) {
    i in r.addressed && u in r.addressed[i]
  }

  /** A partial reader gets a question if and only if it is their own, or is addressed to them or to somebody who
      reports to them, or is addressed to nobody and its author is within their scope or gone. */
  lemma QuestionIsShownIff(r: Reader, turns: seq<Turn>, i: nat)
    requires i < |turns| && turns[i].Question?
    ensures InSlice(r, turns, i)
       <==> || turns[i].author == Some(r.id)
            || (exists u :: u in r.mine && AddressedTo(r, i, u))
            || ((forall u :: !AddressedTo(r, i, u))
                && (turns[i].author.None? || turns[i].author.value in r.allowed))
  {
    SliceIsInView(r, turns, i);
    AddressedIff(r, i);
    assert InSlice(r, turns, i) <==> Admitted(r, i, turns[i].author);
  }

  lemma SliceIsInView(r: Reader, turns: seq<Turn>, i: nat)
    requires i < |turns|
    ensures InSlice(r, turns, i) <==> InView(turns, Verdicts(r, turns), i)
  {
    PartialViewShape(r, turns);
  }

  lemma AddressedIff(r: Reader, i: nat)
    ensures var targets := if i in r.addressed then r.addressed[i] else {};
      && (targets != {} <==> exists u :: AddressedTo(r, i, u))
      && (targets * r.mine != {} <==> exists u :: u in r.mine && AddressedTo(r, i, u))
  {
    var targets := if i in r.addressed then r.addressed[i] else {};
    if targets != {} {
      var u := Pick(targets);
      assert AddressedTo(r, i, u);
    }
    if targets * r.mine != {} {
      var u := Pick(targets * r.mine);
      assert u in r.mine && AddressedTo(r, i, u);
    }
    if u :| u in r.mine && AddressedTo(r, i, u) {
      assert u in targets * r.mine;
    }
  }

  /** They get a reply if and only if they get the question nearest before it. */
  lemma ReplyIsShownIff(r: Reader, turns: seq<Turn>, i: nat)
    requires i < |turns| && turns[i].Reply?
    ensures InSlice(r, turns, i)
       <==> exists q :: NearestBefore(turns, q, i) && InSlice(r, turns, q)
  {
    SliceIsInView(r, turns, i);
    var last := LastQuestion(turns, i);
    if last.Some? {
      assert NearestBefore(turns, last.value, i);
      SliceIsInView(r, turns, last.value);
    }
    if q :| NearestBefore(turns, q, i) && InSlice(r, turns, q) {
      assert last == Some(q);
    }
  }

  ghost predicate NearestBefore(turns: seq<Turn>, q: int, i: nat) {
    0 <= q < i <= |turns| && turns[q].Question? && forall j | q < j < i :: turns[j].Reply?
  }

  // ---------------------------------------------------------------- which records

  /** A record filed on a company is readable only by who may open the company, and a record with a rule of its own
      only by who may read it; one deleted since passes, but for opportunities and risks. */
  lemma RecordIsReadableIff(r: Reader, s: Source, kind: string, id: nat, company: int)
    requires s.kind == Text(kind) && Names(s.id, id) && id > 0 && s.companyId == Int(company)
    ensures SourceReadable(r, s)
       <==> && (s.companyType == Text("customer") ==> company in r.customers)
            && (s.companyType == Text("account") ==> company in r.accounts)
            && (kind in {"contribution", "email", "note", "ticket", "task", "opportunity", "risk"} ==>
                  || (kind in r.readable && id in r.readable[kind])
                  || (!(kind in r.existing && id in r.existing[kind]) && kind != "opportunity" && kind != "risk"))
  {
    RecordKinds(kind);
  }

  /** A record's id is a number, or its digits. */
  predicate Names(v: Json, id: nat) {
    v == Int(id) || (v.Text? && IsDigits(v.s) && DigitsValue(v.s) == id)
  }

  lemma RecordKinds(kind: string)
    ensures kind in RECORD_KINDS
       <==> kind in {"contribution", "email", "note", "ticket", "task", "opportunity", "risk"}
    ensures kind in MISSING_IS_UNREADABLE <==> kind == "opportunity" || kind == "risk"
  {
    var k := RECORD_KINDS;
    assert k[0] == "contribution" && k[1] == "email" && k[2] == "note" && k[3] == "ticket" && k[4] == "task";
    assert k[5] == "opportunity" && k[6] == "risk";
    var m := MISSING_IS_UNREADABLE;
    assert m[0] == "opportunity" && m[1] == "risk";
  }

  /** A record id that is no positive whole number, as a number or in digits, names no record: nobody reads it. */
  lemma NamelessRecordIsUnread(r: Reader, s: Source)
    requires IsOneOf(s.kind, RECORD_KINDS)
    requires match s.id case Int(n) => n <= 0 case Text(t) => !IsDigits(t) || DigitsValue(t) == 0 case _ => true
    ensures !SourceReadable(r, s)
  {
  }

  /** Every record that a reply cites or quotes is readable, and its quoted ones can be read at all. */
  ghost predicate RecordsOpen(r: Reader, a: Answer) {
    && (a.records == Null || a.records == UNKNOWN || WellFormedRecords(a.records).Some?)
    && (forall s | s in a.sources :: SourceReadable(r, s))
    && (WellFormedRecords(a.records).Some? ==>
          forall ref: Ref | ref in WellFormedRecords(a.records).value ::
            SourceReadable(r, Source(Text(ref.kind), Int(ref.id), Text(ref.companyType), Int(ref.companyId))))
  }

  // ---------------------------------------------------------------- which replies, with their words

  /** A reader who is in the team of every department, or leads. */
  predicate InDepartments(r: Reader, departments: seq<string>) {
    r.leadership || forall i | 0 <= i < |departments| :: departments[i] in {"", r.team}
  }

  /** What a reply's snapshots, flag and ids ask of a reader who did not ask for it. Nothing but the customers, the
      flag, the pipeline and the accounts is waived for one who sees everything. */
  ghost predicate SnapshotsOpen(r: Reader, a: Answer, context: Json) {
    && StoredIds(a.customerIds).Some? && RecordsOf(a, context).Some?
    && (TicketsOf(a, context).None? ==> r.seesEverything && r.leadership)
    && (TicketsOf(a, context).Some? ==> InDepartments(r, TicketsOf(a, context).value.departments))
    && (r.seesEverything
        || (&& (forall c | c in StoredIds(a.customerIds).value :: c in r.customers)
            && a.carries == Some(false)
            && PipelineOf(a, context).Some? && InDepartments(r, PipelineOf(a, context).value.departments)
            && (forall n | n in PipelineOf(a, context).value.accounts :: n in r.accounts)
            && TicketsOf(a, context).Some?
            && (forall n | n in TicketsOf(a, context).value.accounts :: n in r.accounts)))
  }

  lemma SnapshotsAreOpenIff(r: Reader, a: Answer, context: Json)
    ensures SnapshotReadable(r, a, context) <==> SnapshotsOpen(r, a, context)
  {
    var tickets, pipeline := TicketsOf(a, context), PipelineOf(a, context);
    if tickets.Some? {
      DepartmentsOpenIff(r, tickets.value.departments);
      AccountsOpenIff(r, tickets.value.accounts);
    }
    if pipeline.Some? {
      DepartmentsOpenIff(r, pipeline.value.departments);
      AccountsOpenIff(r, pipeline.value.accounts);
    }
  }

  lemma DepartmentsOpenIff(r: Reader, departments: seq<string>)
    ensures DepartmentsReadable(r, departments) <==> InDepartments(r, departments)
  {
    if DepartmentsReadable(r, departments) && !r.leadership {
      forall i | 0 <= i < |departments| ensures departments[i] in {"", r.team} {
        assert departments[i] in departments;
      }
    }
  }

  lemma AccountsOpenIff(r: Reader, accounts: seq<int>)
    ensures Elements(accounts) <= r.accounts <==> forall n | n in accounts :: n in r.accounts
  {
    assert forall n :: n in accounts <==> n in Elements(accounts);
    if forall n | n in accounts :: n in r.accounts {
      assert forall n | n in Elements(accounts) :: n in r.accounts;
    }
  }

  lemma RecordsAreOpenIff(r: Reader, a: Answer)
    ensures RecordsOpen(r, a)
       <==> (a.records == Null || a.records == UNKNOWN || WellFormedRecords(a.records).Some?) && RefsReadable(r, a)
  {
  }

  ghost predicate TextFilters(context: Json)
    requires context.Dict?
  {
    "filters" in context.fields ==>
      var f := context.fields["filters"]; f.Dict? && forall k | k in f.fields :: f.fields[k].Text?
  }

  predicate OnASurface(context: Json)
    requires context.Dict?
  {
    Get(context, "surface") in {Text("dashboard"), Text("organizations"), Text("contacts"), Text("accounts"),
                                Text("pipelines")}
  }

  lemma SurfacesAre(context: Json)
    requires context.Dict?
    ensures IsOneOf(Get(context, "surface"), SURFACES) <==> OnASurface(context)
  {
    var s := SURFACES;
    assert s[0] == "dashboard" && s[1] == "organizations" && s[2] == "contacts" && s[3] == "accounts";
    assert s[4] == "pipelines";
  }

  /** An Ask reply is read by its asker if and only if the context is an object and they are still in the
      organisation. */
  lemma AskerReadsIff(r: Reader, a: Answer, context: Json)
    requires Truthy(context)
    ensures ReadableBy(r, a, Some(Question(Some(r.id), context))) <==> context.Dict? && r.id !in r.elsewhere
  {
  }

  /** And by anybody else if and only if its asker is known and still in the organisation, the context is one this
      code wrote, and its ids, flag, snapshots and records are all open to them. */
  lemma OtherReadsAskIff(r: Reader, a: Answer, q: Turn)
    requires q.Question? && Truthy(q.context) && q.author != Some(r.id)
    ensures ReadableBy(r, a, Some(q))
       <==> && (exists u :: q.author == Some(u) && u !in r.elsewhere)
            && q.context.Dict? && OnASurface(q.context) && TextFilters(q.context)
            && SnapshotsOpen(r, a, q.context) && RecordsOpen(r, a)
  {
    SnapshotsAreOpenIff(r, a, q.context);
    RecordsAreOpenIff(r, a);
    if q.context.Dict? {
      SurfacesAre(q.context);
    }
    if ReadableBy(r, a, Some(q)) {
      assert q.author == Some(q.author.value) && q.author.value !in r.elsewhere;
    }
  }

  /** A plain reply that is not marked is read by whoever may read its records, and one that is marked by nobody
      whose asker is unknown or gone, by its asker with its records, and by others with its snapshots too. */
  lemma PlainIsReadIff(r: Reader, a: Answer, q: Turn)
    requires q.Question? && !Truthy(q.context)
    ensures ReadableBy(r, a, Some(q))
       <==> && RecordsOpen(r, a)
            && (a.carries.Some? ==>
                  && (exists u :: q.author == Some(u) && u !in r.elsewhere)
                  && (q.author != Some(r.id) ==> SnapshotsOpen(r, a, q.context)))
  {
    SnapshotsAreOpenIff(r, a, q.context);
    RecordsAreOpenIff(r, a);
    if q.author.Some? {
      assert q.author == Some(q.author.value);
    }
  }

  /** Every Ask-shaped reply shown with its words to a partial reader answers a question whose author is known and
      still in the organisation. */
  lemma ShownHasAnAsker(r: Reader, turns: seq<Turn>, k: nat)
    requires WellFormed(turns) && k < |PartialView(r, turns)|
    requires var e := PartialView(r, turns)[k];
      e.turn < |turns| && turns[e.turn].Reply? && !e.withheld
      && Marked(turns[e.turn].answer, AnsweredContext(turns, e.turn))
    ensures exists q, u :: Answered(turns, PartialView(r, turns)[k].turn) == Some(q) && q < |turns|
                           && turns[q].Question? && turns[q].author == Some(u) && u !in r.elsewhere
  {
    PartialViewShape(r, turns);
    var i := PartialView(r, turns)[k].turn;
    assert InView(turns, Verdicts(r, turns), i);
    var q := Answered(turns, i).value;
    assert turns[q].Question? && QuestionAt(turns, Some(q)) == Some(turns[q]);
    assert ReadableBy(r, turns[i].answer, Some(turns[q]));
    assert turns[q].author.Some? && turns[q].author.value !in r.elsewhere;
  }

  // ---------------------------------------------------------------- what a missing snapshot reads as

  /** Beside a dashboard question, a missing pipeline is unknown in the areas that carry pipeline, a missing ticket
      snapshot in those that count tickets or on a support focus, and nothing quoted is missed. */
  lemma MissingOnTheDashboard(a: Answer, context: Json, area: string)
    requires context.Dict? && Get(context, "surface") == Text("dashboard") && Get(context, "area") == Text(area)
    requires a.pipeline == Null && a.tickets == Null && a.records == Null
    ensures PipelineOf(a, context) == if area == "overview" || area == "revenue" then None else Some(Counted([], []))
    ensures TicketsOf(a, context)
         == if area == "overview" || area == "support" || OnSupport(context) then None else Some(Counted([], []))
    ensures RecordsOf(a, context) == Some([])
  {
    assert "surface" in context.fields;
    assert PIPELINE_AREAS[0] == "overview" && PIPELINE_AREAS[1] == "revenue";
    assert TICKET_AREAS[0] == "overview" && TICKET_AREAS[1] == "support";
  }

  /** A focus on one of the support items that need attention. */
  predicate OnSupport(context: Json)
    requires context.Dict?
  {
    match Get(context, "focus")
    case Dict(f) => "kind" in f && f["kind"] == Text("attention") && "key" in f && IsSupportKey(f["key"])
    case _ => false
  }

  predicate IsSupportKey(key: Json) {
    key.Text? && |key.s| >= 8 && key.s[..8] == "support:"
  }

  /** On the other surfaces: Organizations never carried pipeline, its list quoted nothing, its pages did, and it
      counted tickets; Contacts, Accounts and Pipelines are younger than the snapshots. */
  lemma MissingElsewhere(a: Answer, context: Json, surface: string)
    requires context.Dict? && Get(context, "surface") == Text(surface)
    requires surface in {"organizations", "contacts", "accounts", "pipelines"}
    requires a.pipeline == Null && a.tickets == Null && a.records == Null
    ensures PipelineOf(a, context)
         == if surface == "accounts" || surface == "pipelines" then None else Some(Counted([], []))
    ensures TicketsOf(a, context) == None
    ensures RecordsOf(a, context)
         == if surface != "organizations" || Get(context, "view") == Text("detail") then None else Some([])
  {
    assert "surface" in context.fields;
    var three := ["contacts", "accounts", "pipelines"];
    assert three[0] == "contacts" && three[1] == "accounts" && three[2] == "pipelines";
    var two := ["accounts", "pipelines"];
    assert two[0] == "accounts" && two[1] == "pipelines";
    var four := ["organizations", "contacts", "accounts", "pipelines"];
    assert four[0] == "organizations" && four[1] == "contacts" && four[2] == "accounts" && four[3] == "pipelines";
  }

  /** Beside a plain question everything missing is unknown. */
  lemma MissingBesideAPlainQuestion(a: Answer, context: Json)
    requires !Truthy(context) && a.pipeline == Null && a.tickets == Null && a.records == Null
    ensures PipelineOf(a, context) == None && TicketsOf(a, context) == None && RecordsOf(a, context) == None
  {
  }

  /** A stored snapshot that is not one is unknown on every surface. */
  lemma MalformedIsUnknown(a: Answer, context: Json)
    ensures a.pipeline != Null && (forall c :: a.pipeline != EncodeCounted(c)) ==> PipelineOf(a, context) == None
    ensures a.tickets != Null && (forall c :: a.tickets != EncodeCounted(c)) ==> TicketsOf(a, context) == None
  {
    MalformedCounted(a.pipeline);
    MalformedCounted(a.tickets);
  }

  lemma MalformedCounted(v: Json)
    ensures WellFormedCounted(v).Some? ==> exists c :: v == EncodeCounted(c)
  {
    if WellFormedCounted(v).Some? {
      WellFormedKeepsTheValue(v);
      assert v == EncodeCounted(WellFormedCounted(v).value);
    }
  }

  /** What Python takes for false. */
  lemma FalsyValues(v: Json)
    ensures !Truthy(v)
       <==> v in {Null, Bool(false), Int(0), Float(0.0), Text(""), List([]), Dict(map[])}
  {
  }
}
