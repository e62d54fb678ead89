/** The credit taken before a model call and given back when the call fails
    (`services/billing/credits.py`, `get_completion` in `services/copilot/anthropic_client.py`). */
module Credits {
  import opened PyText
  import opened Ledger

  const CALL: string := "call:"
  const REFUND_SUFFIX: string := ":refund"
  const UUID_LENGTH: nat := 36

  /** `BILLING_CREDITS_PER_MODEL_CALL` and `BILLING_ENFORCED`. */
  datatype Settings = Settings(cost: int, enforced: bool)

  datatype Charge = Taken | NotTaken | Exhausted

  function ChargeReference(uuid: string): string {
    CALL + uuid
  }

  function RefundReference(uuid: string): string {
    ChargeReference(uuid) + REFUND_SUFFIX
  }

  function ChargeMove(s: Settings, uuid: string): Movement {
    ToConsume(s.cost, "model call", ChargeReference(uuid))
  }

  function RefundMove(s: Settings, uuid: string): Movement {
    ToRefund(s.cost, "refund: failed model call", RefundReference(uuid))
  }

  /** `charge`, for an organisation. */
  function ChargeOutcome(rows: seq<Row>, s: Settings, uuid: string): Charge {
    if s.cost <= 0 then NotTaken
    else
      match Post(rows, ChargeMove(s, uuid)).outcome
      case Applied(_) => Taken
      case Refused(DuplicateReference) => Taken
      case _ => if s.enforced then Exhausted else NotTaken
  }

  function Charged(rows: seq<Row>, s: Settings, uuid: string): seq<Row> {
    if s.cost <= 0 then rows else Post(rows, ChargeMove(s, uuid)).rows
  }

  /** `refund`, for an organisation. */
  function Refunded(rows: seq<Row>, s: Settings, uuid: string): seq<Row> {
    if s.cost <= 0 then rows else Post(rows, RefundMove(s, uuid)).rows
  }

  // ---------------------------------------------------------------- calls in flight

  /** Where a call stands, and whether it was charged. */
  datatype Call = InFlight(charged: bool) | Succeeded(charged: bool) | Failed(charged: bool) | Denied

  datatype State = State(rows: seq<Row>, calls: map<string, Call>)

  datatype Step =
    | Begin(uuid: string)             // the charge, before the call is made
    | Finish(uuid: string, ok: bool)  // the call came back, or failed, or no client could be built
    | RefundAgain(uuid: string)       // a refund of a failed call, repeated
    | Other(m: Movement)              // any other movement on the account

  /** A fresh identifier per call, and no other movement uses the calls' references. */
  predicate Possible(st: State, step: Step) {
    match step
    case Begin(uuid) => |uuid| == UUID_LENGTH && uuid !in st.calls
    case Finish(uuid, _) => uuid in st.calls && st.calls[uuid].InFlight?
    case RefundAgain(uuid) => uuid in st.calls && st.calls[uuid] == Failed(true)
    case Other(m) => !StartsWith(ReferenceOf(m), CALL)
  }

  function Apply(st: State, s: Settings, step: Step): State
    requires Possible(st, step)
  {
    match step
    case Begin(uuid) =>
      (match ChargeOutcome(st.rows, s, uuid)
       case Taken => State(Charged(st.rows, s, uuid), st.calls[uuid := InFlight(true)])
       case NotTaken => State(Charged(st.rows, s, uuid), st.calls[uuid := InFlight(false)])
       case Exhausted => State(Charged(st.rows, s, uuid), st.calls[uuid := Denied]))
    case Finish(uuid, ok) =>
      var charged := st.calls[uuid].charged;
      if ok then st.(calls := st.calls[uuid := Succeeded(charged)])
      else State(if charged then Refunded(st.rows, s, uuid) else st.rows, st.calls[uuid := Failed(charged)])
    case RefundAgain(uuid) => st.(rows := Refunded(st.rows, s, uuid))
    case Other(m) => st.(rows := Post(st.rows, m).rows)
  }

  ghost predicate Reaches(st: State, s: Settings, steps: seq<Step>, last: State)
    decreases |steps|
  {
    if steps == [] then last == st
    else Possible(st, steps[0]) && Reaches(Apply(st, s, steps[0]), s, steps[1..], last)
  }

  // ---------------------------------------------------------------- what the calls cost

  /** What the rows of model calls come to. */
  function CallTotal(rows: seq<Row>): int {
    if rows == [] then 0
    else
      var last := rows[|rows| - 1];
      CallTotal(rows[..|rows| - 1]) + (if StartsWith(last.reference, CALL) then last.amount else 0)
  }

  /** The calls that hold a charge: still in flight, or answered. */
  function Paying(calls: map<string, Call>): set<string> {
    set u | u in calls && (calls[u] == InFlight(true) || calls[u] == Succeeded(true))
  }

  /** A call's reference is stored once the call was charged, and its refund's once it failed. */
  ghost predicate Tracked(st: State, uuid: string) {
    && (Stored(st.rows, ChargeReference(uuid)) ==>
          uuid in st.calls && !st.calls[uuid].Denied? && st.calls[uuid].charged)
    && (Stored(st.rows, RefundReference(uuid)) ==> uuid in st.calls && st.calls[uuid] == Failed(true))
    && (uuid in st.calls && st.calls[uuid] == Failed(true) ==> Stored(st.rows, RefundReference(uuid)))
  }

  ghost predicate Inv(st: State, s: Settings) {
    && Sound(st.rows)
    && (forall u | u in st.calls :: |u| == UUID_LENGTH && (s.cost <= 0 ==> st.calls[u].Denied? || !st.calls[u].charged))
    && (forall u: string | |u| == UUID_LENGTH :: Tracked(st, u))
    && Tallied(st, s.cost)
  }

  ghost predicate Tallied(st: State, cost: int) {
    CallTotal(st.rows) == -cost * |Paying(st.calls)|
  }

  lemma ReferencesDiffer(u: string, v: string)
    requires |u| == |v| == UUID_LENGTH
    ensures ChargeReference(u) == ChargeReference(v) ==> u == v
    ensures RefundReference(u) == RefundReference(v) ==> u == v
    ensures ChargeReference(u) != RefundReference(v)
    ensures |RefundReference(u)| <= REFERENCE_LENGTH
    ensures StartsWith(ChargeReference(u), CALL) && StartsWith(RefundReference(u), CALL)
  {
    assert ChargeReference(u)[|CALL|..] == u && ChargeReference(v)[|CALL|..] == v;
    assert RefundReference(u)[..|CALL| + UUID_LENGTH] == ChargeReference(u);
    assert RefundReference(v)[..|CALL| + UUID_LENGTH] == ChargeReference(v);
    assert ChargeReference(u)[..|CALL|] == CALL;
  }

  lemma RowAppends(rows: seq<Row>, row: Row)
    ensures CallTotal(rows + [row]) == CallTotal(rows) + (if StartsWith(row.reference, CALL) then row.amount else 0)
    ensures forall r :: Stored(rows + [row], r) <==> Stored(rows, r) || row.reference == r
  {
    var after := rows + [row];
    assert after[..|rows|] == rows;
    forall r ensures Stored(after, r) <==> Stored(rows, r) || row.reference == r {
      if Stored(rows, r) {
        var i :| 0 <= i < |rows| && rows[i].reference == r;
        assert after[i].reference == r;
      }
      assert after[|rows|] == row;
    }
  }

  /** A movement that is not a call's moves no call's reference and no call's total. */
  lemma OtherKeepsInv(st: State, s: Settings, m: Movement)
    requires Inv(st, s) && Possible(st, Other(m))
    ensures Inv(Apply(st, s, Other(m)), s)
  {
    var p := Post(st.rows, m);
    PostAppends(st.rows, m);
    PostKeepsSound(st.rows, m);
    if p.outcome.Applied? {
      var row := p.outcome.row;
      RowAppends(st.rows, row);
      ClipKeepsPrefix(ReferenceOf(m));
      forall u: string | |u| == UUID_LENGTH ensures Tracked(Apply(st, s, Other(m)), u) {
        ReferencesDiffer(u, u);
        assert Tracked(st, u);
      }
    }
  }

  lemma ClipKeepsPrefix(reference: string)
    ensures StartsWith(Clip(reference, REFERENCE_LENGTH), CALL) <==> StartsWith(reference, CALL)
  {
    if |reference| > REFERENCE_LENGTH {
      assert reference[..REFERENCE_LENGTH][..|CALL|] == reference[..|CALL|];
    }
  }

  /** An unused reference that fits its column is recorded whenever the balance allows it. */
  lemma UnusedIsApplied(rows: seq<Row>, kind: Kind, amount: int, reason: string, reference: string)
    requires Balance(rows) + amount >= 0 && |reference| <= REFERENCE_LENGTH && !Stored(rows, reference)
    ensures var p := Append(rows, kind, amount, reason, reference);
      && p.outcome.Applied? && p.rows == rows + [p.outcome.row]
      && p.outcome.row.amount == amount && p.outcome.row.reference == reference
  {
  }

  /** A fresh call's charge is taken exactly when it is affordable, as one row of minus the cost. */
  lemma FreshCharge(st: State, s: Settings, uuid: string)
    requires Inv(st, s) && Possible(st, Begin(uuid)) && s.cost > 0
    ensures var rows := Charged(st.rows, s, uuid);
      if Balance(st.rows) >= s.cost then
        && ChargeOutcome(st.rows, s, uuid) == Taken && Sound(rows)
        && exists row: Row :: rows == st.rows + [row] && row.amount == -s.cost && row.reference == ChargeReference(uuid)
      else
        rows == st.rows && ChargeOutcome(st.rows, s, uuid) == if s.enforced then Exhausted else NotTaken
  {
    ReferencesDiffer(uuid, uuid);
    assert Tracked(st, uuid);
    if Balance(st.rows) >= s.cost {
      PostKeepsSound(st.rows, ChargeMove(s, uuid));
      UnusedIsApplied(st.rows, Consume, -s.cost, ChargeMove(s, uuid).reason, ChargeReference(uuid));
    }
  }

  lemma ChargeIsTracked(st: State, uuid: string, row: Row, after: State, u: string)
    requires |u| == |uuid| == UUID_LENGTH && Tracked(st, u) && Tracked(st, uuid) && uuid !in st.calls
    requires row.reference == ChargeReference(uuid)
    requires after == State(st.rows + [row], st.calls[uuid := InFlight(true)])
    ensures Tracked(after, u)
  {
    RowAppends(st.rows, row);
    ReferencesDiffer(u, uuid);
    ReferencesDiffer(uuid, u);
  }

  lemma RefundIsTracked(st: State, uuid: string, row: Row, after: State, u: string)
    requires |u| == |uuid| == UUID_LENGTH && Tracked(st, u)
    requires uuid in st.calls && st.calls[uuid] == InFlight(true)
    requires row.reference == RefundReference(uuid)
    requires after == State(st.rows + [row], st.calls[uuid := Failed(true)])
    ensures Tracked(after, u)
  {
    RowAppends(st.rows, row);
    ReferencesDiffer(u, uuid);
  }

  lemma ChargeIsTallied(st: State, cost: int, uuid: string, row: Row, calls: map<string, Call>)
    requires Tallied(st, cost) && uuid !in st.calls
    requires row.amount == -cost && StartsWith(row.reference, CALL) && calls == st.calls[uuid := InFlight(true)]
    ensures Tallied(State(st.rows + [row], calls), cost)
  {
    RowAppends(st.rows, row);
    assert Paying(calls) == Paying(st.calls) + {uuid};
    assert -cost * (|Paying(st.calls)| + 1) == -cost * |Paying(st.calls)| - cost;
  }

  lemma RefundIsTallied(st: State, cost: int, uuid: string, row: Row, calls: map<string, Call>)
    requires Tallied(st, cost)
    requires uuid in st.calls && st.calls[uuid] == InFlight(true)
    requires row.amount == cost && StartsWith(row.reference, CALL) && calls == st.calls[uuid := Failed(true)]
    ensures Tallied(State(st.rows + [row], calls), cost)
  {
    RowAppends(st.rows, row);
    assert Paying(st.calls) == Paying(calls) + {uuid};
    assert -cost * (|Paying(calls)| + 1) == -cost * |Paying(calls)| - cost;
  }

  /** A row written for the call `uuid` takes it from `st` to `after`. */
  ghost predicate Writes(st: State, after: State, uuid: string, amount: int, reference: string, call: Call) {
    && Sound(after.rows)
    && after.calls == st.calls[uuid := call]
    && exists row: Row :: after.rows == st.rows + [row] && row.amount == amount && row.reference == reference
  }

  lemma ChargeKeepsInv(st: State, s: Settings, uuid: string, after: State)
    requires Inv(st, s) && |uuid| == UUID_LENGTH && uuid !in st.calls && s.cost > 0
    requires Writes(st, after, uuid, -s.cost, ChargeReference(uuid), InFlight(true))
    ensures Inv(after, s)
  {
    var row: Row :| after.rows == st.rows + [row] && row.amount == -s.cost && row.reference == ChargeReference(uuid);
    ReferencesDiffer(uuid, uuid);
    ChargeIsTallied(st, s.cost, uuid, row, after.calls);
    forall u: string | |u| == UUID_LENGTH ensures Tracked(after, u) {
      assert Tracked(st, u) && Tracked(st, uuid);
      ChargeIsTracked(st, uuid, row, after, u);
    }
  }

  lemma RefundKeepsInv(st: State, s: Settings, uuid: string, after: State)
    requires Inv(st, s) && uuid in st.calls && st.calls[uuid] == InFlight(true)
    requires Writes(st, after, uuid, s.cost, RefundReference(uuid), Failed(true))
    ensures Inv(after, s)
  {
    var row: Row :| after.rows == st.rows + [row] && row.amount == s.cost && row.reference == RefundReference(uuid);
    ReferencesDiffer(uuid, uuid);
    RefundIsTallied(st, s.cost, uuid, row, after.calls);
    forall u: string | |u| == UUID_LENGTH ensures Tracked(after, u) {
      assert Tracked(st, u);
      RefundIsTracked(st, uuid, row, after, u);
    }
  }

  /** A step of a call that writes no row and leaves it holding the charge it held. */
  lemma NoRowKeepsInv(st: State, s: Settings, uuid: string, call: Call)
    requires Inv(st, s) && |uuid| == UUID_LENGTH
    requires if uuid in st.calls
      then st.calls[uuid].InFlight? && !call.Denied? && st.calls[uuid].charged == call.charged
      else call.Denied? || !call.charged
    requires call != Failed(true) && call != InFlight(true)
    ensures Inv(State(st.rows, st.calls[uuid := call]), s)
  {
    var after := State(st.rows, st.calls[uuid := call]);
    assert Tallied(after, s.cost) by {
      assert Tracked(st, uuid);
      assert Paying(after.calls) == Paying(st.calls);
    }
    forall u: string | |u| == UUID_LENGTH ensures Tracked(after, u) {
      assert Tracked(st, u) && Tracked(st, uuid);
    }
  }

  lemma BeginKeepsInv(st: State, s: Settings, uuid: string)
    requires Inv(st, s) && Possible(st, Begin(uuid))
    ensures Inv(Apply(st, s, Begin(uuid)), s)
  {
    if s.cost > 0 {
      FreshCharge(st, s, uuid);
    }
    if s.cost > 0 && Balance(st.rows) >= s.cost {
      ChargeKeepsInv(st, s, uuid, Apply(st, s, Begin(uuid)));
    } else {
      NoRowKeepsInv(st, s, uuid, if s.cost > 0 && s.enforced then Denied else InFlight(false));
    }
  }

  /** The refund of a charged call in flight is always recorded. */
  lemma FirstRefund(st: State, s: Settings, uuid: string)
    requires Inv(st, s) && uuid in st.calls && st.calls[uuid] == InFlight(true)
    ensures var rows := Refunded(st.rows, s, uuid);
      && s.cost > 0 && Sound(rows)
      && exists row: Row :: rows == st.rows + [row] && row.amount == s.cost && row.reference == RefundReference(uuid)
  {
    ReferencesDiffer(uuid, uuid);
    assert Tracked(st, uuid);
    BalanceIsTotal(st.rows);
    PostKeepsSound(st.rows, RefundMove(s, uuid));
    UnusedIsApplied(st.rows, Refund, s.cost, RefundMove(s, uuid).reason, RefundReference(uuid));
  }

  lemma FinishKeepsInv(st: State, s: Settings, uuid: string, ok: bool)
    requires Inv(st, s) && Possible(st, Finish(uuid, ok))
    ensures Inv(Apply(st, s, Finish(uuid, ok)), s)
  {
    var charged := st.calls[uuid].charged;
    if charged && !ok {
      FirstRefund(st, s, uuid);
      RefundKeepsInv(st, s, uuid, Apply(st, s, Finish(uuid, ok)));
    } else {
      NoRowKeepsInv(st, s, uuid, if ok then Succeeded(charged) else Failed(charged));
    }
  }

  /** A refund repeated changes nothing, however often and whenever. */
  lemma RepeatedRefundIsNothing(st: State, s: Settings, uuid: string)
    requires Inv(st, s) && Possible(st, RefundAgain(uuid))
    ensures Apply(st, s, RefundAgain(uuid)) == st
  {
    ReferencesDiffer(uuid, uuid);
    assert Tracked(st, uuid);
    StoredIsNotApplied(st.rows, RefundMove(s, uuid));
  }

  lemma StepKeepsInv(st: State, s: Settings, step: Step)
    requires Inv(st, s) && Possible(st, step)
    ensures Inv(Apply(st, s, step), s)
  {
    match step
    case Begin(uuid) => BeginKeepsInv(st, s, uuid);
    case Finish(uuid, ok) => FinishKeepsInv(st, s, uuid, ok);
    case RefundAgain(uuid) => RepeatedRefundIsNothing(st, s, uuid);
    case Other(m) => OtherKeepsInv(st, s, m);
  }

  lemma {:induction false} RunKeepsInv(st: State, s: Settings, steps: seq<Step>, last: State)
    requires Inv(st, s) && Reaches(st, s, steps, last)
    ensures Inv(last, s)
    decreases |steps|
  {
    if steps != [] {
      StepKeepsInv(st, s, steps[0]);
      RunKeepsInv(Apply(st, s, steps[0]), s, steps[1..], last);
    }
  }

  /** Rows that no call wrote: what an account holds before its first call. */
  ghost predicate NoCalls(rows: seq<Row>) {
    Sound(rows) && forall i | 0 <= i < |rows| :: !StartsWith(rows[i].reference, CALL)
  }

  lemma {:induction false} NoCallsTotal(rows: seq<Row>)
    requires forall i | 0 <= i < |rows| :: !StartsWith(rows[i].reference, CALL)
    ensures CallTotal(rows) == 0
  {
    if rows != [] {
      NoCallsTotal(rows[..|rows| - 1]);
    }
  }

  function Answered(calls: map<string, Call>): set<string> {
    set u | u in calls && calls[u] == Succeeded(true)
  }

  /** Over any interleaving of calls with the account's other movements, the calls move the ledger by exactly
      minus the cost for each charged call still in flight or answered; when none is in flight, by minus the
      cost for each one answered. The balance is never negative. */
  lemma CallsCostWhatTheyAnswer(rows: seq<Row>, s: Settings, steps: seq<Step>, last: State)
    requires NoCalls(rows) && Reaches(State(rows, map[]), s, steps, last)
    ensures CallTotal(last.rows) == -s.cost * |Paying(last.calls)|
    ensures (forall u | u in last.calls :: !last.calls[u].InFlight?)
        ==> CallTotal(last.rows) == -s.cost * |Answered(last.calls)|
    ensures Balance(last.rows) == Total(last.rows) >= 0
  {
    var first := State(rows, map[]);
    NoCallsTotal(rows);
    forall u: string | |u| == UUID_LENGTH ensures Tracked(first, u) {
      ReferencesDiffer(u, u);
    }
    assert Paying(first.calls) == {};
    RunKeepsInv(first, s, steps, last);
    BalanceIsTotal(last.rows);
    if forall u | u in last.calls :: !last.calls[u].InFlight? {
      assert Paying(last.calls) == Answered(last.calls);
    }
  }

  /** A charge that was recorded already is taken as it stands, and costs nothing more. */
  lemma RepeatedChargeIsNothing(rows: seq<Row>, s: Settings, uuid: string)
    requires Sound(rows) && |uuid| == UUID_LENGTH && 0 < s.cost <= Balance(rows)
    requires Stored(rows, ChargeReference(uuid))
    ensures ChargeOutcome(rows, s, uuid) == Taken && Charged(rows, s, uuid) == rows
  {
    assert |ChargeReference(uuid)| == 41;
  }
}
