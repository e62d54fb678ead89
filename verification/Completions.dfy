/** One model call from start to end (`get_completion` in `services/copilot/anthropic_client.py`), with the
    model an oracle that answers or fails. */
module Completions {
  import opened Orders
  import opened Ledger
  import opened Credits

  datatype Reply = Answer(text: string) | OverBudget | NotConfigured | RequestFailed

  /** The `outcome` of the audit row of a call. */
  datatype Logged = LoggedOk | LoggedOverBudget | LoggedUnconfigured | LoggedFailed

  function LogOf(r: Reply): Logged {
    match r
    case Answer(_) => LoggedOk
    case OverBudget => LoggedOverBudget
    case NotConfigured => LoggedUnconfigured
    case RequestFailed => LoggedFailed
  }

  /** A call's references are new to the account: `uuid4` never repeats. */
  ghost predicate Fresh(rows: seq<Row>, uuid: string) {
    |uuid| == UUID_LENGTH && !Stored(rows, ChargeReference(uuid)) && !Stored(rows, RefundReference(uuid))
  }

  /** Whether this call is charged: there is a cost, and the balance covers it. */
  predicate Affordable(rows: seq<Row>, s: Settings) {
    0 < s.cost <= Balance(rows)
  }

  lemma ChargeOfFresh(rows: seq<Row>, s: Settings, uuid: string)
    requires Sound(rows) && Fresh(rows, uuid)
    ensures var after := Charged(rows, s, uuid);
      && Sound(after) && rows <= after && !Stored(after, RefundReference(uuid))
      && (Affordable(rows, s) ==> |after| == |rows| + 1 && Balance(after) == Balance(rows) - s.cost)
      && (!Affordable(rows, s) ==> after == rows)
      && (ChargeOutcome(rows, s, uuid) == Taken <==> Affordable(rows, s))
      && (ChargeOutcome(rows, s, uuid) == Exhausted <==> s.enforced && Balance(rows) < s.cost && s.cost > 0)
  {
    ReferencesDiffer(uuid, uuid);
    if s.cost > 0 {
      PostKeepsSound(rows, ChargeMove(s, uuid));
      if s.cost <= Balance(rows) {
        UnusedIsApplied(rows, Consume, -s.cost, ChargeMove(s, uuid).reason, ChargeReference(uuid));
        RowAppends(rows, Post(rows, ChargeMove(s, uuid)).outcome.row);
        PostAppends(rows, ChargeMove(s, uuid));
      }
    }
  }

  lemma RefundOfFresh(rows: seq<Row>, s: Settings, uuid: string)
    requires Sound(rows) && |uuid| == UUID_LENGTH && !Stored(rows, RefundReference(uuid)) && s.cost > 0
    ensures var after := Refunded(rows, s, uuid);
      Sound(after) && rows <= after && |after| == |rows| + 1 && Balance(after) == Balance(rows) + s.cost
  {
    ReferencesDiffer(uuid, uuid);
    BalanceIsTotal(rows);
    PostKeepsSound(rows, RefundMove(s, uuid));
    UnusedIsApplied(rows, Refund, s.cost, RefundMove(s, uuid).reason, RefundReference(uuid));
    PostAppends(rows, RefundMove(s, uuid));
  }

  class ModelClient {
    var ledger: CreditLedger
    var log: seq<Logged>

    constructor (account: CreditLedger)
      ensures ledger == account && log == []
    {
      ledger := account;
      log := [];
    }

    /** `credits.charge`, for an organisation. */
    method TakeCharge(s: Settings, uuid: string) returns (c: Charge)
      modifies ledger
      ensures c == ChargeOutcome(old(ledger.rows), s, uuid) && ledger.rows == Charged(old(ledger.rows), s, uuid)
    {
      if s.cost <= 0 {
        return NotTaken;
      }
      var r := ledger.PostConsume(s.cost, "model call", ChargeReference(uuid));
      if r.Applied? || r == Refused(DuplicateReference) {
        return Taken;
      }
      c := if s.enforced then Exhausted else NotTaken;
    }

    /** `credits.refund`, for an organisation: a refusal is swallowed. */
    method GiveBack(s: Settings, uuid: string)
      modifies ledger
      ensures ledger.rows == Refunded(old(ledger.rows), s, uuid)
    {
      if s.cost > 0 {
        var _ := ledger.PostRefund(s.cost, "refund: failed model call", RefundReference(uuid));
      }
    }

    /** `get_completion`: refused for want of budget or credits before anything is sent; a failed call costs
        nothing, an answered one costs its charge when the balance covered it; one audit row per call. */
    method GetCompletion(organisation: bool, remaining: int, s: Settings, uuid: string, built: bool,
        response: Option<string>) returns (reply: Reply)
      requires Sound(ledger.rows) && Fresh(ledger.rows, uuid)
      modifies this`log, ledger
      ensures reply == OverBudget
           <==> organisation && (remaining <= 0 || (s.enforced && s.cost > 0 && old(Balance(ledger.rows)) < s.cost))
      ensures reply == OverBudget ==> ledger.rows == old(ledger.rows)
      ensures reply != OverBudget
          ==> reply == if !built then NotConfigured
                       else if response.None? then RequestFailed else Answer(response.value)
      ensures Sound(ledger.rows) && old(ledger.rows) <= ledger.rows
      ensures Balance(ledger.rows) == old(Balance(ledger.rows))
        - (if organisation && reply.Answer? && old(Affordable(ledger.rows, s)) then s.cost else 0)
      ensures !organisation ==> ledger.rows == old(ledger.rows)
      ensures log == old(log) + [LogOf(reply)]
      ensures LogOf(reply) == if reply.Answer? then LoggedOk
                              else if reply == OverBudget then LoggedOverBudget
                              else if !built then LoggedUnconfigured else LoggedFailed
    {
      if organisation && remaining <= 0 {
        log := log + [LoggedOverBudget];
        return OverBudget;
      }
      var charged := false;
      if organisation {
        ChargeOfFresh(ledger.rows, s, uuid);
        var c := TakeCharge(s, uuid);
        if c == Exhausted {
          log := log + [LoggedOverBudget];
          return OverBudget;
        }
        charged := c == Taken;
      }
      if !built || response.None? {
        log := log + [if !built then LoggedUnconfigured else LoggedFailed];
        if charged {
          RefundOfFresh(ledger.rows, s, uuid);
          GiveBack(s, uuid);
        }
        return if !built then NotConfigured else RequestFailed;
      }
      log := log + [LoggedOk];
      reply := Answer(response.value);
    }
  }
}
