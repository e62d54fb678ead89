/** Credit movements: an append-only ledger with running balances and idempotency keys
    (`services/billing/ledger.py`, `CreditLedger` in `services/billing/models.py`). */
module Ledger {
  import opened PyText

  const REASON_LENGTH: nat := 255
  const REFERENCE_LENGTH: nat := 160

  datatype Kind = Grant | Consume | Refund | Adjust | Expire

  datatype Row = Row(kind: Kind, amount: int, balanceAfter: int, reason: string, reference: string)

  datatype Error = InsufficientCredits | DuplicateReference | InvalidAmount | ReasonRequired | Integrity

  datatype Outcome = Applied(row: Row) | Refused(error: Error) | Nothing

  datatype Posted = Posted(rows: seq<Row>, outcome: Outcome)

  datatype Movement =
    | ToGrant(amount: int, reason: string, reference: string)
    | ToConsume(amount: int, reason: string, reference: string)
    | ToRefund(amount: int, reason: string, reference: string)
    | ToAdjust(amount: int, reason: string)
    | ToExpire(reason: string, reference: string)

  function Clip(s: string, n: nat): string {
    if |s| <= n then s else s[..n]
  }

  function Balance(rows: seq<Row>): int {
    if rows == [] then 0 else rows[|rows| - 1].balanceAfter
  }

  predicate Stored(rows: seq<Row>, reference: string) {
    exists i :: 0 <= i < |rows| && rows[i].reference == reference
  }

  /** `_append`: the balance is looked at first, then the one-row-per-reference constraint. */
  function Append(rows: seq<Row>, kind: Kind, amount: int, reason: string, reference: string): Posted {
    var stored := Clip(reference, REFERENCE_LENGTH);
    if Balance(rows) + amount < 0 then Posted(rows, Refused(InsufficientCredits))
    else if stored != "" && Stored(rows, stored) then
      Posted(rows, Refused(if Stored(rows, reference) then DuplicateReference else Integrity))
    else
      var row := Row(kind, amount, Balance(rows) + amount, Clip(reason, REASON_LENGTH), stored);
      Posted(rows + [row], Applied(row))
  }

  function Post(rows: seq<Row>, m: Movement): Posted {
    match m
    case ToGrant(amount, reason, reference) =>
      if amount <= 0 then Posted(rows, Refused(InvalidAmount)) else Append(rows, Grant, amount, reason, reference)
    case ToConsume(amount, reason, reference) =>
      if amount <= 0 then Posted(rows, Refused(InvalidAmount)) else Append(rows, Consume, -amount, reason, reference)
    case ToRefund(amount, reason, reference) => Append(rows, Refund, amount, reason, reference)
    case ToAdjust(amount, reason) =>
      if amount == 0 then Posted(rows, Refused(InvalidAmount))
      else if Strip(reason) == "" then Posted(rows, Refused(ReasonRequired))
      else Append(rows, Adjust, amount, reason, "")
    case ToExpire(reason, reference) =>
      if Balance(rows) <= 0 then Posted(rows, Nothing) else Append(rows, Expire, -Balance(rows), reason, reference)
  }

  function ReferenceOf(m: Movement): string {
    if m.ToAdjust? then "" else m.reference
  }

  function PostAll(rows: seq<Row>, moves: seq<Movement>): seq<Row>
    decreases |moves|
  {
    if moves == [] then rows else PostAll(Post(rows, moves[0]).rows, moves[1..])
  }

  // ---------------------------------------------------------------- the book

  /** What the amounts of the rows come to. */
  function Total(rows: seq<Row>): int {
    if rows == [] then 0 else Total(rows[..|rows| - 1]) + rows[|rows| - 1].amount
  }

  /** Running balances that are never negative, and no reference twice or longer than its column. */
  ghost predicate Sound(rows: seq<Row>) {
    && (forall i | 0 <= i < |rows| :: Runs(rows, i) && |rows[i].reference| <= REFERENCE_LENGTH)
    && (forall i, j | 0 <= i < j < |rows| :: rows[i].reference == rows[j].reference ==> rows[i].reference == "")
  }

  ghost predicate Runs(rows: seq<Row>, i: nat)
    requires i < |rows|
  {
    rows[i].balanceAfter == Total(rows[..i + 1]) && rows[i].balanceAfter >= 0
  }

  lemma BalanceIsTotal(rows: seq<Row>)
    requires Sound(rows)
    ensures Balance(rows) == Total(rows) >= 0
  {
    if rows != [] {
      assert Runs(rows, |rows| - 1);
      assert rows[..|rows|] == rows;
    }
  }

  /** What one movement leaves: the same rows, or the same rows and the row it reports. */
  lemma PostAppends(rows: seq<Row>, m: Movement)
    ensures var p := Post(rows, m);
      if p.outcome.Applied? then
        && p.rows == rows + [p.outcome.row]
        && p.outcome.row.balanceAfter == Balance(rows) + p.outcome.row.amount >= 0
        && (p.outcome.row.reference != "" ==> !Stored(rows, p.outcome.row.reference))
        && p.outcome.row.reference == Clip(ReferenceOf(m), REFERENCE_LENGTH)
      else p.rows == rows
  {
  }

  /** The kind of the row that a movement writes. */
  predicate Writes(m: Movement, kind: Kind) {
    (m.ToGrant? <==> kind == Grant) && (m.ToConsume? <==> kind == Consume) && (m.ToRefund? <==> kind == Refund)
    && (m.ToAdjust? <==> kind == Adjust) && (m.ToExpire? <==> kind == Expire)
  }

  /** An applied movement writes a row of its kind that moves the balance by what was asked for: up by a grant or a
      refund, either way by an adjustment, down by a charge, and to nothing by an expiry. */
  lemma AppliedMovesBy(rows: seq<Row>, m: Movement)
    requires Post(rows, m).outcome.Applied?
    ensures var p := Post(rows, m); var row := p.outcome.row;
      && p.rows == rows + [row] && Writes(m, row.kind)
      && Balance(p.rows) == row.balanceAfter == Balance(rows) + row.amount
      && (m.ToGrant? ==> Balance(p.rows) == Balance(rows) + m.amount > Balance(rows))
      && (m.ToConsume? ==> Balance(p.rows) == Balance(rows) - m.amount < Balance(rows))
      && (m.ToRefund? ==> Balance(p.rows) == Balance(rows) + m.amount)
      && (m.ToAdjust? ==> Balance(p.rows) == Balance(rows) + m.amount != Balance(rows))
      && (m.ToExpire? ==> Balance(p.rows) == 0 < Balance(rows))
  {
  }

  /** What a reason is stored as: its beginning, all of it when it fits. */
  lemma ReasonIsKept(rows: seq<Row>, m: Movement)
    requires Post(rows, m).outcome.Applied?
    ensures var row := Post(rows, m).outcome.row;
      && row.reason <= m.reason && |row.reason| <= 255 && (|m.reason| <= 255 ==> row.reason == m.reason)
      && row.reference <= ReferenceOf(m) && |row.reference| <= 160
      && (|ReferenceOf(m)| <= 160 ==> row.reference == ReferenceOf(m))
      && (m.ToAdjust? ==> row.reference == "")
  {
  }

  /** Whether the balance can take what the movement asks for. */
  predicate BalanceCovers(rows: seq<Row>, m: Movement) {
    match m
    case ToGrant(_, _, _) => true
    case ToConsume(amount, _, _) => amount <= Balance(rows)
    case ToRefund(amount, _, _) => -amount <= Balance(rows)
    case ToAdjust(amount, _) => -amount <= Balance(rows)
    case ToExpire(_, _) => true
  }

  /** Whether the amount asked for is one the movement takes. */
  predicate TakesAmount(m: Movement) {
    (m.ToGrant? || m.ToConsume? ==> m.amount >= 1) && (m.ToAdjust? ==> m.amount < 0 || m.amount > 0)
  }

  /** Every outcome, exactly: an amount that is not taken, then an adjustment without a reason, then nothing left to
      expire, then a balance that would go negative, then a reference that was used, refuse it, in this order. */
  lemma OutcomeIsExact(rows: seq<Row>, m: Movement)
    requires Sound(rows)
    ensures var o := Post(rows, m).outcome;
      var blank := m.ToAdjust? && Strip(m.reason) == "";
      var empty := m.ToExpire? && Balance(rows) == 0;
      var used := ReferenceOf(m) != "" && Stored(rows, Clip(ReferenceOf(m), REFERENCE_LENGTH));
      && (o == Refused(InvalidAmount) <==> !TakesAmount(m))
      && (o == Refused(ReasonRequired) <==> TakesAmount(m) && blank)
      && (o == Nothing <==> empty)
      && (o == Refused(InsufficientCredits) <==> TakesAmount(m) && !blank && !empty && !BalanceCovers(rows, m))
      && (o == Refused(DuplicateReference) <==>
            TakesAmount(m) && !blank && !empty && BalanceCovers(rows, m) && used && |ReferenceOf(m)| <= 160)
      && (o == Refused(Integrity) <==>
            TakesAmount(m) && !blank && !empty && BalanceCovers(rows, m) && used && |ReferenceOf(m)| > 160)
      && (o.Applied? <==> TakesAmount(m) && !blank && !empty && BalanceCovers(rows, m) && !used)
  {
    BalanceIsTotal(rows);
    if |ReferenceOf(m)| > REFERENCE_LENGTH {
      assert !Stored(rows, ReferenceOf(m));
    }
  }

  lemma RunsStill(rows: seq<Row>, row: Row, i: nat)
    requires i < |rows| && Runs(rows, i)
    ensures Runs(rows + [row], i)
  {
    assert (rows + [row])[..i + 1] == rows[..i + 1];
  }

  lemma RunsNext(rows: seq<Row>, row: Row)
    requires row.balanceAfter == Total(rows) + row.amount >= 0
    ensures Runs(rows + [row], |rows|)
  {
    var after := rows + [row];
    assert after[..|rows| + 1] == after && after[..|rows|] == rows;
  }

  lemma NextRowKeepsSound(rows: seq<Row>, row: Row)
    requires Sound(rows) && row.balanceAfter == Balance(rows) + row.amount >= 0
    requires |row.reference| <= REFERENCE_LENGTH && (row.reference != "" ==> !Stored(rows, row.reference))
    ensures Sound(rows + [row])
  {
    BalanceIsTotal(rows);
    RunsNext(rows, row);
    forall i | 0 <= i < |rows| ensures Runs(rows + [row], i) {
      assert Runs(rows, i);
      RunsStill(rows, row, i);
    }
  }

  lemma PostKeepsSound(rows: seq<Row>, m: Movement)
    requires Sound(rows)
    ensures Sound(Post(rows, m).rows)
  {
    PostAppends(rows, m);
    if Post(rows, m).outcome.Applied? {
      NextRowKeepsSound(rows, Post(rows, m).outcome.row);
    }
  }

  /** Over any movements, applied, refused or replayed: balances run and never go negative, no reference is
      used twice, and no row already there changes. */
  lemma {:induction false} RunKeepsBook(rows: seq<Row>, moves: seq<Movement>)
    requires Sound(rows)
    ensures Sound(PostAll(rows, moves)) && rows <= PostAll(rows, moves)
    ensures Balance(PostAll(rows, moves)) == Total(PostAll(rows, moves)) >= 0
    decreases |moves|
  {
    if moves == [] {
      BalanceIsTotal(rows);
    } else {
      PostKeepsSound(rows, moves[0]);
      PostAppends(rows, moves[0]);
      RunKeepsBook(Post(rows, moves[0]).rows, moves[1..]);
    }
  }

  /** From an account with no rows. */
  lemma EveryBookIsSound(moves: seq<Movement>)
    ensures Sound(PostAll([], moves))
  {
    RunKeepsBook([], moves);
  }

  /** When a replayed movement is reported as a duplicate. */
  predicate FoundOut(rows: seq<Row>, m: Movement) {
    && |ReferenceOf(m)| <= REFERENCE_LENGTH
    && (m.ToGrant? ==> m.amount > 0)
    && (m.ToConsume? ==> 0 < m.amount <= Balance(rows))
    && (m.ToRefund? ==> Balance(rows) + m.amount >= 0)
    && (m.ToExpire? ==> Balance(rows) > 0)
  }

  lemma StoredIsNotApplied(rows: seq<Row>, m: Movement)
    requires Sound(rows) && ReferenceOf(m) != "" && Stored(rows, Clip(ReferenceOf(m), REFERENCE_LENGTH))
    ensures Post(rows, m).rows == rows && !Post(rows, m).outcome.Applied?
    ensures Post(rows, m).outcome == Refused(DuplicateReference) <==> FoundOut(rows, m)
  {
    BalanceIsTotal(rows);
    assert Stored(rows, ReferenceOf(m)) <==> |ReferenceOf(m)| <= REFERENCE_LENGTH;
  }

  /** Once a reference has been recorded, no movement with it is ever applied again, whatever came between;
      it is reported as a duplicate exactly when the reference fits its column, the amount is valid
      and the balance allows it. */
  lemma ReplayIsNotApplied(rows: seq<Row>, first: Movement, between: seq<Movement>, again: Movement)
    requires Sound(rows) && Post(rows, first).outcome.Applied?
    requires ReferenceOf(first) == ReferenceOf(again) != ""
    ensures var later := PostAll(Post(rows, first).rows, between);
      && Post(later, again).rows == later && !Post(later, again).outcome.Applied?
      && (Post(later, again).outcome == Refused(DuplicateReference) <==> FoundOut(later, again))
  {
    var p := Post(rows, first);
    var later := PostAll(p.rows, between);
    PostAppends(rows, first);
    PostKeepsSound(rows, first);
    RunKeepsBook(p.rows, between);
    assert later[|rows|] == p.rows[|rows|] == p.outcome.row;
    StoredIsNotApplied(later, again);
  }

  /** Expiry leaves nothing, unless it is the replay of an earlier one. */
  lemma ExpiryEmpties(rows: seq<Row>, reason: string, reference: string)
    requires Sound(rows)
    ensures Balance(Post(rows, ToExpire(reason, reference)).rows) == 0
         <==> Balance(rows) == 0 || reference == "" || !Stored(rows, Clip(reference, REFERENCE_LENGTH))
  {
    BalanceIsTotal(rows);
  }

  // ---------------------------------------------------------------- the table

  /** The rows of one account. */
  class CreditLedger {
    var rows: seq<Row>

    constructor ()
      ensures rows == []
    {
      rows := [];
    }

    method HasReference(reference: string) returns (found: bool)
      ensures found <==> Stored(rows, reference)
    {
      found := false;
      for i := 0 to |rows|
        invariant found <==> exists j :: 0 <= j < i && rows[j].reference == reference
      {
        found := found || rows[i].reference == reference;
      }
    }

    /** `_append`: insert, let the unique constraint refuse, and then say why. */
    method AppendRow(kind: Kind, amount: int, reason: string, reference: string) returns (r: Outcome)
      modifies this
      ensures Posted(rows, r) == Append(old(rows), kind, amount, reason, reference)
    {
      var after := Balance(rows) + amount;
      if after < 0 {
        return Refused(InsufficientCredits);
      }
      var row := Row(kind, amount, after, Clip(reason, REASON_LENGTH), Clip(reference, REFERENCE_LENGTH));
      var clash := HasReference(row.reference);
      if row.reference != "" && clash {
        var exact := HasReference(reference);
        return Refused(if exact then DuplicateReference else Integrity);
      }
      rows := rows + [row];
      r := Applied(row);
    }

    method PostGrant(amount: int, reason: string, reference: string) returns (r: Outcome)
      modifies this
      ensures Posted(rows, r) == Post(old(rows), ToGrant(amount, reason, reference))
    {
      if amount <= 0 {
        return Refused(InvalidAmount);
      }
      r := AppendRow(Grant, amount, reason, reference);
    }

    method PostConsume(amount: int, reason: string, reference: string) returns (r: Outcome)
      modifies this
      ensures Posted(rows, r) == Post(old(rows), ToConsume(amount, reason, reference))
    {
      if amount <= 0 {
        return Refused(InvalidAmount);
      }
      r := AppendRow(Consume, -amount, reason, reference);
    }

    method PostRefund(amount: int, reason: string, reference: string) returns (r: Outcome)
      modifies this
      ensures Posted(rows, r) == Post(old(rows), ToRefund(amount, reason, reference))
    {
      r := AppendRow(Refund, amount, reason, reference);
    }

    method PostAdjust(amount: int, reason: string) returns (r: Outcome)
      modifies this
      ensures Posted(rows, r) == Post(old(rows), ToAdjust(amount, reason))
    {
      if amount == 0 {
        return Refused(InvalidAmount);
      }
      if Strip(reason) == "" {
        return Refused(ReasonRequired);
      }
      r := AppendRow(Adjust, amount, reason, "");
    }

    method PostExpire(reason: string, reference: string) returns (r: Outcome)
      modifies this
      ensures Posted(rows, r) == Post(old(rows), ToExpire(reason, reference))
    {
      var current := Balance(rows);
      if current <= 0 {
        return Nothing;
      }
      r := AppendRow(Expire, -current, reason, reference);
    }
  }
}
