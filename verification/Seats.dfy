/** The seats of an account: who holds one, how many are open, and what may change that, one request at a time
    (`services/billing/seats.py`, `services/billing/accounts.py`, `services/billing/signals.py`). */
module Seats {
  import opened Orders
  import opened PyText
  import opened Ledger

  /** A `SeatAssignment`: open until it is released. */
  datatype Seat = Seat(membership: nat, open: bool)

  function Used(seats: seq<Seat>): nat {
    if seats == [] then 0 else Used(seats[..|seats| - 1]) + (if seats[|seats| - 1].open then 1 else 0)
  }

  predicate HasOpen(seats: seq<Seat>, membership: nat) {
    exists i :: 0 <= i < |seats| && seats[i] == Seat(membership, true)
  }

  /** `one_open_seat_per_membership`. */
  ghost predicate OneOpenEach(seats: seq<Seat>) {
    forall i, j | 0 <= i < j < |seats| :: seats[i].open && seats[j].open ==> seats[i].membership != seats[j].membership
  }

  predicate Full(seats: seq<Seat>, limit: nat) {
    Used(seats) >= limit
  }

  function CloseFor(seat: Seat, membership: nat): Seat {
    Seat(seat.membership, seat.open && seat.membership != membership)
  }

  /** `release`: every open seat of the membership is closed. */
  function Closed(seats: seq<Seat>, membership: nat): (r: seq<Seat>)
    ensures |r| == |seats| && forall i | 0 <= i < |seats| :: r[i] == CloseFor(seats[i], membership)
  {
    seq(|seats|, i requires 0 <= i < |seats| => CloseFor(seats[i], membership))
  }

  lemma {:induction false} ClosedHas(seats: seq<Seat>, membership: nat, m: nat)
    ensures HasOpen(Closed(seats, membership), m) <==> HasOpen(seats, m) && m != membership
    ensures OneOpenEach(seats) ==> OneOpenEach(Closed(seats, membership))
  {
    var r := Closed(seats, membership);
    if HasOpen(seats, m) && m != membership {
      var i :| 0 <= i < |seats| && seats[i] == Seat(m, true);
      assert r[i] == Seat(m, true);
    }
    if i :| 0 <= i < |seats| && r[i] == Seat(m, true) {
      assert seats[i] == Seat(m, true) && m != membership;
    }
  }

  lemma ClosedAppends(seats: seq<Seat>, seat: Seat, membership: nat)
    ensures Closed(seats + [seat], membership) == Closed(seats, membership) + [CloseFor(seat, membership)]
  {
  }

  /** Releasing frees the one seat the membership holds, if it holds one. */
  lemma {:induction false} ClosedFrees(seats: seq<Seat>, membership: nat)
    requires OneOpenEach(seats)
    ensures Used(Closed(seats, membership)) == Used(seats) - (if HasOpen(seats, membership) then 1 else 0)
  {
    if seats != [] {
      var n := |seats| - 1;
      assert seats == seats[..n] + [seats[n]];
      ClosedFrees(seats[..n], membership);
      ClosedFreesLast(seats[..n], seats[n], membership);
    }
  }

  lemma ClosedFreesLast(first: seq<Seat>, last: Seat, membership: nat)
    requires OneOpenEach(first + [last])
    requires Used(Closed(first, membership)) == Used(first) - (if HasOpen(first, membership) then 1 else 0)
    ensures Used(Closed(first + [last], membership))
         == Used(first + [last]) - (if HasOpen(first + [last], membership) then 1 else 0)
  {
    ClosedAppends(first, last, membership);
    UsedAppends(Closed(first, membership), CloseFor(last, membership));
    UsedAppends(first, last);
    OpenAtLast(first, last, membership);
  }

  /** The last seat is the membership's one open seat, or the one before it is. */
  lemma OpenAtLast(first: seq<Seat>, last: Seat, membership: nat)
    requires OneOpenEach(first + [last])
    ensures HasOpen(first + [last], membership) <==> HasOpen(first, membership) || last == Seat(membership, true)
    ensures !(HasOpen(first, membership) && last == Seat(membership, true))
  {
    OpenAppends(first, last, membership);
    if last == Seat(membership, true) {
      forall i | 0 <= i < |first| ensures first[i] != Seat(membership, true) {
        assert (first + [last])[i] == first[i] && (first + [last])[|first|] == last;
      }
    }
  }

  lemma UsedAppends(seats: seq<Seat>, seat: Seat)
    ensures Used(seats + [seat]) == Used(seats) + (if seat.open then 1 else 0)
  {
    assert (seats + [seat])[..|seats|] == seats;
  }

  lemma OpenAppends(seats: seq<Seat>, seat: Seat, m: nat)
    ensures HasOpen(seats + [seat], m) <==> HasOpen(seats, m) || seat == Seat(m, true)
  {
    var after := seats + [seat];
    if i :| 0 <= i < |seats| && seats[i] == Seat(m, true) {
      assert after[i] == Seat(m, true);
    }
    assert after[|seats|] == seat;
  }

  lemma SeatAppends(seats: seq<Seat>, seat: Seat)
    ensures Used(seats + [seat]) == Used(seats) + (if seat.open then 1 else 0)
    ensures forall m :: HasOpen(seats + [seat], m) <==> HasOpen(seats, m) || seat == Seat(m, true)
    ensures OneOpenEach(seats) && !HasOpen(seats, seat.membership) ==> OneOpenEach(seats + [seat])
  {
    UsedAppends(seats, seat);
    forall m ensures HasOpen(seats + [seat], m) <==> HasOpen(seats, m) || seat == Seat(m, true) {
      OpenAppends(seats, seat, m);
    }
  }

  // ---------------------------------------------------------------- one request at a time

  datatype Refusal = InsufficientSeats | SeatsInUse | InvalidSeats | SeatsReasonRequired

  datatype Plan = Plan(code: string, seatsIncluded: nat, monthlyCredits: nat, isTrial: bool)

  class BillingAccount {
    var plan: Plan
    var trialing: bool
    var limit: nat
    var seats: seq<Seat>
    const ledger: CreditLedger

    ghost predicate Valid()
      reads this, ledger
    {
      OneOpenEach(seats) && Sound(ledger.rows)
    }

    constructor (trial: Plan)
      ensures Valid() && fresh(ledger) && ledger.rows == []
      ensures plan == trial && trialing && limit == trial.seatsIncluded && seats == []
    {
      plan, trialing, limit, seats := trial, true, trial.seatsIncluded, [];
      ledger := new CreditLedger();
    }

    /** `used`: the open rows. */
    method CountUsed() returns (n: nat)
      ensures n == Used(seats)
    {
      n := 0;
      for i := 0 to |seats|
        invariant n == Used(seats[..i])
      {
        assert seats[..i + 1][..i] == seats[..i];
        n := n + (if seats[i].open then 1 else 0);
      }
      assert seats[..|seats|] == seats;
    }

    /** `allocate`: a member who holds a seat keeps it; a full account refuses when enforcing. */
    method Allocate(membership: nat, enforce: bool) returns (refused: Option<Refusal>)
      requires Valid()
      modifies this`seats
      ensures Valid()
      ensures refused.Some? <==> !old(HasOpen(seats, membership)) && enforce && old(Full(seats, limit))
      ensures refused.Some? ==> refused.value == InsufficientSeats
      ensures refused.Some? || old(HasOpen(seats, membership)) ==> seats == old(seats)
      ensures refused.None? && !old(HasOpen(seats, membership)) ==> seats == old(seats) + [Seat(membership, true)]
      ensures refused.None? ==> HasOpen(seats, membership)
      ensures enforce && seats != old(seats) ==> Used(seats) == old(Used(seats)) + 1 <= limit
    {
      if HasOpen(seats, membership) {
        return None;
      }
      var n := CountUsed();
      if enforce && n >= limit {
        return Some(InsufficientSeats);
      }
      SeatAppends(seats, Seat(membership, true));
      seats := seats + [Seat(membership, true)];
      refused := None;
    }

    /** `reserve`: the check alone. */
    method Reserve(enforce: bool) returns (refused: Option<Refusal>)
      ensures refused == if enforce && Full(seats, limit) then Some(InsufficientSeats) else None
    {
      var n := CountUsed();
      refused := if enforce && n >= limit then Some(InsufficientSeats) else None;
    }

    /** `release`: how many were closed. */
    method Release(membership: nat) returns (n: nat)
      requires Valid()
      modifies this`seats
      ensures Valid()
      ensures seats == Closed(old(seats), membership) && !HasOpen(seats, membership)
      ensures n == (if old(HasOpen(seats, membership)) then 1 else 0) && Used(seats) == old(Used(seats)) - n
    {
      ClosedFrees(seats, membership);
      ClosedHas(seats, membership, membership);
      n := if HasOpen(seats, membership) then 1 else 0;
      seats := Closed(seats, membership);
    }

    /** `set_seats`: never below the seats in use. */
    method SetSeats(n: int, reason: string) returns (refused: Option<Refusal>)
      modifies this`limit
      ensures refused.None? <==> Strip(reason) != "" && n >= Used(seats)
      ensures limit == if refused.None? then n else old(limit)
      ensures refused == Some(InvalidSeats) <==> n < 0
      ensures refused == Some(SeatsReasonRequired) <==> n >= 0 && Strip(reason) == ""
      ensures refused.None? ==> Used(seats) <= limit
    {
      if n < 0 {
        return Some(InvalidSeats);
      }
      if Strip(reason) == "" {
        return Some(SeatsReasonRequired);
      }
      var inUse := CountUsed();
      if n < inUse {
        return Some(SeatsInUse);
      }
      limit := n;
      refused := None;
    }

    /** `change_plan`: the plan's allowance whatever is in use, and its credits unless the reference was
        recorded already; any other refusal of the grant undoes the change. */
    method ChangePlan(to: Plan, reference: string) returns (done: bool)
      requires Valid() && reference != ""
      modifies this`plan, this`trialing, this`limit, ledger
      ensures Valid()
      ensures !done
         <==> to.monthlyCredits > 0 && |reference| > REFERENCE_LENGTH
              && old(Stored(ledger.rows, Clip(reference, REFERENCE_LENGTH)))
      ensures done ==> plan == to && trialing == to.isTrial && limit == to.seatsIncluded
      ensures !done ==> plan == old(plan) && trialing == old(trialing) && limit == old(limit)
      ensures Balance(ledger.rows) == old(Balance(ledger.rows))
        + (if old(Stored(ledger.rows, Clip(reference, REFERENCE_LENGTH))) then 0 else to.monthlyCredits)
      ensures old(ledger.rows) <= ledger.rows
      ensures done && to.monthlyCredits > 0 ==> Stored(ledger.rows, Clip(reference, REFERENCE_LENGTH))
    {
      var grant := ToGrant(to.monthlyCredits, "credits for this period", reference);
      var r := Nothing;
      ghost var before := ledger.rows;
      if to.monthlyCredits > 0 {
        PostKeepsSound(ledger.rows, grant);
        PostAppends(ledger.rows, grant);
        BalanceIsTotal(ledger.rows);
        r := ledger.PostGrant(to.monthlyCredits, grant.reason, reference);
        if r.Refused? && r != Refused(DuplicateReference) {
          return false;
        }
        assert r.Applied? ==> ledger.rows[|before|] == r.row;
      }
      plan, trialing, limit := to, to.isTrial, to.seatsIncluded;
      done := true;
    }
  }

  const TRIAL: string := "trial:"

  /** An organisation, and its account once it has one. */
  class Organisation {
    const id: string
    var account: BillingAccount?

    constructor (id: string)
      ensures this.id == id && account == null
    {
      this.id, account := id, null;
    }

    /** `ensure`: the account there is, untouched, or a new one on the trial with its credits, granted this once. */
    method Ensure(trial: Plan) returns (a: BillingAccount)
      modifies this`account
      ensures account == a
      ensures old(account) != null ==> a == old(account)
      ensures old(account) == null ==> fresh(a) && fresh(a.ledger) && a.Valid() && a.seats == []
      ensures old(account) == null ==> a.plan == trial && a.trialing && a.limit == trial.seatsIncluded
      ensures old(account) == null ==> Balance(a.ledger.rows) == trial.monthlyCredits && |a.ledger.rows| <= 1
    {
      if account != null {
        return account;
      }
      a := new BillingAccount(trial);
      if trial.monthlyCredits > 0 {
        var grant := ToGrant(trial.monthlyCredits, "trial credits", TRIAL + id);
        PostKeepsSound(a.ledger.rows, grant);
        PostAppends(a.ledger.rows, grant);
        var _ := a.ledger.PostGrant(trial.monthlyCredits, grant.reason, grant.reference);
      }
      account := a;
    }
  }

  /** The seats in use are the open rows. */
  lemma {:induction false} UsedCounts(seats: seq<Seat>)
    ensures Used(seats) == |set i | 0 <= i < |seats| && seats[i].open|
  {
    var all := set i | 0 <= i < |seats| && seats[i].open;
    if seats != [] {
      var n := |seats| - 1;
      UsedCounts(seats[..n]);
      var front := set i | 0 <= i < |seats[..n]| && seats[..n][i].open;
      assert all == front + (if seats[n].open then {n} else {});
    }
  }
}
