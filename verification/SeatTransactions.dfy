/** Seat admissions as interleaved transactions on one account (`services/billing/seats.py`,
    `services/billing/accounts.py`, `services/billing/signals.py`, `services/accounts/views.py`): each takes the
    account's row lock and holds it to its end, and sees what is committed. `release` takes no lock. */
module SeatTransactions {
  import opened Orders
  import opened Seats

  datatype Job =
    | Allocating(membership: nat, enforce: bool)  // `allocate`
    | Reserving(membership: nat, enforce: bool)   // `reserve`, then the insert that follows the saved membership
    | SettingSeats(n: nat)                        // `set_seats`
    | ChangingPlan(n: nat)                        // `change_plan`

  datatype Outcome = Seated | AlreadySeated | Refused | LimitSet | RolledBack

  datatype Phase =
    | Waiting                // for the lock
    | Holding                // the lock, and nothing decided
    | Reserved               // the check passed
    | Staged(adds: bool)     // ready to commit, with or without a new seat
    | Over(outcome: Outcome)

  datatype Txn = Txn(job: Job, phase: Phase)

  /** What is committed, who holds the lock, and the transactions. */
  datatype State = State(seats: seq<Seat>, limit: nat, lock: Option<nat>, txns: map<nat, Txn>)

  datatype Step =
    | Begin(t: nat, job: Job)
    | Lock(t: nat)
    | Check(t: nat)
    | Insert(t: nat)
    | Commit(t: nat)
    | RollBack(t: nat)
    | Release(membership: nat)

  predicate Admits(job: Job) {
    job.Allocating? || job.Reserving?
  }

  predicate In(st: State, t: nat, phase: Phase) {
    t in st.txns && st.txns[t].phase == phase
  }

  predicate HasLock(phase: Phase) {
    phase.Holding? || phase.Reserved? || phase.Staged?
  }

  predicate Possible(st: State, step: Step) {
    match step
    case Begin(t, _) => t !in st.txns
    case Lock(t) => In(st, t, Waiting) && st.lock.None?
    case Check(t) => In(st, t, Holding)
    case Insert(t) => In(st, t, Reserved) && Admits(st.txns[t].job)
    case Commit(t) => t in st.txns && st.txns[t].phase.Staged?
    case RollBack(t) => t in st.txns && !st.txns[t].phase.Over?
    case Release(_) => true
  }

  function Moved(st: State, t: nat, phase: Phase): State
    requires t in st.txns
  {
    st.(txns := st.txns[t := Txn(st.txns[t].job, phase)])
  }

  function Ended(st: State, t: nat, outcome: Outcome): State
    requires t in st.txns
  {
    Moved(if HasLock(st.txns[t].phase) then st.(lock := None) else st, t, Over(outcome))
  }

  /** `allocate` under the lock: keep a seat already open, refuse when full, or add one. */
  function Allocated(st: State, t: nat, membership: nat, enforce: bool): State
    requires t in st.txns
  {
    if HasOpen(st.seats, membership) then Moved(st, t, Staged(false))
    else if enforce && Full(st.seats, st.limit) then Ended(st, t, Refused)
    else Moved(st, t, Staged(true))
  }

  function Checked(st: State, t: nat): State
    requires In(st, t, Holding)
  {
    match st.txns[t].job
    case Allocating(m, enforce) => Allocated(st, t, m, enforce)
    case Reserving(_, enforce) =>
      if enforce && Full(st.seats, st.limit) then Ended(st, t, Refused) else Moved(st, t, Reserved)
    case SettingSeats(n) => if n < Used(st.seats) then Ended(st, t, Refused) else Moved(st, t, Staged(false))
    case ChangingPlan(_) => Moved(st, t, Staged(false))
  }

  function Committed(st: State, t: nat): State
    requires t in st.txns && st.txns[t].phase.Staged?
  {
    match st.txns[t].job
    case Allocating(m, _) => CommittedSeat(st, t, m)
    case Reserving(m, _) => CommittedSeat(st, t, m)
    case SettingSeats(n) => Ended(st.(limit := n), t, LimitSet)
    case ChangingPlan(n) => Ended(st.(limit := n), t, LimitSet)
  }

  function CommittedSeat(st: State, t: nat, m: nat): State
    requires t in st.txns && st.txns[t].phase.Staged?
  {
    if st.txns[t].phase.adds then Ended(st.(seats := st.seats + [Seat(m, true)]), t, Seated)
    else Ended(st, t, AlreadySeated)
  }

  function Apply(st: State, step: Step): State
    requires Possible(st, step)
  {
    match step
    case Begin(t, job) => st.(txns := st.txns[t := Txn(job, Waiting)])
    case Lock(t) => Moved(st, t, Holding).(lock := Some(t))
    case Check(t) => Checked(st, t)
    case Insert(t) => Allocated(st, t, st.txns[t].job.membership, false)
    case Commit(t) => Committed(st, t)
    case RollBack(t) => Ended(st, t, RolledBack)
    case Release(m) => st.(seats := Closed(st.seats, m))
  }

  ghost predicate Reaches(st: State, steps: seq<Step>, last: State)
    decreases |steps|
  {
    if steps == [] then last == st
    else Possible(st, steps[0]) && Reaches(Apply(st, steps[0]), steps[1..], last)
  }

  // ---------------------------------------------------------------- what every run keeps

  /** What its check established under the lock still holds until the transaction commits. */
  ghost predicate Room(st: State, txn: Txn) {
    match txn.phase
    case Reserved => Admits(txn.job) && (txn.job.enforce ==> Used(st.seats) < st.limit)
    case Staged(adds) =>
      && (Admits(txn.job) && adds ==>
            !HasOpen(st.seats, txn.job.membership) && (txn.job.enforce ==> Used(st.seats) < st.limit))
      && (txn.job.SettingSeats? ==> Used(st.seats) <= txn.job.n)
    case _ => true
  }

  ghost predicate Inv(st: State) {
    && OneOpenEach(st.seats)
    && (st.lock.Some? ==> st.lock.value in st.txns)
    && (forall t | t in st.txns :: HasLock(st.txns[t].phase) <==> st.lock == Some(t))
    && (forall t | t in st.txns :: Room(st, st.txns[t]))
  }

  lemma StepKeepsInv(st: State, step: Step)
    requires Inv(st) && Possible(st, step)
    ensures Inv(Apply(st, step))
  {
    match step
    case Release(m) =>
      ReleaseKeepsInv(st, m);
    case Commit(t) =>
      CommitKeepsInv(st, t);
    case _ =>
      var after := Apply(st, step);
      var txn := after.txns[step.t];
      assert after == State(st.seats, st.limit, after.lock, st.txns[step.t := txn]);
      PhaseKeepsInv(st, step.t, txn, after.lock);
  }

  lemma ReleaseKeepsInv(st: State, m: nat)
    requires Inv(st)
    ensures Inv(st.(seats := Closed(st.seats, m)))
  {
    var after := st.(seats := Closed(st.seats, m));
    ClosedFrees(st.seats, m);
    ClosedHas(st.seats, m, m);
    forall t | t in st.txns ensures Room(after, st.txns[t]) {
      assert Room(st, st.txns[t]);
      if Admits(st.txns[t].job) {
        ClosedHas(st.seats, m, st.txns[t].job.membership);
      }
    }
  }

  /** The lock passes on with whoever ends, and nobody else is past the lock. */
  lemma EndKeepsInv(st: State, t: nat, outcome: Outcome, seats: seq<Seat>, limit: nat)
    requires Inv(st) && st.lock == Some(t) && OneOpenEach(seats)
    ensures Inv(Ended(st.(seats := seats, limit := limit), t, outcome))
  {
    var after := Ended(st.(seats := seats, limit := limit), t, outcome);
    assert after.lock.None? && after.txns == st.txns[t := Txn(st.txns[t].job, Over(outcome))];
    forall u | u in after.txns ensures !HasLock(after.txns[u].phase) {
    }
  }

  lemma CommitKeepsInv(st: State, t: nat)
    requires Inv(st) && Possible(st, Commit(t))
    ensures Inv(Apply(st, Commit(t)))
  {
    var txn := st.txns[t];
    assert HasLock(txn.phase) && Room(st, txn);
    if Admits(txn.job) && txn.phase.adds {
      var seat := Seat(txn.job.membership, true);
      SeatAppends(st.seats, seat);
      EndKeepsInv(st, t, Seated, st.seats + [seat], st.limit);
    } else if Admits(txn.job) {
      EndKeepsInv(st, t, AlreadySeated, st.seats, st.limit);
    } else {
      EndKeepsInv(st, t, LimitSet, st.seats, txn.job.n);
    }
  }

  /** A step that moves one transaction on and changes neither the seats nor the limit. */
  lemma PhaseKeepsInv(st: State, t: nat, txn: Txn, lock: Option<nat>)
    requires Inv(st) && Room(st, txn)
    requires t in st.txns ==> HasLock(st.txns[t].phase) == (st.lock == Some(t))
    requires if HasLock(txn.phase) then lock == Some(t) && (st.lock.None? || st.lock == lock)
             else lock == if st.lock == Some(t) then None else st.lock
    ensures Inv(State(st.seats, st.limit, lock, st.txns[t := txn]))
  {
    var after := State(st.seats, st.limit, lock, st.txns[t := txn]);
    forall u | u in after.txns ensures HasLock(after.txns[u].phase) <==> after.lock == Some(u) {
      assert u != t ==> after.txns[u] == st.txns[u];
    }
    forall u | u in after.txns ensures Room(after, after.txns[u]) {
      assert u != t ==> Room(st, st.txns[u]);
    }
  }

  lemma {:induction false} RunKeepsInv(st: State, steps: seq<Step>, last: State)
    requires Inv(st) && Reaches(st, steps, last)
    ensures Inv(last)
    decreases |steps|
  {
    if steps != [] {
      StepKeepsInv(st, steps[0]);
      RunKeepsInv(Apply(st, steps[0]), steps[1..], last);
    }
  }

  /** An account before any of the transactions. */
  function Start(seats: seq<Seat>, limit: nat): State {
    State(seats, limit, None, map[])
  }

  /** In every run, a commit that seats somebody under enforcement leaves no more seats open than the limit in
      force, and each membership holds at most one: whatever else was begun, released or changed between. */
  lemma EnforcedAdmissionFits(seats: seq<Seat>, limit: nat, steps: seq<Step>, st: State, t: nat)
    requires OneOpenEach(seats) && Reaches(Start(seats, limit), steps, st) && Possible(st, Commit(t))
    requires Admits(st.txns[t].job) && st.txns[t].job.enforce
    ensures var after := Apply(st, Commit(t));
      && OneOpenEach(after.seats) && after.limit == st.limit
      && (after.seats != st.seats ==> Used(st.seats) + 1 == Used(after.seats) <= after.limit)
      && (st.txns[t].phase.adds ==> HasOpen(after.seats, st.txns[t].job.membership))
  {
    RunKeepsInv(Start(seats, limit), steps, st);
    StepKeepsInv(st, Commit(t));
    assert Room(st, st.txns[t]);
    SeatAppends(st.seats, Seat(st.txns[t].job.membership, true));
  }

  /** No membership ever has two open seats, enforced or not. */
  lemma OneSeatEach(seats: seq<Seat>, limit: nat, steps: seq<Step>, last: State)
    requires OneOpenEach(seats) && Reaches(Start(seats, limit), steps, last)
    ensures OneOpenEach(last.seats)
  {
    RunKeepsInv(Start(seats, limit), steps, last);
  }

  // ---------------------------------------------------------------- a rush on the last seats

  /** Only admissions move, and none is rolled back. */
  predicate Rush(step: Step) {
    step.Lock? || step.Check? || step.Insert? || step.Commit?
  }

  /** The transactions are enforced admissions of different members who hold no seat. */
  ghost predicate Applicants(st: State) {
    && (forall t | t in st.txns :: Admits(st.txns[t].job) && st.txns[t].job.enforce)
    && (forall t, u | t in st.txns && u in st.txns && t != u :: st.txns[t].job.membership != st.txns[u].job.membership)
    && (forall t | t in st.txns :: st.txns[t].phase != Over(Seated) ==> !HasOpen(st.seats, st.txns[t].job.membership))
  }

  function SeatedIn(st: State): set<nat> {
    set t | t in st.txns && st.txns[t].phase == Over(Seated)
  }

  /** With `used` seats taken before the rush: each seated applicant took one, and a refusal means none is left. */
  ghost predicate Fair(st: State, used: nat) {
    && Used(st.seats) == used + |SeatedIn(st)|
    && (SeatedIn(st) != {} ==> Used(st.seats) <= st.limit)
    && (forall t | t in st.txns :: st.txns[t].phase == Over(Refused) ==> Used(st.seats) >= st.limit)
    && (forall t | t in st.txns :: st.txns[t].phase.Over? ==> st.txns[t].phase.outcome in {Seated, Refused})
    && (forall t | t in st.txns :: st.txns[t].phase.Staged? ==> st.txns[t].phase.adds)
  }

  lemma CommitKeepsApplicants(st: State, t: nat)
    requires Applicants(st) && Possible(st, Commit(t)) && st.txns[t].phase.adds
    ensures Applicants(Apply(st, Commit(t)))
  {
    var after, m := Apply(st, Commit(t)), st.txns[t].job.membership;
    SeatAppends(st.seats, Seat(m, true));
    forall u | u in after.txns ensures after.txns[u].job == st.txns[u].job {
    }
    forall u | u in after.txns && after.txns[u].phase != Over(Seated)
      ensures !HasOpen(after.seats, after.txns[u].job.membership)
    {
      assert u != t && after.txns[u] == st.txns[u];
    }
  }

  lemma SeatedKeepsFair(st: State, t: nat, used: nat, after: State)
    requires Fair(st, used) && t in st.txns && !st.txns[t].phase.Over?
    requires after.txns == st.txns[t := Txn(st.txns[t].job, Over(Seated))] && after.limit == st.limit
    requires Used(st.seats) < st.limit && Used(after.seats) == Used(st.seats) + 1
    ensures Fair(after, used)
  {
    assert SeatedIn(after) == SeatedIn(st) + {t} && t !in SeatedIn(st);
    forall u | u in after.txns && u != t ensures after.txns[u] == st.txns[u] && u in st.txns {
    }
  }

  lemma CommitKeepsFair(st: State, t: nat, used: nat)
    requires Applicants(st) && Fair(st, used) && Possible(st, Commit(t)) && Room(st, st.txns[t])
    ensures Fair(Apply(st, Commit(t)), used)
  {
    UsedAppends(st.seats, Seat(st.txns[t].job.membership, true));
    SeatedKeepsFair(st, t, used, Apply(st, Commit(t)));
  }

  /** A transaction of the rush that moves on without being seated. */
  lemma PhaseKeepsFair(st: State, t: nat, phase: Phase, lock: Option<nat>, used: nat)
    requires Applicants(st) && Fair(st, used) && t in st.txns && !st.txns[t].phase.Over?
    requires phase == Holding || phase == Reserved || phase == Staged(true)
          || (phase == Over(Refused) && Full(st.seats, st.limit))
    ensures Applicants(Moved(st, t, phase).(lock := lock)) && Fair(Moved(st, t, phase).(lock := lock), used)
  {
    assert SeatedIn(Moved(st, t, phase).(lock := lock)) == SeatedIn(st);
  }

  lemma RushKeepsFair(st: State, step: Step, used: nat)
    requires Inv(st) && Applicants(st) && Fair(st, used) && Possible(st, step) && Rush(step)
    ensures Applicants(Apply(st, step)) && Fair(Apply(st, step), used)
    ensures Apply(st, step).limit == st.limit && Apply(st, step).txns.Keys == st.txns.Keys
  {
    var after := Apply(st, step);
    if step.Commit? {
      assert Room(st, st.txns[step.t]);
      CommitKeepsApplicants(st, step.t);
      CommitKeepsFair(st, step.t, used);
    } else {
      var phase := after.txns[step.t].phase;
      assert after == Moved(st, step.t, phase).(lock := after.lock);
      PhaseKeepsFair(st, step.t, phase, after.lock, used);
    }
  }

  ghost predicate Rushes(st: State, steps: seq<Step>, last: State)
    decreases |steps|
  {
    if steps == [] then last == st
    else Possible(st, steps[0]) && Rush(steps[0]) && Rushes(Apply(st, steps[0]), steps[1..], last)
  }

  lemma {:induction false} RunKeepsFair(st: State, steps: seq<Step>, last: State, used: nat)
    requires Inv(st) && Applicants(st) && Fair(st, used) && Rushes(st, steps, last)
    ensures Applicants(last) && Fair(last, used)
    ensures last.limit == st.limit && last.txns.Keys == st.txns.Keys
    decreases |steps|
  {
    if steps != [] {
      StepKeepsInv(st, steps[0]);
      RushKeepsFair(st, steps[0], used);
      RunKeepsFair(Apply(st, steps[0]), steps[1..], last, used);
    }
  }

  function Min(a: nat, b: nat): nat {
    if a <= b then a else b
  }

  /** `available`. */
  function Available(seats: seq<Seat>, limit: nat): nat {
    if Used(seats) >= limit then 0 else limit - Used(seats)
  }

  lemma AllSettled(st: State, used: nat)
    requires Fair(st, used) && forall t | t in st.txns :: st.txns[t].phase.Over?
    ensures |SeatedIn(st)| == Min(if used >= st.limit then 0 else st.limit - used, |st.txns.Keys|)
  {
    if t :| t in st.txns && st.txns[t].phase == Over(Refused) {
      assert st.txns.Keys == SeatedIn(st) + (st.txns.Keys - SeatedIn(st));
    } else {
      assert SeatedIn(st) == st.txns.Keys;
    }
    assert |SeatedIn(st)| == 0 <==> SeatedIn(st) == {};
  }

  /** When any number of enforced admissions of different members run to their ends, however interleaved,
      exactly as many are seated as there were seats, or all of them when there were enough. */
  lemma LastSeatsGoRound(st: State, steps: seq<Step>, last: State)
    requires OneOpenEach(st.seats) && st.lock.None? && forall t | t in st.txns :: st.txns[t].phase.Waiting?
    requires Applicants(st) && Rushes(st, steps, last)
    requires forall t | t in last.txns :: last.txns[t].phase.Over?
    ensures |SeatedIn(last)| == Min(Available(st.seats, st.limit), |st.txns|)
    ensures forall t | t in last.txns :: t in SeatedIn(last) || last.txns[t].phase == Over(Refused)
  {
    assert SeatedIn(st) == {};
    RunKeepsFair(st, steps, last, Used(st.seats));
    AllSettled(last, Used(st.seats));
    assert |st.txns| == |st.txns.Keys|;
  }

  // ---------------------------------------------------------------- what the limit does not promise

  predicate Within(st: State) {
    Used(st.seats) <= st.limit
  }

  /** What a caller of an unchecked write could look at before the commit: a plan covers the seats in use, an
      admission that is not enforced finds one free. Nothing else has to. */
  predicate Fits(st: State, step: Step)
    requires Possible(st, step)
  {
    match step
    case Commit(t) =>
      var txn := st.txns[t];
      if txn.job.ChangingPlan? then Used(st.seats) <= txn.job.n
      else Admits(txn.job) && txn.phase.adds && !txn.job.enforce ==> Used(st.seats) < st.limit
    case _ => true
  }

  ghost predicate RunWithin(st: State, steps: seq<Step>, last: State)
    requires Reaches(st, steps, last)
    decreases |steps|
  {
    Within(st) && (steps != [] ==> RunWithin(Apply(st, steps[0]), steps[1..], last))
  }

  ghost predicate RunFits(st: State, steps: seq<Step>, last: State)
    requires Reaches(st, steps, last)
    decreases |steps|
  {
    steps != [] ==> Fits(st, steps[0]) && RunFits(Apply(st, steps[0]), steps[1..], last)
  }

  lemma CommitStaysWithinIff(st: State, t: nat)
    requires Within(st) && Possible(st, Commit(t)) && Room(st, st.txns[t])
    ensures Within(Apply(st, Commit(t))) <==> Fits(st, Commit(t))
  {
    var job := st.txns[t].job;
    if Admits(job) {
      UsedAppends(st.seats, Seat(job.membership, true));
    }
  }

  /** One step keeps the seats within the limit if and only if it fits: admissions that are enforced, `set_seats`,
      releases and all that only waits, checks or gives up always do. */
  lemma StepStaysWithinIff(st: State, step: Step)
    requires Inv(st) && Within(st) && Possible(st, step)
    ensures Within(Apply(st, step)) <==> Fits(st, step)
  {
    match step
    case Release(m) => ClosedFrees(st.seats, m);
    case Commit(t) =>
      assert Room(st, st.txns[t]);
      CommitStaysWithinIff(st, t);
    case _ =>
      var after := Apply(st, step);
      assert after.seats == st.seats && after.limit == st.limit;
  }

  lemma {:induction false} RunStaysWithinIff(st: State, steps: seq<Step>, last: State)
    requires Inv(st) && Within(st) && Reaches(st, steps, last)
    ensures RunWithin(st, steps, last) <==> RunFits(st, steps, last)
    decreases |steps|
  {
    if steps != [] {
      StepKeepsInv(st, steps[0]);
      StepStaysWithinIff(st, steps[0]);
      if Fits(st, steps[0]) {
        RunStaysWithinIff(Apply(st, steps[0]), steps[1..], last);
      } else {
        NotWithinAtOnce(Apply(st, steps[0]), steps[1..], last);
      }
    }
  }

  lemma NotWithinAtOnce(st: State, steps: seq<Step>, last: State)
    requires Reaches(st, steps, last) && !Within(st)
    ensures !RunWithin(st, steps, last)
  {
  }

  /** Over every run of an account that starts within its limit, the open seats are within the limit at every point
      if and only if each plan change committed covered the seats in use and each admission committed without
      enforcement found one free. */
  lemma SeatsStayWithinIff(seats: seq<Seat>, limit: nat, steps: seq<Step>, last: State)
    requires OneOpenEach(seats) && Used(seats) <= limit && Reaches(Start(seats, limit), steps, last)
    ensures RunWithin(Start(seats, limit), steps, last) <==> RunFits(Start(seats, limit), steps, last)
  {
    RunStaysWithinIff(Start(seats, limit), steps, last);
  }

  /** One transaction alone, from its beginning to its commit. */
  lemma AloneToCommit(seats: seq<Seat>, limit: nat, job: Job, adds: bool, last: State)
    requires var held := State(seats, limit, Some(0), map[0 := Txn(job, Holding)]);
      var staged := held.(txns := map[0 := Txn(job, Staged(adds))]);
      Checked(held, 0) == staged && Committed(staged, 0) == last
    ensures exists steps :: Reaches(Start(seats, limit), steps, last)
  {
    var begun := State(seats, limit, None, map[0 := Txn(job, Waiting)]);
    var held := State(seats, limit, Some(0), map[0 := Txn(job, Holding)]);
    var staged := held.(txns := map[0 := Txn(job, Staged(adds))]);
    assert Apply(staged, Commit(0)) == last && Reaches(last, [], last);
    OneMore(staged, Commit(0), [], last);
    OneMore(held, Check(0), [Commit(0)], last);
    assert Apply(begun, Lock(0)) == held;
    OneMore(begun, Lock(0), [Check(0)] + [Commit(0)], last);
    assert Apply(Start(seats, limit), Begin(0, job)) == begun;
    OneMore(Start(seats, limit), Begin(0, job), [Lock(0)] + ([Check(0)] + [Commit(0)]), last);
  }

  lemma OneMore(st: State, step: Step, rest: seq<Step>, last: State)
    requires Possible(st, step) && Reaches(Apply(st, step), rest, last)
    ensures Reaches(st, [step] + rest, last)
  {
    assert ([step] + rest)[1..] == rest;
  }

  /** A plan change may leave more seats open than the limit: any plan of fewer seats than are in use. */
  lemma PlanChangeMayOverfill(seats: seq<Seat>, limit: nat, n: nat)
    requires n < Used(seats)
    ensures exists steps, last :: Reaches(Start(seats, limit), steps, last) && Used(last.seats) > last.limit
  {
    var job := ChangingPlan(n);
    AloneToCommit(seats, limit, job, false, State(seats, n, None, map[0 := Txn(job, Over(LimitSet))]));
  }

  /** An admission without enforcement may too: one member more than a full account has seats. */
  lemma UnenforcedMayOverfill(seats: seq<Seat>, limit: nat, m: nat)
    requires Used(seats) == limit && !HasOpen(seats, m)
    ensures exists steps, last :: Reaches(Start(seats, limit), steps, last) && Used(last.seats) == last.limit + 1
  {
    var job := Allocating(m, false);
    SeatAppends(seats, Seat(m, true));
    AloneToCommit(seats, limit, job, true,
                  State(seats + [Seat(m, true)], limit, None, map[0 := Txn(job, Over(Seated))]));
  }

  // ---------------------------------------------------------------- what each step decides

  /** Under the lock a limit smaller than the seats in use is refused and any other set; an admission is refused
      exactly when it is enforced, the account is full and, unless it reserves, the member holds no seat; a plan is
      never refused. */
  lemma CheckRefusesIff(st: State, t: nat)
    requires Possible(st, Check(t))
    ensures var job := st.txns[t].job;
      Apply(st, Check(t)).txns[t].phase == Over(Refused)
      <==> || (job.SettingSeats? && job.n < Used(st.seats))
           || (Admits(job) && job.enforce && st.limit <= Used(st.seats)
               && (job.Allocating? ==> !HasOpen(st.seats, job.membership)))
    ensures Apply(st, Check(t)).seats == st.seats && Apply(st, Check(t)).limit == st.limit
  {
  }

  /** The insert after a reservation is never refused: it stages the member's seat, unless they hold one by now. */
  lemma InsertDoes(st: State, t: nat)
    requires Possible(st, Insert(t))
    ensures var after, job := Apply(st, Insert(t)), st.txns[t].job;
      after == st.(txns := st.txns[t := Txn(job, Staged(!HasOpen(st.seats, job.membership)))])
  {
  }

  /** A commit sets the limit to what was asked for and leaves the seats, or adds the member's seat or nothing and
      leaves the limit; it frees the lock, and touches no other transaction. */
  lemma CommitDoes(st: State, t: nat)
    requires Inv(st) && Possible(st, Commit(t))
    ensures var after, job := Apply(st, Commit(t)), st.txns[t].job;
      && after.lock == None && after.txns.Keys == st.txns.Keys
      && (forall u | u in st.txns && u != t :: after.txns[u] == st.txns[u])
      && (job.SettingSeats? ==> after.limit == job.n && after.seats == st.seats)
      && (job.ChangingPlan? ==> after.limit == job.n && after.seats == st.seats)
      && (Admits(job) ==> after.limit == st.limit
                          && after.seats == st.seats + (if st.txns[t].phase.adds
                                                        then [Seat(job.membership, true)] else []))
      && after.txns[t] == Txn(job, Over(if !Admits(job) then LimitSet
                                        else if st.txns[t].phase.adds then Seated else AlreadySeated))
  {
    assert HasLock(st.txns[t].phase);
  }

  /** Giving up changes neither seats nor limit, and frees the lock when it was held. */
  lemma RollBackDoes(st: State, t: nat)
    requires Inv(st) && Possible(st, RollBack(t))
    ensures var after := Apply(st, RollBack(t));
      && after.seats == st.seats && after.limit == st.limit && after.txns[t].phase == Over(RolledBack)
      && after.lock == (if st.lock == Some(t) then None else st.lock)
  {
  }
}
