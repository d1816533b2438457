/**
  One loan's account: disbursement, monthly interest, repayments and closure
  (internal/loan/service.go, internal/loan/interest.sql).
 */
module LoanAccount {
  import opened Common
  import opened Decimals
  import opened Repayment
  import Sums

  datatype LoanStatus =
    | LoanPending | LoanApproved | LoanRejected | LoanDisbursed | LoanRestructuring
    | LoanActive | LoanDelinquent | LoanClosed | LoanWrittenOff | LoanManualReview

  datatype GuarantorStatus = GuarantorPending | GuarantorApproved | GuarantorRejected

  datatype Guarantor = Guarantor(member: Id, amount: int, status: GuarantorStatus)

  /** The month of disbursement for interest, and the calendar date the schedule counts from. */
  datatype Disbursement = Disbursement(month: nat, dueFrom: nat, day: nat)

  datatype InterestRow = InterestRow(period: nat, opening: int, amount: int)

  datatype RepaymentRow = RepaymentRow(amount: int, gateway: Ref, period: nat, split: Split)

  datatype Loan = Loan(
    member: Id, branch: nat, principal: int, rate: int, months: nat, status: LoanStatus,
    guarantors: seq<Guarantor>, disbursed: Option<Disbursement>, schedule: seq<Instalment>,
    interest: seq<InterestRow>, repayments: seq<RepaymentRow>, penalties: int)

  predicate Payable(status: LoanStatus) { status == LoanDisbursed || status == LoanActive || status == LoanDelinquent }

  // ----- Totals

  function PrincipalOf(r: RepaymentRow): int { r.split.principal }
  function InterestOf(r: RepaymentRow): int { r.split.interest }
  function PenaltyOf(r: RepaymentRow): int { r.split.penalty }
  function CreditOf(r: RepaymentRow): int { r.split.credit }
  function Assessed(r: InterestRow): int { r.amount }

  function PrincipalBefore(month: nat): RepaymentRow -> int {
    (r: RepaymentRow) => if r.period < month then r.split.principal else 0
  }

  function Applied(l: Loan): int { Sums.Of(l.repayments, PrincipalOf) }

  /** What the repayments of strictly earlier months left of the principal. */
  function Opening(principal: int, repayments: seq<RepaymentRow>, month: nat): int {
    AtLeastZero(principal - Sums.Of(repayments, PrincipalBefore(month)))
  }

  /** ROUND(opening * rate, 4), with the rate in units of 1e-4. */
  function MonthlyInterest(opening: int, rate: int): int { (Times(opening, rate) + 5_000) / 10_000 }

  /** Multiplication as repeated addition, which keeps products of two variables out of every proof about a loan. */
  function Times(x: int, n: int): int
    decreases if n < 0 then 0 - n else n
  {
    if n == 0 then 0 else if n > 0 then Times(x, n - 1) + x else Times(x, n + 1) - x
  }

  lemma {:induction false} TimesIsProduct(x: int, n: int)
    ensures Times(x, n) == x * n
    decreases if n < 0 then 0 - n else n
  {
    if n > 0 { TimesIsProduct(x, n - 1); } else if n < 0 { TimesIsProduct(x, n + 1); }
  }

  function InterestDue(l: Loan): int {
    AtLeastZero(Sums.Of(l.interest, Assessed) - Sums.Of(l.repayments, InterestOf))
  }

  function PenaltyDue(l: Loan): int { AtLeastZero(l.penalties - Sums.Of(l.repayments, PenaltyOf)) }

  /** Nothing is owed: no penalty, no assessed interest, no principal. */
  predicate Settled(l: Loan) { PenaltyDue(l) == 0 && InterestDue(l) == 0 && l.principal <= Applied(l) }

  // ----- Transactions on one loan

  function DueMonths(d: Disbursement): nat -> int
    requires 1 <= d.day
  {
    (number: nat) => DueMonth(d.dueFrom, d.day, number)
  }

  function RowFor(l: Loan, month: nat): InterestRow {
    var opening := Opening(l.principal, l.repayments, month);
    InterestRow(month, opening, MonthlyInterest(opening, l.rate))
  }

  /** AssessLoanInterestPeriods: one row for each month, none when the range is empty. */
  function Assess(l: Loan, first: nat, last: nat): Loan {
    l.(interest := l.interest + seq(if first <= last then last + 1 - first else 0, (i: nat) => RowFor(l, first + i)))
  }

  /** The part of DisburseLoan that follows the collateral check. */
  function Disburse(l: Loan, d: Disbursement): Tx<Loan, ()>
    requires 1 <= d.day
  {
    if l.months == 0 then Abort(InvalidRepaymentPeriod)
    else if l.principal < 0 || l.principal / l.months <= 0 then Abort(InvalidLoanAmount)
    else
      Commit(Assess(l.(status := LoanActive, disbursed := Some(d),
                       schedule := Schedule(l.principal, l.months, DueMonths(d))), d.month, d.month), ())
  }

  function SameGateway(gateway: Ref): RepaymentRow -> bool { (r: RepaymentRow) => r.gateway == gateway }

  /** RecordRepaymentForPeriodInTx's checks of its own arguments. */
  function RepaymentArguments(nanos: int, gateway: Ref, period: nat, now: nat): Option<Error> {
    if period > now then Some(InvalidRepaymentPeriod)
    else if nanos <= 0 then Some(InvalidLoanAmount)
    else if gateway == "" then Some(GatewayTransactionId)
    else None
  }

  /** The month interest is assessed up to, if any. */
  function LatestAssessed(l: Loan): Option<nat> {
    if l.interest == [] then None else Some(l.interest[|l.interest| - 1].period)
  }

  function LatestRepaid(l: Loan): Option<nat> {
    if l.repayments == [] then None else Some(l.repayments[|l.repayments| - 1].period)
  }

  function After(latest: Option<nat>, period: nat): bool { latest.Some? && latest.value > period }

  /** Backdating guard: no earlier month than one already assessed, repaid or before disbursement. */
  predicate Backdated(l: Loan, period: nat) {
    After(LatestAssessed(l), period) || After(LatestRepaid(l), period) ||
    (l.disbursed.Some? && period < l.disbursed.value.month)
  }

  function CatchUp(l: Loan, period: nat): Loan {
    Assess(l, if LatestAssessed(l).Some? then LatestAssessed(l).value + 1 else period, period)
  }

  /** The rest of RecordRepaymentForPeriodInTx once the loan is locked; the result is the repayment's id. */
  function Repay(l: Loan, nanos: int, gateway: Ref, period: nat): Tx<Loan, nat> {
    var existing := First(l.repayments, SameGateway(gateway));
    if existing.Some? then
      if Nanos(l.repayments[existing.value].amount) != nanos then Abort(RepaymentAmountConflict)
        else Commit(l, existing.value)
    else if !Payable(l.status) then Abort(PaymentNotAllowed)
    else if l.schedule == [] then Abort(RepaymentScheduleMissing)
    else if Backdated(l, period) then Abort(InvalidRepaymentPeriod)
    else if Column(nanos) <= 0 then Abort(ConstraintViolation)
    else
      var c := CatchUp(l, period);
      var (split, closed) := Allocate(Ticks(nanos), PenaltyDue(c), InterestDue(c), Applied(c), c.principal);
      Commit(c.(repayments := c.repayments + [RepaymentRow(Column(nanos), gateway, period, split)],
                schedule := Advance(c.schedule, Applied(c) + split.principal),
                status := if closed then LoanClosed else c.status), |l.repayments|)
  }

  /** A penalty row recorded against the loan; the services only ever read these rows. */
  function Penalise(l: Loan, amount: nat): Loan {
    if Payable(l.status) then l.(penalties := l.penalties + amount) else l
  }

  // ----- What every reachable account satisfies

  predicate Terms(l: Loan) { 0 < l.principal && 0 <= l.rate && 1 <= l.months <= 36 && 0 <= l.penalties }

  predicate Undisbursed(l: Loan) {
    && l.disbursed.None? && l.schedule == [] && l.interest == [] && l.repayments == [] && l.penalties == 0
    && (l.status == LoanPending || l.status == LoanApproved || l.status == LoanRejected)
  }

  /**
    Interest history: the assessed months are exactly the interval from the month of disbursement to the
    latest repayment month, each once, and each month was charged on the principal that the repayments of
    strictly earlier months leave in the final history.
   */
  ghost predicate InterestSound(l: Loan)
    requires l.disbursed.Some?
  {
    var start := l.disbursed.value.month;
    && (forall i | 0 <= i < |l.interest| :: l.interest[i] == RowFor(l, start + i))
    && |l.interest| == 1 + (if l.repayments == [] then 0 else l.repayments[|l.repayments| - 1].period - start)
    && (forall i | 0 <= i < |l.repayments| :: start <= l.repayments[i].period)
    && (forall i, j | 0 <= i < j < |l.repayments| :: l.repayments[i].period <= l.repayments[j].period)
  }

  /** Nothing is settled beyond what is owed, and every bucket holds a non-negative amount. */
  ghost predicate SplitsSound(l: Loan) {
    && Applied(l) <= l.principal
    && Sums.Of(l.repayments, InterestOf) <= Sums.Of(l.interest, Assessed)
    && Sums.Of(l.repayments, PenaltyOf) <= l.penalties
    && (forall i | 0 <= i < |l.repayments| ::
          var r := l.repayments[i];
          0 < r.amount && 0 <= r.split.penalty && 0 <= r.split.interest && 0 <= r.split.principal && 0 <= r.split.credit
          && r.split.Total() <= r.amount)
  }

  /** The stored statuses are those of one computation from the cumulative principal. */
  ghost predicate ScheduleSound(l: Loan)
    requires l.disbursed.Some?
  {
    && 1 <= l.disbursed.value.day && 0 < l.months <= l.principal
    && l.schedule == Advance(Schedule(l.principal, l.months, DueMonths(l.disbursed.value)), Applied(l))
  }

  /** The loan is closed exactly when it is settled, and only a closing repayment leaves credit. */
  ghost predicate ClosureSound(l: Loan) {
    && (if Settled(l) then l.status == LoanClosed else Payable(l.status))
    && (forall i | 0 <= i < |l.repayments| && 0 < l.repayments[i].split.credit ::
          i == |l.repayments| - 1 && l.status == LoanClosed)
  }

  ghost predicate Sound(l: Loan) {
    && Terms(l)
    && (Undisbursed(l) ||
        (l.disbursed.Some? && InterestSound(l) && SplitsSound(l) && ScheduleSound(l) && ClosureSound(l)))
  }

  // ----- Every transaction keeps it

  lemma InterestNonNegative(opening: int, rate: int)
    requires 0 <= opening && 0 <= rate
    ensures 0 <= MonthlyInterest(opening, rate)
  {
    TimesIsProduct(opening, rate);
    assert 0 <= opening * rate;
  }

  lemma {:induction false} DisburseKeepsSound(l: Loan, d: Disbursement)
    requires Sound(l) && Undisbursed(l) && 1 <= d.day && Disburse(l, d).Commit?
    ensures Sound(Disburse(l, d).state) && !Undisbursed(Disburse(l, d).state)
    ensures Disburse(l, d).state.status == LoanActive
  {
    var s := l.(status := LoanActive, disbursed := Some(d), schedule := Schedule(l.principal, l.months, DueMonths(d)));
    OneEach(l.principal, l.months);
    FirstMonth(s, d.month);
    NewAccountIsSound(Assess(s, d.month, d.month), d);
  }

  lemma {:induction false} FirstMonth(s: Loan, month: nat)
    requires s.interest == []
    ensures Assess(s, month, month) == s.(interest := [RowFor(s, month)])
  {
    assert Assess(s, month, month).interest[0] == RowFor(s, month + 0);
    assert Assess(s, month, month).interest == [RowFor(s, month)];
  }

  /** An account with a new schedule, its first month's interest and nothing repaid. */
  lemma {:induction false} NewAccountIsSound(t: Loan, d: Disbursement)
    requires Terms(t) && 1 <= d.day && t.months <= t.principal && t.status == LoanActive && t.disbursed == Some(d)
    requires t.schedule == Schedule(t.principal, t.months, DueMonths(d)) && t.repayments == [] && t.penalties == 0
    requires t.interest == [RowFor(t.(interest := []), d.month)]
    ensures Sound(t) && !Undisbursed(t)
  {
    assert t.interest[0] == RowFor(t, d.month + 0);
    NothingSettled(t, t.interest[0]);
    ScheduleIsNew(t.principal, t.months, DueMonths(d));
    AdvanceByNothing(t.schedule);
    assert Applied(t) == 0;
  }

  lemma {:induction false} NothingSettled(t: Loan, row: InterestRow)
    requires t.interest == [row] && row.opening >= 0 && t.rate >= 0 && 0 <= t.penalties
    requires row.amount == MonthlyInterest(row.opening, t.rate) && t.repayments == [] && 0 < t.principal
    ensures SplitsSound(t) && !Settled(t)
  {
    InterestNonNegative(row.opening, t.rate);
    assert t.interest[..0] == [];
  }

  /** Repayments of this month or later do not change what earlier months were charged on. */
  lemma OpeningKept(principal: int, repayments: seq<RepaymentRow>, r: RepaymentRow, month: nat)
    requires month <= r.period
    ensures Opening(principal, repayments + [r], month) == Opening(principal, repayments, month)
  {
    Sums.OfAppend(repayments, r, PrincipalBefore(month));
  }

  lemma RepayAppends(l: Loan, nanos: int, gateway: Ref, period: nat)
    requires Repay(l, nanos, gateway, period).Commit? && Repay(l, nanos, gateway, period).state != l
    ensures var t := Repay(l, nanos, gateway, period).state;
            t.repayments == l.repayments + [t.repayments[|l.repayments|]] && l.interest <= t.interest &&
            Payable(l.status) &&
            t == t.(member := l.member, branch := l.branch, principal := l.principal, rate := l.rate,
              months := l.months, guarantors := l.guarantors, disbursed := l.disbursed, penalties := l.penalties)
  {
  }

  lemma {:induction false} RepayKeepsInterest(l: Loan, nanos: int, gateway: Ref, period: nat)
    requires l.disbursed.Some? && InterestSound(l)
    requires Repay(l, nanos, gateway, period).Commit? && Repay(l, nanos, gateway, period).state != l
    ensures InterestSound(Repay(l, nanos, gateway, period).state)
  {
    var t := Repay(l, nanos, gateway, period).state;
    InterestKept(l, t, t.repayments[|l.repayments|], period);
  }

  lemma {:induction false} InterestKept(l: Loan, t: Loan, r: RepaymentRow, period: nat)
    requires l.disbursed.Some? && InterestSound(l) && !Backdated(l, period)
    requires t.disbursed == l.disbursed && t.principal == l.principal && t.rate == l.rate
    requires t.interest == CatchUp(l, period).interest && t.repayments == l.repayments + [r] && r.period == period
    ensures InterestSound(t)
  {
    CaughtUp(l, period);
    HistoryKept(l, t, r, l.disbursed.value.month);
  }

  /** Catching up assesses every month up to the repayment's, each once, on what is on file now. */
  lemma {:induction false} CaughtUp(l: Loan, period: nat)
    requires l.disbursed.Some? && InterestSound(l) && !Backdated(l, period)
    ensures var start, c := l.disbursed.value.month, CatchUp(l, period);
            start <= period && |c.interest| == period + 1 - start &&
            forall i | 0 <= i < |c.interest| :: c.interest[i] == RowFor(l, start + i)
  {
    var start, n, c := l.disbursed.value.month, |l.interest|, CatchUp(l, period);
    assert l.interest[n - 1] == RowFor(l, start + (n - 1));
    assert LatestAssessed(l) == Some(start + (n - 1));
    forall i | 0 <= i < |c.interest| ensures c.interest[i] == RowFor(l, start + i) {
      assert i >= n ==> c.interest[i] == RowFor(l, (start + n) + (i - n));
    }
  }

  /** A repayment of the latest month leaves what every month was charged on as it was. */
  lemma {:induction false} HistoryKept(l: Loan, t: Loan, r: RepaymentRow, start: nat)
    requires t.repayments == l.repayments + [r] && t.principal == l.principal && t.rate == l.rate
    requires |t.interest| == r.period + 1 - start &&
             forall i | 0 <= i < |t.interest| :: t.interest[i] == RowFor(l, start + i)
    ensures forall i | 0 <= i < |t.interest| :: t.interest[i] == RowFor(t, start + i)
  {
    forall i | 0 <= i < |t.interest| ensures t.interest[i] == RowFor(t, start + i) {
      OpeningKept(l.principal, l.repayments, r, start + i);
    }
  }

  /** The new repayment is the ordered split of the payment over what is due after catching up. */
  lemma RepaySplit(l: Loan, nanos: int, gateway: Ref, period: nat)
    requires 0 < nanos && SplitsSound(l) && 0 <= Applied(l)
    requires forall i | 0 <= i < |CatchUp(l, period).interest| :: 0 <= CatchUp(l, period).interest[i].amount
    requires Repay(l, nanos, gateway, period).Commit? && Repay(l, nanos, gateway, period).state != l
    ensures var t, c := Repay(l, nanos, gateway, period).state, CatchUp(l, period);
            var r := t.repayments[|l.repayments|];
            InOrder(r.split, Ticks(nanos), PenaltyDue(c), InterestDue(c), l.principal - Applied(l)) &&
            SplitsSound(t) &&
            (Settled(t) <==> t.status == LoanClosed) && (0 < r.split.credit ==> t.status == LoanClosed)
  {
    var t, c := Repay(l, nanos, gateway, period).state, CatchUp(l, period);
    var r := t.repayments[|l.repayments|];
    assert 0 <= Ticks(nanos) <= r.amount by { ColumnAgainstTicks(nanos); }
    AssessedGrows(l, c);
    AllocateIsTheOrderedSplit(Ticks(nanos), PenaltyDue(c), InterestDue(c), Applied(c), c.principal, r.split);
    SplitRecorded(c, t, r, Ticks(nanos));
    ClosesWhenNothingRemains(Ticks(nanos), PenaltyDue(c), InterestDue(c), Applied(c), c.principal);
  }

  /**
    Recording an ordered split keeps every bucket within what is owed, and settles the loan exactly when it covers it
    all.
   */
  lemma SplitRecorded(c: Loan, t: Loan, r: RepaymentRow, payment: int)
    requires SplitsSound(c) && 0 < r.amount && 0 <= payment <= r.amount
    requires t.repayments == c.repayments + [r] && t.interest == c.interest && t.principal == c.principal &&
             t.penalties == c.penalties
    requires InOrder(r.split, payment, PenaltyDue(c), InterestDue(c), c.principal - Applied(c))
    ensures SplitsSound(t)
    ensures Settled(t) <==> payment >= PenaltyDue(c) + InterestDue(c) + (c.principal - Applied(c))
  {
    Sums.OfAppend(c.repayments, r, PrincipalOf);
    Sums.OfAppend(c.repayments, r, InterestOf);
    Sums.OfAppend(c.repayments, r, PenaltyOf);
  }

  lemma AssessedGrows(l: Loan, c: Loan)
    requires l.interest <= c.interest
    requires forall i | 0 <= i < |c.interest| :: 0 <= c.interest[i].amount
    ensures Sums.Of(l.interest, Assessed) <= Sums.Of(c.interest, Assessed)
  {
    var more := c.interest[|l.interest|..];
    assert c.interest == l.interest + more;
    Sums.OfConcat(l.interest, more, Assessed);
    Sums.OfBounds(more, Assessed);
  }

  lemma AppliedNonNegative(l: Loan)
    requires SplitsSound(l)
    ensures 0 <= Applied(l)
  {
    Sums.OfBounds(l.repayments, PrincipalOf);
  }

  lemma RepayKeepsSchedule(l: Loan, nanos: int, gateway: Ref, period: nat)
    requires l.disbursed.Some? && ScheduleSound(l) && 0 <= Applied(l)
    requires Repay(l, nanos, gateway, period).Commit? && Repay(l, nanos, gateway, period).state != l
    requires 0 <= Repay(l, nanos, gateway, period).state.repayments[|l.repayments|].split.principal
    ensures ScheduleSound(Repay(l, nanos, gateway, period).state)
  {
    var t := Repay(l, nanos, gateway, period).state;
    var r := t.repayments[|l.repayments|];
    Sums.OfAppend(l.repayments, r, PrincipalOf);
    assert t.repayments == l.repayments + [r];
    ScheduleAdvances(l, Applied(l), Applied(t));
  }

  lemma ScheduleAdvances(l: Loan, a: int, b: int)
    requires l.disbursed.Some? && ScheduleSound(l) && a == Applied(l) && 0 <= a <= b
    ensures Advance(l.schedule, b) == Advance(Schedule(l.principal, l.months, DueMonths(l.disbursed.value)), b)
  {
    ScheduleSumsToPrincipal(l.principal, l.months, DueMonths(l.disbursed.value));
    AdvanceTwice(Schedule(l.principal, l.months, DueMonths(l.disbursed.value)), a, b);
  }

  /** Recording a repayment keeps the account sound; retries and refusals change nothing. */
  lemma RepayKeepsSound(l: Loan, nanos: int, gateway: Ref, period: nat)
    requires Sound(l) && 0 < nanos
    ensures Sound(Repay(l, nanos, gateway, period).After(l))
  {
    var r := Repay(l, nanos, gateway, period);
    if r.Commit? && r.state != l {
      assert !Undisbursed(l);
      RepayAppends(l, nanos, gateway, period);
      RepayKeepsInterest(l, nanos, gateway, period);
      AppliedNonNegative(l);
      var c := CatchUp(l, period);
      forall i | 0 <= i < |c.interest| ensures 0 <= c.interest[i].amount {
        InterestNonNegative(c.interest[i].opening, l.rate);
      }
      RepaySplit(l, nanos, gateway, period);
      RepayKeepsSchedule(l, nanos, gateway, period);
      assert ClosureSound(r.state);
    }
  }

  lemma PenaliseKeepsSound(l: Loan, amount: nat)
    requires Sound(l)
    ensures Sound(Penalise(l, amount))
  {
    var t := Penalise(l, amount);
    if Payable(l.status) {
      assert !Undisbursed(l);
      assert forall m: nat :: RowFor(t, m) == RowFor(l, m);
    }
  }

  /** What is due on the loan, all in all, when a payment for the month comes in. */
  function StillOwed(l: Loan, period: nat): int {
    var c := CatchUp(l, period);
    PenaltyDue(c) + InterestDue(c) + AtLeastZero(l.principal - Applied(l))
  }

  /** A new repayment is recorded, and leaves this credit. */
  predicate CreditIs(l: Loan, nanos: int, gateway: Ref, period: nat, credit: int) {
    Repay(l, nanos, gateway, period).Commit? &&
    |Repay(l, nanos, gateway, period).state.repayments| == |l.repayments| + 1 &&
    Repay(l, nanos, gateway, period).state.repayments[|l.repayments|].split.credit == credit
  }

  lemma {:induction false} NewRepaymentAppends(l: Loan, nanos: int, gateway: Ref, period: nat)
    requires First(l.repayments, SameGateway(gateway)).None? && Payable(l.status) && l.schedule != [] &&
             !Backdated(l, period) && 0 < Column(nanos)
    ensures var p := Repay(l, nanos, gateway, period);
            p.Commit? && p.value == |l.repayments| && |p.state.repayments| == |l.repayments| + 1
  {
  }

  /** The row that a new repayment appends. */
  lemma {:induction false} NewRow(l: Loan, nanos: int, gateway: Ref, period: nat, c: Loan) returns (split: Split)
    requires First(l.repayments, SameGateway(gateway)).None? && Repay(l, nanos, gateway, period).Commit?
    requires c == CatchUp(l, period)
    ensures split == Allocate(Ticks(nanos), PenaltyDue(c), InterestDue(c), Applied(c), c.principal).0
    ensures Repay(l, nanos, gateway, period).state.repayments ==
            c.repayments + [RepaymentRow(Column(nanos), gateway, period, split)]
  {
    split := Allocate(Ticks(nanos), PenaltyDue(c), InterestDue(c), Applied(c), c.principal).0;
  }

  lemma {:induction false} ExcessIsCredit(payment: int, penaltyDue: int, interestDue: int, applied: int, principal: int)
    requires 0 <= payment && 0 <= penaltyDue && 0 <= interestDue
    ensures Allocate(payment, penaltyDue, interestDue, applied, principal).0.credit ==
            AtLeastZero(payment - (penaltyDue + interestDue + AtLeastZero(principal - applied)))
  {
  }

  /** Only what exceeds everything due is left over as credit. */
  lemma {:induction false} RepaymentExcess(l: Loan, nanos: int, gateway: Ref, period: nat, credit: int)
    requires 0 < nanos && First(l.repayments, SameGateway(gateway)).None? && CreditIs(l, nanos, gateway, period, credit)
    ensures credit == AtLeastZero(Ticks(nanos) - StillOwed(l, period))
  {
    ghost var split := NewRow(l, nanos, gateway, period, CatchUp(l, period));
    OwedIsExcess(l, nanos, period);
  }

  lemma {:induction false} OwedIsExcess(l: Loan, nanos: int, period: nat)
    requires 0 < nanos
    ensures var c := CatchUp(l, period);
            Allocate(Ticks(nanos), PenaltyDue(c), InterestDue(c), Applied(c), c.principal).0.credit ==
            AtLeastZero(Ticks(nanos) - StillOwed(l, period))
  {
    var c := CatchUp(l, period);
    ExcessIsCredit(Ticks(nanos), PenaltyDue(c), InterestDue(c), Applied(c), c.principal);
  }

  /** A month's interest is the product of opening balance and rate, rounded to the nearest tick, halves up. */
  lemma {:induction false} InterestIsRounded(opening: int, rate: int)
    ensures opening * rate - 5_000 < 10_000 * MonthlyInterest(opening, rate) <= opening * rate + 5_000
  {
    TimesIsProduct(opening, rate);
  }

  // ----- Whole runs of one account

  datatype Step = Pay(nanos: int, gateway: Ref, period: nat, now: nat) | AddPenalty(amount: nat)

  function Take(l: Loan, step: Step): Loan {
    match step
    case Pay(nanos, gateway, period, now) =>
      if RepaymentArguments(nanos, gateway, period, now).Some? then l else Repay(l, nanos, gateway, period).After(l)
    case AddPenalty(amount) => Penalise(l, amount)
  }

  function Run(l: Loan, steps: seq<Step>): Loan {
    if steps == [] then l else Take(Run(l, steps[..|steps| - 1]), steps[|steps| - 1])
  }

  lemma {:induction false} RunKeepsSound(l: Loan, steps: seq<Step>)
    requires Sound(l)
    ensures Sound(Run(l, steps))
  {
    if steps != [] {
      var before, step := Run(l, steps[..|steps| - 1]), steps[|steps| - 1];
      RunKeepsSound(l, steps[..|steps| - 1]);
      match step
      case Pay(nanos, gateway, period, now) =>
        if RepaymentArguments(nanos, gateway, period, now).None? {
          RepayKeepsSound(before, nanos, gateway, period);
        }
      case AddPenalty(amount) => PenaliseKeepsSound(before, amount);
    }
  }

  /** A settled loan has every instalment paid. */
  lemma SettledIsPaid(l: Loan)
    requires l.disbursed.Some? && SplitsSound(l) && ScheduleSound(l)
    ensures AllPaid(l.schedule) <==> Applied(l) == l.principal
  {
    AppliedNonNegative(l);
    NewSchedulePaidIff(l.principal, l.months, DueMonths(l.disbursed.value), Applied(l));
  }

  /** What soundness means for a loan that has been paid out. */
  lemma {:induction false} PaidOutIsSound(t: Loan)
    requires Sound(t) && t.disbursed.Some?
    ensures InterestSound(t) && Applied(t) <= t.principal && (t.status == LoanClosed <==> Settled(t)) &&
            (t.status == LoanClosed ==> AllPaid(t.schedule))
  {
    SettledIsPaid(t);
  }

  /**
    After any run from disbursement the loan is closed exactly when nothing is owed, a closed loan has
    every instalment paid, and the interest history is the one its final repayments account for.
   */
  lemma {:induction false} RunFromDisbursement(l: Loan, d: Disbursement, steps: seq<Step>)
    requires Sound(l) && Undisbursed(l) && 1 <= d.day && Disburse(l, d).Commit?
    ensures var t := Run(Disburse(l, d).state, steps);
            t.disbursed == Some(d) && InterestSound(t) && Applied(t) <= t.principal &&
            (t.status == LoanClosed <==> Settled(t)) &&
            (t.status == LoanClosed ==> AllPaid(t.schedule))
  {
    var s := Disburse(l, d).state;
    DisburseKeepsSound(l, d);
    RunKeepsSound(s, steps);
    RunKeepsTerms(s, steps);
    PaidOutIsSound(Run(s, steps));
  }

  lemma {:induction false} RunKeepsTerms(l: Loan, steps: seq<Step>)
    ensures Run(l, steps).disbursed == l.disbursed
  {
    if steps != [] {
      RunKeepsTerms(l, steps[..|steps| - 1]);
    }
  }

  // ----- Retries and the rounding of amounts

  lemma {:induction false} RunKeepsRepayments(l: Loan, steps: seq<Step>)
    ensures l.repayments <= Run(l, steps).repayments
  {
    if steps != [] {
      RunKeepsRepayments(l, steps[..|steps| - 1]);
    }
  }

  /**
    Repeating an accepted repayment after any further run, even once the loan has closed, returns the
    original and changes nothing, exactly when its amount fits the column.
   */
  lemma RetryRepaymentIff(l: Loan, nanos: int, gateway: Ref, period: nat, steps: seq<Step>)
    requires 0 < nanos && Repay(l, nanos, gateway, period).Commit?
    ensures var r := Repay(l, nanos, gateway, period);
            var later := Run(r.state, steps);
            (Repay(later, nanos, gateway, period) == Commit(later, r.value)) <==> (nanos % TICK == 0)
  {
    var r := Repay(l, nanos, gateway, period);
    var later := Run(r.state, steps);
    RunKeepsRepayments(r.state, steps);
    RepaymentStored(l, nanos, gateway, period);
    FirstStable(r.state.repayments, later.repayments, SameGateway(gateway));
  }

  lemma RepaymentStored(l: Loan, nanos: int, gateway: Ref, period: nat)
    requires 0 < nanos && Repay(l, nanos, gateway, period).Commit?
    ensures var r := Repay(l, nanos, gateway, period);
            First(r.state.repayments, SameGateway(gateway)) == Some(r.value) &&
            (Nanos(r.state.repayments[r.value].amount) == nanos <==> nanos % TICK == 0)
  {
    var r := Repay(l, nanos, gateway, period);
    ColumnAgainstTicks(nanos);
    if First(l.repayments, SameGateway(gateway)).None? {
      FirstAppend(l.repayments, r.state.repayments[|l.repayments|], SameGateway(gateway));
    } else {
      ColumnOfTicks(l.repayments[r.value].amount);
      assert nanos == l.repayments[r.value].amount * TICK;
    }
  }

  /** A repayment's parts add up to the amount stored for it exactly when less than half a tick was discarded. */
  lemma SplitIsWholePaymentIff(l: Loan, nanos: int, gateway: Ref, period: nat)
    requires Repay(l, nanos, gateway, period).Commit? && Repay(l, nanos, gateway, period).state != l
    requires 0 < nanos
    ensures var r := Repay(l, nanos, gateway, period).state.repayments[|l.repayments|];
            r.split.Total() == Ticks(nanos) &&
            (r.split.Total() == r.amount <==> nanos % TICK < HALF)
  {
    ColumnAgainstTicks(nanos);
  }

  /** A payment that rounds up when it is stored is a tick more than its parts, and is refused when it is repeated. */
  lemma {:induction false} RoundedUpRepayment(l: Loan, nanos: int, gateway: Ref, period: nat) returns (t: Loan)
    requires 0 < nanos && nanos % TICK >= HALF && First(l.repayments, SameGateway(gateway)).None?
    requires Repay(l, nanos, gateway, period).Commit?
    ensures Repay(l, nanos, gateway, period) == Commit(t, |l.repayments|) && |t.repayments| == |l.repayments| + 1
    ensures t.repayments[|l.repayments|].split.Total() == Ticks(nanos) &&
            t.repayments[|l.repayments|].amount == Ticks(nanos) + 1
    ensures Repay(t, nanos, gateway, period) == Abort(RepaymentAmountConflict)
  {
    t := Repay(l, nanos, gateway, period).state;
    assert |t.repayments| == |l.repayments| + 1;
    SplitIsWholePaymentIff(l, nanos, gateway, period);
    RepaymentStored(l, nanos, gateway, period);
    ColumnAgainstTicks(nanos);
  }

  /** A running loan of one shilling, due in one instalment, with no interest and nothing repaid. */
  const ShillingLoan: Loan :=
    Loan(1, 1, 10_000, 0, 1, LoanActive, [], Some(Disbursement(0, 0, 1)), [Instalment(1, 10_000, Upcoming)],
         [InterestRow(0, 10_000, 0)], [], 0)

  /**
    So it is with 0.00015 paid on a loan of one shilling: split as 0.0001, stored as 0.0002, and refused the second
    time.
   */
  lemma {:induction false} HalfTickLost(l: Loan) returns (t: Loan)
    requires l == ShillingLoan
    ensures Repay(l, 150_000, "g", 0) == Commit(t, 0) && |t.repayments| == 1
    ensures t.repayments[0].split.Total() == 1 && t.repayments[0].amount == 2
    ensures Repay(t, 150_000, "g", 0) == Abort(RepaymentAmountConflict)
  {
    assert !Backdated(l, 0) && Column(150_000) == 2;
    t := RoundedUpRepayment(l, 150_000, "g", 0);
  }

  // ----- What a month's contribution has to cover

  function Owed(i: Instalment): int { if i.status == Superseded then 0 else i.amount }

  /** What the principal applied so far leaves of instalment k. */
  function StillDue(s: seq<Instalment>, applied: int, k: nat): int
    requires k < |s|
  {
    AtLeastZero(s[k].amount - AtLeastZero(applied - Sums.Of(s[..k], Owed)))
  }

  predicate DueIn(i: Instalment, period: int) { i.dueMonth == period && i.status != Paid && i.status != Superseded }

  /** ... over the first n instalments, for those due in the month and not paid. */
  function DueUpTo(s: seq<Instalment>, applied: int, period: int, n: nat): int
    requires n <= |s|
  {
    if n == 0 then 0
    else DueUpTo(s, applied, period, n - 1) + (if DueIn(s[n - 1], period) then StillDue(s, applied, n - 1) else 0)
  }

  /** installment_due of ListContributionLoanPositions, rounded up to whole cents. */
  function InstalmentDue(l: Loan, period: int): int {
    (DueUpTo(l.schedule, Min(Applied(l), l.principal), period, |l.schedule|) + 99) / 100 * 100
  }

  /** What the month asks for on one loan: the quote's sum over its instalments. */
  method QuoteInstalment(l: Loan, period: nat) returns (due: int)
    ensures due == InstalmentDue(l, period)
  {
    var applied := Min(Applied(l), l.principal);
    var sum, earlier := 0, 0;
    for k := 0 to |l.schedule|
      invariant sum == DueUpTo(l.schedule, applied, period, k) && earlier == Sums.Of(l.schedule[..k], Owed)
    {
      var i := l.schedule[k];
      if DueIn(i, period) { sum := sum + AtLeastZero(i.amount - AtLeastZero(applied - earlier)); }
      assert l.schedule[..k + 1][..k] == l.schedule[..k];
      earlier := earlier + Owed(i);
    }
    due := (sum + 99) / 100 * 100;
  }

  lemma {:induction false} DueAddsUp(s: seq<Instalment>, applied: int, period: int, n: nat)
    requires n <= |s| && forall k | 0 <= k < |s| && DueIn(s[k], period) :: 0 < StillDue(s, applied, k)
    ensures 0 <= DueUpTo(s, applied, period, n)
    ensures DueUpTo(s, applied, period, n) == 0 <==> forall k | 0 <= k < n :: !DueIn(s[k], period)
  {
    if n != 0 { DueAddsUp(s, applied, period, n - 1); }
  }

  /** An unpaid instalment of an account that is in order always has something left to pay. */
  lemma {:induction false} UnpaidIsStillDue(l: Loan, k: nat)
    requires l.disbursed.Some? && SplitsSound(l) && ScheduleSound(l) && k < |l.schedule| && l.schedule[k].status != Paid
    ensures 0 < StillDue(l.schedule, Min(Applied(l), l.principal), k) && l.schedule[k].status != Superseded
  {
    var s := Schedule(l.principal, l.months, DueMonths(l.disbursed.value));
    AppliedNonNegative(l);
    ScheduleIsNew(l.principal, l.months, DueMonths(l.disbursed.value));
    AdvanceAt(s, Applied(l), k);
    SameOwed(s, l.schedule, Applied(l), k);
    ThroughStep(s, k);
  }

  lemma {:induction false} ThroughStep(s: seq<Instalment>, k: nat)
    requires k < |s|
    ensures Through(s, k + 1) == Through(s, k) + s[k].amount
  {
    assert s[..k + 1][..k] == s[..k];
  }

  lemma {:induction false} SameOwed(s: seq<Instalment>, t: seq<Instalment>, applied: int, k: nat)
    requires Positive(s) && 0 <= applied && t == Advance(s, applied) && k <= |s| &&
             forall i | 0 <= i < |s| :: s[i].status == Upcoming
    ensures Sums.Of(t[..k], Owed) == Through(s, k)
  {
    forall i | 0 <= i < k ensures Owed(t[..k][i]) == Amount(s[..k][i]) { AdvanceAt(s, applied, i); }
    Sums.OfCongruent(t[..k], s[..k], Owed, Amount);
  }

  /** Nothing is due for a month exactly when every instalment of the month is paid. */
  lemma {:induction false} NothingDueIff(l: Loan, period: int)
    requires l.disbursed.Some? && SplitsSound(l) && ScheduleSound(l)
    ensures 0 <= InstalmentDue(l, period)
    ensures InstalmentDue(l, period) == 0 <==>
            forall k | 0 <= k < |l.schedule| && l.schedule[k].dueMonth == period :: l.schedule[k].status == Paid
  {
    var applied := Min(Applied(l), l.principal);
    forall k | 0 <= k < |l.schedule| && l.schedule[k].status != Paid
      ensures 0 < StillDue(l.schedule, applied, k) && l.schedule[k].status != Superseded
    {
      UnpaidIsStillDue(l, k);
    }
    DueAddsUp(l.schedule, applied, period, |l.schedule|);
  }

  // ----- The month's instalments together

  function Max(a: int, b: int): int { if a < b then b else a }

  /** What the principal applied so far leaves of the instalments from i up to j, taken together. */
  function Gap(s: seq<Instalment>, applied: int, i: nat, j: nat): int
    requires i <= j <= |s|
  {
    AtLeastZero(Through(s, j) - Max(applied, Through(s, i)))
  }

  /** Instalments are paid in their order, up to the principal that has been applied. */
  predicate PaidInOrder(s: seq<Instalment>, applied: int) {
    Positive(s) && forall k | 0 <= k < |s| ::
      s[k].status != Superseded && (s[k].status == Paid <==> Through(s, k + 1) <= applied)
  }

  /** The month's instalments are those from i up to j. */
  predicate MonthIs(s: seq<Instalment>, period: int, i: nat, j: nat) {
    i <= j <= |s| && forall k | 0 <= k < |s| :: s[k].dueMonth == period <==> i <= k < j
  }

  lemma {:induction false} NoneSuperseded(s: seq<Instalment>, k: nat)
    requires k <= |s| && forall i | 0 <= i < |s| :: s[i].status != Superseded
    ensures Sums.Of(s[..k], Owed) == Through(s, k)
  {
    Sums.OfCongruent(s[..k], s[..k], Owed, Amount);
  }

  /** Summed one by one, they are due for exactly that gap. */
  lemma {:induction false} DueIsTheGap(s: seq<Instalment>, applied: int, period: int, i: nat, j: nat, n: nat)
    requires PaidInOrder(s, applied) && MonthIs(s, period, i, j) && n <= |s| && 0 <= applied
    ensures DueUpTo(s, applied, period, n) == if n <= i then 0 else Gap(s, applied, i, Min(n, j))
  {
    if n != 0 {
      DueIsTheGap(s, applied, period, i, j, n - 1);
      NoneSuperseded(s, n - 1);
      ThroughStep(s, n - 1);
      if i < n { ThroughIncreases(s, i, n - 1); }
    }
  }

  lemma {:induction false} ScheduleStanding(l: Loan)
    requires l.disbursed.Some? && SplitsSound(l) && ScheduleSound(l)
    ensures PaidInOrder(l.schedule, Applied(l)) && 0 <= Applied(l)
  {
    var s := Schedule(l.principal, l.months, DueMonths(l.disbursed.value));
    AppliedNonNegative(l);
    ScheduleIsNew(l.principal, l.months, DueMonths(l.disbursed.value));
    forall k | 0 <= k < |s| ensures l.schedule[k] == s[k].(status := StatusAt(s, Applied(l), k)) {
      AdvanceAt(s, Applied(l), k);
    }
    forall k | 0 <= k <= |s| ensures Through(l.schedule, k) == Through(s, k) {
      Sums.OfCongruent(l.schedule[..k], s[..k], Amount, Amount);
    }
  }

  lemma {:induction false} MonthIsTheGap(l: Loan, period: int, i: nat, j: nat)
    requires l.disbursed.Some? && SplitsSound(l) && ScheduleSound(l) && MonthIs(l.schedule, period, i, j)
    ensures DueUpTo(l.schedule, Min(Applied(l), l.principal), period, |l.schedule|) ==
            Gap(l.schedule, Applied(l), i, j)
  {
    ScheduleStanding(l);
    DueIsTheGap(l.schedule, Applied(l), period, i, j, |l.schedule|);
  }

  lemma {:induction false} WholeCents(gap: int, due: int)
    ensures due == (gap + 99) / 100 * 100 <==> due % 100 == 0 && gap <= due < gap + 100
  {
  }

  /**
    A month asks for the fewest whole cents that cover what its instalments, taken together, still need once the
    principal applied so far has paid the instalments in their order.
   */
  lemma {:induction false} InstalmentDueIff(l: Loan, period: int, i: nat, j: nat, due: int)
    requires l.disbursed.Some? && SplitsSound(l) && ScheduleSound(l) && MonthIs(l.schedule, period, i, j)
    ensures due == InstalmentDue(l, period) <==>
            due % 100 == 0 && Gap(l.schedule, Applied(l), i, j) <= due < Gap(l.schedule, Applied(l), i, j) + 100
  {
    MonthIsTheGap(l, period, i, j);
    WholeCents(Gap(l.schedule, Applied(l), i, j), due);
  }

  /** A penalty adds exactly its amount to what a running loan owes, and nothing to any other loan. */
  lemma {:induction false} PenaltyIsOwed(l: Loan, amount: nat)
    requires SplitsSound(l)
    ensures Payable(l.status) ==>
              PenaltyDue(Penalise(l, amount)) == PenaltyDue(l) + amount &&
              Penalise(l, amount) == l.(penalties := Penalise(l, amount).penalties)
    ensures !Payable(l.status) ==> Penalise(l, amount) == l
  {
  }

  // ----- Splits stored as text

  /** allocation_breakdown: the parts as decimal text. */
  datatype Breakdown = Breakdown(penalty: string, interest: string, principal: string, credit: string)

  function Written(s: Split): Breakdown {
    Breakdown(DecimalText(s.penalty, -4), DecimalText(s.interest, -4), DecimalText(s.principal, -4),
              DecimalText(s.credit, -4))
  }

  /** (text)::numeric, in ticks. */
  function TextAmount(text: string): int {
    var x := Parse(text);
    if x.Some? then NumericToScale(x.value, -4) else 0
  }

  function PenaltyText(b: Breakdown): int { TextAmount(b.penalty) }
  function InterestText(b: Breakdown): int { TextAmount(b.interest) }
  function PrincipalText(b: Breakdown): int { TextAmount(b.principal) }
  function CreditText(b: Breakdown): int { TextAmount(b.credit) }

  function Breakdowns(repayments: seq<RepaymentRow>): (texts: seq<Breakdown>)
    ensures |texts| == |repayments| && forall i | 0 <= i < |repayments| :: texts[i] == Written(repayments[i].split)
  {
    seq(|repayments|, (i: nat) requires i < |repayments| => Written(repayments[i].split))
  }

  lemma {:induction false} TextIsExact(n: int)
    ensures TextAmount(DecimalText(n, -4)) == n
  {
    TextDenotes(n, -4);
  }

  lemma {:induction false} PartsAreExact(s: Split)
    ensures PenaltyText(Written(s)) == s.penalty && InterestText(Written(s)) == s.interest
    ensures PrincipalText(Written(s)) == s.principal && CreditText(Written(s)) == s.credit
  {
    TextIsExact(s.penalty);
    TextIsExact(s.interest);
    TextIsExact(s.principal);
    TextIsExact(s.credit);
  }

  /** Summing the stored texts gives the totals of the splits they were written from, bucket by bucket. */
  lemma {:induction false} BreakdownsResum(repayments: seq<RepaymentRow>)
    ensures Sums.Of(Breakdowns(repayments), PenaltyText) == Sums.Of(repayments, PenaltyOf)
    ensures Sums.Of(Breakdowns(repayments), InterestText) == Sums.Of(repayments, InterestOf)
    ensures Sums.Of(Breakdowns(repayments), PrincipalText) == Sums.Of(repayments, PrincipalOf)
    ensures Sums.Of(Breakdowns(repayments), CreditText) == Sums.Of(repayments, CreditOf)
  {
    if repayments != [] {
      var n := |repayments| - 1;
      assert Breakdowns(repayments)[..n] == Breakdowns(repayments[..n]);
      BreakdownsResum(repayments[..n]);
      PartsAreExact(repayments[n].split);
    }
  }
}
