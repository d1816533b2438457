/**
  Splitting one payment over what is owed, and the instalment schedule
  (internal/loan/service.go: allocateRepayment, DisburseLoan's schedule, updateScheduleStatuses).
  Amounts are ticks.
 */
module Repayment {
  import opened Common
  import Sums

  // ----- Penalty, then interest, then principal, then credit

  datatype Split = Split(penalty: int, interest: int, principal: int, credit: int) {
    function Total(): int { penalty + interest + principal + credit }

    function Plus(other: Split): Split {
      Split(penalty + other.penalty, interest + other.interest, principal + other.principal, credit + other.credit)
    }
  }

  function Min(a: int, b: int): int { if a < b then a else b }

  function AtLeastZero(a: int): int { if a < 0 then 0 else a }

  /** allocateRepayment, with the caller's penalty step in front; the flag is loanClosed. */
  function Allocate(payment: int, penaltyDue: int, interestDue: int, priorApplied: int, principal: int): (Split, bool) {
    var penalty := Min(payment, penaltyDue);
    var afterPenalty := payment - penalty;
    var outstanding := AtLeastZero(principal - priorApplied);
    var interest := Min(afterPenalty, interestDue);
    var afterInterest := afterPenalty - interest;
    var applied := Min(afterInterest, outstanding);
    (Split(penalty, interest, applied, afterInterest - applied),
     priorApplied + applied >= principal && interest >= interestDue && penalty >= penaltyDue)
  }

  /** A split that follows the order of settlement: nothing reaches a bucket before the earlier ones are full. */
  predicate InOrder(s: Split, payment: int, penaltyDue: int, interestDue: int, principalDue: int) {
    && 0 <= s.penalty <= penaltyDue && 0 <= s.interest <= interestDue && 0 <= s.principal <= principalDue &&
       0 <= s.credit
    && s.Total() == payment
    && (s.interest + s.principal + s.credit > 0 ==> s.penalty == penaltyDue)
    && (s.principal + s.credit > 0 ==> s.interest == interestDue)
    && (s.credit > 0 ==> s.principal == principalDue)
  }

  /** The computed split is the one and only split of the payment in the order of settlement. */
  lemma AllocateIsTheOrderedSplit(payment: int, penaltyDue: int, interestDue: int, priorApplied: int, principal: int,
                                  s: Split)
    requires 0 <= payment && 0 <= penaltyDue && 0 <= interestDue && 0 <= priorApplied <= principal
    ensures InOrder(s, payment, penaltyDue, interestDue, principal - priorApplied)
            <==> s == Allocate(payment, penaltyDue, interestDue, priorApplied, principal).0
  {
  }

  /** The loan closes exactly when nothing remains due, and any credit implies closure. */
  lemma ClosesWhenNothingRemains(payment: int, penaltyDue: int, interestDue: int, priorApplied: int, principal: int)
    requires 0 <= payment && 0 <= penaltyDue && 0 <= interestDue && 0 <= priorApplied <= principal
    ensures var (s, closed) := Allocate(payment, penaltyDue, interestDue, priorApplied, principal);
            (closed <==> payment >= penaltyDue + interestDue + (principal - priorApplied)) &&
            s.credit == AtLeastZero(payment - (penaltyDue + interestDue + (principal - priorApplied)))
  {
  }

  /** Paying in two parts against the same dues settles exactly what one payment settles. */
  lemma TwoPaymentsSettleAsOne(first: int, second: int, penaltyDue: int, interestDue: int, priorApplied: int,
                               principal: int)
    requires 0 <= first && 0 <= second && 0 <= penaltyDue && 0 <= interestDue && 0 <= priorApplied <= principal
    ensures var a := Allocate(first, penaltyDue, interestDue, priorApplied, principal).0;
            var (b, closed) := Allocate(second, penaltyDue - a.penalty, interestDue - a.interest,
                                        priorApplied + a.principal, principal);
            Allocate(first + second, penaltyDue, interestDue, priorApplied, principal) == (a.Plus(b), closed)
  {
  }

  // ----- The instalment schedule

  datatype InstalmentStatus = Upcoming | DueNow | Paid | Missed | Partial | Superseded

  datatype Instalment = Instalment(dueMonth: int, amount: int, status: InstalmentStatus)

  function Amount(i: Instalment): int { i.amount }

  function Schedule(total: int, months: nat, dueMonth: nat -> int): seq<Instalment> {
    seq(months, (i: nat) requires i < months =>
      Instalment(dueMonth(i + 1),
                 if i == months - 1 then total / months + total % months else total / months, Upcoming))
  }

  /** DisburseLoan's loop over instalment numbers; the remainder goes on the last one. */
  method BuildSchedule(total: int, months: nat, dueMonth: nat -> int) returns (schedule: seq<Instalment>)
    requires 0 < months && 0 <= total
    ensures schedule == Schedule(total, months, dueMonth)
  {
    var instalment, remainder := total / months, total % months;
    schedule := [];
    for number := 1 to months + 1
      invariant |schedule| == number - 1
      invariant schedule == Schedule(total, months, dueMonth)[..number - 1]
    {
      var due := instalment;
      if number == months { due := due + remainder; }
      schedule := schedule + [Instalment(dueMonth(number), due, Upcoming)];
    }
  }

  lemma {:induction false} EqualAmounts(s: seq<Instalment>, each: int)
    requires forall i | 0 <= i < |s| :: s[i].amount == each
    ensures Sums.Of(s, Amount) == |s| * each
  {
    if s != [] {
      EqualAmounts(s[..|s| - 1], each);
    }
  }

  /** The equal part is positive exactly when there is a tick for every month. */
  lemma OneEach(total: int, months: nat)
    requires 0 < months && 0 <= total
    ensures 0 < total / months <==> months <= total
  {
    var q, r := total / months, total % months;
    assert total == months * q + r && 0 <= r < months;
    assert q >= 1 ==> months * q >= months;
  }

  /** The instalments sum exactly to the principal, and are all positive exactly when it reaches one tick a month. */
  lemma ScheduleSumsToPrincipal(total: int, months: nat, dueMonth: nat -> int)
    requires 0 < months && 0 <= total
    ensures var s := Schedule(total, months, dueMonth);
            |s| == months && Sums.Of(s, Amount) == total &&
            ((forall i | 0 <= i < months :: 0 < s[i].amount) <==> months <= total)
  {
    var s := Schedule(total, months, dueMonth);
    OneEach(total, months);
    var q, r := total / months, total % months;
    assert Sums.Of(s, Amount) == total by {
      EqualAmounts(s[..months - 1], q);
      PartsOfTotal(total, months);
    }
    if q <= 0 {
      assert s[0].amount == if months == 1 then total else 0;
    }
  }

  lemma PartsOfTotal(total: int, months: nat)
    requires 0 < months
    ensures (months - 1) * (total / months) + (total / months + total % months) == total
  {
    var q, r := total / months, total % months;
    assert total == months * q + r;
    assert months * q == (months - 1) * q + q;
  }

  /** updateScheduleStatuses, row by row. */
  function Advance(s: seq<Instalment>, applied: int): (t: seq<Instalment>)
    ensures |t| == |s|
  {
    if s == [] then []
    else if applied >= s[0].amount then [s[0].(status := Paid)] + Advance(s[1..], applied - s[0].amount)
    else if applied > 0 then [s[0].(status := Partial)] + Advance(s[1..], 0)
    else [s[0]] + Advance(s[1..], applied)
  }

  /** updateScheduleStatuses as the service writes it: rows whose status does not change are skipped. */
  method UpdateScheduleStatuses(s: seq<Instalment>, applied: int) returns (table: seq<Instalment>)
    ensures table == Advance(s, applied)
  {
    table := s;
    var remaining := applied;
    ghost var goal := Advance(s, applied);
    for i := 0 to |s|
      invariant |table| == |s|
      invariant forall k | 0 <= k < i :: table[k] == goal[k]
      invariant forall k | i <= k < |s| :: table[k] == s[k]
      invariant goal[i..] == Advance(s[i..], remaining)
    {
      var next := s[i].status;
      ghost var before := remaining;
      if remaining >= s[i].amount {
        next := Paid;
        remaining := remaining - s[i].amount;
      } else if remaining > 0 {
        next := Partial;
        remaining := 0;
      }
      AdvanceStep(s, i, before, goal);
      if next != s[i].status {
        table := table[i := s[i].(status := next)];
      }
    }
  }

  lemma AdvanceStep(s: seq<Instalment>, i: nat, remaining: int, goal: seq<Instalment>)
    requires i < |s| == |goal| && goal[i..] == Advance(s[i..], remaining)
    ensures var paid, partial := remaining >= s[i].amount, 0 < remaining < s[i].amount;
            goal[i] == s[i].(status := if paid then Paid else if partial then Partial else s[i].status) &&
            goal[i + 1..] == Advance(s[i + 1..],
                                     if paid then remaining - s[i].amount else if partial then 0 else remaining)
  {
    assert s[i..][1..] == s[i + 1..] && goal[i..][1..] == goal[i + 1..];
  }

  predicate Positive(s: seq<Instalment>) { forall i | 0 <= i < |s| :: 0 < s[i].amount }

  /** What the first k instalments ask for. */
  function Through(s: seq<Instalment>, k: nat): int
    requires k <= |s|
  {
    Sums.Of(s[..k], Amount)
  }

  /** The status the cumulative principal gives an instalment, whatever the path that led there. */
  function StatusAt(s: seq<Instalment>, applied: int, k: nat): InstalmentStatus
    requires k < |s|
  {
    if Through(s, k + 1) <= applied then Paid else if Through(s, k) < applied then Partial else s[k].status
  }

  lemma {:induction false} ThroughTail(s: seq<Instalment>, k: nat)
    requires 0 < k <= |s|
    ensures Through(s, k) == s[0].amount + Through(s[1..], k - 1)
  {
    if k == 1 {
      assert s[..1][..0] == [];
      assert s[1..][..0] == [];
    } else {
      ThroughTail(s, k - 1);
      assert s[..k][..k - 1] == s[..k - 1];
      assert s[1..][..k - 1][..k - 2] == s[1..][..k - 2];
    }
  }

  lemma {:induction false} ThroughIncreases(s: seq<Instalment>, j: nat, k: nat)
    requires Positive(s) && j <= k <= |s|
    ensures 0 <= Through(s, j) <= Through(s, k) && (j < k ==> Through(s, j) < Through(s, k))
    decreases k
  {
    if k == 0 {
      assert s[..0] == [];
    } else {
      assert s[..k][..k - 1] == s[..k - 1];
      if j == k {
        ThroughIncreases(s, k - 1, k - 1);
      } else {
        ThroughIncreases(s, j, k - 1);
      }
    }
  }

  /** A paid prefix, at most one partial instalment, and the rest as they were. */
  lemma {:induction false} AdvanceAt(s: seq<Instalment>, applied: int, k: nat)
    requires Positive(s) && 0 <= applied && k < |s|
    ensures Advance(s, applied)[k] == s[k].(status := StatusAt(s, applied, k))
  {
    ThroughTail(s, k + 1);
    assert s[..0] == [] && s[1..][..0] == [];
    if k == 0 {
      assert Through(s, 0) == 0;
    } else {
      ThroughTail(s, k);
      ThroughIncreases(s[1..], 0, k - 1);
      ThroughIncreases(s[1..], k - 1, k);
      AdvanceAt(s[1..], if applied >= s[0].amount then applied - s[0].amount else 0, k - 1);
    }
  }

  /** Path independence: advancing step by step ends where one computation from the total ends. */
  lemma AdvanceTwice(s: seq<Instalment>, a: int, b: int)
    requires Positive(s) && 0 <= a <= b
    ensures Advance(Advance(s, a), b) == Advance(s, b)
  {
    var t := Advance(s, a);
    forall k | 0 <= k < |s| ensures t[k].amount == s[k].amount {
      AdvanceAt(s, a, k);
    }
    forall k | 0 <= k < |s| ensures Advance(t, b)[k] == Advance(s, b)[k] {
      AdvanceAt(s, a, k);
      AdvanceAt(s, b, k);
      AdvanceAt(t, b, k);
      Sums.OfCongruent(s[..k], t[..k], Amount, Amount);
      Sums.OfCongruent(s[..k + 1], t[..k + 1], Amount, Amount);
    }
  }

  lemma {:induction false} AdvanceByNothing(s: seq<Instalment>)
    requires Positive(s)
    ensures Advance(s, 0) == s
  {
    if s != [] {
      AdvanceByNothing(s[1..]);
    }
  }

  /** A new schedule is positive, unpaid, and sums to the principal. */
  lemma ScheduleIsNew(total: int, months: nat, dueMonth: nat -> int)
    requires 0 < months <= total
    ensures var s := Schedule(total, months, dueMonth);
            s != [] && Positive(s) && Sums.Of(s, Amount) == total && forall k | 0 <= k < |s| :: s[k].status != Paid
  {
    ScheduleSumsToPrincipal(total, months, dueMonth);
  }

  predicate AllPaid(s: seq<Instalment>) { forall k | 0 <= k < |s| :: s[k].status == Paid }

  /** Every instalment of an unpaid schedule is paid exactly when its whole total has been applied. */
  lemma AllPaidIff(s: seq<Instalment>, applied: int)
    requires Positive(s) && 0 <= applied && s != []
    requires forall k | 0 <= k < |s| :: s[k].status != Paid
    ensures AllPaid(Advance(s, applied)) <==> Sums.Of(s, Amount) <= applied
  {
    assert s[..|s|] == s;
    AdvanceAt(s, applied, |s| - 1);
    forall k | 0 <= k < |s| ensures Sums.Of(s, Amount) <= applied ==> Advance(s, applied)[k].status == Paid {
      AdvanceAt(s, applied, k);
      ThroughIncreases(s, k + 1, |s|);
    }
  }

  lemma NewSchedulePaidIff(total: int, months: nat, dueMonth: nat -> int, applied: int)
    requires 0 < months <= total && 0 <= applied
    ensures AllPaid(Advance(Schedule(total, months, dueMonth), applied)) <==> total <= applied
  {
    ScheduleIsNew(total, months, dueMonth);
    AllPaidIff(Schedule(total, months, dueMonth), applied);
  }

  // ----- Due dates

  /** Days of a calendar month; month 0 is January of year 0. */
  function DaysIn(month: nat): (d: nat)
    ensures 28 <= d <= 31
  {
    var year, m := month / 12, month % 12;
    if m == 1 then (if year % 4 == 0 && (year % 100 != 0 || year % 400 == 0) then 29 else 28)
    else if m == 3 || m == 5 || m == 8 || m == 10 then 30
    else 31
  }

  /** time.Date with a day beyond the end of the month: the excess spills into the next month. */
  function MonthOf(month: nat, day: nat): nat
    requires 1 <= day
    decreases day
  {
    if day <= DaysIn(month) then month else MonthOf(month + 1, day - DaysIn(month))
  }

  /** The instalment falls due at the end of the month that AddDate(0, number, 0) lands in. */
  function DueMonth(disbursedMonth: nat, disbursedDay: nat, number: nat): nat
    requires 1 <= disbursedDay
  {
    MonthOf(disbursedMonth + number, disbursedDay)
  }

  /** An instalment is due in its own month exactly when that month has the day of disbursement. */
  lemma DueInItsMonthIff(month: nat, day: nat, number: nat)
    requires 1 <= day <= DaysIn(month)
    ensures DueMonth(month, day, number) == month + number <==> day <= DaysIn(month + number)
    ensures day <= 28 ==> DueMonth(month, day, number) == month + number
    ensures DueMonth(month, day, number) <= month + number + 1
  {
    var next := month + number;
    if day > DaysIn(next) {
      assert day - DaysIn(next) <= 3 <= DaysIn(next + 1);
      assert MonthOf(next, day) == MonthOf(next + 1, day - DaysIn(next)) == next + 1;
    }
  }

  /** A loan disbursed on 31 January 2027 has two instalments due in March and none in February. */
  lemma TwoInstalmentsInMarch()
    ensures var january := 2027 * 12;
            DueMonth(january, 31, 1) == january + 2 && DueMonth(january, 31, 2) == january + 2
  {
    var january := 2027 * 12;
    assert DaysIn(january) == 31 && DaysIn(january + 1) == 28 && DaysIn(january + 2) == 31;
    assert MonthOf(january + 1, 31) == MonthOf(january + 2, 3);
  }
}
