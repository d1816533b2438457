/**
  A month's fees over whole runs: once a member's month is paid it stays paid, until the fees of that month are
  assessed anew because the member has become active during it (internal/contribution/fees.sql).
 */
module MonthlyFees {
  import opened Common
  import opened Allocations
  import opened Receipts
  import opened ReceiptPosting
  import opened Obligations
  import opened Cooperative
  import Sums

  /** No fee of the member's month is outstanding. */
  predicate MonthPaid(c: Coop, member: Id, period: nat) { Outstanding(c, member, period, None) == [] }

  /** The command assesses a fee of the month that was not on file. */
  predicate AssessesAnew(c: Coop, command: Command, member: Id, period: nat) {
    command.AssessMonth? && command.eligible && command.member == member && command.period == period &&
    (FeeKey(member, period, Com) !in c.fees || FeeKey(member, period, Lgom) !in c.fees)
  }

  lemma {:induction false} MonthPaidIff(c: Coop, member: Id, period: nat)
    ensures MonthPaid(c, member, period) <==>
            FeeDue(c, FeeKey(member, period, Com), None) <= 0 && FeeDue(c, FeeKey(member, period, Lgom), None) <= 0
  {
  }

  /** The fee's assessment and what has been paid on it are the same in both states. */
  ghost predicate SameFee(c: Coop, t: Coop, key: FeeKey) {
    (key in t.fees <==> key in c.fees) && (key in c.fees ==> t.fees[key] == c.fees[key]) &&
    FeesPaid(t, key) == FeesPaid(c, key)
  }

  lemma {:induction false} SameFeesSameMonth(c: Coop, t: Coop, member: Id, period: nat)
    requires SameFee(c, t, FeeKey(member, period, Com)) && SameFee(c, t, FeeKey(member, period, Lgom))
    ensures MonthPaid(t, member, period) <==> MonthPaid(c, member, period)
  {
    MonthPaidIff(c, member, period);
    MonthPaidIff(t, member, period);
  }

  lemma {:induction false} TakeKeepsFee(c: Coop, n: NewReceipt, key: FeeKey)
    ensures SameFee(c, Step(c, TakeReceipt(n)), key)
  {
    if |n.ids| == |n.items| && Accept(c, n).Commit? {
      AcceptedIsAppended(c, n);
      var x := Accept(c, n).state.receipts[|c.receipts|];
      PendingPaysNothing(x, key, 0, None);
      Sums.OfAppend(c.receipts, x, FeePaid(key, None));
    }
  }

  lemma {:induction false} RetryKeepsFee(c: Coop, id: nat, key: FeeKey)
    ensures SameFee(c, Step(c, RetryReceipt(id)), key)
  {
    if id < |c.receipts| { StatusPaysNothing(c, id, ReceiptPending); }
  }

  /** Processing a receipt leaves the fees of other members and months alone. */
  lemma {:induction false} WorkKeepsOtherFee(c: Coop, id: nat, eligible: bool, now: nat, fault: Option<nat>,
                                             key: FeeKey)
    requires ReceiptsSound(c)
    requires var t := Process(c, id, eligible, now, fault).After(c);
             CompletedBy(c, t, id) ==> c.receipts[id].member != key.member || c.receipts[id].period != key.period
    ensures SameFee(c, Process(c, id, eligible, now, fault).After(c), key)
  {
    var r := Process(c, id, eligible, now, fault);
    if r.Commit? && r.state != c {
      ProcessOutcomes(c, id, eligible, now, fault);
      if r.state.receipts[id].status == ReceiptCompleted {
        CompletingAdds(c, id, r.state.receipts[id].rows, key, 0);
        assert FeesPaid(r.state, key) == FeesPaid(c, key);
      } else {
        StatusPaysNothing(c, id, FailureStatus(c.receipts[id].channel));
      }
    }
  }

  lemma {:induction false} WorkKeepsMonthPaid(c: Coop, id: nat, eligible: bool, now: nat, fault: Option<nat>,
                                              member: Id, period: nat)
    requires Invariant(c) && MonthPaid(c, member, period)
    ensures MonthPaid(Process(c, id, eligible, now, fault).After(c), member, period)
  {
    var t := Process(c, id, eligible, now, fault).After(c);
    ProcessKeepsObligations(c, id, eligible, now, fault);
    if CompletedBy(c, t, id) && c.receipts[id].member == member && c.receipts[id].period == period {
      ProcessKeepsPapers(c, id, eligible, now, fault);
      assert SamePaper(c.receipts[id], t.receipts[id]);
    } else {
      WorkKeepsOtherFee(c, id, eligible, now, fault, FeeKey(member, period, Com));
      WorkKeepsOtherFee(c, id, eligible, now, fault, FeeKey(member, period, Lgom));
      SameFeesSameMonth(c, t, member, period);
    }
  }

  lemma {:induction false} AssessKeepsMonthPaidIff(c: Coop, command: Command, member: Id, period: nat)
    requires ObligationsSound(c) && MonthPaid(c, member, period) && command.AssessMonth?
    ensures MonthPaid(Step(c, command), member, period) <==> !AssessesAnew(c, command, member, period)
  {
    var t := Step(c, command);
    MonthPaidIff(c, member, period);
    MonthPaidIff(t, member, period);
    assert forall key: FeeKey | IsFee(key.kind) :: FeesPaid(t, key) == FeesPaid(c, key);
    assert FeesPaid(c, FeeKey(member, period, Com)) <= AssessedFee(c.fees, FeeKey(member, period, Com));
    assert FeesPaid(c, FeeKey(member, period, Lgom)) <= AssessedFee(c.fees, FeeKey(member, period, Lgom));
  }

  /** A month that is paid stays paid under a command if and only if the command does not assess a fee of it anew. */
  lemma {:induction false} StepKeepsMonthPaidIff(c: Coop, command: Command, member: Id, period: nat)
    requires Invariant(c) && MonthPaid(c, member, period)
    ensures MonthPaid(Step(c, command), member, period) <==> !AssessesAnew(c, command, member, period)
  {
    var com, lgom := FeeKey(member, period, Com), FeeKey(member, period, Lgom);
    match command
    case TakeReceipt(n) =>
      TakeKeepsFee(c, n, com);
      TakeKeepsFee(c, n, lgom);
      SameFeesSameMonth(c, Step(c, command), member, period);
    case WorkReceipt(id, eligible, now, fault) => WorkKeepsMonthPaid(c, id, eligible, now, fault, member, period);
    case RetryReceipt(id) =>
      RetryKeepsFee(c, id, com);
      RetryKeepsFee(c, id, lgom);
      SameFeesSameMonth(c, Step(c, command), member, period);
    case AssessMonth(someone, month, eligible) => AssessKeepsMonthPaidIff(c, command, member, period);
    case _ => SameFeesSameMonth(c, Step(c, command), member, period);
  }

  ghost predicate PaidThroughout(c: Coop, commands: seq<Command>, member: Id, period: nat) {
    MonthPaid(Run(c, commands), member, period) &&
    (commands == [] || PaidThroughout(c, commands[..|commands| - 1], member, period))
  }

  ghost predicate NeverAssessedAnew(c: Coop, commands: seq<Command>, member: Id, period: nat) {
    commands == [] ||
    (var init := commands[..|commands| - 1];
     NeverAssessedAnew(c, init, member, period) &&
     !AssessesAnew(Run(c, init), commands[|commands| - 1], member, period))
  }

  lemma {:induction false} PaidEnds(c: Coop, commands: seq<Command>, member: Id, period: nat)
    ensures PaidThroughout(c, commands, member, period) ==> MonthPaid(Run(c, commands), member, period)
  {
  }

  /** All along a run a paid month stays paid if and only if no fee of it is assessed anew. */
  lemma {:induction false} RunKeepsMonthPaidIff(c: Coop, commands: seq<Command>, member: Id, period: nat)
    requires Invariant(c) && HonestRun(c, commands) && MonthPaid(c, member, period)
    ensures PaidThroughout(c, commands, member, period) <==> NeverAssessedAnew(c, commands, member, period)
  {
    if commands != [] {
      var init := commands[..|commands| - 1];
      RunKeepsMonthPaidIff(c, init, member, period);
      RunKeepsInvariant(c, init);
      PaidEnds(c, init, member, period);
      if MonthPaid(Run(c, init), member, period) {
        StepKeepsMonthPaidIff(Run(c, init), commands[|commands| - 1], member, period);
      }
    }
  }

  /** A member who owes nothing for the month, and then turns out to have been active during it. */
  lemma {:induction false} ActiveLaterInTheMonth()
    ensures MonthPaid(Empty, 1, 0) && !MonthPaid(Step(Empty, AssessMonth(1, 0, true)), 1, 0)
  {
    EmptyIsSound();
    StepKeepsMonthPaidIff(Empty, AssessMonth(1, 0, true), 1, 0);
  }
}
