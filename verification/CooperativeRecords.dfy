/**
  What the records of the co-operative say in every state of every run: whose the credits are, who approved and paid
  each refund, that every approved correction is in the ledger, and that receipts are posted for their own members.
 */
module CooperativeRecords {
  import opened Common
  import opened Decimals
  import opened ShareLedger
  import LoanAccount
  import opened Lending
  import opened Allocations
  import opened Receipts
  import opened ReceiptPosting
  import opened Cooperative
  import CooperativeLedger
  import Credits

  // ----- Whose the credits are

  /** Every credit is that of the loan that was overpaid, and of the loan's member. */
  ghost predicate CreditsOwned(o: Office) {
    forall k | 0 <= k < |o.credits| ::
      o.credits[k].loan < |o.loans| && o.credits[k].member == o.loans[o.credits[k].loan].member
  }

  /** Loans keep their members, and credits stay where they are. */
  lemma {:induction false} GrownKeepsOwned(o: Office, p: Office)
    requires CreditsOwned(o) && Grows(o, p) && |p.credits| == |o.credits|
    requires forall k | 0 <= k < |o.credits| :: p.credits[k].loan == o.credits[k].loan
    ensures CreditsOwned(p)
  {
    forall k | 0 <= k < |p.credits|
      ensures p.credits[k].loan < |p.loans| && p.credits[k].member == p.loans[p.credits[k].loan].member
    {
      assert LoanGrows(o.loans[o.credits[k].loan], p.loans[o.credits[k].loan]);
    }
  }

  lemma {:induction false} RepaymentKeepsOwned(o: Office, loan: nat, nanos: int, gateway: Ref, period: nat, now: nat,
                                               owner: Option<Owner>)
    requires CreditsOwned(o)
    ensures CreditsOwned(RecordRepayment(o, loan, nanos, gateway, period, now, owner).After(o))
  {
    var p := RecordRepayment(o, loan, nanos, gateway, period, now, owner).After(o);
    AcceptsRepaymentIff(o, loan, nanos, gateway, period, now, owner);
    if AcceptsRepayment(o, loan, nanos, gateway, period, now, owner) {
      OverpaymentIff(o, loan, nanos, gateway, period, now, owner);
      RepaymentGrows(o, loan, nanos, gateway, period, now, owner);
      CreditedKeepsOwned(o, p, loan, Ticks(nanos) - LoanAccount.StillOwed(o.loans[loan], period));
    }
  }

  lemma {:induction false} CreditedKeepsOwned(o: Office, p: Office, loan: nat, excess: int)
    requires CreditsOwned(o) && Grows(o, p) && loan < |o.loans| && p.credits == CreditedTo(o, loan, excess)
    ensures CreditsOwned(p)
  {
    forall k | 0 <= k < |p.credits|
      ensures p.credits[k].loan < |p.loans| && p.credits[k].member == p.loans[p.credits[k].loan].member
    {
      var l := if k < |o.credits| then o.credits[k].loan else loan;
      assert LoanGrows(o.loans[l], p.loans[l]);
    }
  }

  /** Commands other than repayments change at most the status of a credit. */
  lemma {:induction false} SameCredits(o: Office, command: OfficeCommand)
    requires !command.RepayLoan?
    ensures var p := Perform(o, command);
            |p.credits| == |o.credits| && forall k | 0 <= k < |o.credits| :: p.credits[k].loan == o.credits[k].loan
  {
    if GuaranteeCommand(command) {
      GuaranteesKeepCredits(o, command);
    } else if LoanCommand(command) {
      LoansKeepCredits(o, command);
    }
  }

  lemma {:induction false} GuaranteesKeepCredits(o: Office, command: OfficeCommand)
    requires GuaranteeCommand(command)
    ensures Perform(o, command).credits == o.credits
  {
  }

  lemma {:induction false} LoansKeepCredits(o: Office, command: OfficeCommand)
    requires LoanCommand(command)
    ensures Perform(o, command).credits == o.credits
  {
  }

  lemma {:induction false} PerformKeepsOwned(o: Office, command: OfficeCommand)
    requires CreditsOwned(o)
    ensures CreditsOwned(Perform(o, command))
  {
    if command.RepayLoan? {
      RepaymentKeepsOwned(o, command.loan, command.nanos, command.gateway, command.period, command.now, command.owner);
    } else {
      SameCredits(o, command);
      PerformGrows(o, command);
      GrownKeepsOwned(o, Perform(o, command));
    }
  }

  lemma {:induction false} PostingKeepsOwned(d: Desk, q: Credits.CreditRequest)
    requires CreditsOwned(d.office) && q.credit < |d.office.credits| && !q.action.Reviewing() &&
             Credits.SpendError(d, q).None?
    ensures CreditsOwned(Credits.PostSpend(d, q).After(d.office))
  {
    if q.action == Credits.ApplyLoan {
      RepaymentKeepsOwned(d.office, Credits.Target(d, q).value, Nanos(q.amount), Credits.Gateway(q.operation),
                          q.period.value, q.now, Some(Owner(d.office.credits[q.credit].member, q.branch)));
    }
  }

  lemma {:induction false} SpendKeepsOwned(d: Desk, q: Credits.CreditRequest)
    requires CreditsOwned(d.office)
    ensures CreditsOwned(Credits.ManageCredit(d, q).After(d).office)
  {
    var t := Credits.ManageCredit(d, q).After(d);
    if t.office != d.office { PostingKeepsOwned(d, q); }
  }

  lemma {:induction false} PostRowsKeepOwned(d: Desk, r: Receipt, rows: seq<AllocationRow>, now: nat,
                                             fault: Option<nat>)
    requires CreditsOwned(d.office) && PostRows(d, r, rows, now, fault).Commit?
    ensures CreditsOwned(PostRows(d, r, rows, now, fault).state.office)
  {
    if rows != [] {
      var n := |rows| - 1;
      PostRowsKeepOwned(d, r, rows[..n], now, fault);
      NextRowKeepsOwned(PostRows(d, r, rows[..n], now, fault).state, r, rows[n], now, fault == Some(n));
    }
  }

  lemma {:induction false} NextRowKeepsOwned(d: Desk, r: Receipt, row: AllocationRow, now: nat, faulty: bool)
    requires CreditsOwned(d.office) && NextRow(d, r, row, now, faulty).Commit?
    ensures CreditsOwned(NextRow(d, r, row, now, faulty).state.office)
  {
    if row.key.kind == LoanPrincipal && row.key.target.Some? {
      RepaymentKeepsOwned(d.office, row.key.target.value, Nanos(row.amount), row.id, r.period, now,
                          Some(Owner(r.member, r.branch)));
    }
  }

  lemma {:induction false} AttemptKeepsOwned(c: Coop, id: nat, eligible: bool, now: nat, fault: Option<nat>)
    requires CreditsOwned(c.desk.office) && id < |c.receipts| && Attempt(c, id, eligible, now, fault).Commit?
    ensures CreditsOwned(Attempt(c, id, eligible, now, fault).state.desk.office)
  {
    PostRowsKeepOwned(c.desk, c.receipts[id], c.receipts[id].rows, now, fault);
  }

  lemma {:induction false} StepKeepsOwned(c: Coop, command: Command)
    requires CreditsOwned(c.desk.office)
    ensures CreditsOwned(Step(c, command).desk.office)
  {
    match command
    case Direct(command) => PerformKeepsOwned(c.desk.office, command);
    case SpendCredit(request) => SpendKeepsOwned(c.desk, request);
    case WorkReceipt(id, eligible, now, fault) =>
      ghost var t := ProcessLeaves(c, id, eligible, now, fault);
      if t.desk != c.desk { AttemptKeepsOwned(c, id, eligible, now, fault); }
    case _ =>
  }

  /**
    In every state of every run each credit belongs to an existing loan and to that loan's member: to whoever overpaid.
   */
  lemma {:induction false} RunKeepsOwned(c: Coop, commands: seq<Command>)
    requires CreditsOwned(c.desk.office)
    ensures CreditsOwned(Run(c, commands).desk.office)
  {
    if commands != [] {
      RunKeepsOwned(c, commands[..|commands| - 1]);
      StepKeepsOwned(Run(c, commands[..|commands| - 1]), commands[|commands| - 1]);
    }
  }

  /** So a new transfer buys shares on an account of whoever overpaid, and a loan payment goes to a loan of theirs. */
  lemma {:induction false} SpendReachesPayer(d: Desk, q: Credits.CreditRequest)
    requires CreditsOwned(d.office) && Credits.ManageCredit(d, q).Commit? && q.operation !in d.operations
    ensures q.credit < |d.office.credits| && d.office.credits[q.credit].loan < |d.office.loans|
    ensures var payer, target := d.office.loans[d.office.credits[q.credit].loan].member, Credits.Target(d, q);
            (q.action == Credits.TransferShares ==>
               target.Some? && target.value in d.office.shares.accounts &&
               d.office.shares.accounts[target.value].member == payer) &&
            (q.action == Credits.ApplyLoan ==>
               target.Some? && target.value < |d.office.loans| && d.office.loans[target.value].member == payer)
  {
    if q.action == Credits.TransferShares || q.action == Credits.ApplyLoan { Credits.SpendIff(d, q); }
  }

  // ----- Who approved and who paid each refund

  /** Somebody else than its requester approves the pending refund. */
  ghost predicate Approves(c: Coop, command: Command, k: Ref) {
    command.SpendCredit? && command.request.action == Credits.ApproveRefund && command.request.operation == k &&
    Credits.ManageCredit(c.desk, command.request).Commit? && k in c.desk.operations &&
    c.desk.operations[k].requestedBy != command.request.actor
  }

  /** Somebody else than its requester records this payout of the approved refund. */
  ghost predicate PaysOut(c: Coop, command: Command, k: Ref, payout: Ref) {
    command.SpendCredit? && command.request.action == Credits.RecordRefund && command.request.operation == k &&
    command.request.payout == payout && command.request.evidence != "" &&
    Credits.ManageCredit(c.desk, command.request).Commit? && k in c.desk.operations &&
    c.desk.operations[k].requestedBy != command.request.actor
  }

  ghost predicate ApprovedIn(c: Coop, commands: seq<Command>, k: Ref) {
    commands != [] &&
    (ApprovedIn(c, commands[..|commands| - 1], k) ||
     Approves(Run(c, commands[..|commands| - 1]), commands[|commands| - 1], k))
  }

  ghost predicate PaidOutIn(c: Coop, commands: seq<Command>, k: Ref, payout: Ref) {
    commands != [] &&
    (PaidOutIn(c, commands[..|commands| - 1], k, payout) ||
     (PaysOut(Run(c, commands[..|commands| - 1]), commands[|commands| - 1], k, payout) &&
      ApprovedIn(c, commands[..|commands| - 1], k)))
  }

  predicate RefundAt(d: Desk, k: Ref, status: Credits.OperationStatus) {
    k in d.operations && d.operations[k].action == Credits.RequestRefund && d.operations[k].status == status
  }

  lemma {:induction false} OperationsAlone(c: Coop, command: Command)
    requires !command.SpendCredit?
    ensures Step(c, command).desk.operations == c.desk.operations
  {
    if command.WorkReceipt? { ProcessGrows(c, command.id, command.eligible, command.now, command.fault); }
  }

  /** How a refund comes to be approved. */
  lemma {:induction false} StepApproves(c: Coop, command: Command, k: Ref)
    requires RefundAt(Step(c, command).desk, k, Credits.OperationApproved)
    ensures RefundAt(c.desk, k, Credits.OperationApproved) || Approves(c, command, k)
  {
    if command.SpendCredit? {
      SpendApproves(c.desk, command.request, k);
    } else {
      OperationsAlone(c, command);
    }
  }

  lemma {:induction false} SpendApproves(d: Desk, q: Credits.CreditRequest, k: Ref)
    requires RefundAt(Credits.ManageCredit(d, q).After(d), k, Credits.OperationApproved)
    ensures RefundAt(d, k, Credits.OperationApproved) ||
            (q.action == Credits.ApproveRefund && q.operation == k && Credits.ManageCredit(d, q).Commit? &&
             k in d.operations && d.operations[k].requestedBy != q.actor)
  {
    if k in d.operations { Credits.OperationsMoveForward(d, q, k); }
    if q.action == Credits.RejectRefund { Credits.RejectRefundIff(d, q); }
    if q.action == Credits.RecordRefund { Credits.RecordRefundIff(d, q); }
    if q.action == Credits.ApproveRefund { Credits.ApproveRefundIff(d, q); }
    if !q.action.Reviewing() { SpendsAreNoRefunds(d, q, k); }
  }

  /** Transfers, payments and requests make no refund approved or completed. */
  lemma {:induction false} SpendsAreNoRefunds(d: Desk, q: Credits.CreditRequest, k: Ref)
    requires !q.action.Reviewing() && k in Credits.ManageCredit(d, q).After(d).operations
    ensures var t := Credits.ManageCredit(d, q).After(d);
            (k in d.operations && t.operations[k] == d.operations[k]) ||
            t.operations[k].action != Credits.RequestRefund || t.operations[k].status == Credits.OperationPending
  {
  }

  /** How a refund comes to be completed: by a payout of one that is approved. */
  lemma {:induction false} StepPaysOut(c: Coop, command: Command, k: Ref)
    requires RefundAt(Step(c, command).desk, k, Credits.OperationCompleted)
    ensures (RefundAt(c.desk, k, Credits.OperationCompleted) &&
             Step(c, command).desk.operations[k].payout == c.desk.operations[k].payout) ||
            (RefundAt(c.desk, k, Credits.OperationApproved) && Step(c, command).desk.operations[k].payout.Some? &&
             PaysOut(c, command, k, Step(c, command).desk.operations[k].payout.value))
  {
    if command.SpendCredit? {
      SpendPaysOut(c.desk, command.request, k);
    } else {
      OperationsAlone(c, command);
    }
  }

  lemma {:induction false} SpendPaysOut(d: Desk, q: Credits.CreditRequest, k: Ref)
    requires RefundAt(Credits.ManageCredit(d, q).After(d), k, Credits.OperationCompleted)
    ensures var t := Credits.ManageCredit(d, q).After(d);
            (RefundAt(d, k, Credits.OperationCompleted) && t.operations[k].payout == d.operations[k].payout) ||
            (RefundAt(d, k, Credits.OperationApproved) && q.action == Credits.RecordRefund && q.operation == k &&
             Credits.ManageCredit(d, q).Commit? && t.operations[k].payout == Some(q.payout) && q.evidence != "" &&
             d.operations[k].requestedBy != q.actor)
  {
    if k in d.operations { Credits.OperationsMoveForward(d, q, k); }
    if q.action == Credits.RejectRefund { Credits.RejectRefundIff(d, q); }
    if q.action == Credits.RecordRefund { Credits.RecordRefundIff(d, q); }
    if q.action == Credits.ApproveRefund { Credits.ApproveRefundIff(d, q); }
    if !q.action.Reviewing() { SpendsAreNoRefunds(d, q, k); }
  }

  /** No refund on file has been approved yet. */
  predicate NoneApproved(d: Desk) {
    forall k | k in d.operations && d.operations[k].action == Credits.RequestRefund ::
      d.operations[k].status != Credits.OperationApproved && d.operations[k].status != Credits.OperationCompleted
  }

  /**
    Every refund that is approved after a run was approved in it by another officer than its requester; every refund
    that is completed was approved, and later paid out under its reference by another officer.
   */
  lemma {:induction false} RefundsAreApproved(c: Coop, commands: seq<Command>, k: Ref)
    requires NoneApproved(c.desk)
    ensures var d := Run(c, commands).desk;
            (RefundAt(d, k, Credits.OperationApproved) ==> ApprovedIn(c, commands, k)) &&
            (RefundAt(d, k, Credits.OperationCompleted) ==>
               d.operations[k].payout.Some? && PaidOutIn(c, commands, k, d.operations[k].payout.value))
  {
    if commands != [] {
      var init, command := commands[..|commands| - 1], commands[|commands| - 1];
      RefundsAreApproved(c, init, k);
      if RefundAt(Run(c, commands).desk, k, Credits.OperationApproved) { StepApproves(Run(c, init), command, k); }
      if RefundAt(Run(c, commands).desk, k, Credits.OperationCompleted) { StepPaysOut(Run(c, init), command, k); }
    }
  }

  lemma {:induction false} StepKeepsRejected(c: Coop, command: Command, k: Ref)
    requires RefundAt(c.desk, k, Credits.OperationRejected)
    ensures RefundAt(Step(c, command).desk, k, Credits.OperationRejected)
  {
    if command.SpendCredit? {
      Credits.OperationsMoveForward(c.desk, command.request, k);
    } else {
      OperationsAlone(c, command);
    }
  }

  /** A rejected refund stays rejected in every later state: it is never approved or paid. */
  lemma {:induction false} RunKeepsRejected(c: Coop, commands: seq<Command>, k: Ref)
    requires RefundAt(c.desk, k, Credits.OperationRejected)
    ensures RefundAt(Run(c, commands).desk, k, Credits.OperationRejected)
  {
    if commands != [] {
      RunKeepsRejected(c, commands[..|commands| - 1], k);
      StepKeepsRejected(Run(c, commands[..|commands| - 1]), commands[|commands| - 1], k);
    }
  }

  // ----- Corrections of the share ledger

  /** The adjustments are the same, and no entry has been added that corrects a balance. */
  ghost predicate NoCorrection(s: Shares, t: Shares) {
    && t.adjustments == s.adjustments && s.entries <= t.entries
    && forall i | |s.entries| <= i < |t.entries| :: t.entries[i].kind != Adjustment
  }

  lemma {:induction false} NoCorrectionTwice(s: Shares, t: Shares, u: Shares)
    requires NoCorrection(s, t) && NoCorrection(t, u)
    ensures NoCorrection(s, u)
  {
    forall i | |s.entries| <= i < |u.entries| ensures u.entries[i].kind != Adjustment {
      assert i < |t.entries| ==> u.entries[i] == t.entries[i];
    }
  }

  lemma {:induction false} PostIsNoCorrection(s: Shares, account: Id, kind: Kind, nanos: int, reference: Ref,
                                              owner: Option<Owner>)
    requires kind.Purchase? || kind.Withdrawal? || kind.Dividend?
    ensures NoCorrection(s, Post(s, account, kind, nanos, reference, owner).After(s))
  {
    AcceptsIff(s, account, kind, nanos, reference, owner);
  }

  lemma {:induction false} ReversalIsNoCorrection(s: Shares, id: nat, reference: Ref)
    ensures NoCorrection(s, Reverse(s, id, reference).After(s))
  {
    ghost var t := ReverseInserts(s, id, reference);
  }

  lemma {:induction false} RepaymentIsNoCorrection(o: Office, loan: nat, nanos: int, gateway: Ref, period: nat,
                                                   now: nat,
                                                   owner: Option<Owner>)
    ensures NoCorrection(o.shares, RecordRepayment(o, loan, nanos, gateway, period, now, owner).After(o).shares)
  {
  }

  lemma {:induction false} ShareCommandKeepsInStep(s: Shares, o: Office, command: OfficeCommand)
    requires s == o.shares && AdjustmentsInStep(s) && ShareCommand(command)
    ensures AdjustmentsInStep(Perform(o, command).shares)
  {
    if command.PostEntry? {
      if command.kind == Purchase || command.kind == Withdrawal || command.kind == Dividend {
        PostIsNoCorrection(s, command.account, command.kind, command.nanos, command.reference, command.owner);
        OthersKeepInStep(s, Perform(o, command).shares);
      }
    } else if command.ProposeAdjustment? {
      CreateKeepsInStep(s, command.account, command.nanos, command.reference);
    } else if command.Adjust? {
      ApproveKeepsInStep(s, command.adjustment);
    } else if command.ReverseEntry? {
      ReversalIsNoCorrection(s, command.entry, command.reference);
      OthersKeepInStep(s, Perform(o, command).shares);
    } else {
      OthersKeepInStep(s, Perform(o, command).shares);
    }
  }

  lemma {:induction false} SameAdjustments(o: Office, command: OfficeCommand)
    requires GuaranteeCommand(command) || LoanCommand(command) || command.RepayLoan?
    ensures Perform(o, command).shares.adjustments == o.shares.adjustments
  {
    if GuaranteeCommand(command) {
      GuaranteesKeepAdjustments(o, command);
    } else if LoanCommand(command) {
      LoansKeepAdjustments(o, command);
    }
  }

  lemma {:induction false} GuaranteesKeepAdjustments(o: Office, command: OfficeCommand)
    requires GuaranteeCommand(command)
    ensures Perform(o, command).shares.adjustments == o.shares.adjustments
  {
  }

  lemma {:induction false} LoansKeepAdjustments(o: Office, command: OfficeCommand)
    requires LoanCommand(command)
    ensures Perform(o, command).shares.adjustments == o.shares.adjustments
  {
  }

  lemma {:induction false} PerformKeepsInStep(o: Office, command: OfficeCommand)
    requires AdjustmentsInStep(o.shares)
    ensures AdjustmentsInStep(Perform(o, command).shares)
  {
    if ShareCommand(command) {
      ShareCommandKeepsInStep(o.shares, o, command);
    } else {
      CooperativeLedger.SameEntries(o, command);
      if GuaranteeCommand(command) || LoanCommand(command) || command.RepayLoan? { SameAdjustments(o, command); }
      OthersKeepInStep(o.shares, Perform(o, command).shares);
    }
  }

  lemma {:induction false} SpendIsNoCorrection(d: Desk, q: Credits.CreditRequest)
    ensures NoCorrection(d.office.shares, Credits.ManageCredit(d, q).After(d).office.shares)
  {
    var t := Credits.ManageCredit(d, q).After(d);
    if t.office != d.office {
      if q.action == Credits.TransferShares {
        PostIsNoCorrection(d.office.shares, Credits.Target(d, q).value, Purchase, Nanos(q.amount), q.operation,
                           Some(Owner(d.office.credits[q.credit].member, q.branch)));
      } else {
        RepaymentIsNoCorrection(d.office, Credits.Target(d, q).value, Nanos(q.amount), Credits.Gateway(q.operation),
                                q.period.value, q.now, Some(Owner(d.office.credits[q.credit].member, q.branch)));
      }
    }
  }

  lemma {:induction false} NextRowIsNoCorrection(d: Desk, r: Receipt, row: AllocationRow, now: nat, faulty: bool)
    requires NextRow(d, r, row, now, faulty).Commit?
    ensures NoCorrection(d.office.shares, NextRow(d, r, row, now, faulty).state.office.shares)
  {
    if row.key.target.Some? {
      var owner := Some(Owner(r.member, r.branch));
      PostIsNoCorrection(d.office.shares, row.key.target.value, Purchase, Nanos(row.amount), row.id, owner);
      RepaymentIsNoCorrection(d.office, row.key.target.value, Nanos(row.amount), row.id, r.period, now, owner);
    }
  }

  lemma {:induction false} PostRowsAreNoCorrection(d: Desk, r: Receipt, rows: seq<AllocationRow>, now: nat,
                                                   fault: Option<nat>)
    requires PostRows(d, r, rows, now, fault).Commit?
    ensures NoCorrection(d.office.shares, PostRows(d, r, rows, now, fault).state.office.shares)
  {
    if rows != [] {
      var n := |rows| - 1;
      PostRowsAreNoCorrection(d, r, rows[..n], now, fault);
      var e := PostRows(d, r, rows[..n], now, fault).state;
      NextRowIsNoCorrection(e, r, rows[n], now, fault == Some(n));
      NoCorrectionTwice(d.office.shares, e.office.shares,
                        NextRow(e, r, rows[n], now, fault == Some(n)).state.office.shares);
    }
  }

  lemma {:induction false} AttemptIsNoCorrection(c: Coop, id: nat, eligible: bool, now: nat, fault: Option<nat>)
    requires id < |c.receipts| && Attempt(c, id, eligible, now, fault).Commit?
    ensures NoCorrection(c.desk.office.shares, Attempt(c, id, eligible, now, fault).state.desk.office.shares)
  {
    PostRowsAreNoCorrection(c.desk, c.receipts[id], c.receipts[id].rows, now, fault);
  }

  lemma {:induction false} StepKeepsInStep(c: Coop, command: Command)
    requires AdjustmentsInStep(c.desk.office.shares)
    ensures AdjustmentsInStep(Step(c, command).desk.office.shares)
  {
    match command
    case Direct(command) => PerformKeepsInStep(c.desk.office, command);
    case SpendCredit(request) =>
      SpendIsNoCorrection(c.desk, request);
      OthersKeepInStep(c.desk.office.shares, Step(c, command).desk.office.shares);
    case WorkReceipt(id, eligible, now, fault) =>
      ghost var t := ProcessLeaves(c, id, eligible, now, fault);
      if t.desk != c.desk {
        AttemptIsNoCorrection(c, id, eligible, now, fault);
        OthersKeepInStep(c.desk.office.shares, t.desk.office.shares);
      }
    case _ =>
  }

  /**
    In every state of every run each approved adjustment points to an entry of its own, with its account, amount and
    reference; no other adjustment has posted anything; and every entry that corrects a balance is one of these.
   */
  lemma {:induction false} RunKeepsInStep(c: Coop, commands: seq<Command>)
    requires AdjustmentsInStep(c.desk.office.shares)
    ensures AdjustmentsInStep(Run(c, commands).desk.office.shares)
  {
    if commands != [] {
      RunKeepsInStep(c, commands[..|commands| - 1]);
      StepKeepsInStep(Run(c, commands[..|commands| - 1]), commands[|commands| - 1]);
    }
  }

  // ----- Receipts are posted for their own members

  /** The allocation went to an account or a loan of the receipt's member, in its branch. */
  predicate PostedFor(o: Office, r: Receipt, a: AllocationRow) {
    (a.key.kind == SharePurchase ==>
       a.key.target.Some? && a.key.target.value in o.shares.accounts &&
       o.shares.accounts[a.key.target.value].member == r.member &&
       o.shares.accounts[a.key.target.value].branch == r.branch) &&
    (a.key.kind == LoanPrincipal ==>
       a.key.target.Some? && a.key.target.value < |o.loans| &&
       o.loans[a.key.target.value].member == r.member && o.loans[a.key.target.value].branch == r.branch)
  }

  lemma {:induction false} PostRowIsFor(d: Desk, r: Receipt, a: AllocationRow, now: nat)
    requires PostRow(d, r, a, now).Commit?
    ensures PostedFor(d.office, r, a)
  {
  }

  lemma {:induction false} PostedForStays(o: Office, p: Office, r: Receipt, a: AllocationRow)
    requires Grows(o, p) && PostedFor(o, r, a)
    ensures PostedFor(p, r, a)
  {
    if a.key.kind == SharePurchase {
      assert SameHolder(o.shares.accounts[a.key.target.value], p.shares.accounts[a.key.target.value]);
    }
    if a.key.kind == LoanPrincipal { assert LoanGrows(o.loans[a.key.target.value], p.loans[a.key.target.value]); }
  }

  lemma {:induction false} PostRowsAreFor(d: Desk, r: Receipt, rows: seq<AllocationRow>, now: nat, fault: Option<nat>,
                                          j: nat)
    requires PostRows(d, r, rows, now, fault).Commit? && j < |rows| && AllPending(rows)
    ensures PostedFor(PostRows(d, r, rows, now, fault).state.office, r, rows[j])
  {
    var n := |rows| - 1;
    var e := PostRows(d, r, rows[..n], now, fault).state;
    PostRowsStep(d, r, rows, now, fault);
    NextRowGrows(e, r, rows[n], now, fault == Some(n));
    if j < n { PostRowsAreFor(d, r, rows[..n], now, fault, j); } else { PostRowIsFor(e, r, rows[n], now); }
    PostedForStays(e.office, PostRows(d, r, rows, now, fault).state.office, r, rows[j]);
  }

  /** Every allocation of a completed receipt went to an account or a loan of its member. */
  ghost predicate AllPostedFor(c: Coop) {
    forall i, j | 0 <= i < |c.receipts| && c.receipts[i].status == ReceiptCompleted && 0 <= j < |c.receipts[i].rows| ::
      PostedFor(c.desk.office, c.receipts[i], c.receipts[i].rows[j])
  }

  lemma {:induction false} GrownKeepsPostedFor(c: Coop, t: Coop)
    requires AllPostedFor(c) && Grows(c.desk.office, t.desk.office)
    requires forall i | 0 <= i < |t.receipts| && t.receipts[i].status == ReceiptCompleted ::
               i < |c.receipts| && c.receipts[i] == t.receipts[i]
    ensures AllPostedFor(t)
  {
    forall i, j | 0 <= i < |t.receipts| && t.receipts[i].status == ReceiptCompleted && 0 <= j < |t.receipts[i].rows|
      ensures PostedFor(t.desk.office, t.receipts[i], t.receipts[i].rows[j])
    {
      PostedForStays(c.desk.office, t.desk.office, c.receipts[i], c.receipts[i].rows[j]);
    }
  }

  lemma {:induction false} WorkKeepsPostedFor(c: Coop, id: nat, eligible: bool, now: nat, fault: Option<nat>)
    requires ReceiptsSound(c) && AllPostedFor(c)
    ensures AllPostedFor(Process(c, id, eligible, now, fault).After(c))
  {
    var p := Process(c, id, eligible, now, fault);
    ProcessGrows(c, id, eligible, now, fault);
    if p.Commit? && p.state != c {
      ProcessOutcomes(c, id, eligible, now, fault);
      if p.state.receipts[id].status == ReceiptCompleted {
        CompletedIsFor(c, p.state, id, now, fault);
      } else {
        GrownKeepsPostedFor(c, p.state);
      }
    }
  }

  lemma {:induction false} CompletedIsFor(c: Coop, t: Coop, id: nat, now: nat, fault: Option<nat>)
    requires ReceiptsSound(c) && AllPostedFor(c) && id < |c.receipts| && c.receipts[id].status == ReceiptPending
    requires PostRows(c.desk, c.receipts[id], c.receipts[id].rows, now, fault).Commit?
    requires var p := PostRows(c.desk, c.receipts[id], c.receipts[id].rows, now, fault);
             t.desk == p.state &&
             t.receipts == c.receipts[id := c.receipts[id].(status := ReceiptCompleted, rows := p.value)]
    requires Grows(c.desk.office, t.desk.office)
    ensures AllPostedFor(t)
  {
    var rows := c.receipts[id].rows;
    assert ReceiptSound(c.receipts[id]);
    PostRowsComplete(c.desk, c.receipts[id], rows, now, fault);
    forall i, j | 0 <= i < |t.receipts| && t.receipts[i].status == ReceiptCompleted && 0 <= j < |t.receipts[i].rows|
      ensures PostedFor(t.desk.office, t.receipts[i], t.receipts[i].rows[j])
    {
      if i == id {
        PostRowsAreFor(c.desk, c.receipts[id], rows, now, fault, j);
      } else {
        PostedForStays(c.desk.office, t.desk.office, c.receipts[i], c.receipts[i].rows[j]);
      }
    }
  }

  lemma {:induction false} StepKeepsPostedFor(c: Coop, command: Command)
    requires ReceiptsSound(c) && AllPostedFor(c)
    ensures AllPostedFor(Step(c, command))
  {
    if command.WorkReceipt? {
      WorkKeepsPostedFor(c, command.id, command.eligible, command.now, command.fault);
    } else {
      StepGrows(c, command);
      NothingCompleted(c, command);
      GrownKeepsPostedFor(c, Step(c, command));
    }
  }

  lemma {:induction false} NothingCompleted(c: Coop, command: Command)
    requires !command.WorkReceipt?
    ensures var t := Step(c, command);
            forall i | 0 <= i < |t.receipts| && t.receipts[i].status == ReceiptCompleted ::
              i < |c.receipts| && c.receipts[i] == t.receipts[i]
  {
  }

  /**
    In every state of an honest run the allocations of completed receipts have gone to their own members' accounts and
    loans.
   */
  lemma {:induction false} RunKeepsPostedFor(c: Coop, commands: seq<Command>)
    requires Invariant(c) && HonestRun(c, commands) && AllPostedFor(c)
    ensures AllPostedFor(Run(c, commands))
  {
    if commands != [] {
      RunKeepsPostedFor(c, commands[..|commands| - 1]);
      RunKeepsInvariant(c, commands[..|commands| - 1]);
      StepKeepsPostedFor(Run(c, commands[..|commands| - 1]), commands[|commands| - 1]);
    }
  }
}
