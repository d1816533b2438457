/**
  The whole money core as one state machine: shares, loans, pledges, credits, receipts, fees and charges under every
  service transaction, in any order. Each command is one transaction that commits or leaves no trace.
 */
module Cooperative {
  import opened Common
  import opened Decimals
  import opened ShareLedger
  import opened LoanAccount
  import opened Lending
  import opened Allocations
  import opened Receipts
  import opened ReceiptPosting
  import opened Obligations
  import Credits
  import Sums

  // ----- Commands

  /** The transactions of the shares and loans packages, and what changes around them. */
  datatype OfficeCommand =
    | PostEntry(account: Id, kind: Kind, nanos: int, reference: Ref, owner: Option<Owner>)
    | OpenShares(account: Id, holder: Owner)
    | ChangeAccount(account: Id, status: AccountStatus)
    | ProposeAdjustment(account: Id, nanos: int, reference: Ref)
    | Adjust(adjustment: nat)
    | ReverseEntry(entry: nat, reference: Ref)
    | ApplyLoan(application: Application)
    | Guarantee(loan: nat, member: Id, nanos: int)
    | ApproveGuarantee(loan: nat, member: Id)
    | DropGuarantee(loan: nat, member: Id)
    | Approve(loan: nat)
    | Reject(loan: nat)
    | PayOut(loan: nat, terms: Disbursement)
    | RepayLoan(loan: nat, nanos: int, gateway: Ref, period: nat, now: nat, owner: Option<Owner>)
    | Penalty(loan: nat, amount: nat)
    | Enrol(member: Id, branch: nat)
    | ChangeMember(member: Id, active: bool)
    | ChangeCredit(credit: nat, state: CreditStatus)

  ghost function Perform(o: Office, command: OfficeCommand): Office {
    match command
    case PostEntry(account, kind, nanos, reference, owner) =>
      if kind == Purchase || kind == Withdrawal || kind == Dividend
      then o.(shares := Post(o.shares, account, kind, nanos, reference, owner).After(o.shares)) else o
    case OpenShares(account, holder) => o.(shares := OpenAccount(o.shares, account, holder).After(o.shares))
    case ChangeAccount(account, status) =>
      if account in o.shares.accounts
      then o.(shares := o.shares.(accounts :=
                                  o.shares.accounts[account := o.shares.accounts[account].(status := status)])) else o
    case ProposeAdjustment(account, nanos, reference) =>
      o.(shares := CreateAdjustment(o.shares, account, nanos, reference).After(o.shares))
    case Adjust(adjustment) => o.(shares := ApproveAdjustment(o.shares, adjustment).After(o.shares))
    case ReverseEntry(entry, reference) => o.(shares := Reverse(o.shares, entry, reference).After(o.shares))
    case ApplyLoan(application) => Apply(o, application).After(o)
    case Guarantee(loan, member, nanos) => AddGuarantor(o, loan, member, nanos).After(o)
    case ApproveGuarantee(loan, member) => ApproveGuarantor(o, loan, member).After(o)
    case DropGuarantee(loan, member) => RemoveGuarantor(o, loan, member).After(o)
    case Approve(loan) => ApproveLoan(o, loan).After(o)
    case Reject(loan) => RejectLoan(o, loan).After(o)
    case PayOut(loan, terms) => if 1 <= terms.day then DisburseLoan(o, loan, terms).After(o) else o
    case RepayLoan(loan, nanos, gateway, period, now, owner) =>
      RecordRepayment(o, loan, nanos, gateway, period, now, owner).After(o)
    case Penalty(loan, amount) =>
      if loan < |o.loans| then o.(loans := o.loans[loan := Penalise(o.loans[loan], amount)]) else o
    case Enrol(member, branch) =>
      if member in o.members then o else o.(members := o.members[member := Member(branch, true)])
    case ChangeMember(member, active) =>
      if member in o.members then o.(members := o.members[member := o.members[member].(active := active)]) else o
    case ChangeCredit(credit, state) =>
      if credit < |o.credits| then o.(credits := o.credits[credit := o.credits[credit].(status := state)]) else o
  }

  datatype Command =
    | Direct(command: OfficeCommand)
    | SpendCredit(request: Credits.CreditRequest)
    | TakeReceipt(receipt: NewReceipt)
    | WorkReceipt(id: nat, eligible: bool, now: nat, fault: Option<nat>)
    | RetryReceipt(id: nat)
    | AddCharge(charge: Charge)
    | AssessMonth(member: Id, period: nat, eligible: bool)

  ghost function Step(c: Coop, command: Command): Coop {
    match command
    case Direct(command) => c.(desk := c.desk.(office := Perform(c.desk.office, command)))
    case SpendCredit(request) => c.(desk := Credits.ManageCredit(c.desk, request).After(c.desk))
    case TakeReceipt(receipt) => if |receipt.ids| == |receipt.items| then Accept(c, receipt).After(c) else c
    case WorkReceipt(id, eligible, now, fault) => Process(c, id, eligible, now, fault).After(c)
    case RetryReceipt(id) => Requeue(c, id)
    case AddCharge(charge) => if 0 < charge.amount then c.(charges := c.charges + [charge]) else c
    case AssessMonth(member, period, eligible) => c.(fees := AssessFees(c.fees, member, period, eligible))
  }

  ghost function Run(c: Coop, commands: seq<Command>): Coop {
    if commands == [] then c else Step(Run(c, commands[..|commands| - 1]), commands[|commands| - 1])
  }

  predicate ShareCommand(command: OfficeCommand) {
    command.PostEntry? || command.OpenShares? || command.ChangeAccount? || command.ProposeAdjustment? ||
    command.Adjust? || command.ReverseEntry?
  }

  predicate GuaranteeCommand(command: OfficeCommand) {
    command.ApplyLoan? || command.Guarantee? || command.ApproveGuarantee? || command.DropGuarantee?
  }

  predicate LoanCommand(command: OfficeCommand) {
    command.Approve? || command.Reject? || command.PayOut? || command.Penalty?
  }

  // ----- Collateral safety of every command

  lemma ShareCommandKeepsSafe(o: Office, command: OfficeCommand)
    requires Safe(o) && ShareCommand(command)
    ensures Safe(Perform(o, command))
  {
    match command
    case PostEntry(account, kind, nanos, reference, owner) =>
      if kind == Purchase || kind == Withdrawal || kind == Dividend {
        PostKeepsSafe(o, account, kind, nanos, reference, owner);
      }
    case OpenShares(account, holder) => OpenAccountKeepsSafe(o, account, holder);
    case ChangeAccount(account, status) =>
      if account in o.shares.accounts { AccountStatusKeepsSafe(o, account, status); }
    case ProposeAdjustment(account, nanos, reference) => CreateAdjustmentKeepsSafe(o, account, nanos, reference);
    case Adjust(adjustment) => ApproveAdjustmentKeepsSafe(o, adjustment);
    case ReverseEntry(entry, reference) => ReverseKeepsSafe(o, entry, reference);
    case _ =>
  }

  lemma {:induction false} ApplicationsKeepSafe(o: Office, command: OfficeCommand) returns (p: Office)
    requires Safe(o) && (command.ApplyLoan? || command.Guarantee?)
    ensures p == Perform(o, command) && Safe(p)
  {
    if command.ApplyLoan? {
      ApplyKeepsSafe(o, command.application);
      p := Apply(o, command.application).After(o);
    } else {
      AddGuarantorKeepsSafe(o, command.loan, command.member, command.nanos);
      p := AddGuarantor(o, command.loan, command.member, command.nanos).After(o);
    }
  }

  lemma {:induction false} GuarantorsKeepSafe(o: Office, command: OfficeCommand) returns (p: Office)
    requires Safe(o) && (command.ApproveGuarantee? || command.DropGuarantee?)
    ensures p == Perform(o, command) && Safe(p)
  {
    if command.ApproveGuarantee? {
      ApproveGuarantorKeepsSafe(o, command.loan, command.member);
      p := ApproveGuarantor(o, command.loan, command.member).After(o);
    } else {
      RemoveGuarantorKeepsSafe(o, command.loan, command.member);
      p := RemoveGuarantor(o, command.loan, command.member).After(o);
    }
  }

  lemma {:induction false} DecisionsKeepSafe(o: Office, command: OfficeCommand) returns (p: Office)
    requires Safe(o) && (command.Approve? || command.Reject?)
    ensures p == Perform(o, command) && Safe(p)
  {
    if command.Approve? {
      ApproveLoanKeepsSafe(o, command.loan);
      p := Lending.ApproveLoan(o, command.loan).After(o);
    } else {
      RejectLoanKeepsSafe(o, command.loan);
      p := RejectLoan(o, command.loan).After(o);
    }
  }

  lemma {:induction false} RunningLoansKeepSafe(o: Office, command: OfficeCommand) returns (p: Office)
    requires Safe(o) && (command.PayOut? || command.Penalty?)
    ensures p == Perform(o, command) && Safe(p)
  {
    p := o;
    if command.PayOut? {
      if 1 <= command.terms.day {
        DisburseLoanKeepsSafe(o, command.loan, command.terms);
        p := DisburseLoan(o, command.loan, command.terms).After(o);
      }
    } else if command.loan < |o.loans| {
      PenaliseKeepsSafe(o, command.loan, command.amount);
      p := o.(loans := o.loans[command.loan := Penalise(o.loans[command.loan], command.amount)]);
    }
  }

  /** Members and credits may change at any time: no pledge depends on them. */
  lemma {:induction false} PeopleKeepSafe(o: Office, command: OfficeCommand)
    requires Safe(o) && (command.Enrol? || command.ChangeMember? || command.ChangeCredit?)
    ensures Safe(Perform(o, command))
  {
    SafeWithoutMembers(o, Perform(o, command).members, Perform(o, command).credits);
  }

  /** No command of the shares or loans packages, in any state, breaks collateral safety. */
  lemma {:induction false} PerformKeepsSafe(o: Office, command: OfficeCommand)
    requires Safe(o)
    ensures Safe(Perform(o, command))
  {
    ghost var p;
    if ShareCommand(command) {
      ShareCommandKeepsSafe(o, command);
    } else if command.ApplyLoan? || command.Guarantee? {
      p := ApplicationsKeepSafe(o, command);
    } else if command.ApproveGuarantee? || command.DropGuarantee? {
      p := GuarantorsKeepSafe(o, command);
    } else if command.Approve? || command.Reject? {
      p := DecisionsKeepSafe(o, command);
    } else if command.PayOut? || command.Penalty? {
      p := RunningLoansKeepSafe(o, command);
    } else if command.RepayLoan? {
      RecordRepaymentKeepsSafe(o, command.loan, command.nanos, command.gateway, command.period, command.now,
                               command.owner);
    } else {
      PeopleKeepSafe(o, command);
    }
  }

  lemma SafeWithoutMembers(o: Office, members: map<Id, Member>, credits: seq<Credit>)
    requires Safe(o)
    ensures Safe(o.(members := members, credits := credits))
  {
  }

  lemma SpendKeepsSafe(d: Desk, q: Credits.CreditRequest)
    requires Safe(d.office)
    ensures Safe(Credits.ManageCredit(d, q).After(d).office)
  {
    var r := Credits.ManageCredit(d, q);
    if r.Commit? && !q.action.Reviewing() && r.state.office != d.office {
      var owner := Some(Owner(d.office.credits[q.credit].member, q.branch));
      if q.action == Credits.TransferShares {
        PostKeepsSafe(d.office, Credits.Target(d, q).value, Purchase, Nanos(q.amount), q.operation, owner);
      } else {
        RecordRepaymentKeepsSafe(d.office, Credits.Target(d, q).value, Nanos(q.amount), Credits.Gateway(q.operation),
                                 q.period.value, q.now, owner);
      }
    }
  }

  lemma PostRowKeeps(d: Desk, r: Receipt, row: AllocationRow, now: nat)
    requires Safe(d.office) && Credits.FundsSound(d) && PostRow(d, r, row, now).Commit?
    ensures var t := PostRow(d, r, row, now).state;
            Safe(t.office) && Credits.FundsSound(t)
  {
    var owner := Some(Owner(r.member, r.branch));
    if row.key.kind == SharePurchase {
      PostKeepsSafe(d.office, row.key.target.value, Purchase, Nanos(row.amount), row.id, owner);
      Credits.MoreCreditsKeepFunds(d, PostRow(d, r, row, now).state.office);
    } else if row.key.kind == LoanPrincipal {
      var loan := row.key.target.value;
      RecordRepaymentKeepsSafe(d.office, loan, Nanos(row.amount), row.id, r.period, now, owner);
      Credits.RepaymentGrowsCredits(d.office, loan, Nanos(row.amount), row.id, r.period, now, owner);
      Credits.MoreCreditsKeepFunds(d, PostRow(d, r, row, now).state.office);
    }
  }

  lemma NextRowKeeps(d: Desk, r: Receipt, row: AllocationRow, now: nat, faulty: bool)
    requires Safe(d.office) && Credits.FundsSound(d) && NextRow(d, r, row, now, faulty).Commit?
    ensures var t := NextRow(d, r, row, now, faulty).state;
            Safe(t.office) && Credits.FundsSound(t)
  {
    if row.status == RowPending && !faulty { PostRowKeeps(d, r, row, now); }
  }

  lemma {:induction false} PostRowsKeep(d: Desk, r: Receipt, rows: seq<AllocationRow>, now: nat, fault: Option<nat>)
    requires Safe(d.office) && Credits.FundsSound(d) && PostRows(d, r, rows, now, fault).Commit?
    ensures var t := PostRows(d, r, rows, now, fault).state;
            Safe(t.office) && Credits.FundsSound(t)
  {
    if rows != [] {
      var n := |rows| - 1;
      PostRowsKeep(d, r, rows[..n], now, fault);
      NextRowKeeps(PostRows(d, r, rows[..n], now, fault).state, r, rows[n], now, fault == Some(n));
    }
  }

  lemma {:induction false} ProcessKeepsSafe(c: Coop, id: nat, eligible: bool, now: nat, fault: Option<nat>)
    requires Safe(c.desk.office) && Credits.FundsSound(c.desk)
    ensures var t := Process(c, id, eligible, now, fault).After(c);
            Safe(t.desk.office) && Credits.FundsSound(t.desk)
  {
    ghost var t := ProcessLeaves(c, id, eligible, now, fault);
    if t.desk != c.desk {
      AttemptKeepsSafe(c, id, eligible, now, fault);
    }
  }

  lemma {:induction false} AttemptKeepsSafe(c: Coop, id: nat, eligible: bool, now: nat, fault: Option<nat>)
    requires Safe(c.desk.office) && Credits.FundsSound(c.desk) && id < |c.receipts| &&
             Attempt(c, id, eligible, now, fault).Commit?
    ensures var t := Attempt(c, id, eligible, now, fault).state;
            Safe(t.desk.office) && Credits.FundsSound(t.desk)
  {
    PostRowsKeep(c.desk, c.receipts[id], c.receipts[id].rows, now, fault);
  }

  // ----- Commands that move no members' money

  predicate SameLedgers(a: Loan, b: Loan) { b.repayments == a.repayments }

  /** No purchase, no repayment, no change of a credit's amount. */
  predicate Quiet(o: Office, p: Office) {
    && o.shares.entries <= p.shares.entries
    && (forall i | |o.shares.entries| <= i < |p.shares.entries| :: p.shares.entries[i].kind != Purchase)
    && |o.loans| <= |p.loans| && (forall l | 0 <= l < |o.loans| :: SameLedgers(o.loans[l], p.loans[l]))
    && (forall l | |o.loans| <= l < |p.loans| :: p.loans[l].repayments == [])
    && |p.credits| == |o.credits| && forall c | 0 <= c < |o.credits| :: p.credits[c].amount == o.credits[c].amount
  }

  lemma QuietAddsNothing(d: Desk, p: Office)
    requires Quiet(d.office, p)
    ensures AddsOnly(d, d.(office := p), {})
  {
    forall l | 0 <= l < |p.loans|
      ensures p.loans[l].repayments == if l < |d.office.loans| then d.office.loans[l].repayments else []
    {
      assert l < |d.office.loans| ==> SameLedgers(d.office.loans[l], p.loans[l]);
    }
  }

  lemma QuietPlacesNothing(d: Desk, p: Office)
    requires Quiet(d.office, p)
    ensures Credits.Placed(d.(office := p)) == Credits.Placed(d)
  {
    var o := d.office;
    var entries, loans := p.shares.entries[|o.shares.entries|..], p.loans[|o.loans|..];
    assert p.shares.entries == o.shares.entries + entries;
    Sums.OfConcat(o.shares.entries, entries, Credits.Bought);
    Sums.OfZero(entries, Credits.Bought);
    assert p.loans == p.loans[..|o.loans|] + loans;
    Sums.OfConcat(p.loans[..|o.loans|], loans, Credits.SettledOn);
    Sums.OfZero(loans, Credits.SettledOn);
    forall l | 0 <= l < |o.loans| ensures Credits.SettledOn(p.loans[l]) == Credits.SettledOn(o.loans[l]) {
      assert SameLedgers(o.loans[l], p.loans[l]);
    }
    Sums.OfCongruent(o.loans, p.loans[..|o.loans|], Credits.SettledOn, Credits.SettledOn);
    Sums.OfCongruent(o.credits, p.credits, Credits.CreditAmount, Credits.CreditAmount);
  }

  lemma QuietKeepsFunds(d: Desk, p: Office)
    requires Credits.FundsSound(d) && |p.credits| == |d.office.credits|
    requires forall c | 0 <= c < |p.credits| :: p.credits[c].amount == d.office.credits[c].amount
    ensures Credits.FundsSound(d.(office := p))
  {
    forall k | k in d.operations ensures Credits.OperationSound(d.(office := p), d.operations[k]) {
      assert Credits.OperationSound(d, d.operations[k]);
    }
  }

  predicate MovesMoney(command: OfficeCommand) {
    (command.PostEntry? && command.kind == Purchase) || command.RepayLoan?
  }

  lemma ShareCommandsAreQuiet(o: Office, command: OfficeCommand)
    requires !MovesMoney(command) && ShareCommand(command)
    ensures Quiet(o, Perform(o, command))
  {
  }

  lemma {:induction false} GuaranteeCommandsAreQuiet(o: Office, command: OfficeCommand)
    requires GuaranteeCommand(command)
    ensures Quiet(o, Perform(o, command))
  {
    if command.ApplyLoan? {
      ApplyIsQuiet(o, command.application);
    } else if command.Guarantee? {
      AddGuarantorIsQuiet(o, command.loan, command.member, command.nanos);
    }
  }

  lemma {:induction false} AddGuarantorIsQuiet(o: Office, loan: nat, member: Id, nanos: int)
    ensures Quiet(o, AddGuarantor(o, loan, member, nanos).After(o))
  {
  }

  lemma ApplyIsQuiet(o: Office, application: Application)
    ensures Quiet(o, Apply(o, application).After(o))
  {
  }

  lemma {:induction false} LoanCommandsAreQuiet(o: Office, command: OfficeCommand)
    requires LoanCommand(command)
    ensures Quiet(o, Perform(o, command))
  {
    if command.Approve? {
      ApproveIsQuiet(o, command.loan);
    } else if command.PayOut? && 1 <= command.terms.day {
      PayOutIsQuiet(o, command.loan, command.terms);
    }
  }

  lemma ApproveIsQuiet(o: Office, loan: nat)
    ensures Quiet(o, Lending.ApproveLoan(o, loan).After(o))
  {
  }

  lemma PayOutIsQuiet(o: Office, loan: nat, terms: Disbursement)
    requires 1 <= terms.day
    ensures Quiet(o, DisburseLoan(o, loan, terms).After(o))
  {
  }

  lemma OtherCommandsAreQuiet(o: Office, command: OfficeCommand)
    requires !MovesMoney(command)
    ensures Quiet(o, Perform(o, command))
  {
    if ShareCommand(command) {
      ShareCommandsAreQuiet(o, command);
    } else if GuaranteeCommand(command) {
      GuaranteeCommandsAreQuiet(o, command);
    } else if LoanCommand(command) {
      LoanCommandsAreQuiet(o, command);
    }
  }

  /** What a direct purchase or repayment brings in; a retry brings in nothing. */
  ghost function Inflow(o: Office, command: OfficeCommand): int {
    match command
    case PostEntry(account, Purchase, nanos, reference, owner) =>
      if Accepts(o.shares, account, Purchase, nanos, reference, owner) then Column(nanos) else 0
    case RepayLoan(loan, nanos, gateway, period, now, owner) =>
      if AcceptsRepayment(o, loan, nanos, gateway, period, now, owner) then Ticks(nanos) else 0
    case _ => 0
  }

  /** The slot that a direct purchase or repayment takes, if it passes its guards. */
  ghost function SlotsTaken(o: Office, command: OfficeCommand): set<Slot> {
    match command
    case PostEntry(account, Purchase, nanos, reference, owner) =>
      if Accepts(o.shares, account, Purchase, nanos, reference, owner)
        then {Slot(Key(SharePurchase, Some(account)), reference)} else {}
    case RepayLoan(loan, nanos, gateway, period, now, owner) =>
      if AcceptsRepayment(o, loan, nanos, gateway, period, now, owner)
        then {Slot(Key(LoanPrincipal, Some(loan)), gateway)} else {}
    case _ => {}
  }

  /** What a transaction does to ledgers, credits and members' money. */
  ghost predicate Effects(d: Desk, t: Desk, slots: set<Slot>, inflow: int) {
    && AddsOnly(d, t, slots) && (forall slot | slot in slots :: Taken(t, slot))
    && Credits.FundsSound(t) && Credits.Placed(t) == Credits.Placed(d) + inflow
  }

  lemma {:induction false} NewPurchaseAddsOnly(d: Desk, account: Id, nanos: int, reference: Ref, owner: Option<Owner>)
    returns (t: Desk)
    ensures t == d.(office :=
                    d.office.(shares :=
                              Post(d.office.shares, account, Purchase, nanos, reference, owner).After(d.office.shares)))
    ensures var slots := if Accepts(d.office.shares, account, Purchase, nanos, reference, owner)
                         then {Slot(Key(SharePurchase, Some(account)), reference)} else {};
            AddsOnly(d, t, slots) && forall slot | slot in slots :: Taken(t, slot)
  {
    var s := Post(d.office.shares, account, Purchase, nanos, reference, owner).After(d.office.shares);
    t := d.(office := d.office.(shares := s));
    AcceptsIff(d.office.shares, account, Purchase, nanos, reference, owner);
    if Accepts(d.office.shares, account, Purchase, nanos, reference, owner) {
      SharesAddOnly(d, s, {Slot(Key(SharePurchase, Some(account)), reference)});
      FirstAppend(d.office.shares.entries, s.entries[|d.office.shares.entries|],
                  SameReference(account, reference, Purchase));
    } else {
      SharesAddOnly(d, s, {});
    }
  }

  lemma {:induction false} NewRepaymentAddsOnly(d: Desk, loan: nat, nanos: int, gateway: Ref, period: nat, now: nat,
                                                owner: Option<Owner>) returns (t: Desk)
    ensures t == d.(office := RecordRepayment(d.office, loan, nanos, gateway, period, now, owner).After(d.office))
    ensures var slots := if AcceptsRepayment(d.office, loan, nanos, gateway, period, now, owner)
                         then {Slot(Key(LoanPrincipal, Some(loan)), gateway)} else {};
            AddsOnly(d, t, slots) && forall slot | slot in slots :: Taken(t, slot)
  {
    t := d.(office := RecordRepayment(d.office, loan, nanos, gateway, period, now, owner).After(d.office));
    AcceptsRepaymentIff(d.office, loan, nanos, gateway, period, now, owner);
    if AcceptsRepayment(d.office, loan, nanos, gateway, period, now, owner) {
      RepaymentAddsOnly(d, loan, nanos, gateway, period, now, owner);
      GatewayTaken(t, loan, |d.office.loans[loan].repayments|);
    } else {
      QuietAddsNothing(d, t.office);
    }
  }

  lemma {:induction false} GatewayTaken(t: Desk, loan: nat, i: nat)
    requires loan < |t.office.loans| && i < |t.office.loans[loan].repayments|
    ensures Taken(t, RepaymentSlot(loan, t.office.loans[loan].repayments[i]))
  {
    FirstNone(t.office.loans[loan].repayments, SameGateway(t.office.loans[loan].repayments[i].gateway));
  }

  lemma {:induction false} PurchaseEffects(d: Desk, command: OfficeCommand)
    requires Credits.FundsSound(d) && command.PostEntry? && command.kind == Purchase
    ensures Effects(d, d.(office := Perform(d.office, command)), SlotsTaken(d.office, command),
                    Inflow(d.office, command))
  {
    ghost var t := NewPurchaseAddsOnly(d, command.account, command.nanos, command.reference, command.owner);
    assert t == d.(office := Perform(d.office, command));
    Credits.PostPlaces(d.office.shares, command.account, Purchase, command.nanos, command.reference, command.owner);
    AcceptsIff(d.office.shares, command.account, Purchase, command.nanos, command.reference, command.owner);
    SharesAlone(d, t.office.shares);
  }

  lemma {:induction false} SharesAlone(d: Desk, s: Shares)
    requires Credits.FundsSound(d)
    ensures var t := d.(office := d.office.(shares := s));
            Credits.FundsSound(t) &&
            Credits.Placed(t) - Sums.Of(s.entries, Credits.Bought) ==
              Credits.Placed(d) - Sums.Of(d.office.shares.entries, Credits.Bought)
  {
    QuietKeepsFunds(d, d.office.(shares := s));
  }

  lemma {:induction false} RepaymentEffects(d: Desk, command: OfficeCommand)
    requires Credits.FundsSound(d) && command.RepayLoan?
    ensures Effects(d, d.(office := Perform(d.office, command)), SlotsTaken(d.office, command),
                    Inflow(d.office, command))
  {
    ghost var t := NewRepaymentAddsOnly(d, command.loan, command.nanos, command.gateway, command.period, command.now,
                                        command.owner);
    assert t == d.(office := Perform(d.office, command));
    AcceptsRepaymentIff(d.office, command.loan, command.nanos, command.gateway, command.period, command.now,
                        command.owner);
    Credits.RepaymentPlaces(d.office, command.loan, command.nanos, command.gateway, command.period, command.now,
                            command.owner);
    Credits.RepaymentGrowsCredits(d.office, command.loan, command.nanos, command.gateway, command.period, command.now,
                                  command.owner);
    Credits.MoreCreditsKeepFunds(d, t.office);
    Credits.PlacedWithoutRefunds(d);
    Credits.PlacedWithoutRefunds(t);
  }

  lemma {:induction false} PerformEffects(d: Desk, command: OfficeCommand)
    requires Credits.FundsSound(d)
    ensures Effects(d, d.(office := Perform(d.office, command)), SlotsTaken(d.office, command),
                    Inflow(d.office, command))
  {
    if command.RepayLoan? {
      RepaymentEffects(d, command);
    } else if MovesMoney(command) {
      PurchaseEffects(d, command);
    } else {
      var p := Perform(d.office, command);
      OtherCommandsAreQuiet(d.office, command);
      QuietAddsNothing(d, p);
      QuietPlacesNothing(d, p);
      QuietKeepsFunds(d, p);
    }
  }

  /** The slot that a new transfer or loan payment takes. */
  ghost function SpendSlots(d: Desk, q: Credits.CreditRequest): set<Slot> {
    if !Credits.AcceptsSpend(d, q) then {}
    else
      var owner := Some(Owner(d.office.credits[q.credit].member, q.branch));
      match q.action
      case TransferShares =>
        var account := Credits.Target(d, q).value;
        if Accepts(d.office.shares, account, Purchase, Nanos(q.amount), q.operation, owner)
        then {Slot(Key(SharePurchase, Some(account)), q.operation)} else {}
      case ApplyLoan =>
        var loan := Credits.Target(d, q).value;
        if AcceptsRepayment(d.office, loan, Nanos(q.amount), Credits.Gateway(q.operation), q.period.value, q.now, owner)
        then {Slot(Key(LoanPrincipal, Some(loan)), Credits.Gateway(q.operation))} else {}
      case _ => {}
  }

  /** Operations are no postings. */
  lemma {:induction false} SameOffice(d: Desk, e: Desk, t: Desk, slots: set<Slot>)
    requires AddsOnly(d, e, slots) && t.office == e.office && forall slot | slot in slots :: Taken(e, slot)
    ensures AddsOnly(d, t, slots) && forall slot | slot in slots :: Taken(t, slot)
  {
    forall slot | slot in slots ensures Taken(t, slot) { assert Taken(e, slot); }
  }

  lemma {:induction false} SpendEffects(d: Desk, q: Credits.CreditRequest)
    ensures var t := Credits.ManageCredit(d, q).After(d);
            AddsOnly(d, t, SpendSlots(d, q)) && forall slot | slot in SpendSlots(d, q) :: Taken(t, slot)
  {
    var r := Credits.ManageCredit(d, q);
    if Credits.AcceptsSpend(d, q) && q.action != Credits.RequestRefund {
      PostingEffects(d, q);
    } else {
      assert r.After(d).office == d.office;
      QuietAddsNothing(d, d.office);
      SameOffice(d, d, r.After(d), {});
    }
  }

  lemma {:induction false} PostingEffects(d: Desk, q: Credits.CreditRequest)
    requires Credits.AcceptsSpend(d, q) && q.action != Credits.RequestRefund
    ensures var t := Credits.ManageCredit(d, q).After(d);
            AddsOnly(d, t, SpendSlots(d, q)) && forall slot | slot in SpendSlots(d, q) :: Taken(t, slot)
  {
    var t := Credits.ManageCredit(d, q).After(d);
    var owner := Some(Owner(d.office.credits[q.credit].member, q.branch));
    ghost var e;
    if q.action == Credits.TransferShares {
      e := NewPurchaseAddsOnly(d, Credits.Target(d, q).value, Nanos(q.amount), q.operation, owner);
    } else {
      e := NewRepaymentAddsOnly(d, Credits.Target(d, q).value, Nanos(q.amount), Credits.Gateway(q.operation),
                                q.period.value, q.now, owner);
    }
    SameOffice(d, e, t, SpendSlots(d, q));
  }

  // ----- Every command keeps everything

  /** Collateral safety, credit reservation, receipts posted all or not at all, obligations within their amounts. */
  ghost predicate Invariant(c: Coop) {
    && Safe(c.desk.office) && Credits.FundsSound(c.desk)
    && ReceiptsSound(c) && AllOrNothing(c) && ObligationsSound(c) && ChargesKnown(c)
  }

  /** Completed payments of charges name charges on file. */
  predicate ChargesKnown(c: Coop) {
    forall i, j | 0 <= i < |c.receipts| && 0 <= j < |c.receipts[i].rows| ::
      ChargeKnown(c.receipts[i].rows[j], |c.charges|)
  }

  predicate ChargeKnown(a: AllocationRow, charges: nat) {
    a.status == RowCompleted && IsCharge(a.key.kind) ==> a.key.target.Some? && a.key.target.value < charges
  }

  lemma {:induction false} PayableChargesExist(c: Coop, member: Id, branch: nat, items: seq<Item>, exclude: Option<nat>)
    requires ChargesDueError(c, member, branch, items, exclude).None?
    ensures forall i | 0 <= i < |items| && IsCharge(items[i].kind) ::
            items[i].target.Some? && items[i].target.value < |c.charges|
  {
    if items != [] {
      PayableChargesExist(c, member, branch, items[..|items| - 1], exclude);
    }
  }

  lemma WorkKeepsCharges(c: Coop, id: nat, eligible: bool, now: nat, fault: Option<nat>)
    requires ReceiptsSound(c) && AllOrNothing(c) && ChargesKnown(c)
    ensures ChargesKnown(Process(c, id, eligible, now, fault).After(c))
  {
    var r := Process(c, id, eligible, now, fault);
    if r.Commit? && r.state != c {
      ProcessOutcomes(c, id, eligible, now, fault);
      if r.state.receipts[id].status == ReceiptCompleted {
        var x := c.receipts[id];
        var a := c.(fees := AssessFees(c.fees, x.member, x.period, eligible));
        PayableChargesExist(a, x.member, x.branch, ItemsOf(x.rows), Some(id));
        assert AllCompleted(x.rows, r.state.receipts[id].rows) by { PostRowsPost(c.desk, x, x.rows, now, fault); }
        CompletedCharges(c, id, r.state.receipts, |c.charges|);
      } else {
        StatusKeepsCharges(c, id, r.state);
      }
    }
  }

  lemma CompletedCharges(c: Coop, id: nat, receipts: seq<Receipt>, charges: nat)
    requires ChargesKnown(c) && charges == |c.charges| && id < |c.receipts| == |receipts|
    requires receipts == c.receipts[id := receipts[id]] && AllCompleted(c.receipts[id].rows, receipts[id].rows)
    requires forall j | 0 <= j < |c.receipts[id].rows| && IsCharge(ItemsOf(c.receipts[id].rows)[j].kind) ::
               ItemsOf(c.receipts[id].rows)[j].target.Some? && ItemsOf(c.receipts[id].rows)[j].target.value < charges
    ensures forall i, j | 0 <= i < |receipts| && 0 <= j < |receipts[i].rows| ::
            ChargeKnown(receipts[i].rows[j], charges)
  {
    var rows := c.receipts[id].rows;
    forall i, j | 0 <= i < |receipts| && 0 <= j < |receipts[i].rows| ensures ChargeKnown(receipts[i].rows[j], charges) {
      if i == id {
        assert ItemsOf(rows)[j] == ItemOf(rows[j]);
      } else {
        assert ChargeKnown(c.receipts[i].rows[j], charges);
      }
    }
  }

  lemma StatusKeepsCharges(c: Coop, id: nat, t: Coop)
    requires ChargesKnown(c) && id < |c.receipts|
    requires exists status :: t == SetReceipt(c, id, c.receipts[id].(status := status))
    ensures ChargesKnown(t)
  {
    forall i, j | 0 <= i < |t.receipts| && 0 <= j < |t.receipts[i].rows|
      ensures ChargeKnown(t.receipts[i].rows[j], |t.charges|)
    {
      assert ChargeKnown(c.receipts[i].rows[j], |c.charges|);
    }
  }

  /** Nobody has paid a charge that does not exist yet. */
  lemma FutureChargesUnpaid(c: Coop)
    requires ChargesKnown(c)
    ensures ChargesPaid(c, |c.charges|) == 0
  {
    forall i | 0 <= i < |c.receipts| ensures ChargePaid(|c.charges|, None)(c.receipts[i]) == 0 {
      forall j | 0 <= j < |c.receipts[i].rows| ensures ChargeRow(|c.charges|)(c.receipts[i].rows[j]) == 0 {
        assert ChargeKnown(c.receipts[i].rows[j], |c.charges|);
      }
      Sums.OfZero(c.receipts[i].rows, ChargeRow(|c.charges|));
    }
    Sums.OfZero(c.receipts, ChargePaid(|c.charges|, None));
  }

  /**
    What is asked of the outside world: a direct posting or credit operation does not take the slot of an allocation
    that is still to be posted, and generated ids are new.
   */
  ghost predicate Honest(c: Coop, command: Command) {
    match command
    case Direct(command) => Foreign(c, SlotsTaken(c.desk.office, command))
    case SpendCredit(request) => Foreign(c, SpendSlots(c.desk, request))
    case TakeReceipt(receipt) => |receipt.ids| == |receipt.items| ==> NewIds(c, receipt.ids)
    case _ => true
  }

  /**
    A posting command keeps receipts posted wholly or not at all exactly when it takes no unposted allocation's slot.
   */
  lemma {:induction false} PostingsKeepAllOrNothingIff(c: Coop, command: Command)
    requires AllOrNothing(c) && Credits.FundsSound(c.desk) && (command.Direct? || command.SpendCredit?)
    ensures AllOrNothing(Step(c, command)) <==> Honest(c, command)
  {
    match command
    case Direct(command) =>
      PerformEffects(c.desk, command);
      ForeignPostingsIff(c, c.desk.(office := Perform(c.desk.office, command)), SlotsTaken(c.desk.office, command));
    case SpendCredit(request) =>
      SpendEffects(c.desk, request);
      ForeignPostingsIff(c, Credits.ManageCredit(c.desk, request).After(c.desk), SpendSlots(c.desk, request));
    case _ =>
  }

  lemma {:induction false} SameReceipts(c: Coop, e: Desk)
    requires ReceiptsSound(c) && ObligationsSound(c) && ChargesKnown(c)
    ensures var t := c.(desk := e);
            ReceiptsSound(t) && ObligationsSound(t) && ChargesKnown(t)
  {
    var t := c.(desk := e);
    forall key: FeeKey | IsFee(key.kind)
      ensures FeesPaid(t, key) <= AssessedFee(t.fees, key)
    {
      assert FeesPaid(t, key) == FeesPaid(c, key);
    }
    forall x | 0 <= x < |t.charges|
      ensures ChargesPaid(t, x) <= t.charges[x].amount
    {
      assert ChargesPaid(t, x) == ChargesPaid(c, x);
    }
  }

  lemma {:induction false} DirectKeeps(c: Coop, command: OfficeCommand)
    requires Invariant(c) && Honest(c, Direct(command))
    ensures Invariant(Step(c, Direct(command)))
  {
    var e := c.desk.(office := Perform(c.desk.office, command));
    PerformKeepsSafe(c.desk.office, command);
    PerformEffects(c.desk, command);
    PostingsKeepAllOrNothingIff(c, Direct(command));
    SameReceipts(c, e);
  }

  lemma {:induction false} SpendKeeps(c: Coop, q: Credits.CreditRequest)
    requires Invariant(c) && Honest(c, SpendCredit(q))
    ensures Invariant(Step(c, SpendCredit(q)))
  {
    SpendKeepsSafe(c.desk, q);
    Credits.ManageCreditKeepsFunds(c.desk, q);
    PostingsKeepAllOrNothingIff(c, SpendCredit(q));
    SameReceipts(c, Credits.ManageCredit(c.desk, q).After(c.desk));
  }

  lemma AcceptedIsAppended(c: Coop, n: NewReceipt)
    requires |n.ids| == |n.items| && Accept(c, n).Commit?
    ensures var t := Accept(c, n).state;
            t == c.(receipts := c.receipts + [t.receipts[|c.receipts|]]) && AllPending(t.receipts[|c.receipts|].rows)
  {
  }

  lemma TakeCollects(c: Coop, n: NewReceipt)
    ensures Collected(Step(c, TakeReceipt(n))) == Collected(c)
  {
    if |n.ids| == |n.items| && Accept(c, n).Commit? {
      AcceptedIsAppended(c, n);
      var x := Accept(c, n).state.receipts[|c.receipts|];
      PendingSettleNothing(x.rows);
      Sums.OfAppend(c.receipts, x, ObligationsPaid);
    }
  }

  lemma {:induction false} AppendKeepsCharges(c: Coop, t: Coop, x: Receipt)
    requires ChargesKnown(c) && t == c.(receipts := c.receipts + [x]) && AllPending(x.rows)
    ensures ChargesKnown(t)
  {
    forall i, j | 0 <= i < |t.receipts| && 0 <= j < |t.receipts[i].rows|
      ensures ChargeKnown(t.receipts[i].rows[j], |t.charges|)
    {
      if i < |c.receipts| { assert ChargeKnown(c.receipts[i].rows[j], |c.charges|); }
    }
  }

  lemma {:induction false} TakeKeeps(c: Coop, n: NewReceipt)
    requires Invariant(c) && Honest(c, TakeReceipt(n))
    ensures Invariant(Step(c, TakeReceipt(n)))
  {
    if |n.ids| == |n.items| && Accept(c, n).Commit? {
      var t := Accept(c, n).state;
      assert ReceiptsSound(t) && AllOrNothing(t) by { AcceptKeepsAllOrNothing(c, n); }
      assert ObligationsSound(t) by { AcceptKeepsObligations(c, n); }
      AcceptedIsAppended(c, n);
      AppendKeepsCharges(c, t, t.receipts[|c.receipts|]);
    }
  }

  lemma {:induction false} WorkKeeps(c: Coop, id: nat, eligible: bool, now: nat, fault: Option<nat>) returns (t: Coop)
    requires Invariant(c)
    ensures t == Step(c, WorkReceipt(id, eligible, now, fault)) && Invariant(t)
  {
    t := Process(c, id, eligible, now, fault).After(c);
    assert Safe(t.desk.office) && Credits.FundsSound(t.desk) by { ProcessKeepsSafe(c, id, eligible, now, fault); }
    assert ReceiptsSound(t) && AllOrNothing(t) by { ProcessKeepsAllOrNothing(c, id, eligible, now, fault); }
    assert ObligationsSound(t) by { ProcessKeepsObligations(c, id, eligible, now, fault); }
    assert ChargesKnown(t) by { WorkKeepsCharges(c, id, eligible, now, fault); }
  }

  lemma {:induction false} RequeueKeeps(c: Coop, id: nat)
    requires Invariant(c)
    ensures Invariant(Step(c, RetryReceipt(id)))
  {
    var t := Requeue(c, id);
    assert ReceiptsSound(t) && AllOrNothing(t) by { RequeueKeepsAllOrNothing(c, id); }
    assert ObligationsSound(t) by { RequeueKeepsObligations(c, id); }
    assert ChargesKnown(t) by {
      if id < |c.receipts| { StatusKeepsCharges(c, id, SetReceipt(c, id, c.receipts[id].(status := ReceiptPending))); }
    }
  }

  lemma ChargeKeepsObligations(c: Coop, charge: Charge)
    requires ObligationsSound(c) && ChargesKnown(c) && 0 <= charge.amount
    ensures var t := c.(charges := c.charges + [charge]);
            ObligationsSound(t) && ChargesKnown(t)
  {
    var t := c.(charges := c.charges + [charge]);
    FutureChargesUnpaid(c);
    forall key: FeeKey | IsFee(key.kind)
      ensures FeesPaid(t, key) <= AssessedFee(t.fees, key)
    {
      assert FeesPaid(t, key) == FeesPaid(c, key);
    }
    forall x | 0 <= x < |t.charges|
      ensures ChargesPaid(t, x) <= t.charges[x].amount
    {
      assert ChargesPaid(t, x) == ChargesPaid(c, x);
    }
    forall i, j | 0 <= i < |t.receipts| && 0 <= j < |t.receipts[i].rows|
      ensures ChargeKnown(t.receipts[i].rows[j], |t.charges|)
    {
      assert ChargeKnown(c.receipts[i].rows[j], |c.charges|);
    }
  }

  lemma ChargeKeeps(c: Coop, charge: Charge)
    requires Invariant(c)
    ensures Invariant(Step(c, AddCharge(charge)))
  {
    if 0 < charge.amount {
      var t := c.(charges := c.charges + [charge]);
      assert ObligationsSound(t) && ChargesKnown(t) by { ChargeKeepsObligations(c, charge); }
      assert ReceiptsSound(t) && AllOrNothing(t);
    }
  }

  lemma {:induction false} AssessKeeps(c: Coop, member: Id, period: nat, eligible: bool)
    requires Invariant(c)
    ensures Invariant(Step(c, AssessMonth(member, period, eligible)))
  {
    var t := c.(fees := AssessFees(c.fees, member, period, eligible));
    assert ObligationsSound(t) by { AssessKeepsSound(c, member, period, eligible); }
    assert ReceiptsSound(t) && AllOrNothing(t) && ChargesKnown(t);
  }

  /** Every command keeps the whole invariant. */
  lemma StepKeepsInvariant(c: Coop, command: Command)
    requires Invariant(c) && Honest(c, command)
    ensures Invariant(Step(c, command))
  {
    match command
    case Direct(command) => DirectKeeps(c, command);
    case SpendCredit(request) => SpendKeeps(c, request);
    case TakeReceipt(receipt) => TakeKeeps(c, receipt);
    case WorkReceipt(id, eligible, now, fault) => ghost var t := WorkKeeps(c, id, eligible, now, fault);
    case RetryReceipt(id) => RequeueKeeps(c, id);
    case AddCharge(charge) => ChargeKeeps(c, charge);
    case AssessMonth(member, period, eligible) => AssessKeeps(c, member, period, eligible);
  }

  ghost predicate HonestRun(c: Coop, commands: seq<Command>) {
    commands == [] ||
    (HonestRun(c, commands[..|commands| - 1]) && Honest(Run(c, commands[..|commands| - 1]), commands[|commands| - 1]))
  }

  /**
    In every state that any interleaving of the transactions reaches: running loans are covered by pledges within
    their accounts' balances, credits are not overspent, each receipt is wholly posted or not at all, and no
    obligation is overpaid.
   */
  lemma {:induction false} RunKeepsInvariant(c: Coop, commands: seq<Command>)
    requires Invariant(c) && HonestRun(c, commands)
    ensures Invariant(Run(c, commands))
  {
    if commands != [] {
      RunKeepsInvariant(c, commands[..|commands| - 1]);
      StepKeepsInvariant(Run(c, commands[..|commands| - 1]), commands[|commands| - 1]);
    }
  }

  const Empty: Coop :=
    Coop(Credits.Desk(Office(map[], Shares(map[], map[], [], [], map[]), [], []), map[]), map[], [], [])

  lemma EmptyIsSound()
    ensures Invariant(Empty) && Collected(Empty) == 0
  {
  }

  // ----- Conservation

  /** The money a command brings in from outside: direct purchases and repayments, and receipts as they complete. */
  ghost function MoneyIn(c: Coop, command: Command): int {
    match command
    case Direct(command) => Inflow(c.desk.office, command)
    case WorkReceipt(id, eligible, now, fault) =>
      if CompletedBy(c, Process(c, id, eligible, now, fault).After(c), id) then c.receipts[id].received else 0
    case _ => 0
  }

  ghost function PaidIn(c: Coop, commands: seq<Command>): int {
    if commands == [] then 0
    else PaidIn(c, commands[..|commands| - 1]) + MoneyIn(Run(c, commands[..|commands| - 1]), commands[|commands| - 1])
  }

  /**
    The commands that lose track of money: a credit spent on a posting that was there already, and the completion of a
    receipt whose allocations do not add up to the money received.
   */
  ghost predicate Leaks(c: Coop, command: Command) {
    match command
    case SpendCredit(request) => Credits.ReusesPosting(c.desk, request)
    case WorkReceipt(id, eligible, now, fault) =>
      CompletedBy(c, Process(c, id, eligible, now, fault).After(c), id) && !Balanced(c.receipts[id])
    case _ => false
  }

  lemma {:induction false} SpendCollectsIff(c: Coop, q: Credits.CreditRequest)
    ensures Collected(Step(c, SpendCredit(q))) == Collected(c) <==> !Leaks(c, SpendCredit(q))
  {
    Credits.ManageCreditConservesIff(c.desk, q);
  }

  lemma DirectCollects(c: Coop, command: OfficeCommand)
    requires Credits.FundsSound(c.desk)
    ensures Collected(Step(c, Direct(command))) == Collected(c) + MoneyIn(c, Direct(command))
  {
    PerformEffects(c.desk, command);
  }

  lemma {:induction false} WorkCollectsIff(c: Coop, id: nat, eligible: bool, now: nat, fault: Option<nat>)
    requires ReceiptsSound(c) && AllOrNothing(c)
    ensures var command := WorkReceipt(id, eligible, now, fault);
            Collected(Step(c, command)) == Collected(c) + MoneyIn(c, command) <==> !Leaks(c, command)
  {
    ghost var t := WorkLeaves(c, id, eligible, now, fault);
    ProcessCollectsIff(c, id, eligible, now, fault);
  }

  lemma {:induction false} WorkLeaves(c: Coop, id: nat, eligible: bool, now: nat, fault: Option<nat>) returns (t: Coop)
    ensures t == Process(c, id, eligible, now, fault).After(c) == Step(c, WorkReceipt(id, eligible, now, fault))
    ensures MoneyIn(c, WorkReceipt(id, eligible, now, fault)) ==
            if CompletedBy(c, t, id) then c.receipts[id].received else 0
    ensures Leaks(c, WorkReceipt(id, eligible, now, fault)) <==> CompletedBy(c, t, id) && !Balanced(c.receipts[id])
  {
    t := Process(c, id, eligible, now, fault).After(c);
  }

  lemma RequeueCollects(c: Coop, id: nat)
    ensures Collected(Requeue(c, id)) == Collected(c)
  {
    if id < |c.receipts| { Sums.OfUpdate(c.receipts, id, c.receipts[id].(status := ReceiptPending), ObligationsPaid); }
  }

  /**
    A command changes what has been collected by exactly the money it brings in, if and only if it is none of those two.
   */
  lemma {:induction false} StepConservesIff(c: Coop, command: Command)
    requires Credits.FundsSound(c.desk) && ReceiptsSound(c) && AllOrNothing(c)
    ensures Collected(Step(c, command)) == Collected(c) + MoneyIn(c, command) <==> !Leaks(c, command)
  {
    match command
    case Direct(command) => DirectCollects(c, command);
    case SpendCredit(request) => SpendCollectsIff(c, request);
    case TakeReceipt(receipt) => TakeCollects(c, receipt);
    case WorkReceipt(id, eligible, now, fault) => WorkCollectsIff(c, id, eligible, now, fault);
    case RetryReceipt(id) => RequeueCollects(c, id);
    case AddCharge(charge) =>
    case AssessMonth(member, period, eligible) =>
  }

  /** All along the run, what has been collected is what was there and what has been paid in since. */
  ghost predicate ConservedThroughout(c: Coop, commands: seq<Command>) {
    && Collected(Run(c, commands)) == Collected(c) + PaidIn(c, commands)
    && (commands == [] || ConservedThroughout(c, commands[..|commands| - 1]))
  }

  /** No command of the run leaks. */
  ghost predicate Watertight(c: Coop, commands: seq<Command>) {
    commands == [] ||
    (Watertight(c, commands[..|commands| - 1]) && !Leaks(Run(c, commands[..|commands| - 1]), commands[|commands| - 1]))
  }

  lemma {:induction false} ConservedEnds(c: Coop, commands: seq<Command>)
    ensures ConservedThroughout(c, commands) ==> Collected(Run(c, commands)) == Collected(c) + PaidIn(c, commands)
  {
  }

  /** Money is conserved all along a run if and only if no command of it leaks. */
  lemma {:induction false} RunConservesIff(c: Coop, commands: seq<Command>)
    requires Invariant(c) && HonestRun(c, commands)
    ensures ConservedThroughout(c, commands) <==> Watertight(c, commands)
  {
    if commands != [] {
      var init := commands[..|commands| - 1];
      RunConservesIff(c, init);
      RunKeepsInvariant(c, init);
      ConservedEnds(c, init);
      StepConservesIff(Run(c, init), commands[|commands| - 1]);
    }
  }

  /**
    Global conservation: all the money ever paid in is in shares bought, settled on loans, held as unspent credit,
    refunded, or paid as fees and charges.
   */
  lemma {:induction false} RunConserves(commands: seq<Command>)
    requires HonestRun(Empty, commands) && Watertight(Empty, commands)
    ensures var c := Run(Empty, commands);
            PaidIn(Empty, commands) ==
            Credits.SharesBought(c.desk.office) + Credits.LoansSettled(c.desk.office) + Credits.CreditLeft(c.desk) +
            Credits.RefundsPaid(c.desk) + Sums.Of(c.receipts, ObligationsPaid)
  {
    EmptyIsSound();
    RunConservesIff(Empty, commands);
    ConservedEnds(Empty, commands);
  }

  // ----- Retries anywhere in a run

  /** Ledger entries, repayments, operations and the parties they belong to are never lost or changed. */
  ghost predicate Grows(o: Office, p: Office) {
    && o.shares.entries <= p.shares.entries
    && (forall a | a in o.shares.accounts ::
        a in p.shares.accounts && SameHolder(o.shares.accounts[a], p.shares.accounts[a]))
    && (forall m | m in o.shares.byMember :: m in p.shares.byMember && p.shares.byMember[m] == o.shares.byMember[m])
    && (forall m | m in o.members :: m in p.members && p.members[m].branch == o.members[m].branch)
    && |o.loans| <= |p.loans| && (forall l | 0 <= l < |o.loans| :: LoanGrows(o.loans[l], p.loans[l]))
    && |o.credits| <= |p.credits| && forall c | 0 <= c < |o.credits| :: p.credits[c].member == o.credits[c].member
  }

  predicate SameHolder(a: Account, b: Account) { b.member == a.member && b.branch == a.branch }

  predicate LoanGrows(a: Loan, b: Loan) { b.member == a.member && b.branch == a.branch && a.repayments <= b.repayments }

  lemma GrowsTwice(o: Office, p: Office, q: Office)
    requires Grows(o, p) && Grows(p, q)
    ensures Grows(o, q)
  {
    forall l | 0 <= l < |o.loans| ensures LoanGrows(o.loans[l], q.loans[l]) {
      assert LoanGrows(o.loans[l], p.loans[l]) && LoanGrows(p.loans[l], q.loans[l]);
    }
    forall a | a in o.shares.accounts
      ensures a in q.shares.accounts && SameHolder(o.shares.accounts[a], q.shares.accounts[a])
    {
      assert SameHolder(o.shares.accounts[a], p.shares.accounts[a]) &&
        SameHolder(p.shares.accounts[a], q.shares.accounts[a]);
    }
  }

  lemma {:induction false} PostingsGrow(o: Office, command: OfficeCommand)
    requires command.PostEntry? || command.Adjust? || command.ReverseEntry?
    ensures Grows(o, Perform(o, command))
  {
  }

  lemma {:induction false} AccountsGrow(o: Office, command: OfficeCommand)
    requires command.OpenShares? || command.ChangeAccount? || command.ProposeAdjustment?
    ensures Grows(o, Perform(o, command))
  {
  }

  lemma {:induction false} GuaranteeCommandsGrow(o: Office, command: OfficeCommand)
    requires GuaranteeCommand(command)
    ensures Grows(o, Perform(o, command))
  {
    if command.ApplyLoan? {
      ApplyGrows(o, command.application);
    } else if command.ApproveGuarantee? {
      ApproveGuarantorGrows(o, command.loan, command.member);
    } else if command.DropGuarantee? {
      RemoveGuarantorGrows(o, command.loan, command.member);
    }
  }

  lemma ApproveGuarantorGrows(o: Office, loan: nat, member: Id)
    ensures Grows(o, ApproveGuarantor(o, loan, member).After(o))
  {
  }

  lemma RemoveGuarantorGrows(o: Office, loan: nat, member: Id)
    ensures Grows(o, RemoveGuarantor(o, loan, member).After(o))
  {
  }

  lemma ApplyGrows(o: Office, application: Application)
    ensures Grows(o, Apply(o, application).After(o))
  {
  }

  lemma {:induction false} LoanCommandsGrow(o: Office, command: OfficeCommand)
    requires LoanCommand(command)
    ensures Grows(o, Perform(o, command))
  {
    if command.Approve? {
      ApproveGrows(o, command.loan);
    } else if command.PayOut? && 1 <= command.terms.day {
      PayOutGrows(o, command.loan, command.terms);
    }
  }

  lemma ApproveGrows(o: Office, loan: nat)
    ensures Grows(o, Lending.ApproveLoan(o, loan).After(o))
  {
  }

  lemma PayOutGrows(o: Office, loan: nat, terms: Disbursement)
    requires 1 <= terms.day
    ensures Grows(o, DisburseLoan(o, loan, terms).After(o))
  {
  }

  lemma RepaymentGrows(o: Office, loan: nat, nanos: int, gateway: Ref, period: nat, now: nat, owner: Option<Owner>)
    ensures Grows(o, RecordRepayment(o, loan, nanos, gateway, period, now, owner).After(o))
  {
    var p := RecordRepayment(o, loan, nanos, gateway, period, now, owner).After(o);
    if p != o { RepayAppends(o.loans[loan], nanos, gateway, period); }
  }

  lemma PerformGrows(o: Office, command: OfficeCommand)
    ensures Grows(o, Perform(o, command))
  {
    if command.PostEntry? || command.Adjust? || command.ReverseEntry? {
      PostingsGrow(o, command);
    } else if ShareCommand(command) {
      AccountsGrow(o, command);
    } else if GuaranteeCommand(command) {
      GuaranteeCommandsGrow(o, command);
    } else if LoanCommand(command) {
      LoanCommandsGrow(o, command);
    } else if command.RepayLoan? {
      RepaymentGrows(o, command.loan, command.nanos, command.gateway, command.period, command.now, command.owner);
    }
  }

  lemma SpendGrows(d: Desk, q: Credits.CreditRequest)
    ensures Grows(d.office, Credits.ManageCredit(d, q).After(d).office)
  {
    var r := Credits.ManageCredit(d, q);
    if r.Commit? && r.state.office != d.office && q.action == Credits.ApplyLoan {
      RepaymentGrows(d.office, Credits.Target(d, q).value, Nanos(q.amount), Credits.Gateway(q.operation),
                     q.period.value, q.now,
                     Some(Owner(d.office.credits[q.credit].member, q.branch)));
    }
  }

  lemma NextRowGrows(d: Desk, r: Receipt, row: AllocationRow, now: nat, faulty: bool)
    requires NextRow(d, r, row, now, faulty).Commit?
    ensures Grows(d.office, NextRow(d, r, row, now, faulty).state.office) &&
            NextRow(d, r, row, now, faulty).state.operations == d.operations
  {
    if row.key.kind == LoanPrincipal && row.key.target.Some? {
      RepaymentGrows(d.office, row.key.target.value, Nanos(row.amount), row.id, r.period, now,
                     Some(Owner(r.member, r.branch)));
    }
  }

  lemma {:induction false} PostRowsGrow(d: Desk, r: Receipt, rows: seq<AllocationRow>, now: nat, fault: Option<nat>)
    requires PostRows(d, r, rows, now, fault).Commit?
    ensures var t := PostRows(d, r, rows, now, fault).state;
            Grows(d.office, t.office) && t.operations == d.operations
  {
    if rows != [] {
      var n := |rows| - 1;
      PostRowsGrow(d, r, rows[..n], now, fault);
      var e := PostRows(d, r, rows[..n], now, fault).state;
      NextRowGrows(e, r, rows[n], now, fault == Some(n));
      GrowsTwice(d.office, e.office, NextRow(e, r, rows[n], now, fault == Some(n)).state.office);
    }
  }

  lemma {:induction false} ProcessGrows(c: Coop, id: nat, eligible: bool, now: nat, fault: Option<nat>)
    ensures var t := Process(c, id, eligible, now, fault).After(c);
            Grows(c.desk.office, t.desk.office) && t.desk.operations == c.desk.operations
  {
    ghost var t := ProcessLeaves(c, id, eligible, now, fault);
    if t.desk != c.desk {
      AttemptGrows(c, id, eligible, now, fault);
    }
  }

  /** A call leaves the ledgers alone, or as its attempt left them. */
  lemma {:induction false} ProcessLeaves(c: Coop, id: nat, eligible: bool, now: nat, fault: Option<nat>)
    returns (t: Coop)
    ensures t == Process(c, id, eligible, now, fault).After(c)
    ensures t.desk == c.desk ||
            (id < |c.receipts| && Attempt(c, id, eligible, now, fault).Commit? &&
             t == Attempt(c, id, eligible, now, fault).state)
  {
    t := Process(c, id, eligible, now, fault).After(c);
  }

  lemma {:induction false} AttemptGrows(c: Coop, id: nat, eligible: bool, now: nat, fault: Option<nat>)
    requires id < |c.receipts| && Attempt(c, id, eligible, now, fault).Commit?
    ensures var t := Attempt(c, id, eligible, now, fault).state;
            Grows(c.desk.office, t.desk.office) && t.desk.operations == c.desk.operations
  {
    PostRowsGrow(c.desk, c.receipts[id], c.receipts[id].rows, now, fault);
  }

  /** Operations stay on file; only a refund's status moves, forward. */
  ghost predicate OperationsKept(d: Desk, e: Desk) {
    forall k | k in d.operations :: k in e.operations && OperationKept(d.operations[k], e.operations[k])
  }

  predicate OperationKept(o: Credits.Operation, p: Credits.Operation) {
    p == o.(status := p.status, reviewedBy := p.reviewedBy, completedBy := p.completedBy, payout := p.payout)
  }

  lemma SpendKeepsOperations(d: Desk, q: Credits.CreditRequest)
    ensures OperationsKept(d, Credits.ManageCredit(d, q).After(d))
  {
    forall k | k in d.operations
      ensures k in Credits.ManageCredit(d, q).After(d).operations &&
              OperationKept(d.operations[k], Credits.ManageCredit(d, q).After(d).operations[k])
    {
      Credits.OperationsMoveForward(d, q, k);
    }
  }

  lemma StepGrows(c: Coop, command: Command)
    ensures Grows(c.desk.office, Step(c, command).desk.office) && OperationsKept(c.desk, Step(c, command).desk)
  {
    match command
    case Direct(command) => PerformGrows(c.desk.office, command);
    case SpendCredit(request) =>
      SpendGrows(c.desk, request);
      SpendKeepsOperations(c.desk, request);
    case WorkReceipt(id, eligible, now, fault) => ProcessGrows(c, id, eligible, now, fault);
    case _ =>
  }

  lemma {:induction false} RunGrows(c: Coop, commands: seq<Command>)
    ensures Grows(c.desk.office, Run(c, commands).desk.office) && OperationsKept(c.desk, Run(c, commands).desk)
  {
    if commands != [] {
      var before := Run(c, commands[..|commands| - 1]);
      RunGrows(c, commands[..|commands| - 1]);
      StepGrows(before, commands[|commands| - 1]);
      GrowsTwice(c.desk.office, before.desk.office, Run(c, commands).desk.office);
      forall k | k in c.desk.operations
        ensures k in Run(c, commands).desk.operations &&
                OperationKept(c.desk.operations[k], Run(c, commands).desk.operations[k])
      {
        assert OperationKept(c.desk.operations[k], before.desk.operations[k]);
      }
    }
  }

  /**
    A share posting repeated after any further run returns the original entry and changes nothing, whatever the balance
    and the account's status are by then, exactly when its amount fits the column.
   */
  lemma RepeatedPostIff(c: Coop, account: Id, kind: Kind, nanos: int, reference: Ref, owner: Option<Owner>,
                        commands: seq<Command>)
    requires kind == Purchase || kind == Withdrawal || kind == Dividend
    requires Post(c.desk.office.shares, account, kind, nanos, reference, owner).Commit?
    ensures var r := Post(c.desk.office.shares, account, kind, nanos, reference, owner);
            var later := Run(Step(c, Direct(PostEntry(account, kind, nanos, reference, owner))),
                             commands).desk.office.shares;
            Post(later, account, kind, nanos, reference, owner) == Commit(later, r.value) <==> nanos % TICK == 0
  {
    var now := Step(c, Direct(PostEntry(account, kind, nanos, reference, owner)));
    RunGrows(now, commands);
    var later := Run(now, commands).desk.office.shares;
    assert SameHolder(now.desk.office.shares.accounts[account], later.accounts[account]);
    RetryPostIff(c.desk.office.shares, later, account, kind, nanos, reference, owner);
  }

  /** ... and so does a repayment, even once the loan has closed. */
  lemma RepeatedRepaymentIff(c: Coop, loan: nat, nanos: int, gateway: Ref, period: nat, now: nat, owner: Option<Owner>,
                             commands: seq<Command>)
    requires RecordRepayment(c.desk.office, loan, nanos, gateway, period, now, owner).Commit?
    ensures var r := RecordRepayment(c.desk.office, loan, nanos, gateway, period, now, owner);
            var later := Run(Step(c, Direct(RepayLoan(loan, nanos, gateway, period, now, owner))),
                             commands).desk.office;
            RecordRepayment(later, loan, nanos, gateway, period, now, owner) == Commit(later, r.value) <==>
              nanos % TICK == 0
  {
    var o := c.desk.office;
    var next := Step(c, Direct(RepayLoan(loan, nanos, gateway, period, now, owner)));
    RunGrows(next, commands);
    var later := Run(next, commands).desk.office;
    assert LoanGrows(next.desk.office.loans[loan], later.loans[loan]);
    RepaymentStored(o.loans[loan], nanos, gateway, period);
    FirstStable(next.desk.office.loans[loan].repayments, later.loans[loan].repayments, SameGateway(gateway));
  }

  /**
    A transfer, loan payment or refund request repeated after any further run finds its operation and changes nothing.
   */
  lemma RepeatedSpend(c: Coop, q: Credits.CreditRequest, commands: seq<Command>, now: nat)
    requires !q.action.Reviewing() && Credits.ManageCredit(c.desk, q).Commit? && q.now <= now
    ensures var later := Run(Step(c, SpendCredit(q)), commands).desk;
            q.operation in later.operations &&
            Credits.ManageCredit(later, q.(now := now)) == Commit(later, later.operations[q.operation])
  {
    var next := Step(c, SpendCredit(q));
    RunGrows(next, commands);
    var later := Run(next, commands).desk;
    assert OperationKept(next.desk.operations[q.operation], later.operations[q.operation]);
    Credits.RetrySpend(c.desk, q, later, now);
  }
}
