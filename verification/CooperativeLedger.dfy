/**
  The ledgers over whole runs of the co-operative: references stay unique and nothing is reversed twice, the running
  balance is the signed sum of the entries, and a completed receipt keeps its one posting for each allocation.
 */
module CooperativeLedger {
  import opened Common
  import opened Decimals
  import opened ShareLedger
  import LoanAccount
  import opened Lending
  import opened Allocations
  import opened Receipts
  import opened ReceiptPosting
  import opened Cooperative
  import Credits
  import Sums

  // ----- Unique references, and at most one reversal

  ghost predicate UniqueGateways(repayments: seq<LoanAccount.RepaymentRow>) {
    forall i, j | 0 <= i < j < |repayments| :: repayments[i].gateway != repayments[j].gateway
  }

  ghost predicate LoansUnique(loans: seq<LoanAccount.Loan>) {
    forall l | 0 <= l < |loans| :: UniqueGateways(loans[l].repayments)
  }

  /** References are unique in both ledgers, and no share entry is reversed twice. */
  ghost predicate Journals(o: Office) { Journal(o.shares.entries) && LoansUnique(o.loans) }

  lemma {:induction false} GuaranteesKeepEntries(o: Office, command: OfficeCommand)
    requires GuaranteeCommand(command)
    ensures Perform(o, command).shares.entries == o.shares.entries
  {
  }

  lemma {:induction false} LoansKeepEntries(o: Office, command: OfficeCommand)
    requires LoanCommand(command)
    ensures Perform(o, command).shares.entries == o.shares.entries
  {
  }

  lemma {:induction false} SameEntries(o: Office, command: OfficeCommand)
    requires !ShareCommand(command)
    ensures Perform(o, command).shares.entries == o.shares.entries
  {
    if GuaranteeCommand(command) {
      GuaranteesKeepEntries(o, command);
    } else if LoanCommand(command) {
      LoansKeepEntries(o, command);
    }
  }

  lemma {:induction false} ShareCommandKeepsJournal(o: Office, command: OfficeCommand)
    requires Journal(o.shares.entries) && ShareCommand(command)
    ensures Journal(Perform(o, command).shares.entries) && Perform(o, command).loans == o.loans
  {
    match command
    case PostEntry(account, kind, nanos, reference, owner) =>
      if kind == Purchase || kind == Withdrawal || kind == Dividend {
        PostKeepsJournal(o.shares, account, kind, nanos, reference, owner);
      }
    case Adjust(adjustment) => ApproveAdjustmentKeepsJournal(o.shares, adjustment);
    case ReverseEntry(entry, reference) => ReverseKeepsJournal(o.shares, entry, reference);
    case _ =>
  }

  lemma {:induction false} RepaymentKeepsUnique(o: Office, loan: nat, nanos: int, gateway: Ref, period: nat, now: nat,
                                                owner: Option<Owner>)
    requires Journals(o)
    ensures Journals(RecordRepayment(o, loan, nanos, gateway, period, now, owner).After(o))
  {
    var p := RecordRepayment(o, loan, nanos, gateway, period, now, owner).After(o);
    AcceptsRepaymentIff(o, loan, nanos, gateway, period, now, owner);
    if AcceptsRepayment(o, loan, nanos, gateway, period, now, owner) {
      FirstNone(o.loans[loan].repayments, LoanAccount.SameGateway(gateway));
      LoanAccount.RepayAppends(o.loans[loan], nanos, gateway, period);
      NewGateway(o.loans[loan].repayments, p.loans[loan].repayments);
    }
  }

  lemma {:induction false} NewGateway(before: seq<LoanAccount.RepaymentRow>, after: seq<LoanAccount.RepaymentRow>)
    requires UniqueGateways(before) && |after| == |before| + 1 && before <= after
    requires forall i | 0 <= i < |before| :: before[i].gateway != after[|before|].gateway
    ensures UniqueGateways(after)
  {
  }

  lemma {:induction false} QuietKeepsUnique(o: Office, p: Office)
    requires LoansUnique(o.loans) && Quiet(o, p)
    ensures LoansUnique(p.loans)
  {
    forall l | 0 <= l < |p.loans| ensures UniqueGateways(p.loans[l].repayments) {
      if l < |o.loans| { assert SameLedgers(o.loans[l], p.loans[l]); }
    }
  }

  lemma {:induction false} PerformKeepsJournals(o: Office, command: OfficeCommand)
    requires Journals(o)
    ensures Journals(Perform(o, command))
  {
    if ShareCommand(command) {
      ShareCommandKeepsJournal(o, command);
    } else if command.RepayLoan? {
      RepaymentKeepsUnique(o, command.loan, command.nanos, command.gateway, command.period, command.now, command.owner);
    } else {
      SameEntries(o, command);
      OtherCommandsAreQuiet(o, command);
      QuietKeepsUnique(o, Perform(o, command));
    }
  }

  lemma {:induction false} PostingKeepsJournals(d: Desk, q: Credits.CreditRequest)
    requires Journals(d.office) && q.credit < |d.office.credits| && !q.action.Reviewing() &&
             Credits.SpendError(d, q).None?
    ensures Journals(Credits.PostSpend(d, q).After(d.office))
  {
    var owner := Some(Owner(d.office.credits[q.credit].member, q.branch));
    if q.action == Credits.TransferShares {
      PostKeepsJournal(d.office.shares, Credits.Target(d, q).value, Purchase, Nanos(q.amount), q.operation, owner);
    } else if q.action == Credits.ApplyLoan {
      RepaymentKeepsUnique(d.office, Credits.Target(d, q).value, Nanos(q.amount), Credits.Gateway(q.operation),
                           q.period.value, q.now, owner);
    }
  }

  lemma {:induction false} SpendKeepsJournals(d: Desk, q: Credits.CreditRequest)
    requires Journals(d.office)
    ensures Journals(Credits.ManageCredit(d, q).After(d).office)
  {
    var t := Credits.ManageCredit(d, q).After(d);
    if t.office != d.office { PostingKeepsJournals(d, q); }
  }

  lemma {:induction false} PostRowKeepsJournals(d: Desk, r: Receipt, row: AllocationRow, now: nat)
    requires Journals(d.office) && PostRow(d, r, row, now).Commit?
    ensures Journals(PostRow(d, r, row, now).state.office)
  {
    var owner := Some(Owner(r.member, r.branch));
    if row.key.kind == SharePurchase {
      PostKeepsJournal(d.office.shares, row.key.target.value, Purchase, Nanos(row.amount), row.id, owner);
    } else if row.key.kind == LoanPrincipal {
      RepaymentKeepsUnique(d.office, row.key.target.value, Nanos(row.amount), row.id, r.period, now, owner);
    }
  }

  lemma {:induction false} PostRowsKeepJournals(d: Desk, r: Receipt, rows: seq<AllocationRow>, now: nat,
                                                fault: Option<nat>)
    requires Journals(d.office) && PostRows(d, r, rows, now, fault).Commit?
    ensures Journals(PostRows(d, r, rows, now, fault).state.office)
  {
    if rows != [] {
      var n := |rows| - 1;
      PostRowsKeepJournals(d, r, rows[..n], now, fault);
      var e := PostRows(d, r, rows[..n], now, fault).state;
      if rows[n].status == RowPending && fault != Some(n) { PostRowKeepsJournals(e, r, rows[n], now); }
    }
  }

  lemma {:induction false} AttemptKeepsJournals(c: Coop, id: nat, eligible: bool, now: nat, fault: Option<nat>)
    requires Journals(c.desk.office) && id < |c.receipts| && Attempt(c, id, eligible, now, fault).Commit?
    ensures Journals(Attempt(c, id, eligible, now, fault).state.desk.office)
  {
    PostRowsKeepJournals(c.desk, c.receipts[id], c.receipts[id].rows, now, fault);
  }

  lemma {:induction false} StepKeepsJournals(c: Coop, command: Command)
    requires Journals(c.desk.office)
    ensures Journals(Step(c, command).desk.office)
  {
    match command
    case Direct(command) => PerformKeepsJournals(c.desk.office, command);
    case SpendCredit(request) => SpendKeepsJournals(c.desk, request);
    case WorkReceipt(id, eligible, now, fault) =>
      ghost var t := ProcessLeaves(c, id, eligible, now, fault);
      if t.desk != c.desk { AttemptKeepsJournals(c, id, eligible, now, fault); }
    case _ =>
  }

  /** In any run whatever, one after the other, each entry is reversed at most once and references stay unique. */
  lemma {:induction false} RunKeepsJournals(c: Coop, commands: seq<Command>)
    requires Journals(c.desk.office)
    ensures Journals(Run(c, commands).desk.office)
  {
    if commands != [] {
      RunKeepsJournals(c, commands[..|commands| - 1]);
      StepKeepsJournals(Run(c, commands[..|commands| - 1]), commands[|commands| - 1]);
    }
  }

  // ----- The running balance

  /** A new withdrawal that discards exactly half a tick. */
  ghost predicate HalfTick(c: Coop, command: Command) {
    command.Direct? && command.command.PostEntry? &&
    LosesHalfTick(c.desk.office.shares, command.command.account, command.command.kind, command.command.nanos,
                  command.command.reference, command.command.owner)
  }

  ghost predicate RunningAt(c: Coop) { Running(c.desk.office.shares.entries) }

  lemma {:induction false} PurchaseKeepsRunning(s: Shares, account: Id, nanos: int, reference: Ref,
                                                owner: Option<Owner>)
    requires Stored(s) && Backed(s) && Running(s.entries)
    ensures Running(Post(s, account, Purchase, nanos, reference, owner).After(s).entries)
  {
    PostKeepsRunningIff(s, account, Purchase, nanos, reference, owner);
  }

  lemma {:induction false} EntryKeepsRunningIff(o: Office, command: OfficeCommand)
    requires Safe(o) && Running(o.shares.entries) && command.PostEntry?
    ensures Running(Perform(o, command).shares.entries) <==>
            !LosesHalfTick(o.shares, command.account, command.kind, command.nanos, command.reference, command.owner)
  {
    if command.kind == Purchase || command.kind == Withdrawal || command.kind == Dividend {
      PostKeepsRunningIff(o.shares, command.account, command.kind, command.nanos, command.reference, command.owner);
    }
  }

  lemma {:induction false} CorrectionsKeepRunning(o: Office, command: OfficeCommand)
    requires Running(o.shares.entries) && ShareCommand(command) && !command.PostEntry?
    ensures Running(Perform(o, command).shares.entries)
  {
    match command
    case Adjust(adjustment) => ApproveAdjustmentKeepsRunning(o.shares, adjustment);
    case ReverseEntry(entry, reference) => ReverseKeepsRunning(o.shares, entry, reference);
    case _ =>
  }

  lemma {:induction false} PerformKeepsRunningIff(o: Office, command: OfficeCommand)
    requires Safe(o) && Running(o.shares.entries)
    ensures Running(Perform(o, command).shares.entries) <==>
            !(command.PostEntry? &&
              LosesHalfTick(o.shares, command.account, command.kind, command.nanos, command.reference, command.owner))
  {
    if command.PostEntry? {
      EntryKeepsRunningIff(o, command);
    } else if ShareCommand(command) {
      CorrectionsKeepRunning(o, command);
    } else {
      SameEntries(o, command);
    }
  }

  lemma {:induction false} SpendKeepsRunning(d: Desk, q: Credits.CreditRequest)
    requires Safe(d.office) && Running(d.office.shares.entries)
    ensures Running(Credits.ManageCredit(d, q).After(d).office.shares.entries)
  {
    var t := Credits.ManageCredit(d, q).After(d);
    if t.office != d.office && q.action == Credits.TransferShares {
      PurchaseKeepsRunning(d.office.shares, Credits.Target(d, q).value, Nanos(q.amount), q.operation,
                           Some(Owner(d.office.credits[q.credit].member, q.branch)));
    }
  }

  lemma {:induction false} NextRowKeepsRunning(d: Desk, r: Receipt, row: AllocationRow, now: nat, faulty: bool)
    requires Safe(d.office) && Running(d.office.shares.entries) && NextRow(d, r, row, now, faulty).Commit?
    ensures Running(NextRow(d, r, row, now, faulty).state.office.shares.entries)
  {
    if row.key.kind == SharePurchase && row.key.target.Some? {
      PurchaseKeepsRunning(d.office.shares, row.key.target.value, Nanos(row.amount), row.id,
                           Some(Owner(r.member, r.branch)));
    }
  }

  lemma {:induction false} PostRowsKeepRunning(d: Desk, r: Receipt, rows: seq<AllocationRow>, now: nat,
                                               fault: Option<nat>)
    requires Safe(d.office) && Credits.FundsSound(d) && Running(d.office.shares.entries) &&
             PostRows(d, r, rows, now, fault).Commit?
    ensures Running(PostRows(d, r, rows, now, fault).state.office.shares.entries)
  {
    if rows != [] {
      var n := |rows| - 1;
      PostRowsKeep(d, r, rows[..n], now, fault);
      PostRowsKeepRunning(d, r, rows[..n], now, fault);
      NextRowKeepsRunning(PostRows(d, r, rows[..n], now, fault).state, r, rows[n], now, fault == Some(n));
    }
  }

  lemma {:induction false} AttemptKeepsRunning(c: Coop, id: nat, eligible: bool, now: nat, fault: Option<nat>)
    requires Safe(c.desk.office) && Credits.FundsSound(c.desk) && RunningAt(c)
    requires id < |c.receipts| && Attempt(c, id, eligible, now, fault).Commit?
    ensures RunningAt(Attempt(c, id, eligible, now, fault).state)
  {
    PostRowsKeepRunning(c.desk, c.receipts[id], c.receipts[id].rows, now, fault);
  }

  /**
    Every command keeps each balance the signed sum of its entries, except a new withdrawal that discards half a tick.
   */
  lemma {:induction false} StepKeepsRunningIff(c: Coop, command: Command)
    requires Safe(c.desk.office) && Credits.FundsSound(c.desk) && RunningAt(c)
    ensures RunningAt(Step(c, command)) <==> !HalfTick(c, command)
  {
    match command
    case Direct(command) => PerformKeepsRunningIff(c.desk.office, command);
    case SpendCredit(request) => SpendKeepsRunning(c.desk, request);
    case WorkReceipt(id, eligible, now, fault) =>
      ghost var t := ProcessLeaves(c, id, eligible, now, fault);
      if t.desk != c.desk { AttemptKeepsRunning(c, id, eligible, now, fault); }
    case _ =>
  }

  /** Safety of the shares, loans and credits needs nothing from the outside world. */
  lemma {:induction false} StepKeepsDesk(c: Coop, command: Command)
    requires Safe(c.desk.office) && Credits.FundsSound(c.desk)
    ensures Safe(Step(c, command).desk.office) && Credits.FundsSound(Step(c, command).desk)
  {
    match command
    case Direct(command) =>
      PerformKeepsSafe(c.desk.office, command);
      PerformEffects(c.desk, command);
    case SpendCredit(request) =>
      SpendKeepsSafe(c.desk, request);
      Credits.ManageCreditKeepsFunds(c.desk, request);
    case WorkReceipt(id, eligible, now, fault) => ProcessKeepsSafe(c, id, eligible, now, fault);
    case _ =>
  }

  lemma {:induction false} RunKeepsDesk(c: Coop, commands: seq<Command>)
    requires Safe(c.desk.office) && Credits.FundsSound(c.desk)
    ensures Safe(Run(c, commands).desk.office) && Credits.FundsSound(Run(c, commands).desk)
  {
    if commands != [] {
      RunKeepsDesk(c, commands[..|commands| - 1]);
      StepKeepsDesk(Run(c, commands[..|commands| - 1]), commands[|commands| - 1]);
    }
  }

  /** All along the run, every balance is the signed sum of its account's entries. */
  ghost predicate RunningThroughout(c: Coop, commands: seq<Command>) {
    RunningAt(Run(c, commands)) && (commands == [] || RunningThroughout(c, commands[..|commands| - 1]))
  }

  /** The run makes no new withdrawal that discards exactly half a tick. */
  ghost predicate NoHalfTick(c: Coop, commands: seq<Command>) {
    commands == [] ||
    (var init := commands[..|commands| - 1];
     NoHalfTick(c, init) && !HalfTick(Run(c, init), commands[|commands| - 1]))
  }

  /** The balances are exact all along a run if and only if the run makes no new half-tick withdrawal. */
  lemma {:induction false} RunKeepsRunningIff(c: Coop, commands: seq<Command>)
    requires Safe(c.desk.office) && Credits.FundsSound(c.desk) && RunningAt(c)
    ensures RunningThroughout(c, commands) <==> NoHalfTick(c, commands)
  {
    if commands != [] {
      var init := commands[..|commands| - 1];
      RunKeepsRunningIff(c, init);
      RunKeepsDesk(c, init);
      ThroughoutEnds(c, init);
      if RunningAt(Run(c, init)) { StepKeepsRunningIff(Run(c, init), commands[|commands| - 1]); }
    }
  }

  lemma {:induction false} ThroughoutEnds(c: Coop, commands: seq<Command>)
    ensures RunningThroughout(c, commands) ==> RunningAt(Run(c, commands))
  {
  }

  /**
    The ledger in every reachable state of a run without half-tick withdrawals: the latest balance_after of each
    account is the signed sum of its entries and never negative.
   */
  lemma {:induction false} RunKeepsLedger(c: Coop, commands: seq<Command>, account: Id)
    requires Safe(c.desk.office) && Credits.FundsSound(c.desk) && RunningAt(c) && NoHalfTick(c, commands)
    ensures var entries := Run(c, commands).desk.office.shares.entries;
            0 <= Balance(entries, account) == Fold(entries, account)
  {
    RunKeepsRunningIff(c, commands);
    RunKeepsDesk(c, commands);
    ThroughoutEnds(c, commands);
    RunningIsFold(Run(c, commands).desk.office.shares.entries, account);
    BalanceNonNegative(Run(c, commands).desk.office.shares.entries, account);
  }

  // ----- Completed receipts

  lemma {:induction false} WorkKeepsCompleted(c: Coop, receipt: nat, eligible: bool, now: nat, fault: Option<nat>,
                                              id: nat)
    requires id < |c.receipts| && c.receipts[id].status == ReceiptCompleted
    ensures var t := Process(c, receipt, eligible, now, fault).After(c);
            id < |t.receipts| && t.receipts[id] == c.receipts[id]
  {
  }

  lemma {:induction false} StepKeepsCompleted(c: Coop, command: Command, id: nat)
    requires id < |c.receipts| && c.receipts[id].status == ReceiptCompleted
    ensures id < |Step(c, command).receipts| && Step(c, command).receipts[id] == c.receipts[id]
  {
    if command.WorkReceipt? { WorkKeepsCompleted(c, command.id, command.eligible, command.now, command.fault, id); }
  }

  lemma {:induction false} RunKeepsCompleted(c: Coop, commands: seq<Command>, id: nat)
    requires id < |c.receipts| && c.receipts[id].status == ReceiptCompleted
    ensures id < |Run(c, commands).receipts| && Run(c, commands).receipts[id] == c.receipts[id]
  {
    if commands != [] {
      RunKeepsCompleted(c, commands[..|commands| - 1], id);
      StepKeepsCompleted(Run(c, commands[..|commands| - 1]), commands[|commands| - 1], id);
    }
  }

  // ----- What receipts say

  lemma {:induction false} StepKeepsPapers(c: Coop, command: Command)
    ensures SamePapers(c, Step(c, command))
  {
    match command
    case TakeReceipt(n) => if |n.ids| == |n.items| && Accept(c, n).Commit? { AcceptedIsAppended(c, n); }
    case WorkReceipt(id, eligible, now, fault) => ProcessKeepsPapers(c, id, eligible, now, fault);
    case _ =>
  }

  lemma {:induction false} RunKeepsPapers(c: Coop, commands: seq<Command>)
    ensures SamePapers(c, Run(c, commands))
  {
    if commands != [] {
      var before := Run(c, commands[..|commands| - 1]);
      RunKeepsPapers(c, commands[..|commands| - 1]);
      StepKeepsPapers(before, commands[|commands| - 1]);
      forall k | 0 <= k < |c.receipts| ensures SamePaper(c.receipts[k], Run(c, commands).receipts[k]) {
        assert SamePaper(c.receipts[k], before.receipts[k]) &&
          SamePaper(before.receipts[k], Run(c, commands).receipts[k]);
      }
    }
  }

  lemma {:induction false} SamePaperSameBalance(a: Receipt, b: Receipt)
    requires SamePaper(a, b)
    ensures Balanced(b) <==> Balanced(a)
  {
    forall i | 0 <= i < |a.rows| ensures RowAmount(a.rows[i]) == RowAmount(b.rows[i]) {
      assert StoredRows(a.rows)[i] == StoredRows(b.rows)[i];
    }
    assert |StoredRows(a.rows)| == |StoredRows(b.rows)|;
    Sums.OfCongruent(a.rows, b.rows, RowAmount, RowAmount);
  }

  /**
    Whether a receipt is balanced is decided when it is accepted, for every later state: exactly when as many of its
    allocations round up as the money received does.
   */
  lemma {:induction false} BalancedForGoodIff(c: Coop, n: NewReceipt, commands: seq<Command>)
    requires |n.ids| == |n.items| && Accept(c, n).Commit?
    ensures var t := Run(Step(c, TakeReceipt(n)), commands);
            |c.receipts| < |t.receipts| &&
            (Balanced(t.receipts[|c.receipts|]) <==>
             Sums.Of(n.items, RoundsUp) == (if n.received % TICK >= HALF then 1 else 0))
  {
    var d := Accept(c, n).state;
    AcceptedIsBalancedIff(c, n);
    RunKeepsPapers(d, commands);
    SamePaperSameBalance(d.receipts[|c.receipts|], Run(d, commands).receipts[|c.receipts|]);
  }

  /** The one ledger row in an allocation's slot. */
  ghost predicate OnePosting(o: Office, a: AllocationRow) {
    a.key.target.Some? &&
    if a.key.kind == SharePurchase then
      exists i :: 0 <= i < |o.shares.entries| &&
        SameReference(a.key.target.value, a.id, Purchase)(o.shares.entries[i]) &&
        o.shares.entries[i].amount == a.amount &&
        forall j | 0 <= j < |o.shares.entries| &&
          SameReference(a.key.target.value, a.id, Purchase)(o.shares.entries[j]) :: j == i
    else
      a.key.target.value < |o.loans| &&
      var repayments := o.loans[a.key.target.value].repayments;
      exists i :: 0 <= i < |repayments| && repayments[i].gateway == a.id && repayments[i].amount == a.amount &&
        forall j | 0 <= j < |repayments| && repayments[j].gateway == a.id :: j == i
  }

  lemma {:induction false} ExactIsOne(d: Desk, a: AllocationRow)
    requires Journals(d.office) && External(a.key.kind) && ExactPosting(d, a)
    ensures OnePosting(d.office, a)
  {
    if a.key.kind == SharePurchase {
      var entries := d.office.shares.entries;
      var i := First(entries, SameReference(a.key.target.value, a.id, Purchase)).value;
      assert SameReference(a.key.target.value, a.id, Purchase)(entries[i]);
    } else {
      var repayments := d.office.loans[a.key.target.value].repayments;
      var i := First(repayments, LoanAccount.SameGateway(a.id)).value;
      assert repayments[i].gateway == a.id;
    }
  }

  /**
    Exactly once: once completed, a receipt stays as it is under any further run, and each of its ledger allocations
    has exactly one posting, of its amount, in every later state.
   */
  lemma {:induction false} PostedOnceForAll(c: Coop, commands: seq<Command>, id: nat)
    requires Invariant(c) && Journals(c.desk.office) && HonestRun(c, commands)
    requires id < |c.receipts| && c.receipts[id].status == ReceiptCompleted
    ensures var t := Run(c, commands);
            id < |t.receipts| && t.receipts[id] == c.receipts[id] &&
            forall j | 0 <= j < |t.receipts[id].rows| && External(t.receipts[id].rows[j].key.kind) ::
              OnePosting(t.desk.office, t.receipts[id].rows[j])
  {
    var t := Run(c, commands);
    RunKeepsCompleted(c, commands, id);
    RunKeepsInvariant(c, commands);
    RunKeepsJournals(c, commands);
    forall j | 0 <= j < |t.receipts[id].rows| && External(t.receipts[id].rows[j].key.kind)
      ensures OnePosting(t.desk.office, t.receipts[id].rows[j])
    {
      ExactIsOne(t.desk, t.receipts[id].rows[j]);
    }
  }

  // ----- A posting in an allocation's slot

  const Shilling: AllocationRow := AllocationRow("a", Key(SharePurchase, Some(7)), 10_000, RowPending)

  /** Account 7 belongs to the member of a pending receipt for one shilling of shares. */
  function OneReceipt(entries: seq<Entry>): Coop {
    Coop(Credits.Desk(Office(map[], Shares(map[7 := Account(1, 1, AccountActive)], map[1 := 7], entries, [], map[]), [],
                             []), map[]),
         map[], [], [Receipt(0, 1, 1, 0, 10_000, Manual, ReceiptPending, [Shilling])])
  }

  const ShillingBought: Entry := Entry(7, Purchase, 10_000, 10_000, "a", None)

  /**
    A direct purchase under the id of a pending receipt's allocation: the receipt now has a posting while it is
    pending, and when it is completed it makes none of its own, so a shilling received bought nothing.
   */
  lemma {:induction false} PurchaseInAnAllocationsSlot()
    ensures var c := OneReceipt([]);
            var command := Direct(PostEntry(7, Purchase, Nanos(10_000), "a", None));
            AllOrNothing(c) && !Honest(c, command) && Step(c, command) == OneReceipt([ShillingBought]) &&
            !AllOrNothing(OneReceipt([ShillingBought]))
    ensures var t := Step(OneReceipt([ShillingBought]), WorkReceipt(0, false, 0, None));
            |t.receipts| == 1 && t.receipts[0].status == ReceiptCompleted && t.desk == OneReceipt([ShillingBought]).desk
  {
    PurchaseIsMade(OneReceipt([]).desk.office.shares);
    SlotIsForeign(OneReceipt([]));
    SlotIsTaken(OneReceipt([ShillingBought]));
    ShillingIsProcessed();
  }

  lemma {:induction false} PurchaseIsMade(s: Shares)
    requires s == OneReceipt([]).desk.office.shares
    ensures Accepts(s, 7, Purchase, Nanos(10_000), "a", None)
    ensures Post(s, 7, Purchase, Nanos(10_000), "a", None) == Commit(s.(entries := [ShillingBought]), 0)
  {
    ColumnOfTicks(10_000);
    AcceptsIff(s, 7, Purchase, Nanos(10_000), "a", None);
    assert [] + [ShillingBought] == [ShillingBought];
  }

  lemma {:induction false} SlotIsForeign(c: Coop)
    requires c == OneReceipt([])
    ensures AllOrNothing(c) && !Foreign(c, {SlotOf(Shilling)})
  {
    assert c.receipts[0].rows[0] == Shilling;
  }

  lemma {:induction false} SlotIsTaken(t: Coop)
    requires t == OneReceipt([ShillingBought])
    ensures !AllOrNothing(t)
  {
    assert t.receipts[0].rows[0] == Shilling;
    FirstNone(t.desk.office.shares.entries, SameReference(7, "a", Purchase));
  }

  lemma {:induction false} ShillingIsProcessed()
    ensures var t := Process(OneReceipt([ShillingBought]), 0, false, 0, None);
            t.Commit? && |t.state.receipts| == 1 && t.state.receipts[0].status == ReceiptCompleted &&
            t.state.desk == OneReceipt([ShillingBought]).desk
  {
    var c := OneReceipt([ShillingBought]);
    var r := c.receipts[0];
    assert ObligationsError(c, r, false, 0).None? by { ShillingIsOwed(c, r); }
    ShillingIsPosted(c.desk, r);
  }

  lemma {:induction false} ShillingIsOwed(c: Coop, r: Receipt)
    requires c == OneReceipt([ShillingBought]) && r == c.receipts[0]
    ensures ObligationsError(c, r, false, 0).None?
  {
    var item := Item(SharePurchase, Some(7), Nanos(10_000));
    ColumnOfTicks(10_000);
    assert ItemsOf(r.rows) == [item] && [item][..0] == [];
    assert AssessFees(c.fees, 1, 0, false) == map[] && Outstanding(c.(fees := map[]), 1, 0, Some(0)) == [];
    assert Collect([item][..0], []) == Ok([]) && ItemError([], item, []).None? && [] + [item] == [item];
    assert Collect([item], []) == Ok([item]) && [item] + [] == [item];
    assert StoredRows(r.rows) == [Row(Key(SharePurchase, Some(7)), 10_000)] == BuildPlan([item]);
    assert ChargeItemsError([item][..0]).None? && ChargeItemsError([item]).None?;
    assert ChargesDueError(c.(fees := map[]), 1, 1, [item][..0], Some(0)).None?;
    assert ChargesDueError(c.(fees := map[]), 1, 1, [item], Some(0)).None?;
  }

  lemma {:induction false} ShillingIsPosted(d: Desk, r: Receipt)
    requires d == OneReceipt([ShillingBought]).desk && r == OneReceipt([ShillingBought]).receipts[0]
    ensures PostRows(d, r, r.rows, 0, None) == Commit(d, [Shilling.(status := RowCompleted)])
  {
    assert [ShillingBought][..0] == [];
    assert First(d.office.shares.entries, SameReference(7, "a", Purchase)) == Some(0);
    assert r.rows[..0] == [] && [] + [Shilling.(status := RowCompleted)] == [Shilling.(status := RowCompleted)];
    assert PostRow(d, r, Shilling, 0) == Commit(d, ());
  }
}
