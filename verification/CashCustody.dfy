/**
  Cash from the till to the bank: cashier sessions, handovers and deposits
  (internal/contribution/cash.go, cash.sql). Amounts in tables are ticks.
 */
module CashCustody {
  import opened Common
  import opened Decimals
  import opened Allocations
  import opened Receipts
  import ShareLedger
  import LoanAccount
  import Credits
  import Sums

  datatype SessionStatus = TillOpen | TillClosed | TillHandedOver | TillDeposited

  datatype Session = Session(
    branch: nat, cashier: Id, status: SessionStatus, expected: int, counted: int, reason: bool, holder: Option<Id>)

  /** cash_deposits with its rows of cash_deposit_sessions. */
  datatype Deposit = Deposit(branch: nat, amount: int, reference: Ref, recorder: Id, verifier: Option<Id>,
                             sessions: seq<nat>)

  /** The cash columns of contribution_receipts, one ticket for each receipt. */
  datatype Ticket = Ticket(key: Option<Ref>, session: Option<nat>, plan: seq<Row>)

  datatype Till = Till(coop: Coop, tickets: seq<Ticket>, sessions: seq<Session>, deposits: seq<Deposit>)

  function OpenOf(cashier: Id): Session -> bool { (s: Session) => s.cashier == cashier && s.status == TillOpen }
  function Keyed(key: Ref): Ticket -> bool { (k: Ticket) => k.key == Some(key) }
  function AtBank(reference: Ref): Deposit -> bool { (d: Deposit) => d.reference == reference }

  /** What receipt k adds to a session's takings. */
  function Taking(t: Till, s: nat, k: nat): int
    requires k < |t.tickets| && k < |t.coop.receipts|
  {
    if t.tickets[k].session == Some(s) && t.coop.receipts[k].channel == Cash then t.coop.receipts[k].received else 0
  }

  function TakingsOf(t: Till, s: nat, n: nat): int
    requires n <= |t.tickets| && n <= |t.coop.receipts|
  {
    if n == 0 then 0 else TakingsOf(t, s, n - 1) + Taking(t, s, n - 1)
  }

  /** SumCashReceiptsBySession. */
  function Takings(t: Till, s: nat): int
    requires |t.tickets| == |t.coop.receipts|
  {
    TakingsOf(t, s, |t.tickets|)
  }

  // ----- Operations

  /** OpenCashierSession: one open session per cashier. */
  function OpenSession(t: Till, branch: nat, cashier: Id): Tx<Till, nat> {
    var open := First(t.sessions, OpenOf(cashier));
    if open.Some? then Commit(t, open.value)
    else Commit(t.(sessions := t.sessions + [Session(branch, cashier, TillOpen, 0, 0, false, None)]), |t.sessions|)
  }

  /** ValidateContributionTarget of the owning service. */
  function TargetError(d: Credits.Desk, item: Item, member: Id, branch: nat): Option<Error> {
    if item.kind == SharePurchase then
      var accounts := d.office.shares.accounts;
      if item.target.None? || item.target.value !in accounts
         || !ShareLedger.OwnedBy(accounts[item.target.value], Some(ShareLedger.Owner(member, branch)))
           then Some(AccountNotFound)
      else if accounts[item.target.value].status != ShareLedger.AccountActive then Some(AccountNotActive)
      else None
    else if item.kind == LoanPrincipal then
      var loans := d.office.loans;
      if item.target.None? || item.target.value >= |loans|
         || loans[item.target.value].member != member || loans[item.target.value].branch != branch
           then Some(LoanNotFound)
      else if !LoanAccount.Payable(loans[item.target.value].status) then Some(PaymentNotAllowed)
      else None
    else None
  }

  function TargetsError(d: Credits.Desk, items: seq<Item>, member: Id, branch: nat): Option<Error> {
    if items == [] then None
    else if TargetsError(d, items[..|items| - 1], member, branch).Some?
    then TargetsError(d, items[..|items| - 1], member, branch)
    else TargetError(d, items[|items| - 1], member, branch)
  }

  /** What the cashier asks for; `active` says whether the member is an active member of the branch. */
  datatype CashPayment = CashPayment(
    key: Ref, member: Id, branch: nat, period: nat, received: int, items: seq<Item>, session: nat, cashier: Id,
      active: bool, eligible: bool)

  function ReceiptOf(p: CashPayment, items: seq<Item>, ids: nat -> Ref): NewReceipt {
    NewReceipt(p.member, p.branch, p.period, p.received, Cash, true, items, seq(|items|, ids))
  }

  /** The allocations a new cash payment ends up with. */
  function CashItems(c: Coop, p: CashPayment): Outcome<seq<Item>> {
    Normalise(p.items, Outstanding(c.(fees := AssessFees(c.fees, p.member, p.period, p.eligible)), p.member, p.period,
                                   None))
  }

  predicate SamePayment(r: Receipt, k: Ticket, p: CashPayment) {
    && r.channel == Cash && r.member == p.member && r.branch == p.branch && k.session == Some(p.session)
    && r.period == p.period && r.received == Ticks(p.received)
  }

  /** CreateCashReceipt for a key that is on file. */
  function RepeatCash(t: Till, k: nat, p: CashPayment): Tx<Till, nat>
    requires k < |t.tickets|
  {
    var retried := ForRetry(p.items, t.tickets[k].plan);
    if k >= |t.coop.receipts| then Abort(ReceiptNotFound)
    else if retried.Failed? then Abort(retried.error)
    else if !SamePayment(t.coop.receipts[k], t.tickets[k], p) ||
      !RowsMatch(retried.value, StoredRows(t.coop.receipts[k].rows))
    then Abort(InconsistentReceipt)
    else Commit(t, k)
  }

  /** CreateCashReceipt; the ids are those the database gives the allocation rows. */
  function Receive(t: Till, p: CashPayment, ids: nat -> Ref): Tx<Till, nat> {
    if p.session >= |t.sessions| then Abort(SessionNotFound)
    else if First(t.tickets, Keyed(p.key)).Some? then RepeatCash(t, First(t.tickets, Keyed(p.key)).value, p)
    else
      var s := t.sessions[p.session];
      var c := t.coop.(fees := AssessFees(t.coop.fees, p.member, p.period, p.eligible));
      var items := CashItems(t.coop, p);
      if s.status != TillOpen || s.cashier != p.cashier || s.branch != p.branch then Abort(SessionState)
      else if !p.active then Abort(MemberNotActive)
      else if items.Failed? then Abort(items.error)
      else if ChargeError(c, p.member, p.branch, items.value, None).Some?
      then Abort(ChargeError(c, p.member, p.branch, items.value, None).value)
      else if ReceiptError(ReceiptOf(p, items.value, ids)).Some?
      then Abort(ReceiptError(ReceiptOf(p, items.value, ids)).value)
      else if MinimumsError(c.desk, p.member, p.branch, p.period, items.value).Some? then Abort(InvalidAllocation)
      else if TargetsError(c.desk, items.value, p.member, p.branch).Some?
      then Abort(TargetsError(c.desk, items.value, p.member, p.branch).value)
      else
        var (d, k) :- Accept(c, ReceiptOf(p, items.value, ids));
        Commit(t.(coop := d, tickets := t.tickets + [Ticket(Some(p.key), Some(p.session), BuildPlan(items.value))]), k)
  }

  /** CloseCashierSession: the count is compared as it was given, and stored rounded. */
  function Close(t: Till, s: nat, cashier: Id, counted: int, reason: bool): Tx<Till, ()>
    requires |t.tickets| == |t.coop.receipts|
  {
    if counted < 0 then Abort(DepositInvalid)
    else if s >= |t.sessions| then Abort(SessionNotFound)
    else
      var session := t.sessions[s];
      if session.cashier != cashier then Abort(SessionState)
      else if session.status != TillOpen then
        if session.counted == Ticks(counted) then Commit(t, ()) else Abort(SessionState)
      else
        var expected := Takings(t, s);
        if Ticks(counted) != expected && !reason then Abort(VarianceReason)
        else if expected < 0 || (Column(counted) != expected && !reason) then Abort(ConstraintViolation)
        else Commit(t.(sessions :=
                       t.sessions[s := session.(status := TillClosed, expected := expected, counted := Column(counted),
                                                reason := reason)]), ())
  }

  /** AcceptCashHandover. */
  function AcceptHandover(t: Till, s: nat, receiver: Id, branch: nat): Tx<Till, ()> {
    if s >= |t.sessions| then Abort(SessionNotFound)
    else
      var session := t.sessions[s];
      if session.branch != branch then Abort(SessionState)
      else if session.cashier == receiver then Abort(SeparationOfDuties)
      else if session.status == TillHandedOver || session.status == TillDeposited then Commit(t, ())
      else if session.status != TillClosed then Abort(SessionState)
      else Commit(t.(sessions := t.sessions[s := session.(status := TillHandedOver, holder := Some(receiver))]), ())
  }

  predicate Distinct(ids: seq<nat>) { forall i, j | 0 <= i < j < |ids| :: ids[i] != ids[j] }

  function CountedIn(sessions: seq<Session>): nat -> int {
    (s: nat) => if s < |sessions| then sessions[s].counted else 0
  }

  /** The counts of a deposit's sessions. */
  function Counts(sessions: seq<Session>, ids: seq<nat>): int { Sums.Of(ids, CountedIn(sessions)) }

  predicate ReadyFor(sessions: seq<Session>, branch: nat, s: nat) {
    s < |sessions| && sessions[s].branch == branch && sessions[s].status == TillHandedOver
  }

  /** MarkCashierSessionDeposited, for each session of a deposit. */
  function MarkDeposited(sessions: seq<Session>, ids: seq<nat>): (r: seq<Session>)
    ensures |r| == |sessions|
  {
    if ids == [] then sessions
    else
      var before, s := MarkDeposited(sessions, ids[..|ids| - 1]), ids[|ids| - 1];
      if s < |sessions| then before[s := before[s].(status := TillDeposited)] else before
  }

  /** RecordCashDeposit. */
  function RecordDeposit(t: Till, ids: seq<nat>, amount: int, reference: Ref, branch: nat,
                         recorder: Id): Tx<Till, nat> {
    if ids == [] || amount <= 0 || reference == "" || !Distinct(ids) then Abort(DepositInvalid)
    else
      var existing := First(t.deposits, AtBank(reference));
      if existing.Some? then
        var d := t.deposits[existing.value];
        if d.branch != branch || d.amount != Ticks(amount) || |d.sessions| != |ids| ||
          exists s :: s in d.sessions && s !in ids then Abort(DepositInvalid)
        else Commit(t, existing.value)
      else if exists s :: s in ids && s >= |t.sessions| then Abort(SessionNotFound)
      else if exists s :: s in ids && !ReadyFor(t.sessions, branch, s) then Abort(SessionState)
      else if Counts(t.sessions, ids) != Ticks(amount) then Abort(DepositInvalid)
      else if Column(amount) <= 0 then Abort(ConstraintViolation)
      else
        Commit(t.(deposits := t.deposits + [Deposit(branch, Column(amount), reference, recorder, None, ids)],
                  sessions := MarkDeposited(t.sessions, ids)), |t.deposits|)
  }

  /** VerifyCashDeposit. */
  function Verify(t: Till, d: nat, verifier: Id, branch: nat): Tx<Till, ()> {
    if d >= |t.deposits| || t.deposits[d].branch != branch then Abort(DepositInvalid)
    else if t.deposits[d].verifier.Some? then Commit(t, ())
    else if t.deposits[d].recorder == verifier then Abort(SelfVerify)
    else Commit(t.(deposits := t.deposits[d := t.deposits[d].(verifier := Some(verifier))]), ())
  }

  // ----- Runs

  datatype Step =
    | Begin(branch: nat, cashier: Id)
    | Take(payment: CashPayment, ids: nat -> Ref)
    | Count(session: nat, cashier: Id, counted: int, reason: bool)
    | Hand(session: nat, receiver: Id, branch: nat)
    | Bank(sessions: seq<nat>, amount: int, reference: Ref, branch: nat, recorder: Id)
    | Confirm(deposit: nat, verifier: Id, branch: nat)
    | Work(receipt: nat, eligible: bool, now: nat, fault: Option<nat>)
    | Other(n: NewReceipt)
    | SendBack(receipt: nat)

  /** A receipt of another channel. */
  function FileOther(t: Till, n: NewReceipt): Till {
    if n.channel == Cash || |n.ids| != |n.items| then t
    else match Accept(t.coop, n)
         case Commit(c, k) => t.(coop := c, tickets := t.tickets + [Ticket(None, None, [])])
         case Abort(_) => t
  }

  ghost function Next(t: Till, step: Step): Till {
    match step
    case Begin(branch, cashier) => OpenSession(t, branch, cashier).After(t)
    case Take(payment, ids) => Receive(t, payment, ids).After(t)
    case Count(session, cashier, counted, reason) =>
      if |t.tickets| == |t.coop.receipts| then Close(t, session, cashier, counted, reason).After(t) else t
    case Hand(session, receiver, branch) => AcceptHandover(t, session, receiver, branch).After(t)
    case Bank(sessions, amount, reference, branch, recorder) =>
      RecordDeposit(t, sessions, amount, reference, branch, recorder).After(t)
    case Confirm(deposit, verifier, branch) => Verify(t, deposit, verifier, branch).After(t)
    case Work(receipt, eligible, now, fault) => t.(coop := Process(t.coop, receipt, eligible, now, fault).After(t.coop))
    case Other(n) => FileOther(t, n)
    case SendBack(receipt) => t.(coop := Requeue(t.coop, receipt))
  }

  ghost function Run(t: Till, steps: seq<Step>): Till {
    if steps == [] then t else Next(Run(t, steps[..|steps| - 1]), steps[|steps| - 1])
  }
}
