/**
  Spending overpayment credits: transfers to shares, payments on a loan, and refunds that two
  officers have to agree on (internal/loan/credit_handlers.go, internal/loan/credit_operations.sql).
 */
module Credits {
  import opened Common
  import opened Decimals
  import opened Repayment
  import opened ShareLedger
  import opened LoanAccount
  import opened LoanSecurity
  import opened Lending
  import opened LoanService
  import Sums

  datatype Action = TransferShares | ApplyLoan | RequestRefund | ApproveRefund | RejectRefund | RecordRefund {
    predicate Reviewing() { ApproveRefund? || RejectRefund? || RecordRefund? }
  }

  datatype OperationStatus = OperationPending | OperationApproved | OperationCompleted | OperationRejected

  datatype Operation = Operation(
    credit: nat, amount: int, action: Action, target: Option<nat>, period: Option<nat>, consent: Ref, requestedBy: Id,
    status: OperationStatus, reviewedBy: Option<Id>, completedBy: Option<Id>, payout: Option<Ref>)

  /** A request: the amount is in ticks, and absent texts are blank. */
  datatype CreditRequest = CreditRequest(
    actor: Id, branch: nat, credit: nat, operation: Ref, action: Action, amount: int, target: Option<nat>,
      period: Option<nat>,
    now: nat, reason: Ref, consent: Ref, payout: Ref, evidence: Ref)

  datatype Desk = Desk(office: Office, operations: map<Ref, Operation>)

  // ----- The funds of a credit

  function Reserved(credit: nat): (Ref, Operation) -> int {
    (k: Ref, o: Operation) =>
      if o.credit == credit && (o.status == OperationPending || o.status == OperationApproved) then o.amount else 0
  }

  function Used(credit: nat): (Ref, Operation) -> int {
    (k: Ref, o: Operation) => if o.credit == credit && o.status == OperationCompleted then o.amount else 0
  }

  /** Everything that an operation holds against its credit: all but the rejected ones. */
  function Held(credit: nat): (Ref, Operation) -> int {
    (k: Ref, o: Operation) => if o.credit == credit && o.status != OperationRejected then o.amount else 0
  }

  /** GetCreditFunds, less what is reserved and used. */
  ghost function Available(d: Desk, credit: nat): int
    requires credit < |d.office.credits|
  {
    d.office.credits[credit].amount - Sums.Over(d.operations, Reserved(credit)) - Sums.Over(d.operations, Used(credit))
  }

  lemma AvailableIsUnheld(d: Desk, credit: nat)
    requires credit < |d.office.credits|
    ensures Available(d, credit) == d.office.credits[credit].amount - Sums.Over(d.operations, Held(credit))
  {
    Sums.OverAdd(d.operations, Reserved(credit), Used(credit), Held(credit));
  }

  // ----- ManageCredit

  predicate PayoutUsed(operations: map<Ref, Operation>, payout: Ref) {
    exists k | k in operations :: operations[k].payout == Some(payout)
  }

  /** Reviewing or settling a refund request. */
  function Review(d: Desk, q: CreditRequest): Tx<Desk, Operation>
    requires q.credit < |d.office.credits| && q.action.Reviewing()
  {
    if q.action != RejectRefund && d.office.credits[q.credit].status != CreditAvailable then Abort(CreditRestricted)
    else if q.operation !in d.operations || d.operations[q.operation].action != RequestRefund then Abort(RefundNotFound)
    else
      var o := d.operations[q.operation];
      if o.requestedBy == q.actor then Abort(SameOfficer)
      else if q.reason == "" then Abort(InvalidArgument)
      else if q.action == RecordRefund then
        if q.payout == "" || q.evidence == "" then Abort(InvalidArgument)
        else if o.status == OperationCompleted then
          if o.payout != Some(q.payout) then Abort(SettledDifferently) else Commit(d, o)
        else if o.status != OperationApproved then Abort(NotApproved)
        else if PayoutUsed(d.operations, q.payout) then Abort(PayoutReferenceUsed)
        else
          var p := o.(status := OperationCompleted, completedBy := Some(q.actor), payout := Some(q.payout));
          Commit(d.(operations := d.operations[q.operation := p]), p)
      else
        var next := if q.action == ApproveRefund then OperationApproved else OperationRejected;
        if o.status == next then Commit(d, o)
        else if o.status != OperationPending then Abort(NotPending)
        else
          var p := o.(status := next, reviewedBy := Some(q.actor));
          Commit(d.(operations := d.operations[q.operation := p]), p)
  }

  /** Where the money goes: a transfer without a destination goes to the member's own account. */
  function Target(d: Desk, q: CreditRequest): Option<nat>
    requires q.credit < |d.office.credits|
  {
    var member := d.office.credits[q.credit].member;
    if q.action == RequestRefund then None
    else if q.action == TransferShares && q.target.None? then
      if member in d.office.shares.byMember then Some(d.office.shares.byMember[member]) else None
    else q.target
  }

  function SpendError(d: Desk, q: CreditRequest): Option<Error>
    requires q.credit < |d.office.credits|
  {
    if q.amount <= 0 then Some(InvalidArgument)
    else if q.action != RequestRefund && Target(d, q).None? then Some(InvalidArgument)
    else if q.action == ApplyLoan && (q.period.None? || q.period.value > q.now) then Some(InvalidArgument)
    else if q.consent == "" || q.reason == "" then Some(InvalidArgument)
    else None
  }

  function Period(q: CreditRequest): Option<nat> { if q.action == ApplyLoan then q.period else None }

  function Gateway(operation: Ref): Ref { "credit:" + operation }

  /** The posting that a spend makes in the owning ledger. */
  ghost function PostSpend(d: Desk, q: CreditRequest): Tx<Office, nat>
    requires q.credit < |d.office.credits| && !q.action.Reviewing() && SpendError(d, q).None?
  {
    var owner := Some(Owner(d.office.credits[q.credit].member, q.branch));
    match q.action
    case TransferShares =>
      var (s, id) :- Post(d.office.shares, Target(d, q).value, Purchase, Nanos(q.amount), q.operation, owner);
      Commit(d.office.(shares := s), id)
    case ApplyLoan =>
      RecordRepayment(d.office, Target(d, q).value, Nanos(q.amount), Gateway(q.operation), q.period.value, q.now, owner)
    case _ => Commit(d.office, 0)
  }

  ghost function Spend(d: Desk, q: CreditRequest): Tx<Desk, Operation>
    requires q.credit < |d.office.credits| && !q.action.Reviewing()
  {
    if SpendError(d, q).Some? then Abort(SpendError(d, q).value)
    else if q.operation in d.operations then
      var o := d.operations[q.operation];
      if o.action != q.action || o.amount != q.amount || o.target != Target(d, q) || o.period != Period(q) ||
        o.consent != q.consent
      then Abort(OperationDiffers)
      else Commit(d, o)
    else if d.office.credits[q.credit].status != CreditAvailable then Abort(CreditRestricted)
    else if Available(d, q.credit) < q.amount then Abort(AmountExceedsCredit)
    else
      var o := Operation(q.credit, q.amount, q.action, Target(d, q), Period(q), q.consent, q.actor, OperationPending,
                         None, None, None);
      if q.action == RequestRefund then Commit(d.(operations := d.operations[q.operation := o]), o)
      else
        var (office, _) :- PostSpend(d, q);
        var p := o.(status := OperationCompleted, completedBy := Some(q.actor));
        Commit(Desk(office, d.operations[q.operation := p]), p)
  }

  ghost function ManageCredit(d: Desk, q: CreditRequest): Tx<Desk, Operation> {
    if q.credit >= |d.office.credits| then Abort(CreditNotFound)
    else
      var member := d.office.credits[q.credit].member;
      if member !in d.office.members || d.office.members[member].branch != q.branch then Abort(CreditNotFound)
      else if q.operation in d.operations && d.operations[q.operation].credit != q.credit
      then Abort(OperationOfAnotherCredit)
      else if q.action.Reviewing() then Review(d, q)
      else Spend(d, q)
  }

  // ----- Reservation safety

  ghost predicate OperationSound(d: Desk, o: Operation) {
    && o.credit < |d.office.credits| && 0 < o.amount && !o.action.Reviewing()
    && (o.action != RequestRefund ==> o.status == OperationCompleted)
    && (o.action == RequestRefund && o.status in {OperationApproved, OperationCompleted} ==>
          o.reviewedBy.Some? && o.reviewedBy.value != o.requestedBy)
    && (o.action == RequestRefund && o.status == OperationCompleted ==>
          o.completedBy.Some? && o.completedBy.value != o.requestedBy && o.payout.Some?)
    && (o.payout.Some? ==> o.status == OperationCompleted)
  }

  /**
    What is reserved, approved and spent never exceeds a credit, every completed refund was approved and settled
    by somebody other than its requester, and no payout reference settles two refunds.
   */
  ghost predicate FundsSound(d: Desk) {
    && (forall k | k in d.operations :: OperationSound(d, d.operations[k]))
    && (forall c | 0 <= c < |d.office.credits| :: Sums.Over(d.operations, Held(c)) <= d.office.credits[c].amount)
    && (forall j, k | j in d.operations && k in d.operations && j != k && d.operations[j].payout.Some? ::
          d.operations[j].payout != d.operations[k].payout)
  }

  lemma HeldOfNew(d: Desk, c: nat)
    requires forall k | k in d.operations :: d.operations[k].credit < c
    ensures Sums.Over(d.operations, Held(c)) == 0
  {
    Sums.OverZero(d.operations, Held(c));
  }

  /** New credits start unspent. */
  lemma MoreCreditsKeepFunds(d: Desk, office: Office)
    requires FundsSound(d) && d.office.credits <= office.credits
    requires forall c | |d.office.credits| <= c < |office.credits| :: 0 <= office.credits[c].amount
    ensures FundsSound(d.(office := office))
  {
    forall c | |d.office.credits| <= c < |office.credits| ensures Sums.Over(d.operations, Held(c)) == 0 {
      HeldOfNew(d, c);
    }
  }

  lemma RepaymentGrowsCredits(o: Office, loan: nat, nanos: int, gateway: Ref, period: nat, now: nat,
                              owner: Option<Owner>)
    ensures var t := RecordRepayment(o, loan, nanos, gateway, period, now, owner).After(o);
            o.credits <= t.credits && forall c | |o.credits| <= c < |t.credits| :: 0 < t.credits[c].amount
  {
  }

  lemma SetOperation(d: Desk, k: Ref, p: Operation)
    requires FundsSound(d) && OperationSound(d, p)
    requires Sums.Over(d.operations, Held(p.credit)) + p.amount
             - (if k in d.operations && d.operations[k].status != OperationRejected then d.operations[k].amount else 0)
             <= d.office.credits[p.credit].amount || p.status == OperationRejected
    requires k in d.operations ==> d.operations[k].credit == p.credit && d.operations[k].amount == p.amount
    requires forall j | j in d.operations && j != k && p.payout.Some? :: d.operations[j].payout != p.payout
    ensures FundsSound(d.(operations := d.operations[k := p]))
  {
    forall c | 0 <= c < |d.office.credits|
      ensures Sums.Over(d.operations[k := p], Held(c)) <= d.office.credits[c].amount
    {
      Sums.OverUpdate(d.operations, Held(c), k, p);
    }
  }

  lemma ManageCreditKeepsFunds(d: Desk, q: CreditRequest)
    requires FundsSound(d)
    ensures FundsSound(ManageCredit(d, q).After(d))
  {
    var r := ManageCredit(d, q);
    if r.Commit? && r.state != d {
      if q.action.Reviewing() {
        SetOperation(d, q.operation, r.value);
      } else {
        AvailableIsUnheld(d, q.credit);
        SetOperation(d, q.operation, r.value);
        if q.action == ApplyLoan {
          RepaymentGrowsCredits(d.office, Target(d, q).value, Nanos(q.amount), Gateway(q.operation), q.period.value,
                                q.now,
                                Some(Owner(d.office.credits[q.credit].member, q.branch)));
        }
        MoreCreditsKeepFunds(d.(operations := r.state.operations), r.state.office);
      }
    }
  }

  /** The only ways an operation's status changes. */
  predicate StatusMoves(before: OperationStatus, after: OperationStatus) {
    || after == before
    || (before == OperationPending && (after == OperationApproved || after == OperationRejected))
    || (before == OperationApproved && after == OperationCompleted)
  }

  /** Operations are never lost or altered: only a refund's status moves, forward. */
  lemma OperationsMoveForward(d: Desk, q: CreditRequest, k: Ref)
    requires k in d.operations
    ensures var t := ManageCredit(d, q).After(d);
            k in t.operations &&
            (var o, p := d.operations[k], t.operations[k];
             StatusMoves(o.status, p.status) &&
             p == o.(status := p.status, reviewedBy := p.reviewedBy, completedBy := p.completedBy,
                     payout := p.payout) &&
             (p != o ==> k == q.operation && q.action.Reviewing() && q.actor != o.requestedBy))
  {
  }

  // ----- Retries

  /** Later states in which a spend's operation is still on file and the parties are who they were. */
  ghost predicate Later(d: Desk, t: Desk, k: Ref) {
    && |d.office.credits| <= |t.office.credits|
    && (forall c | 0 <= c < |d.office.credits| :: t.office.credits[c].member == d.office.credits[c].member)
    && (forall m | m in d.office.members ::
        m in t.office.members && t.office.members[m].branch == d.office.members[m].branch)
    && (forall m | m in d.office.shares.byMember ::
        m in t.office.shares.byMember && t.office.shares.byMember[m] == d.office.shares.byMember[m])
    && k in d.operations && k in t.operations
    && t.operations[k] == d.operations[k].(status := t.operations[k].status, reviewedBy := t.operations[k].reviewedBy,
                                           completedBy := t.operations[k].completedBy, payout := t.operations[k].payout)
  }

  /**
    Repeating an accepted transfer, loan payment or refund request in any later state changes nothing and
    returns the operation on file, even after the credit has been spent or frozen.
   */
  lemma RetrySpend(d: Desk, q: CreditRequest, t: Desk, now: nat)
    requires !q.action.Reviewing() && ManageCredit(d, q).Commit? && q.now <= now
    requires Later(ManageCredit(d, q).state, t, q.operation)
    ensures ManageCredit(t, q.(now := now)) == Commit(t, t.operations[q.operation])
  {
    var r := ManageCredit(d, q);
    if r.state != d && q.action == ApplyLoan {
      RepaymentGrowsCredits(d.office, Target(d, q).value, Nanos(q.amount), Gateway(q.operation), q.period.value, q.now,
                            Some(Owner(d.office.credits[q.credit].member, q.branch)));
    }
    assert t.office.credits[q.credit].member == d.office.credits[q.credit].member;
    assert Target(t, q.(now := now)) == Target(d, q);
  }

  /** Repeating an approval is accepted exactly as long as the refund has not been paid out. */
  lemma RetryApprovalIff(d: Desk, q: CreditRequest, t: Desk)
    requires q.action == ApproveRefund && ManageCredit(d, q).Commit?
    requires Later(ManageCredit(d, q).state, t, q.operation) && FundsSound(t)
    requires StatusMoves(OperationApproved, t.operations[q.operation].status)
    requires t.office.credits[q.credit].status == CreditAvailable
    ensures ManageCredit(t, q) == Commit(t, t.operations[q.operation]) <==>
            t.operations[q.operation].status != OperationCompleted
  {
  }

  // ----- What each action accepts, and what it does

  /** The credit is that of a member of the branch, and the operation, if it is on file, is one of this credit. */
  predicate Addressed(d: Desk, q: CreditRequest) {
    q.credit < |d.office.credits| &&
    var member := d.office.credits[q.credit].member;
    member in d.office.members && d.office.members[member].branch == q.branch &&
    (q.operation in d.operations ==> d.operations[q.operation].credit == q.credit)
  }

  /** A refund request of somebody else is on file, and a reason is given. */
  predicate Reviewable(d: Desk, q: CreditRequest) {
    Addressed(d, q) && q.operation in d.operations && q.reason != "" &&
    d.operations[q.operation].action == RequestRefund && d.operations[q.operation].requestedBy != q.actor
  }

  /** What the reviewed refund has become; the ledgers and all other operations are as before. */
  predicate Reviewed(d: Desk, t: Desk, k: Ref, status: OperationStatus) {
    k in d.operations && k in t.operations && t == d.(operations := d.operations[k := t.operations[k]]) &&
    t.operations[k].status == status && OnlyReviewed(d.operations[k], t.operations[k])
  }

  predicate OnlyReviewed(o: Operation, p: Operation) {
    p == o.(status := p.status, reviewedBy := p.reviewedBy, completedBy := p.completedBy, payout := p.payout)
  }

  /** Setting an operation changes what is available by what it held before and holds now. */
  lemma {:induction false} AvailableAfter(d: Desk, k: Ref, p: Operation, credit: nat)
    requires k in d.operations && credit < |d.office.credits|
    ensures Available(d.(operations := d.operations[k := p]), credit) ==
            Available(d, credit) + Held(credit)(k, d.operations[k]) - Held(credit)(k, p)
  {
    AvailableIsUnheld(d, credit);
    AvailableIsUnheld(d.(operations := d.operations[k := p]), credit);
    Sums.OverUpdate(d.operations, Held(credit), k, p);
  }

  /**
    A refund is rejected exactly when another officer does so with a reason while it is pending or rejected; it is
    rejected then, and its amount is available again.
   */
  lemma {:induction false} RejectRefundIff(d: Desk, q: CreditRequest)
    requires q.action == RejectRefund
    ensures var r := ManageCredit(d, q);
            (r.Commit? <==>
               Reviewable(d, q) && d.operations[q.operation].status in {OperationPending, OperationRejected}) &&
            (r.Commit? ==>
               Reviewed(d, r.state, q.operation, OperationRejected) && r.value == r.state.operations[q.operation] &&
               Available(r.state, q.credit) ==
               Available(d, q.credit) +
               (if d.operations[q.operation].status == OperationPending then d.operations[q.operation].amount else 0))
  {
    var r := ManageCredit(d, q);
    if r.Commit? {
      assert r.state.operations == d.operations[q.operation := r.value];
      AvailableAfter(d, q.operation, r.value, q.credit);
    }
  }

  /**
    A refund is approved exactly when another officer does so with a reason while it is pending or approved and the
    credit can be used; it is approved then, and still holds its amount.
   */
  lemma {:induction false} ApproveRefundIff(d: Desk, q: CreditRequest)
    requires q.action == ApproveRefund
    ensures var r := ManageCredit(d, q);
            (r.Commit? <==>
               Reviewable(d, q) && d.office.credits[q.credit].status == CreditAvailable &&
               d.operations[q.operation].status in {OperationPending, OperationApproved}) &&
            (r.Commit? ==>
               Reviewed(d, r.state, q.operation, OperationApproved) && r.value == r.state.operations[q.operation] &&
               (d.operations[q.operation].status == OperationPending ==> r.value.reviewedBy == Some(q.actor)) &&
               Available(r.state, q.credit) == Available(d, q.credit))
  {
    var r := ManageCredit(d, q);
    if r.Commit? {
      assert r.state.operations == d.operations[q.operation := r.value];
      AvailableAfter(d, q.operation, r.value, q.credit);
    }
  }

  /**
    A payout is recorded exactly when another officer does so with reason, reference and evidence, the credit can be
    used, and the refund is approved and the reference new, or it was completed with this reference; it is completed
    then, with the reference.
   */
  lemma {:induction false} RecordRefundIff(d: Desk, q: CreditRequest)
    requires q.action == RecordRefund
    ensures var r := ManageCredit(d, q);
            (r.Commit? <==>
               Reviewable(d, q) && d.office.credits[q.credit].status == CreditAvailable &&
               q.payout != "" && q.evidence != "" &&
               var o := d.operations[q.operation];
               (o.status == OperationCompleted && o.payout == Some(q.payout)) ||
               (o.status == OperationApproved &&
                forall k | k in d.operations :: d.operations[k].payout != Some(q.payout))) &&
            (r.Commit? ==>
               Reviewed(d, r.state, q.operation, OperationCompleted) && r.value == r.state.operations[q.operation] &&
               r.value.payout == Some(q.payout) && Available(r.state, q.credit) == Available(d, q.credit) &&
               (d.operations[q.operation].status == OperationApproved ==> r.value.completedBy == Some(q.actor)))
  {
    var r := ManageCredit(d, q);
    if r.Commit? {
      assert r.state.operations == d.operations[q.operation := r.value];
      AvailableAfter(d, q.operation, r.value, q.credit);
    }
  }

  /**
    A new refund request is accepted exactly when the credit can be used and has the amount available; it is pending,
    holds the amount, and posts nothing.
   */
  lemma {:induction false} RequestRefundIff(d: Desk, q: CreditRequest)
    requires q.action == RequestRefund && q.operation !in d.operations
    ensures var r := ManageCredit(d, q);
            (r.Commit? <==>
               Addressed(d, q) && 0 < q.amount <= Available(d, q.credit) && q.consent != "" && q.reason != "" &&
               d.office.credits[q.credit].status == CreditAvailable) &&
            (r.Commit? ==>
               r.state == d.(operations := d.operations[q.operation := r.value]) &&
               r.value == Operation(q.credit, q.amount, RequestRefund, None, None, q.consent, q.actor, OperationPending,
                                    None, None, None) &&
               Available(r.state, q.credit) == Available(d, q.credit) - q.amount)
  {
    var r := ManageCredit(d, q);
    if r.Commit? {
      AvailableIsUnheld(d, q.credit);
      AvailableIsUnheld(r.state, q.credit);
      Sums.OverUpdate(d.operations, Held(q.credit), q.operation, r.value);
    }
  }

  /** A refund is requested, rejected by another officer, and cannot be approved or paid out any more. */
  lemma {:induction false} RejectedRefund()
    ensures var rejected := ManageCredit(OneCredit([], map["op" := Refund]), ReviewOf(RejectRefund));
            rejected.Commit? && rejected.value.status == OperationRejected && Available(rejected.state, 0) == 10_000 &&
            ManageCredit(rejected.state, ReviewOf(ApproveRefund)) == Abort(NotPending) &&
            ManageCredit(rejected.state, ReviewOf(RecordRefund)) == Abort(NotApproved)
  {
    var d := OneCredit([], map["op" := Refund]);
    RejectRefundIff(d, ReviewOf(RejectRefund));
    AvailableIsUnheld(d, 0);
    assert Sums.Over(d.operations, Held(0)) == 10_000 by {
      Sums.OverUpdate(map[], Held(0), "op", Refund);
      assert map[]["op" := Refund] == d.operations;
    }
  }

  // ----- Conservation of credited money

  function Bought(e: Entry): int { if e.kind == Purchase then e.amount else 0 }

  function Settling(r: RepaymentRow): int { r.split.penalty + r.split.interest + r.split.principal }

  function SettledOn(l: Loan): int { Sums.Of(l.repayments, Settling) }

  function CreditAmount(c: Credit): int { c.amount }

  /** What completed transfers and loan payments have taken out of the credits. */
  function MovedOn(k: Ref, o: Operation): int {
    if o.status == OperationCompleted && o.action != RequestRefund then o.amount else 0
  }

  function PaidOut(k: Ref, o: Operation): int {
    if o.status == OperationCompleted && o.action == RequestRefund then o.amount else 0
  }

  function Spent(k: Ref, o: Operation): int { if o.status == OperationCompleted then o.amount else 0 }

  ghost function SharesBought(o: Office): int { Sums.Of(o.shares.entries, Bought) }
  ghost function LoansSettled(o: Office): int { Sums.Of(o.loans, SettledOn) }
  ghost function CreditLeft(d: Desk): int { Sums.Of(d.office.credits, CreditAmount) - Sums.Over(d.operations, Spent) }
  ghost function RefundsPaid(d: Desk): int { Sums.Over(d.operations, PaidOut) }

  /** Where members' money has ended up: shares, loans, unspent credit, refunds. */
  ghost function Placed(d: Desk): int {
    SharesBought(d.office) + LoansSettled(d.office) + CreditLeft(d) + RefundsPaid(d)
  }

  lemma PlacedWithoutRefunds(d: Desk)
    ensures Placed(d) ==
            SharesBought(d.office) + LoansSettled(d.office) +
              Sums.Of(d.office.credits, CreditAmount) - Sums.Over(d.operations, MovedOn)
  {
    Sums.OverAdd(d.operations, MovedOn, PaidOut, Spent);
  }

  predicate NewPosting(s: Shares, account: Id, kind: Kind, reference: Ref) {
    First(s.entries, SameReference(account, reference, kind)).None?
  }

  predicate NewRepayment(o: Office, loan: nat, gateway: Ref) {
    loan < |o.loans| && First(o.loans[loan].repayments, SameGateway(gateway)).None?
  }

  lemma PostPlaces(s: Shares, account: Id, kind: Kind, nanos: int, reference: Ref, owner: Option<Owner>)
    requires kind.Purchase? || kind.Withdrawal? || kind.Dividend?
    ensures var t := Post(s, account, kind, nanos, reference, owner);
            Sums.Of(t.After(s).entries, Bought) == Sums.Of(s.entries, Bought) +
              (if t.Commit? && kind == Purchase && NewPosting(s, account, kind, reference) then Column(nanos) else 0)
  {
    var t := Post(s, account, kind, nanos, reference, owner);
    if t.Commit? && t.state != s {
      Sums.OfAppend(s.entries, t.state.entries[|s.entries|], Bought);
    }
  }

  /** A repayment places the whole payment: on the loan, or as credit. */
  lemma RepaymentPlaces(o: Office, loan: nat, nanos: int, gateway: Ref, period: nat, now: nat, owner: Option<Owner>)
    ensures var t := RecordRepayment(o, loan, nanos, gateway, period, now, owner);
            LoansSettled(t.After(o)) + Sums.Of(t.After(o).credits, CreditAmount)
            == LoansSettled(o) + Sums.Of(o.credits, CreditAmount) +
              (if t.Commit? && NewRepayment(o, loan, gateway) then Ticks(nanos) else 0)
    ensures SharesBought(RecordRepayment(o, loan, nanos, gateway, period, now, owner).After(o)) == SharesBought(o)
  {
    var t := RecordRepayment(o, loan, nanos, gateway, period, now, owner);
    if t.Commit? && NewRepayment(o, loan, gateway) {
      var l, m := o.loans[loan], t.state.loans[loan];
      var r := m.repayments[|l.repayments|];
      assert m.repayments == l.repayments + [r];
      Sums.OfAppend(l.repayments, r, Settling);
      Sums.OfUpdate(o.loans, loan, m, SettledOn);
      RepaymentCredit(l, nanos, gateway, period);
      if r.split.credit > 0 {
        Sums.OfAppend(o.credits, Credit(l.member, loan, r.split.credit, CreditAvailable), CreditAmount);
      }
    }
  }

  lemma RepaymentCredit(l: Loan, nanos: int, gateway: Ref, period: nat)
    requires 0 < nanos && First(l.repayments, SameGateway(gateway)).None? && Repay(l, nanos, gateway, period).Commit?
    ensures var r := Repay(l, nanos, gateway, period).state.repayments[|l.repayments|];
            0 <= r.split.credit && r.split.Total() == Ticks(nanos)
  {
  }

  /** A transfer or loan payment makes a posting of its own: its reference was not used before. */
  ghost predicate FreshSpend(d: Desk, q: CreditRequest)
    requires q.credit < |d.office.credits|
  {
    match q.action
    case TransferShares => Target(d, q).Some? ==> NewPosting(d.office.shares, Target(d, q).value, Purchase, q.operation)
    case ApplyLoan => Target(d, q).Some? ==> NewRepayment(d.office, Target(d, q).value, Gateway(q.operation))
    case _ => true
  }

  /** The guards that a new credit operation passes before its posting. */
  ghost predicate AcceptsSpend(d: Desk, q: CreditRequest) {
    && q.credit < |d.office.credits| && !q.action.Reviewing() && q.operation !in d.operations
    && var member := d.office.credits[q.credit].member;
    && member in d.office.members && d.office.members[member].branch == q.branch
    && SpendError(d, q).None? && d.office.credits[q.credit].status == CreditAvailable &&
       q.amount <= Available(d, q.credit)
  }

  /** A purchase of the owner is already on file under the reference, for this amount. */
  predicate PurchaseOnFile(s: Shares, account: Id, reference: Ref, amount: int, owner: Option<Owner>) {
    && account in s.accounts && OwnedBy(s.accounts[account], owner)
    && var found := First(s.entries, SameReference(account, reference, Purchase));
    && found.Some? && s.entries[found.value].amount == amount
  }

  /** A repayment of the owner's loan is already on file under the gateway id, for this amount. */
  predicate RepaymentOnFile(o: Office, loan: nat, gateway: Ref, amount: int, owner: Owner) {
    && loan < |o.loans| && o.loans[loan].member == owner.member && o.loans[loan].branch == owner.branch
    && var found := First(o.loans[loan].repayments, SameGateway(gateway));
    && found.Some? && o.loans[loan].repayments[found.value].amount == amount
  }

  /** A new transfer or loan payment whose operation id is already the reference of such a posting. */
  ghost predicate ReusesPosting(d: Desk, q: CreditRequest) {
    AcceptsSpend(d, q) &&
    var owner := Owner(d.office.credits[q.credit].member, q.branch);
    match q.action
    case TransferShares => PurchaseOnFile(d.office.shares, Target(d, q).value, q.operation, q.amount, Some(owner))
    case ApplyLoan => RepaymentOnFile(d.office, Target(d, q).value, Gateway(q.operation), q.amount, owner)
    case _ => false
  }

  /** Money before and after an operation's row changes together with the ledgers. */
  lemma {:induction false} OperationPlaces(d: Desk, office: Office, k: Ref, p: Operation)
    ensures Placed(Desk(office, d.operations[k := p])) - Placed(d) ==
            (SharesBought(office) + LoansSettled(office) + Sums.Of(office.credits, CreditAmount))
            - (SharesBought(d.office) + LoansSettled(d.office) + Sums.Of(d.office.credits, CreditAmount))
            - MovedOn(k, p) + (if k in d.operations then MovedOn(k, d.operations[k]) else 0)
  {
    PlacedWithoutRefunds(d);
    PlacedWithoutRefunds(Desk(office, d.operations[k := p]));
    Sums.OverUpdate(d.operations, MovedOn, k, p);
  }

  lemma {:induction false} ReviewConserves(d: Desk, q: CreditRequest)
    requires q.credit < |d.office.credits| && q.action.Reviewing() && Review(d, q).Commit?
    ensures Placed(Review(d, q).state) == Placed(d) && q.operation in d.operations
  {
    var r := Review(d, q);
    if r.state != d { OperationPlaces(d, d.office, q.operation, r.value); }
  }

  /** A posting that is accepted is not a new one exactly when it is on file already. */
  lemma {:induction false} PostingReusedIff(d: Desk, q: CreditRequest)
    requires AcceptsSpend(d, q) && q.action != RequestRefund
    ensures PostSpend(d, q).Commit? && !FreshSpend(d, q) <==> ReusesPosting(d, q)
  {
    ColumnOfTicks(q.amount);
  }

  lemma {:induction false} AcceptedSpend(d: Desk, q: CreditRequest) returns (t: Desk)
    requires AcceptsSpend(d, q) && q.action != RequestRefund
    ensures t == ManageCredit(d, q).After(d)
    ensures if PostSpend(d, q).Commit? then
              q.operation in t.operations &&
              t == Desk(PostSpend(d, q).state, d.operations[q.operation := t.operations[q.operation]]) &&
              MovedOn(q.operation, t.operations[q.operation]) == q.amount
            else t == d
  {
    t := ManageCredit(d, q).After(d);
  }

  lemma {:induction false} SpendConservesIff(d: Desk, q: CreditRequest)
    requires AcceptsSpend(d, q) && q.action != RequestRefund
    ensures Placed(ManageCredit(d, q).After(d)) == Placed(d) <==> !ReusesPosting(d, q)
  {
    ghost var t := AcceptedSpend(d, q);
    PostingReusedIff(d, q);
    if PostSpend(d, q).Commit? {
      SpendPlaces(d, q);
      OperationPlaces(d, t.office, q.operation, t.operations[q.operation]);
    }
  }

  /** Refund requests, reviews, retries and refusals move nothing between the ledgers. */
  lemma {:induction false} OthersConserve(d: Desk, q: CreditRequest)
    requires !AcceptsSpend(d, q) || q.action == RequestRefund
    ensures Placed(ManageCredit(d, q).After(d)) == Placed(d)
  {
    var r := ManageCredit(d, q);
    if r.Commit? && r.state != d {
      if q.action.Reviewing() { ReviewConserves(d, q); } else { OperationPlaces(d, d.office, q.operation, r.value); }
    }
  }

  /**
    Managing a credit moves money and neither makes nor loses any, whatever the call comes to, except an accepted
    transfer or loan payment whose operation id already refers to such a posting: it spends the credit and buys nothing.
   */
  lemma {:induction false} ManageCreditConservesIff(d: Desk, q: CreditRequest)
    ensures Placed(ManageCredit(d, q).After(d)) == Placed(d) <==> !ReusesPosting(d, q)
  {
    if AcceptsSpend(d, q) && q.action != RequestRefund {
      SpendConservesIff(d, q);
    } else {
      OthersConserve(d, q);
    }
  }

  /** What the posting of a spend places, its own or one that was there already. */
  lemma {:induction false} SpendPlaces(d: Desk, q: CreditRequest)
    requires q.credit < |d.office.credits| && !q.action.Reviewing() && SpendError(d, q).None? && PostSpend(d, q).Commit?
    ensures var o := PostSpend(d, q).state;
            SharesBought(o) + LoansSettled(o) + Sums.Of(o.credits, CreditAmount)
            == SharesBought(d.office) + LoansSettled(d.office) + Sums.Of(d.office.credits, CreditAmount)
               + (if q.action != RequestRefund && FreshSpend(d, q) then q.amount else 0)
  {
    ColumnOfTicks(q.amount);
    var owner := Some(Owner(d.office.credits[q.credit].member, q.branch));
    if q.action == TransferShares {
      PostPlaces(d.office.shares, Target(d, q).value, Purchase, Nanos(q.amount), q.operation, owner);
    } else if q.action == ApplyLoan {
      RepaymentPlaces(d.office, Target(d, q).value, Nanos(q.amount), Gateway(q.operation), q.period.value, q.now,
                      owner);
    }
  }

  /** The owning ledger takes the spend: as a new posting, or because it is on file already. */
  ghost predicate LedgerTakes(d: Desk, q: CreditRequest)
    requires AcceptsSpend(d, q)
  {
    var owner := Owner(d.office.credits[q.credit].member, q.branch);
    match q.action
    case TransferShares =>
      Accepts(d.office.shares, Target(d, q).value, Purchase, Nanos(q.amount), q.operation, Some(owner)) ||
      PurchaseOnFile(d.office.shares, Target(d, q).value, q.operation, q.amount, Some(owner))
    case ApplyLoan =>
      AcceptsRepayment(d.office, Target(d, q).value, Nanos(q.amount), Gateway(q.operation), q.period.value, q.now,
                       Some(owner)) ||
      RepaymentOnFile(d.office, Target(d, q).value, Gateway(q.operation), q.amount, owner)
    case _ => true
  }

  lemma {:induction false} PostSpendIff(d: Desk, q: CreditRequest)
    requires AcceptsSpend(d, q)
    ensures PostSpend(d, q).Commit? <==> LedgerTakes(d, q)
  {
    ColumnOfTicks(q.amount);
    var owner := Some(Owner(d.office.credits[q.credit].member, q.branch));
    if q.action == TransferShares {
      AcceptsIff(d.office.shares, Target(d, q).value, Purchase, Nanos(q.amount), q.operation, owner);
    } else if q.action == ApplyLoan {
      AcceptsRepaymentIff(d.office, Target(d, q).value, Nanos(q.amount), Gateway(q.operation), q.period.value, q.now,
                          owner);
    }
  }

  /**
    A new transfer or loan payment is accepted exactly when it passes its guards and the ledger takes it; the amount is
    then spent, by an operation that is completed at once and records what was asked for.
   */
  lemma {:induction false} SpendIff(d: Desk, q: CreditRequest)
    requires (q.action == TransferShares || q.action == ApplyLoan) && q.operation !in d.operations
    ensures var r := ManageCredit(d, q);
            (r.Commit? <==> AcceptsSpend(d, q) && LedgerTakes(d, q)) &&
            (r.Commit? ==>
               r.value == Operation(q.credit, q.amount, q.action, Target(d, q), Period(q), q.consent, q.actor,
                                    OperationCompleted, None, Some(q.actor), None) &&
               r.state == Desk(PostSpend(d, q).state, d.operations[q.operation := r.value]))
  {
    if AcceptsSpend(d, q) { PostSpendIff(d, q); }
  }

  // ----- Where these properties fail

  /** Member 1 has a credit of one shilling, and account 7 with these entries. */
  function OneCredit(entries: seq<Entry>, operations: map<Ref, Operation>): Desk {
    Desk(Office(map[1 := Member(1, true)],
                Shares(map[7 := Account(1, 1, AccountActive)], map[1 := 7], entries, [], map[]), [],
                [Credit(1, 0, 10_000, CreditAvailable)]), operations)
  }

  /** A shilling of the credit is to be transferred to shares under the id "op". */
  const ToShares: CreditRequest :=
    CreditRequest(2, 1, 0, "op", TransferShares, 10_000, None, None, 0, "reason", "consent", "", "")

  /**
    A transfer under the reference of an earlier purchase of a shilling: the credit is spent and the ledgers stay as
    they are.
   */
  lemma {:induction false} CreditSpentForNothing()
    ensures var d := OneCredit([Entry(7, Purchase, 10_000, 10_000, "op", None)], map[]);
            var r := ManageCredit(d, ToShares);
            ReusesPosting(d, ToShares) && r.Commit? && r.value.status == OperationCompleted &&
            r.state.office == d.office &&
            Available(d, 0) == 10_000 && Available(r.state, 0) == 0
  {
    var entries := [Entry(7, Purchase, 10_000, 10_000, "op", None)];
    var d := OneCredit(entries, map[]);
    assert entries[..0] == [];
    assert First(entries, SameReference(7, "op", Purchase)) == Some(0);
    assert Available(d, 0) == 10_000;
    var r := ManageCredit(d, ToShares);
    AvailableIsUnheld(r.state, 0);
    Sums.OverUpdate(d.operations, Held(0), "op", r.value);
  }

  /** A refund of the shilling, requested by officer 2. */
  const Refund: Operation :=
    Operation(0, 10_000, RequestRefund, None, None, "consent", 2, OperationPending, None, None, None)

  function ReviewOf(action: Action): CreditRequest {
    CreditRequest(3, 1, 0, "op", action, 10_000, None, None, 0, "reason", "consent", "payout", "evidence")
  }

  /** A refund is approved and paid out; the approval, sent once more, is refused. */
  lemma {:induction false} ApprovalAfterPayout()
    ensures var approved := ManageCredit(OneCredit([], map["op" := Refund]), ReviewOf(ApproveRefund));
            approved.Commit? && approved.value.status == OperationApproved &&
            (var paid := ManageCredit(approved.state, ReviewOf(RecordRefund));
             paid.Commit? && paid.value.status == OperationCompleted &&
             ManageCredit(paid.state, ReviewOf(ApproveRefund)) == Abort(NotPending))
  {
  }

  // ----- The handler, over its tables

  class CreditDesk {
    const office: LoanOffice
    var operations: map<Ref, Operation>

    constructor (office: LoanOffice)
      ensures this.office == office && State() == Desk(office.State(), map[])
    {
      this.office := office;
      operations := map[];
    }

    ghost function State(): Desk
      reads this, office, office.book
    {
      Desk(office.State(), operations)
    }

    method ReviewRefund(q: CreditRequest) returns (r: Outcome<Operation>)
      requires q.credit < |office.credits| && q.action.Reviewing()
      modifies this`operations
      ensures State() == Review(old(State()), q).After(old(State()))
      ensures r == Review(old(State()), q).Result()
    {
      if q.action != RejectRefund && office.credits[q.credit].status != CreditAvailable {
        return Failed(CreditRestricted);
      }
      if q.operation !in operations || operations[q.operation].action != RequestRefund {
        return Failed(RefundNotFound);
      }
      var o := operations[q.operation];
      if o.requestedBy == q.actor { return Failed(SameOfficer); }
      if q.reason == "" { return Failed(InvalidArgument); }
      if q.action == RecordRefund {
        if q.payout == "" || q.evidence == "" { return Failed(InvalidArgument); }
        if o.status == OperationCompleted {
          if o.payout != Some(q.payout) { return Failed(SettledDifferently); }
          return Ok(o);
        }
        if o.status != OperationApproved { return Failed(NotApproved); }
        if PayoutUsed(operations, q.payout) { return Failed(PayoutReferenceUsed); }
        o := o.(status := OperationCompleted, completedBy := Some(q.actor), payout := Some(q.payout));
      } else {
        var next := if q.action == RejectRefund then OperationRejected else OperationApproved;
        if o.status == next { return Ok(o); }
        if o.status != OperationPending { return Failed(NotPending); }
        o := o.(status := next, reviewedBy := Some(q.actor));
      }
      operations := operations[q.operation := o];
      r := Ok(o);
    }

    /** The posting; on failure the caller's transaction rolls everything back. */
    method PostToLedger(q: CreditRequest, target: nat) returns (e: Option<Error>)
      requires q.credit < |office.credits| && (q.action == TransferShares || q.action == ApplyLoan)
      requires SpendError(State(), q).None? && Target(State(), q) == Some(target)
      modifies office`loans, office`credits, office.book`entries, office.book`pledges
      ensures var p := PostSpend(old(State()), q);
              office.State() == p.After(old(office.State())) && e == (if p.Abort? then Some(p.error) else None)
    {
      var owner := Some(Owner(office.credits[q.credit].member, q.branch));
      var posted;
      if q.action == TransferShares {
        posted := office.book.PostTransaction(target, Purchase, Nanos(q.amount), q.operation, owner);
      } else {
        posted := office.RecordLoanRepayment(target, Nanos(q.amount), Gateway(q.operation), q.period.value, q.now,
                                             owner);
      }
      e := if posted.Failed? then Some(posted.error) else None;
    }

    method SpendCredit(q: CreditRequest) returns (r: Outcome<Operation>)
      requires q.credit < |office.credits| && !q.action.Reviewing()
      modifies this`operations, office`loans, office`credits, office.book`entries, office.book`pledges
      ensures State() == Spend(old(State()), q).After(old(State()))
      ensures r == Spend(old(State()), q).Result()
    {
      var credit := office.credits[q.credit];
      if q.amount <= 0 { return Failed(InvalidArgument); }
      var target := None;
      if q.action == TransferShares && q.target.None? {
        if credit.member !in office.book.byMember { return Failed(InvalidArgument); }
        target := Some(office.book.byMember[credit.member]);
      } else if q.action != RequestRefund {
        if q.target.None? { return Failed(InvalidArgument); }
        target := q.target;
      }
      if q.action == ApplyLoan && (q.period.None? || q.period.value > q.now) { return Failed(InvalidArgument); }
      if q.consent == "" || q.reason == "" { return Failed(InvalidArgument); }
      assert target == Target(State(), q);
      if q.operation in operations {
        var o := operations[q.operation];
        if o.action != q.action || o.amount != q.amount || o.target != target || o.period != Period(q) ||
          o.consent != q.consent {
          return Failed(OperationDiffers);
        }
        return Ok(o);
      }
      if credit.status != CreditAvailable { return Failed(CreditRestricted); }
      var reserved := Sums.Query(operations, Reserved(q.credit));
      var used := Sums.Query(operations, Used(q.credit));
      var available := credit.amount;
      available := available - reserved;
      available := available - used;
      if available < q.amount { return Failed(AmountExceedsCredit); }
      var o := Operation(q.credit, q.amount, q.action, target, Period(q), q.consent, q.actor, OperationPending, None,
                         None, None);
      if q.action != RequestRefund {
        var e := PostToLedger(q, target.value);
        if e.Some? { return Failed(e.value); }
        o := o.(status := OperationCompleted, completedBy := Some(q.actor));
      }
      operations := operations[q.operation := o];
      r := Ok(o);
    }

    method Manage(q: CreditRequest) returns (r: Outcome<Operation>)
      modifies this`operations, office`loans, office`credits, office.book`entries, office.book`pledges
      ensures State() == ManageCredit(old(State()), q).After(old(State()))
      ensures r == ManageCredit(old(State()), q).Result()
    {
      if q.credit >= |office.credits| { return Failed(CreditNotFound); }
      var member := office.credits[q.credit].member;
      if member !in office.members || office.members[member].branch != q.branch { return Failed(CreditNotFound); }
      if q.operation in operations && operations[q.operation].credit != q.credit {
        return Failed(OperationOfAnotherCredit);
      }
      if q.action.Reviewing() {
        r := ReviewRefund(q);
      } else {
        r := SpendCredit(q);
      }
    }
  }
}
