/**
  Loans, guarantors and their collateral (internal/loan/service.go). One state holds the
  tables of the loans and shares packages, because their transactions span both.
 */
module Lending {
  import opened Common
  import opened Decimals
  import opened Repayment
  import opened ShareLedger
  import opened LoanAccount
  import opened LoanSecurity
  import Sums

  datatype Member = Member(branch: nat, active: bool)

  datatype CreditStatus = CreditAvailable | CreditFrozen | CreditWithdrawn

  /** An overpayment credit; it is created by the repayment `repayment` of loan `loan`. */
  datatype Credit = Credit(member: Id, loan: nat, amount: int, status: CreditStatus)

  datatype Office = Office(members: map<Id, Member>, shares: Shares, loans: seq<Loan>, credits: seq<Credit>)

  const MAX_GUARANTORS: nat := 20

  predicate ActiveIn(o: Office, member: Id, branch: nat) {
    member in o.members && o.members[member].active && o.members[member].branch == branch
  }

  // ----- Applying

  predicate HasMember(ps: seq<Proposal>, member: Id) { exists i | 0 <= i < |ps| :: ps[i].member == member }

  function TicksOf(p: Proposal): int { Ticks(p.nanos) }

  /** ApplyForLoan's checks of the proposed guarantors, in list order. */
  function ProposedError(applicant: Id, ps: seq<Proposal>): Option<Error> {
    if ps == [] then None
    else
      var init, p := ps[..|ps| - 1], ps[|ps| - 1];
      if ProposedError(applicant, init).Some? then ProposedError(applicant, init)
      else if p.nanos <= 0 then Some(InvalidGuaranteedAmount)
      else if p.member == applicant then Some(SelfGuarantee)
      else if HasMember(init, p.member) then Some(DuplicateGuarantor)
      else None
  }

  datatype Application = Application(member: Id, branch: nat, principal: int, rate: int, months: int, pledge: int,
                                     proposals: seq<Proposal>)

  function ApplicationError(a: Application): Option<Error> {
    if a.principal <= 0 then Some(InvalidLoanAmount)
    else if a.rate < 0 then Some(InvalidInterestRate)
    else if a.months < 1 || a.months > 36 then Some(InvalidRepaymentPeriod)
    else if |a.proposals| > MAX_GUARANTORS then Some(TooManyGuarantors)
    else if ProposedError(a.member, a.proposals).Some? then ProposedError(a.member, a.proposals)
    else if Ticks(a.pledge) < 0 then Some(InsufficientCollateral)
    else if Sums.Of(a.proposals, TicksOf) + Ticks(a.pledge) < Ticks(a.principal) then Some(InsufficientCollateral)
    else None
  }

  predicate Open(l: Loan) { l.status == LoanPending || l.status == LoanApproved }

  predicate HasOpenLoan(loans: seq<Loan>, member: Id) {
    exists i | 0 <= i < |loans| :: loans[i].member == member && Open(loans[i])
  }

  function Proposed(ps: seq<Proposal>): (gs: seq<Guarantor>)
    ensures |gs| == |ps|
    ensures forall i | 0 <= i < |ps| :: gs[i] == Guarantor(ps[i].member, Column(ps[i].nanos), GuarantorPending)
  {
    if ps == [] then []
    else Proposed(ps[..|ps| - 1]) + [Guarantor(ps[|ps| - 1].member, Column(ps[|ps| - 1].nanos), GuarantorPending)]
  }

  function NewLoan(a: Application): Loan {
    Loan(a.member, a.branch, Column(a.principal), a.rate, if a.months < 0 then 0 else a.months, LoanPending,
         Proposed(a.proposals), None, [], [], [], 0)
  }

  /** ApplyForLoan; the result is the loan's id. */
  ghost function Apply(o: Office, a: Application): Tx<Office, nat> {
    if ApplicationError(a).Some? then Abort(ApplicationError(a).value)
    else if !ActiveIn(o, a.member, a.branch) then Abort(MemberNotActive)
    else if exists i | 0 <= i < |a.proposals| :: !ActiveIn(o, a.proposals[i].member, a.branch)
    then Abort(GuarantorNotActive)
    else if HasOpenLoan(o.loans, a.member) then Abort(OpenApplicationExists)
    else if Column(a.principal) <= 0 ||
      exists i | 0 <= i < |a.proposals| :: Column(a.proposals[i].nanos) <= 0 then Abort(ConstraintViolation)
    else
      var (s, _) :- Propose(o.shares, |o.loans|, a.member, a.principal, a.pledge, a.proposals);
      Commit(o.(shares := s, loans := o.loans + [NewLoan(a)]), |o.loans|)
  }

  // ----- Guarantors

  function OfMember(member: Id): Guarantor -> bool { (g: Guarantor) => g.member == member }

  function SetGuarantor(o: Office, loan: nat, i: nat, status: GuarantorStatus): Office
    requires loan < |o.loans| && i < |o.loans[loan].guarantors|
  {
    var l := o.loans[loan];
    o.(loans := o.loans[loan := l.(guarantors := l.guarantors[i := l.guarantors[i].(status := status)])])
  }

  ghost function AddGuarantor(o: Office, loan: nat, member: Id, nanos: int): Tx<Office, nat> {
    if nanos <= 0 then Abort(InvalidGuaranteedAmount)
    else if member !in o.members || !o.members[member].active then Abort(GuarantorNotActive)
    else if loan >= |o.loans| then Abort(LoanNotFound)
    else
      var l := o.loans[loan];
      var existing := First(l.guarantors, OfMember(member));
      if l.status != LoanPending then Abort(InvalidStatusTransition)
      else if l.member == member then Abort(SelfGuarantee)
      else if existing.Some? then
        var g := l.guarantors[existing.value];
        if g.status == GuarantorRejected || g.amount != Ticks(nanos) then Abort(DuplicateGuarantor)
          else Commit(o, existing.value)
      else if |l.guarantors| >= MAX_GUARANTORS then Abort(TooManyGuarantors)
      else if !ActiveIn(o, member, l.branch) then Abort(GuarantorNotActive)
      else if GuarantorError(o.shares, member, nanos).Some? then Abort(GuarantorError(o.shares, member, nanos).value)
      else if Column(nanos) <= 0 then Abort(ConstraintViolation)
      else Commit(o.(loans :=
                     o.loans[loan := l.(guarantors :=
                                        l.guarantors + [Guarantor(member, Column(nanos), GuarantorPending)])]),
                                          |l.guarantors|)
  }

  ghost function ApproveGuarantor(o: Office, loan: nat, member: Id): Tx<Office, nat> {
    if loan >= |o.loans| then Abort(LoanNotFound)
    else
      var l := o.loans[loan];
      var found := First(l.guarantors, OfMember(member));
      if found.None? then Abort(GuarantorNotFound)
      else
        var g := l.guarantors[found.value];
        if g.status == GuarantorApproved then Commit(o, found.value)
        else if l.status != LoanPending then Abort(InvalidStatusTransition)
        else if g.status != GuarantorPending then Abort(InvalidGuarantorStatus)
        else if !ActiveIn(o, member, l.branch) then Abort(GuarantorNotActive)
        else
          var (s, _) :- ApproveGuarantee(o.shares, loan, member, g.amount);
          Commit(SetGuarantor(o.(shares := s), loan, found.value, GuarantorApproved), found.value)
  }

  function RemoveGuarantor(o: Office, loan: nat, member: Id): Tx<Office, ()> {
    if loan >= |o.loans| then Abort(LoanNotFound)
    else
      var l := o.loans[loan];
      var found := First(l.guarantors, OfMember(member));
      if l.status != LoanPending then Abort(InvalidStatusTransition)
      else if found.None? then Abort(GuarantorNotFound)
      else
        var released := o.(shares := Release(o.shares, loan, Some(member)));
        if l.guarantors[found.value].status == GuarantorRejected then Commit(released, ())
        else Commit(SetGuarantor(released, loan, found.value, GuarantorRejected), ())
  }

  // ----- Approval and disbursement

  /** verifyCollateral: the coverage that both gates insist on. */
  ghost function VerifyCollateral(o: Office, loan: nat, approving: bool): Tx<Shares, int>
    requires loan < |o.loans|
  {
    var l := o.loans[loan];
    if !ActiveIn(o, l.member, l.branch) then Abort(MemberNotActive)
    else
      var (s, own) :- VerifyApplicant(o.shares, loan, l.member, approving, l.principal);
      var coverage := own + Sums.Of(l.guarantors, ApprovedAmount);
      if exists i | 0 <= i < |l.guarantors| ::
        l.guarantors[i].status == GuarantorApproved && !ActiveIn(o, l.guarantors[i].member, l.branch)
      then Abort(GuarantorNotActive)
      else if GuaranteesError(s, loan, l.guarantors).Some? then Abort(GuaranteesError(s, loan, l.guarantors).value)
      else if coverage < l.principal then Abort(InsufficientCollateral)
      else Commit(s, coverage)
  }

  function SetStatus(o: Office, loan: nat, status: LoanStatus): Office
    requires loan < |o.loans|
  {
    o.(loans := o.loans[loan := o.loans[loan].(status := status)])
  }

  ghost function ApproveLoan(o: Office, loan: nat): Tx<Office, ()> {
    if loan >= |o.loans| then Abort(LoanNotFound)
    else if o.loans[loan].status != LoanPending then Abort(InvalidStatusTransition)
    else
      var (s, _) :- VerifyCollateral(o, loan, true);
      Commit(SetStatus(o.(shares := s), loan, LoanApproved), ())
  }

  function RejectLoan(o: Office, loan: nat): Tx<Office, ()> {
    if loan >= |o.loans| then Abort(LoanNotFound)
    else if !Open(o.loans[loan]) then Abort(InvalidStatusTransition)
    else Commit(SetStatus(o, loan, LoanRejected).(shares := Release(o.shares, loan, None)), ())
  }

  /** DisburseLoan; a loan that has been disbursed is returned as it is. */
  ghost function DisburseLoan(o: Office, loan: nat, d: Disbursement): Tx<Office, ()>
    requires 1 <= d.day
  {
    if loan >= |o.loans| then Abort(LoanNotFound)
    else if o.loans[loan].disbursed.Some? then Commit(o, ())
    else if o.loans[loan].status != LoanApproved then Abort(InvalidStatusTransition)
    else
      var (s, _) :- VerifyCollateral(o, loan, false);
      var (l, _) :- Disburse(o.loans[loan], d);
      Commit(o.(shares := s, loans := o.loans[loan := l]), ())
  }

  // ----- Repayment

  /** RecordRepaymentForPeriodInTx: a surplus becomes a credit, and closing the loan releases its security. */
  function RecordRepayment(o: Office, loan: nat, nanos: int, gateway: Ref, period: nat, now: nat,
                           owner: Option<Owner>): Tx<Office, nat> {
    if RepaymentArguments(nanos, gateway, period, now).Some?
      then Abort(RepaymentArguments(nanos, gateway, period, now).value)
    else if loan >= |o.loans| ||
      (owner.Some? && (o.loans[loan].member != owner.value.member || o.loans[loan].branch != owner.value.branch))
    then Abort(LoanNotFound)
    else
      var l := o.loans[loan];
      var (t, id) :- Repay(l, nanos, gateway, period);
      if t == l then Commit(o, id)
      else
        var credit := t.repayments[id].split.credit;
        Commit(o.(loans := o.loans[loan := t],
                  credits := if credit > 0 then o.credits + [Credit(l.member, loan, credit, CreditAvailable)]
                    else o.credits,
                  shares := if t.status == LoanClosed then Release(o.shares, loan, None) else o.shares), id)
  }

  /** The guards that a new repayment passes. */
  predicate AcceptsRepayment(o: Office, loan: nat, nanos: int, gateway: Ref, period: nat, now: nat,
                             owner: Option<Owner>) {
    && RepaymentArguments(nanos, gateway, period, now).None?
    && loan < |o.loans| &&
       (owner.Some? ==> o.loans[loan].member == owner.value.member && o.loans[loan].branch == owner.value.branch)
    && First(o.loans[loan].repayments, SameGateway(gateway)).None?
    && Payable(o.loans[loan].status) && o.loans[loan].schedule != [] && !Backdated(o.loans[loan], period) &&
       0 < Column(nanos)
  }

  /** Under a fresh gateway id a repayment succeeds exactly when it passes the guards, and then is appended. */
  lemma {:induction false} AcceptsRepaymentIff(o: Office, loan: nat, nanos: int, gateway: Ref, period: nat, now: nat,
                                               owner: Option<Owner>)
    ensures var p := RecordRepayment(o, loan, nanos, gateway, period, now, owner);
            (AcceptsRepayment(o, loan, nanos, gateway, period, now, owner) <==>
               p.Commit? && First(o.loans[loan].repayments, SameGateway(gateway)).None?) &&
            (AcceptsRepayment(o, loan, nanos, gateway, period, now, owner) ==>
               |p.state.loans| == |o.loans| && |p.state.loans[loan].repayments| == |o.loans[loan].repayments| + 1 &&
               o.loans[loan].repayments <= p.state.loans[loan].repayments &&
               p.state.loans[loan].repayments[|o.loans[loan].repayments|].gateway == gateway) &&
            (!AcceptsRepayment(o, loan, nanos, gateway, period, now, owner) ==> p.After(o) == o)
  {
  }

  // ----- What the decisions accept, and what they do

  predicate GuarantorsActive(o: Office, l: Loan) {
    forall i | 0 <= i < |l.guarantors| && l.guarantors[i].status == GuarantorApproved ::
      ActiveIn(o, l.guarantors[i].member, l.branch)
  }

  /** The applicant and the approved guarantors are active in the branch, their shares secure the loan, and fully. */
  ghost predicate Collateralised(o: Office, loan: nat, approving: bool)
    requires loan < |o.loans|
  {
    var l := o.loans[loan];
    ActiveIn(o, l.member, l.branch) && GuarantorsActive(o, l) &&
    ApplicantSecures(o.shares, loan, l.member, approving, l.principal) && AllSecure(o.shares, loan, l.guarantors) &&
    l.principal <= OwnAmount(o.shares, loan, l.member) + Sums.Of(l.guarantors, ApprovedAmount)
  }

  lemma {:induction false} VerifyCollateralIff(o: Office, loan: nat, approving: bool)
    requires loan < |o.loans| && Indexed(o.shares) && GuarantorsSound(o.loans[loan])
    ensures var l, r := o.loans[loan], VerifyCollateral(o, loan, approving);
            (r.Commit? <==> Collateralised(o, loan, approving)) &&
            (r.Commit? ==> r.state == OwnPledgeActive(o.shares, loan, l.member))
  {
    var l := o.loans[loan];
    VerifyApplicantIff(o.shares, loan, l.member, approving, l.principal);
    if VerifyApplicant(o.shares, loan, l.member, approving, l.principal).Commit? {
      var s := OwnPledgeActive(o.shares, loan, l.member);
      GuaranteesErrorIff(s, loan, l.guarantors);
      GuarantorsUnaffected(o.shares, loan, l.member, l.guarantors);
    }
  }

  /**
    A loan is approved exactly when it is pending and collateralised, the applicant's own pledge being active or
    ready to be; then the pledge is active and the loan approved, and nothing else has changed.
   */
  lemma {:induction false} ApproveLoanIff(o: Office, loan: nat)
    requires loan < |o.loans| ==> Indexed(o.shares) && GuarantorsSound(o.loans[loan])
    ensures var r := ApproveLoan(o, loan);
            (r.Commit? <==> loan < |o.loans| && o.loans[loan].status == LoanPending && Collateralised(o, loan, true)) &&
            (r.Commit? ==>
               r.state == o.(shares := OwnPledgeActive(o.shares, loan, o.loans[loan].member),
                             loans := o.loans[loan := o.loans[loan].(status := LoanApproved)]))
  {
    if loan < |o.loans| { VerifyCollateralIff(o, loan, true); }
  }

  /** A new account: instalments of equal parts with the rest on the last, and the first month's interest on it all. */
  predicate PaidOut(l: Loan, t: Loan, d: Disbursement)
    requires 1 <= d.day
  {
    && t == l.(status := LoanActive, disbursed := Some(d), schedule := t.schedule, interest := t.interest)
    && |t.schedule| == l.months
    && (forall k | 0 <= k < l.months ::
          t.schedule[k].status == Upcoming && t.schedule[k].dueMonth == DueMonth(d.dueFrom, d.day, k + 1) &&
          t.schedule[k].amount ==
          l.principal / l.months + (if k == l.months - 1 then l.principal % l.months else 0))
    && t.interest == l.interest + [InterestRow(d.month, l.principal, MonthlyInterest(l.principal, l.rate))]
  }

  lemma {:induction false} DisburseIff(l: Loan, d: Disbursement)
    requires 1 <= d.day && Terms(l) && l.repayments == []
    ensures (Disburse(l, d).Commit? <==> l.months <= l.principal) &&
            (Disburse(l, d).Commit? ==> PaidOut(l, Disburse(l, d).state, d))
  {
    OneEach(l.principal, l.months);
    if Disburse(l, d).Commit? {
      var s := l.(status := LoanActive, disbursed := Some(d),
                  schedule := Schedule(l.principal, l.months, DueMonths(d)));
      assert Opening(l.principal, [], d.month) == l.principal;
      assert Assess(s, d.month, d.month).interest == s.interest + [RowFor(s, d.month)];
    }
  }

  /**
    An approved loan is paid out exactly when it is collateralised as it stands, a pending own pledge being refused,
    and has a tick for every month; the pledges stay as they are.
   */
  lemma {:induction false} DisburseLoanIff(o: Office, loan: nat, d: Disbursement)
    requires 1 <= d.day && loan < |o.loans| && o.loans[loan].disbursed.None?
    requires Indexed(o.shares) && GuarantorsSound(o.loans[loan]) && Sound(o.loans[loan])
    ensures var l, r := o.loans[loan], DisburseLoan(o, loan, d);
            (r.Commit? <==> l.status == LoanApproved && Collateralised(o, loan, false) && l.months <= l.principal) &&
            (r.Commit? ==>
               r.state == o.(loans := o.loans[loan := r.state.loans[loan]]) && PaidOut(l, r.state.loans[loan], d))
  {
    var l := o.loans[loan];
    VerifyCollateralIff(o, loan, false);
    DisburseIff(l, d);
    if VerifyCollateral(o, loan, false).Commit? { OwnPledgeWasActive(o.shares, loan, l.member, l.principal); }
  }

  lemma {:induction false} OwnPledgeWasActive(s: Shares, loan: nat, member: Id, principal: int)
    requires ApplicantSecures(s, loan, member, false, principal)
    ensures OwnPledgeActive(s, loan, member) == s
  {
    var key := PledgeKey(s.byMember[member], loan);
    if OwnPledge(s, key) { assert s.pledges[key := s.pledges[key].(status := PledgeActive)] == s.pledges; }
  }

  /** Paying out once more finds the loan as it is by then. */
  lemma {:induction false} DisbursedOnce(o: Office, loan: nat, d: Disbursement)
    requires 1 <= d.day && loan < |o.loans| && o.loans[loan].disbursed.Some?
    ensures DisburseLoan(o, loan, d) == Commit(o, ())
  {
  }

  /** A loan is rejected exactly until it is paid out, and then none of its pledges is active or pending. */
  lemma {:induction false} RejectLoanIff(o: Office, loan: nat)
    ensures var r := RejectLoan(o, loan);
            (r.Commit? <==>
               loan < |o.loans| && (o.loans[loan].status == LoanPending || o.loans[loan].status == LoanApproved)) &&
            (r.Commit? ==>
               r.state == o.(shares := r.state.shares,
                             loans := o.loans[loan := o.loans[loan].(status := LoanRejected)]) &&
               OnlyReleases(o.shares, r.state.shares, loan, None))
  {
    ReleasePledges(o.shares, loan, None);
  }

  // ----- What guarantors and applicants are accepted for

  /** Proposals that can stand: positive, by others than the applicant, each member once. */
  predicate Proposable(applicant: Id, ps: seq<Proposal>) {
    && (forall i | 0 <= i < |ps| :: 0 < ps[i].nanos && ps[i].member != applicant)
    && forall i, j | 0 <= i < j < |ps| :: ps[i].member != ps[j].member
  }

  lemma {:induction false} ProposedErrorIff(applicant: Id, ps: seq<Proposal>)
    ensures ProposedError(applicant, ps).None? <==> Proposable(applicant, ps)
  {
    if ps != [] {
      var init, p := ps[..|ps| - 1], ps[|ps| - 1];
      ProposedErrorIff(applicant, init);
      assert forall i | 0 <= i < |init| :: ps[i] == init[i];
      if Proposable(applicant, ps) {
        assert Proposable(applicant, init);
        assert !HasMember(init, p.member);
      }
    }
  }

  /**
    An application is accepted exactly when its terms are in range, the proposals can stand and with the pledge reach
    the principal, everybody is active in the branch, the applicant has no other application open, and the security
    can be proposed; then a pending loan on these terms is on file.
   */
  lemma {:induction false} ApplyIff(o: Office, a: Application)
    ensures var r := Apply(o, a);
            (r.Commit? <==>
               0 < Column(a.principal) && 0 < a.principal && 0 <= a.rate && 1 <= a.months <= 36 &&
               |a.proposals| <= MAX_GUARANTORS && Proposable(a.member, a.proposals) && 0 <= Ticks(a.pledge) &&
               Ticks(a.principal) <= Sums.Of(a.proposals, TicksOf) + Ticks(a.pledge) &&
               ActiveIn(o, a.member, a.branch) &&
               (forall i | 0 <= i < |a.proposals| ::
                  ActiveIn(o, a.proposals[i].member, a.branch) && 0 < Column(a.proposals[i].nanos)) &&
               (forall i | 0 <= i < |o.loans| && o.loans[i].member == a.member ::
                  o.loans[i].status != LoanPending && o.loans[i].status != LoanApproved) &&
               Propose(o.shares, |o.loans|, a.member, a.principal, a.pledge, a.proposals).Commit?) &&
            (r.Commit? ==> r.value == |o.loans| && AppliedFor(o, r.state, a))
  {
    ProposedErrorIff(a.member, a.proposals);
    ProposeIff(o.shares, |o.loans|, a.member, a.principal, a.pledge, a.proposals);
  }

  /** The pending loan that an application leaves, with its guarantors pending. */
  predicate AppliedFor(o: Office, p: Office, a: Application) {
    p == o.(shares := p.shares, loans := p.loans) && |p.loans| == |o.loans| + 1 && o.loans <= p.loans &&
    p.shares == o.shares.(pledges := p.shares.pledges) &&
    var l := p.loans[|o.loans|];
    l.member == a.member && l.branch == a.branch && l.principal == Column(a.principal) && l.rate == a.rate &&
    l.months == a.months && l.status == LoanPending && Undisbursed(l) && |l.guarantors| == |a.proposals| &&
    forall i | 0 <= i < |a.proposals| ::
      l.guarantors[i] == Guarantor(a.proposals[i].member, Column(a.proposals[i].nanos), GuarantorPending)
  }

  /**
    A member becomes a guarantor of a pending loan exactly when it is another's, has room, the member is active in its
    branch, and the amount fits; the guarantee is pending and pledges nothing yet.
   */
  lemma {:induction false} AddGuarantorIff(o: Office, loan: nat, member: Id, nanos: int)
    requires loan < |o.loans| && First(o.loans[loan].guarantors, OfMember(member)).None?
    ensures var l, r := o.loans[loan], AddGuarantor(o, loan, member, nanos);
            (r.Commit? <==>
               l.status == LoanPending && l.member != member && |l.guarantors| < MAX_GUARANTORS &&
               ActiveIn(o, member, l.branch) && Fits(o.shares, member, nanos) && 0 < Column(nanos)) &&
            (r.Commit? ==>
               r.state == o.(loans := o.loans[loan := l.(guarantors :=
                               l.guarantors + [Guarantor(member, Column(nanos), GuarantorPending)])]))
  {
    GuarantorErrorIff(o.shares, member, nanos);
  }

  /**
    A pending guarantee of a pending loan is approved exactly when its member is active in the branch and the amount
    still fits; then it is pledged, and approved.
   */
  lemma {:induction false} ApproveGuarantorIff(o: Office, loan: nat, member: Id, i: nat)
    requires loan < |o.loans| && First(o.loans[loan].guarantors, OfMember(member)) == Some(i)
    requires o.loans[loan].guarantors[i].status != GuarantorApproved
    ensures var l, r := o.loans[loan], ApproveGuarantor(o, loan, member);
            var g := l.guarantors[i];
            (r.Commit? <==>
               l.status == LoanPending && g.status == GuarantorPending && ActiveIn(o, member, l.branch) &&
               Fits(o.shares, member, Nanos(g.amount)) &&
               PledgeKey(o.shares.byMember[member], loan) !in o.shares.pledges) &&
            (r.Commit? ==>
               r.state == o.(loans :=
                             o.loans[loan := l.(guarantors := l.guarantors[i := g.(status := GuarantorApproved)])],
                             shares := o.shares.(pledges := o.shares.pledges[
                               PledgeKey(o.shares.byMember[member], loan) :=
                               Pledge(g.amount, GuarantorSecurity, PledgeActive)])))
  {
    ApproveGuaranteeIff(o.shares, loan, member, o.loans[loan].guarantors[i].amount);
  }

  /** A guarantor can be removed from a pending loan, whatever its status: rejected, and its pledge released. */
  lemma {:induction false} RemoveGuarantorIff(o: Office, loan: nat, member: Id)
    requires loan < |o.loans|
    ensures var l, r := o.loans[loan], RemoveGuarantor(o, loan, member);
            var found := First(l.guarantors, OfMember(member));
            (r.Commit? <==> l.status == LoanPending && found.Some?) &&
            (r.Commit? ==>
               r.state.loans == o.loans[loan := l.(guarantors :=
                                  l.guarantors[found.value :=
                                               l.guarantors[found.value].(status := GuarantorRejected)])] &&
               r.state == o.(shares := r.state.shares, loans := r.state.loans) &&
               OnlyReleases(o.shares, r.state.shares, loan, Some(member)))
  {
    ReleasePledges(o.shares, loan, Some(member));
    var l, found := o.loans[loan], First(o.loans[loan].guarantors, OfMember(member));
    if found.Some? && l.guarantors[found.value].status == GuarantorRejected {
      assert l.guarantors[found.value := l.guarantors[found.value].(status := GuarantorRejected)] == l.guarantors;
      assert l.(guarantors := l.guarantors) == l && o.loans[loan := l] == o.loans;
    }
  }

  // ----- Overpayments

  /** The credits once the excess, if there is any, belongs to the loan that was paid and to the loan's member. */
  function CreditedTo(o: Office, loan: nat, excess: int): seq<Credit>
    requires loan < |o.loans|
  {
    if 0 < excess then o.credits + [Credit(o.loans[loan].member, loan, excess, CreditAvailable)] else o.credits
  }

  lemma {:induction false} CreditedBy(o: Office, loan: nat, nanos: int, gateway: Ref, period: nat, now: nat,
                                      owner: Option<Owner>, t: Loan, id: nat)
    requires RepaymentArguments(nanos, gateway, period, now).None? && loan < |o.loans|
    requires owner.Some? ==> o.loans[loan].member == owner.value.member && o.loans[loan].branch == owner.value.branch
    requires Repay(o.loans[loan], nanos, gateway, period) == Commit(t, id) && t != o.loans[loan]
    ensures RecordRepayment(o, loan, nanos, gateway, period, now, owner).After(o).credits ==
            CreditedTo(o, loan, t.repayments[id].split.credit)
  {
  }

  lemma {:induction false} NewRepaymentCredit(o: Office, loan: nat, nanos: int, gateway: Ref, period: nat, now: nat,
                                              owner: Option<Owner>) returns (credit: int)
    requires AcceptsRepayment(o, loan, nanos, gateway, period, now, owner)
    ensures CreditIs(o.loans[loan], nanos, gateway, period, credit)
    ensures RecordRepayment(o, loan, nanos, gateway, period, now, owner).After(o).credits == CreditedTo(o, loan, credit)
  {
    var l := o.loans[loan];
    NewRepaymentAppends(l, nanos, gateway, period);
    var t := Repay(l, nanos, gateway, period).state;
    credit := t.repayments[|l.repayments|].split.credit;
    CreditedBy(o, loan, nanos, gateway, period, now, owner, t, |l.repayments|);
  }

  /**
    A repayment leaves a credit exactly when it exceeds everything that is due; the credit is the excess, and it
    belongs to the loan that was paid and to the loan's member.
   */
  lemma {:induction false} OverpaymentIff(o: Office, loan: nat, nanos: int, gateway: Ref, period: nat, now: nat,
                                          owner: Option<Owner>)
    requires AcceptsRepayment(o, loan, nanos, gateway, period, now, owner)
    ensures RecordRepayment(o, loan, nanos, gateway, period, now, owner).After(o).credits ==
            CreditedTo(o, loan, Ticks(nanos) - StillOwed(o.loans[loan], period))
  {
    ghost var credit := NewRepaymentCredit(o, loan, nanos, gateway, period, now, owner);
    RepaymentExcess(o.loans[loan], nanos, gateway, period, credit);
  }

  // ----- Safety

  /** The statuses in which a loan must be secured: approved, or paid out and not yet closed. */
  predicate NeedsSecurity(status: LoanStatus) { status == LoanApproved || Payable(status) }

  predicate GuarantorsSound(l: Loan) {
    && |l.guarantors| <= MAX_GUARANTORS && Distinct(l.guarantors)
    && forall i | 0 <= i < |l.guarantors| :: l.guarantors[i].member != l.member
  }

  /** Every loan that has been approved, and not rejected or closed since, is fully secured by active pledges. */
  ghost predicate Covered(o: Office) {
    forall i | 0 <= i < |o.loans| && NeedsSecurity(o.loans[i].status) :: o.loans[i].principal <= Security(o.shares, i)
  }

  /** A rejected or closed loan holds nobody's shares any more. */
  ghost predicate Freed(o: Office) {
    forall i | 0 <= i < |o.loans| && (o.loans[i].status == LoanRejected || o.loans[i].status == LoanClosed) ::
      Security(o.shares, i) == 0
  }

  /** The foreign keys of share_pledges. */
  ghost predicate PledgesRefer(o: Office) {
    && Indexed(o.shares)
    && forall k | k in o.shares.pledges :: k.account in o.shares.accounts && k.loan < |o.loans|
  }

  ghost predicate LoansSound(o: Office) {
    forall i | 0 <= i < |o.loans| :: Sound(o.loans[i]) && GuarantorsSound(o.loans[i])
  }

  /**
    Collateral safety: approved and running loans are covered by active share pledges, rejected and closed
    ones hold none, and no share account has more pledged over all loans than its ledger balance.
   */
  ghost predicate Safe(o: Office) {
    Stored(o.shares) && Backed(o.shares) && PledgesRefer(o) && LoansSound(o) && Covered(o) && Freed(o)
  }

  /** A transaction of the shares package that leaves the pledges alone. */
  lemma SamePledges(o: Office, t: Shares)
    requires Safe(o) && t.pledges == o.shares.pledges && Stored(t) && Backed(t)
    requires Indexed(t) && o.shares.accounts.Keys <= t.accounts.Keys
    ensures Safe(o.(shares := t))
  {
    assert forall l: nat :: Security(t, l) == Security(o.shares, l);
  }

  /** A loan no member has pledged for yet. */
  lemma NoSecurityYet(o: Office)
    requires PledgesRefer(o)
    ensures Security(o.shares, |o.loans|) == 0
  {
    Sums.OverZero(o.shares.pledges, ActiveFor(|o.loans|));
  }

  lemma PostKeepsSafe(o: Office, account: Id, kind: Kind, nanos: int, reference: Ref, owner: Option<Owner>)
    requires kind.Purchase? || kind.Withdrawal? || kind.Dividend?
    requires Safe(o)
    ensures Safe(o.(shares := Post(o.shares, account, kind, nanos, reference, owner).After(o.shares)))
  {
    PostKeepsBacked(o.shares, account, kind, nanos, reference, owner);
    SamePledges(o, Post(o.shares, account, kind, nanos, reference, owner).After(o.shares));
  }

  lemma ApproveAdjustmentKeepsSafe(o: Office, id: nat)
    requires Safe(o)
    ensures Safe(o.(shares := ApproveAdjustment(o.shares, id).After(o.shares)))
  {
    ApproveAdjustmentKeepsBacked(o.shares, id);
    SamePledges(o, ApproveAdjustment(o.shares, id).After(o.shares));
  }

  lemma ReverseKeepsSafe(o: Office, id: nat, reference: Ref)
    requires Safe(o)
    ensures Safe(o.(shares := Reverse(o.shares, id, reference).After(o.shares)))
  {
    ReverseKeepsBacked(o.shares, id, reference);
    SamePledges(o, Reverse(o.shares, id, reference).After(o.shares));
  }

  lemma {:induction false} ProposedSound(applicant: Id, ps: seq<Proposal>)
    requires ProposedError(applicant, ps).None?
    ensures Distinct(Proposed(ps)) && forall i | 0 <= i < |ps| :: ps[i].member != applicant && 0 < ps[i].nanos
  {
    if ps != [] {
      ProposedSound(applicant, ps[..|ps| - 1]);
    }
  }

  lemma ApplyKeepsSafe(o: Office, a: Application)
    requires Safe(o)
    ensures Safe(Apply(o, a).After(o))
  {
    var r := Apply(o, a);
    if r.Commit? {
      ProposeKeepsBacked(o.shares, |o.loans|, a.member, a.principal, a.pledge, a.proposals);
      ProposedSound(a.member, a.proposals);
      NewLoanKeepsSafe(o, r.state.shares, NewLoan(a));
    }
  }

  lemma NewLoanKeepsSafe(o: Office, s: Shares, l: Loan)
    requires Safe(o) && StillBacked(o.shares, s, |o.loans|) && Security(s, |o.loans|) == Security(o.shares, |o.loans|)
    requires Sound(l) && GuarantorsSound(l) && l.status == LoanPending
    requires Indexed(s) && forall k | k in s.pledges :: k.account in s.accounts && k.loan <= |o.loans|
    ensures Safe(o.(shares := s, loans := o.loans + [l]))
  {
    NoSecurityYet(o);
  }

  lemma AddGuarantorKeepsSafe(o: Office, loan: nat, member: Id, nanos: int)
    requires Safe(o)
    ensures Safe(AddGuarantor(o, loan, member, nanos).After(o))
  {
    var r := AddGuarantor(o, loan, member, nanos);
    if r.Commit? && r.state != o {
      var l, t := o.loans[loan], r.state.loans[loan];
      FirstNone(l.guarantors, OfMember(member));
      SoundWithGuarantors(l, t.guarantors);
    }
  }

  /** The account of a loan does not depend on who guarantees it. */
  lemma SoundWithGuarantors(l: Loan, gs: seq<Guarantor>)
    requires Sound(l)
    ensures Sound(l.(guarantors := gs))
  {
    var t := l.(guarantors := gs);
    assert forall m: nat :: RowFor(t, m) == RowFor(l, m);
  }

  lemma SetGuarantorKeepsLoans(o: Office, loan: nat, i: nat, status: GuarantorStatus)
    requires LoansSound(o) && loan < |o.loans| && i < |o.loans[loan].guarantors|
    ensures LoansSound(SetGuarantor(o, loan, i, status))
  {
    SoundWithGuarantors(o.loans[loan], SetGuarantor(o, loan, i, status).loans[loan].guarantors);
  }

  lemma ApproveGuarantorKeepsSafe(o: Office, loan: nat, member: Id)
    requires Safe(o)
    ensures Safe(ApproveGuarantor(o, loan, member).After(o))
  {
    var r := ApproveGuarantor(o, loan, member);
    if r.Commit? && r.state != o {
      ApproveGuaranteeKeepsBacked(o.shares, loan, member, o.loans[loan].guarantors[r.value].amount);
      SetGuarantorKeepsLoans(o, loan, r.value, GuarantorApproved);
    }
  }

  /** Releasing a loan's pledges is safe once the loan no longer needs them. */
  lemma ReleaseKeepsSafe(o: Office, loan: nat, member: Option<Id>, l: Loan)
    requires Safe(o) && loan < |o.loans| && Sound(l) && GuarantorsSound(l)
    requires l.status == LoanPending || ((l.status == LoanRejected || l.status == LoanClosed) && member.None?)
    ensures Safe(o.(loans := o.loans[loan := l], shares := Release(o.shares, loan, member)))
  {
    ReleaseFrees(o.shares, loan, member);
    if member.None? {
      ReleaseAll(o.shares, loan);
    }
  }

  lemma RemoveGuarantorKeepsSafe(o: Office, loan: nat, member: Id)
    requires Safe(o)
    ensures Safe(RemoveGuarantor(o, loan, member).After(o))
  {
    var r := RemoveGuarantor(o, loan, member);
    if r.Commit? {
      SoundWithGuarantors(o.loans[loan], r.state.loans[loan].guarantors);
      ReleaseKeepsSafe(o, loan, Some(member), r.state.loans[loan]);
      assert o.loans[loan := o.loans[loan]] == o.loans;
    }
  }

  lemma SoundWithStatus(l: Loan, status: LoanStatus)
    requires Sound(l) && Undisbursed(l) && (Open(l.(status := status)) || status == LoanRejected)
    ensures Sound(l.(status := status))
  {
  }

  /** What verifyCollateral lets through is covered by active pledges. */
  lemma VerifiedIsCovered(o: Office, loan: nat, approving: bool)
    requires Safe(o) && loan < |o.loans| && VerifyCollateral(o, loan, approving).Commit?
    ensures var s := VerifyCollateral(o, loan, approving).state;
            StillBacked(o.shares, s, loan) && o.loans[loan].principal <= Security(s, loan)
  {
    var l := o.loans[loan];
    VerifyApplicantKeepsBacked(o.shares, loan, l.member, approving, l.principal);
    VerifiedIsPledged(o.shares, loan, l.member, approving, l.principal, l.guarantors);
  }

  lemma ApproveLoanKeepsSafe(o: Office, loan: nat)
    requires Safe(o)
    ensures Safe(ApproveLoan(o, loan).After(o))
  {
    var r := ApproveLoan(o, loan);
    if r.Commit? {
      VerifiedIsCovered(o, loan, true);
      SoundWithStatus(o.loans[loan], LoanApproved);
    }
  }

  lemma RejectLoanKeepsSafe(o: Office, loan: nat)
    requires Safe(o)
    ensures Safe(RejectLoan(o, loan).After(o))
  {
    var r := RejectLoan(o, loan);
    if r.Commit? {
      SoundWithStatus(o.loans[loan], LoanRejected);
      ReleaseKeepsSafe(o, loan, None, r.state.loans[loan]);
    }
  }

  lemma DisburseLoanKeepsSafe(o: Office, loan: nat, d: Disbursement)
    requires Safe(o) && 1 <= d.day
    ensures Safe(DisburseLoan(o, loan, d).After(o))
  {
    var r := DisburseLoan(o, loan, d);
    if r.Commit? && r.state != o {
      VerifiedIsCovered(o, loan, false);
      DisburseKeepsSound(o.loans[loan], d);
      CoveredLoanKeepsSafe(o, r.state.shares, loan, r.state.loans[loan]);
    }
  }

  lemma CoveredLoanKeepsSafe(o: Office, s: Shares, loan: nat, t: Loan)
    requires Safe(o) && loan < |o.loans| && StillBacked(o.shares, s, loan) && t.principal <= Security(s, loan)
    requires Indexed(s) && forall k | k in s.pledges :: k.account in s.accounts && k.loan < |o.loans|
    requires Sound(t) && GuarantorsSound(t) && NeedsSecurity(t.status) && Open(o.loans[loan])
    ensures Safe(o.(shares := s, loans := o.loans[loan := t]))
  {
  }

  lemma RecordRepaymentKeepsSafe(o: Office, loan: nat, nanos: int, gateway: Ref, period: nat, now: nat,
                                 owner: Option<Owner>)
    requires Safe(o)
    ensures Safe(RecordRepayment(o, loan, nanos, gateway, period, now, owner).After(o))
  {
    var r := RecordRepayment(o, loan, nanos, gateway, period, now, owner);
    if r.Commit? && r.state != o {
      var l, t := o.loans[loan], Repay(o.loans[loan], nanos, gateway, period).state;
      RepayKeepsSound(l, nanos, gateway, period);
      RepayAppends(l, nanos, gateway, period);
      assert GuarantorsSound(t);
      if t.status == LoanClosed {
        ReleaseKeepsSafe(o, loan, None, t);
      } else {
        RunningLoanKeepsSafe(o, loan, t);
      }
      SafeWithCredits(o.(loans := r.state.loans, shares := r.state.shares), r.state.credits);
    }
  }

  lemma {:induction false} LoanReplaced(o: Office, loan: nat, t: Loan)
    requires LoansSound(o) && PledgesRefer(o) && loan < |o.loans| && Sound(t) && GuarantorsSound(t)
    ensures var p := o.(loans := o.loans[loan := t]); LoansSound(p) && PledgesRefer(p)
  {
  }

  lemma {:induction false} RunningLoanCovered(o: Office, loan: nat, t: Loan)
    requires Covered(o) && Freed(o) && loan < |o.loans|
    requires Payable(o.loans[loan].status) && Payable(t.status) && t.principal == o.loans[loan].principal
    ensures var p := o.(loans := o.loans[loan := t]); Covered(p) && Freed(p)
  {
  }

  lemma {:induction false} RunningLoanKeepsSafe(o: Office, loan: nat, t: Loan)
    requires Safe(o) && loan < |o.loans| && Sound(t) && GuarantorsSound(t)
    requires Payable(o.loans[loan].status) && Payable(t.status) && t.principal == o.loans[loan].principal
    ensures Safe(o.(loans := o.loans[loan := t]))
  {
    LoanReplaced(o, loan, t);
    RunningLoanCovered(o, loan, t);
  }

  lemma SafeWithCredits(o: Office, credits: seq<Credit>)
    requires Safe(o)
    ensures Safe(o.(credits := credits))
  {
  }

  lemma PenaliseKeepsSafe(o: Office, loan: nat, amount: nat)
    requires Safe(o) && loan < |o.loans|
    ensures Safe(o.(loans := o.loans[loan := Penalise(o.loans[loan], amount)]))
  {
    PenaliseKeepsSound(o.loans[loan], amount);
  }

  lemma OpenAccountKeepsSafe(o: Office, account: Id, owner: Owner)
    requires Safe(o)
    ensures Safe(o.(shares := OpenAccount(o.shares, account, owner).After(o.shares)))
  {
    var t := OpenAccount(o.shares, account, owner).After(o.shares);
    assert forall a: Id :: Pledged(t, a) == Pledged(o.shares, a);
    SamePledges(o, t);
  }

  /** Accounts may be frozen, closed or reactivated at any time. */
  lemma AccountStatusKeepsSafe(o: Office, account: Id, status: AccountStatus)
    requires Safe(o) && account in o.shares.accounts
    ensures Safe(o.(shares :=
                    o.shares.(accounts := o.shares.accounts[account := o.shares.accounts[account].(status := status)])))
  {
    var t := o.shares.(accounts := o.shares.accounts[account := o.shares.accounts[account].(status := status)]);
    assert forall a: Id :: Pledged(t, a) == Pledged(o.shares, a);
    SamePledges(o, t);
  }

  /** A new adjustment request does not touch the ledger. */
  lemma CreateAdjustmentKeepsSafe(o: Office, account: Id, nanos: int, reference: Ref)
    requires Safe(o)
    ensures Safe(o.(shares := CreateAdjustment(o.shares, account, nanos, reference).After(o.shares)))
  {
    var t := CreateAdjustment(o.shares, account, nanos, reference).After(o.shares);
    assert forall a: Id :: Pledged(t, a) == Pledged(o.shares, a);
    SamePledges(o, t);
  }
}
