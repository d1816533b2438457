/** The loan service over its tables; every method is proved against the transactions of Lending. */
module LoanService {
  import opened Common
  import opened Decimals
  import opened Repayment
  import opened ShareLedger
  import opened LoanAccount
  import opened LoanSecurity
  import opened Lending
  import Sums

  lemma {:induction false} ProposedErrorOfPrefix(applicant: Id, ps: seq<Proposal>, i: nat)
    requires i <= |ps| && ProposedError(applicant, ps[..i]).Some?
    ensures ProposedError(applicant, ps) == ProposedError(applicant, ps[..i])
  {
    if i == |ps| {
      assert ps[..i] == ps;
    } else {
      assert ps[..|ps| - 1][..i] == ps[..i];
      ProposedErrorOfPrefix(applicant, ps[..|ps| - 1], i);
    }
  }

  class LoanOffice {
    const book: ShareBook
    var members: map<Id, Member>
    var loans: seq<Loan>
    var credits: seq<Credit>

    constructor (book: ShareBook)
      ensures this.book == book && State() == Office(map[], book.State(), [], [])
    {
      this.book := book;
      members, loans, credits := map[], [], [];
    }

    ghost function State(): Office
      reads this, book
    {
      Office(members, book.State(), loans, credits)
    }

    predicate MemberActiveIn(member: Id, branch: nat)
      reads this
    {
      member in members && members[member].active && members[member].branch == branch
    }

    /** ApplyForLoan's own validation: a loop over the proposals with the map of those seen so far. */
    method ValidateApplication(a: Application) returns (e: Option<Error>)
      ensures e == ApplicationError(a)
    {
      if a.principal <= 0 { return Some(InvalidLoanAmount); }
      if a.rate < 0 { return Some(InvalidInterestRate); }
      if a.months < 1 || a.months > 36 { return Some(InvalidRepaymentPeriod); }
      if |a.proposals| > MAX_GUARANTORS { return Some(TooManyGuarantors); }
      var total, seen := 0, map[];
      for i := 0 to |a.proposals|
        invariant ProposedError(a.member, a.proposals[..i]).None?
        invariant forall m :: m in seen <==> HasMember(a.proposals[..i], m)
        invariant total == Sums.Of(a.proposals[..i], TicksOf)
      {
        var p := a.proposals[i];
        assert a.proposals[..i + 1][..i] == a.proposals[..i];
        if p.nanos <= 0 {
          ProposedErrorOfPrefix(a.member, a.proposals, i + 1);
          return Some(InvalidGuaranteedAmount);
        }
        if p.member == a.member {
          ProposedErrorOfPrefix(a.member, a.proposals, i + 1);
          return Some(SelfGuarantee);
        }
        if p.member in seen {
          ProposedErrorOfPrefix(a.member, a.proposals, i + 1);
          return Some(DuplicateGuarantor);
        }
        seen := seen[p.member := p.nanos];
        total := total + Ticks(p.nanos);
        assert a.proposals[..i + 1] == a.proposals[..i] + [p];
        assert forall m :: HasMember(a.proposals[..i + 1], m) <==> HasMember(a.proposals[..i], m) || m == p.member by {
          forall m | HasMember(a.proposals[..i], m) || m == p.member ensures HasMember(a.proposals[..i + 1], m) {
            if m == p.member {
              assert a.proposals[..i + 1][i].member == m;
            } else {
              var j :| 0 <= j < i && a.proposals[..i][j].member == m;
              assert a.proposals[..i + 1][j].member == m;
            }
          }
          forall m | HasMember(a.proposals[..i + 1], m) && m != p.member ensures HasMember(a.proposals[..i], m) {
            var j :| 0 <= j < i + 1 && a.proposals[..i + 1][j].member == m;
            assert a.proposals[..i][j].member == m;
          }
        }
      }
      assert a.proposals[..|a.proposals|] == a.proposals;
      if Ticks(a.pledge) < 0 { return Some(InsufficientCollateral); }
      if total + Ticks(a.pledge) < Ticks(a.principal) { return Some(InsufficientCollateral); }
      e := None;
    }

    method ApplyForLoan(a: Application) returns (r: Outcome<nat>)
      modifies this`loans, book`pledges
      ensures State() == Apply(old(State()), a).After(old(State()))
      ensures r == Apply(old(State()), a).Result()
    {
      var e := ValidateApplication(a);
      if e.Some? { return Failed(e.value); }
      if !MemberActiveIn(a.member, a.branch) { return Failed(MemberNotActive); }
      if exists i | 0 <= i < |a.proposals| :: !MemberActiveIn(a.proposals[i].member, a.branch) {
        return Failed(GuarantorNotActive);
      }
      if HasOpenLoan(loans, a.member) { return Failed(OpenApplicationExists); }
      if Column(a.principal) <= 0 || exists i | 0 <= i < |a.proposals| :: Column(a.proposals[i].nanos) <= 0 {
        return Failed(ConstraintViolation);
      }
      var id := |loans|;
      var proposed := ProposeApplicantSecurity(book, id, a.member, a.principal, a.pledge, a.proposals);
      if proposed.Failed? { return Failed(proposed.error); }
      loans := loans + [NewLoan(a)];
      r := Ok(id);
    }

    /** AddGuarantor: a proposal on a pending loan, or the one already made. */
    method AddLoanGuarantor(loan: nat, member: Id, nanos: int) returns (r: Outcome<nat>)
      modifies this`loans
      ensures State() == AddGuarantor(old(State()), loan, member, nanos).After(old(State()))
      ensures r == AddGuarantor(old(State()), loan, member, nanos).Result()
    {
      if nanos <= 0 { return Failed(InvalidGuaranteedAmount); }
      if member !in members || !members[member].active { return Failed(GuarantorNotActive); }
      if loan >= |loans| { return Failed(LoanNotFound); }
      var l := loans[loan];
      if l.status != LoanPending { return Failed(InvalidStatusTransition); }
      if l.member == member { return Failed(SelfGuarantee); }
      var existing := First(l.guarantors, OfMember(member));
      if existing.Some? {
        var g := l.guarantors[existing.value];
        if g.status == GuarantorRejected || g.amount != Ticks(nanos) { return Failed(DuplicateGuarantor); }
        return Ok(existing.value);
      }
      if |l.guarantors| >= MAX_GUARANTORS { return Failed(TooManyGuarantors); }
      if !MemberActiveIn(member, l.branch) { return Failed(GuarantorNotActive); }
      var e := CheckGuarantor(book, member, nanos);
      if e.Some? { return Failed(e.value); }
      if Column(nanos) <= 0 { return Failed(ConstraintViolation); }
      loans := loans[loan := l.(guarantors := l.guarantors + [Guarantor(member, Column(nanos), GuarantorPending)])];
      r := Ok(|l.guarantors|);
    }

    method ApproveLoanGuarantor(loan: nat, member: Id) returns (r: Outcome<nat>)
      modifies this`loans, book`pledges
      ensures State() == ApproveGuarantor(old(State()), loan, member).After(old(State()))
      ensures r == ApproveGuarantor(old(State()), loan, member).Result()
    {
      if loan >= |loans| { return Failed(LoanNotFound); }
      var l := loans[loan];
      var found := First(l.guarantors, OfMember(member));
      if found.None? { return Failed(GuarantorNotFound); }
      var g := l.guarantors[found.value];
      if g.status == GuarantorApproved { return Ok(found.value); }
      if l.status != LoanPending { return Failed(InvalidStatusTransition); }
      if g.status != GuarantorPending { return Failed(InvalidGuarantorStatus); }
      if !MemberActiveIn(member, l.branch) { return Failed(GuarantorNotActive); }
      var secured := ApproveGuarantorSecurity(book, loan, member, g.amount);
      if secured.Failed? { return Failed(secured.error); }
      loans := loans[loan := l.(guarantors := l.guarantors[found.value := g.(status := GuarantorApproved)])];
      r := Ok(found.value);
    }

    method RemoveLoanGuarantor(loan: nat, member: Id) returns (r: Outcome<()>)
      modifies this`loans, book`pledges
      ensures State() == RemoveGuarantor(old(State()), loan, member).After(old(State()))
      ensures r == RemoveGuarantor(old(State()), loan, member).Result()
    {
      if loan >= |loans| { return Failed(LoanNotFound); }
      var l := loans[loan];
      if l.status != LoanPending { return Failed(InvalidStatusTransition); }
      var found := First(l.guarantors, OfMember(member));
      if found.None? { return Failed(GuarantorNotFound); }
      ReleaseLoanSecurity(book, loan, Some(member));
      var g := l.guarantors[found.value];
      if g.status == GuarantorRejected { return Ok(()); }
      loans := loans[loan := l.(guarantors := l.guarantors[found.value := g.(status := GuarantorRejected)])];
      r := Ok(());
    }

    /** verifyCollateral's loop over the approved guarantors. */
    method AddUpApproved(l: Loan, own: int) returns (coverage: int, inactive: bool)
      ensures coverage == own + Sums.Of(l.guarantors, ApprovedAmount)
      ensures inactive <==> exists j | 0 <= j < |l.guarantors| ::
                              l.guarantors[j].status == GuarantorApproved &&
                              !ActiveIn(State(), l.guarantors[j].member, l.branch)
    {
      coverage, inactive := own, false;
      for i := 0 to |l.guarantors|
        invariant coverage == own + Sums.Of(l.guarantors[..i], ApprovedAmount)
        invariant inactive <==>
                  exists j | 0 <= j < i ::
                    l.guarantors[j].status == GuarantorApproved && !MemberActiveIn(l.guarantors[j].member, l.branch)
      {
        var g := l.guarantors[i];
        assert l.guarantors[..i + 1][..i] == l.guarantors[..i];
        if g.status == GuarantorApproved {
          coverage := coverage + g.amount;
          if !MemberActiveIn(g.member, l.branch) { inactive := true; }
        }
      }
      assert l.guarantors[..|l.guarantors|] == l.guarantors;
    }

    /** verifyCollateral: applicant, guarantor rows, guarantor pledges, coverage, in that order. */
    method CheckCollateral(loan: nat, approving: bool) returns (r: Outcome<int>)
      requires loan < |loans|
      modifies book`pledges
      ensures r == VerifyCollateral(old(State()), loan, approving).Result()
      ensures r.Ok? ==> book.State() == VerifyCollateral(old(State()), loan, approving).state
    {
      var l := loans[loan];
      if !MemberActiveIn(l.member, l.branch) { return Failed(MemberNotActive); }
      var own := VerifyApplicantSecurity(book, loan, l.member, approving, l.principal);
      if own.Failed? { return Failed(own.error); }
      var coverage, inactive := AddUpApproved(l, own.value);
      if inactive { return Failed(GuarantorNotActive); }
      var e := VerifyGuarantorSecurities(book, loan, l.guarantors);
      if e.Some? { return Failed(e.value); }
      if coverage < l.principal { return Failed(InsufficientCollateral); }
      r := Ok(coverage);
    }

    method ApproveLoanApplication(loan: nat) returns (r: Outcome<()>)
      modifies this`loans, book
      ensures State() == ApproveLoan(old(State()), loan).After(old(State()))
      ensures r == ApproveLoan(old(State()), loan).Result()
    {
      var saved := book.Save();
      if loan >= |loans| { return Failed(LoanNotFound); }
      if loans[loan].status != LoanPending { return Failed(InvalidStatusTransition); }
      var verified := CheckCollateral(loan, true);
      if verified.Failed? {
        book.Restore(saved);
        return Failed(verified.error);
      }
      loans := loans[loan := loans[loan].(status := LoanApproved)];
      r := Ok(());
    }

    method RejectLoanApplication(loan: nat) returns (r: Outcome<()>)
      modifies this`loans, book`pledges
      ensures State() == RejectLoan(old(State()), loan).After(old(State()))
      ensures r == RejectLoan(old(State()), loan).Result()
    {
      if loan >= |loans| { return Failed(LoanNotFound); }
      if loans[loan].status != LoanPending && loans[loan].status != LoanApproved {
        return Failed(InvalidStatusTransition);
      }
      loans := loans[loan := loans[loan].(status := LoanRejected)];
      ReleaseLoanSecurity(book, loan, None);
      r := Ok(());
    }

    method DisburseApprovedLoan(loan: nat, d: Disbursement) returns (r: Outcome<()>)
      requires 1 <= d.day
      modifies this`loans, book
      ensures State() == DisburseLoan(old(State()), loan, d).After(old(State()))
      ensures r == DisburseLoan(old(State()), loan, d).Result()
    {
      var saved := book.Save();
      if loan >= |loans| { return Failed(LoanNotFound); }
      var l := loans[loan];
      if l.disbursed.Some? { return Ok(()); }
      if l.status != LoanApproved { return Failed(InvalidStatusTransition); }
      var verified := CheckCollateral(loan, false);
      if verified.Failed? {
        book.Restore(saved);
        return Failed(verified.error);
      }
      if l.months == 0 {
        book.Restore(saved);
        return Failed(InvalidRepaymentPeriod);
      }
      if l.principal < 0 || l.principal / l.months <= 0 {
        book.Restore(saved);
        return Failed(InvalidLoanAmount);
      }
      var plan := BuildSchedule(l.principal, l.months, DueMonths(d));
      l := l.(status := LoanActive, disbursed := Some(d), schedule := plan);
      loans := loans[loan := Assess(l, d.month, d.month)];
      r := Ok(());
    }

    /** The repayment's effect on the locked loan row. */
    method RepayLockedLoan(before: Loan, nanos: int, gateway: Ref, period: nat) returns (l: Loan, r: Outcome<nat>)
      ensures l == Repay(before, nanos, gateway, period).After(before)
      ensures r == Repay(before, nanos, gateway, period).Result()
    {
      l := before;
      var existing := First(l.repayments, SameGateway(gateway));
      if existing.Some? {
        if Nanos(l.repayments[existing.value].amount) != nanos { return l, Failed(RepaymentAmountConflict); }
        return l, Ok(existing.value);
      }
      if !Payable(l.status) { return l, Failed(PaymentNotAllowed); }
      if l.schedule == [] { return l, Failed(RepaymentScheduleMissing); }
      if Backdated(l, period) { return l, Failed(InvalidRepaymentPeriod); }
      if Column(nanos) <= 0 { return l, Failed(ConstraintViolation); }
      var first := if LatestAssessed(l).Some? then LatestAssessed(l).value + 1 else period;
      l := Assess(l, first, period);
      var (split, closed) := Allocate(Ticks(nanos), PenaltyDue(l), InterestDue(l), Applied(l), l.principal);
      r := Ok(|l.repayments|);
      var plan := UpdateScheduleStatuses(l.schedule, Applied(l) + split.principal);
      l := l.(repayments := l.repayments + [RepaymentRow(Column(nanos), gateway, period, split)], schedule := plan);
      if closed { l := l.(status := LoanClosed); }
    }

    method RecordLoanRepayment(loan: nat, nanos: int, gateway: Ref, period: nat, now: nat, owner: Option<Owner>)
      returns (r: Outcome<nat>)
      modifies this`loans, this`credits, book`pledges
      ensures State() == RecordRepayment(old(State()), loan, nanos, gateway, period, now, owner).After(old(State()))
      ensures r == RecordRepayment(old(State()), loan, nanos, gateway, period, now, owner).Result()
    {
      if period > now { return Failed(InvalidRepaymentPeriod); }
      if nanos <= 0 { return Failed(InvalidLoanAmount); }
      if gateway == "" { return Failed(GatewayTransactionId); }
      if loan >= |loans| { return Failed(LoanNotFound); }
      var before := loans[loan];
      if owner.Some? && (before.member != owner.value.member || before.branch != owner.value.branch) {
        return Failed(LoanNotFound);
      }
      var l;
      l, r := RepayLockedLoan(before, nanos, gateway, period);
      if r.Failed? || l == before { return; }
      var credit := l.repayments[r.value].split.credit;
      if credit > 0 { credits := credits + [Credit(before.member, loan, credit, CreditAvailable)]; }
      loans := loans[loan := l];
      if l.status == LoanClosed { ReleaseLoanSecurity(book, loan, None); }
    }
  }
}
