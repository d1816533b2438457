/**
  Pledging shares as loan security (internal/share/loan_security.go, internal/share/pledges.sql).
 */
module LoanSecurity {
  import opened Common
  import opened Decimals
  import opened ShareLedger
  import opened LoanAccount
  import Sums

  datatype Proposal = Proposal(member: Id, nanos: int)

  function ActiveFor(loan: nat): (PledgeKey, Pledge) -> int {
    (k: PledgeKey, p: Pledge) => if k.loan == loan && p.status == PledgeActive then p.amount else 0
  }

  /** What secures a loan: its active pledges, over all accounts. */
  ghost function Security(s: Shares, loan: nat): int { Sums.Over(s.pledges, ActiveFor(loan)) }

  /** guaranteeAvailable, in nanos. */
  function GuaranteeAvailable(balance: int, pledged: int): int {
    var available := if balance - pledged < 0 then 0 else balance - pledged;
    Quo(available, TICK) * TICK
  }

  /** It is the largest amount the pledge column can hold that the unpledged shares cover. */
  lemma GuaranteeAvailableIsLargest(balance: int, pledged: int, ticks: nat)
    ensures Nanos(ticks) <= GuaranteeAvailable(balance, pledged) <==> ticks == 0 || Nanos(ticks) <= balance - pledged
    ensures GuaranteeAvailable(balance, pledged) % TICK == 0
  {
    var available := if balance - pledged < 0 then 0 else balance - pledged;
    assert Nanos(ticks) <= available <==> ticks <= available / TICK;
  }

  /** loanSecurityBalances fails unless the member has an active account. */
  function AccountError(s: Shares, member: Id): Option<Error> {
    if member !in s.byMember || s.byMember[member] !in s.accounts then Some(AccountNotFound)
    else if s.accounts[s.byMember[member]].status != AccountActive then Some(AccountNotActive)
    else None
  }

  ghost predicate WithinCapacity(s: Shares, account: Id, nanos: int) {
    0 < nanos <= GuaranteeAvailable(Nanos(Balance(s.entries, account)), Nanos(Pledged(s, account)))
  }

  /** CheckGuarantorSecurity. */
  ghost function GuarantorError(s: Shares, member: Id, nanos: int): Option<Error> {
    if AccountError(s, member).Some? then AccountError(s, member)
    else if !WithinCapacity(s, s.byMember[member], nanos) then Some(GuaranteeCapacity)
    else None
  }

  ghost function ProposalsError(s: Shares, proposals: seq<Proposal>): Option<Error> {
    if proposals == [] then None
    else if GuarantorError(s, proposals[0].member, proposals[0].nanos).Some?
    then GuarantorError(s, proposals[0].member, proposals[0].nanos)
    else ProposalsError(s, proposals[1..])
  }

  /** CreateSharePledge: one pledge per account and loan, of a positive amount. */
  function CreatePledge(s: Shares, key: PledgeKey, p: Pledge): Tx<Shares, ()> {
    if key in s.pledges || p.amount <= 0 then Abort(ConstraintViolation)
    else Commit(s.(pledges := s.pledges[key := p]), ())
  }

  /** ProposeApplicantSecurity: checks every proposed security and records the applicant's, pending. */
  ghost function Propose(s: Shares, loan: nat, member: Id, principal: int, nanos: int,
                         proposals: seq<Proposal>): Tx<Shares, ()> {
    if AccountError(s, member).Some? then Abort(AccountError(s, member).value)
    else if ProposalsError(s, proposals).Some? then Abort(ProposalsError(s, proposals).value)
    else
      var account := s.byMember[member];
      var balance, pledged := Nanos(Balance(s.entries, account)), Nanos(Pledged(s, account));
      if balance * 3 < principal || balance - pledged < nanos then Abort(LoanSecurityShort)
      else if nanos == 0 then Commit(s, ())
      else CreatePledge(s, PledgeKey(account, loan), Pledge(Column(nanos), ApplicantSecurity, PledgePending))
  }

  /** ApproveGuarantorSecurity: the capacity check again, then an active pledge. */
  ghost function ApproveGuarantee(s: Shares, loan: nat, member: Id, amount: int): Tx<Shares, ()> {
    if GuarantorError(s, member, Nanos(amount)).Some? then Abort(GuarantorError(s, member, Nanos(amount)).value)
    else CreatePledge(s, PledgeKey(s.byMember[member], loan), Pledge(amount, GuarantorSecurity, PledgeActive))
  }

  /** VerifyApplicantSecurity: the applicant's active pledge amount; a pending pledge is activated only at approval. */
  ghost function VerifyApplicant(s: Shares, loan: nat, member: Id, approving: bool, principal: int): Tx<Shares, int> {
    if AccountError(s, member).Some? then Abort(AccountError(s, member).value)
    else
      var account := s.byMember[member];
      var balance, pledged, key := Balance(s.entries, account), Pledged(s, account), PledgeKey(account, loan);
      if balance * 3 < principal || balance < pledged then Abort(LoanSecurityShort)
      else if key !in s.pledges || s.pledges[key].role != ApplicantSecurity then Commit(s, 0)
      else
        var p := s.pledges[key];
        if p.status == PledgePending && approving then
          if balance - pledged < p.amount then Abort(LoanSecurityShort)
          else Commit(s.(pledges := s.pledges[key := p.(status := PledgeActive)]), p.amount)
        else if p.status != PledgeActive then Abort(LoanSecurityShort)
        else Commit(s, p.amount)
  }

  /** One guarantor in VerifyGuarantorSecurities. */
  ghost function GuaranteeError(s: Shares, loan: nat, g: Guarantor): Option<Error> {
    if AccountError(s, g.member).Some? then AccountError(s, g.member)
    else
      var account := s.byMember[g.member];
      var key := PledgeKey(account, loan);
      if key !in s.pledges || s.pledges[key].role != GuarantorSecurity || s.pledges[key].status != PledgeActive
         || s.pledges[key].amount < g.amount then Some(LoanSecurityShort)
      else if Balance(s.entries, account) < Pledged(s, account) then Some(GuaranteeCapacity)
      else None
  }

  ghost function GuaranteesError(s: Shares, loan: nat, gs: seq<Guarantor>): Option<Error> {
    if gs == [] then None
    else if gs[0].status == GuarantorApproved && GuaranteeError(s, loan, gs[0]).Some?
    then GuaranteeError(s, loan, gs[0])
    else GuaranteesError(s, loan, gs[1..])
  }

  predicate Releasable(s: Shares, loan: nat, member: Option<Id>, key: PledgeKey)
    requires key in s.pledges
  {
    key.loan == loan && (s.pledges[key].status == PledgePending || s.pledges[key].status == PledgeActive) &&
    key.account in s.accounts && (member.None? || s.accounts[key.account].member == member.value)
  }

  /** ReleaseLoanSharePledges: one member's pledge for the loan, or all of them. */
  function Release(s: Shares, loan: nat, member: Option<Id>): Shares {
    s.(pledges := map key | key in s.pledges ::
         if Releasable(s, loan, member, key) then
           s.pledges[key].(status := if s.pledges[key].status == PledgePending then PledgeCancelled else PledgeReleased)
         else s.pledges[key])
  }

  // ----- What these do to the accounts' and the loans' security

  lemma PledgeChange(s: Shares, key: PledgeKey, p: Pledge, a: Id, loan: nat)
    ensures var t := s.(pledges := s.pledges[key := p]);
            Pledged(t, a) == Pledged(s, a) - (if key in s.pledges then ActiveOn(a)(key, s.pledges[key]) else 0) +
              ActiveOn(a)(key, p) &&
            Security(t, loan) ==
              Security(s, loan) - (if key in s.pledges then ActiveFor(loan)(key, s.pledges[key]) else 0) +
                ActiveFor(loan)(key, p)
  {
    Sums.OverUpdate(s.pledges, ActiveOn(a), key, p);
    Sums.OverUpdate(s.pledges, ActiveFor(loan), key, p);
  }

  /** After a change to one loan's pledges every account is still backed, and no other loan's security has moved. */
  ghost predicate StillBacked(s: Shares, t: Shares, loan: nat) {
    && Stored(t) && Backed(t) && t.accounts == s.accounts && t.byMember == s.byMember
    && (forall k | k in t.pledges :: k in s.pledges || (k.loan == loan && k.account in s.accounts))
    && Security(s, loan) <= Security(t, loan)
    && (forall l: nat | l != loan :: Security(t, l) == Security(s, l))
  }

  lemma ProposeKeepsBacked(s: Shares, loan: nat, member: Id, principal: int, nanos: int, proposals: seq<Proposal>)
    requires Stored(s) && Backed(s)
    ensures StillBacked(s, Propose(s, loan, member, principal, nanos, proposals).After(s), loan)
    ensures Security(Propose(s, loan, member, principal, nanos, proposals).After(s), loan) == Security(s, loan)
  {
    var t := Propose(s, loan, member, principal, nanos, proposals).After(s);
    if t != s {
      var key := PledgeKey(s.byMember[member], loan);
      forall a: Id ensures Pledged(t, a) == Pledged(s, a) { PledgeChange(s, key, t.pledges[key], a, loan); }
      forall l: nat ensures Security(t, l) == Security(s, l) { PledgeChange(s, key, t.pledges[key], 0, l); }
    }
  }

  lemma ApproveGuaranteeKeepsBacked(s: Shares, loan: nat, member: Id, amount: int)
    requires Stored(s) && Backed(s)
    ensures StillBacked(s, ApproveGuarantee(s, loan, member, amount).After(s), loan)
  {
    var t := ApproveGuarantee(s, loan, member, amount).After(s);
    if t != s {
      var account := s.byMember[member];
      var key := PledgeKey(account, loan);
      GuaranteeAvailableIsLargest(Nanos(Balance(s.entries, account)), Nanos(Pledged(s, account)), amount);
      forall a: Id ensures Pledged(t, a) <= Balance(t.entries, a) { PledgeChange(s, key, t.pledges[key], a, loan); }
      forall l: nat ensures Security(t, l) == Security(s, l) || (l == loan && Security(s, l) <= Security(t, l)) {
        PledgeChange(s, key, t.pledges[key], 0, l);
      }
    }
  }

  lemma VerifyApplicantKeepsBacked(s: Shares, loan: nat, member: Id, approving: bool, principal: int)
    requires Stored(s) && Backed(s)
    ensures StillBacked(s, VerifyApplicant(s, loan, member, approving, principal).After(s), loan)
  {
    var t := VerifyApplicant(s, loan, member, approving, principal).After(s);
    if t != s {
      var key := PledgeKey(s.byMember[member], loan);
      forall a: Id ensures Pledged(t, a) <= Balance(t.entries, a) { PledgeChange(s, key, t.pledges[key], a, loan); }
      forall l: nat ensures Security(t, l) == Security(s, l) || (l == loan && Security(s, l) <= Security(t, l)) {
        PledgeChange(s, key, t.pledges[key], 0, l);
      }
    }
  }

  /** Releasing frees accounts, and touches the security of no other loan. */
  lemma ReleaseFrees(s: Shares, loan: nat, member: Option<Id>)
    requires Stored(s) && Backed(s)
    ensures Stored(Release(s, loan, member)) && Backed(Release(s, loan, member))
    ensures forall l: nat | l != loan :: Security(Release(s, loan, member), l) == Security(s, l)
  {
    var t := Release(s, loan, member);
    forall a: Id ensures Pledged(t, a) <= Balance(t.entries, a) {
      Sums.OverMonotone(t.pledges, s.pledges, ActiveOn(a), ActiveOn(a));
    }
    forall l: nat | l != loan ensures Security(t, l) == Security(s, l) {
      Sums.OverCongruent(t.pledges, s.pledges, ActiveFor(l), ActiveFor(l));
    }
  }

  /** Releasing all of a loan's security leaves it with none, when every pledge is on an existing account. */
  lemma ReleaseAll(s: Shares, loan: nat)
    requires forall k | k in s.pledges :: k.account in s.accounts
    ensures Security(Release(s, loan, None), loan) == 0
  {
    Sums.OverZero(Release(s, loan, None).pledges, ActiveFor(loan));
  }

  // ----- Verified security covers the loan

  /** Each member has at most the one account that byMember records. */
  ghost predicate Indexed(s: Shares) {
    && (forall m | m in s.byMember :: s.byMember[m] in s.accounts && s.accounts[s.byMember[m]].member == m)
    && (forall a | a in s.accounts :: s.accounts[a].member in s.byMember && s.byMember[s.accounts[a].member] == a)
  }

  function ApprovedAmount(g: Guarantor): int { if g.status == GuarantorApproved then g.amount else 0 }

  predicate Distinct(gs: seq<Guarantor>) { forall i, j | 0 <= i < j < |gs| :: gs[i].member != gs[j].member }

  ghost predicate Guarantees(pledges: map<PledgeKey, Pledge>, byMember: map<Id, Id>, loan: nat, g: Guarantor) {
    g.status == GuarantorApproved ==>
      g.member in byMember &&
      var key := PledgeKey(byMember[g.member], loan);
      key in pledges && pledges[key].status == PledgeActive && g.amount <= pledges[key].amount
  }

  lemma {:induction false} NoGuaranteesError(s: Shares, loan: nat, gs: seq<Guarantor>)
    requires GuaranteesError(s, loan, gs).None?
    ensures forall i | 0 <= i < |gs| :: Guarantees(s.pledges, s.byMember, loan, gs[i])
  {
    if gs != [] {
      NoGuaranteesError(s, loan, gs[1..]);
      assert forall i | 1 <= i < |gs| :: gs[i] == gs[1..][i - 1];
    }
  }

  /** Distinct guarantors pledge from distinct accounts, so their pledges and the applicant's add up. */
  lemma {:induction false} PledgesAddUp(pledges: map<PledgeKey, Pledge>, byMember: map<Id, Id>, loan: nat,
                                        gs: seq<Guarantor>, own: PledgeKey, total: int)
    requires forall k | k in pledges :: 0 < pledges[k].amount
    requires forall i | 0 <= i < |gs| :: Guarantees(pledges, byMember, loan, gs[i])
    requires Distinct(gs) && own.loan == loan
    requires forall m, n | m in byMember && n in byMember && m != n :: byMember[m] != byMember[n]
    requires forall i | 0 <= i < |gs| && gs[i].member in byMember :: byMember[gs[i].member] != own.account
    requires total != 0 ==> own in pledges && pledges[own].status == PledgeActive && pledges[own].amount == total
    ensures total + Sums.Of(gs, ApprovedAmount) <= Sums.Over(pledges, ActiveFor(loan))
  {
    if gs == [] {
      Sums.OverNonNegative(pledges, ActiveFor(loan));
      if total != 0 {
        Sums.OverRemove(pledges, ActiveFor(loan), own);
        Sums.OverNonNegative(pledges - {own}, ActiveFor(loan));
      }
    } else {
      var g, rest := gs[|gs| - 1], gs[..|gs| - 1];
      if g.status == GuarantorApproved {
        var key := PledgeKey(byMember[g.member], loan);
        Sums.OverRemove(pledges, ActiveFor(loan), key);
        PledgesAddUp(pledges - {key}, byMember, loan, rest, own, total);
      } else {
        PledgesAddUp(pledges, byMember, loan, rest, own, total);
      }
    }
  }

  /** Security that passes both verifications is really pledged. */
  lemma VerifiedIsPledged(s: Shares, loan: nat, member: Id, approving: bool, principal: int, gs: seq<Guarantor>)
    requires Stored(s) && Backed(s) && Indexed(s)
    requires Distinct(gs) && forall i | 0 <= i < |gs| :: gs[i].member != member
    requires VerifyApplicant(s, loan, member, approving, principal).Commit?
    requires GuaranteesError(VerifyApplicant(s, loan, member, approving, principal).state, loan, gs).None?
    ensures var r := VerifyApplicant(s, loan, member, approving, principal);
            r.value + Sums.Of(gs, ApprovedAmount) <= Security(r.state, loan)
  {
    var r := VerifyApplicant(s, loan, member, approving, principal);
    NoGuaranteesError(r.state, loan, gs);
    VerifyApplicantKeepsBacked(s, loan, member, approving, principal);
    PledgesAddUp(r.state.pledges, r.state.byMember, loan, gs, PledgeKey(s.byMember[member], loan), r.value);
  }

  // ----- What the verifications accept

  /** The member has a share account that is active. */
  predicate Standing(s: Shares, member: Id) {
    member in s.byMember && s.byMember[member] in s.accounts && s.accounts[s.byMember[member]].status == AccountActive
  }

  /** The applicant's own pledge is on file. */
  predicate OwnPledge(s: Shares, key: PledgeKey) { key in s.pledges && s.pledges[key].role == ApplicantSecurity }

  /**
    The applicant's shares can secure the loan: three times the balance reaches the principal, the balance covers every
    active pledge on the account, and the own pledge, if there is one, is active - or, at approval, pending within
    the shares that are not pledged.
   */
  ghost predicate ApplicantSecures(s: Shares, loan: nat, member: Id, approving: bool, principal: int) {
    Standing(s, member) &&
    var account := s.byMember[member];
    var balance, pledged, key := Balance(s.entries, account), Pledged(s, account), PledgeKey(account, loan);
    principal <= 3 * balance && pledged <= balance &&
    (OwnPledge(s, key) ==>
       s.pledges[key].status == PledgeActive ||
       (approving && s.pledges[key].status == PledgePending && s.pledges[key].amount <= balance - pledged))
  }

  /** The shares once the applicant's own pledge is active. */
  function OwnPledgeActive(s: Shares, loan: nat, member: Id): Shares
    requires member in s.byMember
  {
    var key := PledgeKey(s.byMember[member], loan);
    if OwnPledge(s, key) then s.(pledges := s.pledges[key := s.pledges[key].(status := PledgeActive)]) else s
  }

  function OwnAmount(s: Shares, loan: nat, member: Id): int
    requires member in s.byMember
  {
    var key := PledgeKey(s.byMember[member], loan);
    if OwnPledge(s, key) then s.pledges[key].amount else 0
  }

  lemma {:induction false} VerifyApplicantIff(s: Shares, loan: nat, member: Id, approving: bool, principal: int)
    ensures var r := VerifyApplicant(s, loan, member, approving, principal);
            (r.Commit? <==> ApplicantSecures(s, loan, member, approving, principal)) &&
            (r.Commit? ==> r.state == OwnPledgeActive(s, loan, member) && r.value == OwnAmount(s, loan, member))
  {
    if member in s.byMember {
      var key := PledgeKey(s.byMember[member], loan);
      if OwnPledge(s, key) && s.pledges[key].status == PledgeActive {
        assert s.pledges[key := s.pledges[key].(status := PledgeActive)] == s.pledges;
      }
    }
  }

  /**
    The guarantor's shares secure the guarantee: an active pledge of at least its amount, on an account that covers its
    pledges.
   */
  ghost predicate GuarantorSecures(s: Shares, loan: nat, g: Guarantor) {
    Standing(s, g.member) &&
    var account := s.byMember[g.member];
    var key := PledgeKey(account, loan);
    key in s.pledges && s.pledges[key].role == GuarantorSecurity && s.pledges[key].status == PledgeActive &&
    g.amount <= s.pledges[key].amount && Pledged(s, account) <= Balance(s.entries, account)
  }

  ghost predicate AllSecure(s: Shares, loan: nat, gs: seq<Guarantor>) {
    forall i | 0 <= i < |gs| && gs[i].status == GuarantorApproved :: GuarantorSecures(s, loan, gs[i])
  }

  lemma {:induction false} GuaranteesErrorIff(s: Shares, loan: nat, gs: seq<Guarantor>)
    ensures GuaranteesError(s, loan, gs).None? <==> AllSecure(s, loan, gs)
  {
    if gs != [] {
      GuaranteesErrorIff(s, loan, gs[1..]);
      assert forall i | 1 <= i < |gs| :: gs[i] == gs[1..][i - 1];
      assert forall i | 0 <= i < |gs| - 1 :: gs[1..][i] == gs[i + 1];
    }
  }

  /** Activating the applicant's own pledge makes no difference to the guarantors. */
  lemma {:induction false} GuarantorsUnaffected(s: Shares, loan: nat, member: Id, gs: seq<Guarantor>)
    requires Indexed(s) && member in s.byMember && forall i | 0 <= i < |gs| :: gs[i].member != member
    ensures AllSecure(OwnPledgeActive(s, loan, member), loan, gs) <==> AllSecure(s, loan, gs)
  {
    var t, key := OwnPledgeActive(s, loan, member), PledgeKey(s.byMember[member], loan);
    forall i | 0 <= i < |gs| ensures GuarantorSecures(t, loan, gs[i]) <==> GuarantorSecures(s, loan, gs[i]) {
      if Standing(s, gs[i].member) {
        var account := s.byMember[gs[i].member];
        assert account != key.account;
        if OwnPledge(s, key) { PledgeChange(s, key, t.pledges[key], account, loan); }
      }
    }
  }

  /** The proposed guarantees fit, one by one. */
  ghost predicate AllFit(s: Shares, proposals: seq<Proposal>) {
    forall i | 0 <= i < |proposals| :: Fits(s, proposals[i].member, proposals[i].nanos)
  }

  /** The amount is positive and within the member's unpledged shares, in whole ticks. */
  ghost predicate Fits(s: Shares, member: Id, nanos: int) {
    Standing(s, member) &&
    var free := Balance(s.entries, s.byMember[member]) - Pledged(s, s.byMember[member]);
    0 < nanos <= Nanos(free)
  }

  lemma {:induction false} GuarantorErrorIff(s: Shares, member: Id, nanos: int)
    ensures GuarantorError(s, member, nanos).None? <==> Fits(s, member, nanos)
  {
    if Standing(s, member) {
      var account := s.byMember[member];
      var free := Balance(s.entries, account) - Pledged(s, account);
      assert Nanos(Balance(s.entries, account)) - Nanos(Pledged(s, account)) == Nanos(free);
      if 0 <= free {
        GuaranteeAvailableIsLargest(Nanos(Balance(s.entries, account)), Nanos(Pledged(s, account)), free);
      }
      assert GuaranteeAvailable(Nanos(Balance(s.entries, account)), Nanos(Pledged(s, account))) ==
        if free < 0 then 0 else Nanos(free);
    }
  }

  lemma {:induction false} ProposalsErrorIff(s: Shares, proposals: seq<Proposal>)
    ensures ProposalsError(s, proposals).None? <==> AllFit(s, proposals)
  {
    if proposals != [] {
      GuarantorErrorIff(s, proposals[0].member, proposals[0].nanos);
      ProposalsErrorIff(s, proposals[1..]);
      assert forall i | 1 <= i < |proposals| :: proposals[i] == proposals[1..][i - 1];
      assert forall i | 0 <= i < |proposals| - 1 :: proposals[1..][i] == proposals[i + 1];
    }
  }

  /**
    Security can be proposed exactly when the applicant and the guarantors are in standing, three times the
    applicant's shares reach the principal, the applicant's pledge is within the unpledged shares and every guarantee
    fits; then the applicant's pledge, if any, is on file and pending.
   */
  lemma {:induction false} ProposeIff(s: Shares, loan: nat, member: Id, principal: int, nanos: int,
                                      proposals: seq<Proposal>)
    ensures var r := Propose(s, loan, member, principal, nanos, proposals);
            (r.Commit? <==>
               Standing(s, member) && AllFit(s, proposals) &&
               var account := s.byMember[member];
               (nanos == 0 || (0 < Column(nanos) && PledgeKey(account, loan) !in s.pledges)) &&
               principal <= 3 * Nanos(Balance(s.entries, account)) &&
               nanos <= Nanos(Balance(s.entries, account)) - Nanos(Pledged(s, account))) &&
            (r.Commit? ==>
               r.state == if nanos == 0 then s
                          else s.(pledges := s.pledges[PledgeKey(s.byMember[member], loan) :=
                                                       Pledge(Column(nanos), ApplicantSecurity, PledgePending)]))
  {
    ProposalsErrorIff(s, proposals);
  }

  /** A guarantee is pledged exactly when it still fits, and then at once and active. */
  lemma {:induction false} ApproveGuaranteeIff(s: Shares, loan: nat, member: Id, amount: int)
    ensures var r := ApproveGuarantee(s, loan, member, amount);
            (r.Commit? <==> Fits(s, member, Nanos(amount)) && PledgeKey(s.byMember[member], loan) !in s.pledges) &&
            (r.Commit? ==>
               r.state == s.(pledges := s.pledges[PledgeKey(s.byMember[member], loan) :=
                                                  Pledge(amount, GuarantorSecurity, PledgeActive)]))
  {
    GuarantorErrorIff(s, member, Nanos(amount));
  }

  // ----- The service, over the tables of the shares package

  method CheckGuarantor(book: ShareBook, member: Id, nanos: int) returns (e: Option<Error>)
    ensures e == GuarantorError(book.State(), member, nanos)
  {
    e := AccountError(Shares(book.accounts, book.byMember, book.entries, book.adjustments, book.pledges), member);
    if e.Some? { return; }
    var account := book.byMember[member];
    var pledged := Sums.Query(book.pledges, ActiveOn(account));
    var available := GuaranteeAvailable(Nanos(Balance(book.entries, account)), Nanos(pledged));
    if nanos <= 0 || nanos > available { e := Some(GuaranteeCapacity); }
  }

  method InsertPledge(book: ShareBook, key: PledgeKey, p: Pledge) returns (r: Outcome<()>)
    modifies book`pledges
    ensures book.State() == CreatePledge(old(book.State()), key, p).After(old(book.State()))
    ensures r == CreatePledge(old(book.State()), key, p).Result()
  {
    if key in book.pledges || p.amount <= 0 { return Failed(ConstraintViolation); }
    book.pledges := book.pledges[key := p];
    r := Ok(());
  }

  method ProposeApplicantSecurity(book: ShareBook, loan: nat, member: Id, principal: int, nanos: int,
                                  proposals: seq<Proposal>) returns (r: Outcome<()>)
    modifies book`pledges
    ensures book.State() ==
            Propose(old(book.State()), loan, member, principal, nanos, proposals).After(old(book.State()))
    ensures r == Propose(old(book.State()), loan, member, principal, nanos, proposals).Result()
  {
    var saved := book.Save();
    var e := AccountError(saved, member);
    if e.Some? { return Failed(e.value); }
    for i := 0 to |proposals|
      invariant book.State() == old(book.State())
      invariant ProposalsError(book.State(), proposals) == ProposalsError(book.State(), proposals[i..])
    {
      e := CheckGuarantor(book, proposals[i].member, proposals[i].nanos);
      if e.Some? { return Failed(e.value); }
      assert proposals[i..][1..] == proposals[i + 1..];
    }
    var account := book.byMember[member];
    var pledged := Sums.Query(book.pledges, ActiveOn(account));
    var balance := Nanos(Balance(book.entries, account));
    if balance * 3 < principal { return Failed(LoanSecurityShort); }
    if balance - Nanos(pledged) < nanos { return Failed(LoanSecurityShort); }
    if nanos == 0 { return Ok(()); }
    r := InsertPledge(book, PledgeKey(account, loan), Pledge(Column(nanos), ApplicantSecurity, PledgePending));
  }

  method ApproveGuarantorSecurity(book: ShareBook, loan: nat, member: Id, amount: int) returns (r: Outcome<()>)
    modifies book`pledges
    ensures book.State() == ApproveGuarantee(old(book.State()), loan, member, amount).After(old(book.State()))
    ensures r == ApproveGuarantee(old(book.State()), loan, member, amount).Result()
  {
    var e := CheckGuarantor(book, member, Nanos(amount));
    if e.Some? { return Failed(e.value); }
    var key := PledgeKey(book.byMember[member], loan);
    ghost var before := book.pledges;
    r := InsertPledge(book, key, Pledge(amount, GuarantorSecurity, PledgePending));
    if r.Failed? { return; }
    book.pledges := book.pledges[key := book.pledges[key].(status := PledgeActive)];
    assert book.pledges == before[key := Pledge(amount, GuarantorSecurity, PledgeActive)];
  }

  method VerifyApplicantSecurity(book: ShareBook, loan: nat, member: Id, approving: bool, principal: int)
    returns (r: Outcome<int>)
    modifies book`pledges
    ensures book.State() ==
            VerifyApplicant(old(book.State()), loan, member, approving, principal).After(old(book.State()))
    ensures r == VerifyApplicant(old(book.State()), loan, member, approving, principal).Result()
  {
    var saved := book.Save();
    var e := AccountError(saved, member);
    if e.Some? { return Failed(e.value); }
    var account := book.byMember[member];
    var pledged := Sums.Query(book.pledges, ActiveOn(account));
    var balance, key := Balance(book.entries, account), PledgeKey(account, loan);
    if balance * 3 < principal || pledged > balance { return Failed(LoanSecurityShort); }
    if key !in book.pledges || book.pledges[key].role != ApplicantSecurity { return Ok(0); }
    var p := book.pledges[key];
    if p.status == PledgePending && approving {
      if balance - pledged < p.amount { return Failed(LoanSecurityShort); }
      p := p.(status := PledgeActive);
      book.pledges := book.pledges[key := p];
    }
    if p.status != PledgeActive { return Failed(LoanSecurityShort); }
    r := Ok(p.amount);
  }

  method VerifyGuarantorSecurities(book: ShareBook, loan: nat, gs: seq<Guarantor>) returns (e: Option<Error>)
    ensures e == GuaranteesError(book.State(), loan, gs)
  {
    var saved := book.Save();
    for i := 0 to |gs|
      invariant GuaranteesError(book.State(), loan, gs) == GuaranteesError(book.State(), loan, gs[i..])
    {
      var g := gs[i];
      assert gs[i..][1..] == gs[i + 1..];
      if g.status == GuarantorApproved {
        e := AccountError(saved, g.member);
        if e.Some? { return; }
        var account := book.byMember[g.member];
        var key := PledgeKey(account, loan);
        if key !in book.pledges || book.pledges[key].role != GuarantorSecurity ||
          book.pledges[key].status != PledgeActive
           || book.pledges[key].amount < g.amount { return Some(LoanSecurityShort); }
        var pledged := Sums.Query(book.pledges, ActiveOn(account));
        if pledged > Balance(book.entries, account) { return Some(GuaranteeCapacity); }
      }
    }
    e := None;
  }

  /** The pledge is one of those that releasing the loan, for one member or for all, is about. */
  predicate Concerns(accounts: map<Id, Account>, loan: nat, member: Option<Id>, key: PledgeKey) {
    key.loan == loan && key.account in accounts && (member.None? || accounts[key.account].member == member.value)
  }

  /** No pledge it is about is pending or active, what was settled stays settled, and no other pledge has changed. */
  ghost predicate OnlyReleases(s: Shares, t: Shares, loan: nat, member: Option<Id>) {
    && (forall k | k in t.pledges && Concerns(s.accounts, loan, member, k) ::
          t.pledges[k].status == PledgeReleased || t.pledges[k].status == PledgeCancelled)
    && (forall k | k in s.pledges :: k in t.pledges && t.pledges[k] == s.pledges[k].(status := t.pledges[k].status) &&
          (!Concerns(s.accounts, loan, member, k) ==> t.pledges[k] == s.pledges[k]))
  }

  lemma ReleasePledges(s: Shares, loan: nat, member: Option<Id>)
    ensures OnlyReleases(s, Release(s, loan, member), loan, member)
  {
  }

  /** One pledge's row after the release. */
  function ReleasedRow(p: Pledge): Pledge {
    match p.status
    case PledgePending => p.(status := PledgeCancelled)
    case PledgeActive => p.(status := PledgeReleased)
    case _ => p
  }

  lemma {:induction false} ReleaseAt(s: Shares, loan: nat, member: Option<Id>, key: PledgeKey)
    requires key in s.pledges
    ensures Release(s, loan, member).pledges.Keys == s.pledges.Keys
    ensures Release(s, loan, member).pledges[key] ==
            if Concerns(s.accounts, loan, member, key) then ReleasedRow(s.pledges[key]) else s.pledges[key]
  {
  }

  lemma {:induction false} NoneReleased(s: Shares, loan: nat, member: Option<Id>)
    ensures PartlyReleased(s.pledges, s.pledges, Release(s, loan, member).pledges, s.pledges.Keys)
  {
  }

  /** All rows but the rest have been released already. */
  ghost predicate PartlyReleased(before: map<PledgeKey, Pledge>, now: map<PledgeKey, Pledge>,
                                 freed: map<PledgeKey, Pledge>, rest: set<PledgeKey>) {
    && now.Keys == before.Keys == freed.Keys && rest <= before.Keys
    && forall k | k in before :: now[k] == if k in rest then before[k] else freed[k]
  }

  lemma {:induction false} OneMoreReleased(before: map<PledgeKey, Pledge>, now: map<PledgeKey, Pledge>,
                                           freed: map<PledgeKey, Pledge>, rest: set<PledgeKey>, key: PledgeKey)
    requires PartlyReleased(before, now, freed, rest) && key in rest
    ensures PartlyReleased(before, now[key := freed[key]], freed, rest - {key})
    ensures now[key] == before[key]
  {
  }

  lemma {:induction false} NoneLeft(before: map<PledgeKey, Pledge>, now: map<PledgeKey, Pledge>,
                                    freed: map<PledgeKey, Pledge>)
    requires PartlyReleased(before, now, freed, {})
    ensures now == freed
  {
  }

  method ReleaseLoanSecurity(book: ShareBook, loan: nat, member: Option<Id>)
    modifies book`pledges
    ensures book.State() == Release(old(book.State()), loan, member)
    ensures OnlyReleases(old(book.State()), book.State(), loan, member)
  {
    ghost var before := book.State();
    ghost var freed := Release(before, loan, member).pledges;
    NoneReleased(before, loan, member);
    var rest := book.pledges.Keys;
    while rest != {}
      invariant PartlyReleased(before.pledges, book.pledges, freed, rest)
      decreases |rest|
    {
      var key :| key in rest;
      OneMoreReleased(before.pledges, book.pledges, freed, rest, key);
      ReleaseAt(before, loan, member, key);
      ghost var now := book.pledges;
      var p := book.pledges[key];
      if Concerns(book.accounts, loan, member, key) {
        if p.status == PledgePending {
          p := p.(status := PledgeCancelled);
        } else if p.status == PledgeActive {
          p := p.(status := PledgeReleased);
        }
        book.pledges := book.pledges[key := p];
      }
      assert book.pledges == now[key := freed[key]];
      rest := rest - {key};
    }
    NoneLeft(before.pledges, book.pledges, freed);
    assert book.State() == Release(before, loan, member);
    ReleasePledges(before, loan, member);
  }
}
