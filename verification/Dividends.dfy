/**
  Dividends: a declaration computed from the signed share ledger, each member's choice, and one settlement per
  allocation, in cash or in shares (internal/contribution/dividends.go, internal/ceepdb/dividends.sql).
 */
module Dividends {
  import opened Common
  import opened Decimals
  import opened ShareLedger
  import Sums

  datatype Choice = InCash | InShares

  /** Amounts are in cents, NUMERIC(19,2); the id is the reference of the ledger posting. */
  datatype Allocation = Allocation(
    id: Ref, declaration: nat, member: Id, account: Option<Id>, eligible: bool, amount: int,
    choice: Option<Choice>, voucher: Option<string>, paid: Option<nat>, posted: Option<nat>, settled: bool)

  /** What an officer reviews; the service keeps its hash. */
  datatype Preview = Preview(year: nat, date: nat, rate: int, drafts: seq<Draft>)

  datatype Declaration = Declaration(branch: nat, preview: Preview, total: int)

  datatype Register = Register(shares: Shares, declarations: seq<Declaration>, allocations: seq<Allocation>)

  // ----- Computing the register

  /** What BuildDividendPreview reads of a member; `qualified` says whether all six months qualify. */
  datatype Candidate = Candidate(member: Id, account: Option<Id>, accounts: nat, active: bool, qualified: bool)

  /** round(balance * rate / 100, 2): the balance is in ticks, the rate in units of 0.0001 per cent. */
  function Share(balance: int, rate: int): int { (balance * rate + 50_000_000) / 100_000_000 }

  /** The year-end balance: the signed effects of the entries posted before the cutoff. */
  function YearEnd(entries: seq<Entry>, c: Candidate): int {
    if c.account.Some? then Fold(entries, c.account.value) else 0
  }

  predicate Eligible(entries: seq<Entry>, c: Candidate) {
    c.active && c.account.Some? && c.accounts == 1 && YearEnd(entries, c) >= 0 && c.qualified
  }

  datatype Draft = Draft(member: Id, account: Option<Id>, eligible: bool, amount: int)

  function DraftOf(entries: seq<Entry>, c: Candidate, rate: int): Draft {
    Draft(c.member, c.account, Eligible(entries, c),
          if Eligible(entries, c) then Share(YearEnd(entries, c), rate) else 0)
  }

  function Drafts(entries: seq<Entry>, candidates: seq<Candidate>, rate: int): (drafts: seq<Draft>)
    ensures |drafts| == |candidates| &&
            forall i | 0 <= i < |candidates| :: drafts[i] == DraftOf(entries, candidates[i], rate)
  {
    seq(|candidates|, (i: nat) requires i < |candidates| => DraftOf(entries, candidates[i], rate))
  }

  function EligibleShare(entries: seq<Entry>, rate: int): Candidate -> int {
    (c: Candidate) => if Eligible(entries, c) then Share(YearEnd(entries, c), rate) else 0
  }

  predicate HasErrors(entries: seq<Entry>, candidates: seq<Candidate>) {
    exists c :: c in candidates && (YearEnd(entries, c) < 0 || c.accounts > 1)
  }

  function OfYear(branch: nat, year: nat): Declaration -> bool {
    (d: Declaration) => d.branch == branch && d.preview.year == year
  }

  function NewAllocations(id: nat, drafts: seq<Draft>, ids: nat -> Ref): (s: seq<Allocation>)
    ensures |s| == |drafts|
    ensures forall i | 0 <= i < |drafts| ::
              s[i] == Allocation(ids(i), id, drafts[i].member, drafts[i].account, drafts[i].eligible, drafts[i].amount,
                                 None, None, None, None, false)
  {
    seq(|drafts|, (i: nat) requires i < |drafts| =>
      Allocation(ids(i), id, drafts[i].member, drafts[i].account, drafts[i].eligible, drafts[i].amount, None, None,
                 None, None, false))
  }

  /**
    A request to approve: year, date and rate, the preview that was reviewed, and the resolution that authorises it.
   */
  datatype Approval = Approval(
    branch: nat, year: nat, date: nat, rate: int, reviewed: Preview, resolution: string, today: nat, thisYear: nat)

  predicate Requested(q: Approval) { q.resolution != "" && |q.resolution| <= 200 && 2000 <= q.year <= 9998 }

  /** New declarations are dated today, for a year that has ended, at more than nothing and at most 100 per cent. */
  predicate Declarable(q: Approval) { q.date == q.today && q.year < q.thisYear && 0 < q.rate <= 1_000_000 }

  /**
    ApproveDividends: the declaration is saved with its allocations if the sources still give what was reviewed;
    approving the same preview again finds it. `cutoff` is the number of ledger entries made before the year ended.
   */
  function Declare(r: Register, q: Approval, candidates: seq<Candidate>, cutoff: nat,
                   ids: nat -> Ref): Tx<Register, nat>
    requires cutoff <= |r.shares.entries|
  {
    var existing := First(r.declarations, OfYear(q.branch, q.year));
    var entries := r.shares.entries[..cutoff];
    if !Requested(q) then Abort(InvalidArgument)
    else if existing.Some? then
      if r.declarations[existing.value].preview != q.reviewed then Abort(AlreadyDeclared) else Commit(r, existing.value)
    else if !Declarable(q) then Abort(InvalidArgument)
    else if Preview(q.year, q.date, q.rate, Drafts(entries, candidates, q.rate)) != q.reviewed
    then Abort(SourcesChanged)
    else if HasErrors(entries, candidates) then Abort(RegisterHasErrors)
    else
      var total := Sums.Of(candidates, EligibleShare(entries, q.rate));
      Commit(r.(declarations := r.declarations + [Declaration(q.branch, q.reviewed, total)],
                allocations := r.allocations + NewAllocations(|r.declarations|, q.reviewed.drafts, ids)),
                  |r.declarations|)
  }

  // ----- Choice and settlement

  /** LockDividendAllocation and the check that there is something to pay. */
  function LockError(r: Register, a: nat, branch: nat): Option<Error> {
    if a >= |r.allocations| || !InBranch(r, r.allocations[a], branch) then Some(AllocationNotFound)
    else if !r.allocations[a].eligible || r.allocations[a].amount <= 0 then Some(NoPayableDividend)
    else None
  }

  function SetAllocation(r: Register, a: nat, x: Allocation): Register
    requires a < |r.allocations|
  {
    r.(allocations := r.allocations[a := x])
  }

  /** RecordDividendChoice: the member's instruction, given once. */
  function Choose(r: Register, a: nat, branch: nat, choice: Choice): Tx<Register, ()> {
    if LockError(r, a, branch).Some? then Abort(LockError(r, a, branch).value)
    else
      var x := r.allocations[a];
      if x.choice.Some? then (if x.choice.value != choice then Abort(ChoiceAlreadyRecorded) else Commit(r, ()))
      else if x.settled then Commit(r, ())
      else Commit(SetAllocation(r, a, x.(choice := Some(choice))), ())
  }

  /**
    The evidence of a payment: cash needs a voucher and a date from the declaration until today, shares have neither.
   */
  predicate EvidenceFits(x: Allocation, d: Declaration, voucher: string, date: Option<nat>, today: nat) {
    if x.choice == Some(InCash)
      then voucher != "" && |voucher| <= 200 && date.Some? && d.preview.date <= date.value <= today
    else voucher == "" && date.None?
  }

  function VoucherOf(x: Allocation, voucher: string): Option<string> {
    if x.choice == Some(InCash) then Some(voucher) else None
  }

  predicate InBranch(r: Register, a: Allocation, branch: nat) {
    a.declaration < |r.declarations| && r.declarations[a.declaration].branch == branch
  }

  /** dividend_cash_voucher_branch_key */
  predicate VoucherTaken(r: Register, branch: nat, voucher: Option<string>) {
    voucher.Some? && exists i ::
      0 <= i < |r.allocations| && r.allocations[i].voucher == voucher && InBranch(r, r.allocations[i], branch)
  }

  /** SettleDividendAllocation: written only to an allocation that is not settled. */
  function Pay(r: Register, a: nat, branch: nat, voucher: Option<string>, date: Option<nat>,
               posted: Option<nat>): Tx<Register, ()>
    requires a < |r.allocations|
  {
    if VoucherTaken(r, branch, voucher) then Abort(VoucherUsed)
    else if posted.Some? &&
      exists i :: 0 <= i < |r.allocations| && r.allocations[i].posted == posted then Abort(ConstraintViolation)
    else Commit(SetAllocation(r, a,
                              r.allocations[a].(voucher := voucher, paid := date, posted := posted, settled := true)),
                                ())
  }

  function Cents(cents: int): int { Nanos(100 * cents) }

  /** SettleDividend: shares go through the ledger under the allocation's own reference. */
  ghost function Settle(r: Register, a: nat, branch: nat, voucher: string, date: Option<nat>,
                        today: nat): Tx<Register, ()> {
    if LockError(r, a, branch).Some? then Abort(LockError(r, a, branch).value)
    else
      var x := r.allocations[a];
      if x.choice.None? then Abort(ChoiceMissing)
      else if !EvidenceFits(x, r.declarations[x.declaration], voucher, date, today) then Abort(EvidenceInvalid)
      else if x.settled then
        if x.voucher != VoucherOf(x, voucher) || x.paid != date then Abort(SettledWithOtherEvidence) else Commit(r, ())
      else if x.choice == Some(InShares) then
        if x.account.None? then Abort(AccountNotFound)
        else
          var (s, entry) :- Post(r.shares, x.account.value, Dividend, Cents(x.amount), x.id,
                                 Some(Owner(x.member, branch)));
          Pay(r.(shares := s), a, branch, None, date, Some(entry))
      else Pay(r, a, branch, VoucherOf(x, voucher), date, None)
  }

  // ----- The register's totals

  function AmountIn(declaration: nat): Allocation -> int {
    (a: Allocation) => if a.declaration == declaration then a.amount else 0
  }

  function CashIn(declaration: nat): Allocation -> int {
    (a: Allocation) => if a.declaration == declaration && a.settled && a.choice == Some(InCash) then a.amount else 0
  }

  function SharesIn(declaration: nat): Allocation -> int {
    (a: Allocation) => if a.declaration == declaration && a.settled && a.choice == Some(InShares) then a.amount else 0
  }

  function OpenIn(declaration: nat): Allocation -> int {
    (a: Allocation) => if a.declaration == declaration && !a.settled then a.amount else 0
  }

  // ----- Runs

  /** What else happens on the share ledger in the meantime. */
  datatype LedgerStep =
    | Trade(account: Id, kind: Kind, nanos: int, reference: Ref, owner: Option<Owner>)
    | Reversing(entry: nat, reference: Ref)
    | Adjusting(adjustment: nat)
    | Status(account: Id, status: AccountStatus)

  ghost function Ledger(s: Shares, step: LedgerStep): Shares {
    match step
    case Trade(account, kind, nanos, reference, owner) =>
      if kind == Purchase || kind == Withdrawal then Post(s, account, kind, nanos, reference, owner).After(s) else s
    case Reversing(entry, reference) => Reverse(s, entry, reference).After(s)
    case Adjusting(adjustment) => ApproveAdjustment(s, adjustment).After(s)
    case Status(account, status) =>
      if account in s.accounts then s.(accounts := s.accounts[account := s.accounts[account].(status := status)]) else s
  }

  datatype Step =
    | Approving(q: Approval, candidates: seq<Candidate>, cutoff: nat, ids: nat -> Ref)
    | Choosing(allocation: nat, branch: nat, choice: Choice)
    | Settling(allocation: nat, branch: nat, voucher: string, date: Option<nat>, today: nat)
    | Meanwhile(ledger: LedgerStep)

  ghost function Next(r: Register, step: Step): Register {
    match step
    case Approving(q, candidates, cutoff, ids) =>
      if cutoff <= |r.shares.entries| then Declare(r, q, candidates, cutoff, ids).After(r) else r
    case Choosing(allocation, branch, choice) => Choose(r, allocation, branch, choice).After(r)
    case Settling(allocation, branch, voucher, date, today) =>
      Settle(r, allocation, branch, voucher, date, today).After(r)
    case Meanwhile(ledger) => r.(shares := Ledger(r.shares, ledger))
  }

  ghost function Run(r: Register, steps: seq<Step>): Register {
    if steps == [] then r else Next(Run(r, steps[..|steps| - 1]), steps[|steps| - 1])
  }

  // ----- What every run keeps

  function IsPosting(a: Allocation): Entry -> bool { (e: Entry) => e.kind == Dividend && e.reference == a.id }

  /** A settlement is backed by what the choice calls for; before it there is no trace of one. */
  predicate SettledRight(r: Register, a: Allocation) {
    && a.declaration < |r.declarations| && 0 <= a.amount
    && (a.settled ==> a.eligible && 0 < a.amount && a.choice.Some?)
    && (a.settled && a.choice == Some(InCash) ==> a.voucher.Some? && a.paid.Some? && a.posted.None?)
    && (a.settled && a.choice == Some(InShares) ==>
          a.voucher.None? && a.account.Some? && a.posted.Some? && a.posted.value < |r.shares.entries| &&
          var e := r.shares.entries[a.posted.value];
          IsPosting(a)(e) && e.account == a.account.value && e.amount == 100 * a.amount)
    && (!a.settled ==> a.voucher.None? && a.paid.None? && a.posted.None?)
    && (forall i | 0 <= i < |r.shares.entries| && IsPosting(a)(r.shares.entries[i]) :: a.posted == Some(i))
  }

  predicate Partitioned(r: Register, d: nat)
    requires d < |r.declarations|
  {
    Sums.Of(r.allocations, CashIn(d)) + Sums.Of(r.allocations, SharesIn(d)) + Sums.Of(r.allocations, OpenIn(d)) ==
      r.declarations[d].total
  }

  predicate Sound(r: Register) {
    && (forall i | 0 <= i < |r.allocations| :: SettledRight(r, r.allocations[i]))
    && (forall i, j | 0 <= i < j < |r.allocations| :: r.allocations[i].id != r.allocations[j].id)
    && (forall d | 0 <= d < |r.declarations| :: Sums.Of(r.allocations, AmountIn(d)) == r.declarations[d].total)
    && (forall i, j | 0 <= i < j < |r.allocations| && r.allocations[i].voucher == r.allocations[j].voucher
          && SameBranch(r, r.allocations[i], r.allocations[j]) :: r.allocations[i].voucher.None?)
  }

  predicate SameBranch(r: Register, a: Allocation, b: Allocation) {
    a.declaration < |r.declarations| && b.declaration < |r.declarations| &&
    r.declarations[a.declaration].branch == r.declarations[b.declaration].branch
  }

  lemma CashOrShares(a: Allocation)
    ensures a.choice.Some? ==> a.choice == Some(InCash) || a.choice == Some(InShares)
  {
    if a.choice.Some? {
      match a.choice.value
      case InCash =>
      case InShares =>
    }
  }

  /** In every sound register cash paid, reinvested and outstanding amounts make up the approved total. */
  lemma RegisterPartition(r: Register, d: nat)
    requires Sound(r) && d < |r.declarations|
    ensures Partitioned(r, d)
  {
    forall i | 0 <= i < |r.allocations|
      ensures AmountIn(d)(r.allocations[i]) ==
              CashIn(d)(r.allocations[i]) + SharesIn(d)(r.allocations[i]) + OpenIn(d)(r.allocations[i])
    {
      var a := r.allocations[i];
      assert SettledRight(r, a);
      CashOrShares(a);
    }
    var settled := (a: Allocation) => CashIn(d)(a) + SharesIn(d)(a);
    Sums.OfAdd(r.allocations, CashIn(d), SharesIn(d), settled);
    Sums.OfAdd(r.allocations, settled, OpenIn(d), AmountIn(d));
  }

  // ----- Every step keeps it

  /** The rest of the ledger never makes a dividend entry. */
  lemma LedgerMakesNoDividend(s: Shares, step: LedgerStep)
    ensures var t := Ledger(s, step);
            s.entries <= t.entries && forall i | |s.entries| <= i < |t.entries| :: t.entries[i].kind != Dividend
  {
  }

  lemma LedgerGrows(r: Register, s: Shares)
    requires Sound(r) && r.shares.entries <= s.entries
    requires forall i | |r.shares.entries| <= i < |s.entries| :: s.entries[i].kind != Dividend
    ensures Sound(r.(shares := s))
  {
    forall i | 0 <= i < |r.allocations| ensures SettledRight(r.(shares := s), r.allocations[i]) {
      assert SettledRight(r, r.allocations[i]);
    }
  }

  /** Ids that the database has just generated. */
  ghost predicate FreshIds(r: Register, ids: nat -> Ref, n: nat) {
    && (forall i, j | 0 <= i < j < n :: ids(i) != ids(j))
    && (forall i, k | 0 <= i < n && 0 <= k < |r.allocations| :: r.allocations[k].id != ids(i))
    && (forall i, k | 0 <= i < n && 0 <= k < |r.shares.entries| :: r.shares.entries[k].reference != ids(i))
  }

  lemma ShareIsNotNegative(balance: int, rate: int)
    requires 0 <= balance && 0 <= rate
    ensures 0 <= Share(balance, rate)
  {
    assert 0 <= balance * rate;
  }

  /** The approved total is the sum of the allocations that are saved with it. */
  lemma {:induction false} DeclaredTotal(id: nat, rate: int, candidates: seq<Candidate>, entries: seq<Entry>,
                                         ids: nat -> Ref)
    ensures Sums.Of(NewAllocations(id, Drafts(entries, candidates, rate), ids), AmountIn(id)) ==
            Sums.Of(candidates, EligibleShare(entries, rate))
  {
    if candidates != [] {
      var n := |candidates| - 1;
      var more := NewAllocations(id, Drafts(entries, candidates, rate), ids);
      assert more[..n] == NewAllocations(id, Drafts(entries, candidates[..n], rate), ids);
      DeclaredTotal(id, rate, candidates[..n], entries, ids);
    }
  }

  predicate JustSaved(more: seq<Allocation>, declaration: nat, ids: nat -> Ref) {
    forall i | 0 <= i < |more| ::
      0 <= more[i].amount &&
      more[i] == Allocation(ids(i), declaration, more[i].member, more[i].account, more[i].eligible, more[i].amount,
                            None, None, None, None, false)
  }

  lemma SavedAreRight(r: Register, t: Register, more: seq<Allocation>, ids: nat -> Ref)
    requires Sound(r) && t.shares == r.shares && t.allocations == r.allocations + more &&
             |r.declarations| < |t.declarations|
    requires FreshIds(r, ids, |more|) && JustSaved(more, |r.declarations|, ids)
    ensures forall i | 0 <= i < |t.allocations| :: SettledRight(t, t.allocations[i])
  {
    forall i | 0 <= i < |t.allocations| ensures SettledRight(t, t.allocations[i]) {
      if i < |r.allocations| {
        assert SettledRight(r, r.allocations[i]);
      } else {
        var k := i - |r.allocations|;
        assert t.allocations[i] == more[k];
        forall e | 0 <= e < |r.shares.entries| ensures r.shares.entries[e].reference != ids(k) {}
      }
    }
  }

  lemma SavedTotals(r: Register, t: Register, more: seq<Allocation>, ids: nat -> Ref, d: nat)
    requires Sound(r) && t.allocations == r.allocations + more && |t.declarations| == |r.declarations| + 1 &&
             r.declarations <= t.declarations
    requires JustSaved(more, |r.declarations|, ids) &&
             Sums.Of(more, AmountIn(|r.declarations|)) == t.declarations[|r.declarations|].total
    requires d < |t.declarations|
    ensures Sums.Of(t.allocations, AmountIn(d)) == t.declarations[d].total
  {
    Sums.OfConcat(r.allocations, more, AmountIn(d));
    if d < |r.declarations| {
      Sums.OfZero(more, AmountIn(d));
    } else {
      forall i | 0 <= i < |r.allocations|
        ensures AmountIn(d)(r.allocations[i]) == 0
      {
        assert SettledRight(r, r.allocations[i]);
      }
      Sums.OfZero(r.allocations, AmountIn(d));
    }
  }

  lemma SavedVouchers(r: Register, t: Register, more: seq<Allocation>, ids: nat -> Ref, i: nat, j: nat)
    requires Sound(r) && t.allocations == r.allocations + more && r.declarations <= t.declarations
    requires JustSaved(more, |r.declarations|, ids) && i < j < |t.allocations|
    requires t.allocations[i].voucher == t.allocations[j].voucher && SameBranch(t, t.allocations[i], t.allocations[j])
    ensures t.allocations[i].voucher.None?
  {
    if j < |r.allocations| {
      assert SettledRight(r, r.allocations[i]) && SettledRight(r, r.allocations[j]);
      assert SameBranch(r, r.allocations[i], r.allocations[j]);
    }
  }

  lemma SavedIds(r: Register, t: Register, more: seq<Allocation>, ids: nat -> Ref, i: nat, j: nat)
    requires Sound(r) && t.allocations == r.allocations + more && i < j < |t.allocations|
    requires FreshIds(r, ids, |more|) && JustSaved(more, |r.declarations|, ids)
    ensures t.allocations[i].id != t.allocations[j].id
  {
    var n := |r.allocations|;
    assert i >= n ==> t.allocations[i] == more[i - n];
    assert j >= n ==> t.allocations[j] == more[j - n];
  }

  lemma SavedIsSound(r: Register, t: Register, more: seq<Allocation>, ids: nat -> Ref)
    requires Sound(r) && t.shares == r.shares && t.allocations == r.allocations + more
    requires |t.declarations| == |r.declarations| + 1 && r.declarations <= t.declarations
    requires FreshIds(r, ids, |more|) && JustSaved(more, |r.declarations|, ids)
    requires Sums.Of(more, AmountIn(|r.declarations|)) == t.declarations[|r.declarations|].total
    ensures Sound(t)
  {
    SavedAreRight(r, t, more, ids);
    forall d | 0 <= d < |t.declarations| ensures Sums.Of(t.allocations, AmountIn(d)) == t.declarations[d].total {
      SavedTotals(r, t, more, ids, d);
    }
    forall i, j | 0 <= i < j < |t.allocations|
      ensures t.allocations[i].id != t.allocations[j].id
    {
      SavedIds(r, t, more, ids, i, j);
    }
    forall i, j | 0 <= i < j < |t.allocations| && t.allocations[i].voucher == t.allocations[j].voucher &&
      SameBranch(t, t.allocations[i], t.allocations[j])
      ensures t.allocations[i].voucher.None?
    {
      SavedVouchers(r, t, more, ids, i, j);
    }
  }

  lemma DeclareKeepsSound(r: Register, q: Approval, candidates: seq<Candidate>, cutoff: nat, ids: nat -> Ref)
    requires Sound(r) && cutoff <= |r.shares.entries| && FreshIds(r, ids, |candidates|)
    ensures Sound(Declare(r, q, candidates, cutoff, ids).After(r))
  {
    var t := Declare(r, q, candidates, cutoff, ids).After(r);
    if t != r {
      var entries := r.shares.entries[..cutoff];
      var more := NewAllocations(|r.declarations|, q.reviewed.drafts, ids);
      DeclaredTotal(|r.declarations|, q.rate, candidates, entries, ids);
      forall i | 0 <= i < |more| ensures 0 <= more[i].amount {
        if Eligible(entries, candidates[i]) { ShareIsNotNegative(YearEnd(entries, candidates[i]), q.rate); }
      }
      SavedIsSound(r, t, more, ids);
    }
  }

  /** A change of one allocation that keeps what was approved. */
  lemma AllocationChange(r: Register, t: Register, a: nat)
    requires Sound(r) && a < |r.allocations| == |t.allocations| && t.declarations == r.declarations
    requires t.allocations == r.allocations[a := t.allocations[a]]
    requires t.allocations[a] ==
             r.allocations[a].(choice := t.allocations[a].choice, voucher := t.allocations[a].voucher,
               paid := t.allocations[a].paid, posted := t.allocations[a].posted, settled := t.allocations[a].settled)
    requires forall i | 0 <= i < |t.allocations| :: SettledRight(t, t.allocations[i])
    requires t.allocations[a].voucher == r.allocations[a].voucher ||
             !VoucherTaken(r, r.declarations[r.allocations[a].declaration].branch, t.allocations[a].voucher)
    ensures Sound(t)
  {
    forall d | 0 <= d < |t.declarations| ensures Sums.Of(t.allocations, AmountIn(d)) == t.declarations[d].total {
      Sums.OfUpdate(r.allocations, a, t.allocations[a], AmountIn(d));
    }
    forall i, j | 0 <= i < j < |t.allocations| && t.allocations[i].voucher == t.allocations[j].voucher &&
      SameBranch(t, t.allocations[i], t.allocations[j])
      ensures t.allocations[i].voucher.None?
    {
      assert SameBranch(r, r.allocations[i], r.allocations[j]);
      assert InBranch(r, r.allocations[i], r.declarations[r.allocations[j].declaration].branch);
    }
  }

  lemma ChooseKeepsSound(r: Register, a: nat, branch: nat, choice: Choice)
    requires Sound(r)
    ensures Sound(Choose(r, a, branch, choice).After(r))
  {
    var t := Choose(r, a, branch, choice).After(r);
    if t != r {
      forall i | 0 <= i < |t.allocations|
        ensures SettledRight(t, t.allocations[i])
      {
        assert SettledRight(r, r.allocations[i]);
      }
      AllocationChange(r, t, a);
    }
  }

  /** The first dividend posting of an allocation appends its own entry, whatever the status of the account. */
  lemma DividendPosts(s: Shares, account: Id, cents: int, id: Ref, owner: Option<Owner>)
    requires Post(s, account, Dividend, Cents(cents), id, owner).Commit? &&
             First(s.entries, SameReference(account, id, Dividend)).None?
    ensures var p := Post(s, account, Dividend, Cents(cents), id, owner);
            p.value == |s.entries| && p.state == s.(entries := s.entries + [p.state.entries[|s.entries|]]) &&
            var e := p.state.entries[|s.entries|];
            e.account == account && e.kind == Dividend && e.reference == id && e.amount == 100 * cents
  {
    ColumnOfTicks(100 * cents);
  }

  lemma SettleInCash(r: Register, a: nat, branch: nat, voucher: string, date: Option<nat>, today: nat)
    requires Sound(r) && Settle(r, a, branch, voucher, date, today).Commit? && a < |r.allocations|
    requires !r.allocations[a].settled && r.allocations[a].choice == Some(InCash)
    ensures var t := Settle(r, a, branch, voucher, date, today).state;
            Sound(t) && t == SetAllocation(r, a,
                                           r.allocations[a].(voucher := Some(voucher), paid := date, settled := true))
  {
    var t := Settle(r, a, branch, voucher, date, today).state;
    forall i | 0 <= i < |t.allocations|
      ensures SettledRight(t, t.allocations[i])
    {
      assert SettledRight(r, r.allocations[i]);
    }
    assert SettledRight(r, r.allocations[a]);
    AllocationChange(r, t, a);
  }

  lemma SettleInShares(r: Register, a: nat, branch: nat, voucher: string, date: Option<nat>, today: nat)
    requires Sound(r) && Settle(r, a, branch, voucher, date, today).Commit? && a < |r.allocations|
    requires !r.allocations[a].settled && r.allocations[a].choice == Some(InShares)
    ensures var t, x := Settle(r, a, branch, voucher, date, today).state, r.allocations[a];
            Sound(t) && x.account.Some? && |t.shares.entries| == |r.shares.entries| + 1 &&
            t == SetAllocation(r.(shares :=
                                  r.shares.(entries := r.shares.entries + [t.shares.entries[|r.shares.entries|]])), a,
                               x.(posted := Some(|r.shares.entries|), settled := true))
  {
    var t, x, n := Settle(r, a, branch, voucher, date, today).state, r.allocations[a], |r.shares.entries|;
    assert SettledRight(r, x);
    FirstNone(r.shares.entries, SameReference(x.account.value, x.id, Dividend));
    DividendPosts(r.shares, x.account.value, x.amount, x.id, Some(Owner(x.member, branch)));
    PostedIsRight(r, t, a, t.shares.entries[n]);
    AllocationChange(r, t, a);
  }

  lemma PostedIsRight(r: Register, t: Register, a: nat, e: Entry)
    requires Sound(r) && a < |r.allocations| && !r.allocations[a].settled && r.allocations[a].eligible &&
             0 < r.allocations[a].amount
    requires var x := r.allocations[a];
             x.account.Some? && x.choice == Some(InShares) && e.account == x.account.value && IsPosting(x)(e) &&
             e.amount == 100 * x.amount &&
             t == SetAllocation(r.(shares := r.shares.(entries := r.shares.entries + [e])), a,
                                x.(posted := Some(|r.shares.entries|), settled := true))
    ensures forall i | 0 <= i < |t.allocations| :: SettledRight(t, t.allocations[i])
  {
    forall i | 0 <= i < |t.allocations| ensures SettledRight(t, t.allocations[i]) {
      assert SettledRight(r, r.allocations[i]);
    }
  }

  lemma SettleKeepsSound(r: Register, a: nat, branch: nat, voucher: string, date: Option<nat>, today: nat)
    requires Sound(r)
    ensures Sound(Settle(r, a, branch, voucher, date, today).After(r))
  {
    if Settle(r, a, branch, voucher, date, today).Commit? {
      SettleOutcomes(r, a, branch, voucher, date, today);
      if !r.allocations[a].settled && r.allocations[a].choice == Some(InCash) {
        SettleInCash(r, a, branch, voucher, date, today);
      } else if !r.allocations[a].settled {
        SettleInShares(r, a, branch, voucher, date, today);
      }
    }
  }

  lemma SettleOutcomes(r: Register, a: nat, branch: nat, voucher: string, date: Option<nat>, today: nat)
    requires Settle(r, a, branch, voucher, date, today).Commit?
    ensures a < |r.allocations| && r.allocations[a].choice.Some?
    ensures r.allocations[a].choice == Some(InCash) || r.allocations[a].choice == Some(InShares)
    ensures r.allocations[a].settled ==> Settle(r, a, branch, voucher, date, today).state == r
  {
    CashOrShares(r.allocations[a]);
  }

  ghost predicate Honest(r: Register, step: Step) { step.Approving? ==> FreshIds(r, step.ids, |step.candidates|) }

  lemma NextKeepsSound(r: Register, step: Step)
    requires Sound(r) && Honest(r, step)
    ensures Sound(Next(r, step))
  {
    match step
    case Approving(q, candidates, cutoff, ids) =>
      if cutoff <= |r.shares.entries| { DeclareKeepsSound(r, q, candidates, cutoff, ids); }
    case Choosing(allocation, branch, choice) => ChooseKeepsSound(r, allocation, branch, choice);
    case Settling(allocation, branch, voucher, date, today) =>
      SettleKeepsSound(r, allocation, branch, voucher, date, today);
    case Meanwhile(ledger) =>
      LedgerMakesNoDividend(r.shares, ledger);
      LedgerGrows(r, Ledger(r.shares, ledger));
  }

  /** What was approved is frozen, a choice is given once, and a settlement is final. */
  predicate Forward(x: Allocation, y: Allocation) {
    && y == x.(choice := y.choice, voucher := y.voucher, paid := y.paid, posted := y.posted, settled := y.settled)
    && (x.choice.Some? ==> y.choice == x.choice)
    && (x.settled ==> y == x)
  }

  ghost predicate AllForward(r: Register, t: Register) {
    && |r.allocations| <= |t.allocations| && r.declarations <= t.declarations
    && forall a | 0 <= a < |r.allocations| :: Forward(r.allocations[a], t.allocations[a])
  }

  lemma NextMovesForward(r: Register, step: Step)
    requires Sound(r)
    ensures AllForward(r, Next(r, step))
  {
    if step.Settling? && Settle(r, step.allocation, step.branch, step.voucher, step.date, step.today).Commit? {
      SettleOutcomes(r, step.allocation, step.branch, step.voucher, step.date, step.today);
      if !r.allocations[step.allocation].settled && r.allocations[step.allocation].choice == Some(InCash) {
        SettleInCash(r, step.allocation, step.branch, step.voucher, step.date, step.today);
      } else if !r.allocations[step.allocation].settled {
        SettleInShares(r, step.allocation, step.branch, step.voucher, step.date, step.today);
      }
    }
  }

  /**
    Over any run every declaration stays partitioned, every share settlement has exactly its one ledger entry, choices
    and settlements are never changed, and no voucher pays twice in a branch.
   */
  lemma {:induction false} RunKeepsSound(r: Register, steps: seq<Step>)
    requires Sound(r) && forall i | 0 <= i < |steps| :: Honest(Run(r, steps[..i]), steps[i])
    ensures Sound(Run(r, steps)) && AllForward(r, Run(r, steps))
    ensures forall d | 0 <= d < |Run(r, steps).declarations| :: Partitioned(Run(r, steps), d)
  {
    if steps != [] {
      var init := steps[..|steps| - 1];
      assert forall i | 0 <= i < |init| :: init[..i] == steps[..i];
      RunKeepsSound(r, init);
      NextKeepsSound(Run(r, init), steps[|steps| - 1]);
      NextMovesForward(Run(r, init), steps[|steps| - 1]);
    }
    forall d | 0 <= d < |Run(r, steps).declarations| ensures Partitioned(Run(r, steps), d) {
      RegisterPartition(Run(r, steps), d);
    }
  }

  /**
    Approving the same preview again, after any further run and whatever the sources are by then, finds the declaration.
   */
  lemma RetryDeclare(r: Register, q: Approval, candidates: seq<Candidate>, cutoff: nat, ids: nat -> Ref,
                     steps: seq<Step>, now: seq<Candidate>)
    requires Sound(r) && cutoff <= |r.shares.entries| && FreshIds(r, ids, |candidates|)
    requires Declare(r, q, candidates, cutoff, ids).Commit?
    requires var t := Declare(r, q, candidates, cutoff, ids).state;
             forall i | 0 <= i < |steps| :: Honest(Run(t, steps[..i]), steps[i])
    ensures var p := Declare(r, q, candidates, cutoff, ids);
            var u := Run(p.state, steps);
            Declare(u, q, now, 0, ids) == Commit(u, p.value)
  {
    var p := Declare(r, q, candidates, cutoff, ids);
    var u := Run(p.state, steps);
    assert p.state.declarations <= u.declarations by {
      DeclareKeepsSound(r, q, candidates, cutoff, ids);
      RunKeepsSound(p.state, steps);
    }
    DeclaredFound(r, q, candidates, cutoff, ids);
    FirstStable(p.state.declarations, u.declarations, OfYear(q.branch, q.year));
    DeclareAgain(u, q, now, ids, p.value);
  }

  lemma DeclaredFound(r: Register, q: Approval, candidates: seq<Candidate>, cutoff: nat, ids: nat -> Ref)
    requires cutoff <= |r.shares.entries| && Declare(r, q, candidates, cutoff, ids).Commit?
    ensures var p := Declare(r, q, candidates, cutoff, ids);
            First(p.state.declarations, OfYear(q.branch, q.year)) == Some(p.value) &&
            p.state.declarations[p.value].preview == q.reviewed && Requested(q)
  {
    var p := Declare(r, q, candidates, cutoff, ids);
    if p.state != r {
      FirstAppend(r.declarations, p.state.declarations[|r.declarations|], OfYear(q.branch, q.year));
    }
  }

  lemma DeclareAgain(u: Register, q: Approval, now: seq<Candidate>, ids: nat -> Ref, id: nat)
    requires Requested(q) && First(u.declarations, OfYear(q.branch, q.year)) == Some(id) &&
             u.declarations[id].preview == q.reviewed
    ensures Declare(u, q, now, 0, ids) == Commit(u, id)
  {
  }

  /** Settling again with the same evidence, at any later time and after any further run, changes nothing. */
  lemma RetrySettle(r: Register, a: nat, branch: nat, voucher: string, date: Option<nat>, today: nat, steps: seq<Step>,
                    later: nat)
    requires Sound(r) && today <= later && Settle(r, a, branch, voucher, date, today).Commit?
    requires var t := Settle(r, a, branch, voucher, date, today).state;
             forall i | 0 <= i < |steps| :: Honest(Run(t, steps[..i]), steps[i])
    ensures var u := Run(Settle(r, a, branch, voucher, date, today).state, steps);
            Settle(u, a, branch, voucher, date, later) == Commit(u, ())
  {
    var t := Settle(r, a, branch, voucher, date, today).state;
    SettleKeepsSound(r, a, branch, voucher, date, today);
    RunKeepsSound(t, steps);
    SettledNow(r, a, branch, voucher, date, today);
    SettledLater(t, Run(t, steps), a, branch, voucher, date, today, later);
  }

  lemma SettledNow(r: Register, a: nat, branch: nat, voucher: string, date: Option<nat>, today: nat)
    requires Sound(r) && Settle(r, a, branch, voucher, date, today).Commit?
    ensures var t := Settle(r, a, branch, voucher, date, today).state;
            LockError(t, a, branch).None? &&
            var x := t.allocations[a];
            x.settled && x.choice.Some? && EvidenceFits(x, t.declarations[x.declaration], voucher, date, today) &&
            x.voucher == VoucherOf(x, voucher) && x.paid == date
  {
    SettleOutcomes(r, a, branch, voucher, date, today);
    assert SettledRight(r, r.allocations[a]);
    if !r.allocations[a].settled && r.allocations[a].choice == Some(InCash) {
      SettleInCash(r, a, branch, voucher, date, today);
    } else if !r.allocations[a].settled {
      SettleInShares(r, a, branch, voucher, date, today);
    }
  }

  lemma SettledLater(t: Register, u: Register, a: nat, branch: nat, voucher: string, date: Option<nat>, today: nat,
                     later: nat)
    requires AllForward(t, u) && today <= later && LockError(t, a, branch).None?
    requires var x := t.allocations[a];
             x.settled && x.choice.Some? && EvidenceFits(x, t.declarations[x.declaration], voucher, date, today) &&
             x.voucher == VoucherOf(x, voucher) && x.paid == date
    ensures Settle(u, a, branch, voucher, date, later) == Commit(u, ())
  {
    assert Forward(t.allocations[a], u.allocations[a]);
  }

  /**
    An unsettled share choice can always be settled, even on a dormant, frozen or closed account, and adds its amount to
    the balance.
   */
  lemma SharesSettleAlways(r: Register, a: nat, branch: nat, today: nat)
    requires Sound(r) && Stored(r.shares) && LockError(r, a, branch).None?
    requires var x := r.allocations[a];
             !x.settled && x.choice == Some(InShares) && x.account.Some? && x.account.value in r.shares.accounts &&
             OwnedBy(r.shares.accounts[x.account.value], Some(Owner(x.member, branch)))
    ensures var p, account := Settle(r, a, branch, "", None, today), r.allocations[a].account.value;
            p.Commit? && Balance(p.state.shares.entries, account) ==
              Balance(r.shares.entries, account) + 100 * r.allocations[a].amount
  {
    var x := r.allocations[a];
    assert SettledRight(r, x);
    FirstNone(r.shares.entries, SameReference(x.account.value, x.id, Dividend));
    BalanceNonNegative(r.shares.entries, x.account.value);
    ColumnOfTicks(100 * x.amount);
    var balance := Balance(r.shares.entries, x.account.value);
    ColumnOfTicks(balance + 100 * x.amount);
    assert Nanos(balance) + Cents(x.amount) == Nanos(balance + 100 * x.amount);
    forall i | 0 <= i < |r.allocations| ensures r.allocations[i].posted != Some(|r.shares.entries|) {
      assert SettledRight(r, r.allocations[i]);
      CashOrShares(r.allocations[i]);
    }
  }

  // ----- What is approved, chosen and paid

  /** A dividend is the rate's share of the balance, to the nearest cent and half a cent up. */
  lemma {:induction false} ShareIsRounded(balance: int, rate: int, cents: int)
    ensures cents == Share(balance, rate) <==>
            balance * rate - 50_000_000 < 100_000_000 * cents <= balance * rate + 50_000_000
  {
  }

  predicate NearestCent(balance: int, rate: int, cents: int) {
    balance * rate - 50_000_000 < 100_000_000 * cents <= balance * rate + 50_000_000
  }

  /** A register line gives a member what the rules call for: its share if it qualifies, and else nothing. */
  predicate LineRight(entries: seq<Entry>, c: Candidate, rate: int, line: Draft) {
    && line.member == c.member && line.account == c.account
    && (line.eligible <==>
          c.active && c.accounts == 1 && c.qualified && c.account.Some? && 0 <= Fold(entries, c.account.value))
    && (line.eligible ==> NearestCent(Fold(entries, c.account.value), rate, line.amount))
    && (!line.eligible ==> line.amount == 0)
  }

  lemma {:induction false} LineRightIff(entries: seq<Entry>, c: Candidate, rate: int, line: Draft)
    ensures line == DraftOf(entries, c, rate) <==> LineRight(entries, c, rate, line)
  {
    if c.account.Some? { ShareIsRounded(Fold(entries, c.account.value), rate, line.amount); }
  }

  /** What was reviewed is what the sources give now. */
  predicate ReviewedRight(entries: seq<Entry>, candidates: seq<Candidate>, q: Approval) {
    && q.reviewed.year == q.year && q.reviewed.date == q.date && q.reviewed.rate == q.rate
    && |q.reviewed.drafts| == |candidates|
    && forall i | 0 <= i < |candidates| :: LineRight(entries, candidates[i], q.rate, q.reviewed.drafts[i])
  }

  predicate NothingToResolve(entries: seq<Entry>, candidates: seq<Candidate>) {
    forall i | 0 <= i < |candidates| ::
      candidates[i].accounts <= 1 &&
      (candidates[i].account.Some? ==> 0 <= Fold(entries, candidates[i].account.value))
  }

  lemma {:induction false} ReviewedRightIff(entries: seq<Entry>, candidates: seq<Candidate>, q: Approval)
    ensures q.reviewed == Preview(q.year, q.date, q.rate, Drafts(entries, candidates, q.rate)) <==>
            ReviewedRight(entries, candidates, q)
  {
    forall i | 0 <= i < |candidates| && i < |q.reviewed.drafts|
      ensures q.reviewed.drafts[i] == DraftOf(entries, candidates[i], q.rate) <==>
              LineRight(entries, candidates[i], q.rate, q.reviewed.drafts[i])
    {
      LineRightIff(entries, candidates[i], q.rate, q.reviewed.drafts[i]);
    }
    if ReviewedRight(entries, candidates, q) {
      assert q.reviewed.drafts == Drafts(entries, candidates, q.rate);
    }
  }

  lemma {:induction false} NothingToResolveIff(entries: seq<Entry>, candidates: seq<Candidate>)
    ensures !HasErrors(entries, candidates) <==> NothingToResolve(entries, candidates)
  {
    if NothingToResolve(entries, candidates) {
      forall c | c in candidates ensures 0 <= YearEnd(entries, c) && c.accounts <= 1 {}
    } else {
      var i :| 0 <= i < |candidates| && !(candidates[i].accounts <= 1 &&
        (candidates[i].account.Some? ==> 0 <= Fold(entries, candidates[i].account.value)));
      assert candidates[i] in candidates;
    }
  }

  /** One new allocation for each reviewed line, with what was reviewed and nothing chosen or paid. */
  predicate Allotted(r: Register, t: Register, q: Approval, ids: nat -> Ref) {
    var n := |r.allocations|;
    && |t.allocations| == n + |q.reviewed.drafts| && r.allocations <= t.allocations
    && forall i | 0 <= i < |q.reviewed.drafts| ::
         var line := q.reviewed.drafts[i];
         t.allocations[n + i] == Allocation(ids(i), |r.declarations|, line.member, line.account, line.eligible,
                                            line.amount, None, None, None, None, false)
  }

  /** The sum of a declaration's allocations, once they are saved. */
  lemma {:induction false} SavedSum(r: Register, more: seq<Allocation>, id: nat)
    requires Sound(r) && id == |r.declarations|
    ensures Sums.Of(r.allocations + more, AmountIn(id)) == Sums.Of(more, AmountIn(id))
  {
    Sums.OfConcat(r.allocations, more, AmountIn(id));
    forall i | 0 <= i < |r.allocations| ensures AmountIn(id)(r.allocations[i]) == 0 {
      assert SettledRight(r, r.allocations[i]);
    }
    Sums.OfZero(r.allocations, AmountIn(id));
  }

  /** The declaration just saved: its members' allotments and their sum. */
  predicate DeclaredAs(r: Register, t: Register, q: Approval, ids: nat -> Ref) {
    && t.shares == r.shares && Allotted(r, t, q, ids)
    && t.declarations == r.declarations +
         [Declaration(q.branch, q.reviewed, Sums.Of(t.allocations, AmountIn(|r.declarations|)))]
  }

  lemma {:induction false} DeclaresRight(r: Register, q: Approval, candidates: seq<Candidate>, cutoff: nat,
                                         ids: nat -> Ref, entries: seq<Entry>)
    requires cutoff <= |r.shares.entries| && entries == r.shares.entries[..cutoff] && Sound(r)
    requires First(r.declarations, OfYear(q.branch, q.year)).None? && Declare(r, q, candidates, cutoff, ids).Commit?
    ensures DeclaredAs(r, Declare(r, q, candidates, cutoff, ids).state, q, ids)
  {
    ghost var t := SavedWith(r, q, candidates, cutoff, ids, entries);
    DeclaredTotal(|r.declarations|, q.rate, candidates, entries, ids);
    SavedSum(r, NewAllocations(|r.declarations|, q.reviewed.drafts, ids), |r.declarations|);
    AllottedLines(r, t, q, ids);
  }

  lemma {:induction false} AllottedLines(r: Register, t: Register, q: Approval, ids: nat -> Ref)
    requires t.allocations == r.allocations + NewAllocations(|r.declarations|, q.reviewed.drafts, ids)
    ensures Allotted(r, t, q, ids)
  {
  }

  /** What the two inserts save. */
  lemma {:induction false} SavedWith(r: Register, q: Approval, candidates: seq<Candidate>, cutoff: nat,
                                     ids: nat -> Ref, entries: seq<Entry>) returns (t: Register)
    requires cutoff <= |r.shares.entries| && entries == r.shares.entries[..cutoff]
    requires First(r.declarations, OfYear(q.branch, q.year)).None? && Declare(r, q, candidates, cutoff, ids).Commit?
    ensures t == Declare(r, q, candidates, cutoff, ids).state && t.shares == r.shares
    ensures q.reviewed.drafts == Drafts(entries, candidates, q.rate)
    ensures t.allocations == r.allocations + NewAllocations(|r.declarations|, q.reviewed.drafts, ids)
    ensures t.declarations ==
            r.declarations + [Declaration(q.branch, q.reviewed, Sums.Of(candidates, EligibleShare(entries, q.rate)))]
  {
    t := Declare(r, q, candidates, cutoff, ids).state;
  }

  /**
    A year that its branch has not declared yet is declared exactly when the request is in order, what was reviewed is
    what the ledger and the members give now, and nothing is left to resolve; every member is then allotted its line,
    and the approved total is the sum of them.
   */
  lemma {:induction false} DeclareIff(r: Register, q: Approval, candidates: seq<Candidate>, cutoff: nat,
                                      ids: nat -> Ref)
    requires Sound(r) && cutoff <= |r.shares.entries|
    requires forall d | 0 <= d < |r.declarations| ::
               !(r.declarations[d].branch == q.branch && r.declarations[d].preview.year == q.year)
    ensures var p, entries := Declare(r, q, candidates, cutoff, ids), r.shares.entries[..cutoff];
            (p.Commit? <==>
               q.resolution != "" && |q.resolution| <= 200 && 2000 <= q.year <= 9998 && q.date == q.today &&
               q.year < q.thisYear && 0 < q.rate <= 1_000_000 && ReviewedRight(entries, candidates, q) &&
               NothingToResolve(entries, candidates)) &&
            (p.Commit? ==> p.value == |r.declarations| && DeclaredAs(r, p.state, q, ids))
  {
    var entries := r.shares.entries[..cutoff];
    FirstNone(r.declarations, OfYear(q.branch, q.year));
    ReviewedRightIff(entries, candidates, q);
    NothingToResolveIff(entries, candidates);
    if Declare(r, q, candidates, cutoff, ids).Commit? {
      DeclaresRight(r, q, candidates, cutoff, ids, entries);
    }
  }

  /** The allocation exists in the branch, and there is something to pay. */
  predicate Due(r: Register, a: nat, branch: nat) {
    && a < |r.allocations| && r.allocations[a].declaration < |r.declarations|
    && r.declarations[r.allocations[a].declaration].branch == branch
    && r.allocations[a].eligible && 0 < r.allocations[a].amount
  }

  /**
    A choice is accepted exactly when nothing else was chosen before, and it is the one recorded; nothing else moves.
   */
  lemma {:induction false} ChooseIff(r: Register, a: nat, branch: nat, choice: Choice)
    requires Sound(r)
    ensures var p := Choose(r, a, branch, choice);
            (p.Commit? <==> Due(r, a, branch) && r.allocations[a].choice in {None, Some(choice)}) &&
            (p.Commit? ==> |p.state.allocations| == |r.allocations| && p.state.allocations[a].choice == Some(choice) &&
                           p.state == r.(allocations := r.allocations[a := r.allocations[a].(choice := Some(choice))]))
  {
    if a < |r.allocations| { assert SettledRight(r, r.allocations[a]); }
  }

  /**
    A cash payment in order: a voucher that no payment of the branch has yet, dated from the declaration until today.
   */
  predicate PayableInCash(r: Register, a: nat, branch: nat, voucher: string, date: Option<nat>, today: nat)
    requires Due(r, a, branch)
  {
    && voucher != "" && |voucher| <= 200 && date.Some?
    && r.declarations[r.allocations[a].declaration].preview.date <= date.value <= today
    && forall i | 0 <= i < |r.allocations| && r.allocations[i].voucher == Some(voucher) ::
         !(r.allocations[i].declaration < |r.declarations| &&
           r.declarations[r.allocations[i].declaration].branch == branch)
  }

  /**
    An unsettled dividend chosen in cash is settled exactly with evidence in order, and voucher and date are recorded;
    the share ledger stays as it is.
   */
  lemma {:induction false} SettleInCashIff(r: Register, a: nat, branch: nat, voucher: string, date: Option<nat>,
                                           today: nat)
    requires Sound(r) && Due(r, a, branch) && !r.allocations[a].settled && r.allocations[a].choice == Some(InCash)
    ensures var p := Settle(r, a, branch, voucher, date, today);
            (p.Commit? <==> PayableInCash(r, a, branch, voucher, date, today)) &&
            (p.Commit? ==>
               p.state == r.(allocations :=
                             r.allocations[a := r.allocations[a].(voucher := Some(voucher), paid := date,
                                                                  settled := true)]))
  {
    assert SettledRight(r, r.allocations[a]);
  }

  /**
    An unsettled dividend chosen in shares is settled exactly when no evidence of a cash payment comes with it and its
    account is the member's; its account gains exactly its amount, under its own id, and that entry is recorded.
   */
  lemma {:induction false} SettleInSharesIff(r: Register, a: nat, branch: nat, voucher: string, date: Option<nat>,
                                             today: nat)
    requires Sound(r) && Stored(r.shares) && Due(r, a, branch) && !r.allocations[a].settled
    requires r.allocations[a].choice == Some(InShares)
    ensures var p, x, n := Settle(r, a, branch, voucher, date, today), r.allocations[a], |r.shares.entries|;
            (p.Commit? <==>
               voucher == "" && date.None? && x.account.Some? && x.account.value in r.shares.accounts &&
               r.shares.accounts[x.account.value].member == x.member &&
               r.shares.accounts[x.account.value].branch == branch) &&
            (p.Commit? ==>
               |p.state.shares.entries| == n + 1 &&
               p.state == SetAllocation(r.(shares := p.state.shares), a, x.(posted := Some(n), settled := true)) &&
               p.state.shares == r.shares.(entries := r.shares.entries + [p.state.shares.entries[n]]) &&
               p.state.shares.entries[n].account == x.account.value && IsPosting(x)(p.state.shares.entries[n]) &&
               p.state.shares.entries[n].amount == 100 * x.amount)
  {
    var x := r.allocations[a];
    if voucher == "" && date.None? && x.account.Some? && x.account.value in r.shares.accounts &&
      OwnedBy(r.shares.accounts[x.account.value], Some(Owner(x.member, branch))) {
      SharesSettleAlways(r, a, branch, today);
    }
    if Settle(r, a, branch, voucher, date, today).Commit? {
      SettleInShares(r, a, branch, voucher, date, today);
      FirstNone(r.shares.entries, SameReference(x.account.value, x.id, Dividend));
      assert SettledRight(r, x);
      DividendPosts(r.shares, x.account.value, x.amount, x.id, Some(Owner(x.member, branch)));
    }
  }

  /** Without a choice nothing is settled; what was settled stays, whatever is sent. */
  lemma {:induction false} SettledOnce(r: Register, a: nat, branch: nat, voucher: string, date: Option<nat>,
                                       today: nat)
    requires a < |r.allocations| && (r.allocations[a].choice.None? || r.allocations[a].settled)
    ensures Settle(r, a, branch, voucher, date, today).After(r) == r
    ensures r.allocations[a].choice.None? ==> Settle(r, a, branch, voucher, date, today).Abort?
  {
  }

  // ----- The service over its tables

  class DividendDesk {
    const book: ShareBook
    var declarations: seq<Declaration>
    var allocations: seq<Allocation>

    constructor (book: ShareBook)
      ensures this.book == book && State() == Register(book.State(), [], [])
    {
      this.book := book;
      declarations, allocations := [], [];
    }

    ghost function State(): Register
      reads this, book
    {
      Register(book.State(), declarations, allocations)
    }

    method LockAllocation(a: nat, branch: nat) returns (e: Option<Error>)
      ensures e == LockError(State(), a, branch)
    {
      if a >= |allocations| { return Some(AllocationNotFound); }
      var x := allocations[a];
      if x.declaration >= |declarations| || declarations[x.declaration].branch != branch {
        return Some(AllocationNotFound);
      }
      e := if !x.eligible || x.amount <= 0 then Some(NoPayableDividend) else None;
    }

    /** ApproveDividends, once the preview has been built again from the same sources. */
    method ApproveDividends(q: Approval, candidates: seq<Candidate>, cutoff: nat, ids: nat -> Ref)
      returns (r: Outcome<nat>)
      requires cutoff <= |book.entries|
      modifies this`declarations, this`allocations
      ensures State() == Declare(old(State()), q, candidates, cutoff, ids).After(old(State()))
      ensures r == Declare(old(State()), q, candidates, cutoff, ids).Result()
    {
      if !Requested(q) { return Failed(InvalidArgument); }
      var existing := First(declarations, OfYear(q.branch, q.year));
      if existing.Some? {
        return if declarations[existing.value].preview != q.reviewed then Failed(AlreadyDeclared)
          else Ok(existing.value);
      }
      if !Declarable(q) { return Failed(InvalidArgument); }
      var entries := book.entries[..cutoff];
      var built := Preview(q.year, q.date, q.rate, Drafts(entries, candidates, q.rate));
      if built != q.reviewed { return Failed(SourcesChanged); }
      if HasErrors(entries, candidates) { return Failed(RegisterHasErrors); }
      var total := Sums.Of(candidates, EligibleShare(entries, q.rate));
      r := Ok(|declarations|);
      allocations := allocations + NewAllocations(|declarations|, q.reviewed.drafts, ids);
      declarations := declarations + [Declaration(q.branch, q.reviewed, total)];
    }

    /** settleDividend with a choice. */
    method RecordChoice(a: nat, branch: nat, choice: Choice) returns (e: Option<Error>)
      modifies this`allocations
      ensures var p := Choose(old(State()), a, branch, choice);
              State() == p.After(old(State())) && e == (if p.Abort? then Some(p.error) else None)
    {
      e := LockAllocation(a, branch);
      if e.Some? { return; }
      var x := allocations[a];
      if x.choice.Some? && x.choice.value != choice { return Some(ChoiceAlreadyRecorded); }
      if x.choice.None? && !x.settled {
        allocations := allocations[a := x.(choice := Some(choice))];
      }
    }

    /** The unique index on a branch's vouchers. */
    method FindVoucher(branch: nat, voucher: string) returns (taken: bool)
      ensures taken == VoucherTaken(State(), branch, Some(voucher))
    {
      for i := 0 to |allocations|
        invariant forall k | 0 <= k < i ::
                  !(allocations[k].voucher == Some(voucher) && InBranch(State(), allocations[k], branch))
      {
        var x := allocations[i];
        if x.voucher == Some(voucher) && x.declaration < |declarations| &&
          declarations[x.declaration].branch == branch {
          return true;
        }
      }
      taken := false;
    }

    /** The unique index on posted ledger entries. */
    method FindPosted(entry: nat) returns (taken: bool)
      ensures taken == exists i :: 0 <= i < |allocations| && allocations[i].posted == Some(entry)
    {
      for i := 0 to |allocations|
        invariant forall k | 0 <= k < i :: allocations[k].posted != Some(entry)
      {
        if allocations[i].posted == Some(entry) { return true; }
      }
      taken := false;
    }

    /** settleDividend without a choice: one transaction over the allocation and the share ledger. */
    method SettleAllocation(a: nat, branch: nat, voucher: string, date: Option<nat>, today: nat)
      returns (e: Option<Error>)
      modifies this`allocations, book
      ensures var p := Settle(old(State()), a, branch, voucher, date, today);
              State() == p.After(old(State())) && e == (if p.Abort? then Some(p.error) else None)
    {
      e := LockAllocation(a, branch);
      if e.Some? { return; }
      var x := allocations[a];
      if x.choice.None? { return Some(ChoiceMissing); }
      if !EvidenceFits(x, declarations[x.declaration], voucher, date, today) { return Some(EvidenceInvalid); }
      if x.settled {
        return if x.voucher != VoucherOf(x, voucher) || x.paid != date then Some(SettledWithOtherEvidence) else None;
      }
      if x.choice.value.InShares? {
        if x.account.None? { return Some(AccountNotFound); }
        var saved := book.Save();
        var posted := book.PostTransaction(x.account.value, Dividend, Cents(x.amount), x.id,
                                           Some(Owner(x.member, branch)));
        if posted.Failed? { return Some(posted.error); }
        var used := FindPosted(posted.value);
        if used {
          book.Restore(saved);
          return Some(ConstraintViolation);
        }
        allocations := allocations[a :=
                                   x.(posted := Some(posted.value), paid := date, voucher := None, settled := true)];
        return None;
      }
      var taken := FindVoucher(branch, voucher);
      if taken { return Some(VoucherUsed); }
      allocations := allocations[a := x.(voucher := Some(voucher), paid := date, posted := None, settled := true)];
    }
  }
}
