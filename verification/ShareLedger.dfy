/**
  Share accounts and their append-only ledger (internal/share/service.go). Amounts arrive
  in nanos; rows hold ticks, because the money columns are NUMERIC(19,4).
 */
module ShareLedger {
  import opened Common
  import opened Decimals
  import Sums

  datatype AccountStatus = AccountActive | AccountDormant | AccountFrozen | AccountClosed

  datatype Account = Account(member: Id, branch: nat, status: AccountStatus)

  datatype Kind = Purchase | Withdrawal | Dividend | Reversal | Adjustment

  datatype Entry = Entry(account: Id, kind: Kind, amount: int, balanceAfter: int, reference: Ref,
                         reversalOf: Option<nat>)

  datatype AdjustmentStatus = AdjustmentPending | AdjustmentApproved | AdjustmentRejected

  datatype AdjustmentRow = AdjustmentRow(account: Id, amount: int, reference: Ref, status: AdjustmentStatus,
                                         posted: Option<nat>)

  datatype PledgeKey = PledgeKey(account: Id, loan: nat)

  datatype Role = ApplicantSecurity | GuarantorSecurity

  datatype PledgeStatus = PledgePending | PledgeActive | PledgeReleased | PledgeCancelled

  datatype Pledge = Pledge(amount: int, role: Role, status: PledgeStatus)

  /** The tables of the shares package. */
  datatype Shares = Shares(
    accounts: map<Id, Account>,
    byMember: map<Id, Id>,
    entries: seq<Entry>,
    adjustments: seq<AdjustmentRow>,
    pledges: map<PledgeKey, Pledge>)

  /** The account owner a contribution posting insists on. */
  datatype Owner = Owner(member: Id, branch: nat)

  predicate OwnedBy(account: Account, owner: Option<Owner>) {
    owner.Some? ==> account.member == owner.value.member && account.branch == owner.value.branch
  }

  // ----- Reading the ledger

  /** The latest balance_after on an account, zero before its first entry. */
  function Balance(entries: seq<Entry>, account: Id): int {
    if entries == [] then 0
    else
      var last := entries[|entries| - 1];
      if last.account == account then last.balanceAfter else Balance(entries[..|entries| - 1], account)
  }

  /** The effect of an entry: withdrawals are stored unsigned, everything else signed. */
  function Effect(e: Entry): int { if e.kind == Withdrawal then -e.amount else e.amount }

  function EffectOn(account: Id): Entry -> int { (e: Entry) => if e.account == account then Effect(e) else 0 }

  /** The balance as the simple fold of signed entries. */
  function Fold(entries: seq<Entry>, account: Id): int { Sums.Of(entries, EffectOn(account)) }

  function SameReference(account: Id, reference: Ref, kind: Kind): Entry -> bool {
    (e: Entry) => e.account == account && e.reference == reference && e.kind == kind
  }

  function Reverses(id: nat): Entry -> bool { (e: Entry) => e.reversalOf == Some(id) }

  function AdjustmentReference(account: Id, reference: Ref): AdjustmentRow -> bool {
    (a: AdjustmentRow) => a.account == account && a.reference == reference
  }

  function ActiveOn(account: Id): (PledgeKey, Pledge) -> int {
    (k: PledgeKey, p: Pledge) => if k.account == account && p.status == PledgeActive then p.amount else 0
  }

  /** GetActivePledgedAmount. */
  ghost function Pledged(s: Shares, account: Id): int { Sums.Over(s.pledges, ActiveOn(account)) }

  // ----- Transactions

  /** InsertShareTransaction: ON CONFLICT DO NOTHING (then read by reference), and the CHECKs of the table. */
  function Insert(s: Shares, e: Entry): Tx<Shares, nat> {
    var existing := First(s.entries, SameReference(e.account, e.reference, e.kind));
    if existing.Some? then Commit(s, existing.value)
    else if e.balanceAfter < 0 || (e.amount <= 0 && e.kind != Reversal && e.kind != Adjustment)
    then Abort(ConstraintViolation)
    else Commit(s.(entries := s.entries + [e]), |s.entries|)
  }

  /** postTransactionInTx for purchases, withdrawals and dividends; the result is the entry's id. */
  ghost function Post(s: Shares, account: Id, kind: Kind, nanos: int, reference: Ref,
                      owner: Option<Owner>): Tx<Shares, nat>
    requires kind.Purchase? || kind.Withdrawal? || kind.Dividend?
  {
    if account !in s.accounts || !OwnedBy(s.accounts[account], owner) then Abort(AccountNotFound)
    else
      var existing := First(s.entries, SameReference(account, reference, kind));
      if existing.Some? then
        if Nanos(s.entries[existing.value].amount) != nanos then Abort(DuplicateReference)
          else Commit(s, existing.value)
      else if s.accounts[account].status != AccountActive && kind != Dividend then Abort(AccountNotActive)
      else
        var balance := Nanos(Balance(s.entries, account));
        if kind == Withdrawal && balance - nanos < Nanos(Pledged(s, account)) then Abort(InsufficientBalance)
        else
          var after := if kind == Withdrawal then balance - nanos else balance + nanos;
          Insert(s, Entry(account, kind, Column(nanos), Column(after), reference, None))
  }

  /** balance_after, as the column stores it. */
  function After(balance: int, kind: Kind, nanos: int): int {
    Column(if kind == Withdrawal then Nanos(balance) - nanos else Nanos(balance) + nanos)
  }

  /** The guards a new entry passes: account, owner, fresh reference, status, pledges, and the CHECKs of the table. */
  ghost predicate Accepts(s: Shares, account: Id, kind: Kind, nanos: int, reference: Ref, owner: Option<Owner>) {
    && account in s.accounts && OwnedBy(s.accounts[account], owner)
    && First(s.entries, SameReference(account, reference, kind)).None?
    && (s.accounts[account].status == AccountActive || kind == Dividend)
    && (kind == Withdrawal ==> Nanos(Pledged(s, account)) <= Nanos(Balance(s.entries, account)) - nanos)
    && 0 < Column(nanos) && 0 <= After(Balance(s.entries, account), kind, nanos)
  }

  /** Under a fresh reference a posting succeeds exactly when it passes the guards, and then appends this entry. */
  lemma {:induction false} AcceptsIff(s: Shares, account: Id, kind: Kind, nanos: int, reference: Ref,
                                      owner: Option<Owner>)
    requires kind.Purchase? || kind.Withdrawal? || kind.Dividend?
    ensures var p := Post(s, account, kind, nanos, reference, owner);
            var e := Entry(account, kind, Column(nanos), After(Balance(s.entries, account), kind, nanos), reference,
                           None);
            (Accepts(s, account, kind, nanos, reference, owner) <==>
               p.Commit? && First(s.entries, SameReference(account, reference, kind)).None?) &&
            (Accepts(s, account, kind, nanos, reference, owner) ==>
             p == Commit(s.(entries := s.entries + [e]), |s.entries|)) &&
            (!Accepts(s, account, kind, nanos, reference, owner) ==> p.After(s) == s)
  {
  }

  /** OpenShareAccount, for a member already known to be active in the branch. */
  function OpenAccount(s: Shares, account: Id, owner: Owner): Tx<Shares, Id> {
    if owner.member in s.byMember then Abort(AccountAlreadyExists)
    else if account in s.accounts then Abort(ConstraintViolation)
    else Commit(s.(accounts := s.accounts[account := Account(owner.member, owner.branch, AccountActive)],
                   byMember := s.byMember[owner.member := account]), account)
  }

  /** A member opens one account, which is active and its own; every other account stays as it is. */
  lemma {:induction false} OpenAccountIff(s: Shares, account: Id, owner: Owner)
    ensures var p := OpenAccount(s, account, owner);
            (p.Commit? <==> owner.member !in s.byMember && account !in s.accounts) &&
            (p.Commit? ==>
               p.value == account && p.state.accounts.Keys == s.accounts.Keys + {account} &&
               p.state.accounts[account] == Account(owner.member, owner.branch, AccountActive) &&
               (forall a | a in s.accounts :: p.state.accounts[a] == s.accounts[a]) &&
               (forall m :: m in p.state.byMember <==> m in s.byMember || m == owner.member) &&
               p.state.byMember[owner.member] == account &&
               p.state == s.(accounts := p.state.accounts, byMember := p.state.byMember))
  {
  }

  /** CreateAdjustment: a pending correction that does not touch the ledger. */
  function CreateAdjustment(s: Shares, account: Id, nanos: int, reference: Ref): Tx<Shares, nat> {
    if account !in s.accounts then Abort(AccountNotFound)
    else if s.accounts[account].status != AccountActive then Abort(AccountNotActive)
    else if nanos == 0 then Abort(InsufficientBalance)
    else
      var existing := First(s.adjustments, AdjustmentReference(account, reference));
      if existing.None? then
        Commit(s.(adjustments :=
                  s.adjustments + [AdjustmentRow(account, Column(nanos), reference, AdjustmentPending, None)]),
                    |s.adjustments|)
      else if Nanos(s.adjustments[existing.value].amount) != nanos then Abort(DuplicateReference)
      else Commit(s, existing.value)
  }

  /** ApproveShareAdjustment: posts the correction and records the approval together. */
  ghost function ApproveAdjustment(s: Shares, id: nat): Tx<Shares, nat> {
    if id >= |s.adjustments| then Abort(AdjustmentNotFound)
    else
      var row := s.adjustments[id];
      if row.status == AdjustmentApproved then Commit(s, id)
      else if row.status != AdjustmentPending then Abort(AdjustmentNotPending)
      else if row.account !in s.accounts then Abort(AccountNotFound)
      else if s.accounts[row.account].status != AccountActive then Abort(AccountNotActive)
      else
        var after := Balance(s.entries, row.account) + row.amount;
        if after < Pledged(s, row.account) then Abort(InsufficientBalance)
        else
          var (t, entry) :- Insert(s, Entry(row.account, Adjustment, row.amount, after, row.reference, None));
          Commit(t.(adjustments := t.adjustments[id := row.(status := AdjustmentApproved, posted := Some(entry))]), id)
  }

  /** ReverseShareTransaction. */
  ghost function Reverse(s: Shares, id: nat, reference: Ref): Tx<Shares, nat> {
    if id >= |s.entries| then Abort(TransactionNotFound)
    else
      var original := s.entries[id];
      var earlier := First(s.entries, Reverses(id));
      if original.kind == Reversal then Abort(CannotReverse)
      else if earlier.Some? then Commit(s, earlier.value)
      else if original.account !in s.accounts then Abort(AccountNotFound)
      else if s.accounts[original.account].status != AccountActive then Abort(AccountNotActive)
      else
        var amount := if original.kind == Withdrawal then original.amount else -original.amount;
        var after := Balance(s.entries, original.account) + amount;
        if after < Pledged(s, original.account) then Abort(InsufficientBalance)
        else Insert(s, Entry(original.account, Reversal, amount, after, reference, Some(id)))
  }

  /** The entry that a new reversal inserts. */
  function ReversalEntry(s: Shares, id: nat, reference: Ref): Entry
    requires id < |s.entries|
  {
    var original := s.entries[id];
    var amount := 0 - Effect(original);
    Entry(original.account, Reversal, amount, Balance(s.entries, original.account) + amount, reference, Some(id))
  }

  /** A reversal changes nothing, or it inserts that entry for an original that has no reversal yet. */
  lemma {:induction false} ReverseInserts(s: Shares, id: nat, reference: Ref) returns (t: Shares)
    ensures t == Reverse(s, id, reference).After(s)
    ensures t == s ||
            (id < |s.entries| && s.entries[id].kind != Reversal && First(s.entries, Reverses(id)).None? &&
             Pledged(s, s.entries[id].account) <= ReversalEntry(s, id, reference).balanceAfter &&
             Reverse(s, id, reference) == Insert(s, ReversalEntry(s, id, reference)))
  {
    t := Reverse(s, id, reference).After(s);
  }

  // ----- Invariants of the shares package

  /** The CHECK constraints of share_transactions and share_pledges. */
  ghost predicate Stored(s: Shares) {
    && (forall i | 0 <= i < |s.entries| :: 0 <= s.entries[i].balanceAfter)
    && (forall i | 0 <= i < |s.entries| ::
        s.entries[i].kind in {Purchase, Withdrawal, Dividend} ==> 0 < s.entries[i].amount)
    && (forall k | k in s.pledges :: 0 < s.pledges[k].amount)
  }

  /** No account's active pledges exceed its ledger balance. */
  ghost predicate Backed(s: Shares) {
    forall a: Id :: Pledged(s, a) <= Balance(s.entries, a)
  }

  /** Every balance_after is the balance before it plus the entry's effect. */
  ghost predicate Running(entries: seq<Entry>) {
    entries == [] ||
    (var init, last := entries[..|entries| - 1], entries[|entries| - 1];
     Running(init) && last.balanceAfter == Balance(init, last.account) + Effect(last))
  }

  /** Each entry has at most one reversal, and reversals point back to earlier non-reversals of the account. */
  ghost predicate ReversedOnce(entries: seq<Entry>) {
    && (forall i | 0 <= i < |entries| && entries[i].reversalOf.Some? ::
          entries[i].kind == Reversal && entries[i].reversalOf.value < i
          && entries[entries[i].reversalOf.value].kind != Reversal
          && entries[entries[i].reversalOf.value].account == entries[i].account)
    && (forall i, j | 0 <= i < j < |entries| ::
        entries[i].reversalOf == entries[j].reversalOf ==> entries[i].reversalOf.None?)
  }

  lemma PledgedNonNegative(s: Shares, a: Id)
    requires Stored(s)
    ensures 0 <= Pledged(s, a)
  {
    Sums.OverNonNegative(s.pledges, ActiveOn(a));
  }

  lemma {:induction false} BalanceNonNegative(entries: seq<Entry>, a: Id)
    requires forall i | 0 <= i < |entries| :: 0 <= entries[i].balanceAfter
    ensures 0 <= Balance(entries, a)
  {
    if entries != [] {
      BalanceNonNegative(entries[..|entries| - 1], a);
    }
  }

  lemma Appended(entries: seq<Entry>, e: Entry, a: Id)
    ensures Balance(entries + [e], a) == if e.account == a then e.balanceAfter else Balance(entries, a)
    ensures Fold(entries + [e], a) == Fold(entries, a) + (if e.account == a then Effect(e) else 0)
    ensures Running(entries + [e]) <==> Running(entries) && e.balanceAfter == Balance(entries, e.account) + Effect(e)
  {
    assert (entries + [e])[..|entries|] == entries;
    Sums.OfAppend(entries, e, EffectOn(a));
  }

  /** The running balance is the simple fold, on every account. */
  lemma {:induction false} RunningIsFold(entries: seq<Entry>, a: Id)
    requires Running(entries)
    ensures Balance(entries, a) == Fold(entries, a)
  {
    if entries != [] {
      var init := entries[..|entries| - 1];
      RunningIsFold(init, a);
    }
  }

  lemma AppendKeepsStored(s: Shares, e: Entry)
    requires Stored(s) && 0 <= e.balanceAfter && (e.kind in {Purchase, Withdrawal, Dividend} ==> 0 < e.amount)
    ensures Stored(s.(entries := s.entries + [e]))
  {
  }

  lemma AppendKeepsBacked(s: Shares, e: Entry)
    requires Backed(s) && Pledged(s, e.account) <= e.balanceAfter
    ensures Backed(s.(entries := s.entries + [e]))
  {
    var t := s.(entries := s.entries + [e]);
    forall a: Id ensures Pledged(t, a) <= Balance(t.entries, a) {
      Appended(s.entries, e, a);
      assert Pledged(t, a) == Pledged(s, a);
    }
  }

  /** Inserting a row keeps the accounts backed when the new balance covers the account's pledges. */
  lemma InsertKeeps(s: Shares, e: Entry)
    requires Stored(s) && Backed(s)
    requires Pledged(s, e.account) <= e.balanceAfter
    ensures Insert(s, e).Commit? ==> Stored(Insert(s, e).state) && Backed(Insert(s, e).state)
  {
    var r := Insert(s, e);
    if r.Commit? && r.state != s {
      AppendKeepsStored(s, e);
      AppendKeepsBacked(s, e);
    }
  }

  /** Purchases, withdrawals and dividends never leave pledged shares unbacked, whatever the amount. */
  lemma PostKeepsBacked(s: Shares, account: Id, kind: Kind, nanos: int, reference: Ref, owner: Option<Owner>)
    requires kind.Purchase? || kind.Withdrawal? || kind.Dividend?
    requires Stored(s) && Backed(s)
    ensures var r := Post(s, account, kind, nanos, reference, owner);
            r.Commit? ==> Stored(r.state) && Backed(r.state)
  {
    var r := Post(s, account, kind, nanos, reference, owner);
    if r.Commit? && r.state != s {
      var balance, pledged := Balance(s.entries, account), Pledged(s, account);
      BalanceNonNegative(s.entries, account);
      var after := if kind == Withdrawal then Nanos(balance) - nanos else Nanos(balance) + nanos;
      assert 0 < Column(nanos);
      assert Nanos(pledged) <= after;
      ColumnMonotone(Nanos(pledged), after);
      ColumnOfTicks(pledged);
      InsertKeeps(s, Entry(account, kind, Column(nanos), Column(after), reference, None));
    }
  }

  lemma ApproveAdjustmentKeepsBacked(s: Shares, id: nat)
    requires Stored(s) && Backed(s)
    ensures var r := ApproveAdjustment(s, id);
            r.Commit? ==> Stored(r.state) && Backed(r.state)
  {
    var r := ApproveAdjustment(s, id);
    if r.Commit? && r.state != s {
      var row := s.adjustments[id];
      var e := Entry(row.account, Adjustment, row.amount, Balance(s.entries, row.account) + row.amount, row.reference,
                     None);
      InsertKeeps(s, e);
      var t := Insert(s, e).state;
      assert forall a: Id :: Pledged(r.state, a) == Pledged(t, a);
    }
  }

  lemma {:induction false} ReverseKeepsBacked(s: Shares, id: nat, reference: Ref)
    requires Stored(s) && Backed(s)
    ensures var r := Reverse(s, id, reference);
            r.Commit? ==> Stored(r.state) && Backed(r.state)
  {
    ghost var t := ReverseInserts(s, id, reference);
    if t != s { InsertKeeps(s, ReversalEntry(s, id, reference)); }
  }

  // ----- The running balance

  /** A withdrawal under a fresh reference that will be accepted, and discards exactly half a tick. */
  ghost predicate LosesHalfTick(s: Shares, account: Id, kind: Kind, nanos: int, reference: Ref, owner: Option<Owner>) {
    kind == Withdrawal && nanos % TICK == HALF && Accepts(s, account, kind, nanos, reference, owner)
  }

  /**
    A posting keeps the running balance exact, except a new withdrawal that discards exactly half a tick: the
    amount and the balance after it are rounded in opposite directions.
   */
  lemma {:induction false} PostKeepsRunningIff(s: Shares, account: Id, kind: Kind, nanos: int, reference: Ref,
                                               owner: Option<Owner>)
    requires kind.Purchase? || kind.Withdrawal? || kind.Dividend?
    requires Stored(s) && Backed(s) && Running(s.entries)
    ensures Running(Post(s, account, kind, nanos, reference, owner).After(s).entries) <==>
            !LosesHalfTick(s, account, kind, nanos, reference, owner)
  {
    AcceptsIff(s, account, kind, nanos, reference, owner);
    if Accepts(s, account, kind, nanos, reference, owner) {
      var balance := Balance(s.entries, account);
      assert 0 <= balance by { BalanceNonNegative(s.entries, account); }
      assert 0 <= Pledged(s, account) by { PledgedNonNegative(s, account); }
      PostedRunning(s.entries, kind, nanos,
                    Entry(account, kind, Column(nanos), After(balance, kind, nanos), reference, None));
    }
  }

  lemma PostedRunning(entries: seq<Entry>, kind: Kind, nanos: int, e: Entry)
    requires Running(entries) && 0 <= nanos && e.kind == kind != Reversal
    requires 0 <= Balance(entries, e.account) && (kind == Withdrawal ==> nanos <= Nanos(Balance(entries, e.account)))
    requires e.amount == Column(nanos) && e.balanceAfter == After(Balance(entries, e.account), kind, nanos)
    ensures Running(entries + [e]) <==> (kind != Withdrawal || nanos % TICK != HALF)
  {
    Appended(entries, e, e.account);
    if kind == Withdrawal {
      ColumnOfDifference(Balance(entries, e.account), nanos);
    } else {
      ColumnOfSum(Balance(entries, e.account), nanos);
    }
  }

  /** A withdrawal that breaks it: 0.00005 from a balance of 1.0000 stores 0.0001 and leaves 1.0000. */
  lemma HalfTickWithdrawal()
    ensures var s := Shares(map[7 := Account(1, 1, AccountActive)], map[1 := 7],
                            [Entry(7, Purchase, 10_000, 10_000, "p", None)], [], map[]);
            var r := Post(s, 7, Withdrawal, HALF, "w", None);
            Stored(s) && Backed(s) && Running(s.entries) && r.Commit? &&
            Balance(r.state.entries, 7) == 10_000 && Fold(r.state.entries, 7) == 9_999
  {
    var e := Entry(7, Purchase, 10_000, 10_000, "p", None);
    var s := Shares(map[7 := Account(1, 1, AccountActive)], map[1 := 7], [e], [], map[]);
    assert [e][..0] == [];
    Appended([], e, 7);
    forall a: Id ensures Pledged(s, a) <= Balance(s.entries, a) {
      assert Pledged(s, a) == 0;
    }
    var w := Entry(7, Withdrawal, 1, 10_000, "w", None);
    assert First(s.entries, SameReference(7, "w", Withdrawal)).None?;
    Appended([e], w, 7);
    RunningIsFold([e], 7);
  }

  lemma ApproveAdjustmentKeepsRunning(s: Shares, id: nat)
    requires Running(s.entries)
    ensures Running(ApproveAdjustment(s, id).After(s).entries)
  {
    if id < |s.adjustments| {
      var row := s.adjustments[id];
      Appended(s.entries,
               Entry(row.account, Adjustment, row.amount, Balance(s.entries, row.account) + row.amount, row.reference,
                     None), row.account);
    }
  }

  lemma {:induction false} ReverseKeepsRunning(s: Shares, id: nat, reference: Ref)
    requires Running(s.entries)
    ensures Running(Reverse(s, id, reference).After(s).entries)
  {
    ghost var t := ReverseInserts(s, id, reference);
    if t != s {
      var e := ReversalEntry(s, id, reference);
      Appended(s.entries, e, e.account);
    }
  }

  // ----- Reversals

  /** A new reversal cancels exactly the effect of its original, and no other account's. */
  lemma ReversalCancels(s: Shares, id: nat, reference: Ref, a: Id)
    requires Reverse(s, id, reference).Commit?
    requires Reverse(s, id, reference).state != s
    ensures var t := Reverse(s, id, reference).state;
            Fold(t.entries, a) == Fold(s.entries, a) - (if s.entries[id].account == a then Effect(s.entries[id]) else 0)
    ensures First(Reverse(s, id, reference).state.entries, Reverses(id)) == Some(Reverse(s, id, reference).value)
  {
    var original, t := s.entries[id], Reverse(s, id, reference).state;
    var e := t.entries[|s.entries|];
    Appended(s.entries, e, a);
    FirstAppend(s.entries, e, Reverses(id));
  }

  /** The unique index: one entry per account, reference and type. */
  ghost predicate UniqueReferences(entries: seq<Entry>) {
    forall i, j | 0 <= i < j < |entries| ::
      !SameReference(entries[i].account, entries[i].reference, entries[i].kind)(entries[j])
  }

  /** References are unique, and no entry is reversed twice. */
  ghost predicate Journal(entries: seq<Entry>) { UniqueReferences(entries) && ReversedOnce(entries) }

  lemma {:induction false} AppendKeepsJournal(entries: seq<Entry>, e: Entry)
    requires Journal(entries) && First(entries, SameReference(e.account, e.reference, e.kind)).None?
    requires e.reversalOf.Some? ==>
               var id := e.reversalOf.value;
               id < |entries| && First(entries, Reverses(id)).None? && e.kind == Reversal &&
               entries[id].kind != Reversal && entries[id].account == e.account
    ensures Journal(entries + [e])
  {
    FirstNone(entries, SameReference(e.account, e.reference, e.kind));
    if e.reversalOf.Some? { FirstNone(entries, Reverses(e.reversalOf.value)); }
    var t := entries + [e];
    forall i, j | 0 <= i < j < |t| ensures !SameReference(t[i].account, t[i].reference, t[i].kind)(t[j]) {
      if j == |entries| { assert !SameReference(e.account, e.reference, e.kind)(entries[i]); }
    }
  }

  lemma {:induction false} InsertKeepsJournal(s: Shares, e: Entry)
    requires Journal(s.entries)
    requires e.reversalOf.Some? ==>
               var id := e.reversalOf.value;
               id < |s.entries| && First(s.entries, Reverses(id)).None? && e.kind == Reversal &&
               s.entries[id].kind != Reversal
               && s.entries[id].account == e.account
    ensures Journal(Insert(s, e).After(s).entries)
  {
    if First(s.entries, SameReference(e.account, e.reference, e.kind)).None? { AppendKeepsJournal(s.entries, e); }
  }

  lemma {:induction false} PostKeepsJournal(s: Shares, account: Id, kind: Kind, nanos: int, reference: Ref,
                                            owner: Option<Owner>)
    requires kind.Purchase? || kind.Withdrawal? || kind.Dividend?
    requires Journal(s.entries)
    ensures Journal(Post(s, account, kind, nanos, reference, owner).After(s).entries)
  {
    AcceptsIff(s, account, kind, nanos, reference, owner);
    InsertKeepsJournal(s,
                       Entry(account, kind, Column(nanos), After(Balance(s.entries, account), kind, nanos), reference,
                             None));
  }

  lemma {:induction false} ApproveAdjustmentKeepsJournal(s: Shares, id: nat)
    requires Journal(s.entries)
    ensures Journal(ApproveAdjustment(s, id).After(s).entries)
  {
    if id < |s.adjustments| {
      var row := s.adjustments[id];
      InsertKeepsJournal(s,
                         Entry(row.account, Adjustment, row.amount, Balance(s.entries, row.account) + row.amount,
                               row.reference, None));
    }
  }

  lemma {:induction false} ReverseKeepsJournal(s: Shares, id: nat, reference: Ref)
    requires Journal(s.entries)
    ensures Journal(Reverse(s, id, reference).After(s).entries)
  {
    ghost var t := ReverseInserts(s, id, reference);
    if t != s { InsertKeepsJournal(s, ReversalEntry(s, id, reference)); }
  }

  /**
    When the reversal of an unreversed entry reports success, the entry really has been reversed
    exactly when the caller's reference had not been used for another reversal on the account.
   */
  lemma ReverseReportsTruthIff(s: Shares, id: nat, reference: Ref)
    requires id < |s.entries| && First(s.entries, Reverses(id)).None?
    requires Reverse(s, id, reference).Commit?
    ensures First(Reverse(s, id, reference).state.entries, Reverses(id)).Some? <==>
            First(s.entries, SameReference(s.entries[id].account, reference, Reversal)).None?
  {
    var t := Reverse(s, id, reference).state;
    if t != s {
      FirstAppend(s.entries, t.entries[|s.entries|], Reverses(id));
    }
  }

  /** Reversing two entries under one reference: the second call succeeds and reverses nothing. */
  lemma ReusedReversalReference()
    ensures var p, q := Entry(7, Purchase, 5, 5, "p", None), Entry(7, Purchase, 3, 8, "q", None);
            var s := Shares(map[7 := Account(1, 1, AccountActive)], map[1 := 7], [p, q], [], map[]);
            var one := Reverse(s, 0, "r");
            one.Commit? && one.value == 2 &&
            (var two := Reverse(one.state, 1, "r");
             two.Commit? && two.value == 2 && two.state == one.state && First(two.state.entries, Reverses(1)).None?)
  {
    var p, q := Entry(7, Purchase, 5, 5, "p", None), Entry(7, Purchase, 3, 8, "q", None);
    var s := Shares(map[7 := Account(1, 1, AccountActive)], map[1 := 7], [p, q], [], map[]);
    var e := Entry(7, Reversal, -5, 3, "r", Some(0));
    FirstNone(s.entries, Reverses(0));
    FirstNone(s.entries, SameReference(7, "r", Reversal));
    assert Pledged(s, 7) == 0;
    assert Balance(s.entries, 7) == 8;
    assert Reverse(s, 0, "r") == Commit(s.(entries := [p, q, e]), 2) by {
      assert [p, q] + [e] == [p, q, e];
    }
    var one := s.(entries := [p, q, e]);
    FirstNone(one.entries, Reverses(1));
    FirstAppend(s.entries, e, SameReference(7, "r", Reversal));
    assert one.entries == s.entries + [e];
    assert Balance(one.entries, 7) == 3 && Pledged(one, 7) == 0;
  }

  /**
    An unreversed entry is reversed under a fresh reference exactly when its account is active and can give the
    amount back; then one opposite entry is appended and nothing else changes.
   */
  lemma {:induction false} ReverseIff(s: Shares, id: nat, reference: Ref)
    requires id < |s.entries| && First(s.entries, Reverses(id)).None?
    requires First(s.entries, SameReference(s.entries[id].account, reference, Reversal)).None?
    ensures var e, after := s.entries[id], Balance(s.entries, s.entries[id].account) - Effect(s.entries[id]);
            (Reverse(s, id, reference).Commit? <==>
               e.kind != Reversal && e.account in s.accounts && s.accounts[e.account].status == AccountActive &&
               Pledged(s, e.account) <= after && 0 <= after) &&
            (Reverse(s, id, reference).Commit? ==>
               Reverse(s, id, reference) ==
               Commit(s.(entries :=
                         s.entries + [Entry(e.account, Reversal, 0 - Effect(e), after, reference, Some(id))]),
                      |s.entries|))
  {
    assert s.entries[id].kind == Withdrawal ==> Effect(s.entries[id]) == 0 - s.entries[id].amount;
  }

  // ----- Adjustments

  /** A new adjustment request waits, with the rounded amount, and posts nothing; it needs an active account. */
  lemma {:induction false} CreateAdjustmentIff(s: Shares, account: Id, nanos: int, reference: Ref)
    requires First(s.adjustments, AdjustmentReference(account, reference)).None?
    ensures var r := CreateAdjustment(s, account, nanos, reference);
            (r.Commit? <==> account in s.accounts && s.accounts[account].status == AccountActive && nanos != 0) &&
            (r.Commit? ==>
               r.state.entries == s.entries && r.value == |s.adjustments| &&
               r.state.adjustments ==
               s.adjustments + [AdjustmentRow(account, Column(nanos), reference, AdjustmentPending, None)])
  {
  }

  /**
    A pending adjustment under a fresh reference is approved exactly when its account is active and the corrected
    balance covers the account's pledges. Then exactly one entry of its amount and reference is appended, the sum of
    the account's entries changes by exactly that amount, and the row points to the entry.
   */
  lemma {:induction false} ApproveAdjustmentIff(s: Shares, id: nat)
    requires id < |s.adjustments| && s.adjustments[id].status == AdjustmentPending
    requires var row := s.adjustments[id]; First(s.entries, SameReference(row.account, row.reference, Adjustment)).None?
    ensures var row, r := s.adjustments[id], ApproveAdjustment(s, id);
            var after := Balance(s.entries, row.account) + row.amount;
            (r.Commit? <==>
               row.account in s.accounts && s.accounts[row.account].status == AccountActive &&
               Pledged(s, row.account) <= after && 0 <= after) &&
            (r.Commit? ==>
               r.value == id && r.state.accounts == s.accounts && r.state.pledges == s.pledges &&
               r.state.entries ==
               s.entries + [Entry(row.account, Adjustment, row.amount, after, row.reference, None)] &&
               r.state.adjustments ==
               s.adjustments[id := row.(status := AdjustmentApproved, posted := Some(|s.entries|))] &&
               forall a :: Fold(r.state.entries, a) ==
                 Fold(s.entries, a) + (if a == row.account then row.amount else 0))
  {
    var row := s.adjustments[id];
    var e := Entry(row.account, Adjustment, row.amount, Balance(s.entries, row.account) + row.amount, row.reference,
                   None);
    forall a ensures Fold(s.entries + [e], a) == Fold(s.entries, a) + (if a == row.account then row.amount else 0) {
      Appended(s.entries, e, a);
    }
  }

  /** An adjustment is approved once: again it is found, and a rejected one stays rejected. */
  lemma {:induction false} ApproveAdjustmentOnce(s: Shares, id: nat)
    requires id < |s.adjustments| && s.adjustments[id].status != AdjustmentPending
    ensures ApproveAdjustment(s, id) ==
            if s.adjustments[id].status == AdjustmentApproved then Commit(s, id) else Abort(AdjustmentNotPending)
  {
  }

  /** Another adjustment with the same account and reference. */
  predicate SameAdjustment(a: AdjustmentRow, b: AdjustmentRow) { a.account == b.account && a.reference == b.reference }

  /** The entry that an approved adjustment has posted. */
  predicate PostedBy(entries: seq<Entry>, row: AdjustmentRow) {
    row.posted.Some? && row.posted.value < |entries| &&
    var e := entries[row.posted.value];
    e.account == row.account && e.kind == Adjustment && e.amount == row.amount && e.reference == row.reference
  }

  /** The entry is that of an approved adjustment. */
  predicate Authorised(s: Shares, i: nat) {
    exists k :: 0 <= k < |s.adjustments| && s.adjustments[k].posted == Some(i)
  }

  /**
    Adjustments and their entries are in step: each approved adjustment points to an entry of its own, of its account,
    amount and reference; the others have posted nothing; and no entry corrects a balance without one.
   */
  ghost predicate AdjustmentsInStep(s: Shares) {
    && (forall j, k | 0 <= j < k < |s.adjustments| :: !SameAdjustment(s.adjustments[j], s.adjustments[k]))
    && (forall k | 0 <= k < |s.adjustments| ::
          if s.adjustments[k].status == AdjustmentApproved then PostedBy(s.entries, s.adjustments[k])
          else s.adjustments[k].posted.None?)
    && (forall i | 0 <= i < |s.entries| && s.entries[i].kind == Adjustment :: Authorised(s, i))
  }

  lemma {:induction false} AuthorisedBy(s: Shares, i: nat) returns (k: nat)
    requires AdjustmentsInStep(s) && i < |s.entries| && s.entries[i].kind == Adjustment
    ensures k < |s.adjustments| && s.adjustments[k].status == AdjustmentApproved
    ensures s.adjustments[k].account == s.entries[i].account && s.adjustments[k].reference == s.entries[i].reference
  {
    assert Authorised(s, i);
    k :| 0 <= k < |s.adjustments| && s.adjustments[k].posted == Some(i);
    assert s.adjustments[k].status == AdjustmentApproved ==> PostedBy(s.entries, s.adjustments[k]);
  }

  /** While they are in step, the reference of a pending adjustment is always fresh. */
  lemma {:induction false} PendingIsFresh(s: Shares, id: nat)
    requires AdjustmentsInStep(s) && id < |s.adjustments| && s.adjustments[id].status == AdjustmentPending
    ensures var row := s.adjustments[id]; First(s.entries, SameReference(row.account, row.reference, Adjustment)).None?
  {
    var row := s.adjustments[id];
    forall i | 0 <= i < |s.entries| ensures !SameReference(row.account, row.reference, Adjustment)(s.entries[i]) {
      if s.entries[i].kind == Adjustment {
        var k := AuthorisedBy(s, i);
        assert !SameAdjustment(s.adjustments[k], row) by {
          if k < id { assert !SameAdjustment(s.adjustments[k], s.adjustments[id]); }
        }
      }
    }
    FirstNone(s.entries, SameReference(row.account, row.reference, Adjustment));
  }

  lemma {:induction false} ApproveKeepsInStep(s: Shares, id: nat)
    requires AdjustmentsInStep(s)
    ensures AdjustmentsInStep(ApproveAdjustment(s, id).After(s))
  {
    if id < |s.adjustments| && s.adjustments[id].status == AdjustmentPending {
      PendingIsFresh(s, id);
      ApproveAdjustmentIff(s, id);
      if ApproveAdjustment(s, id).Commit? { ApprovedInStep(s, ApproveAdjustment(s, id).state, id); }
    }
  }

  lemma {:induction false} ApprovedInStep(s: Shares, t: Shares, id: nat)
    requires AdjustmentsInStep(s) && id < |s.adjustments| && s.adjustments[id].posted.None?
    requires |t.entries| == |s.entries| + 1 && s.entries <= t.entries
    requires t.adjustments ==
             s.adjustments[id := s.adjustments[id].(status := AdjustmentApproved, posted := Some(|s.entries|))]
    requires PostedBy(t.entries, t.adjustments[id])
    ensures AdjustmentsInStep(t)
  {
    forall j, k | 0 <= j < k < |t.adjustments| ensures !SameAdjustment(t.adjustments[j], t.adjustments[k]) {
      assert !SameAdjustment(s.adjustments[j], s.adjustments[k]);
    }
    forall i | 0 <= i < |t.entries| && t.entries[i].kind == Adjustment ensures Authorised(t, i) {
      if i < |s.entries| {
        assert Authorised(s, i);
        var k :| 0 <= k < |s.adjustments| && s.adjustments[k].posted == Some(i);
        assert t.adjustments[k].posted == Some(i);
      } else {
        assert t.adjustments[id].posted == Some(i);
      }
    }
  }

  /** The ledger may grow by entries of other kinds, and adjustments may be asked for. */
  lemma {:induction false} OthersKeepInStep(s: Shares, t: Shares)
    requires AdjustmentsInStep(s) && s.entries <= t.entries && t.adjustments == s.adjustments
    requires forall i | |s.entries| <= i < |t.entries| :: t.entries[i].kind != Adjustment
    ensures AdjustmentsInStep(t)
  {
    forall i | 0 <= i < |t.entries| && t.entries[i].kind == Adjustment ensures Authorised(t, i) {
      assert Authorised(s, i);
      var k :| 0 <= k < |s.adjustments| && s.adjustments[k].posted == Some(i);
      assert t.adjustments[k].posted == Some(i);
    }
  }

  lemma {:induction false} CreateKeepsInStep(s: Shares, account: Id, nanos: int, reference: Ref)
    requires AdjustmentsInStep(s)
    ensures AdjustmentsInStep(CreateAdjustment(s, account, nanos, reference).After(s))
  {
    var t := CreateAdjustment(s, account, nanos, reference).After(s);
    if t != s {
      FirstNone(s.adjustments, AdjustmentReference(account, reference));
      forall j, k | 0 <= j < k < |t.adjustments| ensures !SameAdjustment(t.adjustments[j], t.adjustments[k]) {
        if k == |s.adjustments| { assert !AdjustmentReference(account, reference)(s.adjustments[j]); }
      }
      forall i | 0 <= i < |t.entries| && t.entries[i].kind == Adjustment ensures Authorised(t, i) {
        assert Authorised(s, i);
        var k :| 0 <= k < |s.adjustments| && s.adjustments[k].posted == Some(i);
        assert t.adjustments[k].posted == Some(i);
      }
    }
  }

  // ----- Retries

  /**
    Repeating an accepted posting in any later state (the ledger only grows, accounts keep their
    owner) returns the original entry and changes nothing, exactly when the amount fits the column.
   */
  lemma RetryPostIff(s: Shares, later: Shares, account: Id, kind: Kind, nanos: int, reference: Ref,
                     owner: Option<Owner>)
    requires kind.Purchase? || kind.Withdrawal? || kind.Dividend?
    requires Post(s, account, kind, nanos, reference, owner).Commit?
    requires Post(s, account, kind, nanos, reference, owner).state.entries <= later.entries
    requires account in later.accounts && OwnedBy(later.accounts[account], owner)
    ensures var i := Post(s, account, kind, nanos, reference, owner).value;
            (Post(later, account, kind, nanos, reference, owner) == Commit(later, i)) <==> (nanos % TICK == 0)
  {
    var r := Post(s, account, kind, nanos, reference, owner);
    PostedAmount(s, account, kind, nanos, reference, owner);
    FirstStable(r.state.entries, later.entries, SameReference(account, reference, kind));
  }

  /** A purchase that fits no column: 0.00015 is stored as 0.0002, and repeating it is refused. */
  lemma {:induction false} RepeatedPurchaseRefused()
    ensures var s := Shares(map[7 := Account(1, 1, AccountActive)], map[1 := 7], [], [], map[]);
            var r := Post(s, 7, Purchase, 150_000, "p", None);
            r.Commit? && r.state.entries == [Entry(7, Purchase, 2, 2, "p", None)] &&
            Post(r.state, 7, Purchase, 150_000, "p", None) == Abort(DuplicateReference)
  {
    var s := Shares(map[7 := Account(1, 1, AccountActive)], map[1 := 7], [], [], map[]);
    var e := Entry(7, Purchase, 2, 2, "p", None);
    assert Post(s, 7, Purchase, 150_000, "p", None) == Commit(s.(entries := [e]), 0) by { assert [] + [e] == [e]; }
    FirstAppend([], e, SameReference(7, "p", Purchase));
    assert [] + [e] == [e];
  }

  /** An accepted posting is found again by its reference, and its row holds the rounded amount. */
  lemma PostedAmount(s: Shares, account: Id, kind: Kind, nanos: int, reference: Ref, owner: Option<Owner>)
    requires kind.Purchase? || kind.Withdrawal? || kind.Dividend?
    requires Post(s, account, kind, nanos, reference, owner).Commit?
    ensures var r := Post(s, account, kind, nanos, reference, owner);
            First(r.state.entries, SameReference(account, reference, kind)) == Some(r.value) &&
            r.state.entries[r.value].amount == Column(nanos) &&
            (Nanos(r.state.entries[r.value].amount) == nanos <==> nanos % TICK == 0)
  {
    var r := Post(s, account, kind, nanos, reference, owner);
    if r.state != s {
      var e := r.state.entries[|s.entries|];
      FirstAppend(s.entries, e, SameReference(account, reference, kind));
      assert 0 < Column(nanos);
      ColumnAgainstTicks(nanos);
    } else {
      var amount := s.entries[r.value].amount;
      ColumnOfTicks(amount);
      assert nanos == amount * TICK;
    }
  }

  // ----- The service, over its tables

  class ShareBook {
    var accounts: map<Id, Account>
    var byMember: map<Id, Id>
    var entries: seq<Entry>
    var adjustments: seq<AdjustmentRow>
    var pledges: map<PledgeKey, Pledge>

    constructor ()
      ensures State() == Shares(map[], map[], [], [], map[])
    {
      accounts, byMember, entries, adjustments, pledges := map[], map[], [], [], map[];
    }

    ghost function State(): Shares
      reads this
    {
      Shares(accounts, byMember, entries, adjustments, pledges)
    }

    /** ROLLBACK (TO SAVEPOINT): put back the tables as they were when `saved` was taken. */
    method Restore(saved: Shares)
      modifies this
      ensures State() == saved
    {
      accounts, byMember, entries, adjustments, pledges :=
        saved.accounts, saved.byMember, saved.entries, saved.adjustments, saved.pledges;
    }

    method Save() returns (saved: Shares)
      ensures saved == State()
    {
      saved := Shares(accounts, byMember, entries, adjustments, pledges);
    }

    method InsertEntry(e: Entry) returns (r: Outcome<nat>)
      modifies this`entries
      ensures State() == Insert(old(State()), e).After(old(State()))
      ensures r == Insert(old(State()), e).Result()
    {
      var existing := First(entries, SameReference(e.account, e.reference, e.kind));
      if existing.Some? { return Ok(existing.value); }
      if e.balanceAfter < 0 || (e.amount <= 0 && e.kind != Reversal && e.kind != Adjustment) {
        return Failed(ConstraintViolation);
      }
      r := Ok(|entries|);
      entries := entries + [e];
    }

    method PostTransaction(account: Id, kind: Kind, nanos: int, reference: Ref, owner: Option<Owner>)
      returns (r: Outcome<nat>)
      requires kind.Purchase? || kind.Withdrawal? || kind.Dividend?
      modifies this`entries
      ensures State() == Post(old(State()), account, kind, nanos, reference, owner).After(old(State()))
      ensures r == Post(old(State()), account, kind, nanos, reference, owner).Result()
    {
      if account !in accounts || !OwnedBy(accounts[account], owner) { return Failed(AccountNotFound); }
      var existing := First(entries, SameReference(account, reference, kind));
      if existing.Some? {
        if Nanos(entries[existing.value].amount) != nanos { return Failed(DuplicateReference); }
        return Ok(existing.value);
      }
      if accounts[account].status != AccountActive && kind != Dividend { return Failed(AccountNotActive); }
      var balance := Nanos(Balance(entries, account));
      if kind == Withdrawal {
        var pledged := Sums.Query(pledges, ActiveOn(account));
        if balance - nanos < Nanos(pledged) { return Failed(InsufficientBalance); }
        balance := balance - nanos;
      } else {
        balance := balance + nanos;
      }
      r := InsertEntry(Entry(account, kind, Column(nanos), Column(balance), reference, None));
    }

    method ApproveShareAdjustment(id: nat) returns (r: Outcome<nat>)
      modifies this`entries, this`adjustments
      ensures State() == ApproveAdjustment(old(State()), id).After(old(State()))
      ensures r == ApproveAdjustment(old(State()), id).Result()
    {
      if id >= |adjustments| { return Failed(AdjustmentNotFound); }
      var row := adjustments[id];
      if row.status == AdjustmentApproved { return Ok(id); }
      if row.status != AdjustmentPending { return Failed(AdjustmentNotPending); }
      if row.account !in accounts { return Failed(AccountNotFound); }
      if accounts[row.account].status != AccountActive { return Failed(AccountNotActive); }
      var pledged := Sums.Query(pledges, ActiveOn(row.account));
      var after := Balance(entries, row.account) + row.amount;
      if after < pledged { return Failed(InsufficientBalance); }
      var posted := InsertEntry(Entry(row.account, Adjustment, row.amount, after, row.reference, None));
      if posted.Failed? { return Failed(posted.error); }
      adjustments := adjustments[id := row.(status := AdjustmentApproved, posted := Some(posted.value))];
      r := Ok(id);
    }

    method ReverseShareTransaction(id: nat, reference: Ref) returns (r: Outcome<nat>)
      modifies this`entries
      ensures State() == Reverse(old(State()), id, reference).After(old(State()))
      ensures r == Reverse(old(State()), id, reference).Result()
    {
      if id >= |entries| { return Failed(TransactionNotFound); }
      var original := entries[id];
      if original.kind == Reversal { return Failed(CannotReverse); }
      var earlier := First(entries, Reverses(id));
      if earlier.Some? { return Ok(earlier.value); }
      if original.account !in accounts { return Failed(AccountNotFound); }
      if accounts[original.account].status != AccountActive { return Failed(AccountNotActive); }
      var amount := original.amount;
      if original.kind != Withdrawal { amount := -amount; }
      var after := Balance(entries, original.account) + amount;
      var pledged := Sums.Query(pledges, ActiveOn(original.account));
      if after < pledged { return Failed(InsufficientBalance); }
      r := InsertEntry(Entry(original.account, Reversal, amount, after, reference, Some(id)));
    }
  }
}
