/** The contribution service over its tables; proved against the transactions of Receipts. */
module ReceiptService {
  import opened Common
  import opened Decimals
  import opened ShareLedger
  import opened LoanAccount
  import opened Lending
  import Credits
  import opened Allocations
  import opened Receipts
  import Sums

  lemma {:induction false} PostRowsOfPrefix(d: Credits.Desk, r: Receipt, rows: seq<AllocationRow>, now: nat,
                                            fault: Option<nat>, i: nat)
    requires i <= |rows| && PostRows(d, r, rows[..i], now, fault).Abort?
    ensures PostRows(d, r, rows, now, fault) == PostRows(d, r, rows[..i], now, fault)
  {
    if i == |rows| {
      assert rows[..i] == rows;
    } else {
      assert rows[..|rows| - 1][..i] == rows[..i];
      PostRowsOfPrefix(d, r, rows[..|rows| - 1], now, fault, i);
    }
  }

  /** The rows so far decide the next turn, and a turn that fails decides the whole loop. */
  lemma PostRowsNext(d: Credits.Desk, r: Receipt, rows: seq<AllocationRow>, now: nat, fault: Option<nat>, i: nat)
    requires i < |rows| && PostRows(d, r, rows[..i], now, fault).Commit?
    ensures var p := PostRows(d, r, rows[..i], now, fault);
            var next := NextRow(p.state, r, rows[i], now, fault == Some(i));
            if next.Commit? then PostRows(d, r, rows[..i + 1], now, fault) == Commit(next.state, p.value + [next.value])
            else PostRows(d, r, rows, now, fault) == Abort(next.error)
  {
    assert rows[..i + 1][..i] == rows[..i];
    if PostRows(d, r, rows[..i + 1], now, fault).Abort? {
      PostRowsOfPrefix(d, r, rows, now, fault, i + 1);
    }
  }

  /** The table when `done` replaces the first rows of a receipt. */
  function PartlyDone(table: seq<Receipt>, id: nat, done: seq<AllocationRow>): seq<Receipt>
    requires id < |table| && |done| <= |table[id].rows|
  {
    table[id := table[id].(rows := done + table[id].rows[|done|..])]
  }

  function SetRow(table: seq<Receipt>, id: nat, i: nat, row: AllocationRow): seq<Receipt>
    requires id < |table| && i < |table[id].rows|
  {
    table[id := table[id].(rows := table[id].rows[i := row])]
  }

  lemma NothingDone(table: seq<Receipt>, id: nat)
    requires id < |table|
    ensures PartlyDone(table, id, []) == table
  {
    assert [] + table[id].rows[0..] == table[id].rows;
  }

  lemma DoneNext(table: seq<Receipt>, id: nat, done: seq<AllocationRow>, row: AllocationRow)
    requires id < |table| && |done| < |table[id].rows|
    ensures SetRow(PartlyDone(table, id, done), id, |done|, row) == PartlyDone(table, id, done + [row])
  {
    assert (done + table[id].rows[|done|..])[|done| := row] == done + [row] + table[id].rows[|done| + 1..];
  }

  lemma {:induction false} ChargeItemsErrorOfPrefix(items: seq<Item>, i: nat)
    requires i <= |items| && ChargeItemsError(items[..i]).Some?
    ensures ChargeItemsError(items) == ChargeItemsError(items[..i])
  {
    if i == |items| {
      assert items[..i] == items;
    } else {
      assert items[..|items| - 1][..i] == items[..i];
      ChargeItemsErrorOfPrefix(items[..|items| - 1], i);
    }
  }

  lemma {:induction false} ChargesDueErrorOfPrefix(c: Coop, member: Id, branch: nat, items: seq<Item>,
                                                   exclude: Option<nat>, i: nat)
    requires i <= |items| && ChargesDueError(c, member, branch, items[..i], exclude).Some?
    ensures ChargesDueError(c, member, branch, items, exclude) ==
            ChargesDueError(c, member, branch, items[..i], exclude)
  {
    if i == |items| {
      assert items[..i] == items;
    } else {
      assert items[..|items| - 1][..i] == items[..i];
      ChargesDueErrorOfPrefix(c, member, branch, items[..|items| - 1], exclude, i);
    }
  }

  class ReceiptDesk {
    const credits: Credits.CreditDesk
    var fees: map<FeeKey, int>
    var charges: seq<Charge>
    var receipts: seq<Receipt>

    constructor (credits: Credits.CreditDesk)
      ensures this.credits == credits && State() == Coop(credits.State(), map[], [], [])
    {
      this.credits := credits;
      fees, charges, receipts := map[], [], [];
    }

    ghost function State(): Coop
      reads this, credits, credits.office, credits.office.book
    {
      Coop(credits.State(), fees, charges, receipts)
    }

    /**
      validateReceipt, then createReceipt for a receipt that is not on file: the receipt row, then its allocations one
      by one.
     */
    method CreateReceipt(n: NewReceipt) returns (r: Outcome<nat>)
      requires |n.ids| == |n.items|
      modifies this`receipts
      ensures State() == Accept(old(State()), n).After(old(State()))
      ensures r == Accept(old(State()), n).Result()
    {
      var e := ValidateReceipt(n);
      if e.Some? { return Failed(e.value); }
      if Column(n.received) <= 0 { return Failed(ConstraintViolation); }
      var rows: seq<AllocationRow> := [];
      for i := 0 to |n.items|
        invariant rows == RowsOf(n.items, n.ids)[..i]
        invariant forall j | 0 <= j < i :: 0 < Column(n.items[j].amount)
      {
        var item := n.items[i];
        if Column(item.amount) <= 0 { return Failed(ConstraintViolation); }
        rows := rows + [AllocationRow(n.ids[i], item.KeyOf(), Column(item.amount), RowPending)];
      }
      assert rows == RowsOf(n.items, n.ids);
      r := Ok(|receipts|);
      receipts := receipts +
        [Receipt(|receipts|, n.member, n.branch, n.period, Column(n.received), n.channel, ReceiptPending, rows)];
    }

    /** monthlyFees: assess, then ask what is still due. */
    method MonthlyFees(member: Id, period: nat, eligible: bool, exclude: Option<nat>) returns (due: seq<Item>)
      modifies this`fees
      ensures State() == old(State()).(fees := AssessFees(old(fees), member, period, eligible))
      ensures due == Outstanding(State(), member, period, exclude)
    {
      fees := AssessFees(fees, member, period, eligible);
      due := [];
      var kinds := [Com, Lgom];
      for i := 0 to 2
        invariant due == if i == 0 then [] else if i == 1 then FeeItem(State(), FeeKey(member, period, Com), exclude)
                         else Outstanding(State(), member, period, exclude)
      {
        var key := FeeKey(member, period, kinds[i]);
        if key in fees {
          var amount := fees[key];
          amount := amount - Sums.Of(receipts, FeePaid(key, exclude));
          if amount > 0 { due := due + [Item(key.kind, None, Nanos(amount))]; }
        }
      }
    }

    /** validateChargeAllocations' loop over the items, collecting the charges they pay. */
    method CollectCharges(items: seq<Item>) returns (e: Option<Error>)
      ensures e == ChargeItemsError(items)
    {
      var targets: set<Option<nat>> := {};
      for i := 0 to |items|
        invariant ChargeItemsError(items[..i]).None?
        invariant forall t :: t in targets <==> First(items[..i], ChargeTarget(t)).Some?
      {
        var item := items[i];
        assert items[..i + 1][..i] == items[..i];
        if IsCharge(item.kind) {
          if item.target.None? || item.amount <= 0 {
            ChargeItemsErrorOfPrefix(items, i + 1);
            return Some(InvalidAllocation);
          }
          if item.target in targets { ChargeItemsErrorOfPrefix(items, i + 1); return Some(DuplicateAllocation); }
          if item.amount % TICK != 0 { ChargeItemsErrorOfPrefix(items, i + 1); return Some(InvalidAllocation); }
          targets := targets + {item.target};
        }
      }
      assert items[..|items|] == items;
      e := None;
    }

    method CompareWithCharge(member: Id, branch: nat, item: Item, exclude: Option<nat>) returns (e: Option<Error>)
      ensures e == ChargeDueError(State(), member, branch, item, exclude)
    {
      if !IsCharge(item.kind) { return None; }
      if item.target.None? || item.target.value >= |charges| { return Some(InvalidCharge); }
      var charge := charges[item.target.value];
      if charge.member != member || charge.branch != branch || charge.penalty != (item.kind == PenaltyCharge) {
        return Some(InvalidCharge);
      }
      var due := charge.amount;
      due := due - Sums.Of(receipts, ChargePaid(item.target.value, exclude));
      e := if Ticks(item.amount) > due then Some(ChargeOverpayment) else None;
    }

    /** validateChargeAllocations: collect the targets, then compare each payment with what its charge still owes. */
    method ValidateChargeAllocations(member: Id, branch: nat, items: seq<Item>, exclude: Option<nat>)
      returns (e: Option<Error>)
      ensures e == ChargeError(State(), member, branch, items, exclude)
    {
      e := CollectCharges(items);
      if e.Some? { return; }
      for i := 0 to |items|
        invariant ChargesDueError(State(), member, branch, items[..i], exclude).None?
      {
        assert items[..i + 1][..i] == items[..i];
        e := CompareWithCharge(member, branch, items[i], exclude);
        if e.Some? {
          ChargesDueErrorOfPrefix(State(), member, branch, items, exclude, i + 1);
          return;
        }
      }
      assert items[..|items|] == items;
      e := None;
    }

    /** validateContributionLoanMinimums: every running loan of the member, including those the items leave out. */
    method ValidateLoanMinimums(member: Id, branch: nat, period: nat, items: seq<Item>) returns (e: Option<Error>)
      ensures e == MinimumsError(credits.State(), member, branch, period, items)
    {
      for i := 0 to |credits.office.loans|
        invariant forall k | 0 <= k < i :: !Underpaid(credits.office.loans[k], k, member, branch, period, items)
      {
        var l := credits.office.loans[i];
        if l.member == member && l.branch == branch && LoanAccount.Payable(l.status) {
          var due := QuoteInstalment(l, period);
          if Sums.Of(items, LoanPart(i)) < due { return Some(InvalidAllocation); }
        }
      }
      e := None;
    }

    /** processAllocation: one posting in the owning ledger. */
    method PostAllocation(r: Receipt, row: AllocationRow, now: nat) returns (e: Option<Error>)
      modifies credits.office`loans, credits.office`credits, credits.office.book`entries, credits.office.book`pledges
      ensures var p := PostRow(old(credits.State()), r, row, now);
              credits.State() == p.After(old(credits.State())) && e == (if p.Abort? then Some(p.error) else None)
    {
      var owner := Some(Owner(r.member, r.branch));
      match row.key.kind
      case SharePurchase =>
        if row.key.target.None? { return Some(AccountNotFound); }
        var posted := credits.office.book.PostTransaction(row.key.target.value, Purchase, Nanos(row.amount), row.id,
                                                          owner);
        e := if posted.Failed? then Some(posted.error) else None;
      case LoanPrincipal =>
        if row.key.target.None? { return Some(LoanNotFound); }
        var posted := credits.office.RecordLoanRepayment(row.key.target.value, Nanos(row.amount), row.id, r.period, now,
                                                         owner);
        e := if posted.Failed? then Some(posted.error) else None;
      case LoanInterest => e := Some(AllocationNotSupported);
      case OverpaymentCredit => e := Some(AllocationNotSupported);
      case _ => e := None;
    }

    /** One turn of the posting loop. */
    method PostNext(r: Receipt, row: AllocationRow, now: nat, faulty: bool) returns (done: Outcome<AllocationRow>)
      modifies credits.office`loans, credits.office`credits, credits.office.book`entries, credits.office.book`pledges
      ensures var p := NextRow(old(credits.State()), r, row, now, faulty);
              credits.State() == p.After(old(credits.State())) && done == p.Result()
    {
      if row.status == RowCompleted { return Ok(row); }
      if row.status != RowPending { return Failed(ReceiptNotProcessable); }
      if faulty { return Failed(Infrastructure); }
      var e := PostAllocation(r, row, now);
      done := if e.Some? then Failed(e.value) else Ok(row.(status := RowCompleted));
    }

    /** Completes row i in place. */
    method CompleteRow(id: nat, i: nat, row: AllocationRow)
      requires id < |receipts| && i < |receipts[id].rows|
      modifies this`receipts
      ensures receipts == SetRow(old(receipts), id, i, row)
    {
      receipts := receipts[id := receipts[id].(rows := receipts[id].rows[i := row])];
    }

    /** The posting loop: rows are completed one by one, in place. */
    method PostAllocations(id: nat, now: nat, fault: Option<nat>) returns (e: Option<Error>)
      requires id < |receipts|
      modifies this`receipts, credits.office`loans, credits.office`credits, credits.office.book`entries,
        credits.office.book`pledges
      ensures var r := old(receipts)[id];
              var p := PostRows(old(credits.State()), r, r.rows, now, fault);
              if p.Abort? then e == Some(p.error)
              else e == None && credits.State() == p.state && receipts == old(receipts)[id := r.(rows := p.value)]
    {
      ghost var d, table := credits.State(), receipts;
      var r := receipts[id];
      ghost var done := [];
      NothingDone(table, id);
      for i := 0 to |r.rows|
        invariant PostRows(d, r, r.rows[..i], now, fault) == Commit(credits.State(), done)
        invariant |done| == i && receipts == PartlyDone(table, id, done)
      {
        PostRowsNext(d, r, r.rows, now, fault, i);
        var next := PostNext(r, r.rows[i], now, fault == Some(i));
        if next.Failed? { return Some(next.error); }
        DoneNext(table, id, done, next.value);
        CompleteRow(id, i, next.value);
        done := done + [next.value];
      }
      assert r.rows[..|r.rows|] == r.rows && done + r.rows[|r.rows|..] == done;
      e := None;
    }

    /** The posting loop and what follows it. */
    method PostAndComplete(id: nat, now: nat, fault: Option<nat>) returns (e: Option<Error>)
      requires id < |receipts|
      modifies this`receipts, credits.office`loans, credits.office`credits, credits.office.book`entries,
        credits.office.book`pledges
      ensures var r := old(receipts)[id];
              var p := PostRows(old(credits.State()), r, r.rows, now, fault);
              if p.Abort? then e == Some(p.error)
              else if fault.Some? && fault.value >= |r.rows| then e == Some(Infrastructure)
              else
                e == None && credits.State() == p.state &&
                receipts == old(receipts)[id := r.(status := ReceiptCompleted, rows := p.value)]
    {
      var last := |receipts[id].rows|;
      e := PostAllocations(id, now, fault);
      if e.Some? { return; }
      if fault.Some? && fault.value >= last { return Some(Infrastructure); }
      MarkCompleted(id);
    }

    /** What ROLLBACK TO SAVEPOINT puts back. */
    method RollBack(shares: Shares, loans: seq<Loan>, balances: seq<Credit>, assessed: map<FeeKey, int>,
                    rows: seq<Receipt>)
      modifies this`fees, this`receipts, credits.office`loans, credits.office`credits, credits.office.book
      ensures credits.office.book.State() == shares && credits.office.loans == loans &&
              credits.office.credits == balances
      ensures fees == assessed && receipts == rows
    {
      credits.office.book.Restore(shares);
      credits.office.loans, credits.office.credits := loans, balances;
      fees, receipts := assessed, rows;
    }

    /** The checks before posting; a failure is always a business failure. */
    method ValidateObligations(id: nat, eligible: bool, now: nat) returns (e: Option<Error>)
      requires id < |receipts|
      modifies this`fees
      ensures e == ObligationsError(old(State()), receipts[id], eligible, now)
      ensures e.None? ==> fees == AssessFees(old(fees), receipts[id].member, receipts[id].period, eligible)
    {
      var r := receipts[id];
      if |r.rows| == 0 { return Some(AllocationRequired); }
      if r.period > now { return Some(InvalidPayment); }
      var due := MonthlyFees(r.member, r.period, eligible, Some(r.id));
      var input := ItemsOf(r.rows);
      var expected := CalculatedAllocations(input, due);
      if expected.Failed? { return Some(MembershipFeeMismatch); }
      var mismatch := VerifyAllocationsMatch(expected.value, StoredRows(r.rows));
      if mismatch.Some? { return Some(MembershipFeeMismatch); }
      e := ValidateChargeAllocations(r.member, r.branch, input, Some(r.id));
    }

    method MarkCompleted(id: nat)
      requires id < |receipts|
      modifies this`receipts
      ensures receipts == old(receipts)[id := old(receipts)[id].(status := ReceiptCompleted)]
    {
      receipts := receipts[id := receipts[id].(status := ReceiptCompleted)];
    }

    method AttemptReceipt(id: nat, eligible: bool, now: nat, fault: Option<nat>) returns (e: Option<Error>)
      requires id < |receipts|
      modifies this`fees, this`receipts, credits.office`loans, credits.office`credits, credits.office.book`entries,
        credits.office.book`pledges
      ensures var p := Attempt(old(State()), id, eligible, now, fault);
              if p.Abort? then e == Some(p.error) else e == None && State() == p.state
    {
      ghost var c := State();
      e := ValidateObligations(id, eligible, now);
      if e.Some? { return; }
      assert ObligationsError(c, c.receipts[id], eligible, now) == None;
      assert credits.State() == c.desk;
      e := PostAndComplete(id, now, fault);
    }

    /**
      ProcessReceipt with its savepoint: a business failure rolls the postings back and is recorded, a failure of the
      database rolls everything back.
     */
    method ProcessReceipt(id: nat, eligible: bool, now: nat, fault: Option<nat>) returns (r: Outcome<Option<Error>>)
      modifies this`fees, this`receipts, credits.office`loans, credits.office`credits, credits.office.book
      ensures State() == Process(old(State()), id, eligible, now, fault).After(old(State()))
      ensures r == Process(old(State()), id, eligible, now, fault).Result()
    {
      if id >= |receipts| { return Ok(Some(ReceiptNotFound)); }
      var receipt := receipts[id];
      if receipt.status == ReceiptCompleted { return Ok(None); }
      if receipt.status != ReceiptPending && receipt.status != ReceiptProcessing {
        return Ok(Some(ReceiptNotProcessable));
      }
      var shares := credits.office.book.Save();
      var loans, balances, assessed, rows := credits.office.loans, credits.office.credits, fees, receipts;

      var e := AttemptReceipt(id, eligible, now, fault);
      if e.None? { return Ok(None); }
      RollBack(shares, loans, balances, assessed, rows);
      if !Business(e.value) { return Failed(e.value); }
      receipts := receipts[id := receipt.(status := FailureStatus(receipt.channel))];
      r := Ok(e);
    }
  }
}
