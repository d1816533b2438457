/**
  Failures of the database while a receipt is processed: one that is reached leaves no trace and the receipt waiting,
  one that is not makes no difference, and every rejection by a rule is recorded (internal/contribution/service.go).
 */
module ReceiptFaults {
  import opened Common
  import opened Decimals
  import opened ShareLedger
  import opened Lending
  import Credits
  import opened Allocations
  import opened Receipts
  import opened ReceiptPosting
  import opened Cooperative

  // ----- A fault in the posting loop

  lemma {:induction false} RejectedStays(d: Desk, r: Receipt, rows: seq<AllocationRow>, now: nat, n: nat)
    requires n <= |rows| && PostRows(d, r, rows[..n], now, None).Abort?
    ensures PostRows(d, r, rows, now, None) == Abort(PostRows(d, r, rows[..n], now, None).error)
  {
    if n < |rows| {
      assert rows[..|rows| - 1][..n] == rows[..n];
      RejectedStays(d, r, rows[..|rows| - 1], now, n);
    } else {
      assert rows[..n] == rows;
    }
  }

  /** The rows before the fault post. */
  ghost predicate RowReached(d: Desk, r: Receipt, rows: seq<AllocationRow>, now: nat, k: nat) {
    PostRows(d, r, if k < |rows| then rows[..k] else rows, now, None).Commit?
  }

  lemma {:induction false} NoSuchRow(d: Desk, r: Receipt, rows: seq<AllocationRow>, now: nat, k: nat)
    requires |rows| <= k
    ensures PostRows(d, r, rows, now, Some(k)) == PostRows(d, r, rows, now, None)
  {
    if rows != [] { NoSuchRow(d, r, rows[..|rows| - 1], now, k); }
  }

  /**
    A fault at a row aborts the loop exactly when the rows before it post; otherwise the earlier rejection is reported.
   */
  lemma {:induction false} FaultAtRow(d: Desk, r: Receipt, rows: seq<AllocationRow>, now: nat, k: nat)
    requires AllPending(rows) && k < |rows|
    ensures PostRows(d, r, rows, now, Some(k)) ==
            if RowReached(d, r, rows, now, k) then Abort(Infrastructure) else PostRows(d, r, rows, now, None)
  {
    var n := |rows| - 1;
    if k < n {
      assert rows[..n][..k] == rows[..k];
      FaultAtRow(d, r, rows[..n], now, k);
      if !RowReached(d, r, rows, now, k) { RejectedStays(d, r, rows[..n], now, k); }
    } else {
      NoSuchRow(d, r, rows[..n], now, k);
    }
  }

  // ----- Every rejection is one that is recorded

  lemma {:induction false} ChargeErrorRecorded(c: Coop, member: Id, branch: nat, items: seq<Item>, exclude: Option<nat>)
    ensures ChargeItemsError(items).Some? ==> Business(ChargeItemsError(items).value)
    ensures ChargesDueError(c, member, branch, items, exclude).Some? ==>
            Business(ChargesDueError(c, member, branch, items, exclude).value)
  {
    if items != [] { ChargeErrorRecorded(c, member, branch, items[..|items| - 1], exclude); }
  }

  lemma {:induction false} PurchaseRejection(s: Shares, account: Id, amount: int, reference: Ref, owner: Option<Owner>)
    requires 0 < amount && 0 <= Balance(s.entries, account)
    ensures var p := Post(s, account, Purchase, Nanos(amount), reference, owner); p.Abort? ==> Business(p.error)
  {
    ColumnOfTicks(amount);
    ColumnOfTicks(Balance(s.entries, account) + amount);
  }

  lemma {:induction false} RepaymentRejection(o: Office, loan: nat, amount: int, gateway: Ref, period: nat, now: nat,
                                              owner: Option<Owner>)
    requires 0 < amount
    ensures var p := RecordRepayment(o, loan, Nanos(amount), gateway, period, now, owner);
            p.Abort? ==> Business(p.error)
  {
    ColumnOfTicks(amount);
  }

  lemma {:induction false} PostRowRejection(d: Desk, r: Receipt, row: AllocationRow, now: nat)
    requires Stored(d.office.shares) && 0 < row.amount
    ensures PostRow(d, r, row, now).Abort? ==> Business(PostRow(d, r, row, now).error)
  {
    var owner := Some(Owner(r.member, r.branch));
    if row.key.target.Some? {
      BalanceNonNegative(d.office.shares.entries, row.key.target.value);
      PurchaseRejection(d.office.shares, row.key.target.value, row.amount, row.id, owner);
      RepaymentRejection(d.office, row.key.target.value, row.amount, row.id, r.period, now, owner);
    }
  }

  lemma {:induction false} PostRowsRejection(d: Desk, r: Receipt, rows: seq<AllocationRow>, now: nat)
    requires Safe(d.office) && Credits.FundsSound(d) && AllPending(rows)
    requires forall i | 0 <= i < |rows| :: 0 < rows[i].amount
    ensures PostRows(d, r, rows, now, None).Abort? ==> Business(PostRows(d, r, rows, now, None).error)
  {
    if rows != [] {
      var n := |rows| - 1;
      PostRowsRejection(d, r, rows[..n], now);
      if PostRows(d, r, rows[..n], now, None).Commit? {
        PostRowsKeep(d, r, rows[..n], now, None);
        PostRowRejection(PostRows(d, r, rows[..n], now, None).state, r, rows[n], now);
      }
    }
  }

  lemma {:induction false} ObligationsRejection(c: Coop, r: Receipt, eligible: bool, now: nat)
    ensures ObligationsError(c, r, eligible, now).Some? ==> Business(ObligationsError(c, r, eligible, now).value)
  {
    var a := c.(fees := AssessFees(c.fees, r.member, r.period, eligible));
    ChargeErrorRecorded(a, r.member, r.branch, ItemsOf(r.rows), Some(r.id));
  }

  // ----- What becomes of a call

  /** The receipt's checks pass and its rows post: it can be completed. */
  ghost predicate Completable(c: Coop, id: nat, eligible: bool, now: nat)
    requires id < |c.receipts|
  {
    var r := c.receipts[id];
    var a := c.(fees := AssessFees(c.fees, r.member, r.period, eligible));
    r.rows != [] && r.period <= now && FeesMatch(r.rows, Outstanding(a, r.member, r.period, Some(r.id))) &&
    ChargeError(a, r.member, r.branch, ItemsOf(r.rows), Some(r.id)).None? &&
    PostRows(c.desk, r, r.rows, now, None).Commit?
  }

  /**
    Without a failure of the database every call ends: a pending receipt is completed exactly when it can be, and
    otherwise set aside - failed, or for manual review if it is cash - with ledgers, fees and charges exactly as before.
   */
  lemma {:induction false} ProcessEnds(c: Coop, id: nat, eligible: bool, now: nat)
    requires Invariant(c) && id < |c.receipts| && c.receipts[id].status == ReceiptPending
    ensures var r, p := c.receipts[id], Process(c, id, eligible, now, None);
            p.Commit? && (p.value.None? <==> Completable(c, id, eligible, now)) &&
            (p.value.None? ==> |p.state.receipts| == |c.receipts| && p.state.receipts[id].status == ReceiptCompleted) &&
            (p.value.Some? ==>
               p.state == c.(receipts := c.receipts[id :=
                               r.(status := if r.channel == Cash then ReceiptManualReview else ReceiptFailed)]))
  {
    assert ReceiptSound(c.receipts[id]);
    ObligationsRejection(c, c.receipts[id], eligible, now);
    PostRowsRejection(c.desk, c.receipts[id], c.receipts[id].rows, now);
  }

  /** A receipt that is not pending is left as it is. */
  lemma {:induction false} ProcessLeavesOthers(c: Coop, id: nat, eligible: bool, now: nat, fault: Option<nat>)
    requires ReceiptsSound(c) && id < |c.receipts| && c.receipts[id].status != ReceiptPending
    ensures Process(c, id, eligible, now, fault) ==
            Commit(c, if c.receipts[id].status == ReceiptCompleted then None else Some(ReceiptNotProcessable))
  {
    assert ReceiptSound(c.receipts[id]);
  }

  /** The call gets as far as the fault: the receipt is pending, its checks pass, and the rows before the fault post. */
  ghost predicate FaultReached(c: Coop, id: nat, eligible: bool, now: nat, k: nat) {
    id < |c.receipts| && c.receipts[id].status == ReceiptPending &&
    ObligationsError(c, c.receipts[id], eligible, now).None? &&
    RowReached(c.desk, c.receipts[id], c.receipts[id].rows, now, k)
  }

  /**
    A failure of the database that is reached leaves no trace, and the receipt pending for another try; one that is not
    reached makes no difference. So it never fails a receipt that would not have failed without it.
   */
  lemma {:induction false} FaultLeavesNoTrace(c: Coop, id: nat, eligible: bool, now: nat, k: nat)
    requires ReceiptsSound(c)
    ensures Process(c, id, eligible, now, Some(k)) ==
            if FaultReached(c, id, eligible, now, k) then Abort(Infrastructure) else Process(c, id, eligible, now, None)
  {
    if id < |c.receipts| && c.receipts[id].status == ReceiptPending {
      var rows := c.receipts[id].rows;
      assert ReceiptSound(c.receipts[id]);
      if k < |rows| {
        FaultAtRow(c.desk, c.receipts[id], rows, now, k);
      } else {
        NoSuchRow(c.desk, c.receipts[id], rows, now, k);
      }
    } else if id < |c.receipts| {
      ProcessLeavesOthers(c, id, eligible, now, Some(k));
      ProcessLeavesOthers(c, id, eligible, now, None);
    }
  }

  /** A call aborts exactly when a failure of the database is reached, and then the state is as it was. */
  lemma {:induction false} AbortsIff(c: Coop, id: nat, eligible: bool, now: nat, fault: Option<nat>)
    requires Invariant(c)
    ensures Process(c, id, eligible, now, fault).Abort? <==>
            fault.Some? && FaultReached(c, id, eligible, now, fault.value)
    ensures Process(c, id, eligible, now, fault).Abort? ==> Process(c, id, eligible, now, fault).After(c) == c
  {
    if fault.Some? { FaultLeavesNoTrace(c, id, eligible, now, fault.value); }
    if id < |c.receipts| {
      if c.receipts[id].status == ReceiptPending {
        ProcessEnds(c, id, eligible, now);
      } else {
        ProcessLeavesOthers(c, id, eligible, now, None);
      }
    }
  }
}
