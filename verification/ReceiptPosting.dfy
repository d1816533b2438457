/**
  Receipts are posted all or not at all and exactly once, obligations are never overpaid, and posting
  a receipt places exactly the money received (internal/contribution/service.go).
 */
module ReceiptPosting {
  import opened Common
  import opened Decimals
  import opened ShareLedger
  import opened LoanAccount
  import opened Lending
  import Credits
  import opened Allocations
  import opened Receipts
  import Sums

  type Desk = Credits.Desk

  // ----- Ledger postings of allocation rows

  predicate External(kind: ItemKind) { kind == SharePurchase || kind == LoanPrincipal }

  /** The owning ledger holds an entry under the row's id. */
  predicate HasPosting(d: Desk, a: AllocationRow) {
    a.key.target.Some? &&
    if a.key.kind == SharePurchase then !Credits.NewPosting(d.office.shares, a.key.target.value, Purchase, a.id)
    else
      a.key.kind == LoanPrincipal && a.key.target.value < |d.office.loans| &&
      !Credits.NewRepayment(d.office, a.key.target.value, a.id)
  }

  /** ... and it is for the row's amount. */
  predicate ExactPosting(d: Desk, a: AllocationRow) {
    HasPosting(d, a) &&
    if a.key.kind == SharePurchase then
      var i := First(d.office.shares.entries, SameReference(a.key.target.value, a.id, Purchase));
      d.office.shares.entries[i.value].amount == a.amount
    else
      var i := First(d.office.loans[a.key.target.value].repayments, SameGateway(a.id));
      d.office.loans[a.key.target.value].repayments[i.value].amount == a.amount
  }

  /** The place of a posting in the ledgers: the account or loan, and the reference. */
  datatype Slot = Slot(key: Key, reference: Ref)

  function SlotOf(a: AllocationRow): Slot { Slot(a.key, a.id) }

  function PurchaseSlot(e: Entry): Slot { Slot(Key(SharePurchase, Some(e.account)), e.reference) }

  function RepaymentSlot(loan: nat, r: RepaymentRow): Slot { Slot(Key(LoanPrincipal, Some(loan)), r.gateway) }

  /** The ledgers only grew, and every new purchase or repayment took one of these slots. */
  ghost predicate AddsOnly(d: Desk, e: Desk, slots: set<Slot>) {
    && d.office.shares.entries <= e.office.shares.entries
    && (forall i | |d.office.shares.entries| <= i < |e.office.shares.entries| ::
          e.office.shares.entries[i].kind == Purchase ==> PurchaseSlot(e.office.shares.entries[i]) in slots)
    && |d.office.loans| <= |e.office.loans|
    && (forall l | 0 <= l < |e.office.loans| ::
          var before := if l < |d.office.loans| then d.office.loans[l].repayments else [];
          before <= e.office.loans[l].repayments &&
          forall i | |before| <= i < |e.office.loans[l].repayments| ::
            RepaymentSlot(l, e.office.loans[l].repayments[i]) in slots)
  }

  lemma AddsOnlyTwice(d: Desk, e: Desk, f: Desk, slots: set<Slot>, more: set<Slot>)
    requires AddsOnly(d, e, slots) && AddsOnly(e, f, more)
    ensures AddsOnly(d, f, slots + more)
  {
    forall l | 0 <= l < |f.office.loans|
      ensures var before := if l < |d.office.loans| then d.office.loans[l].repayments else [];
              before <= f.office.loans[l].repayments &&
              forall i | |before| <= i < |f.office.loans[l].repayments| ::
                RepaymentSlot(l, f.office.loans[l].repayments[i]) in slots + more
    {
      var before := if l < |d.office.loans| then d.office.loans[l].repayments else [];
      var middle := if l < |e.office.loans| then e.office.loans[l].repayments else [];
      assert before <= middle <= f.office.loans[l].repayments;
      forall i | |before| <= i < |f.office.loans[l].repayments|
        ensures RepaymentSlot(l, f.office.loans[l].repayments[i]) in slots + more
      {
        assert i < |middle| ==> f.office.loans[l].repayments[i] == middle[i];
      }
    }
    forall i | |d.office.shares.entries| <= i < |f.office.shares.entries| && f.office.shares.entries[i].kind == Purchase
      ensures PurchaseSlot(f.office.shares.entries[i]) in slots + more
    {
      assert i < |e.office.shares.entries| ==> f.office.shares.entries[i] == e.office.shares.entries[i];
    }
  }

  /** A posting, once made, stays as it is. */
  lemma ExactPostingStays(d: Desk, e: Desk, slots: set<Slot>, a: AllocationRow)
    requires AddsOnly(d, e, slots) && ExactPosting(d, a)
    ensures ExactPosting(e, a)
  {
    if a.key.kind == SharePurchase {
      FirstStable(d.office.shares.entries, e.office.shares.entries, SameReference(a.key.target.value, a.id, Purchase));
    } else {
      var l := a.key.target.value;
      assert d.office.loans[l].repayments <= e.office.loans[l].repayments;
      FirstStable(d.office.loans[l].repayments, e.office.loans[l].repayments, SameGateway(a.id));
    }
  }

  /** Postings in other slots leave a row unposted. */
  lemma NoPostingStays(d: Desk, e: Desk, slots: set<Slot>, a: AllocationRow)
    requires AddsOnly(d, e, slots) && !HasPosting(d, a) && SlotOf(a) !in slots
    ensures !HasPosting(e, a)
  {
    if a.key.target.Some? && a.key.kind == SharePurchase {
      FirstNone(d.office.shares.entries, SameReference(a.key.target.value, a.id, Purchase));
      FirstNone(e.office.shares.entries, SameReference(a.key.target.value, a.id, Purchase));
    } else if a.key.target.Some? && a.key.kind == LoanPrincipal && a.key.target.value < |e.office.loans| {
      var l := a.key.target.value;
      var before := if l < |d.office.loans| then d.office.loans[l].repayments else [];
      assert before <= e.office.loans[l].repayments;
      if l < |d.office.loans| { FirstNone(d.office.loans[l].repayments, SameGateway(a.id)); }
      FirstNone(e.office.loans[l].repayments, SameGateway(a.id));
    }
  }

  lemma SharesAddOnly(d: Desk, s: Shares, slots: set<Slot>)
    requires d.office.shares.entries <= s.entries
    requires forall i | |d.office.shares.entries| <= i < |s.entries| ::
             s.entries[i].kind == Purchase ==> PurchaseSlot(s.entries[i]) in slots
    ensures AddsOnly(d, d.(office := d.office.(shares := s)), slots)
  {
  }

  lemma RepaymentAddsOnly(d: Desk, loan: nat, nanos: int, gateway: Ref, period: nat, now: nat, owner: Option<Owner>)
    ensures AddsOnly(d,
                     d.(office := RecordRepayment(d.office, loan, nanos, gateway, period, now, owner).After(d.office)),
                       {Slot(Key(LoanPrincipal, Some(loan)), gateway)})
  {
    var o := RecordRepayment(d.office, loan, nanos, gateway, period, now, owner).After(d.office);
    if o != d.office {
      RepayAppends(d.office.loans[loan], nanos, gateway, period);
    }
  }

  // ----- Posting one row, and all of them

  function RowIds(rows: seq<AllocationRow>): set<Ref> { set a | a in rows :: a.id }

  function Slots(rows: seq<AllocationRow>): set<Slot> { set a | a in rows :: SlotOf(a) }

  function ExternalAmount(a: AllocationRow): int { if External(a.key.kind) then a.amount else 0 }

  /** What one row's posting has done. */
  ghost predicate RowPosted(d: Desk, a: AllocationRow, e: Desk) {
    && AddsOnly(d, e, {SlotOf(a)}) && e.operations == d.operations && (External(a.key.kind) ==> ExactPosting(e, a))
    && (!HasPosting(d, a) ==> Credits.Placed(e) == Credits.Placed(d) + ExternalAmount(a))
  }

  lemma SharesPosted(d: Desk, a: AllocationRow, owner: Option<Owner>)
    requires a.key.kind == SharePurchase && a.key.target.Some? && 0 < a.amount
    requires Post(d.office.shares, a.key.target.value, Purchase, Nanos(a.amount), a.id, owner).Commit?
    ensures var s := Post(d.office.shares, a.key.target.value, Purchase, Nanos(a.amount), a.id, owner).state;
            RowPosted(d, a, d.(office := d.office.(shares := s)))
  {
    var account := a.key.target.value;
    var s := Post(d.office.shares, account, Purchase, Nanos(a.amount), a.id, owner).state;
    ColumnOfTicks(a.amount);
    PostedAmount(d.office.shares, account, Purchase, Nanos(a.amount), a.id, owner);
    Credits.PostPlaces(d.office.shares, account, Purchase, Nanos(a.amount), a.id, owner);
    SharesAddOnly(d, s, {SlotOf(a)});
  }

  lemma RepaymentPosted(d: Desk, a: AllocationRow, period: nat, now: nat, owner: Option<Owner>)
    requires a.key.kind == LoanPrincipal && a.key.target.Some? && 0 < a.amount
    requires RecordRepayment(d.office, a.key.target.value, Nanos(a.amount), a.id, period, now, owner).Commit?
    ensures var o := RecordRepayment(d.office, a.key.target.value, Nanos(a.amount), a.id, period, now, owner).state;
            RowPosted(d, a, d.(office := o))
  {
    var loan := a.key.target.value;
    var e := d.(office := RecordRepayment(d.office, loan, Nanos(a.amount), a.id, period, now, owner).state);
    ColumnOfTicks(a.amount);
    RepaymentStored(d.office.loans[loan], Nanos(a.amount), a.id, period);
    Credits.RepaymentPlaces(d.office, loan, Nanos(a.amount), a.id, period, now, owner);
    Credits.PlacedWithoutRefunds(d);
    Credits.PlacedWithoutRefunds(e);
    RepaymentAddsOnly(d, loan, Nanos(a.amount), a.id, period, now, owner);
  }

  lemma PostRowPosts(d: Desk, r: Receipt, a: AllocationRow, now: nat)
    requires PostRow(d, r, a, now).Commit? && 0 < a.amount
    ensures RowPosted(d, a, PostRow(d, r, a, now).state)
  {
    var owner := Some(Owner(r.member, r.branch));
    if a.key.kind == SharePurchase {
      SharesPosted(d, a, owner);
    } else if a.key.kind == LoanPrincipal {
      RepaymentPosted(d, a, r.period, now, owner);
    }
  }

  predicate DistinctIds(rows: seq<AllocationRow>) { forall i, j | 0 <= i < j < |rows| :: rows[i].id != rows[j].id }

  predicate AllPending(rows: seq<AllocationRow>) { forall i | 0 <= i < |rows| :: rows[i].status == RowPending }

  predicate AllCompleted(rows: seq<AllocationRow>, done: seq<AllocationRow>) {
    |done| == |rows| && forall i | 0 <= i < |rows| :: done[i] == rows[i].(status := RowCompleted)
  }

  lemma SlotsAppend(rows: seq<AllocationRow>)
    requires rows != []
    ensures Slots(rows) == Slots(rows[..|rows| - 1]) + {SlotOf(rows[|rows| - 1])}
  {
    assert rows == rows[..|rows| - 1] + [rows[|rows| - 1]];
  }

  ghost predicate AllExact(rows: seq<AllocationRow>, e: Desk) {
    forall i | 0 <= i < |rows| && External(rows[i].key.kind) :: ExactPosting(e, rows[i])
  }

  predicate Supported(kind: ItemKind) { External(kind) || IsFee(kind) || IsCharge(kind) }

  predicate AllSupported(rows: seq<AllocationRow>) { forall i | 0 <= i < |rows| :: Supported(rows[i].key.kind) }

  /** What posting the rows has done to the ledgers. */
  ghost predicate PostedAll(d: Desk, rows: seq<AllocationRow>, e: Desk) {
    && AddsOnly(d, e, Slots(rows)) && e.operations == d.operations
    && AllExact(rows, e) && AllSupported(rows)
    && Credits.Placed(e) == Credits.Placed(d) + Sums.Of(rows, ExternalAmount)
  }

  lemma AllExactStays(rows: seq<AllocationRow>, e: Desk, t: Desk, slots: set<Slot>)
    requires AllExact(rows, e) && AddsOnly(e, t, slots)
    ensures AllExact(rows, t)
  {
    forall i | 0 <= i < |rows| && External(rows[i].key.kind) ensures ExactPosting(t, rows[i]) {
      ExactPostingStays(e, t, slots, rows[i]);
    }
  }

  lemma AllExactAppend(rows: seq<AllocationRow>, t: Desk)
    requires rows != [] && AllExact(rows[..|rows| - 1], t) &&
             (External(rows[|rows| - 1].key.kind) ==> ExactPosting(t, rows[|rows| - 1]))
    ensures AllExact(rows, t)
  {
    forall i | 0 <= i < |rows| && External(rows[i].key.kind) ensures ExactPosting(t, rows[i]) {
      assert i < |rows| - 1 ==> rows[i] == rows[..|rows| - 1][i];
    }
  }

  lemma AllSupportedAppend(rows: seq<AllocationRow>)
    requires rows != [] && AllSupported(rows[..|rows| - 1]) && AllSupported([rows[|rows| - 1]])
    ensures AllSupported(rows)
  {
    assert [rows[|rows| - 1]][0] == rows[|rows| - 1];
    forall i | 0 <= i < |rows| ensures Supported(rows[i].key.kind) {
      assert i < |rows| - 1 ==> rows[i] == rows[..|rows| - 1][i];
    }
  }

  lemma LedgersOneMore(d: Desk, rows: seq<AllocationRow>, e: Desk, t: Desk)
    requires rows != [] && AddsOnly(d, e, Slots(rows[..|rows| - 1])) && AddsOnly(e, t, Slots([rows[|rows| - 1]]))
    ensures AddsOnly(d, t, Slots(rows))
  {
    var init, a := rows[..|rows| - 1], rows[|rows| - 1];
    AddsOnlyTwice(d, e, t, Slots(init), Slots([a]));
    SlotsAppend(rows);
    assert Slots([a]) == {SlotOf(a)} by { assert [a][0] == a; }
  }

  lemma ExactOneMore(rows: seq<AllocationRow>, e: Desk, t: Desk)
    requires rows != [] && AllExact(rows[..|rows| - 1], e) && AddsOnly(e, t, Slots([rows[|rows| - 1]])) &&
             AllExact([rows[|rows| - 1]], t)
    ensures AllExact(rows, t)
  {
    AllExactStays(rows[..|rows| - 1], e, t, Slots([rows[|rows| - 1]]));
    assert [rows[|rows| - 1]][0] == rows[|rows| - 1];
    AllExactAppend(rows, t);
  }

  lemma AmountOneMore(rows: seq<AllocationRow>)
    requires rows != []
    ensures Sums.Of(rows, ExternalAmount) ==
            Sums.Of(rows[..|rows| - 1], ExternalAmount) + Sums.Of([rows[|rows| - 1]], ExternalAmount)
  {
    assert [rows[|rows| - 1]][..0] == [];
  }

  lemma PostedOneMore(d: Desk, rows: seq<AllocationRow>, e: Desk, t: Desk)
    requires rows != [] && PostedAll(d, rows[..|rows| - 1], e) && PostedAll(e, [rows[|rows| - 1]], t)
    ensures PostedAll(d, rows, t)
  {
    assert AddsOnly(d, t, Slots(rows)) by { LedgersOneMore(d, rows, e, t); }
    assert AllExact(rows, t) by { ExactOneMore(rows, e, t); }
    assert AllSupported(rows) by { AllSupportedAppend(rows); }
    AmountOneMore(rows);
  }

  lemma PostedOne(e: Desk, r: Receipt, a: AllocationRow, now: nat)
    requires PostRow(e, r, a, now).Commit? && 0 < a.amount && !HasPosting(e, a)
    ensures PostedAll(e, [a], PostRow(e, r, a, now).state)
  {
    PostRowPosts(e, r, a, now);
    assert Slots([a]) == {SlotOf(a)};
    assert [a][..0] == [];
  }

  lemma PostRowsStep(d: Desk, r: Receipt, rows: seq<AllocationRow>, now: nat, fault: Option<nat>)
    requires PostRows(d, r, rows, now, fault).Commit? && rows != [] && AllPending(rows)
    ensures var init, a := rows[..|rows| - 1], rows[|rows| - 1];
            var p := PostRows(d, r, init, now, fault);
            p.Commit? && PostRow(p.state, r, a, now).Commit? &&
            PostRows(d, r, rows, now, fault) ==
              Commit(PostRow(p.state, r, a, now).state, p.value + [a.(status := RowCompleted)])
  {
  }

  lemma PostedLast(d: Desk, r: Receipt, rows: seq<AllocationRow>, e: Desk, now: nat)
    requires rows != [] && DistinctIds(rows) && !HasPosting(d, rows[|rows| - 1]) && 0 < rows[|rows| - 1].amount
    requires PostedAll(d, rows[..|rows| - 1], e) && PostRow(e, r, rows[|rows| - 1], now).Commit?
    ensures PostedAll(d, rows, PostRow(e, r, rows[|rows| - 1], now).state)
  {
    assert !HasPosting(e, rows[|rows| - 1]) by { UnpostedYet(d, rows, e); }
    assert PostedAll(e, [rows[|rows| - 1]], PostRow(e, r, rows[|rows| - 1], now).state) by {
      PostedOne(e, r, rows[|rows| - 1], now);
    }
    PostedOneMore(d, rows, e, PostRow(e, r, rows[|rows| - 1], now).state);
  }

  lemma {:induction false} PostRowsComplete(d: Desk, r: Receipt, rows: seq<AllocationRow>, now: nat, fault: Option<nat>)
    requires PostRows(d, r, rows, now, fault).Commit? && AllPending(rows)
    ensures AllCompleted(rows, PostRows(d, r, rows, now, fault).value)
  {
    if rows != [] {
      PostRowsStep(d, r, rows, now, fault);
      PostRowsComplete(d, r, rows[..|rows| - 1], now, fault);
    }
  }

  /** Posting every pending row completes each with its own posting, and places exactly their total. */
  lemma {:induction false} PostRowsPost(d: Desk, r: Receipt, rows: seq<AllocationRow>, now: nat, fault: Option<nat>)
    requires PostRows(d, r, rows, now, fault).Commit?
    requires AllPending(rows) && DistinctIds(rows) &&
             forall i | 0 <= i < |rows| :: 0 < rows[i].amount && !HasPosting(d, rows[i])
    ensures PostedAll(d, rows, PostRows(d, r, rows, now, fault).state)
    ensures AllCompleted(rows, PostRows(d, r, rows, now, fault).value)
  {
    PostRowsComplete(d, r, rows, now, fault);
    if rows == [] {
      assert Slots(rows) == {};
    } else {
      PostRowsStep(d, r, rows, now, fault);
      PostRowsPost(d, r, rows[..|rows| - 1], now, fault);
      PostedLast(d, r, rows, PostRows(d, r, rows[..|rows| - 1], now, fault).state, now);
    }
  }

  lemma UnpostedYet(d: Desk, rows: seq<AllocationRow>, e: Desk)
    requires rows != [] && DistinctIds(rows) && !HasPosting(d, rows[|rows| - 1])
    requires AddsOnly(d, e, Slots(rows[..|rows| - 1]))
    ensures !HasPosting(e, rows[|rows| - 1])
  {
    var init, a := rows[..|rows| - 1], rows[|rows| - 1];
    assert SlotOf(a) !in Slots(init);
    NoPostingStays(d, e, Slots(init), a);
  }

  // ----- Exactly once

  /** A completed receipt has all its rows completed, any other has none. */
  predicate ReceiptSound(r: Receipt) {
    && r.status != ReceiptProcessing && DistinctIds(r.rows)
    && forall j | 0 <= j < |r.rows| ::
         0 < r.rows[j].amount && r.rows[j].status == if r.status == ReceiptCompleted then RowCompleted else RowPending
  }

  /** The two receipts have no row in common. */
  predicate OwnRows(receipts: seq<Receipt>, i: nat, j: nat)
    requires i < |receipts| && j < |receipts|
  {
    RowIds(receipts[i].rows) !! RowIds(receipts[j].rows)
  }

  /** Receipts and rows are in step, and ids are unique throughout. */
  ghost predicate ReceiptsSound(c: Coop) {
    && (forall i | 0 <= i < |c.receipts| :: c.receipts[i].id == i && ReceiptSound(c.receipts[i]))
    && (forall i, j | 0 <= i < j < |c.receipts| :: OwnRows(c.receipts, i, j))
  }

  /**
    Every ledger row of a completed receipt has its posting, for its amount; no row of a pending, failed or
    manually reviewed receipt has one.
   */
  ghost predicate AllOrNothing(c: Coop) {
    forall i, j | 0 <= i < |c.receipts| && 0 <= j < |c.receipts[i].rows| ::
      var a := c.receipts[i].rows[j];
      if c.receipts[i].status == ReceiptCompleted then External(a.key.kind) ==> ExactPosting(c.desk, a)
        else !HasPosting(c.desk, a)
  }

  /** None of these slots is that of an allocation still to be posted. */
  ghost predicate Foreign(c: Coop, slots: set<Slot>) {
    forall i, j | 0 <= i < |c.receipts| && 0 <= j < |c.receipts[i].rows| && c.receipts[i].status != ReceiptCompleted ::
      SlotOf(c.receipts[i].rows[j]) !in slots
  }

  /** Direct postings that take no unposted allocation's slot leave every receipt as posted or unposted as it was. */
  lemma ForeignPostings(c: Coop, e: Desk, slots: set<Slot>)
    requires AllOrNothing(c) && AddsOnly(c.desk, e, slots) && Foreign(c, slots)
    ensures AllOrNothing(c.(desk := e))
  {
    forall i, j | 0 <= i < |c.receipts| && 0 <= j < |c.receipts[i].rows|
      ensures var a := c.receipts[i].rows[j];
              if c.receipts[i].status == ReceiptCompleted then External(a.key.kind) ==> ExactPosting(e, a)
                else !HasPosting(e, a)
    {
      var a := c.receipts[i].rows[j];
      if c.receipts[i].status == ReceiptCompleted {
        if External(a.key.kind) { ExactPostingStays(c.desk, e, slots, a); }
      } else {
        NoPostingStays(c.desk, e, slots, a);
      }
    }
  }

  /** The ledgers hold a posting in the slot. */
  predicate Taken(e: Desk, slot: Slot) { HasPosting(e, AllocationRow(slot.reference, slot.key, 0, RowPending)) }

  /** ... and one that does take an unposted allocation's slot breaks it: exactly then. */
  lemma ForeignPostingsIff(c: Coop, e: Desk, slots: set<Slot>)
    requires AllOrNothing(c) && AddsOnly(c.desk, e, slots) && forall slot | slot in slots :: Taken(e, slot)
    ensures AllOrNothing(c.(desk := e)) <==> Foreign(c, slots)
  {
    if Foreign(c, slots) {
      ForeignPostings(c, e, slots);
    } else {
      var i, j :| 0 <= i < |c.receipts| && 0 <= j < |c.receipts[i].rows| && c.receipts[i].status != ReceiptCompleted &&
                  SlotOf(c.receipts[i].rows[j]) in slots;
      var a := c.receipts[i].rows[j];
      assert Taken(e, SlotOf(a)) && HasPosting(e, a);
      assert c.(desk := e).receipts[i].rows[j] == a;
    }
  }

  /** How a committed call of ProcessReceipt can have changed the database. */
  lemma ProcessOutcomes(c: Coop, id: nat, eligible: bool, now: nat, fault: Option<nat>)
    requires ReceiptsSound(c) && Process(c, id, eligible, now, fault).Commit?
    ensures var t := Process(c, id, eligible, now, fault).state;
            || t == c
            || (id < |c.receipts| &&
                t == SetReceipt(c, id, c.receipts[id].(status := FailureStatus(c.receipts[id].channel)))
                && c.receipts[id].status == ReceiptPending)
            || (id < |c.receipts| && c.receipts[id].status == ReceiptPending &&
                var r := c.receipts[id];
                var a := c.(fees := AssessFees(c.fees, r.member, r.period, eligible));
                var p := PostRows(c.desk, r, r.rows, now, fault);
                p.Commit? && FeesMatch(r.rows, Outstanding(a, r.member, r.period, Some(id))) &&
                ChargeError(a, r.member, r.branch, ItemsOf(r.rows), Some(id)).None? &&
                t == a.(desk := p.state, receipts := c.receipts[id := r.(status := ReceiptCompleted, rows := p.value)]))
  {
  }

  /** Another status that is neither processing nor completed changes nothing about a receipt that is not completed. */
  lemma {:induction false} StatusKeepsSound(c: Coop, id: nat, status: ReceiptStatus)
    requires ReceiptsSound(c) && id < |c.receipts| && c.receipts[id].status != ReceiptCompleted
    requires status != ReceiptCompleted && status != ReceiptProcessing
    ensures ReceiptsSound(SetReceipt(c, id, c.receipts[id].(status := status)))
  {
    var t := SetReceipt(c, id, c.receipts[id].(status := status));
    forall i, j | 0 <= i < j < |t.receipts| ensures OwnRows(t.receipts, i, j) { assert OwnRows(c.receipts, i, j); }
  }

  /** Whatever happens in it, ProcessReceipt leaves each receipt wholly posted or not posted at all. */
  lemma ProcessKeepsAllOrNothing(c: Coop, id: nat, eligible: bool, now: nat, fault: Option<nat>)
    requires ReceiptsSound(c) && AllOrNothing(c)
    ensures var t := Process(c, id, eligible, now, fault).After(c);
            ReceiptsSound(t) && AllOrNothing(t)
  {
    var r := Process(c, id, eligible, now, fault);
    if r.Commit? && r.state != c {
      ProcessOutcomes(c, id, eligible, now, fault);
      var t := r.state;
      if t.receipts[id].status == ReceiptCompleted {
        CompletedIsPosted(c, id, now, fault, t);
      } else {
        StatusKeepsSound(c, id, FailureStatus(c.receipts[id].channel));
      }
    }
  }

  lemma {:induction false} SameIds(rows: seq<AllocationRow>, done: seq<AllocationRow>)
    requires AllCompleted(rows, done)
    ensures RowIds(done) == RowIds(rows)
  {
    forall x | x in RowIds(rows)
      ensures x in RowIds(done)
    {
      var k :| 0 <= k < |rows| && rows[k].id == x;
      assert done[k].id == x;
    }
    forall x | x in RowIds(done)
      ensures x in RowIds(rows)
    {
      var k :| 0 <= k < |done| && done[k].id == x;
      assert rows[k].id == x;
    }
  }

  /** A row of another receipt is posted or unposted as before. */
  lemma {:induction false} OtherRowStays(d: Desk, e: Desk, status: ReceiptStatus, a: AllocationRow,
                                         rows: seq<AllocationRow>)
    requires AddsOnly(d, e, Slots(rows)) && a.id !in RowIds(rows)
    requires if status == ReceiptCompleted then External(a.key.kind) ==> ExactPosting(d, a) else !HasPosting(d, a)
    ensures if status == ReceiptCompleted then External(a.key.kind) ==> ExactPosting(e, a) else !HasPosting(e, a)
  {
    if status != ReceiptCompleted {
      NoPostingStays(d, e, Slots(rows), a);
    } else if External(a.key.kind) {
      ExactPostingStays(d, e, Slots(rows), a);
    }
  }

  lemma {:induction false} CompletedIsSound(c: Coop, id: nat, t: Coop)
    requires ReceiptsSound(c) && id < |c.receipts| && c.receipts[id].status == ReceiptPending
    requires |t.receipts| == |c.receipts| && t.receipts == c.receipts[id := t.receipts[id]] &&
             AllCompleted(c.receipts[id].rows, t.receipts[id].rows)
    requires t.receipts[id] == c.receipts[id].(status := ReceiptCompleted, rows := t.receipts[id].rows)
    ensures ReceiptsSound(t)
  {
    SameIds(c.receipts[id].rows, t.receipts[id].rows);
    assert ReceiptSound(c.receipts[id]);
    forall i, j | 0 <= i < j < |t.receipts| ensures OwnRows(t.receipts, i, j) { assert OwnRows(c.receipts, i, j); }
  }

  lemma {:induction false} CompletedIsPosted(c: Coop, id: nat, now: nat, fault: Option<nat>, t: Coop)
    requires ReceiptsSound(c) && AllOrNothing(c) && id < |c.receipts| && c.receipts[id].status == ReceiptPending
    requires PostRows(c.desk, c.receipts[id], c.receipts[id].rows, now, fault).Commit?
    requires var p := PostRows(c.desk, c.receipts[id], c.receipts[id].rows, now, fault);
             t.desk == p.state &&
             t.receipts == c.receipts[id := c.receipts[id].(status := ReceiptCompleted, rows := p.value)]
    ensures ReceiptsSound(t) && AllOrNothing(t)
  {
    var rows := c.receipts[id].rows;
    assert PostedAll(c.desk, rows, t.desk) && AllCompleted(rows, t.receipts[id].rows) by {
      PostRowsPost(c.desk, c.receipts[id], rows, now, fault);
    }
    CompletedIsSound(c, id, t);
    AllPostedAsIs(c, id, t);
  }

  lemma {:induction false} AllPostedAsIs(c: Coop, id: nat, t: Coop)
    requires ReceiptsSound(c) && AllOrNothing(c) && id < |c.receipts|
    requires |t.receipts| == |c.receipts| && t.receipts == c.receipts[id := t.receipts[id]] &&
             t.receipts[id].status == ReceiptCompleted
    requires PostedAll(c.desk, c.receipts[id].rows, t.desk) && AllCompleted(c.receipts[id].rows, t.receipts[id].rows)
    ensures AllOrNothing(t)
  {
    var rows := c.receipts[id].rows;
    forall i, j | 0 <= i < |t.receipts| && 0 <= j < |t.receipts[i].rows|
      ensures var a := t.receipts[i].rows[j];
              if t.receipts[i].status == ReceiptCompleted then External(a.key.kind) ==> ExactPosting(t.desk, a)
                else !HasPosting(t.desk, a)
    {
      var a := t.receipts[i].rows[j];
      if i == id {
        if External(a.key.kind) { assert ExactPosting(t.desk, rows[j]); }
      } else {
        assert if i < id then OwnRows(c.receipts, i, id) else OwnRows(c.receipts, id, i);
        assert a.id in RowIds(c.receipts[i].rows);
        OtherRowStays(c.desk, t.desk, c.receipts[i].status, a, rows);
      }
    }
  }

  /** Ids that the database has just generated: different from each other and used nowhere. */
  ghost predicate NewIds(c: Coop, ids: seq<Ref>) {
    && (forall i, j | 0 <= i < j < |ids| :: ids[i] != ids[j])
    && (forall i | 0 <= i < |c.receipts| :: RowIds(c.receipts[i].rows) !! (set x | x in ids))
    && (forall e | e in c.desk.office.shares.entries :: e.reference !in ids)
    && (forall l | 0 <= l < |c.desk.office.loans| ::
        forall r | r in c.desk.office.loans[l].repayments :: r.gateway !in ids)
  }

  /** A new receipt with new ids is sound and shares no row with another. */
  lemma {:induction false} NewReceiptIsSound(c: Coop, t: Coop, x: Receipt)
    requires ReceiptsSound(c) && t == c.(receipts := c.receipts + [x]) && x.id == |c.receipts| && ReceiptSound(x)
    requires forall i | 0 <= i < |c.receipts| :: RowIds(c.receipts[i].rows) !! RowIds(x.rows)
    ensures ReceiptsSound(t)
  {
    forall i, j | 0 <= i < j < |t.receipts| ensures OwnRows(t.receipts, i, j) {
      if j < |c.receipts| { assert OwnRows(c.receipts, i, j); }
    }
  }

  /** The ledgers hold nothing under an id that is used nowhere. */
  lemma {:induction false} NewIdIsUnposted(c: Coop, ids: seq<Ref>, a: AllocationRow)
    requires NewIds(c, ids) && a.id in ids
    ensures !HasPosting(c.desk, a)
  {
    if a.key.target.Some? {
      FirstNone(c.desk.office.shares.entries, SameReference(a.key.target.value, a.id, Purchase));
      if a.key.target.value < |c.desk.office.loans| {
        FirstNone(c.desk.office.loans[a.key.target.value].repayments, SameGateway(a.id));
      }
    }
  }

  lemma {:induction false} AcceptKeepsAllOrNothing(c: Coop, n: NewReceipt)
    requires ReceiptsSound(c) && AllOrNothing(c) && |n.ids| == |n.items| && NewIds(c, n.ids)
    ensures ReceiptsSound(Accept(c, n).After(c)) && AllOrNothing(Accept(c, n).After(c))
  {
    var r := Accept(c, n);
    if r.Commit? {
      var x := r.state.receipts[|c.receipts|];
      assert x.rows == RowsOf(n.items, n.ids) && r.state == c.(receipts := c.receipts + [x]);
      assert forall a | a in x.rows :: a.id in n.ids;
      NewReceiptIsSound(c, r.state, x);
      forall j | 0 <= j < |x.rows| ensures !HasPosting(c.desk, x.rows[j]) { NewIdIsUnposted(c, n.ids, x.rows[j]); }
    }
  }

  lemma {:induction false} RequeueKeepsAllOrNothing(c: Coop, id: nat)
    requires ReceiptsSound(c) && AllOrNothing(c)
    ensures ReceiptsSound(Requeue(c, id)) && AllOrNothing(Requeue(c, id))
  {
    if Requeue(c, id) != c { StatusKeepsSound(c, id, ReceiptPending); }
  }

  // ----- Money

  /** A fee or charge is settled by its completed row alone. */
  function SettledRow(a: AllocationRow): int {
    if a.status == RowCompleted && (IsFee(a.key.kind) || IsCharge(a.key.kind)) then a.amount else 0
  }

  function ObligationsPaid(r: Receipt): int { Sums.Of(r.rows, SettledRow) }

  /** All the money members have paid in, by where it is now: shares, loans, credit, refunds, fees and charges. */
  ghost function Collected(c: Coop): int { Credits.Placed(c.desk) + Sums.Of(c.receipts, ObligationsPaid) }

  lemma {:induction false} RowsPartition(rows: seq<AllocationRow>, done: seq<AllocationRow>)
    requires AllCompleted(rows, done) && AllPending(rows)
    requires AllSupported(rows)
    ensures Sums.Of(done, SettledRow) + Sums.Of(rows, ExternalAmount) == Sums.Of(rows, RowAmount)
    ensures Sums.Of(rows, SettledRow) == 0
    ensures Sums.Of(done, RowAmount) == Sums.Of(rows, RowAmount)
  {
    if rows != [] {
      RowsPartition(rows[..|rows| - 1], done[..|done| - 1]);
    }
  }

  lemma {:induction false} PendingSettleNothing(rows: seq<AllocationRow>)
    requires AllPending(rows)
    ensures Sums.Of(rows, SettledRow) == 0
  {
    if rows != [] {
      PendingSettleNothing(rows[..|rows| - 1]);
    }
  }

  /** What the allocations of a receipt add up to; the money received if it is balanced. */
  function Allocated(r: Receipt): int { Sums.Of(r.rows, RowAmount) }

  lemma CompletedCollects(c: Coop, id: nat, now: nat, fault: Option<nat>, t: Coop)
    requires ReceiptsSound(c) && AllOrNothing(c) && id < |c.receipts| && c.receipts[id].status == ReceiptPending
    requires PostRows(c.desk, c.receipts[id], c.receipts[id].rows, now, fault).Commit?
    requires var p := PostRows(c.desk, c.receipts[id], c.receipts[id].rows, now, fault);
             t.desk == p.state &&
             t.receipts == c.receipts[id := c.receipts[id].(status := ReceiptCompleted, rows := p.value)]
    ensures Collected(t) == Collected(c) + Allocated(c.receipts[id])
  {
    var rows := c.receipts[id].rows;
    assert PostedAll(c.desk, rows, t.desk) && AllCompleted(rows, t.receipts[id].rows) by {
      PostRowsPost(c.desk, c.receipts[id], rows, now, fault);
    }
    Sums.OfUpdate(c.receipts, id, t.receipts[id], ObligationsPaid);
    RowsPartition(rows, t.receipts[id].rows);
  }

  lemma FailedCollects(c: Coop, id: nat, t: Coop)
    requires ReceiptsSound(c) && id < |c.receipts| && c.receipts[id].status == ReceiptPending
    requires exists status :: t == SetReceipt(c, id, c.receipts[id].(status := status))
    ensures Collected(t) == Collected(c)
  {
    Sums.OfUpdate(c.receipts, id, t.receipts[id], ObligationsPaid);
  }

  /** A receipt that a transaction has completed. */
  predicate CompletedBy(c: Coop, t: Coop, id: nat) {
    id < |c.receipts| && id < |t.receipts| && c.receipts[id].status != ReceiptCompleted &&
    t.receipts[id].status == ReceiptCompleted
  }

  lemma OutcomeCollects(c: Coop, id: nat, now: nat, fault: Option<nat>, t: Coop)
    requires ReceiptsSound(c) && AllOrNothing(c) && id < |c.receipts| && c.receipts[id].status == ReceiptPending
    requires var r := c.receipts[id];
             var p := PostRows(c.desk, r, r.rows, now, fault);
             t == SetReceipt(c, id, r.(status := FailureStatus(r.channel))) ||
             (p.Commit? && t.desk == p.state &&
              t.receipts == c.receipts[id := r.(status := ReceiptCompleted, rows := p.value)])
    ensures Collected(t) == Collected(c) + (if CompletedBy(c, t, id) then Allocated(c.receipts[id]) else 0)
  {
    if t.receipts[id].status == ReceiptCompleted {
      CompletedCollects(c, id, now, fault, t);
    } else {
      FailedCollects(c, id, t);
    }
  }

  /** Processing a receipt collects exactly its allocations when it completes it, and nothing otherwise. */
  lemma ProcessCollects(c: Coop, id: nat, eligible: bool, now: nat, fault: Option<nat>)
    requires ReceiptsSound(c) && AllOrNothing(c)
    ensures var t := Process(c, id, eligible, now, fault).After(c);
            Collected(t) == Collected(c) + (if CompletedBy(c, t, id) then Allocated(c.receipts[id]) else 0)
  {
    var r := Process(c, id, eligible, now, fault);
    if r.Commit? && r.state != c {
      ProcessOutcomes(c, id, eligible, now, fault);
      OutcomeCollects(c, id, now, fault, r.state);
    }
  }

  /** What it collects is the money received, exactly when the receipt that it completes, if any, is balanced. */
  lemma {:induction false} ProcessCollectsIff(c: Coop, id: nat, eligible: bool, now: nat, fault: Option<nat>)
    requires ReceiptsSound(c) && AllOrNothing(c)
    ensures var t := Process(c, id, eligible, now, fault).After(c);
            Collected(t) == Collected(c) + (if CompletedBy(c, t, id) then c.receipts[id].received else 0) <==>
            (CompletedBy(c, t, id) ==> Balanced(c.receipts[id]))
  {
    ProcessCollects(c, id, eligible, now, fault);
  }

  // ----- What processing never changes

  /** What processing never changes in a receipt. */
  predicate SamePaper(a: Receipt, b: Receipt) {
    && b == a.(status := b.status, rows := b.rows) && StoredRows(b.rows) == StoredRows(a.rows)
    && (a.channel == Cash && a.status != ReceiptFailed ==> b.status != ReceiptFailed)
  }

  lemma {:induction false} PostRowsKeepRows(d: Desk, r: Receipt, rows: seq<AllocationRow>, now: nat, fault: Option<nat>)
    requires PostRows(d, r, rows, now, fault).Commit?
    ensures StoredRows(PostRows(d, r, rows, now, fault).value) == StoredRows(rows)
  {
    if rows != [] {
      var init, row := rows[..|rows| - 1], rows[|rows| - 1];
      PostRowsKeepRows(d, r, init, now, fault);
      var p := PostRows(d, r, init, now, fault);
      NextRowKeeps(p.state, r, row, now, fault == Some(|rows| - 1));
      StoredRowsAppend(init, row, p.value, NextRow(p.state, r, row, now, fault == Some(|rows| - 1)).value);
      assert rows == init + [row];
    }
  }

  lemma {:induction false} NextRowKeeps(d: Desk, r: Receipt, row: AllocationRow, now: nat, faulty: bool)
    requires NextRow(d, r, row, now, faulty).Commit?
    ensures NextRow(d, r, row, now, faulty).value == row.(status := RowCompleted)
  {
  }

  lemma {:induction false} StoredRowsAppend(rows: seq<AllocationRow>, row: AllocationRow, done: seq<AllocationRow>,
                                            last: AllocationRow)
    requires StoredRows(done) == StoredRows(rows) && last.key == row.key && last.amount == row.amount
    ensures StoredRows(done + [last]) == StoredRows(rows + [row])
  {
    assert StoredRows(done + [last]) == StoredRows(done) + [Row(last.key, last.amount)];
    assert StoredRows(rows + [row]) == StoredRows(rows) + [Row(row.key, row.amount)];
  }

  ghost predicate SamePapers(c: Coop, d: Coop) {
    |c.receipts| <= |d.receipts| && forall k | 0 <= k < |c.receipts| :: SamePaper(c.receipts[k], d.receipts[k])
  }

  lemma {:induction false} AttemptKeepsPapers(c: Coop, id: nat, eligible: bool, now: nat, fault: Option<nat>)
    requires id < |c.receipts| && Attempt(c, id, eligible, now, fault).Commit?
    ensures SamePapers(c, Attempt(c, id, eligible, now, fault).state)
    ensures |Attempt(c, id, eligible, now, fault).state.receipts| == |c.receipts|
  {
    PostRowsKeepRows(c.desk, c.receipts[id], c.receipts[id].rows, now, fault);
  }

  lemma {:induction false} ProcessKeepsPapers(c: Coop, id: nat, eligible: bool, now: nat, fault: Option<nat>)
    ensures SamePapers(c, Process(c, id, eligible, now, fault).After(c))
    ensures |Process(c, id, eligible, now, fault).After(c).receipts| == |c.receipts|
  {
    if id < |c.receipts| && Attempt(c, id, eligible, now, fault).Commit? {
      AttemptKeepsPapers(c, id, eligible, now, fault);
    }
  }
}
