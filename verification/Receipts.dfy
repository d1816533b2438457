/**
  Contribution receipts: what a payment must look like, and posting it to the owning ledgers all
  or not at all (internal/contribution/service.go, fees.go, charges.go).
 */
module Receipts {
  import opened Common
  import opened Decimals
  import opened ShareLedger
  import opened LoanAccount
  import opened Lending
  import opened Credits
  import opened Allocations
  import Sums

  datatype Channel = DarajaStk | Cash | Manual | OtherChannel

  datatype ReceiptStatus = ReceiptPending | ReceiptProcessing | ReceiptCompleted | ReceiptFailed | ReceiptManualReview

  datatype RowStatus = RowPending | RowCompleted | RowFailed

  /** A row of contribution_allocations; its id is the reference of its ledger posting. */
  datatype AllocationRow = AllocationRow(id: Ref, key: Key, amount: int, status: RowStatus)

  datatype Receipt = Receipt(
    id: nat, member: Id, branch: nat, period: nat, received: int, channel: Channel, status: ReceiptStatus,
      rows: seq<AllocationRow>)

  datatype FeeKey = FeeKey(member: Id, period: nat, kind: ItemKind)

  datatype Charge = Charge(member: Id, branch: nat, penalty: bool, amount: int)

  /** The tables of the contribution package, over those of loans and shares. */
  datatype Coop = Coop(desk: Desk, fees: map<FeeKey, int>, charges: seq<Charge>, receipts: seq<Receipt>)

  // ----- Accepting a receipt

  datatype NewReceipt = NewReceipt(
    member: Id, branch: nat, period: nat, received: int, channel: Channel, hasReference: bool, items: seq<Item>,
      ids: seq<Ref>)

  predicate NeedsTarget(kind: ItemKind) { !IsFee(kind) }

  function ItemsError(items: seq<Item>): Option<Error> {
    if items == [] then None
    else
      var init, item := items[..|items| - 1], items[|items| - 1];
      if ItemsError(init).Some? then ItemsError(init)
      else if item.amount <= 0 then Some(InvalidAllocation)
      else if First(init, OfKey(item.KeyOf())).Some? then Some(DuplicateAllocation)
      else if NeedsTarget(item.kind) && item.target.None? then Some(InvalidAllocation)
      else None
  }

  /** validateReceipt. */
  function ReceiptError(n: NewReceipt): Option<Error> {
    if n.received <= 0 then Some(InvalidReceiptAmount)
    else if n.channel == OtherChannel then Some(InvalidPayment)
    else if n.items == [] then Some(AllocationRequired)
    else if !n.hasReference then Some(ReferenceRequired)
    else if ItemsError(n.items).Some? then ItemsError(n.items)
    else if Sums.Of(n.items, ItemTicks) != Ticks(n.received) then Some(AllocationTotalMismatch)
    else None
  }

  method ValidateReceipt(n: NewReceipt) returns (e: Option<Error>)
    ensures e == ReceiptError(n)
  {
    if n.received <= 0 { return Some(InvalidReceiptAmount); }
    if n.channel == OtherChannel { return Some(InvalidPayment); }
    if |n.items| == 0 { return Some(AllocationRequired); }
    if !n.hasReference { return Some(ReferenceRequired); }
    var total, seen: set<Key> := 0, {};
    for i := 0 to |n.items|
      invariant ItemsError(n.items[..i]).None? && SeenKeys(n.items[..i], seen)
      invariant total == Sums.Of(n.items[..i], ItemTicks)
    {
      var item := n.items[i];
      OneMoreItem(n.items, i, seen);
      if item.amount <= 0 { return Some(InvalidAllocation); }
      if item.KeyOf() in seen { return Some(DuplicateAllocation); }
      seen := seen + {item.KeyOf()};
      if NeedsTarget(item.kind) && item.target.None? { return Some(InvalidAllocation); }
      total := total + Ticks(item.amount);
    }
    assert n.items[..|n.items|] == n.items;
    e := if total != Ticks(n.received) then Some(AllocationTotalMismatch) else None;
  }

  /** One turn of validateReceipt's loop: the first error, or one more item that is in order. */
  lemma {:induction false} OneMoreItem(items: seq<Item>, i: nat, seen: set<Key>)
    requires i < |items| && ItemsError(items[..i]).None? && SeenKeys(items[..i], seen)
    ensures Sums.Of(items[..i + 1], ItemTicks) == Sums.Of(items[..i], ItemTicks) + Ticks(items[i].amount)
    ensures var item := items[i];
            if item.amount <= 0 then ItemsError(items) == Some(InvalidAllocation)
            else if item.KeyOf() in seen then ItemsError(items) == Some(DuplicateAllocation)
            else if NeedsTarget(item.kind) && item.target.None? then ItemsError(items) == Some(InvalidAllocation)
            else ItemsError(items[..i + 1]).None? && SeenKeys(items[..i + 1], seen + {item.KeyOf()})
  {
    var item := items[i];
    assert items[..i + 1] == items[..i] + [item] && (items[..i] + [item])[..i] == items[..i];
    SeenStep(items[..i], item, seen);
    if ItemsError(items[..i + 1]).Some? { ItemsErrorOfPrefix(items, i + 1); }
  }

  lemma {:induction false} ItemsErrorOfPrefix(items: seq<Item>, i: nat)
    requires i <= |items| && ItemsError(items[..i]).Some?
    ensures ItemsError(items) == ItemsError(items[..i])
  {
    if i == |items| {
      assert items[..i] == items;
    } else {
      assert items[..|items| - 1][..i] == items[..i];
      ItemsErrorOfPrefix(items[..|items| - 1], i);
    }
  }

  lemma {:induction false} NoItemsError(items: seq<Item>)
    ensures ItemsError(items).None? <==>
            UniqueKeys(items) &&
            forall i | 0 <= i < |items| :: 0 < items[i].amount && (IsFee(items[i].kind) || items[i].target.Some?)
  {
    if items != [] {
      var init, item := items[..|items| - 1], items[|items| - 1];
      NoItemsError(init);
      NewKeyIff(init, item);
      assert items == init + [item];
    }
  }

  lemma {:induction false} NewKeyIff(init: seq<Item>, item: Item)
    ensures UniqueKeys(init + [item]) <==> UniqueKeys(init) && First(init, OfKey(item.KeyOf())).None?
  {
    FirstNone(init, OfKey(item.KeyOf()));
    var all := init + [item];
    assert all[|init|] == item && forall i | 0 <= i < |init| :: all[i] == init[i];
    if UniqueKeys(all) {
      forall i, j | 0 <= i < j < |init|
        ensures init[i].KeyOf() != init[j].KeyOf()
      {
        assert all[i].KeyOf() != all[j].KeyOf();
      }
      forall i | 0 <= i < |init|
        ensures init[i].KeyOf() != item.KeyOf()
      {
        assert all[i].KeyOf() != all[|init|].KeyOf();
      }
    }
  }

  function RowsOf(items: seq<Item>, ids: seq<Ref>): (rows: seq<AllocationRow>)
    requires |ids| == |items|
    ensures |rows| == |items|
    ensures forall i | 0 <= i < |items| ::
            rows[i] == AllocationRow(ids[i], items[i].KeyOf(), Column(items[i].amount), RowPending)
  {
    seq(|items|, (i: nat) requires i < |items| =>
        AllocationRow(ids[i], items[i].KeyOf(), Column(items[i].amount), RowPending))
  }

  /** createReceipt for a receipt that is not on file yet; the ids are those the database gives the rows. */
  function Accept(c: Coop, n: NewReceipt): Tx<Coop, nat>
    requires |n.ids| == |n.items|
  {
    if ReceiptError(n).Some? then Abort(ReceiptError(n).value)
    else if Column(n.received) <= 0 ||
      exists i | 0 <= i < |n.items| :: Column(n.items[i].amount) <= 0 then Abort(ConstraintViolation)
    else
      var id := |c.receipts|;
      Commit(c.(receipts := c.receipts +
        [Receipt(id, n.member, n.branch, n.period, Column(n.received), n.channel, ReceiptPending,
                 RowsOf(n.items, n.ids))]), id)
  }

  /** A receipt in order: money for something, under a reference, split over distinct targets without a remainder. */
  predicate InOrder(n: NewReceipt) {
    && 0 < n.received && n.channel != OtherChannel && n.hasReference && n.items != [] && UniqueKeys(n.items)
    && (forall i | 0 <= i < |n.items| ::
          0 < n.items[i].amount && (IsFee(n.items[i].kind) || n.items[i].target.Some?))
    && Sums.Of(n.items, ItemTicks) == Ticks(n.received)
  }

  lemma {:induction false} ReceiptErrorIff(n: NewReceipt)
    ensures ReceiptError(n).None? <==> InOrder(n)
  {
    NoItemsError(n.items);
  }

  /** The receipt and its allocations as they were sent, at the columns' scale, with nothing posted yet. */
  predicate FiledAs(r: Receipt, n: NewReceipt)
    requires |n.ids| == |n.items|
  {
    && r.member == n.member && r.branch == n.branch && r.period == n.period && r.channel == n.channel
    && r.received == Column(n.received) && r.status == ReceiptPending && |r.rows| == |n.items|
    && forall i | 0 <= i < |n.items| ::
         r.rows[i].id == n.ids[i] && r.rows[i].key.kind == n.items[i].kind &&
         r.rows[i].key.target == n.items[i].target &&
         r.rows[i].amount == Column(n.items[i].amount) && r.rows[i].status == RowPending
  }

  /**
    A receipt is accepted exactly when it is in order and nothing of it vanishes in the columns; it is then filed as it
    was sent, and ledgers, fees, charges and other receipts stay as they are.
   */
  lemma {:induction false} AcceptIff(c: Coop, n: NewReceipt)
    requires |n.ids| == |n.items|
    ensures Accept(c, n).Commit? <==>
            InOrder(n) && HALF <= n.received && forall i | 0 <= i < |n.items| :: HALF <= n.items[i].amount
    ensures Accept(c, n).Commit? ==>
              var d := Accept(c, n).state;
              Accept(c, n).value == |c.receipts| && |d.receipts| == |c.receipts| + 1 &&
              d == c.(receipts := c.receipts + [d.receipts[|c.receipts|]]) && FiledAs(d.receipts[|c.receipts|], n)
  {
    ReceiptErrorIff(n);
    if InOrder(n) {
      ColumnAgainstTicks(n.received);
      forall i | 0 <= i < |n.items| ensures Column(n.items[i].amount) <= 0 <==> n.items[i].amount < HALF {
        ColumnAgainstTicks(n.items[i].amount);
      }
    }
  }

  function RowAmount(row: AllocationRow): int { row.amount }

  /** The allocations of a receipt add up to the money received. */
  predicate Balanced(r: Receipt) { Sums.Of(r.rows, RowAmount) == r.received }

  /** Counts the items that the column rounds up. */
  function RoundsUp(i: Item): int { if i.amount % TICK >= HALF then 1 else 0 }

  lemma {:induction false} RowsTotal(items: seq<Item>, ids: seq<Ref>)
    requires |ids| == |items| && forall i | 0 <= i < |items| :: 0 <= items[i].amount
    ensures Sums.Of(RowsOf(items, ids), RowAmount) == Sums.Of(items, ItemTicks) + Sums.Of(items, RoundsUp)
  {
    if items != [] {
      var n := |items| - 1;
      assert RowsOf(items, ids)[..n] == RowsOf(items[..n], ids[..n]);
      RowsTotal(items[..n], ids[..n]);
      ColumnAgainstTicks(items[n].amount);
    }
  }

  /**
    validateReceipt compares truncated amounts while the columns round: the stored allocations add up to the
    stored receipt exactly when as many of them round up as the receipt itself does.
   */
  lemma AcceptedIsBalancedIff(c: Coop, n: NewReceipt)
    requires |n.ids| == |n.items| && Accept(c, n).Commit?
    ensures Balanced(Accept(c, n).state.receipts[|c.receipts|]) <==>
            Sums.Of(n.items, RoundsUp) == (if n.received % TICK >= HALF then 1 else 0)
  {
    NoItemsError(n.items);
    RowsTotal(n.items, n.ids);
    ColumnAgainstTicks(n.received);
  }

  /**
    0.00025 received for two accounts, 0.000125 each: the receipt is stored as 0.0003 and its allocations as 0.0001
    each.
   */
  lemma {:induction false} UnbalancedReceipt(c: Coop)
    ensures var n := NewReceipt(1, 1, 0, 250_000, Manual, true,
                                [Item(SharePurchase, Some(7), 125_000), Item(SharePurchase, Some(8), 125_000)],
                                  ["a", "b"]);
            var r := Accept(c, n);
            r.Commit? && r.state.receipts[|c.receipts|].received == 3 &&
            Sums.Of(r.state.receipts[|c.receipts|].rows, RowAmount) == 2
  {
    var items := [Item(SharePurchase, Some(7), 125_000), Item(SharePurchase, Some(8), 125_000)];
    var n := NewReceipt(1, 1, 0, 250_000, Manual, true, items, ["a", "b"]);
    assert items[..1] == [items[0]] && items[..1][..0] == [];
    assert UniqueKeys(items);
    NoItemsError(items);
    RowsTotal(items, n.ids);
  }

  // ----- Obligations

  function IfOther(r: Receipt, exclude: Option<nat>, amount: int): int { if exclude == Some(r.id) then 0 else amount }

  function FeeRow(kind: ItemKind): AllocationRow -> int {
    (a: AllocationRow) => if a.key.kind == kind && a.status == RowCompleted then a.amount else 0
  }

  /** SumMonthlyFeePaymentsByType, for one fee. */
  function FeePaid(key: FeeKey, exclude: Option<nat>): Receipt -> int {
    (r: Receipt) => if r.member == key.member && r.period == key.period
      then IfOther(r, exclude, Sums.Of(r.rows, FeeRow(key.kind))) else 0
  }

  predicate IsCharge(kind: ItemKind) { kind == PenaltyCharge || kind == OtherCharge }

  function ChargeRow(charge: nat): AllocationRow -> int {
    (a: AllocationRow) =>
      if IsCharge(a.key.kind) && a.key.target == Some(charge) && a.status == RowCompleted then a.amount else 0
  }

  /** SumContributionChargePaymentsByID, for one charge. */
  function ChargePaid(charge: nat, exclude: Option<nat>): Receipt -> int {
    (r: Receipt) => IfOther(r, exclude, Sums.Of(r.rows, ChargeRow(charge)))
  }

  /** AssessMonthlyFees: KES 30 each for an eligible member; amounts on file, including exemptions, stay. */
  const MONTHLY_FEE: int := 300_000

  function AssessFees(fees: map<FeeKey, int>, member: Id, period: nat, eligible: bool): map<FeeKey, int> {
    if eligible then map[FeeKey(member, period, Com) := MONTHLY_FEE, FeeKey(member, period, Lgom) := MONTHLY_FEE] + fees
      else fees
  }

  function FeeDue(c: Coop, key: FeeKey, exclude: Option<nat>): int {
    if key in c.fees then c.fees[key] - Sums.Of(c.receipts, FeePaid(key, exclude)) else 0
  }

  function FeeItem(c: Coop, key: FeeKey, exclude: Option<nat>): seq<Item> {
    if FeeDue(c, key, exclude) > 0 then [Item(key.kind, None, Nanos(FeeDue(c, key, exclude)))] else []
  }

  /** monthlyFees, once the fees have been assessed: what is still due of each. */
  function Outstanding(c: Coop, member: Id, period: nat, exclude: Option<nat>): seq<Item> {
    FeeItem(c, FeeKey(member, period, Com), exclude) + FeeItem(c, FeeKey(member, period, Lgom), exclude)
  }

  lemma OutstandingAreFees(c: Coop, member: Id, period: nat, exclude: Option<nat>)
    ensures Fees(Outstanding(c, member, period, exclude))
  {
    var com, lgom := FeeKey(member, period, Com), FeeKey(member, period, Lgom);
    ColumnOfTicks(FeeDue(c, com, exclude));
    ColumnOfTicks(FeeDue(c, lgom, exclude));
  }

  /**
    Assessing a month gives an eligible member the two fees that are not on file yet, of 30 shillings each, and changes
    no fee that is.
   */
  lemma {:induction false} AssessFeesIff(fees: map<FeeKey, int>, member: Id, period: nat, eligible: bool, key: FeeKey)
    ensures var owed := eligible && key.member == member && key.period == period && IsFee(key.kind);
            var after := AssessFees(fees, member, period, eligible);
            (key in after <==> key in fees || owed) &&
            (key in after ==> after[key] == if key in fees then fees[key] else 30 * 10_000)
  {
  }

  /** What is outstanding of a month are its fees that are not fully paid, each for exactly the rest. */
  lemma {:induction false} OutstandingIff(c: Coop, member: Id, period: nat, exclude: Option<nat>, item: Item)
    ensures item in Outstanding(c, member, period, exclude) <==>
            IsFee(item.kind) && item.target.None? && 0 < item.amount &&
            item.amount == Nanos(FeeDue(c, FeeKey(member, period, item.kind), exclude))
  {
    ColumnOfTicks(FeeDue(c, FeeKey(member, period, item.kind), exclude));
  }

  function ChargeDue(c: Coop, charge: nat, exclude: Option<nat>): int
    requires charge < |c.charges|
  {
    c.charges[charge].amount - Sums.Of(c.receipts, ChargePaid(charge, exclude))
  }

  function ChargeTarget(target: Option<nat>): Item -> bool { (i: Item) => IsCharge(i.kind) && i.target == target }

  /** validateChargeAllocations' own checks of the items. */
  function ChargeItemsError(items: seq<Item>): Option<Error> {
    if items == [] then None
    else
      var init, item := items[..|items| - 1], items[|items| - 1];
      if ChargeItemsError(init).Some? then ChargeItemsError(init)
      else if !IsCharge(item.kind) then None
      else if item.target.None? || item.amount <= 0 then Some(InvalidAllocation)
      else if First(init, ChargeTarget(item.target)).Some? then Some(DuplicateAllocation)
      else if item.amount % TICK != 0 then Some(InvalidAllocation)
      else None
  }

  function ChargeDueError(c: Coop, member: Id, branch: nat, item: Item, exclude: Option<nat>): Option<Error> {
    if !IsCharge(item.kind) then None
    else if item.target.None? || item.target.value >= |c.charges| then Some(InvalidCharge)
    else
      var charge := c.charges[item.target.value];
      if charge.member != member || charge.branch != branch || charge.penalty != (item.kind == PenaltyCharge)
        then Some(InvalidCharge)
      else if Ticks(item.amount) > ChargeDue(c, item.target.value, exclude) then Some(ChargeOverpayment)
      else None
  }

  function ChargesDueError(c: Coop, member: Id, branch: nat, items: seq<Item>, exclude: Option<nat>): Option<Error> {
    if items == [] then None
    else if ChargesDueError(c, member, branch, items[..|items| - 1], exclude).Some?
    then ChargesDueError(c, member, branch, items[..|items| - 1], exclude)
    else ChargeDueError(c, member, branch, items[|items| - 1], exclude)
  }

  function ChargeError(c: Coop, member: Id, branch: nat, items: seq<Item>, exclude: Option<nat>): Option<Error> {
    if ChargeItemsError(items).Some? then ChargeItemsError(items)
    else ChargesDueError(c, member, branch, items, exclude)
  }

  /** A charge is paid by its own member, in whole ticks, and no more than is due of it. */
  predicate ChargeFits(c: Coop, member: Id, branch: nat, item: Item, exclude: Option<nat>) {
    IsCharge(item.kind) ==>
      && item.target.Some? && item.target.value < |c.charges| && 0 < item.amount && item.amount % TICK == 0
      && item.amount <= Nanos(ChargeDue(c, item.target.value, exclude))
      && c.charges[item.target.value] ==
         Charge(member, branch, item.kind == PenaltyCharge, c.charges[item.target.value].amount)
  }

  predicate ChargedOnce(items: seq<Item>) {
    forall i, j | 0 <= i < j < |items| && IsCharge(items[i].kind) && IsCharge(items[j].kind) ::
      items[i].target != items[j].target
  }

  /** Charge payments pass exactly when each fits and no charge is paid twice. */
  lemma {:induction false} ChargeErrorIff(c: Coop, member: Id, branch: nat, items: seq<Item>, exclude: Option<nat>)
    ensures ChargeError(c, member, branch, items, exclude).None? <==>
            ChargedOnce(items) && forall i | 0 <= i < |items| :: ChargeFits(c, member, branch, items[i], exclude)
  {
    ChargeItemsIff(items);
    ChargesDueIff(c, member, branch, items, exclude);
    forall i | 0 <= i < |items| && IsCharge(items[i].kind) && ChargeItemFits(items[i])
      ensures ChargeDueError(c, member, branch, items[i], exclude).None? <==>
              ChargeFits(c, member, branch, items[i], exclude)
    {
      ColumnAgainstTicks(items[i].amount);
    }
  }

  predicate ChargeItemFits(item: Item) {
    IsCharge(item.kind) ==> item.target.Some? && 0 < item.amount && item.amount % TICK == 0
  }

  lemma {:induction false} ChargeItemsIff(items: seq<Item>)
    ensures ChargeItemsError(items).None? <==>
            ChargedOnce(items) && forall i | 0 <= i < |items| :: ChargeItemFits(items[i])
  {
    if items != [] {
      var init, item := items[..|items| - 1], items[|items| - 1];
      ChargeItemsIff(init);
      FirstNone(init, ChargeTarget(item.target));
      assert items == init + [item];
    }
  }

  lemma {:induction false} ChargesDueIff(c: Coop, member: Id, branch: nat, items: seq<Item>, exclude: Option<nat>)
    ensures ChargesDueError(c, member, branch, items, exclude).None? <==>
            forall i | 0 <= i < |items| :: ChargeDueError(c, member, branch, items[i], exclude).None?
  {
    if items != [] {
      var init := items[..|items| - 1];
      ChargesDueIff(c, member, branch, init, exclude);
      assert items == init + [items[|items| - 1]];
    }
  }

  // ----- The least a month's contribution must pay on loans

  /** What the items pay on a loan. */
  function LoanPart(loan: nat): Item -> int {
    (i: Item) => if i.kind == LoanPrincipal && i.target == Some(loan) then Ticks(i.amount) else 0
  }

  /** A running loan of the member that the items pay less on than the month's instalment. */
  predicate Underpaid(l: Loan, loan: nat, member: Id, branch: nat, period: nat, items: seq<Item>) {
    l.member == member && l.branch == branch && LoanAccount.Payable(l.status) &&
    Sums.Of(items, LoanPart(loan)) < InstalmentDue(l, period)
  }

  /** validateContributionLoanMinimums: no loan may be left out or underpaid. */
  function MinimumsError(d: Desk, member: Id, branch: nat, period: nat, items: seq<Item>): Option<Error> {
    if exists i | 0 <= i < |d.office.loans| :: Underpaid(d.office.loans[i], i, member, branch, period, items)
      then Some(InvalidAllocation) else None
  }

  /** Where nothing else is on file, a single payment for shares passes every check as it is. */
  lemma {:induction false} SingleShare(c: Coop, n: NewReceipt, item: Item)
    requires c.fees == map[] && c.charges == [] && c.desk.office.loans == []
    requires n.items == [item] && item.kind == SharePurchase && item.target.Some? && n.received == item.amount > 0
    requires n.hasReference && n.channel != OtherChannel
    ensures AssessFees(c.fees, n.member, n.period, false) == c.fees && Outstanding(c, n.member, n.period, None) == []
    ensures Normalise([item], []) == Ok([item]) && ReceiptError(n).None?
    ensures ChargeError(c, n.member, n.branch, [item], None).None? &&
            MinimumsError(c.desk, n.member, n.branch, n.period, [item]).None?
  {
    assert [item][..0] == [] && [] + [item] == [item] && [item] + [] == [item];
    assert Collect([item][..0], []) == Ok([]) && ItemError([], item, []).None?;
    assert Collect([item], []) == Ok([item]);
    assert ChargeItemsError([item][..0]).None? && ChargesDueError(c, n.member, n.branch, [item][..0], None).None?;
    assert ItemsError([item][..0]).None? && First([item][..0], OfKey(item.KeyOf())).None? && ItemsError([item]).None?;
    assert Sums.Of([item][..0], ItemTicks) == 0 && Sums.Of([item], ItemTicks) == Ticks(item.amount);
  }

  // ----- Posting

  function ItemOf(row: AllocationRow): Item { Item(row.key.kind, row.key.target, Nanos(row.amount)) }

  function ItemsOf(rows: seq<AllocationRow>): (items: seq<Item>)
    ensures |items| == |rows| && forall i | 0 <= i < |rows| :: items[i] == ItemOf(rows[i])
  {
    seq(|rows|, (i: nat) requires i < |rows| => ItemOf(rows[i]))
  }

  function StoredRows(rows: seq<AllocationRow>): (s: seq<Row>)
    ensures |s| == |rows| && forall i | 0 <= i < |rows| :: s[i] == Row(rows[i].key, rows[i].amount)
  {
    seq(|rows|, (i: nat) requires i < |rows| => Row(rows[i].key, rows[i].amount))
  }

  /** processAllocation: the owning ledger's own posting, or nothing for obligations settled by the row itself. */
  ghost function PostRow(d: Desk, r: Receipt, row: AllocationRow, now: nat): Tx<Desk, ()> {
    var owner := Some(Owner(r.member, r.branch));
    match row.key.kind
    case SharePurchase =>
      if row.key.target.None? then Abort(AccountNotFound)
      else
        var (s, _) :- Post(d.office.shares, row.key.target.value, Purchase, Nanos(row.amount), row.id, owner);
        Commit(d.(office := d.office.(shares := s)), ())
    case LoanPrincipal =>
      if row.key.target.None? then Abort(LoanNotFound)
      else
        var (o, _) :- RecordRepayment(d.office, row.key.target.value, Nanos(row.amount), row.id, r.period, now, owner);
        Commit(d.(office := o), ())
    case LoanInterest => Abort(AllocationNotSupported)
    case OverpaymentCredit => Abort(AllocationNotSupported)
    case _ => Commit(d, ())
  }

  /** One turn of the posting loop; `faulty` when the database fails at it. */
  ghost function NextRow(d: Desk, r: Receipt, row: AllocationRow, now: nat, faulty: bool): Tx<Desk, AllocationRow> {
    if row.status == RowCompleted then Commit(d, row)
    else if row.status != RowPending then Abort(ReceiptNotProcessable)
    else if faulty then Abort(Infrastructure)
    else
      var (t, _) :- PostRow(d, r, row, now);
      Commit(t, row.(status := RowCompleted))
  }

  /** The posting loop; `fault` is the row at which the database fails, if it fails in the loop. */
  ghost function PostRows(d: Desk, r: Receipt, rows: seq<AllocationRow>, now: nat,
                          fault: Option<nat>): Tx<Desk, seq<AllocationRow>> {
    if rows == [] then Commit(d, [])
    else
      var n := |rows| - 1;
      var (e, done) :- PostRows(d, r, rows[..n], now, fault);
      var (t, row) :- NextRow(e, r, rows[n], now, fault == Some(n));
      Commit(t, done + [row])
  }

  /** receiptBusinessError: rejections, as opposed to failures of the database. */
  predicate Business(e: Error) {
    e in {InvalidPayment, AllocationRequired, ReceiptNotProcessable, MembershipFeeMismatch, InvalidCharge,
          ChargeOverpayment,
          InvalidAllocation, DuplicateAllocation, AllocationNotSupported, AccountNotFound, AccountNotActive,
            DuplicateReference,
          LoanNotFound, PaymentNotAllowed, InvalidRepaymentPeriod, InvalidLoanAmount, RepaymentAmountConflict,
          RepaymentScheduleMissing, GatewayTransactionId}
  }

  /** receiptFailureStatus: cash that was taken stays visible to the till. */
  function FailureStatus(channel: Channel): ReceiptStatus {
    if channel == Cash then ReceiptManualReview else ReceiptFailed
  }

  function SetReceipt(c: Coop, id: nat, r: Receipt): Coop
    requires id < |c.receipts|
  {
    c.(receipts := c.receipts[id := r])
  }

  /** failReceipt: back to the savepoint, then the failure is recorded. */
  function Fail(c: Coop, id: nat, e: Error): Tx<Coop, Option<Error>>
    requires id < |c.receipts|
  {
    Commit(SetReceipt(c, id, c.receipts[id].(status := FailureStatus(c.receipts[id].channel))), Some(e))
  }

  predicate FeesMatch(rows: seq<AllocationRow>, fees: seq<Item>) {
    var expected := Normalise(ItemsOf(rows), fees);
    expected.Ok? && RowsMatch(expected.value, StoredRows(rows))
  }

  /** The checks that come before posting. */
  function ObligationsError(c: Coop, r: Receipt, eligible: bool, now: nat): Option<Error> {
    var a := c.(fees := AssessFees(c.fees, r.member, r.period, eligible));
    if r.rows == [] then Some(AllocationRequired)
    else if r.period > now then Some(InvalidPayment)
    else if !FeesMatch(r.rows, Outstanding(a, r.member, r.period, Some(r.id))) then Some(MembershipFeeMismatch)
    else ChargeError(a, r.member, r.branch, ItemsOf(r.rows), Some(r.id))
  }

  /** What happens between ProcessReceipt's savepoint and its end. */
  ghost function Attempt(c: Coop, id: nat, eligible: bool, now: nat, fault: Option<nat>): Tx<Coop, ()>
    requires id < |c.receipts|
  {
    var r := c.receipts[id];
    if ObligationsError(c, r, eligible, now).Some? then Abort(ObligationsError(c, r, eligible, now).value)
    else
      var (d, rows) :- PostRows(c.desk, r, r.rows, now, fault);
      if fault.Some? && fault.value >= |r.rows| then Abort(Infrastructure)
      else Commit(c.(desk := d, fees := AssessFees(c.fees, r.member, r.period, eligible),
                receipts := c.receipts[id := r.(status := ReceiptCompleted, rows := rows)]), ())
  }

  /**
    ProcessReceipt: the value is the business error, if any. `eligible` says whether the member owes the month's fees,
    `now` is the current month, and `fault` is where the database fails: at a row, or after the last one.
   */
  ghost function Process(c: Coop, id: nat, eligible: bool, now: nat, fault: Option<nat>): Tx<Coop, Option<Error>> {
    if id >= |c.receipts| then Commit(c, Some(ReceiptNotFound))
    else
      var r := c.receipts[id];
      if r.status == ReceiptCompleted then Commit(c, None)
      else if r.status != ReceiptPending && r.status != ReceiptProcessing then Commit(c, Some(ReceiptNotProcessable))
      else
        var p := Attempt(c, id, eligible, now, fault);
        if p.Commit? then Commit(p.state, None)
        else if Business(p.error) then Fail(c, id, p.error)
        else Abort(p.error)
  }

  /** RetryDarajaReceipt: an officer sends a failed M-Pesa receipt back to the queue. */
  function Requeue(c: Coop, id: nat): Coop {
    if id < |c.receipts| && c.receipts[id].channel == DarajaStk &&
      c.receipts[id].status in {ReceiptFailed, ReceiptManualReview}
    then SetReceipt(c, id, c.receipts[id].(status := ReceiptPending))
    else c
  }

  /** Only an M-Pesa receipt that failed or was set aside goes back to the queue, as it was; nothing else changes. */
  lemma {:induction false} RequeueIff(c: Coop, id: nat)
    ensures var failed := id < |c.receipts| && c.receipts[id].channel == DarajaStk &&
                          (c.receipts[id].status == ReceiptFailed || c.receipts[id].status == ReceiptManualReview);
            (Requeue(c, id) != c <==> failed) &&
            (failed ==> Requeue(c, id) == c.(receipts := c.receipts[id := c.receipts[id].(status := ReceiptPending)]))
  {
    if Requeue(c, id) != c { assert id < |c.receipts|; }
    if id < |c.receipts| &&
      Requeue(c, id) == c.(receipts := c.receipts[id := c.receipts[id].(status := ReceiptPending)]) {
      assert Requeue(c, id).receipts[id].status == ReceiptPending;
    }
  }
}
