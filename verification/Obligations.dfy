/**
  Monthly fees and charges are never overpaid, however many pending receipts aim at the same obligation
  (internal/contribution/fees.go, charges.go, service.go).
 */
module Obligations {
  import opened Common
  import opened Decimals
  import opened Allocations
  import opened Receipts
  import opened ReceiptPosting
  import Sums

  function AssessedFee(fees: map<FeeKey, int>, key: FeeKey): int { if key in fees then fees[key] else 0 }

  function FeesPaid(c: Coop, key: FeeKey): int { Sums.Of(c.receipts, FeePaid(key, None)) }

  function ChargesPaid(c: Coop, charge: nat): int { Sums.Of(c.receipts, ChargePaid(charge, None)) }

  /** Completed payments stay within every fee's assessment and every charge. */
  ghost predicate ObligationsSound(c: Coop) {
    && (forall key | key in c.fees :: 0 <= c.fees[key])
    && (forall key: FeeKey | IsFee(key.kind) :: FeesPaid(c, key) <= AssessedFee(c.fees, key))
    && (forall t | 0 <= t < |c.charges| :: 0 <= c.charges[t].amount && ChargesPaid(c, t) <= c.charges[t].amount)
  }

  // ----- Other receipts' payments

  lemma PendingPaysNothing(r: Receipt, key: FeeKey, t: nat, exclude: Option<nat>)
    requires AllPending(r.rows)
    ensures FeePaid(key, exclude)(r) == 0 && ChargePaid(t, exclude)(r) == 0
  {
    Sums.OfZero(r.rows, FeeRow(key.kind));
    Sums.OfZero(r.rows, ChargeRow(t));
  }

  /** While a receipt is pending, leaving its own rows out makes no difference. */
  lemma ExcludingPending(c: Coop, id: nat, key: FeeKey, t: nat)
    requires ReceiptsSound(c) && id < |c.receipts| && c.receipts[id].status != ReceiptCompleted
    ensures Sums.Of(c.receipts, FeePaid(key, Some(id))) == FeesPaid(c, key)
    ensures Sums.Of(c.receipts, ChargePaid(t, Some(id))) == ChargesPaid(c, t)
  {
    forall i | 0 <= i < |c.receipts|
      ensures FeePaid(key, Some(id))(c.receipts[i]) == FeePaid(key, None)(c.receipts[i]) &&
              ChargePaid(t, Some(id))(c.receipts[i]) == ChargePaid(t, None)(c.receipts[i])
    {
      if i == id { PendingPaysNothing(c.receipts[id], key, t, None); }
    }
    Sums.OfCongruent(c.receipts, c.receipts, FeePaid(key, Some(id)), FeePaid(key, None));
    Sums.OfCongruent(c.receipts, c.receipts, ChargePaid(t, Some(id)), ChargePaid(t, None));
  }

  // ----- A receipt's own fee rows are exactly what was due

  lemma {:induction false} FeeItemsHaveNoTarget(input: seq<Item>, fees: seq<Item>)
    requires Collect(input, fees).Ok?
    ensures forall i | 0 <= i < |input| && IsFee(input[i].kind) :: input[i].target.None?
  {
    if input != [] {
      CollectStep(input, fees);
      FeeItemsHaveNoTarget(input[..|input| - 1], fees);
    }
  }

  lemma {:induction false} FeeRowsTotal(rows: seq<AllocationRow>, done: seq<AllocationRow>, kind: ItemKind)
    requires AllCompleted(rows, done) && UniqueRows(StoredRows(rows))
    requires forall i | 0 <= i < |rows| && rows[i].key.kind == kind :: rows[i].key.target.None?
    ensures Sums.Of(done, FeeRow(kind)) ==
            if Key(kind, None) in AmountMap(StoredRows(rows)) then AmountMap(StoredRows(rows))[Key(kind, None)] else 0
  {
    if rows != [] {
      var n := |rows| - 1;
      FeeRowsTotal(rows[..n], done[..n], kind);
      AmountMapGrows(rows);
      assert rows[n].key.kind == kind ==> rows[n].key == Key(kind, None);
    }
  }

  lemma AmountMapGrows(rows: seq<AllocationRow>)
    requires rows != [] && UniqueRows(StoredRows(rows))
    ensures var n := |rows| - 1;
            UniqueRows(StoredRows(rows[..n])) && rows[n].key !in AmountMap(StoredRows(rows[..n])) &&
            AmountMap(StoredRows(rows)) == AmountMap(StoredRows(rows[..n]))[rows[n].key := rows[n].amount]
  {
    var n := |rows| - 1;
    assert StoredRows(rows)[..n] == StoredRows(rows[..n]);
    AmountMapOfUnique(StoredRows(rows[..n]));
  }

  /** The fees a receipt must carry, in the map its allocations are compared with. */
  lemma FeeInExpected(items: seq<Item>, c: Coop, member: Id, period: nat, exclude: Option<nat>, kind: ItemKind)
    requires NormalForm(items) && IsFee(kind)
    requires UniqueRows(BuildPlan(items + Outstanding(c, member, period, exclude)))
    ensures var due := FeeDue(c, FeeKey(member, period, kind), exclude);
            var m := AmountMap(BuildPlan(items + Outstanding(c, member, period, exclude)));
            if due > 0 then Key(kind, None) in m && m[Key(kind, None)] == due else Key(kind, None) !in m
  {
    var fees := Outstanding(c, member, period, exclude);
    var all := items + fees;
    var plan := BuildPlan(all);
    AmountMapOfUnique(plan);
    var due := FeeDue(c, FeeKey(member, period, kind), exclude);
    ColumnOfTicks(due);
    if due > 0 {
      var fee := Item(kind, None, Nanos(due));
      var j := if kind == Com then 0 else |FeeItem(c, FeeKey(member, period, Com), exclude)|;
      assert fees[j] == fee;
      assert all[|items| + j] == fee;
      assert plan[|items| + j] == Row(Key(kind, None), due);
    } else {
      forall i | 0 <= i < |plan| ensures plan[i].key != Key(kind, None) {
        assert all[i] == if i < |items| then items[i] else fees[i - |items|];
      }
    }
  }

  lemma OwnFees(c: Coop, rows: seq<AllocationRow>, done: seq<AllocationRow>, member: Id, period: nat,
                exclude: Option<nat>, kind: ItemKind)
    requires AllCompleted(rows, done) && IsFee(kind) && FeesMatch(rows, Outstanding(c, member, period, exclude))
    ensures var due := FeeDue(c, FeeKey(member, period, kind), exclude);
            Sums.Of(done, FeeRow(kind)) == if due > 0 then due else 0
  {
    var fees := Outstanding(c, member, period, exclude);
    FeeItemsHaveNoTarget(ItemsOf(rows), fees);
    assert forall i | 0 <= i < |rows| :: ItemsOf(rows)[i] == ItemOf(rows[i]);
    FeeRowsTotal(rows, done, kind);
    CollectKeys(ItemsOf(rows), fees);
    FeeInExpected(Collect(ItemsOf(rows), fees).value, c, member, period, exclude, kind);
  }

  // ----- A receipt's own charge rows fit what was due

  lemma {:induction false} OwnCharges(c: Coop, r: Receipt, rows: seq<AllocationRow>, done: seq<AllocationRow>,
                                      exclude: Option<nat>, t: nat)
    requires AllCompleted(rows, done) && t < |c.charges|
    requires ChargeError(c, r.member, r.branch, ItemsOf(rows), exclude).None?
    ensures if First(ItemsOf(rows), ChargeTarget(Some(t))).None? then Sums.Of(done, ChargeRow(t)) == 0
            else Sums.Of(done, ChargeRow(t)) <= ChargeDue(c, t, exclude)
  {
    if rows != [] {
      var n := |rows| - 1;
      assert ItemsOf(rows)[..n] == ItemsOf(rows[..n]);
      OwnCharges(c, r, rows[..n], done[..n], exclude, t);
      ColumnOfTicks(rows[n].amount);
    }
  }

  // ----- Processing

  lemma AssessKeepsSound(c: Coop, member: Id, period: nat, eligible: bool)
    requires ObligationsSound(c)
    ensures ObligationsSound(c.(fees := AssessFees(c.fees, member, period, eligible)))
  {
    var a := c.(fees := AssessFees(c.fees, member, period, eligible));
    forall key: FeeKey | IsFee(key.kind) ensures FeesPaid(a, key) <= AssessedFee(a.fees, key) {
      assert FeesPaid(a, key) == FeesPaid(c, key);
      assert AssessedFee(c.fees, key) <= AssessedFee(a.fees, key);
    }
    forall t | 0 <= t < |a.charges| ensures ChargesPaid(a, t) <= a.charges[t].amount {
      assert ChargesPaid(a, t) == ChargesPaid(c, t);
    }
  }

  /** A change of status alone pays nothing. */
  lemma StatusPaysNothing(c: Coop, id: nat, status: ReceiptStatus)
    requires id < |c.receipts|
    ensures forall key :: FeesPaid(SetReceipt(c, id, c.receipts[id].(status := status)), key) == FeesPaid(c, key)
    ensures forall t: nat :: ChargesPaid(SetReceipt(c, id, c.receipts[id].(status := status)), t) == ChargesPaid(c, t)
  {
    var s := c.receipts[id].(status := status);
    forall key ensures FeesPaid(SetReceipt(c, id, s), key) == FeesPaid(c, key) {
      Sums.OfUpdate(c.receipts, id, s, FeePaid(key, None));
    }
    forall t: nat ensures ChargesPaid(SetReceipt(c, id, s), t) == ChargesPaid(c, t) {
      Sums.OfUpdate(c.receipts, id, s, ChargePaid(t, None));
    }
  }

  /** Completing a receipt adds its own rows to what is paid. */
  lemma CompletingAdds(a: Coop, id: nat, done: seq<AllocationRow>, key: FeeKey, t: nat)
    requires ReceiptsSound(a) && id < |a.receipts| && a.receipts[id].status == ReceiptPending
    ensures var r := a.receipts[id];
            var s := SetReceipt(a, id, r.(status := ReceiptCompleted, rows := done));
            FeesPaid(s, key) ==
              FeesPaid(a, key) + (if key.member == r.member && key.period == r.period
                                  then Sums.Of(done, FeeRow(key.kind)) else 0) &&
            ChargesPaid(s, t) == ChargesPaid(a, t) + Sums.Of(done, ChargeRow(t))
  {
    var r := a.receipts[id];
    var s := r.(status := ReceiptCompleted, rows := done);
    Sums.OfUpdate(a.receipts, id, s, FeePaid(key, None));
    Sums.OfUpdate(a.receipts, id, s, ChargePaid(t, None));
    PendingPaysNothing(r, key, t, None);
  }

  /** After completion every fee of the member's month is paid in full. */
  lemma CompletingPaysFee(a: Coop, id: nat, done: seq<AllocationRow>, kind: ItemKind)
    requires ReceiptsSound(a) && ObligationsSound(a) && id < |a.receipts| && a.receipts[id].status == ReceiptPending &&
             IsFee(kind)
    requires var r := a.receipts[id];
             AllCompleted(r.rows, done) && FeesMatch(r.rows, Outstanding(a, r.member, r.period, Some(id)))
    ensures var r := a.receipts[id];
            var key := FeeKey(r.member, r.period, kind);
            FeesPaid(a, key) + Sums.Of(done, FeeRow(kind)) == if key in a.fees then a.fees[key] else FeesPaid(a, key)
  {
    var r := a.receipts[id];
    var key := FeeKey(r.member, r.period, kind);
    ExcludingPending(a, id, key, 0);
    OwnFees(a, r.rows, done, r.member, r.period, Some(id), kind);
  }

  lemma CompletingPaysCharge(a: Coop, id: nat, done: seq<AllocationRow>, t: nat)
    requires ReceiptsSound(a) && ObligationsSound(a) && id < |a.receipts| && a.receipts[id].status == ReceiptPending &&
             t < |a.charges|
    requires var r := a.receipts[id];
             AllCompleted(r.rows, done) && ChargeError(a, r.member, r.branch, ItemsOf(r.rows), Some(id)).None?
    ensures var r := a.receipts[id];
            ChargesPaid(SetReceipt(a, id, r.(status := ReceiptCompleted, rows := done)), t) <= a.charges[t].amount
  {
    CompletingAdds(a, id, done, FeeKey(0, 0, Com), t);
    ExcludingPending(a, id, FeeKey(0, 0, Com), t);
    OwnCharges(a, a.receipts[id], a.receipts[id].rows, done, Some(id), t);
  }

  /** What completing a receipt pays, as seen from a state that differs only in the ledgers. */
  lemma CompletingKeepsSound(a: Coop, id: nat, done: seq<AllocationRow>, t: Coop)
    requires ReceiptsSound(a) && ObligationsSound(a) && id < |a.receipts| && a.receipts[id].status == ReceiptPending
    requires var r := a.receipts[id];
             AllCompleted(r.rows, done) && FeesMatch(r.rows, Outstanding(a, r.member, r.period, Some(id))) &&
             ChargeError(a, r.member, r.branch, ItemsOf(r.rows), Some(id)).None? &&
             t.receipts == a.receipts[id := r.(status := ReceiptCompleted, rows := done)] && t.fees == a.fees &&
             t.charges == a.charges
    ensures ObligationsSound(t)
    ensures var r := a.receipts[id]; Outstanding(t, r.member, r.period, None) == []
  {
    var r := a.receipts[id];
    var s := SetReceipt(a, id, r.(status := ReceiptCompleted, rows := done));
    forall key: FeeKey | IsFee(key.kind)
      ensures FeesPaid(t, key) <= AssessedFee(t.fees, key)
      ensures key.member == r.member && key.period == r.period ==> FeeDue(t, key, None) <= 0
    {
      CompletingAdds(a, id, done, key, 0);
      CompletingPaysFee(a, id, done, key.kind);
      assert FeesPaid(t, key) == FeesPaid(s, key);
      assert key.member == r.member && key.period == r.period ==> key == FeeKey(r.member, r.period, key.kind);
    }
    forall k | 0 <= k < |t.charges| ensures ChargesPaid(t, k) <= t.charges[k].amount {
      CompletingPaysCharge(a, id, done, k);
      assert ChargesPaid(t, k) == ChargesPaid(s, k);
    }
    assert FeeDue(t, FeeKey(r.member, r.period, Com), None) <= 0 &&
      FeeDue(t, FeeKey(r.member, r.period, Lgom), None) <= 0;
  }

  /**
    ProcessReceipt never overpays a fee or a charge, and a receipt it completes leaves no fee of its member's
    month outstanding.
   */
  lemma ProcessKeepsObligations(c: Coop, id: nat, eligible: bool, now: nat, fault: Option<nat>)
    requires ReceiptsSound(c) && AllOrNothing(c) && ObligationsSound(c)
    ensures var t := Process(c, id, eligible, now, fault).After(c);
            ObligationsSound(t) &&
            (id < |c.receipts| && c.receipts[id].status != ReceiptCompleted &&
             t.receipts[id].status == ReceiptCompleted ==>
               Outstanding(t, t.receipts[id].member, t.receipts[id].period, None) == [])
  {
    var r := Process(c, id, eligible, now, fault);
    if r.Commit? && r.state != c {
      ProcessOutcomes(c, id, eligible, now, fault);
      var t, old' := r.state, c.receipts[id];
      if t.receipts[id].status == ReceiptCompleted {
        var a := c.(fees := AssessFees(c.fees, old'.member, old'.period, eligible));
        AssessKeepsSound(c, old'.member, old'.period, eligible);
        PostRowsPost(c.desk, old', old'.rows, now, fault);
        CompletingKeepsSound(a, id, t.receipts[id].rows, t);
      } else {
        StatusPaysNothing(c, id, FailureStatus(old'.channel));
      }
    }
  }

  lemma AcceptKeepsObligations(c: Coop, n: NewReceipt)
    requires ObligationsSound(c) && |n.ids| == |n.items|
    ensures ObligationsSound(Accept(c, n).After(c))
  {
    var r := Accept(c, n);
    if r.Commit? {
      var x := r.state.receipts[|c.receipts|];
      forall key: FeeKey | IsFee(key.kind) ensures FeesPaid(r.state, key) == FeesPaid(c, key) {
        PendingPaysNothing(x, key, 0, None);
        Sums.OfAppend(c.receipts, x, FeePaid(key, None));
      }
      forall t | 0 <= t < |c.charges| ensures ChargesPaid(r.state, t) == ChargesPaid(c, t) {
        PendingPaysNothing(x, FeeKey(0, 0, Com), t, None);
        Sums.OfAppend(c.receipts, x, ChargePaid(t, None));
      }
    }
  }

  lemma RequeueKeepsObligations(c: Coop, id: nat)
    requires ObligationsSound(c)
    ensures ObligationsSound(Requeue(c, id))
  {
    if id < |c.receipts| {
      StatusPaysNothing(c, id, ReceiptPending);
    }
  }
}
