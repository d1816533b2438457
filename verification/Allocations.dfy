/**
  What a payment is for: normalising the caller's allocations, storing them as a plan, and
  comparing plans with stored rows (internal/contribution/fees.go, daraja.go, service.go).
  Amounts in a request are nanos; plans and rows hold ticks.
 */
module Allocations {
  import opened Common
  import opened Decimals
  import Sums

  datatype ItemKind =
    | Com | Lgom | SharePurchase | LoanPrincipal | LoanInterest | PenaltyCharge | OtherCharge | OverpaymentCredit

  datatype Key = Key(kind: ItemKind, target: Option<nat>)

  datatype Item = Item(kind: ItemKind, target: Option<nat>, amount: int) {
    /** allocationKey: the type and the target, if there is one. */
    function KeyOf(): Key { Key(kind, target) }
  }

  /** A row of a stored plan or of contribution_allocations: the amount is in ticks. */
  datatype Row = Row(key: Key, ticks: int)

  predicate IsFee(kind: ItemKind) { kind == Com || kind == Lgom }
  predicate IsLoan(kind: ItemKind) { kind == LoanPrincipal || kind == LoanInterest }

  function OfKey(key: Key): Item -> bool { (i: Item) => i.KeyOf() == key }

  function MatchesFee(fee: Item): Item -> bool {
    (f: Item) => f.kind == fee.kind && Ticks(f.amount) == Ticks(fee.amount)
  }

  // ----- Normalising

  /** A loan item joins the loan's entry, or starts it. */
  function AddLoan(result: seq<Item>, item: Item): seq<Item> {
    var at := First(result, OfKey(Key(LoanPrincipal, item.target)));
    if at.Some? then result[at.value :=
                            result[at.value].(amount := Nanos(Ticks(result[at.value].amount) + Ticks(item.amount)))]
    else result + [item.(kind := LoanPrincipal)]
  }

  /** What is wrong with an item that follows these. */
  function ItemError(init: seq<Item>, item: Item, fees: seq<Item>): Option<Error> {
    if item.amount <= 0 then Some(InvalidAllocation)
    else if First(init, OfKey(item.KeyOf())).Some? then Some(DuplicateAllocation)
    else if IsFee(item.kind) && item.target.Some? then Some(InvalidAllocation)
    else if IsFee(item.kind) && First(fees, MatchesFee(item)).None? then Some(MembershipFeeMismatch)
    else if IsLoan(item.kind) && item.target.None? then Some(InvalidAllocation)
    else None
  }

  /** What becomes of it: a fee is left to the fees, a loan item joins its loan, anything else stands for itself. */
  function Joined(before: seq<Item>, item: Item): seq<Item> {
    if IsFee(item.kind) then before else if IsLoan(item.kind) then AddLoan(before, item) else before + [item]
  }

  /** calculatedAllocations before the fees are appended. */
  function Collect(input: seq<Item>, fees: seq<Item>): Outcome<seq<Item>> {
    if input == [] then Ok([])
    else
      var init, item := input[..|input| - 1], input[|input| - 1];
      var result := Collect(init, fees);
      if result.Failed? then result
      else if ItemError(init, item, fees).Some? then Failed(ItemError(init, item, fees).value)
      else Ok(Joined(result.value, item))
  }

  /** calculatedAllocations. */
  function Normalise(input: seq<Item>, fees: seq<Item>): Outcome<seq<Item>> {
    var result := Collect(input, fees);
    if result.Failed? then result else Ok(result.value + fees)
  }

  predicate UniqueKeys(items: seq<Item>) { forall i, j | 0 <= i < j < |items| :: items[i].KeyOf() != items[j].KeyOf() }

  /** What monthlyFees returns: at most one positive amount per fee, without target. */
  predicate Fees(fees: seq<Item>) {
    UniqueKeys(fees) &&
    forall i | 0 <= i < |fees| ::
      IsFee(fees[i].kind) && fees[i].target.None? && 0 < fees[i].amount && fees[i].amount % TICK == 0
  }

  /** Entries in normal form: one per loan, no duplicates, no fees. */
  predicate NormalForm(items: seq<Item>) {
    && UniqueKeys(items)
    && forall i | 0 <= i < |items| ::
       !IsFee(items[i].kind) && items[i].kind != LoanInterest &&
       (items[i].kind == LoanPrincipal ==> items[i].target.Some?)
  }

  function Normal(key: Key): Key { if key.kind == LoanInterest then key.(kind := LoanPrincipal) else key }

  /** What an item contributes to an entry of the normal form. */
  function Towards(key: Key): Item -> int { (i: Item) => if Normal(i.KeyOf()) == key then Ticks(i.amount) else 0 }

  function ItemTicks(i: Item): int { Ticks(i.amount) }
  function FreeTicks(i: Item): int { if IsFee(i.kind) then 0 else Ticks(i.amount) }

  lemma {:induction false} CollectStep(input: seq<Item>, fees: seq<Item>)
    requires input != [] && Collect(input, fees).Ok?
    ensures var init, item := input[..|input| - 1], input[|input| - 1];
            Collect(init, fees).Ok? && ItemError(init, item, fees).None? &&
            Collect(input, fees).value == Joined(Collect(init, fees).value, item)
  {
  }

  predicate HasKey(items: seq<Item>, key: Key) { exists i | 0 <= i < |items| :: items[i].KeyOf() == key }

  /** Every entry answers to something the caller asked for. */
  predicate FromInput(out: seq<Item>, input: seq<Item>) { forall o | 0 <= o < |out| :: AskedFor(input, out[o].KeyOf()) }

  predicate AskedFor(input: seq<Item>, key: Key) { exists i | 0 <= i < |input| :: Normal(input[i].KeyOf()) == key }

  lemma {:induction false} AddLoanKeys(before: seq<Item>, item: Item)
    requires NormalForm(before) && IsLoan(item.kind) && item.target.Some?
    ensures NormalForm(AddLoan(before, item))
    ensures forall o | 0 <= o < |AddLoan(before, item)| ::
              AddLoan(before, item)[o].KeyOf() == Normal(item.KeyOf()) ||
              (o < |before| && AddLoan(before, item)[o].KeyOf() == before[o].KeyOf())
  {
    FirstNone(before, OfKey(Key(LoanPrincipal, item.target)));
  }

  /** An item that is neither fee nor loan and whose key is new to the input is new to the entries. */
  lemma {:induction false} NewKey(before: seq<Item>, init: seq<Item>, item: Item)
    requires FromInput(before, init) && !IsFee(item.kind) && !IsLoan(item.kind) &&
             First(init, OfKey(item.KeyOf())).None?
    ensures !HasKey(before, item.KeyOf())
  {
    FirstNone(init, OfKey(item.KeyOf()));
  }

  lemma {:induction false} JoinedFromInput(before: seq<Item>, init: seq<Item>, item: Item)
    requires NormalForm(before) && FromInput(before, init) && (IsLoan(item.kind) ==> item.target.Some?)
    ensures FromInput(Joined(before, item), init + [item])
  {
    if IsLoan(item.kind) { AddLoanKeys(before, item); }
    var out, input := Joined(before, item), init + [item];
    forall o | 0 <= o < |out| ensures AskedFor(input, out[o].KeyOf()) {
      if o < |before| && out[o].KeyOf() == before[o].KeyOf() {
        assert AskedFor(init, before[o].KeyOf());
        var i :| 0 <= i < |init| && Normal(init[i].KeyOf()) == before[o].KeyOf();
        assert input[i] == init[i];
      } else {
        assert input[|init|] == item;
      }
    }
  }

  /** The entries are in normal form, and each has a key the caller asked for. */
  lemma {:induction false} CollectKeys(input: seq<Item>, fees: seq<Item>)
    requires Collect(input, fees).Ok?
    ensures NormalForm(Collect(input, fees).value) && FromInput(Collect(input, fees).value, input)
  {
    if input != [] {
      var init, item := input[..|input| - 1], input[|input| - 1];
      CollectStep(input, fees);
      CollectKeys(init, fees);
      var before := Collect(init, fees).value;
      assert input == init + [item];
      JoinedFromInput(before, init, item);
      if IsLoan(item.kind) {
        AddLoanKeys(before, item);
      } else if !IsFee(item.kind) {
        NewKey(before, init, item);
      }
    }
  }

  lemma {:induction false} JoinedConserves(before: seq<Item>, item: Item, key: Key)
    requires 0 < item.amount && !IsFee(key.kind)
    ensures Sums.Of(Joined(before, item), Towards(key)) == Sums.Of(before, Towards(key)) + Towards(key)(item)
    ensures Sums.Of(Joined(before, item), ItemTicks) == Sums.Of(before, ItemTicks) + FreeTicks(item)
  {
    if IsLoan(item.kind) {
      AddLoanConserves(before, item, key);
    } else if !IsFee(item.kind) {
      Sums.OfAppend(before, item, Towards(key));
      Sums.OfAppend(before, item, ItemTicks);
    }
  }

  lemma {:induction false} InputStep(input: seq<Item>, key: Key)
    requires input != []
    ensures Sums.Of(input, Towards(key)) ==
            Sums.Of(input[..|input| - 1], Towards(key)) + Towards(key)(input[|input| - 1])
    ensures Sums.Of(input, FreeTicks) == Sums.Of(input[..|input| - 1], FreeTicks) + FreeTicks(input[|input| - 1])
  {
  }

  /** Every entry carries exactly what the caller allocated to it: nothing is lost, split or moved. */
  lemma {:induction false} CollectConserves(input: seq<Item>, fees: seq<Item>, key: Key)
    requires Collect(input, fees).Ok? && !IsFee(key.kind)
    ensures Sums.Of(Collect(input, fees).value, Towards(key)) == Sums.Of(input, Towards(key))
    ensures Sums.Of(Collect(input, fees).value, ItemTicks) == Sums.Of(input, FreeTicks)
  {
    if input != [] {
      var init, item := input[..|input| - 1], input[|input| - 1];
      CollectStep(input, fees);
      var before, after := Collect(init, fees).value, Collect(input, fees).value;
      assert after == Joined(before, item);
      CollectConserves(init, fees, key);
      JoinedConserves(before, item, key);
      InputStep(input, key);
    }
  }

  lemma {:induction false} AddLoanConserves(result: seq<Item>, item: Item, key: Key)
    requires IsLoan(item.kind) && item.amount > 0
    ensures Sums.Of(AddLoan(result, item), Towards(key)) == Sums.Of(result, Towards(key)) + Towards(key)(item)
    ensures Sums.Of(AddLoan(result, item), ItemTicks) == Sums.Of(result, ItemTicks) + ItemTicks(item)
  {
    var at := First(result, OfKey(Key(LoanPrincipal, item.target)));
    if at.Some? {
      var merged := AddLoan(result, item)[at.value];
      ColumnOfTicks(Ticks(result[at.value].amount) + Ticks(item.amount));
      Sums.OfUpdate(result, at.value, merged, Towards(key));
      Sums.OfUpdate(result, at.value, merged, ItemTicks);
    } else {
      Sums.OfAppend(result, item.(kind := LoanPrincipal), Towards(key));
      Sums.OfAppend(result, item.(kind := LoanPrincipal), ItemTicks);
    }
  }

  /** The normalised total is what the caller chose freely plus the fees, and no key appears twice. */
  lemma NormaliseConserves(input: seq<Item>, fees: seq<Item>)
    requires Normalise(input, fees).Ok? && Fees(fees)
    ensures var out := Normalise(input, fees).value;
            UniqueKeys(out) && Sums.Of(out, ItemTicks) == Sums.Of(input, FreeTicks) + Sums.Of(fees, ItemTicks)
  {
    CollectKeys(input, fees);
    CollectConserves(input, fees, Key(OtherCharge, None));
    Sums.OfConcat(Collect(input, fees).value, fees, ItemTicks);
  }

  /** Entries in normal form are collected as they are. */
  lemma {:induction false} CollectNormalForm(items: seq<Item>, fees: seq<Item>)
    requires NormalForm(items) && forall i | 0 <= i < |items| :: 0 < items[i].amount
    ensures Collect(items, fees) == Ok(items)
  {
    if items != [] {
      var init, item := items[..|items| - 1], items[|items| - 1];
      CollectNormalForm(init, fees);
      FirstNone(init, OfKey(item.KeyOf()));
      assert items == init + [item];
      assert item.kind == LoanPrincipal ==> item.(kind := LoanPrincipal) == item;
    }
  }

  /** ... and the fees appended to them are recognised and set aside again. */
  lemma {:induction false} CollectWithFees(items: seq<Item>, fees: seq<Item>, k: nat)
    requires NormalForm(items) && Fees(fees) && k <= |fees|
    requires forall i | 0 <= i < |items| :: 0 < items[i].amount
    ensures Collect(items + fees[..k], fees) == Ok(items)
  {
    if k == 0 {
      assert items + fees[..0] == items;
      CollectNormalForm(items, fees);
    } else {
      var input := items + fees[..k];
      assert input[..|input| - 1] == items + fees[..k - 1];
      CollectWithFees(items, fees, k - 1);
      FeeIsRecognised(items, fees, k - 1);
    }
  }

  lemma {:induction false} FeeIsRecognised(items: seq<Item>, fees: seq<Item>, k: nat)
    requires NormalForm(items) && Fees(fees) && k < |fees|
    ensures ItemError(items + fees[..k], fees[k], fees).None? && IsFee(fees[k].kind)
  {
    var init := items + fees[..k];
    FirstNone(init, OfKey(fees[k].KeyOf()));
    FirstNone(fees, MatchesFee(fees[k]));
    assert MatchesFee(fees[k])(fees[k]);
    forall i | 0 <= i < |init| ensures init[i].KeyOf() != fees[k].KeyOf() {
      if i < |items| { assert !IsFee(items[i].kind); } else { assert init[i] == fees[i - |items|]; }
    }
  }

  // ----- When normalising again changes nothing

  /** A part of this loan's entry. */
  predicate PartOf(i: Item, target: Option<nat>) { IsLoan(i.kind) && i.target == target }

  /** Two parts for one loan, each below a tick. */
  predicate TinyParts(input: seq<Item>, target: Option<nat>) {
    exists k, l | 0 <= k < l < |input| ::
      PartOf(input[k], target) && PartOf(input[l], target) && Ticks(input[k].amount) == Ticks(input[l].amount) == 0
  }

  lemma {:induction false} CollectedUnique(input: seq<Item>, fees: seq<Item>)
    requires Collect(input, fees).Ok?
    ensures UniqueKeys(input)
  {
    if input != [] {
      var init, item := input[..|input| - 1], input[|input| - 1];
      CollectStep(input, fees);
      CollectedUnique(init, fees);
      FirstNone(init, OfKey(item.KeyOf()));
      forall i, j | 0 <= i < j < |input| ensures input[i].KeyOf() != input[j].KeyOf() {
        assert input[i] == init[i] && (j < |init| ==> input[j] == init[j]);
      }
    }
  }

  /** A loan's entry is not touched by an item that is no part of it. */
  lemma {:induction false} EntryStays(before: seq<Item>, item: Item, o: nat, target: Option<nat>)
    requires NormalForm(before) && (IsLoan(item.kind) ==> item.target.Some?) && !PartOf(item, target)
    requires o < |Joined(before, item)| && Joined(before, item)[o].KeyOf() == Key(LoanPrincipal, target)
    ensures o < |before| && before[o] == Joined(before, item)[o]
  {
    FirstNone(before, OfKey(Key(LoanPrincipal, item.target)));
  }

  /** One part: the entry is that item's amount, as it was given. */
  lemma {:induction false} SinglePart(input: seq<Item>, fees: seq<Item>, o: nat, k: nat)
    requires Collect(input, fees).Ok? && o < |Collect(input, fees).value| && k < |input| && IsLoan(input[k].kind)
    requires Collect(input, fees).value[o].KeyOf() == Key(LoanPrincipal, input[k].target)
    requires forall i | 0 <= i < |input| && i != k :: !PartOf(input[i], input[k].target)
    ensures Collect(input, fees).value[o].amount == input[k].amount
  {
    var init, item := input[..|input| - 1], input[|input| - 1];
    CollectStep(input, fees);
    CollectKeys(init, fees);
    var before := Collect(init, fees).value;
    if k == |init| {
      NoEntryYet(before, init, item);
    } else {
      assert item == input[|init|];
      EntryStays(before, item, o, input[k].target);
      SinglePart(init, fees, o, k);
    }
  }

  lemma {:induction false} NoEntryYet(before: seq<Item>, init: seq<Item>, item: Item)
    requires FromInput(before, init) && NormalForm(before) && IsLoan(item.kind) &&
             forall i | 0 <= i < |init| :: !PartOf(init[i], item.target)
    ensures First(before, OfKey(Key(LoanPrincipal, item.target))).None?
    ensures forall o | 0 <= o < |before| :: before[o].KeyOf() != Key(LoanPrincipal, item.target)
  {
    forall o | 0 <= o < |before| ensures before[o].KeyOf() != Key(LoanPrincipal, item.target) {
      assert AskedFor(init, before[o].KeyOf());
    }
    FirstNone(before, OfKey(Key(LoanPrincipal, item.target)));
  }

  /** Two parts: the entry is the sum of their ticks. */
  lemma {:induction false} TwoParts(input: seq<Item>, fees: seq<Item>, o: nat, k: nat, l: nat)
    requires Collect(input, fees).Ok? && o < |Collect(input, fees).value| && k < l < |input|
    requires PartOf(input[k], input[l].target) && IsLoan(input[l].kind)
    requires Collect(input, fees).value[o].KeyOf() == Key(LoanPrincipal, input[l].target)
    ensures Collect(input, fees).value[o].amount == Nanos(Ticks(input[k].amount) + Ticks(input[l].amount))
  {
    var init, item := input[..|input| - 1], input[|input| - 1];
    CollectStep(input, fees);
    CollectKeys(init, fees);
    CollectedUnique(input, fees);
    var before := Collect(init, fees).value;
    OtherItems(input, k, l);
    if l == |init| {
      JoinsEntry(before, item, o);
      if o < |before| && before[o].KeyOf() == Key(LoanPrincipal, item.target) { SinglePart(init, fees, o, k); }
      EntryExists(init, fees, k);
    } else {
      assert item == input[|init|];
      EntryStays(before, item, o, input[l].target);
      TwoParts(init, fees, o, k, l);
    }
  }

  /** A loan has at most two parts. */
  lemma {:induction false} OtherItems(input: seq<Item>, k: nat, l: nat)
    requires UniqueKeys(input) && k < l < |input| && PartOf(input[k], input[l].target) && IsLoan(input[l].kind)
    ensures forall i | 0 <= i < |input| && i != k && i != l :: !PartOf(input[i], input[l].target)
  {
    forall i | 0 <= i < |input| && i != k && i != l ensures !PartOf(input[i], input[l].target) {
      assert input[k].KeyOf() != input[l].KeyOf();
      assert input[i].KeyOf() != input[k].KeyOf() && input[i].KeyOf() != input[l].KeyOf();
    }
  }

  lemma {:induction false} JoinsEntry(before: seq<Item>, item: Item, o: nat)
    requires NormalForm(before) && IsLoan(item.kind) && o < |Joined(before, item)|
    requires Joined(before, item)[o].KeyOf() == Key(LoanPrincipal, item.target)
    ensures HasKey(before, Key(LoanPrincipal, item.target)) ==>
              o < |before| && before[o].KeyOf() == Key(LoanPrincipal, item.target) &&
              Joined(before, item)[o].amount == Nanos(Ticks(before[o].amount) + Ticks(item.amount))
  {
    FirstNone(before, OfKey(Key(LoanPrincipal, item.target)));
  }

  lemma {:induction false} JoinedHasKey(before: seq<Item>, item: Item)
    requires IsLoan(item.kind)
    ensures HasKey(Joined(before, item), Key(LoanPrincipal, item.target))
  {
    var at := First(before, OfKey(Key(LoanPrincipal, item.target)));
    assert Joined(before, item)[if at.Some? then at.value else |before|].KeyOf() == Key(LoanPrincipal, item.target);
  }

  lemma {:induction false} JoinedKeepsKey(before: seq<Item>, item: Item, key: Key)
    requires HasKey(before, key)
    ensures HasKey(Joined(before, item), key)
  {
    var o :| 0 <= o < |before| && before[o].KeyOf() == key;
    assert Joined(before, item)[o].KeyOf() == key;
  }

  lemma {:induction false} EntryExists(input: seq<Item>, fees: seq<Item>, k: nat)
    requires Collect(input, fees).Ok? && k < |input| && IsLoan(input[k].kind)
    ensures HasKey(Collect(input, fees).value, Key(LoanPrincipal, input[k].target))
  {
    var init, item := input[..|input| - 1], input[|input| - 1];
    CollectStep(input, fees);
    if k == |init| {
      JoinedHasKey(Collect(init, fees).value, item);
    } else {
      EntryExists(init, fees, k);
      JoinedKeepsKey(Collect(init, fees).value, item, Key(LoanPrincipal, input[k].target));
    }
  }

  /** An entry is positive exactly when it was not made of two parts below a tick. */
  lemma {:induction false} EntryPositiveIff(input: seq<Item>, fees: seq<Item>, o: nat)
    requires Collect(input, fees).Ok? && o < |Collect(input, fees).value| &&
             Collect(input, fees).value[o].kind == LoanPrincipal
    ensures 0 < Collect(input, fees).value[o].amount <==> !TinyParts(input, Collect(input, fees).value[o].target)
  {
    var entry := Collect(input, fees).value[o];
    CollectKeys(input, fees);
    CollectedUnique(input, fees);
    CollectedArePositive(input, fees);
    assert AskedFor(input, entry.KeyOf());
    var k :| 0 <= k < |input| && Normal(input[k].KeyOf()) == entry.KeyOf();
    if l :| 0 <= l < |input| && l != k && PartOf(input[l], entry.target) {
      var a, b := if k < l then k else l, if k < l then l else k;
      TwoParts(input, fees, o, a, b);
      OtherItems(input, a, b);
    } else {
      SinglePart(input, fees, o, k);
    }
  }

  lemma {:induction false} OtherEntryPositive(input: seq<Item>, fees: seq<Item>, o: nat)
    requires Collect(input, fees).Ok? && o < |Collect(input, fees).value| &&
             Collect(input, fees).value[o].kind != LoanPrincipal
    ensures 0 < Collect(input, fees).value[o].amount
  {
    if input != [] {
      var init, item := input[..|input| - 1], input[|input| - 1];
      CollectStep(input, fees);
      if o < |Collect(init, fees).value| && Collect(init, fees).value[o].kind != LoanPrincipal {
        OtherEntryPositive(init, fees, o);
      }
    }
  }

  /** Normalising twice is normalising once, exactly when no loan is given two parts that are each below a tick. */
  lemma {:induction false} NormaliseIdempotentIff(input: seq<Item>, fees: seq<Item>)
    requires Normalise(input, fees).Ok? && Fees(fees)
    ensures var out := Normalise(input, fees).value;
            Normalise(out, fees) == Ok(out) <==> forall target: Option<nat> :: !TinyParts(input, target)
  {
    var items := Collect(input, fees).value;
    IdempotentIfPositive(input, fees);
    forall o | 0 <= o < |items|
      ensures 0 < items[o].amount <==> items[o].kind != LoanPrincipal || !TinyParts(input, items[o].target)
    {
      if items[o].kind == LoanPrincipal {
        EntryPositiveIff(input, fees, o);
      } else {
        OtherEntryPositive(input, fees, o);
      }
    }
    forall target | TinyParts(input, target) ensures exists o | 0 <= o < |items| :: items[o].amount <= 0 {
      var k, l :| 0 <= k < l < |input| && PartOf(input[k], target) && PartOf(input[l], target) &&
      Ticks(input[k].amount) == Ticks(input[l].amount) == 0;
      EntryExists(input, fees, k);
      var o :| 0 <= o < |items| && items[o].KeyOf() == Key(LoanPrincipal, input[k].target);
      assert items[o].amount <= 0;
    }
  }

  lemma {:induction false} IdempotentIfPositive(input: seq<Item>, fees: seq<Item>)
    requires Normalise(input, fees).Ok? && Fees(fees)
    ensures var out := Normalise(input, fees).value;
            Normalise(out, fees) == Ok(out) <==>
              forall i | 0 <= i < |Collect(input, fees).value| :: 0 < Collect(input, fees).value[i].amount
  {
    var items := Collect(input, fees).value;
    var out := items + fees;
    CollectKeys(input, fees);
    assert fees[..|fees|] == fees;
    if forall i | 0 <= i < |items| :: 0 < items[i].amount { CollectWithFees(items, fees, |fees|); }
    if Collect(out, fees).Ok? {
      CollectedArePositive(out, fees);
      assert forall i | 0 <= i < |items| :: items[i] == out[i];
    }
  }

  lemma {:induction false} CollectedArePositive(input: seq<Item>, fees: seq<Item>)
    requires Collect(input, fees).Ok?
    ensures forall i | 0 <= i < |input| :: 0 < input[i].amount
  {
    if input != [] {
      CollectStep(input, fees);
      CollectedArePositive(input[..|input| - 1], fees);
    }
  }

  /** Two loan items of less than half a tick each merge into nothing. */
  lemma MergedToNothing()
    ensures var input := [Item(LoanPrincipal, Some(3), 7), Item(LoanInterest, Some(3), 7)];
            Normalise(input, []) == Ok([Item(LoanPrincipal, Some(3), 0)]) &&
            Normalise([Item(LoanPrincipal, Some(3), 0)], []) == Failed(InvalidAllocation)
  {
    var a, b := Item(LoanPrincipal, Some(3), 7), Item(LoanInterest, Some(3), 7);
    var input := [a, b];
    assert input[..1] == [a] && [a][..0] == [];
    assert Collect([], []) == Ok([]) && First([], OfKey(a.KeyOf())).None?;
    assert AddLoan([], a) == [a] by { assert First([], OfKey(Key(LoanPrincipal, Some(3)))).None?; }
    assert First([a], OfKey(b.KeyOf())).None?;
    assert First([a], OfKey(Key(LoanPrincipal, Some(3)))) == Some(0);
    assert Collect([a], []) == Ok([a]);
    var merged := Item(LoanPrincipal, Some(3), 0);
    assert AddLoan([a], b) == [merged] by { assert [a][0 := merged] == [merged]; }
    assert Collect(input, []) == Ok([merged]) && [merged] + [] == [merged];
    assert [merged][..0] == [];
  }

  ghost predicate SeenKeys(prefix: seq<Item>, seen: set<Key>) {
    forall k :: k in seen <==> First(prefix, OfKey(k)).Some?
  }

  /** The map of loan positions points at each loan's entry. */
  ghost predicate LoanPositions(result: seq<Item>, loans: map<nat, nat>) {
    forall t: nat :: First(result, OfKey(Key(LoanPrincipal, Some(t)))) == if t in loans then Some(loans[t]) else None
  }

  lemma FirstOfAppended(items: seq<Item>, item: Item, k: Key)
    ensures First(items + [item], OfKey(k)) ==
            if First(items, OfKey(k)).Some? then First(items, OfKey(k))
              else if item.KeyOf() == k then Some(|items|) else None
  {
    assert (items + [item])[..|items|] == items;
  }

  lemma SeenStep(prefix: seq<Item>, item: Item, seen: set<Key>)
    requires SeenKeys(prefix, seen)
    ensures SeenKeys(prefix + [item], seen + {item.KeyOf()})
  {
    forall k ensures k in seen + {item.KeyOf()} <==> First(prefix + [item], OfKey(k)).Some? {
      FirstOfAppended(prefix, item, k);
    }
  }

  lemma PositionsAppend(result: seq<Item>, item: Item, loans: map<nat, nat>)
    requires LoanPositions(result, loans) && item.kind != LoanPrincipal
    ensures LoanPositions(result + [item], loans)
  {
    forall t: nat
      ensures First(result + [item], OfKey(Key(LoanPrincipal, Some(t)))) == if t in loans then Some(loans[t]) else None
    {
      FirstOfAppended(result, item, Key(LoanPrincipal, Some(t)));
    }
  }

  lemma PositionsAdd(result: seq<Item>, item: Item, loans: map<nat, nat>)
    requires LoanPositions(result, loans) && IsLoan(item.kind) && item.target.Some?
    ensures LoanPositions(AddLoan(result, item),
                          if item.target.value in loans then loans else loans[item.target.value := |result|])
  {
    var after := if item.target.value in loans then loans else loans[item.target.value := |result|];
    forall t: nat
      ensures First(AddLoan(result, item), OfKey(Key(LoanPrincipal, Some(t)))) ==
              if t in after then Some(after[t]) else None
    {
      var k := Key(LoanPrincipal, Some(t));
      if item.target.value in loans {
        SameKeysSameFirst(result, AddLoan(result, item), k);
      } else {
        FirstOfAppended(result, item.(kind := LoanPrincipal), k);
      }
    }
  }

  /** A loan item: its loan's entry is updated in place, or started. */
  method PlaceLoan(item: Item, before: seq<Item>, positions: map<nat, nat>)
    returns (result: seq<Item>, loans: map<nat, nat>)
    requires LoanPositions(before, positions) && IsLoan(item.kind) && item.target.Some?
    ensures result == AddLoan(before, item) && LoanPositions(result, loans)
  {
    result, loans := before, positions;
    PositionsAdd(before, item, positions);
    assert First(before, OfKey(Key(LoanPrincipal, item.target))) ==
           if item.target.value in positions then Some(positions[item.target.value]) else None;
    if item.target.value in loans {
      var at := loans[item.target.value];
      var amount := Ticks(result[at].amount);
      amount := amount + Ticks(item.amount);
      result := result[at := result[at].(amount := Nanos(amount))];
    } else {
      loans := loans[item.target.value := |result|];
      result := result + [item.(kind := LoanPrincipal)];
    }
  }

  /** The checks of calculatedAllocations' loop. */
  method CheckItem(item: Item, fees: seq<Item>, seen: set<Key>, ghost prefix: seq<Item>) returns (e: Option<Error>)
    requires SeenKeys(prefix, seen)
    ensures e == ItemError(prefix, item, fees)
  {
    if item.amount <= 0 { return Some(InvalidAllocation); }
    if item.KeyOf() in seen { return Some(DuplicateAllocation); }
    if IsFee(item.kind) {
      if item.target.Some? { return Some(InvalidAllocation); }
      var matches := exists i | 0 <= i < |fees| ::
        fees[i].kind == item.kind && Ticks(fees[i].amount) == Ticks(item.amount);
      FirstNone(fees, MatchesFee(item));
      return if matches then None else Some(MembershipFeeMismatch);
    }
    e := if IsLoan(item.kind) && item.target.None? then Some(InvalidAllocation) else None;
  }

  /** calculatedAllocations as the service writes it, with its maps of seen keys and loan positions. */
  method CalculatedAllocations(input: seq<Item>, fees: seq<Item>) returns (r: Outcome<seq<Item>>)
    ensures r == Normalise(input, fees)
  {
    var result: seq<Item>, seen: set<Key>, loans: map<nat, nat> := [], {}, map[];
    for n := 0 to |input|
      invariant Collect(input[..n], fees) == Ok(result)
      invariant SeenKeys(input[..n], seen) && LoanPositions(result, loans)
    {
      var item := input[n];
      assert input[..n + 1] == input[..n] + [item] && input[..n + 1][..n] == input[..n];
      var e := CheckItem(item, fees, seen, input[..n]);
      if e.Some? {
        FailedPrefix(input, fees, n + 1);
        return Failed(e.value);
      }
      SeenStep(input[..n], item, seen);
      seen := seen + {item.KeyOf()};
      if IsLoan(item.kind) {
        result, loans := PlaceLoan(item, result, loans);
      } else if !IsFee(item.kind) {
        PositionsAppend(result, item, loans);
        result := result + [item];
      }
    }
    assert input[..|input|] == input;
    r := Ok(result + fees);
  }

  lemma {:induction false} SameKeysSameFirst(a: seq<Item>, b: seq<Item>, k: Key)
    requires |a| == |b| && forall i | 0 <= i < |a| :: a[i].KeyOf() == b[i].KeyOf()
    ensures First(a, OfKey(k)) == First(b, OfKey(k))
  {
    if a != [] {
      SameKeysSameFirst(a[..|a| - 1], b[..|b| - 1], k);
    }
  }

  lemma {:induction false} FailedPrefix(input: seq<Item>, fees: seq<Item>, n: nat)
    requires n <= |input| && Collect(input[..n], fees).Failed?
    ensures Collect(input, fees) == Collect(input[..n], fees)
  {
    if n == |input| {
      assert input[..n] == input;
    } else {
      assert input[..|input| - 1][..n] == input[..n];
      FailedPrefix(input[..|input| - 1], fees, n);
    }
  }

  // ----- Plans and retries

  /** buildAllocationPlan. */
  function BuildPlan(items: seq<Item>): (plan: seq<Row>)
    ensures |plan| == |items| && forall i | 0 <= i < |items| :: plan[i] == Row(items[i].KeyOf(), Ticks(items[i].amount))
  {
    seq(|items|, (i: nat) requires i < |items| => Row(items[i].KeyOf(), Ticks(items[i].amount)))
  }

  function Parsed(row: Row): Item { Item(row.key.kind, row.key.target, Nanos(row.ticks)) }

  /** The fees of a stored plan. */
  function PlanFees(plan: seq<Row>): seq<Item> {
    if plan == [] then []
    else PlanFees(plan[..|plan| - 1]) + (if IsFee(plan[|plan| - 1].key.kind) then [Parsed(plan[|plan| - 1])] else [])
  }

  /** allocationsForRetry. */
  function ForRetry(input: seq<Item>, plan: seq<Row>): Outcome<seq<Item>> {
    if plan == [] then Failed(AllocationRequired) else Normalise(input, PlanFees(plan))
  }

  lemma {:induction false} PlanFeesOfBuilt(items: seq<Item>, fees: seq<Item>, k: nat)
    requires Fees(fees) && k <= |fees| && forall i | 0 <= i < |items| :: !IsFee(items[i].kind)
    ensures PlanFees(BuildPlan(items + fees[..k])) == fees[..k]
    decreases |items| + k
  {
    var all := items + fees[..k];
    var plan := BuildPlan(all);
    if k > 0 {
      assert all[..|all| - 1] == items + fees[..k - 1];
      assert plan[..|plan| - 1] == BuildPlan(items + fees[..k - 1]);
      PlanFeesOfBuilt(items, fees, k - 1);
      var fee := fees[k - 1];
      assert fee.amount == Nanos(fee.amount / TICK);
      ColumnOfTicks(fee.amount / TICK);
      assert Parsed(plan[|plan| - 1]) == fee;
    } else if items != [] {
      assert all == items;
      assert plan[..|plan| - 1] == BuildPlan(items[..|items| - 1] + fees[..0]);
      PlanFeesOfBuilt(items[..|items| - 1], fees, 0);
    }
  }

  /** Retrying against the stored plan reproduces the accepted allocations, whatever fees are due by then. */
  lemma RetryReproduces(input: seq<Item>, fees: seq<Item>)
    requires Fees(fees) && Normalise(input, fees).Ok? && Normalise(input, fees).value != []
    ensures ForRetry(input, BuildPlan(Normalise(input, fees).value)) == Normalise(input, fees)
  {
    CollectKeys(input, fees);
    PlanFeesOfBuilt(Collect(input, fees).value, fees, |fees|);
    assert fees[..|fees|] == fees;
  }

  // ----- Comparing with stored rows

  predicate UniqueRows(rows: seq<Row>) { forall i, j | 0 <= i < j < |rows| :: rows[i].key != rows[j].key }

  /** The amount a list gives to each of its keys. */
  function AmountMap(rows: seq<Row>): map<Key, int> {
    if rows == [] then map[] else AmountMap(rows[..|rows| - 1])[rows[|rows| - 1].key := rows[|rows| - 1].ticks]
  }

  lemma {:induction false} AmountMapOfUnique(rows: seq<Row>)
    requires UniqueRows(rows)
    ensures |AmountMap(rows)| == |rows|
    ensures forall i | 0 <= i < |rows| ::
            rows[i].key in AmountMap(rows) && AmountMap(rows)[rows[i].key] == rows[i].ticks
    ensures forall k | k in AmountMap(rows) :: exists i :: 0 <= i < |rows| && rows[i].key == k
  {
    if rows != [] {
      var init, last := rows[..|rows| - 1], rows[|rows| - 1];
      AmountMapOfUnique(init);
      assert last.key !in AmountMap(init);
      assert forall i | 0 <= i < |init| :: init[i] == rows[i];
      assert rows[|init|].key == last.key;
    }
  }

  lemma AmountMapStep(rows: seq<Row>, i: nat)
    requires i < |rows| && UniqueRows(rows[..i])
    ensures UniqueRows(rows[..i + 1]) <==> rows[i].key !in AmountMap(rows[..i])
    ensures AmountMap(rows[..i + 1]) == AmountMap(rows[..i])[rows[i].key := rows[i].ticks]
  {
    AmountMapOfUnique(rows[..i]);
    assert rows[..i + 1][..i] == rows[..i];
    forall j | 0 <= j < i ensures rows[..i][j] == rows[j] && rows[..i + 1][j] == rows[j] {}
  }

  lemma PrefixUnique(rows: seq<Row>, i: nat)
    requires i <= |rows| && UniqueRows(rows)
    ensures UniqueRows(rows[..i])
  {
  }

  /** The stored rows by key, or nothing when a key is stored twice. */
  method IndexRows(actual: seq<Row>) returns (amounts: Option<map<Key, int>>)
    ensures amounts == if UniqueRows(actual) then Some(AmountMap(actual)) else None
  {
    var m: map<Key, int> := map[];
    for i := 0 to |actual|
      invariant UniqueRows(actual[..i]) && m == AmountMap(actual[..i])
    {
      if UniqueRows(actual) { PrefixUnique(actual, i + 1); }
      AmountMapStep(actual, i);
      if actual[i].key in m { return None; }
      m := m[actual[i].key := actual[i].ticks];
    }
    assert actual[..|actual|] == actual;
    amounts := Some(m);
  }

  /** Both lists are duplicate-free and give the same amounts to the same keys. */
  predicate RowsMatch(expected: seq<Item>, actual: seq<Row>) {
    UniqueRows(actual) && UniqueRows(BuildPlan(expected)) && AmountMap(actual) == AmountMap(BuildPlan(expected))
  }

  /** Every row of the list has its amount in the map. */
  predicate AmountsIn(rows: seq<Row>, amounts: map<Key, int>) {
    forall j | 0 <= j < |rows| :: rows[j].key in amounts && amounts[rows[j].key] == rows[j].ticks
  }

  lemma {:induction false} MatchIff(plan: seq<Row>, actual: seq<Row>)
    requires UniqueRows(actual)
    ensures UniqueRows(plan) && AmountMap(actual) == AmountMap(plan) <==>
            |plan| == |actual| && UniqueRows(plan) && AmountsIn(plan, AmountMap(actual))
  {
    AmountMapOfUnique(actual);
    if UniqueRows(plan) {
      AmountMapOfUnique(plan);
      if |plan| == |actual| && AmountsIn(plan, AmountMap(actual)) {
        SameMap(AmountMap(plan), AmountMap(actual));
      }
    }
  }

  /** The loop over the expected allocations: each must be new and have its amount in the map. */
  method AllAmountsIn(expected: seq<Item>, amounts: map<Key, int>) returns (ok: bool)
    ensures ok <==> UniqueRows(BuildPlan(expected)) && AmountsIn(BuildPlan(expected), amounts)
  {
    ghost var plan := BuildPlan(expected);
    var seen: map<Key, int> := map[];
    for i := 0 to |expected|
      invariant UniqueRows(plan[..i]) && seen == AmountMap(plan[..i])
      invariant AmountsIn(plan[..i], amounts)
    {
      var key, ticks := expected[i].KeyOf(), Ticks(expected[i].amount);
      assert plan[i] == Row(key, ticks);
      if UniqueRows(plan) { PrefixUnique(plan, i + 1); }
      AmountMapStep(plan, i);
      if key in seen || key !in amounts || amounts[key] != ticks { return false; }
      seen := seen[key := ticks];
      assert plan[..i + 1] == plan[..i] + [plan[i]];
    }
    assert plan[..|plan|] == plan;
    ok := true;
  }

  /** verifyAllocationsMatch accepts exactly when both lists are duplicate-free and denote the same amounts. */
  method VerifyAllocationsMatch(expected: seq<Item>, actual: seq<Row>) returns (e: Option<Error>)
    ensures e.None? <==> RowsMatch(expected, actual)
    ensures e.Some? ==> e.value == InconsistentReceipt
  {
    var stored := IndexRows(actual);
    if stored.None? { return Some(InconsistentReceipt); }
    MatchIff(BuildPlan(expected), actual);
    if |expected| != |actual| { return Some(InconsistentReceipt); }
    var ok := AllAmountsIn(expected, stored.value);
    e := if ok then None else Some(InconsistentReceipt);
  }

  /** A map contained in another of the same size is the other. */
  lemma SameMap(m: map<Key, int>, n: map<Key, int>)
    requires |m| == |n| && forall k | k in m :: k in n && n[k] == m[k]
    ensures m == n
  {
    assert m.Keys <= n.Keys;
    SameSet(m.Keys, n.Keys);
  }

  lemma {:induction false} SameSet(a: set<Key>, b: set<Key>)
    requires a <= b && |a| == |b|
    ensures a == b
  {
    if a != {} {
      var x :| x in a;
      SameSet(a - {x}, b - {x});
    }
  }
}
