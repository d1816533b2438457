/** The cash desk of the contribution service over its tables; proved against the transactions of CashCustody. */
module CashService {
  import opened Common
  import opened Decimals
  import opened Allocations
  import opened Receipts
  import opened CashCustody
  import ShareLedger
  import LoanAccount
  import Credits
  import ReceiptService
  import Sums

  lemma {:induction false} TargetsErrorOfPrefix(d: Credits.Desk, items: seq<Item>, member: Id, branch: nat, i: nat)
    requires i <= |items| && TargetsError(d, items[..i], member, branch).Some?
    ensures TargetsError(d, items, member, branch) == TargetsError(d, items[..i], member, branch)
  {
    if i == |items| {
      assert items[..i] == items;
    } else {
      assert items[..|items| - 1][..i] == items[..i];
      TargetsErrorOfPrefix(d, items[..|items| - 1], member, branch, i);
    }
  }

  class CashDesk {
    const desk: ReceiptService.ReceiptDesk
    var tickets: seq<Ticket>
    var sessions: seq<Session>
    var deposits: seq<Deposit>

    constructor (desk: ReceiptService.ReceiptDesk)
      requires desk.receipts == []
      ensures this.desk == desk && State() == Till(desk.State(), [], [], [])
    {
      this.desk := desk;
      tickets, sessions, deposits := [], [], [];
    }

    ghost function State(): Till
      reads this, desk, desk.credits, desk.credits.office, desk.credits.office.book
    {
      Till(desk.State(), tickets, sessions, deposits)
    }

    /** OpenCashierSession. */
    method OpenTill(branch: nat, cashier: Id) returns (id: nat)
      modifies this`sessions
      ensures Commit(State(), id) == OpenSession(old(State()), branch, cashier)
    {
      var open := First(sessions, OpenOf(cashier));
      if open.Some? { return open.value; }
      id := |sessions|;
      sessions := sessions + [Session(branch, cashier, TillOpen, 0, 0, false, None)];
    }

    /** ValidateContributionTarget for every allocation. */
    method ValidateTargets(items: seq<Item>, member: Id, branch: nat) returns (e: Option<Error>)
      ensures e == TargetsError(desk.credits.State(), items, member, branch)
    {
      for i := 0 to |items|
        invariant TargetsError(desk.credits.State(), items[..i], member, branch).None?
      {
        assert items[..i + 1][..i] == items[..i];
        e := ValidateTarget(items[i], member, branch);
        if e.Some? {
          TargetsErrorOfPrefix(desk.credits.State(), items, member, branch, i + 1);
          return;
        }
      }
      assert items[..|items|] == items;
      e := None;
    }

    method ValidateTarget(item: Item, member: Id, branch: nat) returns (e: Option<Error>)
      ensures e == TargetError(desk.credits.State(), item, member, branch)
    {
      if item.kind == SharePurchase {
        if item.target.None? || item.target.value !in desk.credits.office.book.accounts {
          return Some(AccountNotFound);
        }
        var account := desk.credits.office.book.accounts[item.target.value];
        if account.member != member || account.branch != branch { return Some(AccountNotFound); }
        return if account.status != ShareLedger.AccountActive then Some(AccountNotActive) else None;
      }
      if item.kind == LoanPrincipal {
        if item.target.None? || item.target.value >= |desk.credits.office.loans| { return Some(LoanNotFound); }
        var loan := desk.credits.office.loans[item.target.value];
        if loan.member != member || loan.branch != branch { return Some(LoanNotFound); }
        return if !LoanAccount.Payable(loan.status) then Some(PaymentNotAllowed) else None;
      }
      e := None;
    }

    /** CreateCashReceipt when the key is on file. */
    method FindCashReceipt(k: nat, p: CashPayment) returns (r: Outcome<nat>)
      requires k < |tickets|
      ensures r == RepeatCash(State(), k, p).Result()
    {
      if k >= |desk.receipts| { return Failed(ReceiptNotFound); }
      var ticket, receipt := tickets[k], desk.receipts[k];
      if |ticket.plan| == 0 { return Failed(AllocationRequired); }
      var retried := CalculatedAllocations(p.items, PlanFees(ticket.plan));
      if retried.Failed? { return Failed(retried.error); }
      if !SamePayment(receipt, ticket, p) { return Failed(InconsistentReceipt); }
      var mismatch := VerifyAllocationsMatch(retried.value, StoredRows(receipt.rows));
      r := if mismatch.Some? then Failed(InconsistentReceipt) else Ok(k);
    }

    /** The checks of a new cash receipt; the fees they assess are kept only if the receipt is. */
    method CheckCash(p: CashPayment, ids: nat -> Ref) returns (items: Outcome<seq<Item>>)
      requires p.session < |sessions| && First(tickets, Keyed(p.key)).None?
      modifies desk`fees
      ensures items.Failed? ==> Receive(old(State()), p, ids) == Abort(items.error)
      ensures items.Ok? ==>
                items == CashItems(old(desk.State()), p) &&
                desk.fees == AssessFees(old(desk.fees), p.member, p.period, p.eligible) &&
                Receive(old(State()), p, ids) ==
                match Accept(desk.State(), ReceiptOf(p, items.value, ids))
                case Commit(c, k) =>
                  Commit(State().(coop := c,
                                  tickets := tickets + [Ticket(Some(p.key), Some(p.session), BuildPlan(items.value))]),
                                    k)
                case Abort(e) => Abort(e)
    {
      var s := sessions[p.session];
      if s.status != TillOpen || s.cashier != p.cashier || s.branch != p.branch { return Failed(SessionState); }
      if !p.active { return Failed(MemberNotActive); }
      var fees := desk.MonthlyFees(p.member, p.period, p.eligible, None);
      items := CalculatedAllocations(p.items, fees);
      if items.Failed? { return; }
      var e := desk.ValidateChargeAllocations(p.member, p.branch, items.value, None);
      if e.Some? { return Failed(e.value); }
      e := ValidateReceipt(ReceiptOf(p, items.value, ids));
      if e.Some? { return Failed(e.value); }
      e := desk.ValidateLoanMinimums(p.member, p.branch, p.period, items.value);
      if e.Some? { return Failed(e.value); }
      e := ValidateTargets(items.value, p.member, p.branch);
      if e.Some? { return Failed(e.value); }
    }

    /** CreateCashReceipt. */
    method CreateCashReceipt(p: CashPayment, ids: nat -> Ref) returns (r: Outcome<nat>)
      modifies this`tickets, desk`fees, desk`receipts
      ensures State() == Receive(old(State()), p, ids).After(old(State()))
      ensures r == Receive(old(State()), p, ids).Result()
    {
      if p.session >= |sessions| { return Failed(SessionNotFound); }
      var existing := First(tickets, Keyed(p.key));
      if existing.Some? {
        r := FindCashReceipt(existing.value, p);
        return;
      }
      var before := desk.fees;
      var items := CheckCash(p, ids);
      if items.Failed? {
        desk.fees := before;
        return Failed(items.error);
      }
      r := desk.CreateReceipt(ReceiptOf(p, items.value, ids));
      if r.Failed? {
        desk.fees := before;
        return;
      }
      tickets := tickets + [Ticket(Some(p.key), Some(p.session), BuildPlan(items.value))];
    }

    /** SumCashReceiptsBySession. */
    method SumCash(s: nat) returns (sum: int)
      requires |tickets| == |desk.receipts|
      ensures sum == Takings(State(), s)
    {
      sum := 0;
      for k := 0 to |tickets|
        invariant sum == TakingsOf(State(), s, k)
      {
        if tickets[k].session == Some(s) && desk.receipts[k].channel == Cash { sum := sum + desk.receipts[k].received; }
      }
    }

    /** CloseCashierSession. */
    method CloseTill(s: nat, cashier: Id, counted: int, reason: bool) returns (e: Option<Error>)
      requires |tickets| == |desk.receipts|
      modifies this`sessions
      ensures var p := Close(old(State()), s, cashier, counted, reason);
              State() == p.After(old(State())) && e == (if p.Abort? then Some(p.error) else None)
    {
      if counted < 0 { return Some(DepositInvalid); }
      if s >= |sessions| { return Some(SessionNotFound); }
      var session := sessions[s];
      if session.cashier != cashier { return Some(SessionState); }
      if session.status != TillOpen {
        return if session.counted == Ticks(counted) then None else Some(SessionState);
      }
      var expected := SumCash(s);
      var variance := Ticks(counted);
      variance := variance - expected;
      if variance != 0 && !reason { return Some(VarianceReason); }
      if expected < 0 || (Column(counted) != expected && !reason) { return Some(ConstraintViolation); }
      sessions := sessions[s :=
                           session.(status := TillClosed, expected := expected, counted := Column(counted),
                                    reason := reason)];
      e := None;
    }

    /** AcceptCashHandover. */
    method TakeOver(s: nat, receiver: Id, branch: nat) returns (e: Option<Error>)
      modifies this`sessions
      ensures var p := AcceptHandover(old(State()), s, receiver, branch);
              State() == p.After(old(State())) && e == (if p.Abort? then Some(p.error) else None)
    {
      if s >= |sessions| { return Some(SessionNotFound); }
      var session := sessions[s];
      if session.branch != branch { return Some(SessionState); }
      if session.cashier == receiver { return Some(SeparationOfDuties); }
      if session.status == TillHandedOver || session.status == TillDeposited { return None; }
      if session.status != TillClosed { return Some(SessionState); }
      sessions := sessions[s := session.(status := TillHandedOver, holder := Some(receiver))];
      e := None;
    }

    /** The loop that refuses a session given twice. */
    method AllDifferent(ids: seq<nat>) returns (different: bool)
      ensures different == Distinct(ids)
    {
      var seen: set<nat> := {};
      for i := 0 to |ids|
        invariant Distinct(ids[..i]) && forall s :: s in seen <==> s in ids[..i]
      {
        assert ids[..i + 1] == ids[..i] + [ids[i]];
        if ids[i] in seen { return false; }
        seen := seen + {ids[i]};
      }
      assert ids[..|ids|] == ids;
      different := true;
    }

    /** The locked sessions must all be ready; the result is what they counted. */
    method TotalCounted(ids: seq<nat>, branch: nat) returns (r: Outcome<int>)
      ensures r == if exists s :: s in ids && s >= |sessions| then Failed(SessionNotFound)
                   else if exists s :: s in ids && !ReadyFor(sessions, branch, s) then Failed(SessionState)
                   else Ok(Counts(sessions, ids))
    {
      if exists s :: s in ids && s >= |sessions| { return Failed(SessionNotFound); }
      var total := 0;
      for i := 0 to |ids|
        invariant total == Counts(sessions, ids[..i])
        invariant forall s | s in ids[..i] :: ReadyFor(sessions, branch, s)
      {
        assert ids[..i + 1] == ids[..i] + [ids[i]] && ids[i] in ids;
        Sums.OfAppend(ids[..i], ids[i], CountedIn(sessions));
        var session := sessions[ids[i]];
        if session.branch != branch || session.status != TillHandedOver { return Failed(SessionState); }
        total := total + session.counted;
      }
      assert ids[..|ids|] == ids;
      r := Ok(total);
    }

    /** Marks the sessions of a deposit, one by one. */
    method MarkSessions(ids: seq<nat>)
      requires forall s | s in ids :: s < |sessions|
      modifies this`sessions
      ensures sessions == MarkDeposited(old(sessions), ids)
    {
      ghost var before := sessions;
      for i := 0 to |ids|
        invariant sessions == MarkDeposited(before, ids[..i]) && |sessions| == |before|
      {
        assert ids[..i + 1][..i] == ids[..i] && ids[i] in ids;
        sessions := sessions[ids[i] := sessions[ids[i]].(status := TillDeposited)];
      }
      assert ids[..|ids|] == ids;
    }

    /** RecordCashDeposit. */
    method RecordCashDeposit(ids: seq<nat>, amount: int, reference: Ref, branch: nat, recorder: Id)
      returns (r: Outcome<nat>)
      modifies this`sessions, this`deposits
      ensures State() == RecordDeposit(old(State()), ids, amount, reference, branch, recorder).After(old(State()))
      ensures r == RecordDeposit(old(State()), ids, amount, reference, branch, recorder).Result()
    {
      if |ids| == 0 || amount <= 0 || reference == "" { return Failed(DepositInvalid); }
      var different := AllDifferent(ids);
      if !different { return Failed(DepositInvalid); }
      var existing := First(deposits, AtBank(reference));
      if existing.Some? {
        var d := deposits[existing.value];
        if d.branch != branch || d.amount != Ticks(amount) || |d.sessions| != |ids| { return Failed(DepositInvalid); }
        if exists s :: s in d.sessions && s !in ids { return Failed(DepositInvalid); }
        return Ok(existing.value);
      }
      var total := TotalCounted(ids, branch);
      if total.Failed? { return Failed(total.error); }
      if total.value != Ticks(amount) { return Failed(DepositInvalid); }
      if Column(amount) <= 0 { return Failed(ConstraintViolation); }
      r := Ok(|deposits|);
      deposits := deposits + [Deposit(branch, Column(amount), reference, recorder, None, ids)];
      MarkSessions(ids);
    }

    /** VerifyCashDeposit. */
    method VerifyCashDeposit(d: nat, verifier: Id, branch: nat) returns (e: Option<Error>)
      modifies this`deposits
      ensures var p := Verify(old(State()), d, verifier, branch);
              State() == p.After(old(State())) && e == (if p.Abort? then Some(p.error) else None)
    {
      if d >= |deposits| || deposits[d].branch != branch { return Some(DepositInvalid); }
      if deposits[d].verifier.Some? { return None; }
      if deposits[d].recorder == verifier { return Some(SelfVerify); }
      deposits := deposits[d := deposits[d].(verifier := Some(verifier))];
      e := None;
    }
  }
}
