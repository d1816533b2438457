/** The M-Pesa side of the contribution service over its tables; proved against the transactions of Daraja. */
module DarajaService {
  import opened Common
  import opened Decimals
  import opened Allocations
  import opened Receipts
  import opened Daraja
  import ReceiptService

  class PaymentDesk {
    const desk: ReceiptService.ReceiptDesk
    var links: seq<Link>
    var requests: seq<Request>
    /** Not a table: the calls of the provider so far. */
    ghost var attempts: seq<Attempt>

    constructor (desk: ReceiptService.ReceiptDesk)
      requires desk.receipts == []
      ensures this.desk == desk && State() == Mpesa(desk.State(), [], [], [])
    {
      this.desk := desk;
      links, requests, attempts := [], [], [];
    }

    ghost function State(): Mpesa
      reads this, desk, desk.credits, desk.credits.office, desk.credits.office.book
    {
      Mpesa(desk.State(), links, requests, attempts)
    }

    /** An update of one row by its id. */
    method Update(q: nat, r: Request)
      requires q < |requests|
      modifies this`requests
      ensures State() == SetRequest(old(State()), q, r)
    {
      requests := requests[q := r];
    }

    method RecordQueryResult(q: nat, recovery: Recovery)
      requires q < |requests|
      modifies this`requests
      ensures State() == RecordResult(old(State()), q, recovery)
    {
      var r := requests[q];
      if r.status == RequestCompleted { return; }
      if IsReceived(r.recovery) && recovery != ReceivedNeedsReview { return; }
      if r.status != RequestPending && recovery !in {ReceivedNeedsReview, ReceivedNeedsReceipt, ProviderFailed} {
        return;
      }
      Update(q, r.(recovery := recovery));
    }

    /** MarkDarajaSTKPaymentFailed. */
    method MarkFailed(checkout: Ref) returns (e: Option<Error>)
      modifies this`requests
      ensures var p := Fall(old(State()), checkout);
              State() == p.After(old(State())) && e == (if p.Abort? then Some(p.error) else None)
    {
      if checkout == "" { return Some(PaymentRequestNotFound); }
      var found := First(requests, WithCheckout(checkout));
      if found.None? { return Some(PaymentRequestNotFound); }
      var r := requests[found.value];
      if r.status == RequestCompleted { return None; }
      if IsReceived(r.recovery) { return None; }
      Update(found.value, r.(status := RequestFailed, recovery := ProviderFailed));
      e := None;
    }

    /** createReceipt for a callback. */
    method FileForCallback(q: nat, n: NewReceipt, reference: Ref, checkout: Ref) returns (r: Outcome<nat>)
      requires q < |requests| && |n.ids| == |n.items|
      modifies this`requests, this`links, desk`receipts
      ensures var p := FileReceipt(old(State()), q, n, reference, checkout);
              State() == p.After(old(State())) && r == (if p.Abort? then Failed(p.error) else p.value)
    {
      var found := First(links, Referenced(reference));
      if found.None? { found := First(links, LinkedTo(checkout)); }
      var k: nat;
      if found.Some? {
        k := found.value;
        if k >= |desk.receipts| { return Failed(InconsistentReceipt); }
        var mismatch := VerifyAllocationsMatch(n.items, StoredRows(desk.receipts[k].rows));
        if mismatch.Some? { return Failed(InconsistentReceipt); }
        if links[k].checkout.Some? && links[k].checkout.value != checkout { return Failed(ReceiptNotProcessable); }
      } else {
        var created := desk.CreateReceipt(n);
        if created.Failed? { return created; }
        k := created.value;
        links := links + [Link(Some(reference), Some(checkout))];
      }
      Update(q, requests[q].(status := RequestCompleted, recovery := Received, receipt := Some(k)));
      r := Ok(k);
    }

    /** ProcessDarajaSTKPayment. */
    method ProcessPayment(checkout: Ref, reference: Ref, nanos: int, ids: nat -> Ref) returns (r: Outcome<nat>)
      modifies this`requests, this`links, desk`receipts
      ensures var p := Succeed(old(State()), checkout, reference, nanos, ids);
              State() == p.After(old(State())) && r == (if p.Abort? then Failed(p.error) else p.value)
    {
      if checkout == "" || reference == "" || nanos <= 0 { return Failed(InvalidPayment); }
      var found := First(requests, WithCheckout(checkout));
      if found.None? { return Failed(PaymentRequestNotFound); }
      var request := requests[found.value];
      if request.status == RequestCompleted {
        r := ReceiptOf(request, reference, nanos);
        return;
      }
      if request.expected != Ticks(nanos) {
        RecordQueryResult(found.value, ReceivedNeedsReview);
        return Failed(PaymentAmountMismatch);
      }
      if |request.plan| == 0 {
        RecordQueryResult(found.value, ReceivedNeedsReview);
        return Failed(AllocationRequired);
      }
      var n := Callback(request, nanos, ids);
      var e := ValidateReceipt(n);
      if e.Some? {
        RecordQueryResult(found.value, ReceivedNeedsReview);
        return Failed(e.value);
      }
      r := FileForCallback(found.value, n, reference, checkout);
    }

    /** A success reported again: the receipt of the completed request, if it is the same payment. */
    method ReceiptOf(request: Request, reference: Ref, nanos: int) returns (r: Outcome<nat>)
      ensures r == if request.receipt.None? || request.receipt.value >= |links| ||
              request.receipt.value >= |desk.receipts| then Failed(ReceiptNotProcessable)
                   else if links[request.receipt.value].reference != Some(reference) ||
                     desk.receipts[request.receipt.value].received != Ticks(nanos)
                   then Failed(InconsistentReceipt)
                   else Ok(request.receipt.value)
    {
      if request.receipt.None? { return Failed(ReceiptNotProcessable); }
      var k := request.receipt.value;
      if k >= |links| || k >= |desk.receipts| { return Failed(ReceiptNotProcessable); }
      r := if links[k].reference != Some(reference) || desk.receipts[k].received != Ticks(nanos)
        then Failed(InconsistentReceipt) else Ok(k);
    }

    /** createContributionPaymentRequest when the key is on file: claim an unsent prompt, or find the one under way. */
    method RetryRequest(q: nat, p: Prompt) returns (r: Outcome<(nat, bool)>)
      requires First(requests, WithKey(p.key)) == Some(q)
      modifies this`requests, this`attempts
      ensures forall eligible :: State() == Register(old(State()), p, eligible).After(old(State()))
      ensures forall eligible :: r == Register(old(State()), p, eligible).Result()
    {
      var request := requests[q];
      if |request.plan| == 0 { return Failed(AllocationRequired); }
      var retried := CalculatedAllocations(p.items, PlanFees(request.plan));
      if retried.Failed? { return Failed(retried.error); }
      if !SameTerms(request, p) || BuildPlan(retried.value) != request.plan { return Failed(InconsistentReceipt); }
      if request.recovery == NotSentYet && request.checkout.None? {
        if request.status != RequestPending { return Failed(PaymentRequestInProgress); }
        Update(q, request.(recovery := AwaitingConfirmation));
        attempts := attempts + [Attempt(q, p.amount, InFlight, false)];
        return Ok((q, true));
      }
      r := if request.checkout.None? then Failed(PaymentRequestInProgress) else Ok((q, false));
    }

    /** createContributionPaymentRequest. */
    method CreateRequest(p: Prompt, eligible: bool) returns (r: Outcome<(nat, bool)>)
      modifies this`requests, this`attempts, desk`fees
      ensures State() == Register(old(State()), p, eligible).After(old(State()))
      ensures r == Register(old(State()), p, eligible).Result()
    {
      var existing := First(requests, WithKey(p.key));
      if existing.Some? {
        r := RetryRequest(existing.value, p);
        return;
      }
      var before := desk.fees;
      var items := Preflighted(p, eligible);
      if items.Failed? {
        desk.fees := before;
        return Failed(items.error);
      }
      r := Ok((|requests|, true));
      attempts := attempts + [Attempt(|requests|, p.amount, InFlight, false)];
      requests := requests + [NewRequest(p, items.value)];
    }

    /** The checks made before a member is asked for money; the fees they assess are kept only if they pass. */
    method Preflighted(p: Prompt, eligible: bool) returns (items: Outcome<seq<Item>>)
      requires First(requests, WithKey(p.key)).None?
      modifies desk`fees
      ensures items.Failed? ==> Register(old(State()), p, eligible) == Abort(items.error)
      ensures items.Ok? ==>
                Register(old(State()), p, eligible) ==
                Commit(State().(requests := requests + [NewRequest(p, items.value)],
                                attempts := attempts + [Attempt(|requests|, p.amount, InFlight, false)]),
                                  (|requests|, true))
    {
      var fees := desk.MonthlyFees(p.member, p.period, eligible, None);
      items := CalculatedAllocations(p.items, fees);
      if items.Failed? { return; }
      var e := ValidateReceipt(Preflight(p, items.value, []));
      if e.Some? { return Failed(e.value); }
      e := desk.ValidateChargeAllocations(p.member, p.branch, items.value, None);
      if e.Some? { return Failed(e.value); }
      e := desk.ValidateLoanMinimums(p.member, p.branch, p.period, items.value);
      if e.Some? { return Failed(e.value); }
      if !Whole(p.amount) { return Failed(InvalidReceiptAmount); }
    }

    /** What InitiateDarajaSTKPayment saves once the provider has answered its latest call. */
    method SaveReply(ghost a: nat, q: nat, reply: Reply)
      requires a < |attempts| && attempts[a] == Attempt(q, attempts[a].amount, reply, false) && q < |requests| &&
               reply != InFlight
      modifies this`requests, this`attempts
      ensures State() == Save(old(State()), a)
    {
      attempts := attempts[a := attempts[a].(saved := true)];
      match reply
      case NotSent => RecordQueryResult(q, NotSentYet);
      case NotWhole => Update(q, requests[q].(status := RequestFailed, recovery := ProviderFailed));
      case Rejected => Update(q, requests[q].(status := RequestFailed, recovery := ProviderFailed));
      case Accepted(checkout) =>
        var taken := First(requests, WithCheckout(checkout));
        if taken.None? || taken.value == q { Update(q, requests[q].(checkout := Some(checkout))); }
      case _ =>
    }
  }
}
