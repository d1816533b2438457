/**
  M-Pesa payment requests: one prompt per idempotency key, and callbacks that arrive at least once and
  in any order (internal/contribution/daraja.go, payment_requests.sql, daraja_recovery.sql).
 */
module Daraja {
  import opened Common
  import opened Decimals
  import opened Allocations
  import opened Receipts

  datatype RequestStatus = RequestPending | RequestCompleted | RequestFailed

  datatype Recovery =
    | AwaitingConfirmation | NotSentYet | NeedsReview | ProviderFailed
    | Received | ReceivedNeedsReview | ReceivedNeedsReceipt

  /** recovery_status LIKE 'received%' */
  predicate IsReceived(r: Recovery) { r == Received || r == ReceivedNeedsReview || r == ReceivedNeedsReceipt }

  datatype Request = Request(
    key: Ref, member: Id, branch: nat, period: nat, phone: string, expected: int, plan: seq<Row>,
    checkout: Option<Ref>, status: RequestStatus, recovery: Recovery, receipt: Option<nat>)

  /** The M-Pesa columns of contribution_receipts. */
  datatype Link = Link(reference: Option<Ref>, checkout: Option<Ref>)

  /** What asking the provider for a prompt came to. */
  datatype Reply = InFlight | NotWhole | NotSent | Rejected | Ambiguous | Accepted(checkout: Ref)

  /** One call of the provider for a request; `saved` once its outcome has reached the database. */
  datatype Attempt = Attempt(request: nat, amount: int, reply: Reply, saved: bool)

  /** The tables, and the calls to the provider so far. */
  datatype Mpesa = Mpesa(coop: Coop, links: seq<Link>, requests: seq<Request>, attempts: seq<Attempt>)

  datatype Prompt = Prompt(key: Ref, member: Id, branch: nat, period: nat, phone: string, amount: int, items: seq<Item>)

  function WithKey(key: Ref): Request -> bool { (r: Request) => r.key == key }
  function WithCheckout(checkout: Ref): Request -> bool { (r: Request) => r.checkout == Some(checkout) }
  function LinkedTo(checkout: Ref): Link -> bool { (k: Link) => k.checkout == Some(checkout) }
  function Referenced(reference: Ref): Link -> bool { (k: Link) => k.reference == Some(reference) }

  // ----- Asking for a prompt

  /** darajaWholeAmount: whole shillings, up to what an int64 holds; digits finer than a tick are not looked at. */
  predicate Whole(nanos: int) {
    0 < nanos && Ticks(nanos) % 10_000 == 0 && 0 < Ticks(nanos) && Ticks(nanos) / 10_000 < 0x8000_0000_0000_0000
  }

  function ParsePlan(plan: seq<Row>): (items: seq<Item>)
    ensures |items| == |plan| && forall i | 0 <= i < |plan| :: items[i] == Parsed(plan[i])
  {
    seq(|plan|, (i: nat) requires i < |plan| => Parsed(plan[i]))
  }

  function SetRequest(m: Mpesa, q: nat, r: Request): Mpesa
    requires q < |m.requests|
  {
    m.(requests := m.requests[q := r])
  }

  predicate SameTerms(r: Request, p: Prompt) {
    && r.member == p.member && r.branch == p.branch && (r.phone == "" || r.phone == p.phone) && r.period == p.period
    && r.expected == Ticks(p.amount)
  }

  function NewRequest(p: Prompt, items: seq<Item>): Request {
    Request(p.key, p.member, p.branch, p.period, p.phone, Column(p.amount), BuildPlan(items), None,
            RequestPending, AwaitingConfirmation, None)
  }

  function Preflight(p: Prompt, items: seq<Item>, ids: seq<Ref>): NewReceipt {
    NewReceipt(p.member, p.branch, p.period, p.amount, DarajaStk, true, items, ids)
  }

  /** createContributionPaymentRequest: the request, and whether its caller now has to send the prompt. */
  function Register(m: Mpesa, p: Prompt, eligible: bool): Tx<Mpesa, (nat, bool)> {
    var existing := First(m.requests, WithKey(p.key));
    if existing.Some? then
      var q, r := existing.value, m.requests[existing.value];
      var retried := ForRetry(p.items, r.plan);
      if retried.Failed? then Abort(retried.error)
      else if !SameTerms(r, p) || BuildPlan(retried.value) != r.plan then Abort(InconsistentReceipt)
      else if r.recovery == NotSentYet && r.checkout.None? then
        if r.status != RequestPending then Abort(PaymentRequestInProgress)
        else
          Commit(SetRequest(m, q, r.(recovery := AwaitingConfirmation))
                   .(attempts := m.attempts + [Attempt(q, p.amount, InFlight, false)]), (q, true))
      else if r.checkout.None? then Abort(PaymentRequestInProgress)
      else Commit(m, (q, false))
    else
      var c := m.coop.(fees := AssessFees(m.coop.fees, p.member, p.period, eligible));
      var items := Normalise(p.items, Outstanding(c, p.member, p.period, None));
      if items.Failed? then Abort(items.error)
      else if ReceiptError(Preflight(p, items.value, [])).Some?
      then Abort(ReceiptError(Preflight(p, items.value, [])).value)
      else if ChargeError(c, p.member, p.branch, items.value, None).Some?
      then Abort(ChargeError(c, p.member, p.branch, items.value, None).value)
      else if MinimumsError(c.desk, p.member, p.branch, p.period, items.value).Some? then Abort(InvalidAllocation)
      else if !Whole(p.amount) then Abort(InvalidReceiptAmount)
      else
        var q := |m.requests|;
        Commit(m.(coop := c, requests := m.requests + [NewRequest(p, items.value)],
                  attempts := m.attempts + [Attempt(q, p.amount, InFlight, false)]), (q, true))
  }

  /** The provider answers; an amount that is not whole never reaches it. */
  function Answer(m: Mpesa, a: nat, reply: Reply): Mpesa {
    if a < |m.attempts| && m.attempts[a].reply == InFlight
    then m.(attempts :=
            m.attempts[a := m.attempts[a].(reply := if Whole(m.attempts[a].amount) then reply else NotWhole)])
    else m
  }

  /** RecordDarajaQueryResult, with the guards of its WHERE clause. */
  function RecordResult(m: Mpesa, q: nat, recovery: Recovery): Mpesa
    requires q < |m.requests|
  {
    var r := m.requests[q];
    if r.status != RequestCompleted && (!IsReceived(r.recovery) || recovery == ReceivedNeedsReview)
       && (r.status == RequestPending || recovery in {ReceivedNeedsReview, ReceivedNeedsReceipt, ProviderFailed})
    then SetRequest(m, q, r.(recovery := recovery))
    else m
  }

  /** UpdateContributionPaymentRequestFailed: no guard. */
  function FailRequest(m: Mpesa, q: nat): Mpesa
    requires q < |m.requests|
  {
    SetRequest(m, q, m.requests[q].(status := RequestFailed, recovery := ProviderFailed))
  }

  /** UpdateContributionPaymentRequestCheckoutID: no guard but the unique index. */
  function SetCheckout(m: Mpesa, q: nat, checkout: Ref): Tx<Mpesa, ()>
    requires q < |m.requests|
  {
    if First(m.requests, WithCheckout(checkout)) !in {None, Some(q)} then Abort(ConstraintViolation)
    else Commit(SetRequest(m, q, m.requests[q].(checkout := Some(checkout))), ())
  }

  /** What InitiateDarajaSTKPayment writes after the provider answered; a crash before it loses the answer. */
  function Save(m: Mpesa, a: nat): Mpesa {
    if a < |m.attempts| && m.attempts[a].request < |m.requests| && !m.attempts[a].saved &&
      m.attempts[a].reply != InFlight then
      var q := m.attempts[a].request;
      var s := m.(attempts := m.attempts[a := m.attempts[a].(saved := true)]);
      match m.attempts[a].reply
      case NotSent => RecordResult(s, q, NotSentYet)
      case NotWhole => FailRequest(s, q)
      case Rejected => FailRequest(s, q)
      case Accepted(checkout) => SetCheckout(s, q, checkout).After(s)
      case _ => s
    else m
  }

  // ----- Callbacks

  /** UpdateContributionPaymentRequestCompleted: no guard either. */
  function Complete(m: Mpesa, q: nat, receipt: nat): Mpesa
    requires q < |m.requests|
  {
    SetRequest(m, q, m.requests[q].(status := RequestCompleted, recovery := Received, receipt := Some(receipt)))
  }

  /** existingReceipt: by M-Pesa reference first, then by checkout. */
  function OnFile(links: seq<Link>, reference: Ref, checkout: Ref): Option<nat> {
    if First(links, Referenced(reference)).Some? then First(links, Referenced(reference))
      else First(links, LinkedTo(checkout))
  }

  function Callback(r: Request, nanos: int, ids: nat -> Ref): NewReceipt {
    NewReceipt(r.member, r.branch, r.period, nanos, DarajaStk, true, ParsePlan(r.plan), seq(|r.plan|, ids))
  }

  /** Evidence of money that could not be turned into a receipt. */
  function Review(m: Mpesa, q: nat, e: Error): Tx<Mpesa, Outcome<nat>>
    requires q < |m.requests|
  {
    Commit(RecordResult(m, q, ReceivedNeedsReview), Failed(e))
  }

  /** createReceipt for a callback: the receipt of the reference or the checkout if there is one, else a new one. */
  function FileReceipt(m: Mpesa, q: nat, n: NewReceipt, reference: Ref, checkout: Ref): Tx<Mpesa, Outcome<nat>>
    requires q < |m.requests| && |n.ids| == |n.items|
  {
    var found := OnFile(m.links, reference, checkout);
    if found.Some? then
      var k := found.value;
      if k >= |m.coop.receipts| || !RowsMatch(n.items, StoredRows(m.coop.receipts[k].rows))
        then Abort(InconsistentReceipt)
      else if m.links[k].checkout !in {None, Some(checkout)} then Abort(ReceiptNotProcessable)
      else Commit(Complete(m, q, k), Ok(k))
    else
      var (c, k) :- Accept(m.coop, n);
      Commit(Complete(m.(coop := c, links := m.links + [Link(Some(reference), Some(checkout))]), q, k), Ok(k))
  }

  /** ProcessDarajaSTKPayment: a successful callback. Business failures commit, and are the Failed value. */
  function Succeed(m: Mpesa, checkout: Ref, reference: Ref, nanos: int, ids: nat -> Ref): Tx<Mpesa, Outcome<nat>> {
    if checkout == "" || reference == "" || nanos <= 0 then Abort(InvalidPayment)
    else if First(m.requests, WithCheckout(checkout)).None? then Abort(PaymentRequestNotFound)
    else
      var q := First(m.requests, WithCheckout(checkout)).value;
      var r := m.requests[q];
      if r.status == RequestCompleted then
        if r.receipt.None? || r.receipt.value >= |m.links| || r.receipt.value >= |m.coop.receipts|
          then Abort(ReceiptNotProcessable)
        else if m.links[r.receipt.value].reference != Some(reference) ||
          m.coop.receipts[r.receipt.value].received != Ticks(nanos)
        then Abort(InconsistentReceipt)
        else Commit(m, Ok(r.receipt.value))
      else if r.expected != Ticks(nanos) then Review(m, q, PaymentAmountMismatch)
      else if r.plan == [] then Review(m, q, AllocationRequired)
      else if ReceiptError(Callback(r, nanos, ids)).Some? then Review(m, q, ReceiptError(Callback(r, nanos, ids)).value)
      else FileReceipt(m, q, Callback(r, nanos, ids), reference, checkout)
  }

  /** MarkDarajaSTKPaymentFailed: a failure callback. */
  function Fall(m: Mpesa, checkout: Ref): Tx<Mpesa, ()> {
    if checkout == "" || First(m.requests, WithCheckout(checkout)).None? then Abort(PaymentRequestNotFound)
    else
      var q := First(m.requests, WithCheckout(checkout)).value;
      if m.requests[q].status == RequestCompleted || IsReceived(m.requests[q].recovery) then Commit(m, ())
      else Commit(FailRequest(m, q), ())
  }

  // ----- Staff recovery

  /** RecoverDarajaPayment, action restore_checkout. */
  function Restore(m: Mpesa, q: nat, checkout: Ref): Tx<Mpesa, ()> {
    if q >= |m.requests| then Abort(PaymentRequestNotFound)
    else
      var r := m.requests[q];
      if checkout == "" then Abort(InvalidPayment)
      else if r.checkout !in {None, Some(checkout)} then Abort(InconsistentReceipt)
      else if r.status != RequestPending || r.receipt.Some? then Abort(InvalidPayment)
      else if r.checkout.Some? then Commit(m, ())
      else
        var (s, _) :- SetCheckout(m, q, checkout);
        Commit(SetRequest(s, q, s.requests[q].(recovery := AwaitingConfirmation)), ())
  }

  /** ... action reconcile, up to the callback that it files: only a missing checkout is filled in. */
  function Reconcile(m: Mpesa, q: nat, checkout: Ref, reference: Ref, nanos: int): Tx<Mpesa, ()> {
    if q >= |m.requests| then Abort(PaymentRequestNotFound)
    else
      var r := m.requests[q];
      if reference == "" || r.expected != Ticks(nanos) then Abort(InvalidPayment)
      else if r.checkout.None? && checkout == "" then Abort(PaymentRequestNotFound)
      else
        var (t, _) :- if r.checkout.Some? then Commit(m, ()) else SetCheckout(m, q, checkout);
        if r.receipt.Some? && (r.receipt.value >= |m.links| || m.links[r.receipt.value].reference != Some(reference))
          then Abort(InconsistentReceipt) else Commit(t, ())
  }

  // ----- Runs

  datatype Step =
    | Begin(prompt: Prompt, eligible: bool)
    | Reach(attempt: nat, reply: Reply)
    | Keep(attempt: nat)
    | Success(checkout: Ref, reference: Ref, nanos: int, ids: nat -> Ref)
    | Failure(checkout: Ref)
    | Queried(request: nat, recovery: Recovery)
    | RestoreCheckout(request: nat, checkout: Ref)
    | ReconcilePayment(request: nat, checkout: Ref, reference: Ref, nanos: int)
    | OtherReceipt(n: NewReceipt, mpesa: Option<Ref>)
    | Processing(receipt: nat, eligible: bool, now: nat, fault: Option<nat>)

  /** Receipts of other channels; only their M-Pesa reference matters here, and they carry no checkout. */
  function FileOther(m: Mpesa, n: NewReceipt, reference: Option<Ref>): Mpesa {
    if |n.ids| != |n.items| || Accept(m.coop, n).Abort? ||
      (reference.Some? && First(m.links, Referenced(reference.value)).Some?) then m
    else m.(coop := Accept(m.coop, n).state, links := m.links + [Link(reference, None)])
  }

  ghost function Take(m: Mpesa, step: Step): Mpesa {
    match step
    case Begin(prompt, eligible) => Register(m, prompt, eligible).After(m)
    case Reach(attempt, reply) => Answer(m, attempt, reply)
    case Keep(attempt) => Save(m, attempt)
    case Success(checkout, reference, nanos, ids) => Succeed(m, checkout, reference, nanos, ids).After(m)
    case Failure(checkout) => Fall(m, checkout).After(m)
    case Queried(request, recovery) =>
      if request < |m.requests| && recovery in {AwaitingConfirmation, NeedsReview, ReceivedNeedsReceipt, ProviderFailed}
      then RecordResult(m, request, recovery) else m
    case RestoreCheckout(request, checkout) => Restore(m, request, checkout).After(m)
    case ReconcilePayment(request, checkout, reference, nanos) =>
      Reconcile(m, request, checkout, reference, nanos).After(m)
    case OtherReceipt(n, mpesa) => FileOther(m, n, mpesa)
    case Processing(receipt, eligible, now, fault) =>
      m.(coop := Process(m.coop, receipt, eligible, now, fault).After(m.coop))
  }

  ghost function Run(m: Mpesa, steps: seq<Step>): Mpesa {
    if steps == [] then m else Take(Run(m, steps[..|steps| - 1]), steps[|steps| - 1])
  }
}
