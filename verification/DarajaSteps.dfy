/**
  What each step of a payment request accepts and writes down: asking for a prompt and asking again, the provider's
  answers, failure callbacks and staff recovery (internal/contribution/daraja.go, payment_request_handlers.go).
 */
module DarajaSteps {
  import opened Common
  import opened Decimals
  import opened Allocations
  import opened Receipts
  import opened Daraja
  import opened DarajaRuns
  import Sums

  // ----- Asking for a prompt

  /** An amount can be prompted for exactly when it is some number of whole shillings that an int64 holds. */
  lemma {:induction false} WholeIff(nanos: int)
    ensures Whole(nanos) <==>
            0 < nanos && exists shillings ::
              1 <= shillings < 0x8000_0000_0000_0000 && Ticks(nanos) == 10_000 * shillings
  {
    if Whole(nanos) { assert Ticks(nanos) == 10_000 * (Ticks(nanos) / 10_000); }
  }

  /** The checks on a prompt, once the month's fees have been added to its allocations. */
  predicate Promptable(c: Coop, p: Prompt, items: seq<Item>) {
    && InOrder(Preflight(p, items, [])) && ChargedOnce(items)
    && (forall i | 0 <= i < |items| :: ChargeFits(c, p.member, p.branch, items[i], None))
    && (forall l | 0 <= l < |c.desk.office.loans| ::
          !Underpaid(c.desk.office.loans[l], l, p.member, p.branch, p.period, items))
    && Whole(p.amount)
  }

  /** The request as it was made, with nothing known of its payment yet. */
  predicate AsAsked(r: Request, p: Prompt, items: seq<Item>) {
    && r.key == p.key && r.member == p.member && r.branch == p.branch && r.period == p.period && r.phone == p.phone
    && r.expected == Column(p.amount) && |r.plan| == |items| && r.checkout.None? && r.receipt.None?
    && r.status == RequestPending && r.recovery == AwaitingConfirmation
    && forall i | 0 <= i < |items| ::
         r.plan[i].key.kind == items[i].kind && r.plan[i].key.target == items[i].target &&
         r.plan[i].ticks == Ticks(items[i].amount)
  }

  lemma {:induction false} RegisterChecks(m: Mpesa, p: Prompt, eligible: bool, c: Coop, items: seq<Item>)
    requires First(m.requests, WithKey(p.key)).None?
    requires c == m.coop.(fees := AssessFees(m.coop.fees, p.member, p.period, eligible))
    requires Normalise(p.items, Outstanding(c, p.member, p.period, None)) == Ok(items)
    ensures Register(m, p, eligible).Commit? <==>
            ReceiptError(Preflight(p, items, [])).None? && ChargeError(c, p.member, p.branch, items, None).None? &&
            MinimumsError(c.desk, p.member, p.branch, p.period, items).None? && Whole(p.amount)
    ensures Register(m, p, eligible).Commit? ==>
            Register(m, p, eligible) ==
            Commit(m.(coop := c, requests := m.requests + [NewRequest(p, items)],
                      attempts := m.attempts + [Attempt(|m.requests|, p.amount, InFlight, false)]),
                   (|m.requests|, true))
  {
  }

  /**
    Under a new key a request is made exactly when its allocations and amount pass every check; it is filed as it was
    asked, and one prompt of its amount is on its way.
   */
  lemma {:induction false} RegisterIff(m: Mpesa, p: Prompt, eligible: bool)
    requires First(m.requests, WithKey(p.key)).None?
    ensures var c := m.coop.(fees := AssessFees(m.coop.fees, p.member, p.period, eligible));
            var items, r := Normalise(p.items, Outstanding(c, p.member, p.period, None)), Register(m, p, eligible);
            (r.Commit? <==> items.Ok? && Promptable(c, p, items.value)) &&
            (r.Commit? ==>
               items.Ok? && r.value == (|m.requests|, true) && |r.state.requests| == |m.requests| + 1 &&
               AsAsked(r.state.requests[|m.requests|], p, items.value) &&
               r.state == m.(coop := c, requests := m.requests + [r.state.requests[|m.requests|]],
                             attempts := m.attempts + [Attempt(|m.requests|, p.amount, InFlight, false)]))
  {
    var c := m.coop.(fees := AssessFees(m.coop.fees, p.member, p.period, eligible));
    var items := Normalise(p.items, Outstanding(c, p.member, p.period, None));
    if items.Ok? {
      RegisterChecks(m, p, eligible, c, items.value);
      ReceiptErrorIff(Preflight(p, items.value, []));
      ChargeErrorIff(c, p.member, p.branch, items.value, None);
    }
  }

  /** The prompt asks for what the request was made for. */
  predicate AsksTheSame(r: Request, p: Prompt) {
    && r.member == p.member && r.branch == p.branch && r.period == p.period && r.phone in {"", p.phone}
    && r.expected == Ticks(p.amount)
    && ForRetry(p.items, r.plan).Ok? && BuildPlan(ForRetry(p.items, r.plan).value) == r.plan
  }

  /**
    Asked again, a prompt is sent again exactly when the last one is known not to have been sent and the request still
    waits; one whose prompt was accepted is only shown, and in every other case nothing happens.
   */
  lemma {:induction false} AskAgainIff(m: Mpesa, p: Prompt, eligible: bool, q: nat)
    requires First(m.requests, WithKey(p.key)) == Some(q)
    ensures var x, r := m.requests[q], Register(m, p, eligible);
            var unsent := x.checkout.None? && x.recovery == NotSentYet && x.status == RequestPending;
            (r.Commit? <==> AsksTheSame(x, p) && (x.checkout.Some? || unsent)) &&
            (r.Commit? ==>
               r.value == (q, unsent) &&
               r.state == if unsent
                          then m.(requests := m.requests[q := x.(recovery := AwaitingConfirmation)],
                                  attempts := m.attempts + [Attempt(q, p.amount, InFlight, false)])
                          else m)
  {
    if ForRetry(p.items, m.requests[q].plan).Ok? { AskedAgain(m, p, eligible, q, m.requests[q]); }
  }

  lemma {:induction false} AskedAgain(m: Mpesa, p: Prompt, eligible: bool, q: nat, x: Request)
    requires First(m.requests, WithKey(p.key)) == Some(q) && x == m.requests[q] && ForRetry(p.items, x.plan).Ok?
    ensures AsksTheSame(x, p) <==> SameTerms(x, p) && BuildPlan(ForRetry(p.items, x.plan).value) == x.plan
  {
  }

  // ----- The provider's answers

  /** The answer to prompt a has arrived and is about to be saved. */
  predicate Answered(m: Mpesa, a: nat) {
    a < |m.attempts| && m.attempts[a].request < |m.requests| && !m.attempts[a].saved && m.attempts[a].reply != InFlight
  }

  /** No other request carries the checkout. */
  predicate Free(m: Mpesa, checkout: Ref, q: nat) {
    forall p | 0 <= p < |m.requests| && m.requests[p].checkout == Some(checkout) :: p == q
  }

  lemma {:induction false} SetCheckoutIff(m: Mpesa, q: nat, checkout: Ref)
    requires q < |m.requests| && Wired(m)
    ensures SetCheckout(m, q, checkout) ==
            if Free(m, checkout, q)
            then Commit(m.(requests := m.requests[q := m.requests[q].(checkout := Some(checkout))]), ())
            else Abort(ConstraintViolation)
  {
    FirstNone(m.requests, WithCheckout(checkout));
  }

  /**
    Of the provider's answers a rejection fails the request, an acceptance gives it the provider's checkout, a prompt
    that was not sent is noted while nothing has been paid, and an answer that says nothing changes nothing.
   */
  lemma {:induction false} SavedAnswer(m: Mpesa, a: nat)
    requires Answered(m, a) && Wired(m)
    ensures var t, q, reply := Save(m, a), m.attempts[a].request, m.attempts[a].reply;
            var x := m.requests[q];
            |t.requests| == |m.requests| &&
            t == m.(requests := m.requests[q := t.requests[q]],
                    attempts := m.attempts[a := m.attempts[a].(saved := true)]) &&
            (reply.Rejected? || reply.NotWhole? ==>
               t.requests[q] == x.(status := RequestFailed, recovery := ProviderFailed)) &&
            (reply.Accepted? ==>
               t.requests[q] == if Free(m, reply.checkout, q) then x.(checkout := Some(reply.checkout)) else x) &&
            (reply.NotSent? ==>
               t.requests[q] == if x.status == RequestPending && !IsReceived(x.recovery)
                                then x.(recovery := NotSentYet) else x) &&
            (reply.Ambiguous? ==> t.requests[q] == x)
  {
    var s := m.(attempts := m.attempts[a := m.attempts[a].(saved := true)]);
    if m.attempts[a].reply.Accepted? {
      SetCheckoutIff(s, m.attempts[a].request, m.attempts[a].reply.checkout);
    }
  }

  /** Once the provider has said that a prompt was not sent, asking again sends one. */
  lemma {:induction false} UnsentIsSentAgain(m: Mpesa, a: nat, p: Prompt, eligible: bool)
    requires Answered(m, a) && Wired(m) && m.attempts[a].reply == NotSent
    requires First(m.requests, WithKey(p.key)) == Some(m.attempts[a].request)
    requires var x := m.requests[m.attempts[a].request];
             AsksTheSame(x, p) && x.status == RequestPending && x.checkout.None? && !IsReceived(x.recovery)
    ensures var r := Register(Save(m, a), p, eligible);
            r.Commit? && r.value == (m.attempts[a].request, true) && |r.state.attempts| == |m.attempts| + 1
  {
    var t, q := Save(m, a), m.attempts[a].request;
    SavedAnswer(m, a);
    SameKeySameFirst(m.requests, t.requests, p.key);
    AskAgainIff(t, p, eligible, q);
  }

  // ----- Failures and recovery

  /** A failure fails the request of its checkout, unless money is known to have been received for it. */
  lemma {:induction false} FallIff(m: Mpesa, checkout: Ref, q: nat)
    requires Wired(m) && q < |m.requests| && m.requests[q].checkout == Some(checkout) && checkout != ""
    ensures Fall(m, checkout) ==
            Commit(if m.requests[q].status == RequestCompleted || IsReceived(m.requests[q].recovery) then m
                   else m.(requests := m.requests[q := m.requests[q].(status := RequestFailed,
                                                                      recovery := ProviderFailed)]), ())
  {
    FirstNone(m.requests, WithCheckout(checkout));
  }

  /** A failure for a checkout that no request carries is refused. */
  lemma {:induction false} FallRefused(m: Mpesa, checkout: Ref)
    requires forall q | 0 <= q < |m.requests| :: m.requests[q].checkout != Some(checkout)
    ensures Fall(m, checkout) == Abort(PaymentRequestNotFound)
  {
    FirstNone(m.requests, WithCheckout(checkout));
  }

  /**
    A checkout is restored exactly to a request that waits without a receipt, has no other checkout, and shares it with
    no request; the request then awaits confirmation under it.
   */
  lemma {:induction false} RestoreIff(m: Mpesa, q: nat, checkout: Ref)
    requires Wired(m)
    ensures var p := Restore(m, q, checkout);
            (p.Commit? <==>
               q < |m.requests| && checkout != "" && m.requests[q].status == RequestPending &&
               m.requests[q].receipt.None? && m.requests[q].checkout in {None, Some(checkout)} &&
               Free(m, checkout, q)) &&
            (p.Commit? ==>
               p.state == if m.requests[q].checkout.Some? then m
                          else m.(requests := m.requests[q := m.requests[q].(checkout := Some(checkout),
                                                                             recovery := AwaitingConfirmation)]))
  {
    if q < |m.requests| { SetCheckoutIff(m, q, checkout); }
  }

  /**
    A payment found at the provider is reconciled exactly when its amount is the one asked for and no other reference
    paid the request; only a missing checkout is filled in, with one that no other request carries.
   */
  lemma {:induction false} ReconcileIff(m: Mpesa, q: nat, checkout: Ref, reference: Ref, nanos: int)
    requires Wired(m)
    ensures var p := Reconcile(m, q, checkout, reference, nanos);
            (p.Commit? <==>
               q < |m.requests| && reference != "" && m.requests[q].expected == Ticks(nanos) &&
               (m.requests[q].receipt.Some? ==>
                  m.requests[q].receipt.value < |m.links| &&
                  m.links[m.requests[q].receipt.value].reference == Some(reference)) &&
               (m.requests[q].checkout.Some? || (checkout != "" && Free(m, checkout, q)))) &&
            (p.Commit? ==>
               p.state == if m.requests[q].checkout.Some? then m
                          else m.(requests := m.requests[q := m.requests[q].(checkout := Some(checkout))]))
  {
    if q < |m.requests| { SetCheckoutIff(m, q, checkout); }
  }

  // ----- Success callbacks

  /** A receipt on file under the reference, or else under the checkout, can stand for the payment. */
  predicate Fits(m: Mpesa, r: Request, k: nat, checkout: Ref) {
    && k < |m.links| && k < |m.coop.receipts| && m.links[k].checkout in {None, Some(checkout)}
    && RowsMatch(ParsePlan(r.plan), StoredRows(m.coop.receipts[k].rows))
  }

  /**
    An unpaid request is completed by a success exactly when the payment is the one asked for and a receipt on file for
    it, if there is one, fits; without one, a receipt of its own is filed.
   */
  lemma {:induction false} SucceedIff(m: Mpesa, q: nat, checkout: Ref, reference: Ref, nanos: int, ids: nat -> Ref)
    requires First(m.requests, WithCheckout(checkout)) == Some(q) && m.requests[q].status != RequestCompleted
    requires |m.links| == |m.coop.receipts| && 0 < nanos && checkout != "" && reference != ""
    ensures var p, x, found := Succeed(m, checkout, reference, nanos, ids), m.requests[q],
                               OnFile(m.links, reference, checkout);
            (p.Commit? && p.value.Ok? <==> Payable(x, nanos) && (found.Some? ==> Fits(m, x, found.value, checkout))) &&
            (p.Commit? && p.value.Ok? ==>
               p.value.value == (if found.Some? then found.value else |m.coop.receipts|) &&
               p.state.requests == m.requests[q := x.(status := RequestCompleted, recovery := Received,
                                                      receipt := Some(p.value.value))] &&
               (found.Some? ==> p.state == m.(requests := p.state.requests)) &&
               (found.None? ==>
                  p.state.links == m.links + [Link(Some(reference), Some(checkout))] &&
                  |p.state.coop.receipts| == |m.coop.receipts| + 1 && m.coop.receipts <= p.state.coop.receipts &&
                  ReceiptFor(p.state.coop.receipts[|m.coop.receipts|], x, nanos)))
  {
    PayableIff(m.requests[q], nanos, ids);
    if Payable(m.requests[q], nanos) {
      CallbackIsFor(m.requests[q], nanos, ids, m.coop);
    }
  }
}
