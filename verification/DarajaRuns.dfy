/**
  What every run of initiations, lost answers, retries, callbacks and staff recovery keeps: at most one
  prompt per idempotency key, one receipt per paid checkout, one checkout per M-Pesa reference.
 */
module DarajaRuns {
  import opened Common
  import opened Decimals
  import opened Allocations
  import opened Receipts
  import ReceiptPosting
  import opened Daraja
  import Sums

  // ----- At most one live prompt

  predicate UniqueRequests(m: Mpesa) {
    forall p, q | 0 <= p < q < |m.requests| :: m.requests[p].key != m.requests[q].key
  }

  /** Proven not sent, and on file as such. */
  predicate ProvenNotSent(a: Attempt) { a.reply == NotSent && a.saved }

  /** Every call of the provider but the last for its request was proven not sent before the next one was made. */
  predicate OnePrompt(m: Mpesa) {
    && UniqueRequests(m)
    && (forall i | 0 <= i < |m.attempts| :: m.attempts[i].request < |m.requests|)
    && (forall i, j | 0 <= i < j < |m.attempts| && m.attempts[i].request == m.attempts[j].request ::
        ProvenNotSent(m.attempts[i]))
    && (forall i | 0 <= i < |m.attempts| && m.requests[m.attempts[i].request].recovery == NotSentYet ::
        ProvenNotSent(m.attempts[i]))
  }

  /** The prompt may have reached the provider: its answer is outstanding, lost, or anything but "not sent". */
  predicate MayHaveReached(a: Attempt) { a.reply != NotSent && a.reply != NotWhole }

  function KeyOfAttempt(m: Mpesa, a: Attempt): Ref
    requires a.request < |m.requests|
  {
    m.requests[a.request].key
  }

  /** What no step changes in a request. */
  predicate SameRequest(r: Request, s: Request) {
    s == r.(checkout := s.checkout, status := s.status, recovery := s.recovery, receipt := s.receipt)
  }

  /** Other than Begin, a step leaves requests where they are, and only a proven answer makes one not sent. */
  ghost predicate Quiet(m: Mpesa, t: Mpesa) {
    && |t.requests| == |m.requests|
    && forall q | 0 <= q < |m.requests| :: SameRequest(m.requests[q], t.requests[q]) &&
         (t.requests[q].recovery == NotSentYet ==> m.requests[q].recovery == NotSentYet)
  }

  /** No attempt is added, and one that is over stays as it is. */
  ghost predicate QuietAttempts(m: Mpesa, t: Mpesa) {
    && |t.attempts| == |m.attempts|
    && forall i | 0 <= i < |m.attempts| ::
         t.attempts[i].request == m.attempts[i].request &&
         (ProvenNotSent(m.attempts[i]) ==> t.attempts[i] == m.attempts[i])
  }

  lemma QuietKeepsOnePrompt(m: Mpesa, t: Mpesa)
    requires OnePrompt(m) && Quiet(m, t) && QuietAttempts(m, t)
    ensures OnePrompt(t)
  {
  }

  lemma SucceedIsQuiet(m: Mpesa, checkout: Ref, reference: Ref, nanos: int, ids: nat -> Ref)
    ensures Quiet(m, Succeed(m, checkout, reference, nanos, ids).After(m))
    ensures Succeed(m, checkout, reference, nanos, ids).After(m).attempts == m.attempts
  {
  }

  lemma SaveKeepsOnePrompt(m: Mpesa, a: nat)
    requires OnePrompt(m)
    ensures OnePrompt(Save(m, a))
  {
    var t := Save(m, a);
    if t != m {
      var q := m.attempts[a].request;
      forall i | 0 <= i < |m.attempts| && i != a && m.attempts[i].request == q && m.attempts[a].reply == NotSent
        ensures ProvenNotSent(m.attempts[i])
      {
        assert !ProvenNotSent(m.attempts[a]);
      }
      if m.attempts[a].reply != NotSent { QuietKeepsOnePrompt(m, t); }
    }
  }

  lemma RegisterOutcomes(m: Mpesa, p: Prompt, eligible: bool)
    requires Register(m, p, eligible).Commit?
    ensures var t := Register(m, p, eligible).state;
            var (q, created) := Register(m, p, eligible).value;
            t.links == m.links && t.coop.receipts == m.coop.receipts && t.coop == m.coop.(fees := t.coop.fees) &&
            if First(m.requests, WithKey(p.key)).None? then
              q == |m.requests| && created && t.attempts == m.attempts + [Attempt(q, p.amount, InFlight, false)] &&
              t.requests == m.requests + [t.requests[q]] && t.requests[q].key == p.key &&
              t.requests[q].status == RequestPending && t.requests[q].recovery == AwaitingConfirmation &&
              t.requests[q].checkout == None && t.requests[q].receipt == None &&
              t.requests[q].expected == Column(p.amount)
            else
              First(m.requests, WithKey(p.key)) == Some(q) &&
              if created then
                m.requests[q].recovery == NotSentYet && m.requests[q].checkout.None? &&
                m.requests[q].status == RequestPending &&
                t == SetRequest(m, q, m.requests[q].(recovery := AwaitingConfirmation))
                       .(attempts := m.attempts + [Attempt(q, p.amount, InFlight, false)])
              else t == m
  {
  }

  lemma RegisterKeepsOnePrompt(m: Mpesa, p: Prompt, eligible: bool)
    requires OnePrompt(m)
    ensures OnePrompt(Register(m, p, eligible).After(m))
  {
    if Register(m, p, eligible).Commit? {
      RegisterOutcomes(m, p, eligible);
      RegisteredOnce(m, Register(m, p, eligible).state, p, Register(m, p, eligible).value.0,
                     Register(m, p, eligible).value.1);
    }
  }

  lemma RegisteredOnce(m: Mpesa, t: Mpesa, p: Prompt, q: nat, created: bool)
    requires OnePrompt(m)
    requires if First(m.requests, WithKey(p.key)).None? then
               q == |m.requests| && t.attempts == m.attempts + [Attempt(q, p.amount, InFlight, false)] &&
               |t.requests| == q + 1 &&
               t.requests == m.requests + [t.requests[q]] && t.requests[q].key == p.key &&
               t.requests[q].recovery == AwaitingConfirmation
             else
               q < |m.requests| &&
               if created then
                 m.requests[q].recovery == NotSentYet &&
                 t == SetRequest(m, q, m.requests[q].(recovery := AwaitingConfirmation))
                        .(attempts := m.attempts + [Attempt(q, p.amount, InFlight, false)])
               else t == m
    ensures OnePrompt(t)
  {
    FirstNone(m.requests, WithKey(p.key));
  }

  /**
    No step, whatever it interleaves with, lets a second prompt out while an earlier one may have reached the provider.
   */
  lemma {:induction false} StepKeepsOnePrompt(m: Mpesa, step: Step)
    requires OnePrompt(m)
    ensures OnePrompt(Take(m, step))
  {
    match step
    case Begin(prompt, eligible) => RegisterKeepsOnePrompt(m, prompt, eligible);
    case Keep(attempt) => SaveKeepsOnePrompt(m, attempt);
    case Success(checkout, reference, nanos, ids) =>
      SucceedIsQuiet(m, checkout, reference, nanos, ids);
      QuietKeepsOnePrompt(m, Take(m, step));
    case _ =>
      OthersAreQuiet(m, step);
      QuietKeepsOnePrompt(m, Take(m, step));
  }

  lemma {:induction false} OthersAreQuiet(m: Mpesa, step: Step)
    requires !step.Begin? && !step.Keep? && !step.Success?
    ensures Quiet(m, Take(m, step)) && QuietAttempts(m, Take(m, step))
  {
  }

  /** At any point of any run, at most one prompt per idempotency key may have reached the provider: the latest. */
  lemma {:induction false} RunSendsOnePrompt(m: Mpesa, steps: seq<Step>)
    requires OnePrompt(m)
    ensures var t := Run(m, steps);
            OnePrompt(t) &&
            forall i, j | 0 <= i < j < |t.attempts| &&
              KeyOfAttempt(t, t.attempts[i]) == KeyOfAttempt(t, t.attempts[j]) ::
              t.attempts[i].reply == NotSent && !MayHaveReached(t.attempts[i])
  {
    if steps != [] {
      RunSendsOnePrompt(m, steps[..|steps| - 1]);
      StepKeepsOnePrompt(Run(m, steps[..|steps| - 1]), steps[|steps| - 1]);
    }
    var t := Run(m, steps);
    forall i, j | 0 <= i < j < |t.attempts| && KeyOfAttempt(t, t.attempts[i]) == KeyOfAttempt(t, t.attempts[j])
      ensures t.attempts[i].reply == NotSent
    {
      assert t.attempts[i].request == t.attempts[j].request;
    }
  }

  // ----- A completed request stays completed

  /** An answer that is written without looking at the request: rejected, or an amount that is not whole. */
  predicate FailsBlindly(m: Mpesa, step: Step, q: nat) {
    step.Keep? && step.attempt < |m.attempts| && m.attempts[step.attempt].request == q &&
    !m.attempts[step.attempt].saved &&
    (m.attempts[step.attempt].reply == Rejected || m.attempts[step.attempt].reply == NotWhole)
  }

  /** No step takes a request out of completed, except a rejection of its prompt that is saved only then. */
  lemma {:induction false} StaysCompletedIff(m: Mpesa, step: Step, q: nat)
    requires q < |m.requests| && m.requests[q].status == RequestCompleted
    ensures q < |Take(m, step).requests|
    ensures Take(m, step).requests[q].status == RequestCompleted <==> !FailsBlindly(m, step, q)
    ensures Take(m, step).requests[q].receipt == m.requests[q].receipt
  {
    match step
    case Begin(prompt, eligible) => if Register(m, prompt, eligible).Commit? { RegisterOutcomes(m, prompt, eligible); }
    case Success(checkout, reference, nanos, ids) => SuccessKeepsCompleted(m, checkout, reference, nanos, ids, q);
    case Keep(attempt) =>
    case _ => OthersKeepCompleted(m, step, q);
  }

  lemma {:induction false} SuccessKeepsCompleted(m: Mpesa, checkout: Ref, reference: Ref, nanos: int, ids: nat -> Ref,
                                                 q: nat)
    requires q < |m.requests| && m.requests[q].status == RequestCompleted
    ensures var t := Succeed(m, checkout, reference, nanos, ids).After(m);
            q < |t.requests| && t.requests[q] == m.requests[q]
  {
  }

  lemma {:induction false} OthersKeepCompleted(m: Mpesa, step: Step, q: nat)
    requires q < |m.requests| && m.requests[q].status == RequestCompleted && !step.Begin? && !step.Success? &&
             !step.Keep?
    ensures var t := Take(m, step);
            q < |t.requests| && t.requests[q].status == RequestCompleted &&
            t.requests[q].receipt == m.requests[q].receipt
  {
  }

  /** From here on, all along the run, the request is completed. */
  ghost predicate CompletedThroughout(m: Mpesa, steps: seq<Step>, q: nat) {
    var t := Run(m, steps);
    && q < |t.requests| && t.requests[q].status == RequestCompleted
    && (steps == [] || CompletedThroughout(m, steps[..|steps| - 1], q))
  }

  /** No rejection of the request's prompts is saved in the run. */
  ghost predicate NeverFailsBlindly(m: Mpesa, steps: seq<Step>, q: nat) {
    steps == [] ||
    (NeverFailsBlindly(m, steps[..|steps| - 1], q) &&
     !FailsBlindly(Run(m, steps[..|steps| - 1]), steps[|steps| - 1], q))
  }

  lemma {:induction false} CompletedEnds(m: Mpesa, steps: seq<Step>, q: nat)
    ensures CompletedThroughout(m, steps, q) ==>
            q < |Run(m, steps).requests| && Run(m, steps).requests[q].status == RequestCompleted
  {
  }

  /**
    A completed request is completed in every later state, if and only if no rejection of its prompts is saved in the
    run.
   */
  lemma {:induction false} RunStaysCompletedIff(m: Mpesa, steps: seq<Step>, q: nat)
    requires q < |m.requests| && m.requests[q].status == RequestCompleted
    ensures CompletedThroughout(m, steps, q) <==> NeverFailsBlindly(m, steps, q)
  {
    if steps != [] {
      var init := steps[..|steps| - 1];
      RunStaysCompletedIff(m, init, q);
      CompletedEnds(m, init, q);
      if CompletedThroughout(m, init, q) { StaysCompletedIff(Run(m, init), steps[|steps| - 1], q); }
    }
  }

  /** Staff restore a checkout while its prompt is still being asked for, and it is paid. */
  function RestoredWhilePrompted(c: Coop): Mpesa {
    Mpesa(c, [], [OneShare("key", None)], [Attempt(0, Nanos(10_000), InFlight, false)])
  }

  lemma {:induction false} RestoredIsPaid(c: Coop, ids: nat -> Ref) returns (paid: Mpesa)
    requires c.receipts == []
    ensures paid == Run(RestoredWhilePrompted(c),
                        [RestoreCheckout(0, "ws_1"), Success("ws_1", "QK1", Nanos(10_000), ids)])
    ensures |paid.requests| == 1 && paid.requests[0].status == RequestCompleted && paid.requests[0].receipt == Some(0)
    ensures paid.requests[0].checkout == Some("ws_1") && paid.links == [Link(Some("QK1"), Some("ws_1"))]
    ensures paid.attempts == [Attempt(0, Nanos(10_000), InFlight, false)]
  {
    var m := RestoredWhilePrompted(c);
    var s := Take(m, RestoreCheckout(0, "ws_1"));
    assert s.requests[0] == OneShare("key", Some("ws_1"));
    OneShareIsPayable("key", Some("ws_1"), ids);
    paid := Take(s, Success("ws_1", "QK1", Nanos(10_000), ids));
    assert paid.requests[0].status == RequestCompleted;
    RunOfTwo(m, RestoreCheckout(0, "ws_1"), Success("ws_1", "QK1", Nanos(10_000), ids));
  }

  /** Then the prompt is rejected, and the paid request is marked failed. */
  lemma {:induction false} RejectedAfterCompletion(c: Coop, ids: nat -> Ref)
    requires c.receipts == []
    ensures var paid :=
            Run(RestoredWhilePrompted(c), [RestoreCheckout(0, "ws_1"), Success("ws_1", "QK1", Nanos(10_000), ids)]);
            var regressed := Run(paid, [Reach(0, Rejected), Keep(0)]);
            |paid.requests| == 1 && paid.requests[0].status == RequestCompleted &&
            |regressed.requests| == 1 && regressed.requests[0].status == RequestFailed
  {
    ghost var paid := RestoredIsPaid(c, ids);
    AnsweredLate(paid, Rejected);
  }

  /** ... or accepted under another checkout, and the request is no longer under its receipt's. */
  lemma {:induction false} AcceptedAfterCompletion(c: Coop, ids: nat -> Ref)
    requires c.receipts == []
    ensures var paid :=
            Run(RestoredWhilePrompted(c), [RestoreCheckout(0, "ws_1"), Success("ws_1", "QK1", Nanos(10_000), ids)]);
            var moved := Run(paid, [Reach(0, Accepted("ws_2")), Keep(0)]);
            Linked(paid) && !Linked(moved) && |moved.requests| == 1 && moved.requests[0].receipt == Some(0) &&
            moved.links == [Link(Some("QK1"), Some("ws_1"))] && moved.requests[0].checkout == Some("ws_2")
  {
    ghost var paid := RestoredIsPaid(c, ids);
    assert Matched(paid, paid.requests[0]);
    AnsweredLate(paid, Accepted("ws_2"));
    var moved := Run(paid, [Reach(0, Accepted("ws_2")), Keep(0)]);
    assert !Matched(moved, moved.requests[0]);
  }

  lemma {:induction false} AnsweredLate(paid: Mpesa, reply: Reply)
    requires paid.attempts == [Attempt(0, Nanos(10_000), InFlight, false)] && |paid.requests| == 1
    requires paid.requests[0].checkout == Some("ws_1") && reply in {Rejected, Accepted("ws_2")}
    ensures var t := Run(paid, [Reach(0, reply), Keep(0)]);
            t.links == paid.links && |t.requests| == 1 &&
            t.requests[0] == if reply == Rejected
              then paid.requests[0].(status := RequestFailed, recovery := ProviderFailed)
                             else paid.requests[0].(checkout := Some("ws_2"))
  {
    RunOfTwo(paid, Reach(0, reply), Keep(0));
    assert Take(paid, Reach(0, reply)).attempts[0] == Attempt(0, Nanos(10_000), reply, false);
    assert paid.requests[..0] == [];
  }

  /** A pending request for one shilling of shares. */
  function OneShare(key: Ref, checkout: Option<Ref>): Request {
    Request(key, 1, 1, 0, "", 10_000, [Row(Key(SharePurchase, Some(7)), 10_000)], checkout, RequestPending,
            AwaitingConfirmation, None)
  }

  lemma OneShareIsPayable(key: Ref, checkout: Option<Ref>, ids: nat -> Ref)
    ensures ReceiptError(Callback(OneShare(key, checkout), Nanos(10_000), ids)).None?
  {
    var items := ParsePlan(OneShare(key, checkout).plan);
    assert items == [Item(SharePurchase, Some(7), Nanos(10_000))];
    assert items[..0] == [];
    ColumnOfTicks(10_000);
    assert Sums.Of(items, ItemTicks) == 10_000;
    assert ItemsError(items).None?;
  }

  lemma RunOfTwo(m: Mpesa, first: Step, second: Step)
    ensures Run(m, [first, second]) == Take(Take(m, first), second)
  {
    assert [first][..0] == [];
    assert Run(m, [first]) == Take(m, first);
    assert [first, second][..1] == [first];
  }

  // ----- One reference, one checkout

  /** What the unique indexes keep. */
  predicate Wired(m: Mpesa) {
    && |m.links| == |m.coop.receipts|
    && (forall p, q | 0 <= p < q < |m.requests| && m.requests[p].checkout == m.requests[q].checkout ::
        m.requests[p].checkout.None?)
    && (forall j, k | 0 <= j < k < |m.links| && m.links[j].reference == m.links[k].reference ::
        m.links[j].reference.None?)
    && (forall j, k | 0 <= j < k < |m.links| && m.links[j].checkout == m.links[k].checkout :: m.links[j].checkout.None?)
    && (forall k | 0 <= k < |m.links| && m.links[k].checkout.Some? :: m.links[k].reference.Some?)
  }

  /** A request that has a receipt and the receipt carry the same checkout. */
  predicate Matched(m: Mpesa, r: Request) {
    r.receipt.Some? ==>
      r.receipt.value < |m.links| && m.links[r.receipt.value].checkout.Some? &&
      m.links[r.receipt.value].checkout == r.checkout
  }

  predicate Linked(m: Mpesa) { forall q | 0 <= q < |m.requests| :: Matched(m, m.requests[q]) }

  /** The request can be paid by a callback for this amount: its plan passes the checks made on the receipt. */
  predicate Payable(r: Request, nanos: int) {
    && 0 < nanos && r.expected == Ticks(nanos) && r.plan != [] && ItemsError(ParsePlan(r.plan)).None?
    && Sums.Of(ParsePlan(r.plan), ItemTicks) == Ticks(nanos)
  }

  /** The guards under which a success callback completes its request with the receipt on file for it. */
  predicate FindsReceipt(m: Mpesa, checkout: Ref, reference: Ref, nanos: int) {
    && checkout != "" && reference != "" && First(m.requests, WithCheckout(checkout)).Some? &&
       OnFile(m.links, reference, checkout).Some?
    && var r, k := m.requests[First(m.requests, WithCheckout(checkout)).value],
       OnFile(m.links, reference, checkout).value;
    && r.status != RequestCompleted && Payable(r, nanos) && k < |m.coop.receipts| &&
       m.links[k].checkout in {None, Some(checkout)}
    && RowsMatch(ParsePlan(r.plan), StoredRows(m.coop.receipts[k].rows))
  }

  lemma {:induction false} PayableIff(r: Request, nanos: int, ids: nat -> Ref)
    ensures Payable(r, nanos) <==>
            0 < nanos && r.expected == Ticks(nanos) && r.plan != [] && ReceiptError(Callback(r, nanos, ids)).None?
  {
  }

  /** At most the request has been noted for review. */
  predicate OnlyNoted(m: Mpesa, t: Mpesa, q: nat) {
    t == m || (q < |m.requests| && |t.requests| == |m.requests| &&
               t == SetRequest(m, q, m.requests[q].(recovery := t.requests[q].recovery)))
  }

  /** The request has been completed with a new receipt of its own. */
  predicate Opened(m: Mpesa, t: Mpesa, q: nat, checkout: Ref, reference: Ref) {
    && q < |m.requests| && m.requests[q].checkout == Some(checkout) && OnFile(m.links, reference, checkout).None?
    && t.links == m.links + [Link(Some(reference), Some(checkout))] &&
       t.requests == Complete(m, q, |m.coop.receipts|).requests
    && m.coop.receipts <= t.coop.receipts && |t.coop.receipts| == |m.coop.receipts| + 1
  }

  predicate CompletedWith(m: Mpesa, t: Mpesa, q: nat, k: nat) {
    q < |m.requests| && t == Complete(m, q, k)
  }

  /** Filing a receipt for a request: the one on file if it fits, or a new one. */
  lemma {:induction false} FileOutcomes(m: Mpesa, q: nat, n: NewReceipt, reference: Ref, checkout: Ref)
    returns (t: Mpesa)
    requires q < |m.requests| && |n.ids| == |n.items| && m.requests[q].checkout == Some(checkout)
    ensures t == FileReceipt(m, q, n, reference, checkout).After(m)
    ensures if OnFile(m.links, reference, checkout).Some? then
              var k := OnFile(m.links, reference, checkout).value;
              if k < |m.coop.receipts| && m.links[k].checkout in {None, Some(checkout)} &&
                RowsMatch(n.items, StoredRows(m.coop.receipts[k].rows))
              then t == Complete(m, q, k) else t == m
            else t == m || Opened(m, t, q, checkout, reference)
  {
    t := FileReceipt(m, q, n, reference, checkout).After(m);
  }

  lemma {:induction false} ReviewOnlyNotes(m: Mpesa, q: nat, e: Error)
    requires q < |m.requests|
    ensures OnlyNoted(m, Review(m, q, e).state, q)
  {
  }

  /** What a success callback does: note its request, complete it with the receipt on file, or with a new one. */
  lemma {:induction false} SuccessOutcomes(m: Mpesa, checkout: Ref, reference: Ref, nanos: int, ids: nat -> Ref)
    returns (t: Mpesa, q: nat, k: nat)
    ensures t == Take(m, Success(checkout, reference, nanos, ids))
    ensures First(m.requests, WithCheckout(checkout)).Some? ==> First(m.requests, WithCheckout(checkout)) == Some(q)
    ensures OnFile(m.links, reference, checkout).Some? ==> OnFile(m.links, reference, checkout) == Some(k)
    ensures if FindsReceipt(m, checkout, reference, nanos) then CompletedWith(m, t, q, k)
            else OnlyNoted(m, t, q) || Opened(m, t, q, checkout, reference)
  {
    t, q, k := Succeed(m, checkout, reference, nanos, ids).After(m), 0, 0;
    if OnFile(m.links, reference, checkout).Some? { k := OnFile(m.links, reference, checkout).value; }
    if First(m.requests, WithCheckout(checkout)).Some? {
      q := First(m.requests, WithCheckout(checkout)).value;
      PayableIff(m.requests[q], nanos, ids);
      ReviewOnlyNotes(m, q, InvalidPayment);
      ghost var s := FileOutcomes(m, q, Callback(m.requests[q], nanos, ids), reference, checkout);
    }
  }

  /** The callback would be given a receipt that carries its reference but no checkout. */
  predicate Adopts(m: Mpesa, checkout: Ref, reference: Ref, nanos: int) {
    FindsReceipt(m, checkout, reference, nanos) && m.links[OnFile(m.links, reference, checkout).value].checkout.None?
  }

  /** The answer would give the request another checkout than the one it was paid under. */
  predicate MovesCheckout(m: Mpesa, a: nat) {
    a < |m.attempts| && m.attempts[a].request < |m.requests| && !m.attempts[a].saved && m.attempts[a].reply.Accepted? &&
    var r, checkout := m.requests[m.attempts[a].request], m.attempts[a].reply.checkout;
    r.receipt.Some? && r.checkout != Some(checkout) && First(m.requests, WithCheckout(checkout)).None?
  }

  predicate Orderly(m: Mpesa, step: Step) {
    match step
    case Success(checkout, reference, nanos, ids) => !Adopts(m, checkout, reference, nanos)
    case Keep(attempt) => !MovesCheckout(m, attempt)
    case _ => true
  }

  lemma FiledIsWired(m: Mpesa, q: nat, n: NewReceipt, reference: Ref, checkout: Ref)
    requires Wired(m) && q < |m.requests| && |n.ids| == |n.items| && FileReceipt(m, q, n, reference, checkout).Commit?
    ensures Wired(FileReceipt(m, q, n, reference, checkout).state)
  {
    FirstNone(m.links, Referenced(reference));
    FirstNone(m.links, LinkedTo(checkout));
  }

  lemma SetCheckoutIsWired(m: Mpesa, q: nat, checkout: Ref)
    requires Wired(m) && q < |m.requests|
    ensures Wired(SetCheckout(m, q, checkout).After(m))
  {
    FirstNone(m.requests, WithCheckout(checkout));
    if First(m.requests, WithCheckout(checkout)) == Some(q) {
      assert m.requests[q].checkout == Some(checkout);
    }
  }

  lemma RegisterIsWired(m: Mpesa, p: Prompt, eligible: bool)
    requires Wired(m)
    ensures Wired(Register(m, p, eligible).After(m))
  {
    if Register(m, p, eligible).Commit? { RegisterOutcomes(m, p, eligible); }
  }

  lemma {:induction false} StepKeepsWired(m: Mpesa, step: Step)
    requires Wired(m)
    ensures Wired(Take(m, step))
  {
    match step
    case Begin(prompt, eligible) => RegisterIsWired(m, prompt, eligible);
    case Keep(attempt) => SaveIsWired(m, attempt);
    case Success(checkout, reference, nanos, ids) => SucceedIsWired(m, checkout, reference, nanos, ids);
    case RestoreCheckout(request, checkout) => RecoveryIsWired(m, step);
    case ReconcilePayment(request, checkout, reference, nanos) => RecoveryIsWired(m, step);
    case OtherReceipt(n, mpesa) => OtherIsWired(m, n, mpesa);
    case _ => UnlinkedIsWired(m, step);
  }

  lemma {:induction false} UnlinkedIsWired(m: Mpesa, step: Step)
    requires Wired(m) && (step.Reach? || step.Failure? || step.Queried? || step.Processing?)
    ensures Wired(Take(m, step))
  {
  }

  lemma {:induction false} RecoveryIsWired(m: Mpesa, step: Step)
    requires Wired(m) && (step.RestoreCheckout? || step.ReconcilePayment?)
    ensures Wired(Take(m, step))
  {
    if step.request < |m.requests| { SetCheckoutIsWired(m, step.request, step.checkout); }
  }

  lemma {:induction false} OtherIsWired(m: Mpesa, n: NewReceipt, mpesa: Option<Ref>)
    requires Wired(m)
    ensures Wired(FileOther(m, n, mpesa))
  {
    if mpesa.Some? { FirstNone(m.links, Referenced(mpesa.value)); }
  }

  lemma SaveIsWired(m: Mpesa, a: nat)
    requires Wired(m)
    ensures Wired(Save(m, a))
  {
    if a < |m.attempts| && m.attempts[a].request < |m.requests| && m.attempts[a].reply.Accepted? {
      SetCheckoutIsWired(m.(attempts := m.attempts[a := m.attempts[a].(saved := true)]), m.attempts[a].request,
                         m.attempts[a].reply.checkout);
    }
  }

  lemma SucceedIsWired(m: Mpesa, checkout: Ref, reference: Ref, nanos: int, ids: nat -> Ref)
    requires Wired(m)
    ensures Wired(Succeed(m, checkout, reference, nanos, ids).After(m))
  {
    var r := Succeed(m, checkout, reference, nanos, ids);
    if r.Commit? && r.state != m {
      var q := First(m.requests, WithCheckout(checkout)).value;
      var n := Callback(m.requests[q], nanos, ids);
      if r.value.Ok? { FiledIsWired(m, q, n, reference, checkout); }
    }
  }

  lemma {:induction false} SucceedKeepsLinkedIff(m: Mpesa, checkout: Ref, reference: Ref, nanos: int, ids: nat -> Ref)
    requires Wired(m) && Linked(m)
    ensures Linked(Take(m, Success(checkout, reference, nanos, ids))) <==> !Adopts(m, checkout, reference, nanos)
  {
    ghost var t, q, k := SuccessOutcomes(m, checkout, reference, nanos, ids);
    forall p | 0 <= p < |t.requests| && p != q ensures Matched(t, t.requests[p]) { assert Matched(m, m.requests[p]); }
    if FindsReceipt(m, checkout, reference, nanos) {
      assert Matched(t, t.requests[q]) <==> m.links[k].checkout == Some(checkout);
    } else if Opened(m, t, q, checkout, reference) {
      assert Matched(t, t.requests[q]);
    } else {
      assert q < |m.requests| ==> Matched(m, m.requests[q]);
    }
  }

  lemma RegisterIsLinked(m: Mpesa, p: Prompt, eligible: bool)
    requires Wired(m) && Linked(m)
    ensures Linked(Register(m, p, eligible).After(m))
  {
    if Register(m, p, eligible).Commit? { RegisterOutcomes(m, p, eligible); }
  }

  lemma RecoveryIsLinked(m: Mpesa, step: Step)
    requires Wired(m) && Linked(m) && (step.RestoreCheckout? || step.ReconcilePayment?)
    ensures Linked(Take(m, step))
  {
    var t := Take(m, step);
    if t.requests != m.requests {
      assert Matched(m, m.requests[step.request]);
    }
  }

  /** A step keeps requests and receipts matched exactly when it is none of those two. */
  lemma StepKeepsLinkedIff(m: Mpesa, step: Step)
    requires Wired(m) && Linked(m)
    ensures Linked(Take(m, step)) <==> Orderly(m, step)
  {
    match step
    case Begin(prompt, eligible) => RegisterIsLinked(m, prompt, eligible);
    case Success(checkout, reference, nanos, ids) => SucceedKeepsLinkedIff(m, checkout, reference, nanos, ids);
    case Keep(attempt) => SaveIsLinkedIff(m, attempt);
    case RestoreCheckout(request, checkout) => RecoveryIsLinked(m, step);
    case ReconcilePayment(request, checkout, reference, nanos) => RecoveryIsLinked(m, step);
    case _ =>
  }

  lemma SaveIsLinkedIff(m: Mpesa, a: nat)
    requires Wired(m) && Linked(m)
    ensures Linked(Save(m, a)) <==> !MovesCheckout(m, a)
  {
    var t := Save(m, a);
    if t.requests != m.requests {
      var q := m.attempts[a].request;
      assert Matched(m, m.requests[q]);
      assert t.requests == m.requests[q := t.requests[q]];
      assert Linked(t) <==> Matched(t, t.requests[q]);
    }
  }

  ghost predicate LinkedThroughout(m: Mpesa, steps: seq<Step>) {
    Linked(Run(m, steps)) && (steps == [] || LinkedThroughout(m, steps[..|steps| - 1]))
  }

  ghost predicate OrderlyThroughout(m: Mpesa, steps: seq<Step>) {
    steps == [] || (OrderlyThroughout(m, steps[..|steps| - 1]) &&
                    Orderly(Run(m, steps[..|steps| - 1]), steps[|steps| - 1]))
  }

  lemma {:induction false} RunKeepsWired(m: Mpesa, steps: seq<Step>)
    requires Wired(m)
    ensures Wired(Run(m, steps))
  {
    if steps != [] {
      RunKeepsWired(m, steps[..|steps| - 1]);
      StepKeepsWired(Run(m, steps[..|steps| - 1]), steps[|steps| - 1]);
    }
  }

  lemma {:induction false} LinkedEnds(m: Mpesa, steps: seq<Step>)
    ensures LinkedThroughout(m, steps) ==> Linked(Run(m, steps))
  {
  }

  /**
    All along a run every paid request carries its receipt's checkout if and only if the run makes neither of those
    steps.
   */
  lemma {:induction false} RunKeepsLinkedIff(m: Mpesa, steps: seq<Step>)
    requires Wired(m) && Linked(m)
    ensures LinkedThroughout(m, steps) <==> OrderlyThroughout(m, steps)
  {
    if steps != [] {
      var init := steps[..|steps| - 1];
      RunKeepsLinkedIff(m, init);
      RunKeepsWired(m, init);
      LinkedEnds(m, init);
      if Linked(Run(m, init)) { StepKeepsLinkedIff(Run(m, init), steps[|steps| - 1]); }
    }
  }

  /** In every state such a run reaches, two paid requests have different receipts, M-Pesa references and checkouts. */
  lemma {:induction false} OneReferencePerCheckout(m: Mpesa, steps: seq<Step>, p: nat, q: nat)
    requires Wired(m) && Linked(m) && OrderlyThroughout(m, steps) && p < q < |Run(m, steps).requests|
    requires Run(m, steps).requests[p].receipt.Some? && Run(m, steps).requests[q].receipt.Some?
    ensures var t := Run(m, steps);
            var j, k := t.requests[p].receipt.value, t.requests[q].receipt.value;
            j < |t.links| && k < |t.links| && j != k &&
            t.links[j].reference != t.links[k].reference && t.requests[p].checkout != t.requests[q].checkout
  {
    RunKeepsLinkedIff(m, steps);
    RunKeepsWired(m, steps);
    LinkedEnds(m, steps);
    DifferentCheckouts(Run(m, steps), p, q);
  }

  lemma {:induction false} DifferentCheckouts(t: Mpesa, p: nat, q: nat)
    requires Wired(t) && Linked(t) && p < q < |t.requests| && t.requests[p].receipt.Some? && t.requests[q].receipt.Some?
    ensures var j, k := t.requests[p].receipt.value, t.requests[q].receipt.value;
            j < |t.links| && k < |t.links| && j != k &&
            t.links[j].reference != t.links[k].reference && t.requests[p].checkout != t.requests[q].checkout
  {
    assert Matched(t, t.requests[p]) && Matched(t, t.requests[q]);
  }

  // ----- One reference, one request

  /** Every receipt that a request has is on file under an M-Pesa reference. */
  predicate Filed(m: Mpesa) {
    forall q | 0 <= q < |m.requests| && m.requests[q].receipt.Some? ::
      m.requests[q].receipt.value < |m.links| && m.links[m.requests[q].receipt.value].reference.Some?
  }

  /** No two requests have one receipt. */
  predicate Single(m: Mpesa) {
    forall p, q | 0 <= p < q < |m.requests| && m.requests[p].receipt == m.requests[q].receipt ::
      m.requests[p].receipt.None?
  }

  /** While that holds, no M-Pesa reference pays two requests. */
  lemma {:induction false} OneReferencePerRequest(m: Mpesa, p: nat, q: nat)
    requires Wired(m) && Filed(m) && Single(m) && p < q < |m.requests|
    requires m.requests[p].receipt.Some? && m.requests[q].receipt.Some?
    ensures m.links[m.requests[p].receipt.value].reference != m.links[m.requests[q].receipt.value].reference
  {
  }

  /** The receipt that the callback will find already belongs to another request. */
  predicate Reuses(m: Mpesa, checkout: Ref, reference: Ref, nanos: int) {
    FindsReceipt(m, checkout, reference, nanos) &&
    exists p :: 0 <= p < |m.requests| && p != First(m.requests, WithCheckout(checkout)).value &&
      m.requests[p].receipt == OnFile(m.links, reference, checkout)
  }

  predicate Repeats(m: Mpesa, step: Step) { step.Success? && Reuses(m, step.checkout, step.reference, step.nanos) }

  lemma {:induction false} OnFileIsReferenced(m: Mpesa, checkout: Ref, reference: Ref)
    requires Wired(m) && OnFile(m.links, reference, checkout).Some?
    ensures m.links[OnFile(m.links, reference, checkout).value].reference.Some?
  {
  }

  lemma {:induction false} SucceedKeepsFiled(m: Mpesa, checkout: Ref, reference: Ref, nanos: int, ids: nat -> Ref)
    requires Wired(m) && Filed(m)
    ensures Filed(Take(m, Success(checkout, reference, nanos, ids)))
  {
    ghost var t, q, k := SuccessOutcomes(m, checkout, reference, nanos, ids);
    if FindsReceipt(m, checkout, reference, nanos) { OnFileIsReferenced(m, checkout, reference); }
  }

  lemma {:induction false} SucceedKeepsSingleIff(m: Mpesa, checkout: Ref, reference: Ref, nanos: int, ids: nat -> Ref)
    requires Wired(m) && Filed(m) && Single(m)
    ensures Single(Take(m, Success(checkout, reference, nanos, ids))) <==> !Reuses(m, checkout, reference, nanos)
  {
    ghost var t, q, k := SuccessOutcomes(m, checkout, reference, nanos, ids);
    if FindsReceipt(m, checkout, reference, nanos) {
      CompletedIsSingleIff(m, t, q, k);
    } else if Opened(m, t, q, checkout, reference) {
      CompletedIsSingleIff(m, t, q, |m.links|);
    }
  }

  lemma {:induction false} CompletedIsSingleIff(m: Mpesa, t: Mpesa, q: nat, k: nat)
    requires Single(m) && q < |m.requests| && t.requests == Complete(m, q, k).requests
    ensures Single(t) <==> forall p | 0 <= p < |m.requests| && p != q :: m.requests[p].receipt != Some(k)
  {
    if p :| 0 <= p < |m.requests| && p != q && m.requests[p].receipt == Some(k) {
      var a, b := if p < q then p else q, if p < q then q else p;
      assert t.requests[a].receipt == t.requests[b].receipt;
    }
  }

  /** Other steps give no request a receipt. */
  predicate SameHoldings(m: Mpesa, t: Mpesa) {
    && m.links <= t.links && |m.requests| <= |t.requests|
    && (forall q | 0 <= q < |m.requests| :: t.requests[q].receipt == m.requests[q].receipt)
    && forall q | |m.requests| <= q < |t.requests| :: t.requests[q].receipt.None?
  }

  lemma {:induction false} OthersKeepHoldings(m: Mpesa, step: Step)
    requires !step.Success?
    ensures SameHoldings(m, Take(m, step))
  {
    if step.Begin? && Register(m, step.prompt, step.eligible).Commit? {
      RegisterOutcomes(m, step.prompt, step.eligible);
    }
  }

  lemma {:induction false} StepKeepsFiled(m: Mpesa, step: Step)
    requires Wired(m) && Filed(m)
    ensures Filed(Take(m, step))
  {
    if step.Success? {
      SucceedKeepsFiled(m, step.checkout, step.reference, step.nanos, step.ids);
    } else {
      OthersKeepHoldings(m, step);
    }
  }

  /** A step lets two requests have one receipt if and only if it is a success that finds another request's receipt. */
  lemma {:induction false} StepKeepsSingleIff(m: Mpesa, step: Step)
    requires Wired(m) && Filed(m) && Single(m)
    ensures Single(Take(m, step)) <==> !Repeats(m, step)
  {
    if step.Success? {
      SucceedKeepsSingleIff(m, step.checkout, step.reference, step.nanos, step.ids);
    } else {
      OthersKeepHoldings(m, step);
    }
  }

  ghost predicate SingleThroughout(m: Mpesa, steps: seq<Step>) {
    Single(Run(m, steps)) && (steps == [] || SingleThroughout(m, steps[..|steps| - 1]))
  }

  ghost predicate NeverRepeats(m: Mpesa, steps: seq<Step>) {
    steps == [] || (NeverRepeats(m, steps[..|steps| - 1]) && !Repeats(Run(m, steps[..|steps| - 1]), steps[|steps| - 1]))
  }

  lemma {:induction false} RunKeepsFiled(m: Mpesa, steps: seq<Step>)
    requires Wired(m) && Filed(m)
    ensures Filed(Run(m, steps))
  {
    if steps != [] {
      RunKeepsFiled(m, steps[..|steps| - 1]);
      RunKeepsWired(m, steps[..|steps| - 1]);
      StepKeepsFiled(Run(m, steps[..|steps| - 1]), steps[|steps| - 1]);
    }
  }

  lemma {:induction false} SingleEnds(m: Mpesa, steps: seq<Step>)
    ensures SingleThroughout(m, steps) ==> Single(Run(m, steps))
  {
  }

  /**
    All along a run no M-Pesa reference pays two requests, if and only if no success of the run finds a receipt that
    another request has by then.
   */
  lemma {:induction false} RunKeepsSingleIff(m: Mpesa, steps: seq<Step>)
    requires Wired(m) && Filed(m) && Single(m)
    ensures SingleThroughout(m, steps) <==> NeverRepeats(m, steps)
  {
    if steps != [] {
      var init := steps[..|steps| - 1];
      RunKeepsSingleIff(m, init);
      RunKeepsWired(m, init);
      RunKeepsFiled(m, init);
      SingleEnds(m, init);
      if Single(Run(m, init)) { StepKeepsSingleIff(Run(m, init), steps[|steps| - 1]); }
    }
  }

  /** A receipt entered by hand under an M-Pesa reference lets that reference pay two checkouts. */
  lemma OneReferenceTwoCheckouts(c: Coop, ids: nat -> Ref)
    requires c.receipts ==
             [Receipt(0, 1, 1, 0, 10_000, Manual, ReceiptPending,
                      [AllocationRow("a", Key(SharePurchase, Some(7)), 10_000, RowPending)])]
    ensures var m := Mpesa(c, [Link(Some("QK1"), None)], [OneShare("k1", Some("ws_1")), OneShare("k2", Some("ws_2"))],
                           []);
            var t := Run(m, [Success("ws_1", "QK1", Nanos(10_000), ids), Success("ws_2", "QK1", Nanos(10_000), ids)]);
            |t.requests| == 2 &&
            forall q | 0 <= q < 2 :: t.requests[q].status == RequestCompleted && t.requests[q].receipt == Some(0)
  {
    var m := Mpesa(c, [Link(Some("QK1"), None)], [OneShare("k1", Some("ws_1")), OneShare("k2", Some("ws_2"))], []);
    PaysAdopted(m, 0, "k1", "ws_1", ids);
    PaysAdopted(Take(m, Success("ws_1", "QK1", Nanos(10_000), ids)), 1, "k2", "ws_2", ids);
    RunOfTwo(m, Success("ws_1", "QK1", Nanos(10_000), ids), Success("ws_2", "QK1", Nanos(10_000), ids));
  }

  lemma PaysAdopted(m: Mpesa, q: nat, key: Ref, checkout: Ref, ids: nat -> Ref)
    requires q < |m.requests| && m.requests[q] == OneShare(key, Some(checkout)) && checkout != ""
    requires First(m.requests, WithCheckout(checkout)) == Some(q)
    requires m.links == [Link(Some("QK1"), None)] && |m.coop.receipts| == 1
    requires m.coop.receipts[0].rows == [AllocationRow("a", Key(SharePurchase, Some(7)), 10_000, RowPending)]
    ensures Take(m, Success(checkout, "QK1", Nanos(10_000), ids)) == Complete(m, q, 0)
  {
    OneShareIsPayable(key, Some(checkout), ids);
    var n := Callback(OneShare(key, Some(checkout)), Nanos(10_000), ids);
    assert n.items == [Item(SharePurchase, Some(7), Nanos(10_000))];
    var row := Row(Key(SharePurchase, Some(7)), 10_000);
    assert StoredRows(m.coop.receipts[0].rows) == [row] && BuildPlan(n.items) == [row] by { ColumnOfTicks(10_000); }
    assert First(m.links, Referenced("QK1")) == Some(0) by { assert m.links[..0] == []; }
    ColumnOfTicks(10_000);
  }

  // ----- Callbacks in any order

  /**
    Callbacks, receipts of other channels, and receipts being processed: the steps that need no one to act on the
    request.
   */
  predicate Delivery(step: Step) { step.Success? || step.Failure? || step.OtherReceipt? || step.Processing? }

  /** The payment of this checkout is always reported with this reference and amount, and no other payment is. */
  predicate Reports(step: Step, checkout: Ref, reference: Ref, nanos: int) {
    match step
    case Success(c, r, n, ids) => if c == checkout then r == reference && n == nanos else r != reference
    case OtherReceipt(n, mpesa) => mpesa != Some(reference)
    case _ => true
  }

  predicate HasSuccess(steps: seq<Step>, checkout: Ref) {
    exists i | 0 <= i < |steps| :: steps[i].Success? && steps[i].checkout == checkout
  }

  predicate HasFailure(steps: seq<Step>, checkout: Ref) {
    exists i | 0 <= i < |steps| :: steps[i].Failure? && steps[i].checkout == checkout
  }

  /** Nothing on file for the payment. */
  predicate Unpaid(m: Mpesa, checkout: Ref, reference: Ref) {
    forall k | 0 <= k < |m.links| :: m.links[k].reference != Some(reference) && m.links[k].checkout != Some(checkout)
  }

  /** The receipt is the request's: its member, branch, month and allocations, and the amount paid. */
  predicate ReceiptFor(x: Receipt, r: Request, nanos: int) {
    && x.member == r.member && x.branch == r.branch && x.period == r.period && x.channel == DarajaStk
    && x.received == Column(nanos) && StoredRows(x.rows) == r.plan
  }

  /** Exactly one receipt for the payment, with what the request asked for, and the request points to it. */
  predicate PaidOnce(m: Mpesa, r: Request, checkout: Ref, reference: Ref, nanos: int) {
    && r.status == RequestCompleted && r.receipt.Some? && r.receipt.value < |m.links| == |m.coop.receipts|
    && ReceiptFor(m.coop.receipts[r.receipt.value], r, nanos)
    && m.links[r.receipt.value] == Link(Some(reference), Some(checkout))
    && forall k | 0 <= k < |m.links| &&
       (m.links[k].reference == Some(reference) || m.links[k].checkout == Some(checkout)) :: k == r.receipt.value
  }

  /** What the callbacks so far have made of the request. */
  predicate Delivered(m: Mpesa, t: Mpesa, q: nat, checkout: Ref, reference: Ref, nanos: int, succeeded: bool,
                      failed: bool)
    requires q < |m.requests|
  {
    && |t.links| == |t.coop.receipts| && q < |t.requests| && First(t.requests, WithCheckout(checkout)) == Some(q)
    && SameRequest(m.requests[q], t.requests[q]) && t.requests[q].checkout == Some(checkout)
    && if succeeded then PaidOnce(t, t.requests[q], checkout, reference, nanos)
       else Unpaid(t, checkout, reference) &&
            t.requests[q] == if failed && !IsReceived(m.requests[q].recovery)
                             then m.requests[q].(status := RequestFailed, recovery := ProviderFailed) else m.requests[q]
  }

  /**
    Callback confluence: whatever the order, the duplicates and the payments in between, the request ends completed
    with exactly one receipt, for the amount paid, if and only if a success was delivered.
   */
  lemma {:induction false} CallbackConfluence(m: Mpesa, steps: seq<Step>, checkout: Ref, reference: Ref, nanos: int)
    requires |m.links| == |m.coop.receipts| && checkout != "" && reference != "" &&
             First(m.requests, WithCheckout(checkout)).Some?
    requires var r := m.requests[First(m.requests, WithCheckout(checkout)).value];
             r.status != RequestCompleted && Payable(r, nanos)
    requires Unpaid(m, checkout, reference)
    requires forall i | 0 <= i < |steps| :: Delivery(steps[i]) && Reports(steps[i], checkout, reference, nanos)
    ensures var q := First(m.requests, WithCheckout(checkout)).value;
            Delivered(m, Run(m, steps), q, checkout, reference, nanos, HasSuccess(steps, checkout),
                      HasFailure(steps, checkout))
  {
    var q := First(m.requests, WithCheckout(checkout)).value;
    if steps != [] {
      var init, step := steps[..|steps| - 1], steps[|steps| - 1];
      CallbackConfluence(m, init, checkout, reference, nanos);
      HasOneMore(steps, checkout);
      DeliveryStep(m, Run(m, init), q, step, checkout, reference, nanos, HasSuccess(init, checkout),
                   HasFailure(init, checkout));
    }
  }

  lemma {:induction false} HasOneMore(steps: seq<Step>, checkout: Ref)
    requires steps != []
    ensures var init, step := steps[..|steps| - 1], steps[|steps| - 1];
            (HasSuccess(steps, checkout) <==>
             HasSuccess(init, checkout) || (step.Success? && step.checkout == checkout)) &&
            (HasFailure(steps, checkout) <==>
             HasFailure(init, checkout) || (step.Failure? && step.checkout == checkout))
  {
    var init := steps[..|steps| - 1];
    assert steps == init + [steps[|steps| - 1]];
  }

  /** What other payments leave as it is. */
  ghost predicate Undisturbed(t: Mpesa, s: Mpesa, q: nat, checkout: Ref, reference: Ref)
    requires q < |t.requests|
  {
    && |s.links| == |s.coop.receipts| && t.links <= s.links && ReceiptPosting.SamePapers(t.coop, s.coop)
    && First(s.requests, WithCheckout(checkout)) == Some(q) && s.requests[q] == t.requests[q]
    && forall k | |t.links| <= k < |s.links| ::
         s.links[k].reference != Some(reference) && s.links[k].checkout != Some(checkout)
  }

  lemma {:induction false} DeliveredStays(m: Mpesa, t: Mpesa, s: Mpesa, q: nat, checkout: Ref, reference: Ref,
                                          nanos: int, succeeded: bool, failed: bool)
    requires q < |m.requests| && Delivered(m, t, q, checkout, reference, nanos, succeeded, failed)
    requires Undisturbed(t, s, q, checkout, reference)
    ensures Delivered(m, s, q, checkout, reference, nanos, succeeded, failed)
  {
    if succeeded {
      var k := t.requests[q].receipt.value;
      assert ReceiptPosting.SamePaper(t.coop.receipts[k], s.coop.receipts[k]);
    }
  }

  /** Payments of other checkouts, receipts of other channels and receipts being processed leave it alone. */
  lemma {:induction false} OthersLeaveAlone(t: Mpesa, q: nat, step: Step, checkout: Ref, reference: Ref, nanos: int)
    returns (s: Mpesa)
    requires |t.links| == |t.coop.receipts| && First(t.requests, WithCheckout(checkout)) == Some(q)
    requires Delivery(step) && Reports(step, checkout, reference, nanos)
    requires !step.Failure? && !(step.Success? && step.checkout == checkout)
    ensures s == Take(t, step) && Undisturbed(t, s, q, checkout, reference)
  {
    match step
    case Success(c, r, n, ids) =>
      s := Take(t, step);
      OtherSuccess(t, q, checkout, reference, nanos, c, r, n, ids);
    case OtherReceipt(n, mpesa) => s := OtherAdds(t, n, mpesa);
    case Processing(receipt, eligible, now, fault) =>
      s := ProcessingKeepsPaid(t, receipt, eligible, now, fault);
  }

  lemma {:induction false} DeliveryStep(m: Mpesa, t: Mpesa, q: nat, step: Step, checkout: Ref, reference: Ref,
                                        nanos: int, succeeded: bool, failed: bool)
    requires q < |m.requests| && Delivered(m, t, q, checkout, reference, nanos, succeeded, failed)
    requires m.requests[q].status != RequestCompleted && Payable(m.requests[q], nanos) && checkout != "" &&
             reference != ""
    requires Delivery(step) && Reports(step, checkout, reference, nanos)
    ensures Delivered(m, Take(t, step), q, checkout, reference, nanos,
                      succeeded || (step.Success? && step.checkout == checkout),
                      failed || (step.Failure? && step.checkout == checkout))
  {
    if step.Failure? {
      FailureTouches(t, q, checkout, step.checkout);
    } else if step.Success? && step.checkout == checkout {
      if succeeded {
        assert Take(t, step) == t;
      } else {
        FirstSuccess(t, q, checkout, reference, nanos, step.ids);
      }
    } else {
      ghost var s := OthersLeaveAlone(t, q, step, checkout, reference, nanos);
      DeliveredStays(m, t, s, q, checkout, reference, nanos, succeeded, failed);
    }
  }

  /** Processing a receipt leaves what was received as it was. */
  lemma {:induction false} ProcessingKeepsPaid(t: Mpesa, receipt: nat, eligible: bool, now: nat, fault: Option<nat>)
    returns (s: Mpesa)
    ensures s == Take(t, Processing(receipt, eligible, now, fault)) && s == t.(coop := s.coop)
    ensures |s.coop.receipts| == |t.coop.receipts| && ReceiptPosting.SamePapers(t.coop, s.coop)
  {
    s := Take(t, Processing(receipt, eligible, now, fault));
    ReceiptPosting.ProcessKeepsPapers(t.coop, receipt, eligible, now, fault);
  }

  /** A receipt of another channel adds at most itself, without a checkout. */
  lemma {:induction false} OtherAdds(t: Mpesa, n: NewReceipt, mpesa: Option<Ref>) returns (s: Mpesa)
    ensures s == Take(t, OtherReceipt(n, mpesa))
    ensures s == t || (s.requests == t.requests && s.links == t.links + [Link(mpesa, None)] &&
                       t.coop.receipts <= s.coop.receipts && |s.coop.receipts| == |t.coop.receipts| + 1)
  {
    s := Take(t, OtherReceipt(n, mpesa));
  }

  /** The column keeps every amount of such a payment positive. */
  lemma {:induction false} PayableColumns(r: Request, nanos: int)
    requires Payable(r, nanos)
    ensures 0 < Column(nanos) && forall i | 0 <= i < |ParsePlan(r.plan)| :: 0 < Column(ParsePlan(r.plan)[i].amount)
  {
    var items := ParsePlan(r.plan);
    NoItemsError(items);
    ColumnAgainstTicks(nanos);
    forall i | 0 <= i < |items|
      ensures 0 < Column(items[i].amount) && items[i].amount == Nanos(Ticks(items[i].amount))
    {
      ColumnOfTicks(r.plan[i].ticks);
    }
    ItemsAddUp(items);
  }

  lemma {:induction false} PayableCallback(r: Request, nanos: int, ids: nat -> Ref, c: Coop)
    requires Payable(r, nanos)
    ensures ReceiptError(Callback(r, nanos, ids)).None? && Accept(c, Callback(r, nanos, ids)).Commit?
  {
    PayableIff(r, nanos, ids);
    PayableColumns(r, nanos);
  }

  lemma {:induction false} ItemsAddUp(items: seq<Item>)
    requires forall i | 0 <= i < |items| :: 0 < items[i].amount && items[i].amount == Nanos(Ticks(items[i].amount))
    ensures |items| <= Sums.Of(items, ItemTicks)
  {
    if items != [] {
      ItemsAddUp(items[..|items| - 1]);
      assert items[|items| - 1].amount == Nanos(Ticks(items[|items| - 1].amount));
    }
  }

  /** A new receipt of such a payment is the request's. */
  lemma {:induction false} CallbackIsFor(r: Request, nanos: int, ids: nat -> Ref, c: Coop)
    requires Payable(r, nanos)
    ensures ReceiptError(Callback(r, nanos, ids)).None? && Accept(c, Callback(r, nanos, ids)).Commit?
    ensures Accept(c, Callback(r, nanos, ids)).value == |c.receipts|
    ensures var d := Accept(c, Callback(r, nanos, ids)).state;
            |d.receipts| == |c.receipts| + 1 && c.receipts <= d.receipts &&
            ReceiptFor(d.receipts[|c.receipts|], r, nanos)
  {
    PayableCallback(r, nanos, ids, c);
    var n := Callback(r, nanos, ids);
    NoItemsError(n.items);
    forall i | 0 <= i < |r.plan| ensures Column(n.items[i].amount) == r.plan[i].ticks {
      ColumnOfTicks(r.plan[i].ticks);
    }
    assert StoredRows(RowsOf(n.items, n.ids)) == r.plan;
  }

  lemma {:induction false} FirstSuccess(t: Mpesa, q: nat, checkout: Ref, reference: Ref, nanos: int, ids: nat -> Ref)
    requires |t.links| == |t.coop.receipts| && First(t.requests, WithCheckout(checkout)) == Some(q)
    requires t.requests[q].status != RequestCompleted && Payable(t.requests[q], nanos) && checkout != "" &&
             reference != ""
    requires Unpaid(t, checkout, reference)
    ensures var s := Take(t, Success(checkout, reference, nanos, ids));
            |s.links| == |s.coop.receipts| && q < |s.requests| &&
            PaidOnce(s, s.requests[q], checkout, reference, nanos) &&
            First(s.requests, WithCheckout(checkout)) == Some(q) && SameRequest(t.requests[q], s.requests[q]) &&
            s.requests[q].checkout == Some(checkout)
  {
    var n := Callback(t.requests[q], nanos, ids);
    CallbackIsFor(t.requests[q], nanos, ids, t.coop);
    FirstNone(t.links, Referenced(reference));
    FirstNone(t.links, LinkedTo(checkout));
    var s := Take(t, Success(checkout, reference, nanos, ids));
    assert s.requests == t.requests[q := s.requests[q]];
    SameCheckoutSameFirst(t.requests, s.requests, checkout);
  }

  lemma {:induction false} SameCheckoutSameFirst(before: seq<Request>, after: seq<Request>, checkout: Ref)
    requires |after| == |before| && forall q | 0 <= q < |before| :: after[q].checkout == before[q].checkout
    ensures First(after, WithCheckout(checkout)) == First(before, WithCheckout(checkout))
  {
    if before != [] {
      SameCheckoutSameFirst(before[..|before| - 1], after[..|after| - 1], checkout);
    }
  }

  /** What a payment of another checkout leaves alone: the request, its receipt and its reference. */
  predicate LeavesAlone(t: Mpesa, s: Mpesa, q: nat, checkout: Ref, other: Ref, another: Ref)
    requires q < |t.requests|
  {
    && First(s.requests, WithCheckout(checkout)) == Some(q) && s.requests[q] == t.requests[q]
    && |s.links| == |s.coop.receipts| && t.links <= s.links && t.coop.receipts <= s.coop.receipts
    && forall k | |t.links| <= k < |s.links| :: s.links[k] == Link(Some(another), Some(other))
  }

  lemma {:induction false} OtherSuccess(t: Mpesa, q: nat, checkout: Ref, reference: Ref, nanos: int, other: Ref,
                                        another: Ref, n: int, ids: nat -> Ref)
    requires |t.links| == |t.coop.receipts| && First(t.requests, WithCheckout(checkout)) == Some(q)
    requires other != checkout && another != reference
    ensures LeavesAlone(t, Take(t, Success(other, another, n, ids)), q, checkout, other, another)
  {
    ghost var s, p, k := SuccessOutcomes(t, other, another, n, ids);
    assert t.requests[q].checkout == Some(checkout);
    if First(t.requests, WithCheckout(other)).Some? { assert t.requests[p].checkout == Some(other); }
    if s != t { OneOtherRequest(t, s, q, p, checkout, other, another); }
  }

  lemma {:induction false} OneOtherRequest(t: Mpesa, s: Mpesa, q: nat, p: nat, checkout: Ref, other: Ref, another: Ref)
    requires |t.links| == |t.coop.receipts| && First(t.requests, WithCheckout(checkout)) == Some(q) && p != q
    requires |s.links| == |s.coop.receipts| && t.links <= s.links && t.coop.receipts <= s.coop.receipts
    requires p < |t.requests| == |s.requests| && s.requests == t.requests[p := s.requests[p]] &&
             s.requests[p].checkout == t.requests[p].checkout
    requires forall k | |t.links| <= k < |s.links| :: s.links[k] == Link(Some(another), Some(other))
    ensures LeavesAlone(t, s, q, checkout, other, another)
  {
    SameCheckoutSameFirst(t.requests, s.requests, checkout);
  }

  lemma FailureTouches(t: Mpesa, q: nat, checkout: Ref, other: Ref)
    requires First(t.requests, WithCheckout(checkout)) == Some(q) && checkout != ""
    ensures var s := Take(t, Failure(other));
            s == t.(requests := s.requests) && First(s.requests, WithCheckout(checkout)) == Some(q) &&
            var r := t.requests[q];
            s.requests[q] == if other == checkout && r.status != RequestCompleted && !IsReceived(r.recovery)
                             then r.(status := RequestFailed, recovery := ProviderFailed) else r
  {
    var s := Take(t, Failure(other));
    assert t.requests[q].checkout == Some(checkout);
    SameCheckoutSameFirst(t.requests, s.requests, checkout);
  }

  /**
    A redelivered success returns the receipt exactly when less than half a tick of the amount was discarded; another
    reference is refused.
   */
  lemma RedeliveryIff(t: Mpesa, q: nat, checkout: Ref, reference: Ref, nanos: int, another: Ref, ids: nat -> Ref)
    requires First(t.requests, WithCheckout(checkout)) == Some(q) &&
             PaidOnce(t, t.requests[q], checkout, reference, nanos)
    requires 0 < nanos && checkout != "" && reference != "" && another !in {reference, ""}
    ensures Succeed(t, checkout, reference, nanos, ids) == Commit(t, Ok(t.requests[q].receipt.value)) <==>
            nanos % TICK < HALF
    ensures Succeed(t, checkout, another, nanos, ids) == Abort(InconsistentReceipt)
  {
    ColumnAgainstTicks(nanos);
  }

  /**
    A shilling and half a tick reported for a shilling: it is taken, kept as 1.0001, and refused when it is reported
    again.
   */
  lemma {:induction false} SecondDeliveryRefused(c: Coop, ids: nat -> Ref)
    requires c.receipts == []
    ensures var m := Mpesa(c, [], [OneShare("key", Some("ws_1"))], []);
            var t := Take(m, Success("ws_1", "QK1", 1_000_050_000, ids));
            |t.requests| == 1 && t.requests[0].status == RequestCompleted &&
            Succeed(t, "ws_1", "QK1", 1_000_050_000, ids) == Abort(InconsistentReceipt)
  {
    var m := Mpesa(c, [], [OneShare("key", Some("ws_1"))], []);
    assert Payable(OneShare("key", Some("ws_1")), 1_000_050_000) by { OneShareIsPayable("key", Some("ws_1"), ids); }
    assert m.requests[..0] == [];
    FirstSuccess(m, 0, "ws_1", "QK1", 1_000_050_000, ids);
  }

  // ----- The checks made before the prompt

  lemma {:induction false} RegisteredPlan(m: Mpesa, p: Prompt, eligible: bool)
    requires First(m.requests, WithKey(p.key)).None? && Register(m, p, eligible).Commit?
    ensures var fees :=
            Outstanding(m.coop.(fees := AssessFees(m.coop.fees, p.member, p.period, eligible)), p.member, p.period,
                        None);
            var items := Normalise(p.items, fees);
            items.Ok? && ReceiptError(Preflight(p, items.value, [])).None? && Whole(p.amount) &&
            Register(m, p, eligible).state.requests == m.requests + [NewRequest(p, items.value)]
  {
  }

  lemma {:induction false} ParsedTicks(items: seq<Item>)
    ensures Sums.Of(ParsePlan(BuildPlan(items)), ItemTicks) == Sums.Of(items, ItemTicks)
  {
    if items != [] {
      var n := |items| - 1;
      assert ParsePlan(BuildPlan(items))[..n] == ParsePlan(BuildPlan(items[..n]));
      ParsedTicks(items[..n]);
      ColumnOfTicks(Ticks(items[n].amount));
    }
  }

  /**
    The checks made before the prompt are enough for the callback that reports the prompted amount exactly when
    every allocation is at least a tick and the amount does not round up when it is stored.
   */
  lemma PreflightSufficesIff(p: Prompt, items: seq<Item>)
    requires ReceiptError(Preflight(p, items, [])).None? && Whole(p.amount)
    ensures Payable(NewRequest(p, items), Nanos(Ticks(p.amount))) <==>
            p.amount % TICK < HALF && forall i | 0 <= i < |items| :: TICK <= items[i].amount
  {
    ParsedIsValidIff(items);
    ParsedTicks(items);
    ColumnOfTicks(Ticks(p.amount));
    ColumnAgainstTicks(p.amount);
  }

  /** A shilling for one share account and a billionth for another: asked for, and refused once it is paid. */
  lemma {:induction false} PreflightIsNotEnough()
    ensures var items := [Item(SharePurchase, Some(7), Nanos(10_000)), Item(SharePurchase, Some(8), 1)];
            var p := Prompt("k", 1, 1, 0, "", Nanos(10_000), items);
            ReceiptError(Preflight(p, items, [])).None? && Whole(p.amount) && !Payable(NewRequest(p, items), p.amount)
  {
    var items := [Item(SharePurchase, Some(7), Nanos(10_000)), Item(SharePurchase, Some(8), 1)];
    var p := Prompt("k", 1, 1, 0, "", Nanos(10_000), items);
    assert items[..1] == [items[0]] && items[..1][..0] == [];
    assert UniqueKeys(items);
    NoItemsError(items);
    assert Sums.Of(items, ItemTicks) == 10_000;
    PreflightSufficesIff(p, items);
  }

  lemma {:induction false} ParsedIsValidIff(items: seq<Item>)
    requires ItemsError(items).None?
    ensures ItemsError(ParsePlan(BuildPlan(items))).None? <==> forall i | 0 <= i < |items| :: TICK <= items[i].amount
  {
    var parsed := ParsePlan(BuildPlan(items));
    NoItemsError(items);
    NoItemsError(parsed);
    forall i | 0 <= i < |items|
      ensures parsed[i].KeyOf() == items[i].KeyOf() && (0 < parsed[i].amount <==> TICK <= items[i].amount)
    {
      assert parsed[i].amount == Nanos(Ticks(items[i].amount));
    }
    assert UniqueKeys(parsed);
  }

  // ----- Asking again

  lemma StepKeepsRequests(m: Mpesa, step: Step)
    ensures |m.requests| <= |Take(m, step).requests|
    ensures forall q | 0 <= q < |m.requests| :: SameRequest(m.requests[q], Take(m, step).requests[q])
  {
    if step.Begin? && Register(m, step.prompt, step.eligible).Commit? {
      RegisterOutcomes(m, step.prompt, step.eligible);
    }
    if step.Success? {
      SucceedIsQuiet(m, step.checkout, step.reference, step.nanos, step.ids);
    }
  }

  lemma {:induction false} RunKeepsRequests(m: Mpesa, steps: seq<Step>)
    ensures |m.requests| <= |Run(m, steps).requests|
    ensures forall q | 0 <= q < |m.requests| :: SameRequest(m.requests[q], Run(m, steps).requests[q])
  {
    if steps != [] {
      RunKeepsRequests(m, steps[..|steps| - 1]);
      StepKeepsRequests(Run(m, steps[..|steps| - 1]), steps[|steps| - 1]);
    }
  }

  lemma {:induction false} SameKeySameFirst(before: seq<Request>, after: seq<Request>, key: Ref)
    requires |before| <= |after| && forall q | 0 <= q < |before| :: after[q].key == before[q].key
    requires First(before, WithKey(key)).Some?
    ensures First(after, WithKey(key)) == First(before, WithKey(key))
  {
    if |before| < |after| {
      SameKeySameFirst(before, after[..|after| - 1], key);
    } else if First(before[..|before| - 1], WithKey(key)).Some? {
      SameKeySameFirst(before[..|before| - 1], after[..|after| - 1], key);
    } else {
      FirstNone(before[..|before| - 1], WithKey(key));
      FirstNone(after[..|after| - 1], WithKey(key));
    }
  }

  /**
    Asking again under the same key and details, after any further run, never makes a second request; it is
    understood as a retry, even once receipts have been processed and the fees paid, exactly when the amount did not
    round up when stored.
   */
  lemma {:induction false} RegisterAgainIff(m: Mpesa, p: Prompt, eligible: bool, steps: seq<Step>, now: bool)
    requires First(m.requests, WithKey(p.key)).None? && Register(m, p, eligible).Commit?
    ensures var q := |m.requests|;
            var t := Run(Register(m, p, eligible).state, steps);
            var r := Register(t, p, now);
            q < |t.requests| &&
            (r.Commit? ==> r.value.0 == q && |r.state.requests| == |t.requests|) &&
            (r.Commit? || r.error == PaymentRequestInProgress <==> p.amount % TICK < HALF) &&
            (p.amount % TICK < HALF && t.requests[q].checkout.Some? ==> r == Commit(t, (q, false)))
  {
    ghost var items, s := Registered(m, p, eligible);
    var q := |m.requests|;
    RunKeepsRequests(s, steps);
    FirstAppend(m.requests, s.requests[q], WithKey(p.key));
    SameKeySameFirst(s.requests, Run(s, steps).requests, p.key);
    ColumnAgainstTicks(p.amount);
    AgainIff(Run(s, steps), p, q, now, items);
  }

  /** A request that has just been registered, and that its stored plan reproduces it. */
  lemma {:induction false} Registered(m: Mpesa, p: Prompt, eligible: bool) returns (items: seq<Item>, s: Mpesa)
    requires First(m.requests, WithKey(p.key)).None? && Register(m, p, eligible).Commit?
    ensures s == Register(m, p, eligible).state && s.requests == m.requests + [NewRequest(p, items)]
    ensures ForRetry(p.items, BuildPlan(items)) == Ok(items) && 0 < p.amount
  {
    var c := m.coop.(fees := AssessFees(m.coop.fees, p.member, p.period, eligible));
    var fees := Outstanding(c, p.member, p.period, None);
    RegisteredPlan(m, p, eligible);
    items, s := Normalise(p.items, fees).value, Register(m, p, eligible).state;
    OutstandingAreFees(c, p.member, p.period, None);
    RetryReproduces(p.items, fees);
  }

  lemma {:induction false} AgainIff(t: Mpesa, p: Prompt, q: nat, now: bool, items: seq<Item>)
    requires First(t.requests, WithKey(p.key)) == Some(q) && SameRequest(NewRequest(p, items), t.requests[q])
    requires ForRetry(p.items, t.requests[q].plan) == Ok(items)
    ensures var r := Register(t, p, now);
            (r.Commit? ==> r.value.0 == q && |r.state.requests| == |t.requests|) &&
            (r.Commit? || r.error == PaymentRequestInProgress <==> Column(p.amount) == Ticks(p.amount)) &&
            (Column(p.amount) == Ticks(p.amount) && t.requests[q].checkout.Some? ==> r == Commit(t, (q, false)))
  {
  }

  /** A request whose amount rounds up when it is stored is taken for another one when it is sent again. */
  lemma {:induction false} RoundedUpRequest(m: Mpesa, p: Prompt, eligible: bool, now: bool)
    requires First(m.requests, WithKey(p.key)).None? && Register(m, p, eligible).Commit? && p.amount % TICK >= HALF
    ensures Register(Register(m, p, eligible).state, p, now) == Abort(InconsistentReceipt)
  {
    ghost var items, s := Registered(m, p, eligible);
    FirstAppend(m.requests, s.requests[|m.requests|], WithKey(p.key));
    ColumnAgainstTicks(p.amount);
  }

  /** So it is with a shilling and half a tick for shares, where nothing else is on file. */
  lemma {:induction false} AskedAgainRefused(m: Mpesa, p: Prompt, item: Item)
    requires m.requests == [] && m.coop.fees == map[] && m.coop.charges == [] && m.coop.desk.office.loans == []
    requires item == Item(SharePurchase, Some(7), 1_000_050_000) && p == Prompt("k", 1, 1, 0, "", 1_000_050_000, [item])
    ensures var r := Register(m, p, false);
            r.Commit? && Register(r.state, p, false) == Abort(InconsistentReceipt)
  {
    SingleShare(m.coop, Preflight(p, [item], []), item);
    RoundedUpRequest(m, p, false, false);
  }
}
