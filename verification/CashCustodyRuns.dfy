/**
  What every run of the tills keeps: sessions only move forward, a closed session's expected amount is forever the
  sum of its receipts, each session is banked at most once, and all cash is somewhere.
 */
module CashCustodyRuns {
  import opened Common
  import opened Decimals
  import opened Allocations
  import opened Receipts
  import opened ReceiptPosting
  import opened CashCustody
  import Credits
  import opened ShareLedger
  import opened Lending
  import Sums

  // ----- Receipts are never lost, changed or failed

  /** The paper trail only grows. */
  ghost predicate Grows(t: Till, u: Till) {
    && |t.tickets| == |t.coop.receipts| && |u.tickets| == |u.coop.receipts|
    && t.tickets <= u.tickets && SamePapers(t.coop, u.coop)
  }

  lemma {:induction false} AcceptAppends(c: Coop, n: NewReceipt)
    requires |n.ids| == |n.items| && Accept(c, n).Commit?
    ensures var d := Accept(c, n).state;
            |d.receipts| == |c.receipts| + 1 && d == c.(receipts := c.receipts + [d.receipts[|c.receipts|]]) &&
            d.receipts[|c.receipts|].channel == n.channel && d.receipts[|c.receipts|].status == ReceiptPending
  {
  }

  lemma {:induction false} RepeatedReceive(t: Till, p: CashPayment, ids: nat -> Ref)
    requires First(t.tickets, Keyed(p.key)).Some? && Receive(t, p, ids).Commit?
    ensures Receive(t, p, ids).state == t
  {
  }

  lemma {:induction false} NewReceive(t: Till, p: CashPayment, ids: nat -> Ref, c: Coop, items: Outcome<seq<Item>>)
    requires First(t.tickets, Keyed(p.key)).None? && Receive(t, p, ids).Commit?
    requires c == t.coop.(fees := AssessFees(t.coop.fees, p.member, p.period, p.eligible)) &&
             items == CashItems(t.coop, p)
    ensures p.session < |t.sessions| && t.sessions[p.session].status == TillOpen && items.Ok?
    ensures var u := Receive(t, p, ids).state;
            Accept(c, ReceiptOf(p, items.value, ids)) == Commit(u.coop, Receive(t, p, ids).value) &&
            u == t.(coop := u.coop,
                    tickets := t.tickets + [Ticket(Some(p.key), Some(p.session), BuildPlan(items.value))])
  {
  }

  lemma {:induction false} ReceiveOutcomes(t: Till, p: CashPayment, ids: nat -> Ref)
    requires Receive(t, p, ids).Commit?
    ensures var u := Receive(t, p, ids).state;
            (First(t.tickets, Keyed(p.key)).Some? && u == t) ||
            (p.session < |t.sessions| && t.sessions[p.session].status == TillOpen &&
             First(t.tickets, Keyed(p.key)).None? &&
             var c := t.coop.(fees := AssessFees(t.coop.fees, p.member, p.period, p.eligible));
             var items := CashItems(t.coop, p);
             items.Ok? && Accept(c, ReceiptOf(p, items.value, ids)) == Commit(u.coop, Receive(t, p, ids).value) &&
             u == t.(coop := u.coop,
                     tickets := t.tickets + [Ticket(Some(p.key), Some(p.session), BuildPlan(items.value))]))
  {
    if First(t.tickets, Keyed(p.key)).Some? {
      RepeatedReceive(t, p, ids);
    } else {
      NewReceive(t, p, ids, t.coop.(fees := AssessFees(t.coop.fees, p.member, p.period, p.eligible)),
                 CashItems(t.coop, p));
    }
  }

  lemma {:induction false} ReceiveGrows(t: Till, p: CashPayment, ids: nat -> Ref)
    requires |t.tickets| == |t.coop.receipts| && Receive(t, p, ids).Commit?
    ensures var u := Receive(t, p, ids).state;
            Grows(t, u) && u.sessions == t.sessions && u.deposits == t.deposits && |u.tickets| <= |t.tickets| + 1 &&
            (|u.tickets| == |t.tickets| + 1 ==>
               var k := |t.tickets|;
               p.session < |t.sessions| && t.sessions[p.session].status == TillOpen &&
               u.tickets[k].session == Some(p.session) &&
               u.coop.receipts[k].channel == Cash && u.coop.receipts[k].status == ReceiptPending)
  {
    ReceiveOutcomes(t, p, ids);
    var u := Receive(t, p, ids).state;
    if u != t {
      var n := ReceiptOf(p, CashItems(t.coop, p).value, ids);
      TicketAdded(t, u, AssessFees(t.coop.fees, p.member, p.period, p.eligible), n);
    }
  }

  lemma {:induction false} TicketAdded(t: Till, u: Till, fees: map<FeeKey, int>, n: NewReceipt)
    requires |t.tickets| == |t.coop.receipts| && |n.ids| == |n.items|
    requires Accept(t.coop.(fees := fees), n) == Commit(u.coop, |t.coop.receipts|)
    requires |u.tickets| == |t.tickets| + 1 && t.tickets <= u.tickets
    ensures Grows(t, u) && u.coop.receipts[|t.tickets|].channel == n.channel &&
            u.coop.receipts[|t.tickets|].status == ReceiptPending
  {
    AcceptAppends(t.coop.(fees := fees), n);
  }

  lemma {:induction false} NextGrows(t: Till, step: Step)
    requires |t.tickets| == |t.coop.receipts|
    ensures Grows(t, Next(t, step))
  {
    match step
    case Take(payment, ids) => if Receive(t, payment, ids).Commit? { ReceiveGrows(t, payment, ids); }
    case Work(receipt, eligible, now, fault) => ProcessKeepsPapers(t.coop, receipt, eligible, now, fault);
    case _ =>
  }

  lemma {:induction false} RunGrows(t: Till, steps: seq<Step>)
    requires |t.tickets| == |t.coop.receipts|
    ensures Grows(t, Run(t, steps))
  {
    if steps != [] {
      RunGrows(t, steps[..|steps| - 1]);
      NextGrows(Run(t, steps[..|steps| - 1]), steps[|steps| - 1]);
    }
  }

  // ----- Invariants

  ghost predicate Papers(t: Till) {
    && |t.tickets| == |t.coop.receipts|
    && forall k | 0 <= k < |t.tickets| ::
         (t.tickets[k].session.Some? ==> t.tickets[k].session.value < |t.sessions|) &&
         (t.coop.receipts[k].channel == Cash ==>
          t.tickets[k].session.Some? && t.coop.receipts[k].status != ReceiptFailed)
  }

  /**
    A closed session expects exactly what its receipts add up to, and its cash went to someone other than its cashier.
   */
  ghost predicate SessionSound(t: Till, s: nat)
    requires |t.tickets| == |t.coop.receipts| && s < |t.sessions|
  {
    var x := t.sessions[s];
    && (x.status != TillOpen ==>
        x.expected == Takings(t, s) && 0 <= x.counted && (x.counted != x.expected ==> x.reason))
    && (x.holder.Some? <==> x.status in {TillHandedOver, TillDeposited})
    && x.holder != Some(x.cashier)
  }

  ghost predicate Sessions(t: Till)
    requires |t.tickets| == |t.coop.receipts|
  {
    && (forall s | 0 <= s < |t.sessions| :: SessionSound(t, s))
    && (forall r, s | 0 <= r < s < |t.sessions| && t.sessions[r].status == TillOpen &&
        t.sessions[s].status == TillOpen ::
          t.sessions[r].cashier != t.sessions[s].cashier)
  }

  /** A deposit holds banked sessions of its branch, each once, and was not verified by whoever recorded it. */
  predicate DepositSound(t: Till, d: Deposit) {
    && Distinct(d.sessions) && d.verifier != Some(d.recorder)
    && (forall s | s in d.sessions ::
        s < |t.sessions| && t.sessions[s].status == TillDeposited && t.sessions[s].branch == d.branch)
    && 0 <= d.amount - Counts(t.sessions, d.sessions) <= 1
  }

  /** No session is in both deposits. */
  predicate Apart(deposits: seq<Deposit>, d: nat, e: nat)
    requires d < |deposits| && e < |deposits|
  {
    forall s | s in deposits[d].sessions :: s !in deposits[e].sessions
  }

  /** If the session is banked, there is a deposit for it. */
  predicate HasDeposit(t: Till, s: nat)
    requires s < |t.sessions|
  {
    t.sessions[s].status == TillDeposited ==> exists d :: 0 <= d < |t.deposits| && s in t.deposits[d].sessions
  }

  /** Each banked session is in exactly one deposit. */
  predicate Deposits(t: Till) {
    && (forall d | 0 <= d < |t.deposits| :: DepositSound(t, t.deposits[d]))
    && (forall d, e | 0 <= d < e < |t.deposits| :: Apart(t.deposits, d, e))
    && (forall s | 0 <= s < |t.sessions| :: HasDeposit(t, s))
  }

  ghost predicate Sound(t: Till) { Papers(t) && Sessions(t) && Deposits(t) && Banked(t) }

  // ----- Takings

  lemma {:induction false} TakingsSame(t: Till, u: Till, s: nat, n: nat)
    requires Grows(t, u) && n <= |t.tickets|
    ensures TakingsOf(u, s, n) == TakingsOf(t, s, n)
  {
    if n != 0 {
      TakingsSame(t, u, s, n - 1);
      assert SamePaper(t.coop.receipts[n - 1], u.coop.receipts[n - 1]);
    }
  }

  /** Processing, other receipts, and cash taken at open tills: the closed sessions keep their sums. */
  lemma {:induction false} PaperKeepsSessions(t: Till, u: Till)
    requires Papers(t) && Sessions(t) && Grows(t, u) && u.sessions == t.sessions && |u.tickets| <= |t.tickets| + 1
    requires |u.tickets| == |t.tickets| + 1 ==>
               var k := |t.tickets|;
               if u.tickets[k].session.None? then u.coop.receipts[k].channel != Cash
               else
                 var s := u.tickets[k].session.value;
                 s < |t.sessions| && t.sessions[s].status == TillOpen && u.coop.receipts[k].status != ReceiptFailed
    ensures Papers(u) && Sessions(u)
  {
    forall k | 0 <= k < |t.tickets|
      ensures SamePaper(t.coop.receipts[k], u.coop.receipts[k]) && u.tickets[k] == t.tickets[k]
    {
    }
    forall s | 0 <= s < |u.sessions| ensures SessionSound(u, s) {
      assert SessionSound(t, s);
      TakingsSame(t, u, s, |t.tickets|);
    }
  }

  /** A change of one session while the receipts stay as they are. */
  lemma {:induction false} SessionChange(t: Till, u: Till, s: nat)
    requires Papers(t) && Sessions(t) && s < |t.sessions| && u.coop == t.coop && u.tickets == t.tickets
    requires |u.sessions| == |t.sessions| && u.sessions == t.sessions[s := u.sessions[s]] &&
             u.sessions[s].cashier == t.sessions[s].cashier
    requires SessionSound(u, s) && u.sessions[s].status != TillOpen
    ensures Papers(u) && Sessions(u)
  {
    TakingsSame(t, u, s, |t.tickets|);
    forall r | 0 <= r < |u.sessions| ensures SessionSound(u, r) {
      assert SessionSound(t, r);
      TakingsSame(t, u, r, |t.tickets|);
    }
  }

  lemma {:induction false} MarkedAt(sessions: seq<Session>, ids: seq<nat>, s: nat)
    requires s < |sessions|
    ensures MarkDeposited(sessions, ids)[s] == if s in ids then sessions[s].(status := TillDeposited) else sessions[s]
  {
    if ids != [] {
      MarkedAt(sessions, ids[..|ids| - 1], s);
      assert ids == ids[..|ids| - 1] + [ids[|ids| - 1]];
    }
  }

  /** Counts do not look at the status. */
  lemma {:induction false} CountsSame(a: seq<Session>, b: seq<Session>, ids: seq<nat>)
    requires forall s | s in ids :: s < |a| && s < |b| && a[s].counted == b[s].counted
    ensures Counts(a, ids) == Counts(b, ids)
  {
    Sums.OfCongruent(ids, ids, CountedIn(a), CountedIn(b));
  }

  // ----- Where the cash is

  function AtTill(x: Session): int { if x.status == TillClosed || x.status == TillHandedOver then x.counted else 0 }
  function InBank(x: Session): int { if x.status == TillDeposited then x.counted else 0 }
  function Variance(x: Session): int { if x.status == TillOpen then 0 else x.counted - x.expected }
  function CountsOf(sessions: seq<Session>): Deposit -> int { (d: Deposit) => Counts(sessions, d.sessions) }

  /** The counts of the banked sessions are the counts of the deposits. */
  predicate Banked(t: Till) { Sums.Of(t.sessions, InBank) == Sums.Of(t.deposits, CountsOf(t.sessions)) }

  function CashOf(r: Receipt): int { if r.channel == Cash then r.received else 0 }

  /** What the open tills have taken, over the first n sessions. */
  function OpenTakings(t: Till, n: nat): int
    requires |t.tickets| == |t.coop.receipts| && n <= |t.sessions|
  {
    if n == 0 then 0
    else OpenTakings(t, n - 1) + (if t.sessions[n - 1].status == TillOpen then Takings(t, n - 1) else 0)
  }

  function AllTakings(t: Till, n: nat, k: nat): int
    requires k <= |t.tickets| && k <= |t.coop.receipts|
  {
    if n == 0 then 0 else AllTakings(t, n - 1, k) + TakingsOf(t, n - 1, k)
  }

  lemma {:induction false} NoTakings(t: Till, n: nat)
    ensures AllTakings(t, n, 0) == 0
  {
    if n != 0 { NoTakings(t, n - 1); }
  }

  lemma {:induction false} OneTaking(t: Till, n: nat, k: nat)
    requires k < |t.tickets| && k < |t.coop.receipts|
    ensures AllTakings(t, n, k + 1) == AllTakings(t, n, k) +
              (if t.tickets[k].session.Some? && t.tickets[k].session.value < n then CashOf(t.coop.receipts[k]) else 0)
  {
    if n != 0 { OneTaking(t, n - 1, k); }
  }

  /** Every cash receipt belongs to exactly one session. */
  lemma {:induction false} TakingsAddUp(t: Till, k: nat)
    requires Papers(t) && k <= |t.tickets|
    ensures AllTakings(t, |t.sessions|, k) == Sums.Of(t.coop.receipts[..k], CashOf)
  {
    if k == 0 {
      NoTakings(t, |t.sessions|);
    } else {
      TakingsAddUp(t, k - 1);
      OneTaking(t, |t.sessions|, k - 1);
      assert t.coop.receipts[..k][..k - 1] == t.coop.receipts[..k - 1];
    }
  }

  lemma {:induction false} SessionsAddUp(t: Till, n: nat)
    requires Papers(t) && Sessions(t) && n <= |t.sessions|
    ensures AllTakings(t, n, |t.tickets|) ==
            OpenTakings(t, n) + Sums.Of(t.sessions[..n], AtTill) +
              Sums.Of(t.sessions[..n], InBank) - Sums.Of(t.sessions[..n], Variance)
  {
    if n != 0 {
      SessionsAddUp(t, n - 1);
      assert SessionSound(t, n - 1);
      assert t.sessions[..n][..n - 1] == t.sessions[..n - 1];
    }
  }

  /**
    Conservation: all cash ever received is in an open till, counted and on hand, or banked, up to the variances
    that were explained when the tills closed.
   */
  lemma {:induction false} CashIsSomewhere(t: Till)
    requires Sound(t)
    ensures Sums.Of(t.coop.receipts, CashOf) ==
            OpenTakings(t, |t.sessions|) + Sums.Of(t.sessions, AtTill) +
              Sums.Of(t.deposits, CountsOf(t.sessions)) - Sums.Of(t.sessions, Variance)
  {
    TakingsAddUp(t, |t.tickets|);
    SessionsAddUp(t, |t.sessions|);
    assert t.coop.receipts[..|t.tickets|] == t.coop.receipts;
    assert t.sessions[..|t.sessions|] == t.sessions;
  }

  // ----- Every step keeps it

  /** Sessions that are not banked may change, and more may open: the deposits are as they were. */
  lemma {:induction false} DepositsKept(t: Till, u: Till)
    requires Deposits(t) && Banked(t) && u.deposits == t.deposits && |t.sessions| <= |u.sessions|
    requires forall s | 0 <= s < |t.sessions| && t.sessions[s].status == TillDeposited :: u.sessions[s] == t.sessions[s]
    requires forall s | 0 <= s < |u.sessions| && u.sessions[s].status == TillDeposited ::
             s < |t.sessions| && t.sessions[s].status == TillDeposited
    ensures Deposits(u) && Banked(u)
  {
    forall d | 0 <= d < |t.deposits|
      ensures Counts(u.sessions, t.deposits[d].sessions) == Counts(t.sessions, t.deposits[d].sessions) &&
              DepositSound(u, t.deposits[d])
    {
      assert DepositSound(t, t.deposits[d]);
      CountsSame(t.sessions, u.sessions, t.deposits[d].sessions);
    }
    forall s | 0 <= s < |u.sessions| ensures HasDeposit(u, s) {
      if s < |t.sessions| { assert HasDeposit(t, s); }
    }
    Sums.OfCongruent(t.deposits, u.deposits, CountsOf(t.sessions), CountsOf(u.sessions));
    var n := |t.sessions|;
    assert u.sessions == u.sessions[..n] + u.sessions[n..];
    Sums.OfConcat(u.sessions[..n], u.sessions[n..], InBank);
    Sums.OfZero(u.sessions[n..], InBank);
    Sums.OfCongruent(t.sessions, u.sessions[..n], InBank, InBank);
  }

  lemma {:induction false} OpenKeepsSound(t: Till, branch: nat, cashier: Id)
    requires Sound(t)
    ensures Sound(OpenSession(t, branch, cashier).After(t))
  {
    var u := OpenSession(t, branch, cashier).After(t);
    if u != t {
      FirstNone(t.sessions, OpenOf(cashier));
      OpenedSession(t, u, u.sessions[|t.sessions|]);
      DepositsKept(t, u);
    }
  }

  lemma {:induction false} OpenedSession(t: Till, u: Till, x: Session)
    requires Papers(t) && Sessions(t) && u == t.(sessions := t.sessions + [x]) && x.status == TillOpen && x.holder.None?
    requires forall s | 0 <= s < |t.sessions| :: !OpenOf(x.cashier)(t.sessions[s])
    ensures Papers(u) && Sessions(u)
  {
    forall s | 0 <= s < |u.sessions| ensures SessionSound(u, s) {
      if s < |t.sessions| {
        assert SessionSound(t, s);
        TakingsSame(t, u, s, |t.tickets|);
      }
    }
  }

  lemma {:induction false} CloseKeepsSound(t: Till, s: nat, cashier: Id, counted: int, reason: bool)
    requires Sound(t)
    ensures Sound(Close(t, s, cashier, counted, reason).After(t))
  {
    var u := Close(t, s, cashier, counted, reason).After(t);
    if u != t {
      assert SessionSound(t, s);
      TakingsSame(t, u, s, |t.tickets|);
      SessionChange(t, u, s);
      DepositsKept(t, u);
    }
  }

  lemma {:induction false} HandoverKeepsSound(t: Till, s: nat, receiver: Id, branch: nat)
    requires Sound(t)
    ensures Sound(AcceptHandover(t, s, receiver, branch).After(t))
  {
    var u := AcceptHandover(t, s, receiver, branch).After(t);
    if u != t {
      assert SessionSound(t, s);
      TakingsSame(t, u, s, |t.tickets|);
      SessionChange(t, u, s);
      DepositsKept(t, u);
    }
  }

  /** Banking distinct sessions moves their counts into the bank, no more and no less. */
  lemma {:induction false} MarkingBanks(sessions: seq<Session>, ids: seq<nat>)
    requires Distinct(ids) && forall s | s in ids :: s < |sessions| && sessions[s].status != TillDeposited
    ensures Sums.Of(MarkDeposited(sessions, ids), InBank) == Sums.Of(sessions, InBank) + Counts(sessions, ids)
  {
    if ids != [] {
      var init, s := ids[..|ids| - 1], ids[|ids| - 1];
      assert ids == init + [s];
      assert forall r | r in init :: r in ids;
      assert s in ids;
      MarkingBanks(sessions, init);
      MarkedAt(sessions, init, s);
      var before := MarkDeposited(sessions, init);
      Sums.OfUpdate(before, s, before[s].(status := TillDeposited), InBank);
    }
  }

  lemma {:induction false} MarkedSessions(t: Till, u: Till, ids: seq<nat>)
    requires Papers(t) && Sessions(t) && u.coop == t.coop && u.tickets == t.tickets &&
             u.sessions == MarkDeposited(t.sessions, ids)
    requires forall s | s in ids :: s < |t.sessions| && t.sessions[s].status == TillHandedOver
    ensures Papers(u) && Sessions(u)
  {
    forall s | 0 <= s < |u.sessions|
      ensures SessionSound(u, s) && u.sessions[s] == t.sessions[s].(status := u.sessions[s].status)
                                             && (u.sessions[s].status == TillOpen ==>
                                                 t.sessions[s].status == TillOpen) {
      assert SessionSound(t, s);
      MarkedAt(t.sessions, ids, s);
      TakingsSame(t, u, s, |t.tickets|);
    }
  }

  lemma {:induction false} RecordedDeposits(t: Till, u: Till, d: Deposit)
    requires Deposits(t) && u.sessions == MarkDeposited(t.sessions, d.sessions) && u.deposits == t.deposits + [d]
    requires Distinct(d.sessions) && d.verifier.None? && 0 <= d.amount - Counts(t.sessions, d.sessions) <= 1
    requires forall s | s in d.sessions :: ReadyFor(t.sessions, d.branch, s)
    ensures Deposits(u)
  {
    forall s | 0 <= s < |t.sessions|
      ensures u.sessions[s] == if s in d.sessions then t.sessions[s].(status := TillDeposited) else t.sessions[s]
    {
      MarkedAt(t.sessions, d.sessions, s);
    }
    forall e | 0 <= e < |u.deposits| ensures DepositSound(u, u.deposits[e]) {
      if e < |t.deposits| { assert DepositSound(t, t.deposits[e]); }
      CountsSame(t.sessions, u.sessions, u.deposits[e].sessions);
    }
    forall d', e | 0 <= d' < e < |u.deposits| ensures Apart(u.deposits, d', e) {
      assert DepositSound(t, t.deposits[d']);
      if e < |t.deposits| { assert Apart(t.deposits, d', e); }
    }
    forall s | 0 <= s < |u.sessions| ensures HasDeposit(u, s) {
      assert HasDeposit(t, s);
      if s in d.sessions {
        assert u.deposits[|t.deposits|] == d;
      } else if u.sessions[s].status == TillDeposited {
        ghost var e :| 0 <= e < |t.deposits| && s in t.deposits[e].sessions;
        assert u.deposits[e] == t.deposits[e];
      }
    }
  }

  lemma {:induction false} RecordedBanks(t: Till, u: Till, d: Deposit)
    requires Banked(t) && u.sessions == MarkDeposited(t.sessions, d.sessions) && u.deposits == t.deposits + [d]
    requires Distinct(d.sessions) &&
             forall s | s in d.sessions :: s < |t.sessions| && t.sessions[s].status != TillDeposited
    ensures Banked(u)
  {
    forall s | 0 <= s < |t.sessions|
      ensures u.sessions[s].counted == t.sessions[s].counted
    {
      MarkedAt(t.sessions, d.sessions, s);
    }
    MarkingBanks(t.sessions, d.sessions);
    forall e: Deposit ensures Counts(u.sessions, e.sessions) == Counts(t.sessions, e.sessions) {
      Sums.OfCongruent(e.sessions, e.sessions, CountedIn(t.sessions), CountedIn(u.sessions));
    }
    Sums.OfAppend(t.deposits, d, CountsOf(u.sessions));
    Sums.OfCongruent(t.deposits, t.deposits, CountsOf(t.sessions), CountsOf(u.sessions));
  }

  lemma {:induction false} RecordKeepsSound(t: Till, ids: seq<nat>, amount: int, reference: Ref, branch: nat,
                                            recorder: Id)
    requires Sound(t)
    ensures Sound(RecordDeposit(t, ids, amount, reference, branch, recorder).After(t))
  {
    var u := RecordDeposit(t, ids, amount, reference, branch, recorder).After(t);
    if u != t {
      var d := Deposit(branch, Column(amount), reference, recorder, None, ids);
      ColumnAgainstTicks(amount);
      assert forall s | s in ids :: ReadyFor(t.sessions, branch, s);
      MarkedSessions(t, u, ids);
      RecordedDeposits(t, u, d);
      RecordedBanks(t, u, d);
    }
  }

  lemma {:induction false} VerifiedDeposits(t: Till, u: Till)
    requires Deposits(t) && u.sessions == t.sessions && |u.deposits| == |t.deposits|
    requires forall e | 0 <= e < |t.deposits| :: u.deposits[e] == t.deposits[e].(verifier := u.deposits[e].verifier)
    requires forall e | 0 <= e < |t.deposits| :: u.deposits[e].verifier != Some(u.deposits[e].recorder)
    ensures Deposits(u)
  {
    forall e | 0 <= e < |u.deposits| ensures DepositSound(u, u.deposits[e]) { assert DepositSound(t, t.deposits[e]); }
    forall d, e | 0 <= d < e < |u.deposits| ensures Apart(u.deposits, d, e) { assert Apart(t.deposits, d, e); }
    forall s | 0 <= s < |u.sessions| ensures HasDeposit(u, s) {
      assert HasDeposit(t, s);
      if u.sessions[s].status == TillDeposited {
        ghost var e :| 0 <= e < |t.deposits| && s in t.deposits[e].sessions;
        assert u.deposits[e].sessions == t.deposits[e].sessions;
      }
    }
  }

  lemma {:induction false} VerifyKeepsSound(t: Till, d: nat, verifier: Id, branch: nat)
    requires Sound(t)
    ensures Sound(Verify(t, d, verifier, branch).After(t))
  {
    var u := Verify(t, d, verifier, branch).After(t);
    if u != t {
      assert Deposits(u) by {
        forall e | 0 <= e < |t.deposits| ensures u.deposits[e].verifier != Some(u.deposits[e].recorder) {
          assert DepositSound(t, t.deposits[e]);
        }
        VerifiedDeposits(t, u);
      }
      Sums.OfCongruent(t.deposits, u.deposits, CountsOf(t.sessions), CountsOf(u.sessions));
      forall s | 0 <= s < |t.sessions| ensures SessionSound(u, s) {
        assert SessionSound(t, s);
        TakingsSame(t, u, s, |t.tickets|);
      }
    }
  }

  lemma {:induction false} PaperKeepsSound(t: Till, step: Step)
    requires Sound(t) && (step.Take? || step.Work? || step.Other? || step.SendBack?)
    ensures Sound(Next(t, step))
  {
    var u := Next(t, step);
    NextGrows(t, step);
    if step.Take? && Receive(t, step.payment, step.ids).Commit? { ReceiveGrows(t, step.payment, step.ids); }
    if step.Work? { ProcessKeepsPapers(t.coop, step.receipt, step.eligible, step.now, step.fault); }
    PaperKeepsSessions(t, u);
    DepositsKept(t, u);
  }

  lemma {:induction false} NextKeepsSound(t: Till, step: Step)
    requires Sound(t)
    ensures Sound(Next(t, step))
  {
    match step
    case Begin(branch, cashier) => OpenKeepsSound(t, branch, cashier);
    case Count(session, cashier, counted, reason) => CloseKeepsSound(t, session, cashier, counted, reason);
    case Hand(session, receiver, branch) => HandoverKeepsSound(t, session, receiver, branch);
    case Bank(sessions, amount, reference, branch, recorder) =>
      RecordKeepsSound(t, sessions, amount, reference, branch, recorder);
    case Confirm(deposit, verifier, branch) => VerifyKeepsSound(t, deposit, verifier, branch);
    case _ => PaperKeepsSound(t, step);
  }

  /** How far a session has come. */
  function Rank(status: SessionStatus): nat {
    match status
    case TillOpen => 0
    case TillClosed => 1
    case TillHandedOver => 2
    case TillDeposited => 3
  }

  /** A session moves forward one stage at a time, and once closed its figures are fixed. */
  predicate Forward(x: Session, y: Session) {
    && Rank(x.status) <= Rank(y.status) && y.branch == x.branch && y.cashier == x.cashier
    && (x.status != TillOpen ==> y.expected == x.expected && y.counted == x.counted && y.reason == x.reason)
    && (x.holder.Some? ==> y.holder == x.holder)
  }

  lemma {:induction false} PaperKeepsTills(t: Till, step: Step)
    requires step.Take? || step.Work? || step.Other? || step.SendBack?
    ensures Next(t, step).sessions == t.sessions
  {
    if step.Take? && Receive(t, step.payment, step.ids).Commit? {
      assert Receive(t, step.payment, step.ids).state.sessions == t.sessions;
    }
  }

  lemma {:induction false} RecordMovesForward(t: Till, ids: seq<nat>, amount: int, reference: Ref, branch: nat,
                                              recorder: Id, s: nat)
    requires s < |t.sessions|
    ensures var u := RecordDeposit(t, ids, amount, reference, branch, recorder).After(t);
            s < |u.sessions| && OneStage(t.sessions[s], u.sessions[s])
  {
    MarkedAt(t.sessions, ids, s);
    var r := RecordDeposit(t, ids, amount, reference, branch, recorder);
    assert (s in ids && r.Commit? && r.state != t) ==> ReadyFor(t.sessions, branch, s);
  }

  /** One stage further at most. */
  predicate OneStage(x: Session, y: Session) { Forward(x, y) && Rank(y.status) <= Rank(x.status) + 1 }

  lemma {:induction false} CloseMovesForward(t: Till, n: nat, cashier: Id, counted: int, reason: bool, s: nat)
    requires Sound(t) && s < |t.sessions|
    ensures var u := Close(t, n, cashier, counted, reason).After(t);
            s < |u.sessions| && OneStage(t.sessions[s], u.sessions[s])
  {
    assert SessionSound(t, s);
  }

  lemma {:induction false} OpenMovesForward(t: Till, branch: nat, cashier: Id, s: nat)
    requires s < |t.sessions|
    ensures var u := OpenSession(t, branch, cashier).After(t);
            s < |u.sessions| && OneStage(t.sessions[s], u.sessions[s])
  {
  }

  lemma {:induction false} VerifyMovesForward(t: Till, d: nat, verifier: Id, branch: nat, s: nat)
    requires s < |t.sessions|
    ensures var u := Verify(t, d, verifier, branch).After(t);
            s < |u.sessions| && OneStage(t.sessions[s], u.sessions[s])
  {
  }

  lemma {:induction false} HandoverMovesForward(t: Till, n: nat, receiver: Id, branch: nat, s: nat)
    requires Sound(t) && s < |t.sessions|
    ensures var u := AcceptHandover(t, n, receiver, branch).After(t);
            s < |u.sessions| && OneStage(t.sessions[s], u.sessions[s])
  {
    assert SessionSound(t, s);
  }

  lemma {:induction false} NextMovesForward(t: Till, step: Step, s: nat)
    requires Sound(t) && s < |t.sessions|
    ensures s < |Next(t, step).sessions| && OneStage(t.sessions[s], Next(t, step).sessions[s])
  {
    match step
    case Begin(branch, cashier) => OpenMovesForward(t, branch, cashier, s);
    case Count(session, cashier, counted, reason) => CloseMovesForward(t, session, cashier, counted, reason, s);
    case Hand(session, receiver, branch) => HandoverMovesForward(t, session, receiver, branch, s);
    case Bank(sessions, amount, reference, branch, recorder) =>
      RecordMovesForward(t, sessions, amount, reference, branch, recorder, s);
    case Confirm(deposit, verifier, branch) => VerifyMovesForward(t, deposit, verifier, branch, s);
    case _ => PaperKeepsTills(t, step);
  }

  /**
    Over any run all cash is accounted for, sessions only move forward, a closed session expects the sum of its
    receipts in every later state, and no session is banked twice.
   */
  lemma {:induction false} RunKeepsSound(t: Till, steps: seq<Step>)
    requires Sound(t)
    ensures Sound(Run(t, steps))
    ensures forall s | 0 <= s < |t.sessions| ::
            s < |Run(t, steps).sessions| && Forward(t.sessions[s], Run(t, steps).sessions[s])
  {
    if steps != [] {
      var before := Run(t, steps[..|steps| - 1]);
      RunKeepsSound(t, steps[..|steps| - 1]);
      NextKeepsSound(before, steps[|steps| - 1]);
      forall s | 0 <= s < |t.sessions|
        ensures s < |Run(t, steps).sessions| && Forward(t.sessions[s], Run(t, steps).sessions[s])
      {
        NextMovesForward(before, steps[|steps| - 1], s);
      }
    }
  }

  // ----- Rounding and retries

  /** A deposit is stored for exactly what was counted unless the part of its amount finer than a tick rounds up. */
  lemma {:induction false} DepositIsItsCountsIff(t: Till, ids: seq<nat>, amount: int, reference: Ref, branch: nat,
                                                 recorder: Id)
    requires First(t.deposits, AtBank(reference)).None? &&
             RecordDeposit(t, ids, amount, reference, branch, recorder).Commit?
    ensures var u := RecordDeposit(t, ids, amount, reference, branch, recorder).state;
            |u.deposits| == |t.deposits| + 1 && u.deposits[|t.deposits|].sessions == ids &&
            (u.deposits[|t.deposits|].amount == Counts(t.sessions, ids) <==> amount % TICK < HALF)
  {
    ColumnAgainstTicks(amount);
  }

  /** Such a deposit: 0.00005 for a till that counted nothing is stored as 0.0001, and refused when it is repeated. */
  lemma {:induction false} NothingBankedAsOneTick(c: Coop)
    ensures var t := Till(c, [], [Session(1, 5, TillHandedOver, 0, 0, false, Some(6))], []);
            var r := RecordDeposit(t, [0], HALF, "slip", 1, 6);
            r.Commit? && r.state.deposits == [Deposit(1, 1, "slip", 6, None, [0])] && Counts(t.sessions, [0]) == 0 &&
            RecordDeposit(r.state, [0], HALF, "slip", 1, 6) == Abort(DepositInvalid)
  {
    assert [0][..0] == [];
    FirstAppend([], Deposit(1, 1, "slip", 6, None, [0]), AtBank("slip"));
    assert [] + [Deposit(1, 1, "slip", 6, None, [0])] == [Deposit(1, 1, "slip", 6, None, [0])];
  }

  /**
    A till that took nothing, counted as 0.00005, is closed with a count of 0.0001, and closing it again is refused.
   */
  lemma {:induction false} HalfTickCounted(c: Coop)
    requires c.receipts == []
    ensures var t := Till(c, [], [Session(1, 5, TillOpen, 0, 0, false, None)], []);
            var r := Close(t, 0, 5, HALF, true);
            r.Commit? && r.state.sessions == [Session(1, 5, TillClosed, 0, 1, true, None)] &&
            Close(r.state, 0, 5, HALF, true) == Abort(SessionState)
  {
  }

  /**
    Closing again with the same count, after any further run, is recognised exactly when the count did not round up.
   */
  lemma {:induction false} RetryCloseIff(t: Till, s: nat, cashier: Id, counted: int, reason: bool, steps: seq<Step>)
    requires Sound(t) && s < |t.sessions| && t.sessions[s].status == TillOpen &&
             Close(t, s, cashier, counted, reason).Commit?
    ensures var u := Run(Close(t, s, cashier, counted, reason).state, steps);
            |u.tickets| == |u.coop.receipts| &&
            (Close(u, s, cashier, counted, reason) == Commit(u, ()) <==> counted % TICK < HALF)
  {
    var v := Close(t, s, cashier, counted, reason).state;
    CloseKeepsSound(t, s, cashier, counted, reason);
    RunKeepsSound(v, steps);
    ColumnAgainstTicks(counted);
    assert Forward(v.sessions[s], Run(v, steps).sessions[s]);
  }

  /** Deposits stay, but for their verification. */
  predicate SameDeposits(t: Till, u: Till) {
    |t.deposits| <= |u.deposits| &&
    forall d | 0 <= d < |t.deposits| :: u.deposits[d] == t.deposits[d].(verifier := u.deposits[d].verifier)
  }

  lemma {:induction false} NextKeepsDeposits(t: Till, step: Step)
    ensures SameDeposits(t, Next(t, step))
  {
    match step
    case Take(payment, ids) => if Receive(t, payment, ids).Commit? { ReceiveOutcomes(t, payment, ids); }
    case _ =>
  }

  lemma {:induction false} RunKeepsDeposits(t: Till, steps: seq<Step>)
    ensures SameDeposits(t, Run(t, steps))
  {
    if steps != [] {
      RunKeepsDeposits(t, steps[..|steps| - 1]);
      NextKeepsDeposits(Run(t, steps[..|steps| - 1]), steps[|steps| - 1]);
    }
  }

  lemma {:induction false} SameReferenceSameFirst(before: seq<Deposit>, after: seq<Deposit>, reference: Ref)
    requires |before| <= |after| && First(before, AtBank(reference)).Some?
    requires forall d | 0 <= d < |before| :: after[d].reference == before[d].reference
    ensures First(after, AtBank(reference)) == First(before, AtBank(reference))
  {
    if |before| < |after| {
      SameReferenceSameFirst(before, after[..|after| - 1], reference);
    } else if First(before[..|before| - 1], AtBank(reference)).Some? {
      SameReferenceSameFirst(before[..|before| - 1], after[..|after| - 1], reference);
    } else {
      FirstNone(before[..|before| - 1], AtBank(reference));
      FirstNone(after[..|after| - 1], AtBank(reference));
    }
  }

  /**
    Recording a deposit again, after any further run, returns it and changes nothing exactly when its amount did not
    round up.
   */
  lemma {:induction false} RetryDepositIff(t: Till, ids: seq<nat>, amount: int, reference: Ref, branch: nat,
                                           recorder: Id, steps: seq<Step>)
    requires First(t.deposits, AtBank(reference)).None? &&
             RecordDeposit(t, ids, amount, reference, branch, recorder).Commit?
    ensures var u := Run(RecordDeposit(t, ids, amount, reference, branch, recorder).state, steps);
            RecordDeposit(u, ids, amount, reference, branch, recorder) == Commit(u, |t.deposits|) <==>
              amount % TICK < HALF
  {
    var v := RecordDeposit(t, ids, amount, reference, branch, recorder).state;
    RunKeepsDeposits(v, steps);
    DepositStays(t, v, Run(v, steps), reference);
    DepositAgainIff(Run(v, steps), |t.deposits|, ids, amount, reference, branch, recorder);
  }

  lemma {:induction false} DepositStays(t: Till, v: Till, u: Till, reference: Ref)
    requires First(t.deposits, AtBank(reference)).None? && |v.deposits| == |t.deposits| + 1
    requires t.deposits <= v.deposits && v.deposits[|t.deposits|].reference == reference && SameDeposits(v, u)
    ensures var k := |t.deposits|;
            First(u.deposits, AtBank(reference)) == Some(k) &&
            u.deposits[k] == v.deposits[k].(verifier := u.deposits[k].verifier)
  {
    assert v.deposits == t.deposits + [v.deposits[|t.deposits|]];
    FirstAppend(t.deposits, v.deposits[|t.deposits|], AtBank(reference));
    SameReferenceSameFirst(v.deposits, u.deposits, reference);
  }

  lemma {:induction false} DepositAgainIff(u: Till, k: nat, ids: seq<nat>, amount: int, reference: Ref, branch: nat,
                                           recorder: Id)
    requires k < |u.deposits| && First(u.deposits, AtBank(reference)) == Some(k)
    requires u.deposits[k] == Deposit(branch, Column(amount), reference, recorder, u.deposits[k].verifier, ids)
    requires ids != [] && 0 < amount && reference != "" && Distinct(ids)
    ensures RecordDeposit(u, ids, amount, reference, branch, recorder) == Commit(u, k) <==> amount % TICK < HALF
  {
    ColumnAgainstTicks(amount);
  }

  /** No part of the payment rounds up when it is stored. */
  predicate OnTicks(p: CashPayment, items: seq<Item>) {
    p.received % TICK < HALF && forall i | 0 <= i < |items| :: items[i].amount % TICK < HALF
  }

  lemma {:induction false} SameAmounts(a: seq<Row>, b: seq<Row>)
    requires |a| == |b| && UniqueRows(a) && UniqueRows(b) && forall i | 0 <= i < |a| :: a[i].key == b[i].key
    ensures AmountMap(a) == AmountMap(b) <==> a == b
  {
    AmountMapOfUnique(a);
    AmountMapOfUnique(b);
    if AmountMap(a) == AmountMap(b) {
      forall i | 0 <= i < |a| ensures a[i] == b[i] {}
    }
  }

  /** The stored rows are the plan's rows exactly when no allocation rounded up. */
  lemma {:induction false} StoredRowsMatchIff(items: seq<Item>, ids: seq<Ref>)
    requires |ids| == |items| && ItemsError(items).None?
    ensures RowsMatch(items, StoredRows(RowsOf(items, ids))) <==>
            forall i | 0 <= i < |items| :: items[i].amount % TICK < HALF
  {
    var rows, plan := StoredRows(RowsOf(items, ids)), BuildPlan(items);
    NoItemsError(items);
    assert UniqueRows(rows) && UniqueRows(plan);
    SameAmounts(rows, plan);
    forall i | 0 <= i < |items|
      ensures rows[i] == plan[i] <==> items[i].amount % TICK < HALF
    {
      ColumnAgainstTicks(items[i].amount);
    }
  }

  lemma {:induction false} AcceptedCash(c: Coop, n: NewReceipt)
    requires |n.ids| == |n.items| && Accept(c, n).Commit?
    ensures ItemsError(n.items).None? && n.items != [] && 0 < n.received && Accept(c, n).value == |c.receipts| &&
            Accept(c, n).state.receipts == c.receipts +
              [Receipt(|c.receipts|, n.member, n.branch, n.period, Column(n.received), n.channel, ReceiptPending,
                       RowsOf(n.items, n.ids))]
  {
  }

  /** The payment was stored in v as a receipt over these items. */
  ghost predicate StoredCash(t: Till, v: Till, p: CashPayment, ids: nat -> Ref, items: seq<Item>) {
    && v.tickets == t.tickets + [Ticket(Some(p.key), Some(p.session), BuildPlan(items))]
    && |t.tickets| < |v.coop.receipts| && p.session < |v.sessions|
    && v.coop.receipts[|t.tickets|] ==
       Receipt(|t.tickets|, p.member, p.branch, p.period, Column(p.received), Cash, ReceiptPending,
                                               RowsOf(items, seq(|items|, ids)))
  }

  lemma {:induction false} StoredFrom(t: Till, u: Till, p: CashPayment, ids: nat -> Ref, items: seq<Item>, c: Coop)
    requires |t.tickets| == |t.coop.receipts| && c.receipts == t.coop.receipts && p.session < |t.sessions|
    requires Accept(c, ReceiptOf(p, items, ids)).Commit? && u.coop == Accept(c, ReceiptOf(p, items, ids)).state
    requires u == t.(coop := u.coop,
                     tickets := t.tickets + [Ticket(Some(p.key), Some(p.session), BuildPlan(items))])
    ensures items != [] && ItemsError(items).None? && 0 < p.received && StoredCash(t, u, p, ids, items)
    ensures Accept(c, ReceiptOf(p, items, ids)).value == |t.tickets|
  {
    AcceptedCash(c, ReceiptOf(p, items, ids));
  }

  /** A new cash receipt as it is stored. */
  lemma {:induction false} ReceivedCash(t: Till, p: CashPayment, ids: nat -> Ref)
    requires |t.tickets| == |t.coop.receipts| && First(t.tickets, Keyed(p.key)).None? && Receive(t, p, ids).Commit?
    ensures var u, items := Receive(t, p, ids).state, CashItems(t.coop, p);
            items.Ok? && items.value != [] && ItemsError(items.value).None? && 0 < p.received &&
            Receive(t, p, ids).value == |t.tickets| &&
            StoredCash(t, u, p, ids, items.value)
  {
    ReceiveOutcomes(t, p, ids);
    StoredFrom(t, Receive(t, p, ids).state, p, ids, CashItems(t.coop, p).value,
               t.coop.(fees := AssessFees(t.coop.fees, p.member, p.period, p.eligible)));
  }

  /**
    Sending a cash receipt again, even after its till was closed and banked and its fees paid, returns the original
    and changes nothing exactly when neither its amount nor any allocation rounded up when it was stored.
   */
  lemma {:induction false} RetryCashIff(t: Till, p: CashPayment, ids: nat -> Ref, steps: seq<Step>)
    requires Sound(t) && First(t.tickets, Keyed(p.key)).None? && Receive(t, p, ids).Commit?
    ensures CashItems(t.coop, p).Ok?
    ensures var u := Run(Receive(t, p, ids).state, steps);
            Receive(u, p, ids) == Commit(u, |t.tickets|) <==> OnTicks(p, CashItems(t.coop, p).value)
  {
    ReceivedCash(t, p, ids);
    var v, items := Receive(t, p, ids).state, CashItems(t.coop, p).value;
    assert Sound(v) by { PaperKeepsSound(t, Take(p, ids)); }
    CashRetried(t.coop, p);
    RetryStored(t, v, p, ids, items, steps);
  }

  lemma {:induction false} RetryStored(t: Till, v: Till, p: CashPayment, ids: nat -> Ref, items: seq<Item>,
                                       steps: seq<Step>)
    requires Sound(v) && First(t.tickets, Keyed(p.key)).None? && StoredCash(t, v, p, ids, items)
    requires ForRetry(p.items, BuildPlan(items)) == Ok(items) && ItemsError(items).None? && 0 < p.received
    ensures var u := Run(v, steps); Receive(u, p, ids) == Commit(u, |t.tickets|) <==> OnTicks(p, items)
  {
    var u := Run(v, steps);
    assert |v.sessions| <= |u.sessions| by { RunKeepsSound(v, steps); }
    RunGrows(v, steps);
    PaperStays(t, v, u, p);
    RepeatIff(u, |t.tickets|, p, items, u.coop.receipts[|t.tickets|], seq(|items|, ids));
    ReceiveAgain(u, p, ids, |t.tickets|);
  }

  /** The ticket just stored is found again once the tables have grown, and its receipt's papers are the same. */
  lemma {:induction false} PaperStays(t: Till, v: Till, u: Till, p: CashPayment)
    requires First(t.tickets, Keyed(p.key)).None? && |v.tickets| == |t.tickets| + 1 && Grows(v, u)
    requires t.tickets <= v.tickets && v.tickets[|t.tickets|].key == Some(p.key)
    ensures var k := |t.tickets|;
            First(u.tickets, Keyed(p.key)) == Some(k) && u.tickets[k] == v.tickets[k] &&
            SamePaper(v.coop.receipts[k], u.coop.receipts[k])
  {
    assert v.tickets == t.tickets + [v.tickets[|t.tickets|]];
    FirstAppend(t.tickets, v.tickets[|t.tickets|], Keyed(p.key));
    FirstStable(v.tickets, u.tickets, Keyed(p.key));
  }

  /** A cash receipt whose amount rounds up when it is stored is refused when it is sent again. */
  lemma {:induction false} RoundedUpCash(t: Till, p: CashPayment, ids: nat -> Ref)
    requires |t.tickets| == |t.coop.receipts| && First(t.tickets, Keyed(p.key)).None? && Receive(t, p, ids).Commit?
    requires p.received % TICK >= HALF
    ensures Receive(Receive(t, p, ids).state, p, ids) == Abort(InconsistentReceipt)
  {
    ReceivedCash(t, p, ids);
    var u := Receive(t, p, ids).state;
    CashRetried(t.coop, p);
    ColumnAgainstTicks(p.received);
    FirstAppend(t.tickets, u.tickets[|t.tickets|], Keyed(p.key));
    ReceiveAgain(u, p, ids, |t.tickets|);
  }

  /** Cashier 5 has an open till; member 1 has share account 7, and no receipt, fee, charge or loan is on file. */
  const OneTill: Till :=
    Till(Coop(Credits.Desk(Office(map[], Shares(map[7 := Account(1, 1, AccountActive)], map[1 := 7], [], [], map[]), [],
                                  []), map[]),
              map[], [], []),
         [], [Session(1, 5, TillOpen, 0, 0, false, None)], [])

  /** A shilling and half a tick for shares. */
  const OddShilling: Item := Item(SharePurchase, Some(7), 1_000_050_000)

  const OddCash: CashPayment := CashPayment("k", 1, 1, 0, 1_000_050_000, [OddShilling], 0, 5, true, false)

  lemma {:induction false} OddCashIsTaken(t: Till, p: CashPayment, ids: nat -> Ref)
    requires t == OneTill && p == OddCash
    ensures Receive(t, p, ids).Commit?
  {
    assert ReceiptOf(p, [OddShilling], ids).items == [OddShilling];
    SingleShare(t.coop, ReceiptOf(p, [OddShilling], ids), OddShilling);
    assert CashItems(t.coop, p) == Ok([OddShilling]);
    assert TargetsError(t.coop.desk, [OddShilling][..0], 1, 1).None?;
  }

  /** So it is with 1.00005 for shares, kept as 1.0001. */
  lemma {:induction false} RepeatedCashRefused(t: Till, p: CashPayment, ids: nat -> Ref)
    requires t == OneTill && p == OddCash
    ensures var r := Receive(t, p, ids);
            r.Commit? && Receive(r.state, p, ids) == Abort(InconsistentReceipt)
  {
    OddCashIsTaken(t, p, ids);
    RoundedUpCash(t, p, ids);
  }

  lemma {:induction false} ReceiveAgain(u: Till, p: CashPayment, ids: nat -> Ref, k: nat)
    requires p.session < |u.sessions| && First(u.tickets, Keyed(p.key)) == Some(k)
    ensures Receive(u, p, ids) == RepeatCash(u, k, p)
  {
  }

  lemma {:induction false} CashRetried(c: Coop, p: CashPayment)
    requires CashItems(c, p).Ok? && CashItems(c, p).value != []
    ensures ForRetry(p.items, BuildPlan(CashItems(c, p).value)) == CashItems(c, p)
  {
    var a := c.(fees := AssessFees(c.fees, p.member, p.period, p.eligible));
    OutstandingAreFees(a, p.member, p.period, None);
    RetryReproduces(p.items, Outstanding(a, p.member, p.period, None));
  }

  lemma {:induction false} RepeatIff(u: Till, k: nat, p: CashPayment, items: seq<Item>, r: Receipt, ids: seq<Ref>)
    requires k < |u.tickets| == |u.coop.receipts| && u.coop.receipts[k] == r && |ids| == |items|
    requires u.tickets[k] == Ticket(Some(p.key), Some(p.session), BuildPlan(items)) &&
             ForRetry(p.items, BuildPlan(items)) == Ok(items)
    requires ItemsError(items).None? && 0 < p.received
    requires r == Receipt(k, p.member, p.branch, p.period, Column(p.received), Cash, r.status, r.rows)
    requires StoredRows(r.rows) == StoredRows(RowsOf(items, ids))
    ensures RepeatCash(u, k, p) == Commit(u, k) <==> OnTicks(p, items)
  {
    StoredRowsMatchIff(items, ids);
    ColumnAgainstTicks(p.received);
  }

  // ----- What each operation accepts and writes down

  /** A cashier has one open session: the one there is, or a new and empty one in the branch. */
  lemma {:induction false} OpenIff(t: Till, branch: nat, cashier: Id)
    ensures var p := OpenSession(t, branch, cashier);
            p.Commit? && p.value < |p.state.sessions| && p.state == t.(sessions := p.state.sessions) &&
            p.state.sessions[p.value].cashier == cashier && p.state.sessions[p.value].status == TillOpen &&
            if exists s | 0 <= s < |t.sessions| :: OpenOf(cashier)(t.sessions[s]) then p.state == t
            else p.value == |t.sessions| &&
                 p.state.sessions == t.sessions + [Session(branch, cashier, TillOpen, 0, 0, false, None)]
  {
    FirstNone(t.sessions, OpenOf(cashier));
  }

  /** Money for shares goes to an active account of the member, money for a loan to a running loan of the member. */
  predicate TargetFits(d: Credits.Desk, item: Item, member: Id, branch: nat) {
    && (item.kind == SharePurchase ==>
          && item.target.Some? && item.target.value in d.office.shares.accounts
          && d.office.shares.accounts[item.target.value] == Account(member, branch, AccountActive))
    && (item.kind == LoanPrincipal ==>
          && item.target.Some? && item.target.value < |d.office.loans|
          && d.office.loans[item.target.value].member == member && d.office.loans[item.target.value].branch == branch
          && d.office.loans[item.target.value].status in
             {LoanAccount.LoanDisbursed, LoanAccount.LoanActive, LoanAccount.LoanDelinquent})
  }

  lemma {:induction false} TargetsErrorIff(d: Credits.Desk, items: seq<Item>, member: Id, branch: nat)
    ensures TargetsError(d, items, member, branch).None? <==>
            forall i | 0 <= i < |items| :: TargetFits(d, items[i], member, branch)
  {
    if items != [] {
      var init, item := items[..|items| - 1], items[|items| - 1];
      TargetsErrorIff(d, init, member, branch);
      assert items == init + [item];
      assert TargetError(d, item, member, branch).None? <==> TargetFits(d, item, member, branch);
    }
  }

  /** The checks on the allocations of a cash payment, once the month's fees have been added to them. */
  predicate CashFits(c: Coop, n: NewReceipt)
    requires |n.ids| == |n.items|
  {
    && InOrder(n) && HALF <= n.received && (forall i | 0 <= i < |n.items| :: HALF <= n.items[i].amount)
    && ChargedOnce(n.items) && (forall i | 0 <= i < |n.items| :: ChargeFits(c, n.member, n.branch, n.items[i], None))
    && (forall l | 0 <= l < |c.desk.office.loans| ::
          !Underpaid(c.desk.office.loans[l], l, n.member, n.branch, n.period, n.items))
    && forall i | 0 <= i < |n.items| :: TargetFits(c.desk, n.items[i], n.member, n.branch)
  }

  lemma {:induction false} CashFitsIff(c: Coop, n: NewReceipt)
    requires |n.ids| == |n.items|
    ensures CashFits(c, n) <==>
            Accept(c, n).Commit? && ChargeError(c, n.member, n.branch, n.items, None).None? &&
            MinimumsError(c.desk, n.member, n.branch, n.period, n.items).None? &&
            TargetsError(c.desk, n.items, n.member, n.branch).None?
  {
    AcceptIff(c, n);
    ChargeErrorIff(c, n.member, n.branch, n.items, None);
    TargetsErrorIff(c.desk, n.items, n.member, n.branch);
  }

  /** The open till of the cashier who takes the money, and an active member who brings it. */
  predicate AtTheTill(t: Till, p: CashPayment) {
    && p.session < |t.sessions| && t.sessions[p.session].status == TillOpen
    && t.sessions[p.session].cashier == p.cashier && t.sessions[p.session].branch == p.branch && p.active
  }

  lemma {:induction false} NotAtTheTill(t: Till, p: CashPayment, ids: nat -> Ref)
    requires First(t.tickets, Keyed(p.key)).None? && (!AtTheTill(t, p) || CashItems(t.coop, p).Failed?)
    ensures Receive(t, p, ids).Abort?
  {
  }

  lemma {:induction false} ReceiveChecks(t: Till, p: CashPayment, ids: nat -> Ref, c: Coop, items: seq<Item>)
    requires First(t.tickets, Keyed(p.key)).None? && AtTheTill(t, p) && CashItems(t.coop, p) == Ok(items)
    requires c == t.coop.(fees := AssessFees(t.coop.fees, p.member, p.period, p.eligible))
    ensures Receive(t, p, ids).Commit? <==>
            Accept(c, ReceiptOf(p, items, ids)).Commit? && ChargeError(c, p.member, p.branch, items, None).None? &&
            MinimumsError(c.desk, p.member, p.branch, p.period, items).None? &&
            TargetsError(c.desk, items, p.member, p.branch).None?
  {
  }

  /**
    Under a new key cash is taken exactly from an active member at the cashier's own open till in the branch, with
    allocations that pass every check; the payment is then on file under its key and its till.
   */
  lemma {:induction false} ReceiveIff(t: Till, p: CashPayment, ids: nat -> Ref)
    requires |t.tickets| == |t.coop.receipts| && First(t.tickets, Keyed(p.key)).None?
    ensures var items := CashItems(t.coop, p);
            var c := t.coop.(fees := AssessFees(t.coop.fees, p.member, p.period, p.eligible));
            Receive(t, p, ids).Commit? <==>
            AtTheTill(t, p) && items.Ok? && CashFits(c, ReceiptOf(p, items.value, ids))
    ensures var r, items := Receive(t, p, ids), CashItems(t.coop, p);
            r.Commit? ==>
              items.Ok? && r.value == |t.tickets| && StoredCash(t, r.state, p, ids, items.value) &&
              r.state.sessions == t.sessions && r.state.deposits == t.deposits && r.state.coop.desk == t.coop.desk
  {
    var items := CashItems(t.coop, p);
    if AtTheTill(t, p) && items.Ok? {
      var c := t.coop.(fees := AssessFees(t.coop.fees, p.member, p.period, p.eligible));
      ReceiveChecks(t, p, ids, c, items.value);
      CashFitsIff(c, ReceiptOf(p, items.value, ids));
    } else {
      NotAtTheTill(t, p, ids);
    }
    if Receive(t, p, ids).Commit? {
      ReceivedCash(t, p, ids);
      ReceiveOutcomes(t, p, ids);
    }
  }

  /**
    An open till is closed exactly by its own cashier, with a count that matches its takings or a reason; what it took
    and what was counted are written down.
   */
  lemma {:induction false} CloseIff(t: Till, s: nat, cashier: Id, counted: int, reason: bool)
    requires |t.tickets| == |t.coop.receipts| && s < |t.sessions| && t.sessions[s].status == TillOpen
    ensures var p, takings := Close(t, s, cashier, counted, reason), Takings(t, s);
            (p.Commit? <==>
               t.sessions[s].cashier == cashier && 0 <= counted && 0 <= takings &&
               (reason || (Ticks(counted) == takings && counted % TICK < HALF))) &&
            (p.Commit? ==>
               p.state == t.(sessions :=
                             t.sessions[s := t.sessions[s].(status := TillClosed, expected := takings,
                                                            counted := Column(counted), reason := reason)]))
  {
    if 0 <= counted { ColumnAgainstTicks(counted); }
  }

  /** A closed till is handed over exactly to somebody else than its cashier, in the branch, who then holds the cash. */
  lemma {:induction false} HandoverIff(t: Till, s: nat, receiver: Id, branch: nat)
    ensures var p := AcceptHandover(t, s, receiver, branch);
            (p.Commit? <==>
               s < |t.sessions| && t.sessions[s].branch == branch && t.sessions[s].cashier != receiver &&
               t.sessions[s].status != TillOpen) &&
            (p.Commit? ==>
               p.state == if t.sessions[s].status == TillClosed
                          then t.(sessions := t.sessions[s := t.sessions[s].(status := TillHandedOver,
                                                                             holder := Some(receiver))])
                          else t)
  {
  }

  /** A session of a deposit is banked and no other is changed. */
  predicate BankedNow(before: seq<Session>, after: seq<Session>, ids: seq<nat>) {
    |after| == |before| &&
    forall s | 0 <= s < |before| ::
      after[s] == if s in ids then before[s].(status := TillDeposited) else before[s]
  }

  /**
    Under a new reference a deposit is recorded exactly for different sessions that were handed over in the branch and
    whose counts are its amount; it is written down with its recorder and nobody yet to verify it.
   */
  lemma {:induction false} DepositIff(t: Till, ids: seq<nat>, amount: int, reference: Ref, branch: nat, recorder: Id)
    requires First(t.deposits, AtBank(reference)).None?
    ensures var p := RecordDeposit(t, ids, amount, reference, branch, recorder);
            (p.Commit? <==>
               ids != [] && reference != "" && Distinct(ids) && HALF <= amount &&
               Counts(t.sessions, ids) == Ticks(amount) &&
               forall i | 0 <= i < |ids| ::
                 ids[i] < |t.sessions| && t.sessions[ids[i]].branch == branch &&
                 t.sessions[ids[i]].status == TillHandedOver) &&
            (p.Commit? ==>
               p.value == |t.deposits| && BankedNow(t.sessions, p.state.sessions, ids) &&
               p.state == t.(sessions := p.state.sessions,
                             deposits := t.deposits +
                                         [Deposit(branch, Column(amount), reference, recorder, None, ids)]))
  {
    if 0 <= amount { ColumnAgainstTicks(amount); }
    if forall s | s in ids :: s < |t.sessions| && ReadyFor(t.sessions, branch, s) {
      forall i | 0 <= i < |ids| ensures ids[i] < |t.sessions| && t.sessions[ids[i]].branch == branch &&
                 t.sessions[ids[i]].status == TillHandedOver { assert ids[i] in ids; }
    }
    forall s | 0 <= s < |t.sessions|
      ensures MarkDeposited(t.sessions, ids)[s] ==
              if s in ids then t.sessions[s].(status := TillDeposited) else t.sessions[s]
    {
      MarkedAt(t.sessions, ids, s);
    }
  }

  /**
    A deposit is verified exactly in its branch and by somebody else than its recorder, unless it already is; who
    verified it first is written down and stays.
   */
  lemma {:induction false} VerifyIff(t: Till, d: nat, verifier: Id, branch: nat)
    ensures var p := Verify(t, d, verifier, branch);
            (p.Commit? <==>
               d < |t.deposits| && t.deposits[d].branch == branch &&
               (t.deposits[d].verifier.Some? || t.deposits[d].recorder != verifier)) &&
            (p.Commit? ==>
               |p.state.deposits| == |t.deposits| &&
               p.state.deposits[d].verifier ==
                 (if t.deposits[d].verifier.Some? then t.deposits[d].verifier else Some(verifier)) &&
               p.state == t.(deposits :=
                             t.deposits[d := t.deposits[d].(verifier := p.state.deposits[d].verifier)]))
  {
  }
}
