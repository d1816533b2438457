/** Vocabulary shared by every package: identifiers, transactions and table lookups. */
module Common {

  /** A UUID chosen by the database; append-only tables use the row's index instead. */
  type Id = nat

  /** A reference chosen by a caller (a UUID in text, a gateway transaction id, ...). */
  type Ref = string

  datatype Option<+T> = None | Some(value: T)

  datatype Error =
    | AccountNotFound | AccountNotActive | AccountAlreadyExists | DuplicateReference | InsufficientBalance
    | ConstraintViolation | TransactionNotFound | CannotReverse | AdjustmentNotFound | AdjustmentNotPending
    | GuaranteeCapacity | LoanSecurityShort
    | MemberNotActive | GuarantorNotActive | InvalidLoanAmount | InvalidInterestRate | InvalidRepaymentPeriod
    | TooManyGuarantors | InvalidGuaranteedAmount | SelfGuarantee | DuplicateGuarantor | InsufficientCollateral
    | OpenApplicationExists | LoanNotFound | InvalidStatusTransition | GuarantorNotFound | InvalidGuarantorStatus
    | GatewayTransactionId | RepaymentAmountConflict | PaymentNotAllowed | RepaymentScheduleMissing
    | CreditNotFound | CreditRestricted | OperationOfAnotherCredit | RefundNotFound | SameOfficer | InvalidArgument
    | NotPending | SettledDifferently | NotApproved | OperationDiffers | AmountExceedsCredit | PayoutReferenceUsed
    | InvalidAllocation | DuplicateAllocation | MembershipFeeMismatch | InconsistentReceipt | AllocationRequired
    | AllocationTotalMismatch | InvalidReceiptAmount | ReferenceRequired | InvalidPayment
    | ReceiptNotFound | ReceiptNotProcessable | InvalidCharge | ChargeOverpayment | AllocationNotSupported
    | Infrastructure
    | PaymentRequestNotFound | PaymentRequestInProgress | PaymentAmountMismatch
    | SessionNotFound | SessionState | VarianceReason | SeparationOfDuties | DepositInvalid | SelfVerify
    | AllocationNotFound | NoPayableDividend | ChoiceAlreadyRecorded | ChoiceMissing | EvidenceInvalid
    | SettledWithOtherEvidence | VoucherUsed | AlreadyDeclared | SourcesChanged | RegisterHasErrors

  /** One ExecTx call: it commits a new state with a result, or it leaves no trace. */
  datatype Tx<+S, +T> = Commit(state: S, value: T) | Abort(error: Error) {
    predicate IsFailure() { Abort? }

    function PropagateFailure<U, V>(): Tx<U, V>
      requires Abort?
    {
      Abort(error)
    }

    function Extract(): (S, T)
      requires Commit?
    {
      (state, value)
    }

    /** The state the database is left in when the transaction started from `before`. */
    function After(before: S): S { if Commit? then state else before }

    function Result(): Outcome<T> { if Commit? then Ok(value) else Failed(error) }
  }

  /** What the caller of a service method sees. */
  datatype Outcome<+T> = Ok(value: T) | Failed(error: Error)

  /** The first row of an append-only table that satisfies p. */
  function First<T>(s: seq<T>, p: T -> bool): (r: Option<nat>)
    ensures r.Some? ==> r.value < |s| && p(s[r.value])
  {
    if s == [] then None
    else
      var n := |s| - 1;
      var r := First(s[..n], p);
      if r.Some? then r else if p(s[n]) then Some(n) else None
  }

  /** Looking up in a table that has since grown finds the same row. */
  lemma {:induction false} FirstStable<T>(s: seq<T>, t: seq<T>, p: T -> bool)
    requires s <= t && First(s, p).Some?
    ensures First(t, p) == First(s, p)
  {
    if |s| == |t| {
      assert s == t;
    } else {
      assert s <= t[..|t| - 1];
      FirstStable(s, t[..|t| - 1], p);
    }
  }

  lemma {:induction false} FirstNone<T>(s: seq<T>, p: T -> bool)
    ensures First(s, p).None? <==> forall i | 0 <= i < |s| :: !p(s[i])
  {
    if s != [] {
      FirstNone(s[..|s| - 1], p);
    }
  }

  lemma FirstAppend<T>(s: seq<T>, x: T, p: T -> bool)
    requires First(s, p).None?
    ensures First(s + [x], p) == if p(x) then Some(|s|) else None
  {
    assert (s + [x])[..|s|] == s;
  }
}
