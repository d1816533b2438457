# Money core of a savings-and-credit co-operative

This project models the transactions that move money in the co-operative's backend - share accounts, loans and
their share security, credits, contribution receipts, M-Pesa requests, cash tills and dividends - and proves what
every run of them keeps. Each service transaction is one atomic step that commits a new state or leaves no trace.

Every operation appears twice. A function on plain values (`Post`, `RecordRepayment`, `Process`, `Settle`, ...) is
the transaction: its branches, errors and constants in the order the service has them, with the SQL it calls. A class
over mutable tables (`ShareBook`, `LoanOffice`, `CreditDesk`, `ReceiptDesk`, `PaymentDesk`, `CashDesk`,
`DividendDesk`) carries out the service's own steps and loops in place, and each method is proved to do exactly what
the function says. The lemmas are about the functions, and about runs of them.

| module | what it holds |
|---|---|
| `Common`, `Sums`, `Decimals` | transactions and lookups, sums over tables, exact decimals |
| `ShareLedger`, `LoanSecurity` | the share ledger, pledges |
| `Repayment`, `LoanAccount` | the repayment waterfall and schedule, one loan's account over whole runs |
| `Lending`, `LoanService` | loans, guarantors and collateral safety |
| `Credits` | overpayment credits |
| `Allocations`, `Receipts`, `ReceiptPosting`, `ReceiptFaults`, `Obligations`, `MonthlyFees`, `ReceiptService` | receipts, their posting, failures of the database in it, fees and charges |
| `Daraja`, `DarajaSteps`, `DarajaRuns`, `DarajaService` | M-Pesa requests and callbacks |
| `CashCustody`, `CashCustodyRuns`, `CashService` | cashier sessions and bank deposits |
| `Dividends` | declarations, choices, settlements |
| `Cooperative`, `CooperativeLedger`, `CooperativeRecords` | all of it as one state machine: the global invariant, conservation, retries anywhere in a run, the ledgers and the records over whole runs |

## Main results

- **Collateral safety** (`Cooperative.PerformKeepsSafe`, `RunKeepsInvariant`): in every reachable state approved and
  running loans are covered by active pledges, and no account has more pledged over all loans than its balance.
- **Conservation** (`Cooperative.RunConservesIff`, `RunConserves`): money in equals shares, loans settled, credit,
  refunds, fees and charges all along a run, exactly when no command of it is one of two that lose track.
- **Receipts** (`ReceiptPosting.ProcessKeepsAllOrNothing`, `CooperativeLedger.PostedOnceForAll`,
  `ReceiptFaults.FaultLeavesNoTrace`): posted wholly and exactly once, or not at all; a database failure is never taken
  for a rejection.
- **Share ledger** (`CooperativeLedger.RunKeepsRunningIff`, `RunKeepsJournals`): when balances are the sums of their
  entries, and that nothing is reversed twice, over every run.
- **Loans** (`LoanAccount.RunFromDisbursement`): interest history never rewritten, closed exactly when nothing is owed.
- **M-Pesa** (`DarajaRuns.RunSendsOnePrompt`, `CallbackConfluence`): one live prompt per key; callbacks in any order agree.
- **Records** (`CooperativeRecords.RunKeepsOwned`, `RefundsAreApproved`, `RunKeepsInStep`): credits belong to whoever
  overpaid, every refund paid was approved by another officer, every approved correction is in the ledger.
- **Acceptance** (`Lending.ApproveLoanIff`, `DisburseLoanIff`, `Credits.ApproveRefundIff`, `ShareLedger.ApproveAdjustmentIff`,
  `Receipts.AcceptIff`, `DarajaSteps.RegisterIff`, `CashCustodyRuns.DepositIff`, `Dividends.DeclareIff`, ...): each
  operation succeeds exactly when conditions read off the tables hold, and leaves exactly the rows it is for.
- **Custody** (`CashCustodyRuns.CashIsSomewhere`, `Dividends.RunKeepsSound`): cash and dividends are accounted for.

## Where a property does not hold as promised

The services compare amounts truncated to four decimals; the NUMERIC(19,4) columns round them. Callers send nine
decimals, so the two can differ. Each case below has its exact condition, both directions, and a concrete input:

- a withdrawal that discards exactly half a tick breaks "balance is the sum of entries" (`RunKeepsRunningIff`,
  `HalfTickWithdrawal`);
- a repeated request is taken for a different one when its amount does not fit the column (`RetryPostIff`,
  `RetryRepaymentIff`, `RetryCashIff`, `RetryCloseIff`, `RetryDepositIff`, `RegisterAgainIff`, `RedeliveryIff`; inputs
  in `RepeatedPurchaseRefused`, `HalfTickLost`, `RepeatedCashRefused`, `HalfTickCounted`, `NothingBankedAsOneTick`,
  `AskedAgainRefused`, `SecondDeliveryRefused`);
- the parts of a repayment, the rows of a receipt or the counts behind a deposit may miss the stored total by a tick
  (`SplitIsWholePaymentIff`, `AcceptedIsBalancedIff`, `DepositIsItsCountsIff`; `HalfTickLost`, `UnbalancedReceipt`,
  `NothingBankedAsOneTick`), and a receipt whose rows do is collected for what they add up to (`ProcessCollectsIff`);
- parts below a tick are accepted before an M-Pesa prompt and refused once it is paid (`PreflightSufficesIff`,
  `PreflightIsNotEnough`), and can vanish when merged (`NormaliseIdempotentIff`, `MergedToNothing`).

Others are about order and references:

- a rejection of a prompt that is saved after staff completed the request marks it failed (`RunStaysCompletedIff`,
  `RejectedAfterCompletion`);
- a receipt on file under an M-Pesa reference without a checkout lets that reference pay two requests
  (`RunKeepsSingleIff`, `OneReferenceTwoCheckouts`), and an answer that arrives after payment can move a request to
  another checkout (`RunKeepsLinkedIff`, `AcceptedAfterCompletion`);
- a direct purchase, repayment or credit operation under the id of a pending receipt's allocation takes its place, and
  the receipt completes without a posting of its own (`PostingsKeepAllOrNothingIff`, `PurchaseInAnAllocationsSlot`);
- a reversal that reuses another reversal's reference reports that one (`ReverseReportsTruthIff`,
  `ReusedReversalReference`);
- a credit transfer whose operation id is already a purchase reference spends the credit and buys nothing
  (`ManageCreditConservesIff`, `CreditSpentForNothing`); an approval repeated after the payout is refused
  (`RetryApprovalIff`, `ApprovalAfterPayout`);
- a month whose fees were paid owes them again once the member is found to have become active during it
  (`RunKeepsMonthPaidIff`, `ActiveLaterInTheMonth`);
- an instalment due on the 29th to 31st can fall into the following month (`DueInItsMonthIff`,
  `TwoInstalmentsInMarch`), although the design documents want the last due date to match the repayment period;
- the design documents let frozen accounts be corrected; the code refuses adjustments and reversals on any account
  that is not active, and the model follows the code.

## Assumptions

- PostgreSQL rounds numeric ties away from zero when a value is stored in a NUMERIC(19,4) column.
- Ids that the database generates are new.
- Runs that keep receipts all-or-nothing are those in which no posting takes the place of an allocation still to be
  posted (`Cooperative.Honest`), which is exactly when they do.
- `created_at` orders an account's ledger as the entries were appended.
- Amounts are integers: ticks of 0.0001 in tables, nanos (nine decimals) in requests. Months are naturals.

## Model

| member | source | states |
|---|---|---|
| `Decimals.ColumnAgainstTicks` | internal/contribution/service.go:703-726 | Truncating an amount to four decimals, as the services compare it, and rounding it, as the NUMERIC(19,4) column stores it, agree exactly when less than half a tick is discarded. |
| `Decimals.ColumnOfDifference` | internal/share/service.go:182-203 | Rounding a balance after a withdrawal is subtracting the rounded amount, except when exactly half a tick is discarded. |
| `Decimals.PowerOfTen` | internal/loan/service.go:1168-1175 | The loop computes the power of ten. |
| `Decimals.DecimalStringFromScale` | internal/loan/service.go:1138-1166 | The padding and trimming loops produce the decimal text of the integer at its scale. |
| `Decimals.TextDenotes` | internal/loan/service.go:1111-1166 | Round trip: reading the text written for any integer at any scale gives the same number, and rescaling it gives back the integer. |
| `Decimals.CanonicalText` | internal/loan/service.go:1138-1166 | Two integers with scales are written alike if and only if they denote the same number. |
| `ShareLedger.RunningIsFold` | internal/ceepdb/dividends.sql:30-32 | On every account the latest balance_after is the sum of the signed entries. |
| `ShareLedger.PostKeepsBacked` | internal/share/service.go:125-213 | Purchases, withdrawals and dividends of any amount never leave a balance below the account's active pledges. |
| `ShareLedger.ApproveAdjustmentKeepsBacked` | internal/share/service.go:317-404 | An approved adjustment never leaves a balance below the active pledges. |
| `ShareLedger.ReverseKeepsBacked` | internal/share/service.go:406-476 | A reversal never leaves a balance below the active pledges. |
| `ShareLedger.AcceptsIff` | internal/share/service.go:149-213 | Under a fresh reference a posting succeeds if and only if account, owner, status, pledges and the table's checks allow it, and then appends exactly its entry. |
| `ShareLedger.PostKeepsRunningIff` | internal/share/service.go:182-213 | A posting, accepted or not, keeps balance equal to the signed sum if and only if it is not a withdrawal under a fresh reference that will be accepted and discards exactly half a tick. |
| `ShareLedger.HalfTickWithdrawal` | internal/share/service.go:182-213 | A concrete withdrawal of half a tick after which balance and signed sum differ. |
| `ShareLedger.ApproveAdjustmentKeepsRunning` | internal/share/service.go:351-395 | Adjustments keep the running balance exact. |
| `ShareLedger.ReverseKeepsRunning` | internal/share/service.go:440-476 | Reversals keep the running balance exact. |
| `ShareLedger.ReversalCancels` | internal/share/service.go:440-476 | A new reversal changes the signed sum of its account by exactly minus the effect of the entry, and no other account's. |
| `ShareLedger.PostKeepsJournal` | internal/share/transactions.sql:39-43 | A posting keeps references unique and nothing reversed twice. |
| `ShareLedger.ReverseKeepsJournal` | internal/share/service.go:406-476 | So does a reversal: the earlier reversal is returned instead of a second one. |
| `ShareLedger.ApproveAdjustmentKeepsJournal` | internal/share/service.go:365-384 | So does an adjustment. |
| `ShareLedger.ReverseReportsTruthIff` | internal/share/service.go:423-476 | The entry that a reversal returns reverses the entry asked for if and only if the reference was not already used by another reversal on the account. |
| `ShareLedger.ReusedReversalReference` | internal/share/service.go:423-476 | A concrete reused reference for which another entry's reversal is returned and nothing is reversed. |
| `ShareLedger.OpenAccountIff` | internal/share/service.go:29-70 | A member opens one account, active and its own, if and only if it has none; every other account stays as it is. |
| `ShareLedger.CreateAdjustmentIff` | internal/share/service.go:267-312 | Under a new reference a correction is requested if and only if the account is active and the amount is not zero; it is stored pending, rounded, and the ledger stays as it is. |
| `ShareLedger.ApproveAdjustmentIff` | internal/share/service.go:317-404 | A pending correction under a fresh reference is approved if and only if the account is active and the corrected balance covers its pledges; it then appends exactly one entry of its amount and reference, and the signed sum of its account alone changes, by that amount. |
| `ShareLedger.ApproveAdjustmentOnce` | internal/share/service.go:334-340 | An approved correction is found again and posts nothing; a rejected one stays rejected. |
| `ShareLedger.ReverseIff` | internal/share/service.go:406-476 | An unreversed entry is reversed under a fresh reference if and only if it is no reversal itself, its account is active and the balance without it covers the pledges; the new entry is its opposite. |
| `ShareLedger.RetryPostIff` | internal/share/service.go:149-174 | Repeating a posting on any ledger that has since grown returns the original and changes nothing if and only if the amount fits the column. |
| `ShareLedger.RepeatedPurchaseRefused` | internal/share/service.go:149-174 | A purchase of 0.00015 is stored as 0.0002 and refused when it is repeated. |
| `ShareLedger.PostedAmount` | internal/share/service.go:149-213 | An accepted posting is found by its reference and stores the rounded amount. |
| `ShareLedger.ShareBook.PostTransaction` | internal/share/service.go:125-240 | The service's steps over its tables are the posting transaction: lock, retry check, status check, pledge check, append. |
| `ShareLedger.ShareBook.ApproveShareAdjustment` | internal/share/service.go:317-404 | The steps post the correction and mark it approved together, or do nothing. |
| `ShareLedger.ShareBook.ReverseShareTransaction` | internal/share/service.go:406-493 | The steps append the opposite entry, or return the earlier reversal, or do nothing. |
| `ShareLedger.ShareBook.InsertEntry` | internal/share/transactions.sql:39-43 | The insert that does nothing on a conflicting reference, with the table's checks. |
| `LoanSecurity.GuaranteeAvailableIsLargest` | internal/share/loan_security.go:40-46 | The available guarantee is the largest amount the pledge column can hold that the unpledged shares cover. |
| `LoanSecurity.ProposeKeepsBacked` | internal/share/loan_security.go:69-122 | Proposing security activates nothing, so accounts stay backed. |
| `LoanSecurity.ApproveGuaranteeKeepsBacked` | internal/share/loan_security.go:125-140 | Activating a guarantor's pledge keeps every account's active pledges within its balance. |
| `LoanSecurity.VerifyApplicantKeepsBacked` | internal/share/loan_security.go:142-177 | Activating or checking the applicant's pledge keeps every account backed. |
| `LoanSecurity.ReleaseFrees` | internal/share/pledges.sql:60-68 | Releasing keeps every account backed and leaves the security of every other loan alone. |
| `LoanSecurity.ReleaseAll` | internal/share/loan_security.go:244-249 | Releasing a loan for everybody leaves it no active pledge at all. |
| `LoanSecurity.PledgesAddUp` | internal/share/loan_security.go:199-242 | The approved amounts of verified guarantors, with the applicant's own pledge, are within the loan's active pledges: no pledge is counted twice. |
| `LoanSecurity.VerifiedIsPledged` | internal/share/loan_security.go:142-242 | What verification counts as coverage is backed by active pledges on the loan. |
| `LoanSecurity.ProposeIff` | internal/share/loan_security.go:69-122 | Security is proposed if and only if applicant and guarantors are in standing, three times the applicant's shares reach the principal and every pledge fits the unpledged shares; the applicant's pledge is then on file and pending. |
| `LoanSecurity.ApproveGuaranteeIff` | internal/share/loan_security.go:125-140 | A guarantee is pledged if and only if the guarantor's unpledged shares cover it; that pledge becomes active and no other changes. |
| `LoanSecurity.VerifyApplicantIff` | internal/share/loan_security.go:142-177 | The applicant's security holds if and only if the account is active, three times its balance covers the principal, and its own pledge, when pending, fits the unpledged shares and approval activates it. |
| `LoanSecurity.GuaranteesErrorIff` | internal/share/loan_security.go:179-242 | Guarantors' security holds if and only if each has an active account, enough shares for its pledges and an active pledge of at least the amount. |
| `LoanSecurity.CheckGuarantor` | internal/share/loan_security.go:50-67 | The guarantor check against account, balance and pledges. |
| `LoanSecurity.ProposeApplicantSecurity` | internal/share/loan_security.go:69-122 | The loop over proposals and the pledge rows it inserts. |
| `LoanSecurity.ApproveGuarantorSecurity` | internal/share/loan_security.go:125-140 | The guarantor's pledge is created active, or the reason why not. |
| `LoanSecurity.VerifyApplicantSecurity` | internal/share/loan_security.go:142-177 | The applicant's pledge is activated or checked, and its amount returned. |
| `LoanSecurity.VerifyGuarantorSecurities` | internal/share/loan_security.go:199-242 | The loop over guarantors reports the first whose pledge or account does not hold. |
| `LoanSecurity.ReleaseLoanSecurity` | internal/share/pledges.sql:60-68 | Afterwards no pledge of the loan, or of the member on it, is pending or active; settled ones stay as they were and no other pledge has changed. |
| `Repayment.AllocateIsTheOrderedSplit` | internal/loan/service.go:922-947 | The computed split is the one and only split of the payment in the order penalty, interest, principal, credit. |
| `Repayment.ClosesWhenNothingRemains` | internal/loan/service.go:761-825 | The loan closes exactly when the payment reaches everything due, and the credit is exactly the excess. |
| `Repayment.TwoPaymentsSettleAsOne` | internal/loan/service.go:761-825 | Two payments against the same dues settle exactly what one payment of their sum settles. |
| `Repayment.BuildSchedule` | internal/loan/service.go:564-605 | The instalment loop builds the schedule, remainder on the last one. |
| `Repayment.ScheduleSumsToPrincipal` | internal/loan/service.go:564-605 | Instalments add up to the principal, and are all positive if and only if the principal is at least a tick a month. |
| `Repayment.UpdateScheduleStatuses` | internal/loan/service.go:949-990 | The loop that skips unchanged rows computes the statuses of the cumulative principal. |
| `Repayment.AdvanceAt` | internal/loan/service.go:949-990 | Each instalment's status depends only on the cumulative principal: a paid prefix, at most one partial, the rest untouched. |
| `Repayment.AdvanceTwice` | internal/loan/service.go:949-990 | Path independence: updating after each repayment ends where one update from the total ends. |
| `Repayment.AllPaidIff` | internal/loan/service.go:806-825 | Every instalment is paid if and only if the whole total has been applied. |
| `Repayment.DueInItsMonthIff` | internal/loan/service.go:587-588 | An instalment falls in its own month if and only if that month has the day of disbursement. |
| `Repayment.TwoInstalmentsInMarch` | internal/loan/service.go:587-588 | A loan disbursed on 31 January has two instalments due in March. |
| `LoanAccount.DisburseKeepsSound` | internal/loan/service.go:557-613 | Disbursement creates a sound account: schedule, first month's interest, no debt settled. |
| `LoanAccount.RepayKeepsInterest` | internal/loan/service.go:724-751 | The assessed months stay the interval from disbursement to the latest repayment, each once, charged on what strictly earlier repayments leave in the final history. |
| `LoanAccount.RepaySplit` | internal/loan/service.go:761-825 | A recorded repayment is the ordered split over what is due after catch-up; closed and settled coincide; credit implies closure. |
| `LoanAccount.RepayKeepsSchedule` | internal/loan/service.go:806-810 | The stored statuses stay those of one computation from the total applied. |
| `LoanAccount.RepayKeepsSound` | internal/loan/service.go:652-825 | Every repayment, retry or refusal keeps interest history, splits, schedule and closure consistent. |
| `LoanAccount.PenaliseKeepsSound` | internal/loan/service.go:761-771 | A new penalty on a running loan keeps the account consistent. |
| `LoanAccount.RunKeepsSound` | internal/loan/service.go:652-825 | Any run of repayments and penalties keeps the account consistent. |
| `LoanAccount.SettledIsPaid` | internal/loan/service.go:806-825 | Every instalment is paid exactly when the applied principal is the whole principal. |
| `LoanAccount.RunFromDisbursement` | internal/loan/service.go:506-825 | From disbursement on: never more principal applied than lent, closed exactly when nothing is owed, a closed loan has every instalment paid. |
| `LoanAccount.RetryRepaymentIff` | internal/loan/service.go:692-710 | A repeated repayment returns the original after any run, even on a closed loan, if and only if its amount fits the column. |
| `LoanAccount.SplitIsWholePaymentIff` | internal/loan/service.go:761-805 | The parts of a repayment add up to the stored amount if and only if less than half a tick was discarded. |
| `LoanAccount.HalfTickLost` | internal/loan/service.go:692-825 | A repayment of 0.00015 is split as 0.0001, stored as 0.0002, and refused when it is repeated. |
| `LoanAccount.BreakdownsResum` | internal/loan/interest.sql:38-45 | Summing the texts that the splits are stored as gives the totals of the splits, bucket by bucket. |
| `LoanAccount.QuoteInstalment` | internal/loan/contribution_position.sql:56-67 | The sum over a loan's instalments of what is still due in the month, rounded up to whole cents. |
| `LoanAccount.NothingDueIff` | internal/loan/contribution_position.sql:56-67 | Nothing is due for a month if and only if every instalment of the month is paid. |
| `LoanAccount.InstalmentDueIff` | internal/loan/contribution_position.sql:56-67 | A month asks for the fewest whole cents that cover what its instalments, taken together, still need once the principal applied so far has paid the instalments in their order. |
| `LoanAccount.InterestIsRounded` | internal/loan/interest.sql:5-20 | A month's interest is the product of opening balance and rate to the nearest tick, halves up. |
| `LoanAccount.RepaymentExcess` | internal/loan/service.go:761-805 | What a repayment leaves as credit is exactly what exceeds penalties, interest and principal due. |
| `LoanAccount.PenaltyIsOwed` | internal/loan/service.go:761-771 | A penalty adds exactly its amount to the penalty a running loan owes. |
| `Lending.ApplyKeepsSafe` | internal/loan/service.go:43-138 | Applying keeps collateral safety. |
| `Lending.AddGuarantorKeepsSafe` | internal/loan/service.go:214-296 | Adding a guarantor keeps collateral safety. |
| `Lending.ApproveGuarantorKeepsSafe` | internal/loan/service.go:298-369 | Approving a guarantor keeps collateral safety. |
| `Lending.RemoveGuarantorKeepsSafe` | internal/loan/service.go:371-424 | Removing a guarantor releases only a pending loan's pledges, so it keeps collateral safety. |
| `Lending.VerifiedIsCovered` | internal/loan/service.go:1003-1046 | A loan that passes verification has active pledges of at least its principal. |
| `Lending.ApproveLoanKeepsSafe` | internal/loan/service.go:426-464 | An approved loan is covered. |
| `Lending.RejectLoanKeepsSafe` | internal/loan/service.go:466-504 | A rejected loan holds nobody's shares. |
| `Lending.DisburseLoanKeepsSafe` | internal/loan/service.go:506-623 | A disbursed loan is covered, and its account starts consistent. |
| `Lending.RecordRepaymentKeepsSafe` | internal/loan/service.go:652-825 | A repayment keeps running loans covered, and closing releases all of a loan's pledges. |
| `Lending.AcceptsRepaymentIff` | internal/loan/service.go:660-738 | Under a fresh gateway id a repayment succeeds if and only if arguments, owner, status, schedule and the backdating guard allow it, and then is appended. |
| `Lending.ApplyIff` | internal/loan/service.go:43-138 | An application is filed if and only if its terms, its member, its proposed guarantors and their security allow it; it is stored pending as it was asked for. |
| `Lending.AddGuarantorIff` | internal/loan/service.go:214-296 | A new guarantor is added if and only if the loan is pending and has room, the member is another one and active in its branch, and its unpledged shares cover the amount. |
| `Lending.ApproveGuarantorIff` | internal/loan/service.go:298-369 | A pending guarantor is approved if and only if its unpledged shares cover its amount; its pledge becomes active. |
| `Lending.RemoveGuarantorIff` | internal/loan/service.go:371-424 | A guarantor is removed if and only if the loan is pending; it is rejected and only its pledges are released. |
| `Lending.ApproveLoanIff` | internal/loan/service.go:426-464 | A pending loan is approved if and only if guards read off the tables hold - members active, three times the shares, pledges within balances, the own pledge within the unpledged shares, coverage of the principal - and the applicant's pledge is then active. |
| `Lending.RejectLoanIff` | internal/loan/service.go:466-504 | A loan is rejected if and only if it is pending or approved; all its pledges and no others are released. |
| `Lending.DisburseLoanIff` | internal/loan/service.go:506-623 | An approved loan is paid out if and only if the same guards hold with the own pledge already active - a pending one is refused - and its schedule and first month's interest are as promised. |
| `Lending.DisbursedOnce` | internal/loan/service.go:522-531 | Paying out again a loan that was paid out finds it and changes nothing. |
| `Lending.OverpaymentIff` | internal/loan/service.go:795-804 | A repayment adds a credit if and only if it exceeds everything due; the credit is the excess, of the paid loan and its member. |
| `Lending.PostKeepsSafe` | internal/share/service.go:125-213 | Share postings keep collateral safety of all loans. |
| `Lending.ApproveAdjustmentKeepsSafe` | internal/share/service.go:317-404 | Adjustments keep collateral safety of all loans. |
| `Lending.ReverseKeepsSafe` | internal/share/service.go:406-476 | Reversals keep collateral safety of all loans. |
| `LoanService.LoanOffice.ValidateApplication` | internal/loan/service.go:43-84 | The loop over proposed guarantors rejects the application for the first reason in order. |
| `LoanService.LoanOffice.ApplyForLoan` | internal/loan/service.go:86-138 | The steps over the tables are the application transaction. |
| `LoanService.LoanOffice.AddLoanGuarantor` | internal/loan/service.go:214-296 | The steps over the tables are the guarantor transaction. |
| `LoanService.LoanOffice.ApproveLoanGuarantor` | internal/loan/service.go:298-369 | The steps pledge the guarantor's shares and approve the guarantor together. |
| `LoanService.LoanOffice.RemoveLoanGuarantor` | internal/loan/service.go:371-424 | The steps release and reject the guarantor together. |
| `LoanService.LoanOffice.CheckCollateral` | internal/loan/service.go:1003-1046 | The coverage loop over guarantors, with its checks in order. |
| `LoanService.LoanOffice.ApproveLoanApplication` | internal/loan/service.go:426-464 | Verification and approval are one transaction. |
| `LoanService.LoanOffice.RejectLoanApplication` | internal/loan/service.go:466-504 | Rejection and release are one transaction. |
| `LoanService.LoanOffice.DisburseApprovedLoan` | internal/loan/service.go:506-623 | Verification, schedule, interest and status change are one transaction. |
| `LoanService.LoanOffice.RecordLoanRepayment` | internal/loan/service.go:652-825 | Retry check, guards, catch-up, split, schedule, credit and release are one transaction. |
| `Credits.AvailableIsUnheld` | internal/loan/credit_operations.sql:1-6 | What is available is the credit less everything that pending, approved and completed operations hold. |
| `Credits.ManageCreditKeepsFunds` | internal/loan/credit_handlers.go:68-188 | Operations never hold more than the credit, and completed refunds were approved and paid out by others than the requester. |
| `Credits.OperationsMoveForward` | internal/loan/credit_handlers.go:68-115 | No operation is lost or altered; only a refund's status moves, forward, by another officer. |
| `Credits.RetrySpend` | internal/loan/credit_handlers.go:149-155 | A repeated spend or refund request changes nothing in any later state. |
| `Credits.RetryApprovalIff` | internal/loan/credit_handlers.go:68-115 | A repeated approval is accepted if and only if the refund has not been paid out. |
| `Credits.ApprovalAfterPayout` | internal/loan/credit_handlers.go:68-115 | A refund is approved and paid out, and the repeated approval is refused. |
| `Credits.RequestRefundIff` | internal/loan/credit_handlers.go:117-188 | A new refund request is accepted if and only if it is complete and the credit is unrestricted and has the amount available; it is pending and holds the amount. |
| `Credits.ApproveRefundIff` | internal/loan/credit_handlers.go:73-92 | An approval is accepted if and only if another officer reviews a pending or already approved refund of an unrestricted credit; the refund is then approved and its amount stays held. |
| `Credits.RejectRefundIff` | internal/loan/credit_handlers.go:73-92 | A rejection is accepted if and only if another officer reviews a pending or already rejected refund; it is then rejected and its amount is available again. |
| `Credits.RecordRefundIff` | internal/loan/credit_handlers.go:93-114 | A payout is recorded if and only if another officer gives reason, reference and evidence for an approved refund under a reference that paid no other, or repeats the reference it was completed with. |
| `Credits.SpendIff` | internal/loan/credit_handlers.go:117-188 | A transfer or loan payment is made if and only if the credit is unrestricted, has the amount available and the ledger takes it; the operation is then completed. |
| `Credits.RejectedRefund` | internal/loan/credit_handlers.go:68-115 | A refund that is rejected, and whose payout is then refused. |
| `Credits.ManageCreditConservesIff` | internal/loan/credit_handlers.go:156-188 | Whatever a call for a credit comes to, it neither makes nor loses money, if and only if it is not an accepted transfer or loan payment whose operation id refers to a posting already on file for the owner and amount. |
| `Credits.CreditSpentForNothing` | internal/loan/credit_handlers.go:156-188 | A transfer under the reference of an earlier purchase spends the credit and leaves the ledgers as they are. |
| `Credits.PostPlaces` | internal/share/service.go:182-213 | Only a new purchase adds to the shares bought, by its stored amount. |
| `Credits.RepaymentPlaces` | internal/loan/service.go:761-825 | A new repayment is placed whole, on the loan or as credit; a retry places nothing. |
| `Credits.CreditDesk.ReviewRefund` | internal/loan/credit_handlers.go:68-115 | The handler's steps for approving, rejecting and recording a refund. |
| `Credits.CreditDesk.SpendCredit` | internal/loan/credit_handlers.go:117-188 | The handler's steps for transfers, loan payments and refund requests, with the available amount computed in place. |
| `Credits.CreditDesk.Manage` | internal/loan/credit_handlers.go:26-202 | The handler is the credit transaction. |
| `Allocations.CollectKeys` | internal/contribution/fees.go:57-102 | The normalised list has one entry per loan, no duplicate key and no fee, and only keys the caller asked for. |
| `Allocations.CollectConserves` | internal/contribution/fees.go:57-102 | Each entry carries exactly what the caller allocated to it. |
| `Allocations.NormaliseConserves` | internal/contribution/fees.go:57-102 | The total is the caller's non-fee total plus the fees. |
| `Allocations.EntryPositiveIff` | internal/contribution/fees.go:85-98 | A loan's entry is positive if and only if it was not made of two parts that are each below a tick. |
| `Allocations.NormaliseIdempotentIff` | internal/contribution/fees.go:57-102 | Normalising again changes nothing if and only if the caller gives no loan two parts that are each below a tick. |
| `Allocations.MergedToNothing` | internal/contribution/fees.go:57-102 | Two loan parts below a tick merge into an entry that is refused when normalised again. |
| `Allocations.CalculatedAllocations` | internal/contribution/fees.go:57-102 | The loop with its maps of seen keys and loan positions computes the normal form or its first error. |
| `Allocations.CheckItem` | internal/contribution/fees.go:62-86 | The loop's checks of one item, in order. |
| `Allocations.PlaceLoan` | internal/contribution/fees.go:86-98 | A loan part joins its loan's entry in place, or starts it, and the position map stays right. |
| `Allocations.RetryReproduces` | internal/contribution/fees.go:104-116 | Retrying against the stored plan reproduces the accepted allocations whatever fees are due by then. |
| `Allocations.VerifyAllocationsMatch` | internal/contribution/service.go:512-589 | Accepts if and only if both lists are duplicate-free and denote the same finite map from key to amount. |
| `Receipts.ValidateReceipt` | internal/contribution/service.go:626-685 | The loop with its running total and seen keys reports the first error in order. |
| `Receipts.NoItemsError` | internal/contribution/service.go:648-681 | Allocations pass if and only if keys are unique, amounts positive, and every ledger allocation names its target. |
| `Receipts.AcceptedIsBalancedIff` | internal/contribution/service.go:626-685 | Stored allocations add up to the stored receipt if and only if as many of them round up as the receipt itself does. |
| `Receipts.UnbalancedReceipt` | internal/contribution/service.go:626-685 | 0.00025 received for two accounts in equal parts is stored as 0.0003, and its allocations as 0.0001 each. |
| `Receipts.OutstandingAreFees` | internal/contribution/fees.go:14-52 | What is still due of a month's fees is at most one positive amount per fee, without target. |
| `Receipts.OutstandingIff` | internal/contribution/fees.go:14-52 | What is outstanding of a month are exactly its fees that are not fully paid, each for the rest. |
| `Receipts.AssessFeesIff` | internal/contribution/fees.sql:7-28 | Assessing a month gives an eligible member the two fees not yet on file, 30 shillings each, and changes no other. |
| `Receipts.ChargeErrorIff` | internal/contribution/charges.go:51-103 | Charge payments pass if and only if each is for the member's own charge of that kind, whole ticks, within what is due, and no charge is paid twice. |
| `Receipts.ReceiptErrorIff` | internal/contribution/service.go:626-685 | A receipt passes if and only if it has money, channel, reference, and distinct positive targeted allocations that add up to it. |
| `Receipts.AcceptIff` | internal/contribution/service.go:131-195 | A receipt is filed if and only if it is in order and nothing of it vanishes in the columns; member, month, ids, targets and amounts are then as they were sent. |
| `Receipts.RequeueIff` | internal/contribution/daraja_recovery.sql:80-83 | Only an M-Pesa receipt that failed or was set aside goes back to the queue, and nothing else changes. |
| `ReceiptPosting.PostRowsPost` | internal/contribution/service.go:314-362 | The posting loop gives each allocation its own ledger entry of exactly its amount and nothing else. |
| `ReceiptPosting.ProcessKeepsAllOrNothing` | internal/contribution/service.go:211-392 | However a call ends, a completed receipt has exactly its postings and any other receipt has none. |
| `ReceiptPosting.AcceptKeepsAllOrNothing` | internal/contribution/service.go:131-195 | A new receipt starts unposted. |
| `ReceiptPosting.RequeueKeepsAllOrNothing` | internal/contribution/daraja_recovery.sql:80-83 | Sending a failed receipt back to the queue keeps it unposted. |
| `ReceiptPosting.ForeignPostingsIff` | internal/contribution/service.go:398-442 | Postings made elsewhere leave every receipt wholly posted or not at all if and only if none of them is in the place, account or loan and reference, of an allocation still to be posted. |
| `ReceiptPosting.ProcessCollects` | internal/contribution/service.go:211-392 | A call collects exactly the stored allocations of the receipt when it completes it, and nothing otherwise. |
| `ReceiptPosting.ProcessCollectsIff` | internal/contribution/service.go:211-392 | What a call collects is the money received if and only if the receipt that it completes, if any, is balanced. |
| `ReceiptFaults.ProcessEnds` | internal/contribution/service.go:211-392 | Without a database failure every call ends: the receipt is completed if and only if its checks pass and its rows post, and otherwise set aside with ledgers, fees and charges exactly as before. |
| `ReceiptFaults.FaultLeavesNoTrace` | internal/contribution/service.go:334-362 | A database failure that is reached leaves no trace and the receipt waiting; one that is not reached makes no difference. |
| `ReceiptFaults.AbortsIff` | internal/contribution/service.go:475-487 | A call is undone if and only if a database failure is reached; no rejection by a rule ever is. |
| `ReceiptService.ReceiptDesk.CreateReceipt` | internal/contribution/service.go:165-194 | A receipt that is not on file and its allocation rows are inserted together or not at all. |
| `ReceiptService.ReceiptDesk.MonthlyFees` | internal/contribution/fees.go:14-52 | Assesses the month and returns what is still due of each fee. |
| `ReceiptService.ReceiptDesk.ValidateChargeAllocations` | internal/contribution/charges.go:51-103 | The two loops compare every charge payment with what its charge still owes. |
| `ReceiptService.ReceiptDesk.PostAllocation` | internal/contribution/service.go:398-442 | One allocation is posted in the ledger that owns it. |
| `ReceiptService.ReceiptDesk.PostAllocations` | internal/contribution/service.go:334-362 | The in-place posting loop, stopping at the first row that fails. |
| `ReceiptService.ReceiptDesk.ValidateLoanMinimums` | internal/contribution/service.go:102-125 | The loop over every running loan of the member refuses a contribution that leaves one out or pays less than its month's instalment. |
| `ReceiptService.ReceiptDesk.ValidateObligations` | internal/contribution/service.go:262-299 | The checks before posting, in order. |
| `ReceiptService.ReceiptDesk.ProcessReceipt` | internal/contribution/service.go:211-392 | With its savepoint: business failures are rolled back and recorded, database failures leave no trace. |
| `Obligations.ProcessKeepsObligations` | internal/contribution/service.go:273-299 | Fees and charges are never overpaid, and a completed receipt leaves no fee of its member and month outstanding. |
| `Obligations.AcceptKeepsObligations` | internal/contribution/charges.go:51-103 | Any number of pending receipts may aim at one obligation without paying it. |
| `Obligations.RequeueKeepsObligations` | internal/contribution/daraja_recovery.sql:80-83 | Requeueing pays nothing. |
| `MonthlyFees.StepKeepsMonthPaidIff` | internal/contribution/fees.sql:7-28 | A paid month stays paid under any command if and only if the command does not assess a fee of it that was not on file. |
| `MonthlyFees.RunKeepsMonthPaidIff` | internal/contribution/fees.go:14-54 | All along a run a paid month stays paid if and only if none of its fees is assessed anew. |
| `MonthlyFees.ActiveLaterInTheMonth` | internal/contribution/fees.sql:7-28 | A member with nothing to pay for a month owes its fees once found to be active in it. |
| `DarajaRuns.StepKeepsOnePrompt` | internal/contribution/daraja.go:43-155 | Every step of initiation, retry, lost answer, callback, query and staff recovery keeps: each provider call but the last for a request was proven not sent. |
| `DarajaRuns.RunSendsOnePrompt` | internal/contribution/daraja.go:43-155 | In any run at most one prompt per idempotency key may have reached the provider. |
| `DarajaRuns.StaysCompletedIff` | internal/contribution/daraja.go:62-96 | A completed request stays completed under a step if and only if the step is not a rejection of its prompt saved only then; its receipt never changes. |
| `DarajaRuns.RunStaysCompletedIff` | internal/contribution/daraja.go:62-96 | A completed request is completed in every later state of a run if and only if no rejection of its prompts is saved in the run. |
| `DarajaRuns.RejectedAfterCompletion` | internal/contribution/daraja.go:88-96 | A run in which a paid request is marked failed by such a late rejection. |
| `DarajaRuns.OneReferencePerRequest` | migrations/20260806100000_create_contribution_receipts.sql:33-34 | While no two requests have one receipt, no M-Pesa reference pays two requests. |
| `DarajaRuns.StepKeepsWired` | internal/contribution/payment_requests.sql:1-72 | Every step respects the unique checkouts and references. |
| `DarajaRuns.StepKeepsSingleIff` | internal/contribution/daraja.go:283-295 | A step lets two requests have one receipt if and only if it is a success whose receipt on file passes the guards and already belongs to another request. |
| `DarajaRuns.StepKeepsLinkedIff` | internal/contribution/daraja.go:283-295 | A step keeps every paid request under its receipt's checkout if and only if it neither finds a receipt without a checkout nor gives a paid request another checkout. |
| `DarajaRuns.RunKeepsSingleIff` | internal/contribution/daraja.go:202-338 | All along a run no M-Pesa reference completes two requests, if and only if no success of the run finds a receipt that another request has by then. |
| `DarajaRuns.RunKeepsLinkedIff` | internal/contribution/daraja.go:202-338 | All along a run every paid request is under its receipt's checkout if and only if the run makes neither of those two steps. |
| `DarajaRuns.OneReferencePerCheckout` | internal/contribution/daraja.go:202-338 | In every state that such a run reaches, two paid requests have different receipts, M-Pesa references and checkouts. |
| `DarajaRuns.AcceptedAfterCompletion` | internal/contribution/daraja.go:88-96 | A run in which a paid request is moved to another checkout by an answer saved late. |
| `DarajaRuns.OneReferenceTwoCheckouts` | internal/contribution/daraja.go:283-295 | A receipt entered by hand under an M-Pesa reference lets that reference complete two checkouts. |
| `DarajaRuns.CallbackConfluence` | internal/contribution/daraja.go:202-338 | Whatever the order and duplicates, and the payments and receipt processing in between, the request ends completed with exactly one receipt for the amount if and only if a success was delivered. |
| `DarajaRuns.RedeliveryIff` | internal/contribution/daraja.go:219-233 | A redelivered success returns the receipt if and only if the amount did not round up; another reference is refused. |
| `DarajaRuns.SecondDeliveryRefused` | internal/contribution/daraja.go:219-233 | A payment reported as 1.00005 is taken once and refused when it is reported again. |
| `DarajaRuns.PreflightSufficesIff` | internal/contribution/daraja.go:406-430 | The checks made before the prompt suffice for the callback if and only if every allocation is at least a tick and the amount does not round up. |
| `DarajaRuns.PreflightIsNotEnough` | internal/contribution/daraja.go:406-430 | A part of a billionth passes the checks before the prompt and fails the callback. |
| `DarajaRuns.RegisterAgainIff` | internal/contribution/daraja.go:113-155 | Asking again after any run, with receipts processed and fees paid in it, never makes a second request and is recognised if and only if the amount did not round up. |
| `DarajaRuns.AskedAgainRefused` | internal/contribution/daraja.go:113-155 | A request for 1.00005 is taken for another one when it is sent again. |
| `DarajaSteps.RegisterIff` | internal/contribution/daraja.go:113-197 | Under a new key a request is made if and only if its allocations and its amount pass every check; it is filed as asked, and one prompt of its amount is on its way. |
| `DarajaSteps.AskAgainIff` | internal/contribution/daraja.go:119-155 | Asked again, a prompt is sent again if and only if the last one is known not to have been sent and the request still waits. |
| `DarajaSteps.SavedAnswer` | internal/contribution/daraja.go:62-107 | A rejection fails the request, an acceptance gives it the checkout unless another request carries it, an unsent prompt is noted, and silence changes nothing. |
| `DarajaSteps.UnsentIsSentAgain` | internal/contribution/daraja.go:76-86 | Once the provider has said that a prompt was not sent, asking again sends one. |
| `DarajaSteps.FallIff` | internal/contribution/daraja.go:310-338 | A failure callback fails the request of its checkout unless money is known to have been received for it. |
| `DarajaSteps.RestoreIff` | internal/contribution/payment_request_handlers.go:171-189 | A checkout is restored if and only if the request waits without a receipt or another checkout and no other request carries it. |
| `DarajaSteps.ReconcileIff` | internal/contribution/payment_request_handlers.go:203-229 | A payment is reconciled if and only if it is of the amount asked for and no other reference paid the request; only a missing checkout is filled in. |
| `DarajaSteps.SucceedIff` | internal/contribution/daraja.go:202-305 | An unpaid request is completed if and only if the payment is the one asked for and a receipt on file for it, if any, fits; otherwise a receipt of its own is filed for its member, month and allocations. |
| `DarajaSteps.WholeIff` | internal/contribution/daraja.go:421-430 | An amount can be prompted for if and only if it is a whole number of shillings that an int64 holds. |
| `DarajaService.PaymentDesk.CreateRequest` | internal/contribution/daraja.go:113-197 | The steps over the tables are the registration transaction, keeping assessed fees only when it commits. |
| `DarajaService.PaymentDesk.RetryRequest` | internal/contribution/daraja.go:119-155 | The branch for a key on file: claim an unsent prompt, or find the one under way. |
| `DarajaService.PaymentDesk.SaveReply` | internal/contribution/daraja.go:62-107 | What is written once the provider has answered. |
| `DarajaService.PaymentDesk.ProcessPayment` | internal/contribution/daraja.go:202-305 | The steps for a success callback. |
| `DarajaService.PaymentDesk.FileForCallback` | internal/contribution/service.go:131-195 | The receipt of the reference or checkout is reused, or a new one created, and the request completed. |
| `DarajaService.PaymentDesk.MarkFailed` | internal/contribution/daraja.go:310-338 | The steps for a failure callback, which respects completed and received payments. |
| `DarajaService.PaymentDesk.RecordQueryResult` | internal/contribution/daraja_recovery.sql:35-41 | The guarded update that never erases evidence of received money. |
| `CashCustodyRuns.CashIsSomewhere` | internal/contribution/cash.go:175-327 | All cash received is in an open till, counted and on hand, or in a deposit, up to the recorded variances. |
| `CashCustodyRuns.RunKeepsSound` | internal/contribution/cash.go:59-357 | Over any run: sessions only move forward, a closed session expects the sum of its receipts in every later state, no session is banked twice, cashier and acceptor and recorder and verifier differ, cash receipts never fail. |
| `CashCustodyRuns.NextMovesForward` | internal/contribution/cash.go:175-327 | A session moves at most one stage per step and its figures are fixed once closed. |
| `CashCustodyRuns.MarkingBanks` | internal/contribution/cash.go:306-325 | Banking distinct sessions moves exactly their counts into the bank. |
| `ReceiptPosting.ProcessKeepsPapers` | internal/contribution/service.go:446-499 | Processing never changes a receipt's amount or allocations, and never fails a cash receipt. |
| `CashCustodyRuns.DepositIsItsCountsIff` | internal/contribution/cash.go:288-320 | A deposit is stored for exactly what its sessions counted if and only if its amount does not round up. |
| `CashCustodyRuns.NothingBankedAsOneTick` | internal/contribution/cash.go:288-320 | A deposit of half a tick for a till that counted nothing is stored as one tick, and refused when it is repeated. |
| `CashCustodyRuns.RetryCashIff` | internal/contribution/cash.go:59-88 | A repeated cash receipt returns the original after any run, even with the till closed and fees paid, if and only if no part of it rounded up. |
| `CashCustodyRuns.RepeatedCashRefused` | internal/contribution/cash.go:59-88 | A cash receipt of 1.00005 is taken once and refused when it is sent again. |
| `CashCustodyRuns.RetryCloseIff` | internal/contribution/cash.go:189-197 | A repeated close is recognised after any run if and only if the count did not round up. |
| `CashCustodyRuns.HalfTickCounted` | internal/contribution/cash.go:189-197 | A till closed with a count of half a tick cannot be closed with it again. |
| `CashCustodyRuns.RetryDepositIff` | internal/contribution/cash.go:267-286 | A repeated deposit returns the original after any run if and only if its amount did not round up. |
| `CashCustodyRuns.StoredRowsMatchIff` | internal/contribution/service.go:512-589 | The stored rows match the plan if and only if no allocation rounded up. |
| `CashCustodyRuns.OpenIff` | internal/contribution/cash.go:21-37 | A cashier has one open session: the one there is, or a new and empty one of the branch. |
| `CashCustodyRuns.ReceiveIff` | internal/contribution/cash.go:39-173 | Under a new key cash is taken if and only if it comes from an active member to the cashier's own open till, with allocations that pass every check; it is then on file under its key and till. |
| `CashCustodyRuns.TargetsErrorIff` | internal/contribution/cash.go:138-161 | Targets pass if and only if shares go to an active account of the member and loan payments to a running loan of the member. |
| `CashCustodyRuns.CloseIff` | internal/contribution/cash.go:175-219 | An open till is closed if and only if its own cashier gives a count that matches its takings, or a reason; takings and count are written down. |
| `CashCustodyRuns.HandoverIff` | internal/contribution/cash.go:221-248 | A closed till is handed over if and only if the receiver is of the branch and not its cashier; the receiver then holds the cash. |
| `CashCustodyRuns.DepositIff` | internal/contribution/cash.go:250-327 | A deposit is recorded if and only if it is for different sessions handed over in the branch whose counts are its amount; exactly these are banked. |
| `CashCustodyRuns.VerifyIff` | internal/contribution/cash.go:329-357 | A deposit is verified if and only if by somebody else than its recorder; who verified it first is written down and stays. |
| `CashService.CashDesk.OpenTill` | internal/contribution/cash.go:21-37 | One open session per cashier, returned if there is one. |
| `CashService.CashDesk.CreateCashReceipt` | internal/contribution/cash.go:39-173 | The steps over the tables are the cash receipt transaction. |
| `CashService.CashDesk.FindCashReceipt` | internal/contribution/cash.go:59-85 | The branch for a key on file. |
| `CashService.CashDesk.ValidateTargets` | internal/contribution/cash.go:138-161 | Every ledger target must be the member's, and able to take the money. |
| `CashService.CashDesk.SumCash` | internal/contribution/cash.sql:18-23 | The sum of a session's cash receipts. |
| `CashService.CashDesk.CloseTill` | internal/contribution/cash.go:175-219 | The steps for closing, with the variance computed in place. |
| `CashService.CashDesk.TakeOver` | internal/contribution/cash.go:221-248 | The steps for the handover. |
| `CashService.CashDesk.AllDifferent` | internal/contribution/cash.go:254-264 | The loop with its set of seen sessions refuses repetitions. |
| `CashService.CashDesk.TotalCounted` | internal/contribution/cash.go:291-305 | The loop over locked sessions checks each and totals the counts. |
| `CashService.CashDesk.RecordCashDeposit` | internal/contribution/cash.go:250-327 | The steps for a deposit and its sessions. |
| `CashService.CashDesk.VerifyCashDeposit` | internal/contribution/cash.go:329-357 | The steps for verification by another officer. |
| `Dividends.RegisterPartition` | internal/ceepdb/dividends.sql:59-72 | Cash paid, reinvested and outstanding amounts make up the approved total. |
| `Dividends.DeclaredTotal` | internal/ceepdb/dividends.sql:53-55 | The approved total, a sum over members, is the sum of the allocations saved with it. |
| `Dividends.DeclareKeepsSound` | internal/contribution/dividends.go:117-168 | Approving a declaration whose sources are as reviewed keeps the register sound. |
| `Dividends.SettleKeepsSound` | internal/contribution/dividends.go:195-269 | A settlement is backed by what the choice calls for: evidence for cash, one ledger entry of the amount for shares. |
| `Dividends.NextMovesForward` | internal/contribution/dividends.go:221-263 | What was approved is frozen, a choice is given once, a settlement is final. |
| `Dividends.RunKeepsSound` | internal/contribution/dividends.go:195-269 | Over any run interleaved with the share ledger every declaration stays partitioned, each share settlement has exactly one entry, no voucher pays twice in a branch. |
| `Dividends.RetrySettle` | internal/contribution/dividends.go:245-248 | Settling again with the same evidence changes nothing after any run. |
| `Dividends.RetryDeclare` | internal/contribution/dividends.go:70-86 | Approving the same preview again finds the declaration after any run, whatever the sources are by then. |
| `Dividends.ShareIsRounded` | internal/ceepdb/dividends.sql:46-48 | A dividend is the rate's share of the year-end balance to the nearest cent, half a cent up. |
| `Dividends.DeclareIff` | internal/contribution/dividends.go:55-168 | A year not yet declared is declared if and only if the request is in order, what was reviewed is what ledger and members give now, and nothing is left to resolve; every member is allotted its line and the total is their sum. |
| `Dividends.ChooseIff` | internal/contribution/dividends.go:221-229 | A choice is accepted if and only if no other was made, and it is the one recorded. |
| `Dividends.SettleInCashIff` | internal/contribution/dividends.go:230-263 | A dividend chosen in cash is settled if and only if voucher and date are in order and the voucher paid nothing else in the branch. |
| `Dividends.SettleInSharesIff` | internal/contribution/dividends.go:230-263 | A dividend chosen in shares is settled if and only if no cash evidence comes with it and its account is the member's; the account gains exactly its amount. |
| `Dividends.DividendDesk.ApproveDividends` | internal/contribution/dividends.go:40-168 | The steps for an approval: request, year, date and rate, sources as reviewed, no errors, then declaration and allocations. |
| `Dividends.SharesSettleAlways` | internal/share/dividends.go:10-17 | A share settlement succeeds whatever the account's status and adds exactly its amount to the balance. |
| `Dividends.DividendDesk.RecordChoice` | internal/contribution/dividends.go:221-229 | The steps for a choice. |
| `Dividends.DividendDesk.SettleAllocation` | internal/contribution/dividends.go:230-263 | The steps for a settlement over the allocation and the share ledger. |
| `Cooperative.PerformKeepsSafe` | internal/loan/service.go:1003-1046 | No transaction of shares or loans, in any state, breaks collateral safety: running loans covered, accounts' pledges within balances, rejected and closed loans free. |
| `Cooperative.PostingsKeepAllOrNothingIff` | internal/contribution/service.go:398-442 | A direct posting or credit operation keeps receipts wholly posted or not at all if and only if it does not take the place of an allocation still to be posted. |
| `Cooperative.RunKeepsInvariant` | internal/contribution/service.go:211-392 | In every state any interleaving reaches: collateral safety, credit reservation, all-or-nothing posting, obligations never overpaid. |
| `CooperativeLedger.RunKeepsJournals` | internal/share/service.go:406-476 | In any run whatever, one after the other, each entry is reversed at most once and references stay unique in both ledgers. |
| `CooperativeLedger.StepKeepsRunningIff` | internal/share/service.go:182-213 | Every transaction of the co-operative keeps each balance the signed sum of its entries if and only if it is not a new withdrawal that discards half a tick. |
| `CooperativeLedger.RunKeepsRunningIff` | internal/share/service.go:182-213 | The balances are exact all along a run if and only if the run makes no such withdrawal. |
| `CooperativeLedger.RunKeepsLedger` | internal/share/service.go:182-213 | In every state such a run reaches, the latest balance_after of each account is the signed sum of its entries and never negative. |
| `CooperativeLedger.PostedOnceForAll` | internal/contribution/service.go:211-392 | Exactly once: a completed receipt stays as it is under any run, and each of its ledger allocations has exactly one posting, of its amount, in every later state. |
| `CooperativeLedger.PurchaseInAnAllocationsSlot` | internal/contribution/service.go:398-442 | A direct purchase under the id of a pending allocation gives the receipt a posting while it is pending, and lets it complete without one of its own. |
| `Cooperative.StepConservesIff` | internal/loan/credit_handlers.go:156-188 | A command changes the money collected by exactly what it brings in if and only if it neither spends a credit on a posting already there nor completes a receipt that is not balanced. |
| `Cooperative.RunConservesIff` | internal/contribution/service.go:398-442 | All along a run the money collected is what was there and what has been paid in, if and only if no command of the run is one of those two. |
| `Cooperative.RunConserves` | internal/contribution/service.go:398-442 | From the beginning, over every run without them: money in equals shares bought, loans settled, unspent credit, refunds, fees and charges. |
| `CooperativeLedger.BalancedForGoodIff` | internal/contribution/service.go:626-685 | In every later state an accepted receipt is balanced if and only if as many of its allocations rounded up as the money received. |
| `Cooperative.RepeatedPostIff` | internal/share/service.go:149-174 | A share posting repeated anywhere later in a run returns the original and changes nothing if and only if its amount fits the column. |
| `Cooperative.RepeatedRepaymentIff` | internal/loan/service.go:692-710 | The same for repayments, even once the loan has closed. |
| `Cooperative.RepeatedSpend` | internal/loan/credit_handlers.go:149-155 | The same for credit operations, without condition. |
| `CooperativeRecords.RunKeepsOwned` | internal/loan/service.go:795-804 | In every state of every run each credit belongs to an existing loan and to that loan's member. |
| `CooperativeRecords.SpendReachesPayer` | internal/loan/credit_handlers.go:156-188 | A transfer buys shares for, and a loan payment settles a loan of, the member whose overpayment it is. |
| `CooperativeRecords.RefundsAreApproved` | internal/loan/credit_handlers.go:68-115 | A refund that is approved after a run was approved in it by another officer than its requester, and a completed one was approved and then paid out under its reference by another officer. |
| `CooperativeRecords.RunKeepsRejected` | internal/loan/credit_handlers.go:68-115 | A rejected refund is never approved or paid out later. |
| `CooperativeRecords.RunKeepsInStep` | internal/share/service.go:365-395 | In every state of every run each approved correction points to its own ledger entry of its account, amount and reference, others have posted nothing, and every correcting entry is one of these. |
| `CooperativeRecords.RunKeepsPostedFor` | internal/contribution/service.go:398-442 | In every state of an honest run the allocations of completed receipts have gone to accounts and loans of their own member and branch. |

## Left out

- Concurrency below the transaction: row locks make transactions serial, so the model runs them one after the other. In particular `created_at` is NOW() at the start of a transaction, so entries of overlapping transactions on one account could sort otherwise.
- The audit trail, listings, pagination and the CEEP report: they record or read and decide nothing modelled here.
- ReceiptService.ReceiptDesk.CreateReceipt: inserts receipts that are not on file; the lookups for those that are belong to the M-Pesa and cash desks, and the receipt service's own entry by external reference (internal/contribution/service.go:54-100) is a step of DarajaRuns only.
- ReceiptService.ReceiptDesk.PostAllocations: posts the rows in the order of the receipt, which is arbitrary here; the source first sorts them by type and target (internal/contribution/service.go:328-333), so a receipt with several rows that fail may report another of them.
- ReceiptService.ReceiptDesk.ProcessReceipt: does not compute the loan snapshot kept for display (internal/contribution/service.go:304-323, 364-372); that writing it can fail is the failure after the last row.
- CashService.CashDesk.ValidateTargets: takes the targets in list order; the source first sorts them by type and id (internal/contribution/cash.go:138-144), so of several targets that fail another may be reported.
- CashService.CashDesk.CreateCashReceipt: reports the first failing target in list order, for the same reason.
- Dividends.DividendDesk.ApproveDividends: takes from outside which members' six months qualify (internal/ceepdb/dividends.sql:5-26), and the preview itself stands for its hash.
- gRPC and HTTP layers, authentication, roles, phone numbers, OAuth, HMAC: no money moves in them.
- The M-Pesa provider: any of its answers may come at any time, or never.
- DarajaSteps.ReconcileIff: leaves out the payment_reconciliations table, by which a reference that was reconciled for another request is refused (internal/contribution/payment_request_handlers.go:230-248); runs may therefore make more reconciliations than the service does.
- The callback inbox with its attempts and backoff: callbacks are delivered any number of times in any order instead.
- The clock: current months and dates are parameters; Nairobi time is not modelled.
- JSON, UUIDs and hashes: plans are lists of rows, generated ids are indices or fresh texts, a preview hash is the preview.
- Go map iteration: loops over maps of guarantors or targets run in list order, so which of several errors is reported is fixed.
- Numbers finer than nine decimals and exponents other than those of the converters, except in Decimals, where any are covered.
- Deleted rows and rows written by earlier versions of the schema.
- Penalties are recorded by no service of the repository; a run may add them at any time while a loan is payable.
- Database failures happen at a posting row or after the last one; earlier ones leave no trace either and are not told apart.
- Foreign keys and unique indexes are modelled where an operation relies on them; a session's unique link to a deposit is not checked on insert because the invariant shows that it never fails.
- CashCustodyRuns.DepositIsItsCountsIff: speaks of one deposit when it is recorded; later it stays as it was by RunKeepsDeposits.
- Allocations.NormaliseIdempotentIff: is about the same fees both times, as the retry path uses it.
