# Confidential lending client: decision logic

This project models, in Dafny, the decision logic of the web client of a confidential peer-to-peer lending protocol. In this protocol borrowers submit encrypted financial data, the ledger computes an encrypted credit score, lenders publish encrypted offer criteria backed by escrowed funds, and matched loans are funded and then repaid.

The ledger programs themselves are not part of this model. What is modelled is the logic the client wraps around its ledger calls, with the React, wallet and network plumbing removed:

- **Repayment tracker** (`repayment_tracker.dfy`). It derives each agreement's status (CLOSED, REPAID, OVERDUE, ACTIVE) in a fixed priority order and maps a status to its badge colour case-insensitively. It also decides who is offered the payment form, when a payment attempt is sent, and how the borrower's and the lender's agreement ids are merged without duplicates.
- **Lender dashboard** (`lender_dashboard.dfy`). The first-failure-wins guard chain in front of a new lending offer, covering score, maximum amount, rate, collateral and funding, and the form reset after success.
- **Borrower loan request** (`borrower_loan_request.dfy`). The guard chain in front of a loan request, the form clearing after success, and the Funded/Pending/Closed label. It also has the loop that lists the borrower's own requests, proved equal to a specification function with soundness, order and completeness properties.
- **Borrower form** (`borrower_form.dfy`). The input checks of a data submission, plus the component state as a class whose methods model the on-chain check, submit, edit and reset. The class keeps the invariant that the unused "editing" panel is never entered.
- **Marketplace** (`marketplace.dfy`):
  - validation and defaults of ledger rows;
  - the loops that load requests and offers, and the nested loops that enumerate matched pairs (loans outer, offers inner, failed queries skipped), each proved against a specification function;
  - the active filters;
  - the authorisation checks before a match check and before funding, and the loan card's permission, proved to agree with the match handler;
  - address abbreviation;
  - the per-loan offer selection, as a class.
- **Credit-score display** (`credit_score_display.dfy`). Banding of a score at 650 and 750. The colour and the rating are two separate threshold chains, proved to agree, and the rating is monotone.
- **Common** (`common.dfy`). Option and Result types, ASCII lower-casing, case-insensitive address identity, connection truthiness and the address shape check.

Values the client obtains from outside are parameters of the model:
- the current time in milliseconds;
- whether the FHE instance is ready and the connected address;
- the results of converting form text, with `None` when a `BigInt`, `parseEther` or `parseInt` conversion throws or yields NaN; the funding text is `Blank` or its `parseFloat` result, `NaN` or a finite real;
- rows read from the ledger, with `None` when a read throws;
- the ledger's match answers, as a map from (loanId, offerId) in which a missing key means the query threw;
- whether a transaction succeeded.

Two behaviours of the code are modelled as written:
- In the lender's funding check, a funding text that `parseFloat` reads as NaN passes, because NaN is not `<= 0`. Such a text is only rejected later, when it is converted to wei inside the sending call. `LenderDashboard.NonNumericFundingPassesCheck` exhibits this.
- A successful data submission sets `hasData` but leaves `hasComputedScore` as it was, although the ledger discards the previous score on resubmission. `BorrowerForm.Form.Submit` states this.

## Model

| member | source | states |
|---|---|---|
| `CreditScoreDisplay.GetScoreRating` | packages/client/app/_components/CreditScoreDisplay.tsx:173-178 | Excellent iff the score is at least 750; Good iff it is in [650, 749]; Needs Improvement iff it is below 650 or not a number |
| `CreditScoreDisplay.GetScoreColor` | packages/client/app/_components/CreditScoreDisplay.tsx:166-171 | the colour chain always yields the gradient of the rating that `GetScoreRating` gives the same score |
| `CreditScoreDisplay.RatingMonotone` | packages/client/app/_components/CreditScoreDisplay.tsx:173-178 | a higher score never receives a lower rating |
| `CreditScoreDisplay.GradientIdentifiesRating` | packages/client/app/_components/CreditScoreDisplay.tsx:166-171 | different bands show different gradients |
| `RepaymentTracker.DeriveStatus` | packages/client/app/_components/RepaymentTracker.tsx:59-69 | CLOSED iff inactive; REPAID iff active and repaid at least the total, even past due; OVERDUE iff active, under-repaid and now strictly after dueDate×1000 ms; ACTIVE iff active, under-repaid and now at or before the due instant |
| `RepaymentTracker.LabelIsKnown` | packages/client/app/_components/RepaymentTracker.tsx:60-69 | every derived label is one of the four and never "UNKNOWN"; labels are distinct per status |
| `RepaymentTracker.StatusMonotoneInTime` | packages/client/app/_components/RepaymentTracker.tsx:65-68 | for fixed amounts, time only moves ACTIVE to OVERDUE and never back |
| `RepaymentTracker.StatusColor` | packages/client/app/_components/RepaymentTracker.tsx:126-141 | the badge is picked on the lower-cased status; "closed" and any unrecognised string get the neutral style |
| `RepaymentTracker.StatusColorCaseInsensitive` | packages/client/app/_components/RepaymentTracker.tsx:127 | the colour of a status equals the colour of its lower-cased form |
| `RepaymentTracker.DerivedStatusColor` | packages/client/app/_components/RepaymentTracker.tsx:126-141 | the four derived labels get green, yellow, blue and the neutral style respectively |
| `RepaymentTracker.ShowsPaymentInput` | packages/client/app/_components/RepaymentTracker.tsx:230 | the payment form is shown iff an address is present (no truthiness test), it is the borrower case-insensitively, and the status is exactly "ACTIVE" |
| `RepaymentTracker.PaymentInputOnlyWhenActive` | packages/client/app/_components/RepaymentTracker.tsx:229-230 | for a derived status: shown iff ACTIVE and the caller is the borrower; OVERDUE, REPAID and CLOSED get no form |
| `RepaymentTracker.PaymentToSend` | packages/client/app/_components/RepaymentTracker.tsx:102 | an amount is sent iff an address is connected and a non-empty amount is entered for that agreement, and it is that amount |
| `RepaymentTracker.AmountsAfterPayment` | packages/client/app/_components/RepaymentTracker.tsx:114 | after a successful payment that agreement's amount is empty and all other entries are unchanged |
| `RepaymentTracker.NoRepeatedPayment` | packages/client/app/_components/RepaymentTracker.tsx:102-114 | immediately after a successful payment the same attempt sends nothing |
| `RepaymentTracker.Dedup` | packages/client/app/_components/RepaymentTracker.tsx:46 | the de-duplicated list has exactly the values of the input, none twice, in order of their first occurrence in the input |
| `RepaymentTracker.DedupKeepsDistinct` | packages/client/app/_components/RepaymentTracker.tsx:46 | a list without repetitions is returned unchanged, in its own order |
| `RepaymentTracker.MergeIds` | packages/client/app/_components/RepaymentTracker.tsx:46 | the merged ids are exactly those of the borrower and lender lists, without repetition |
| `RepaymentTracker.MergedIdsBorrowerFirst` | packages/client/app/_components/RepaymentTracker.tsx:46 | every borrower id comes before every id only the lender list has; borrower ids keep their first-occurrence order in the borrower list, and lender-only ids theirs in the lender list |
| `RepaymentTracker.MergedIdsOnce` | packages/client/app/_components/RepaymentTracker.tsx:46 | every id from either list occurs exactly once in the merge |
| `RepaymentTracker.BorrowerOnlyOrderKept` | packages/client/app/_components/RepaymentTracker.tsx:46 | with no lender ids, the borrower's distinct ids keep their order |
| `LenderDashboard.CheckOffer` | packages/client/app/_components/LenderDashboard.tsx:59-93 | each error holds iff its own check fails and every earlier one passed, in the order readiness, conversion, score [300,850], max amount ≥ 10^15 wei, rate (0,10000], collateral [0,10000], funding; the offer is handed to the sending call iff all pass, carrying the converted values |
| `LenderDashboard.SentOfferWithinBounds` | packages/client/app/_components/LenderDashboard.tsx:69-107 | every offer handed to the sending call has a score in [300,850], rate in (0,10000], collateral in [0,10000] and a maximum of at least 0.001 ether |
| `LenderDashboard.BoundaryOfferAccepted` | packages/client/app/_components/LenderDashboard.tsx:70-88 | the inclusive ends 300, 850, 1, 10000, 0 and 0.001 ether are accepted |
| `LenderDashboard.NonNumericFundingPassesCheck` | packages/client/app/_components/LenderDashboard.tsx:90-93 | a funding text read as NaN passes the funding check |
| `LenderDashboard.FormAfterCreate` | packages/client/app/_components/LenderDashboard.tsx:127-134 | after a successful creation the form is empty with collateral "100"; otherwise it is kept as typed |
| `BorrowerLoanRequest.CheckRequest` | packages/client/app/_components/BorrowerLoanRequest.tsx:102-123 | first failure wins in the order readiness, computed score, conversion, amount > 0, duration in [1,60]; a request is sent iff all pass |
| `BorrowerLoanRequest.SentRequestWithinBounds` | packages/client/app/_components/BorrowerLoanRequest.tsx:107-123 | a sent request comes from a borrower with a score and has a positive amount and a duration in [1,60] |
| `BorrowerLoanRequest.FormAfterRequest` | packages/client/app/_components/BorrowerLoanRequest.tsx:146-149 | both fields are cleared after a successful request and kept otherwise |
| `BorrowerLoanRequest.StatusLabel` | packages/client/app/_components/BorrowerLoanRequest.tsx:75 | "Funded" iff funded (whatever isActive says); "Pending" iff unfunded and active; "Closed" otherwise |
| `BorrowerLoanRequest.BorrowerLoans` | packages/client/app/_components/BorrowerLoanRequest.tsx:62-84 | fails iff some row could not be read; otherwise every entry is built from its own row, its borrower matches the address case-insensitively, and ids strictly ascend |
| `BorrowerLoanRequest.BorrowerLoansComplete` | packages/client/app/_components/BorrowerLoanRequest.tsx:67-77 | every row whose borrower matches the address has its entry in the list |
| `BorrowerLoanRequest.FailureIsFinal` | packages/client/app/_components/BorrowerLoanRequest.tsx:62-84 | once a row cannot be read, the list is not replaced, whatever follows |
| `BorrowerLoanRequest.ListBorrowerLoans` | packages/client/app/_components/BorrowerLoanRequest.tsx:63-80 | the loop's result equals `BorrowerLoans` |
| `BorrowerForm.CheckData` | packages/client/app/_components/BorrowerForm.tsx:79-101 | first failure wins in the order instance, address, conversion, income ≠ 0, repayment score ≤ 100; data is submitted iff all pass |
| `BorrowerForm.RepaymentScoreBoundary` | packages/client/app/_components/BorrowerForm.tsx:98-101 | a repayment score of 100 is accepted and 101 rejected |
| `BorrowerForm.Form.constructor` | packages/client/app/_components/BorrowerForm.tsx:17-25 | the form starts on the initial panel with both flags false and empty fields |
| `BorrowerForm.Form.CheckOnchainState` | packages/client/app/_components/BorrowerForm.tsx:48-68 | without an address or on a failed query nothing changes; otherwise the flags take the ledger's answer and the panel becomes "submitted" iff data was submitted or a score computed, else it is kept |
| `BorrowerForm.Form.Submit` | packages/client/app/_components/BorrowerForm.tsx:76-142 | outcome equals `CheckData`; on success hasData becomes true and the panel "submitted", and fields are cleared only when no data was recorded before; on rejection or failure nothing changes |
| `BorrowerForm.Form.EditData` | packages/client/app/_components/BorrowerForm.tsx:170-172 | back to the initial panel with hasData and hasComputedScore unchanged |
| `BorrowerForm.Form.ResetData` | packages/client/app/_components/BorrowerForm.tsx:174-183 | back to the initial panel, both flags cleared, all three fields empty |
| `Marketplace.ValidateLoan` | packages/client/app/marketplace/page.tsx:53-74 | no request iff the row is missing or its borrower is not an address; otherwise the row's values, lender defaulting to the zero address and amount and duration to 0 |
| `Marketplace.ValidateOffer` | packages/client/app/marketplace/page.tsx:76-96 | no offer iff the row is missing or its lender is not an address; otherwise the row's values with missing numbers read as 0 |
| `Marketplace.LoadedLoans` | packages/client/app/marketplace/page.tsx:164-192 | each loaded request is the validation of its own row, has a well-formed non-zero borrower, and ids strictly ascend |
| `Marketplace.LoadedLoansComplete` | packages/client/app/marketplace/page.tsx:166-192 | every readable, valid row with a non-zero borrower is loaded |
| `Marketplace.LoadedOffers` | packages/client/app/marketplace/page.tsx:194-221 | each loaded offer is the validation of its own row, has a well-formed non-zero lender, and ids strictly ascend |
| `Marketplace.LoadedOffersComplete` | packages/client/app/marketplace/page.tsx:196-221 | every readable, valid offer row with a non-zero lender is loaded |
| `Marketplace.LoadLoans` | packages/client/app/marketplace/page.tsx:165-192 | the loading loop's result equals `LoadedLoans`; unreadable rows are skipped |
| `Marketplace.LoadOffers` | packages/client/app/marketplace/page.tsx:195-221 | the loading loop's result equals `LoadedOffers` |
| `Marketplace.ActiveLoans` | packages/client/app/marketplace/page.tsx:430 | exactly the requests that are active and not funded |
| `Marketplace.ActiveOffers` | packages/client/app/marketplace/page.tsx:431 | exactly the active offers |
| `Marketplace.ActiveListsKeepOrder` | packages/client/app/marketplace/page.tsx:430-431 | filtering distributes over concatenation, so the loaded order is preserved |
| `Marketplace.PairsFor` | packages/client/app/marketplace/page.tsx:104-122 | the pairs of one loan are exactly its active offers whose query answered "matched" |
| `Marketplace.MatchedPairs` | packages/client/app/marketplace/page.tsx:99-124 | a pair is enumerated iff its loan is active and unfunded, its offer active, and the ledger answered "matched" for their ids |
| `Marketplace.PairsForAppend` | packages/client/app/marketplace/page.tsx:104-122 | within one loan, pairs follow the offer order |
| `Marketplace.MatchedPairsAppend` | packages/client/app/marketplace/page.tsx:102-124 | all pairs of an earlier loan precede those of a later loan |
| `Marketplace.LoadMatchedPairs` | packages/client/app/marketplace/page.tsx:99-128 | the nested loops' result equals `MatchedPairs`; failed queries are skipped without ending the loops |
| `Marketplace.CheckMatch` | packages/client/app/marketplace/page.tsx:257-279 | refused without an address, refused when the loan or offer is absent, refused unless the caller is the borrower or the lender case-insensitively; a confirmed check carries the found loan and offer |
| `Marketplace.CanMatchAgreesWithCheckMatch` | packages/client/app/marketplace/page.tsx:647-652 | the loan card allows "Check Match" exactly when the handler's authorisation passes |
| `Marketplace.BorrowerCardWithUnloadedOffer` | packages/client/app/marketplace/page.tsx:647-652 | for the loan's borrower and a selected offer id missing from the loaded offers, the card allows "Check Match" but the handler answers "Loan or offer not found" (page.tsx:264-270) |
| `Marketplace.CheckFund` | packages/client/app/marketplace/page.tsx:343-360 | refused without an address, refused unless the caller is the lender case-insensitively, refused unless a recorded pair has exactly these loan and offer ids |
| `Marketplace.FundingNeedsRecordedMatch` | packages/client/app/marketplace/page.tsx:355-360 | a confirmed funding concerns an active unfunded loan and an active offer that the ledger reported as matched |
| `Marketplace.FundingGoesToOfferLender` | packages/client/app/marketplace/page.tsx:596 | with distinct loan and offer ids, funding confirmed from the Fund button of an enumerated pair (which passes that pair's offer lender to the handler of page.tsx:343-360) funds exactly that pair, and the caller is its offer's lender case-insensitively |
| `Marketplace.FormatAddress` | packages/client/app/marketplace/page.tsx:434-439 | "Invalid Address" iff the address is not well-formed; otherwise 13 characters: its first six, "..." and its last four |
| `Marketplace.EmptyAddressIsInvalid` | packages/client/app/marketplace/page.tsx:435-436 | the empty string is shown as "Invalid Address" |
| `Marketplace.OfferSelection.constructor` | packages/client/app/marketplace/page.tsx:49 | the selection starts empty |
| `Marketplace.OfferSelection.SelectedOffer` | packages/client/app/marketplace/page.tsx:646 | a loan's selection exists iff it is stored, and it is never negative |
| `Marketplace.OfferSelection.Choose` | packages/client/app/marketplace/page.tsx:712-722 | offer id ≥ 0 sets the loan's selection and a negative id removes it; other loans' entries are unchanged; stored ids stay non-negative |
| `Marketplace.OfferSelection.Clear` | packages/client/app/marketplace/page.tsx:313-318 | after a match check the loan's selection is removed and nothing else changes |

## Left out

- The ledger programs (scoring formula, encrypted matching, collateral ledger, escrow and funding, on-chain payments) are not part of this model. Only the client logic around those calls is modelled.
- Encryption, EIP-712 signing and user decryption (`CreditScoreDisplay.tsx:43-127`, `utils/fhevm-utils.ts`, the `encryptData` helpers) are calls into an external SDK. Their success is folded into the `txSucceeded` parameter.
- Network plumbing is left out: the ethers wrappers, chain checks and chain switching (`app/lib/contract.ts`, `app/lib/contract1.ts`, `hooks/helper/useContract.ts`), and the contract-deployment and count reads at the start of `loadMarketplaceData`.
- Floating-point code is left out: the collateral deposit and withdraw guards, `formatAmount`, and the "Remaining" figure of the repayment form.
- React machinery is left out: effects, `alert` and `confirm` dialogs, loading flags and transaction receipts. The match and funding handlers are modelled up to the point where they ask for confirmation.
- Browser-side `min`/`max` attributes of the number inputs are not modelled. Only the handlers' own checks are.
- The role badge and role label of an agreement are presentational and not modelled. Neither is the dropping of agreements whose detail query fails (`RepaymentTracker.tsx:84-91`).
- Presentational and mock pages, `MarketPlaceMatching.tsx`, the Hardhat configuration and the deploy script are not part of this model.
- `RepaymentTracker.DeriveStatus`: compares exact integers. The source converts wei amounts with `Number(...)`, which loses precision above 2^53, so on very large amounts the source can classify differently.
- `Marketplace.FormatAddress`, `Marketplace.ValidateLoan`, `Marketplace.ValidateOffer`: the model checks only the address shape (optional "0x" and forty hex digits). It does not model the EIP-55 checksum that `ethers.isAddress` verifies for mixed-case input, nor the ICAP form. A mixed-case address with a bad checksum is therefore valid here but invalid in the source.
- `Common.Lower`: lower-cases ASCII letters only. `toLowerCase` also folds other Unicode letters, which do not occur in addresses or status labels.
- `LenderDashboard.CheckOffer`: the text-to-number conversions are inputs, not modelled. This includes that `BigInt("")` is 0, so an empty score field is rejected by the score range check. A funding amount is modelled as the real number `parseFloat` would produce; float rounding is not modelled.
- `BorrowerLoanRequest.CheckRequest` and `BorrowerForm.CheckData`: conversion failures are modelled as an `Unconvertible` outcome. In the source they are uncaught exceptions that end the handler with no message and nothing sent.
- `Marketplace.ValidateOffer`: keeps an offer's available funds as the wei integer. The page stores the ether string `ethers.formatEther` makes of it, which is display formatting.
- `LenderDashboard.CheckOffer`: an offer that passes the checks can still fail inside the sending call, when `parseEther` converts the funding text to wei. This happens for NaN, exponent notation or more than 18 decimals. That failure is folded into the transaction outcome.
- `Marketplace.LoadLoans` and `Marketplace.LoadOffers`: the two ledger reads per row are modelled as one read.
- `BorrowerForm.Form.Submit`: the form fields are text the model does not parse. The converted values are parameters.
