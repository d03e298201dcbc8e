# Certificate service: a verified model

The service issues certificates for organizations: one at a time, or a spreadsheet at a time. Around
that it sells subscription periods through two payment gateways, delivers webhooks, and refreshes the
browser's session. This project models the parts of it that hold state, arithmetic or string reasoning,
and proves what every run of them keeps.

Run `dafny verify dfyconfig.toml` in this directory.

## How it is built

| file | what it models |
|---|---|
| `Substitution.dfy` | placeholder replacement on the server against the preview's single pass |
| `Calendar.dfy`, `IsoDates.dfy` | dates, day numbers, month arithmetic, expiry, ISO date text |
| `Numbering.dfy`, `Slugs.dfy`, `Text.dfy` | certificate numbers, organization slugs, decimal text |
| `Issuance.dfy` | tables, the issuance transaction, revocation, template versions (class `Store`) |
| `IssuanceRuns.dfy` | the machine in which issuances, revocations and edits interleave, and its step invariants |
| `IssuanceGuarantees.dfy` | the theorems about every run of that machine |
| `IssuanceContents.dfy` | what an issuance, a revocation and a saved version write, field by field |
| `BulkIssuance.dfy`, `BulkGuarantees.dfy` | mapping, validation, the batch loop (class `Batch`) and its accounts |
| `BulkContents.dfy` | what each row of a batch ends with: its verdict, its certificate, its email |
| `Amounts.dfy`, `Payments.dfy` | gateway amount checks and the race of callbacks for one payment |
| `Subscriptions.dfy` | subscription periods over any history of applied payments |
| `Webhooks.dfy` | delivery, retry schedule, beat and jobs |
| `TokenRefresh.dfy` | the browser's single-flight token refresh |

Code that updates a row or a module variable in place is a class (`Store`, `Batch`, `PaymentTransaction`,
`Account`, `WebhookDelivery`, `ApiClient`). Each method's `ensures` gives the whole new state as a function
of the old one, and the machines (`Next`, `Execute`) run those same functions in any interleaving.
`Execute(...)` returns `None` when a step was not possible, so `Execute(...) == Some(t)` reads
"t is reached by these steps". Clocks, gateway answers, HTTP outcomes, enqueue failures and the plan's
monthly limit are inputs.

## What the code does not do

These are results about the code as it is. Where a property fails, the condition under which it holds is
stated and proved.

- The preview's `\w+` pattern reaches only ASCII word names. A custom field with a space or a Persian name
  is filled in on the issued certificate and left as a placeholder in the preview
  (`Substitution.BackendAgreesWithPreview` is an if-and-only-if).
- A value that itself contains a placeholder may be expanded again by the server. Texts are filled as their
  author meant exactly when no value is changed by a later key, the preview agrees with all of them under a
  like condition, and the order of the variables is irrelevant exactly when no value is changed by any other
  key (`Substitution.AlwaysFillsIff`, `AlwaysPreviewedIff`, `OrderNeverMattersIff`;
  `BracedValuesCascade` is a dictionary that fails).
- A late failure or cancel write takes a paid payment back, after which it can be applied a second time
  (`Payments.FailureAfterPaidAppliesTwice`; `Payments.ApplicationsCounted` gives the exact count).
- The subscription row is not locked, so two payments of one organization that overlap leave the serial row
  only under the conditions of `Subscriptions.LaterWritesLast` and `EarlierWritesLast`. Two extensions lose a
  whole period (`OverlapLosesTime`), and without a row the second insert is refused and its payment rolls back.
- The first subscription of an organization does not switch the API flag on
  (`Subscriptions.Account.ApplySubscriptionPlan`).
- The bound of four POSTs plus the outstanding jobs holds only while jobs of one delivery cannot overlap
  (`Webhooks.SerialBoundIff`). Success is final exactly under the same condition; otherwise a stale job can
  turn it back into a failure (`Webhooks.SuccessIsKeptIff`). The last retry delay of the table is never used (`Webhooks.DelayTable`).
- Revoking through a stale copy of a revoked certificate replaces reason and time and records another event
  (`Issuance.RepeatedRevocation`; `IssuanceGuarantees.PublicStatusMovesForward` counts those events).
- Bulk validation normalises the date, issuing reads it raw: such rows pass validation and always fail
  (`IsoDates.ValidatedButUnreadable`, `BulkGuarantees.NormalisedDatesFail`).
- A row whose email cannot be queued counts as a success and as an error, and its certificate exists although
  the item reads FAILED (`BulkGuarantees.BatchAccounts`).
- Before year 1000 a prefix ending in a digit can produce the number of another year
  (`Numbering.NumbersCoincide` says exactly when; `ShortYearsCollide` is a case).
- BitPay takes the toman price itself for a rial amount, Zibal does not (`Amounts.ZibalIsStricter`).

## Model

| member | source | states |
|---|---|---|
| Substitution.Substitute | certificates/variables.py:104-110 | the loop over the variables computes the key-by-key replacement that the theorems below are about |
| Substitution.SubstituteCanvas | certificates/variables.py:113-120 | every text element of a fresh copy is filled; the stored canvas and elements without text are untouched |
| Substitution.BackendFills | certificates/variables.py:104-110 | key-by-key replacement gives each placeholder with a value that value and leaves all else, for texts of brace-free literals and placeholders |
| Substitution.FrontendFills | frontend/src/certificate/types.ts:67-69 | the single pass gives each word-named placeholder with a value that value and leaves all else, whatever the values contain |
| Substitution.BackendAgreesWithPreview | certificates/variables.py:104-110 | server and preview show the same text if and only if no placeholder with a value has a name outside `\w+` |
| Substitution.AgreeOnWordVariables | frontend/src/certificate/types.ts:67-69 | with word-named variables they always agree, and both give the intended text |
| Substitution.BuiltInsAgree | frontend/src/certificate/types.ts:67-69 | texts that use only the variables every certificate has are always previewed right |
| Substitution.OrderIsIrrelevant | certificates/variables.py:108-109 | any reordering of variables whose values hold no opening brace gives the same text |
| Substitution.BackendCascades | certificates/variables.py:104-110 | with values that hold placeholders: every placeholder becomes what its variable finally stands for, its value after the later keys were replaced in it |
| Substitution.AlwaysFillsIff | certificates/variables.py:108-109 | every text gets each variable's own value if and only if no value is changed by a later key |
| Substitution.AlwaysPreviewedIff | frontend/src/certificate/types.ts:67-69 | every preview is right if and only if each word-named variable survives the later keys and every other one ends as its own placeholder |
| Substitution.OrderNeverMattersIff | certificates/variables.py:108-109 | all orders of the variables give every text the same result if and only if no value is changed by another variable's key |
| Calendar.OrdinalOrder | certificates/variables.py:30-53 | field-by-field date order is day-number order, and a day number names one date |
| Calendar.AddDaysExact | certificates/variables.py:39-40 | adding days is exact on day numbers and fails exactly outside years 1 to 9999 |
| Calendar.MonthsBounds | certificates/variables.py:48-53 | m > 0 months land on a valid date 28m to 31m days later |
| Calendar.AddMonthsMonotone | certificates/variables.py:48-53 | a later start never ends earlier |
| Calendar.AddMonthsCompose | certificates/variables.py:48-53 | a then b months against a+b: same month, never later, at most 3 days earlier, equal up to day 28, and exactly when the two are equal |
| Calendar.YearsBounds | certificates/variables.py:43-53 | v > 0 years land 365v to 366v days later, also from February 29 |
| Calendar.ExpiryBounds | certificates/variables.py:30-45 | a positive validity period expires after its issue date, within the bounds of its unit |
| Calendar.ExpiryDecided | certificates/variables.py:30-53 | there is an expiry exactly for a value other than 0 in days, months or years; it is that many days on, or that many months on with the clamped day; it fails exactly outside years 1 to 9999 |
| Calendar.MonthTable | certificates/variables.py:52 | the days before each month of common and leap years |
| Calendar.ExpiryMonotone | certificates/variables.py:30-45 | in every mode a later issue date never expires earlier |
| IsoDates.ValidatedButUnreadable | certificates/bulk.py:91-94 | a date the validator passes can be read at issue time if and only if normalising leaves it unchanged |
| IsoDates.ReadsExactly | certificates/services.py:96-102 | a text reads as a date if and only if it is that date written YYYY-MM-DD or YYYYMMDD |
| IsoDates.SlashesNormalise | certificates/bulk.py:94 | the validator takes slashes for dashes and ignores what follows the tenth character |
| Numbering.ValueOfNumber | certificates/numbering.py:15-24 | a number ends with its sequence value, whatever the prefix |
| Numbering.NumberDetermines | certificates/numbering.py:15-24 | in years 1000 to 9999 equal numbers have equal prefix, year and value |
| Numbering.NumbersCoincide | certificates/numbering.py:15-24 | for all prefixes, years and values, two numbers are equal if and only if the values are equal and prefix and year read as the same text |
| Slugs.CandidatesDiffer | organizations/services.py:26-31 | no two slug candidates are equal |
| Slugs.UniqueSlug | organizations/services.py:25-32 | returns the first unused of base, base-2, base-3, ... and tries at most as many taken ones as there are slugs |
| Issuance.Store.NextCertificateNumber | certificates/numbering.py:11-24 | increments exactly the sequence of that organization and year and formats its new value |
| Issuance.Store.IncrementUsage | billing/usage.py:7-16 | adds one to exactly the counter of that organization and month |
| Issuance.Store.SaveRecipient | certificates/services.py:65-89 | renames the first recipient with that email, or adds one; all others stay |
| Issuance.Store.CheckAdmission | certificates/services.py:49-63 | flags, then replay of the key, then quota, in that order |
| Issuance.Store.IssueCertificate | certificates/services.py:36-174 | the statement-by-statement transaction is all or nothing and equals the issuance step of the machine, whose contents the rows of `IssuanceContents` give |
| IssuanceContents.AdmissionDecided | certificates/services.py:49-63 | admitted, replayed or out of quota exactly when flags, key and this month's counter say so, in that order |
| IssuanceContents.CommitRefused | certificates/services.py:67-108 | a blank name, a missing version, unreadable dates and taken numbers or keys are the only reasons for a failed commit, in that order |
| IssuanceContents.IssuedDates | certificates/services.py:95-106 | a landed certificate has the issue date sent, or today, and the expiry its mode asks for counted from that date; it has one exactly with a supplied date or a value other than 0 |
| IssuanceContents.ValidityDecided | certificates/services.py:95-106 | the dates are refused only for text that is no date, an empty supplied expiry, or a count outside years 1 to 9999 |
| IssuanceContents.IssuedFields | certificates/services.py:109-141 | title, issuer and the other printed fields come from the request, with type, template and organization as fallbacks in that order |
| IssuanceContents.IssuedRecipient | certificates/services.py:65-89 | the recipient is the organization's with that trimmed, lower-case email, renamed; otherwise a new one; nobody else changes |
| IssuanceContents.SameEmailSameRecipient | certificates/services.py:65-74 | an email written with other case or surrounding spaces finds an existing recipient with that email again; a different email never finds the same one |
| IssuanceContents.IssuedNumber | certificates/numbering.py:15-24 | the number is the trimmed prefix or CERT-, the issue year and the next value of that year |
| IssuanceContents.HashCommits | certificates/variables.py:56-72 | two hashes are equal exactly when certificate, name, course, issuer, dates and number agree |
| IssuanceContents.TamperingShows | certificates/variables.py:56-72 | in every run, an altered printed field of a certificate no longer matches its stored hash |
| Issuance.Store.RevokeCertificate | certificates/services.py:177-213 | the method equals the revocation step that `IssuanceContents.RevocationTakes` decides |
| IssuanceContents.RevocationTakes | certificates/services.py:179-192 | a draft is refused; any other certificate that is not revoked becomes so with this time and reason and one more event, and nothing else changes |
| IssuanceContents.RevokedForGood | certificates/services.py:177-192 | after a revocation step of a run the certificate reads revoked in every later state |
| Issuance.Store.SaveTemplateVersion | certificates/views.py:102-122 | appends a version with the next number and points the template at it |
| IssuanceContents.VersionSaved | certificates/views.py:111-121 | the new version has the canvas and one more than the template's greatest number, the template points at it, all else stays |
| IssuanceContents.SavedCanvasIsIssued | certificates/views.py:113-121 | what is issued after a save shows the saved canvas |
| Issuance.RepeatedRevocation | certificates/services.py:177-192 | revoking again changes nothing if and only if the caller's copy shows it revoked |
| IssuanceRuns.IssueIsARun | certificates/services.py:36-174 | an uninterrupted issuance is a run of the interleaving machine with one transaction in flight |
| IssuanceGuarantees.RunIsSound | certificates/services.py:36-213 | every run keeps all invariants: numbers in place, one certificate per key, counters exact, hashes sealed, events exact; certificates are only added |
| IssuanceGuarantees.EmptyIsSound | certificates/models.py:214-259 | tables without certificates satisfy all of these invariants, with any templates, versions and recipients and counters at zero; so they hold of every run that starts there |
| IssuanceGuarantees.SequencesHaveNoGaps | certificates/numbering.py:16-24 | the values of an organization's year are exactly 1 to last_value, one certificate each, in order of issue |
| IssuanceGuarantees.NumberAlwaysFree | certificates/models.py:215-219 | in years 1000 to 9999 the allocated number is never taken and no two certificates of an organization share one, through any change of prefix |
| IssuanceGuarantees.RepeatReturnsTheSame | certificates/services.py:54-61 | a non-empty key owns one certificate of its organization; a repeat past the flags returns it and changes no table, whatever the limit |
| IssuanceGuarantees.QuotaHolds | billing/entitlements.py:47-63 | with at most k issuances in flight the month's counter stays at or below limit + k - 1, with one at the limit; the counter is the number of certificates committed that month |
| IssuanceGuarantees.HashBreaksOnlyByRename | certificates/variables.py:56-72 | the stored hash equals the recomputed one if and only if the recipient still has the name of issue; otherwise a later certificate of the same recipient carries the new name |
| IssuanceGuarantees.CertificateKeepsCanvas | certificates/services.py:109-143 | no later step changes the number, recipient, dates, hash or canvas of an issued certificate |
| IssuanceGuarantees.QuotaBoundReached | billing/entitlements.py:54-63 | the bound is exact: for every k, limit and state with quota left, some run ends at limit + k - 1 |
| IssuanceGuarantees.PublicStatusMovesForward | certificates/services.py:177-192 | over any run, stale copies included, the status moves only from active to expired to revoked, and reads expired exactly after the expiry day unless revoked; reason and time stay until a stale copy rewrites them, and the revoked events are one plus those rewrites |
| BulkIssuance.ApplyMapping | certificates/bulk.py:74-80 | the loop builds the mapped row that the two lemmas below describe |
| BulkIssuance.LastColumnWins | certificates/bulk.py:74-80 | a mapped field holds the stripped text of the last column mapped to it |
| BulkIssuance.UnmappedFieldAbsent | certificates/bulk.py:76-78 | a field without a column is absent, and so is the empty field name |
| BulkIssuance.ValidateMappedRow | certificates/bulk.py:83-97 | collects the name, email and date problems of the row, in that order |
| BulkIssuance.RowErrors | certificates/bulk.py:83-97 | a row has no error if and only if it has a name, its email is empty or holds an @, and its normalised date is empty or reads as a date |
| BulkIssuance.ValidateBatchItems | certificates/bulk.py:100-111 | every item gets its verdict and errors in place; the report holds the invalid ones |
| BulkIssuance.Batch.ProcessItem | certificates/tasks.py:27-92 | one turn of the loop has the effect of one machine row, also when the enqueue raises after the issuance |
| BulkIssuance.Batch.Process | certificates/tasks.py:16-109 | the batch loop leaves tables, items, counters, status and report of the row-by-row run |
| BulkContents.RowErrorsDecided | certificates/bulk.py:83-97 | a row is told exactly its missing name, its email without @ and its date that spells none, in that order |
| BulkContents.RowAsks | certificates/tasks.py:43-82 | which column fills which field of the request |
| BulkContents.RowsGetTheirOwn | certificates/tasks.py:27-92 | after every run an issued row points at a certificate made from its own columns, an invalid or failed row keeps its reason, and the email error is there exactly when emails are sent, there is one, and the queue refused |
| BulkContents.RowsDoNotShare | certificates/tasks.py:83-86 | two issued rows have different certificates, in row order |
| BulkGuarantees.ReportLists | certificates/tasks.py:102-105 | the report names exactly the rows that are not issued, each with its own errors |
| BulkGuarantees.BatchAccounts | certificates/tasks.py:22-107 | success, errors, issued items, certificates of the batch and report length in exact balance; COMPLETED exactly when all rows are issued, FAILED exactly when there are errors and no certificate |
| BulkGuarantees.QuietBatchAccounts | certificates/tasks.py:22-107 | without enqueue failures success plus errors is the number of items, and success is the issued items and the certificates of the batch |
| BulkGuarantees.BatchFillsQuota | billing/entitlements.py:54-63 | a batch issues min(remaining, issuable) rows, and a row is issued exactly when it is issuable and fewer issuable rows came before it than quota remained |
| BulkGuarantees.RefusedRowsCostNothing | certificates/services.py:36-174 | a row that gets no certificate leaves every table as it was: no quota, no number |
| BulkGuarantees.NormalisedDatesFail | certificates/services.py:95-97 | in every run a validated row whose date needed normalising ends FAILED with an error, changes no table and counts one error |
| Amounts.BitPayWhole | billing/payments/bitpay.py:84-93 | for whole amounts BitPay accepts v against e exactly when v = e or 10e-5 <= v <= 10e+4 |
| Amounts.BitPayExact | billing/payments/bitpay.py:84-93 | the exact set of decimals BitPay accepts, with both rounding rules |
| Amounts.BitPayFree | billing/payments/bitpay.py:84-93 | for a price of 0 BitPay accepts -4.5 to 4.5 |
| Amounts.ZibalWhole | billing/payments/service.py:302-303 | Zibal accepts v against e exactly when v = 10e |
| Amounts.ZibalIsStricter | billing/payments/zibal.py:38-41 | BitPay accepts all that Zibal accepts; the price itself only BitPay |
| Payments.PaymentTransaction.MarkPaymentFailed | billing/payments/service.py:188-192 | the failure write sets status and clipped message and looks at nothing |
| Payments.PaymentTransaction.Cancel | billing/views.py:174-178 | the cancel write sets status and message and looks at nothing |
| Payments.PaymentTransaction.LockAndApply | billing/payments/service.py:255-266 | an applied row and a missing plan change nothing; otherwise the plan is applied once and the row is paid |
| Payments.PaymentTransaction.VerifyAndApply | billing/payments/service.py:207-266 | one callback alone: the row ends applied if and only if it was, or the verification succeeded with no amount or one that covers the price at its gateway, and there is a plan; the subscription moves exactly then |
| Payments.AcceptedIff | billing/payments/service.py:237-253 | the gateway's check accepts exactly the amounts that cover the price: ten times it for Zibal, the rounding ranges for BitPay |
| Payments.PaidMeansCovered | billing/payments/service.py:302-329 | in every run a paid payment had a successful verification with no amount, or for whole amounts v = e or 10e-5 <= v <= 10e+4 at BitPay and v = 10e at Zibal |
| Payments.ApplicationsCounted | billing/payments/service.py:255-266 | over any interleaving applications equal the failure and cancel writes that hit a paid row plus one if it is paid now; without such writes at most one |
| Payments.PaidNeedsAcceptedVerification | billing/payments/service.py:237-265 | a paid row had a successful verification with an absent or accepted amount, and its own plan was applied |
| Payments.PaidStaysPaid | billing/payments/service.py:203-211 | while no failure or cancel write touches it, a paid row, its applications and the subscription stay |
| Payments.FailureAfterPaidAppliesTwice | billing/payments/service.py:228-231 | a run in which a late failure write leads to two applications |
| Subscriptions.Account.ApplySubscriptionPlan | billing/subscription.py:16-55 | same running plan extends, everything else restarts; the API flag is not looked at for a first subscription |
| Subscriptions.PlanPeriod | billing/subscription.py:10-39 | a period is 2592000 or 31536000 seconds, from the old end when it extends and from now otherwise; the organization is entitled up to that second and no longer |
| Subscriptions.PaidTimeConserved | billing/entitlements.py:31-39 | entitled seconds plus paid time dropped at plan switches equal 2592000 for each month and 31536000 for each year bought plus the paid time left before |
| Subscriptions.SamePlanEnd | billing/subscription.py:28-39 | k payments for one plan end at the largest t_i + (k-i+1)·delta, with delta 30 or 365 days |
| Subscriptions.LaterWritesLast | billing/subscription.py:19-39 | when two payments overlap and the later one writes last, exactly when the row differs from the serial one, and that a second insert is refused exactly without a row |
| Subscriptions.EarlierWritesLast | billing/subscription.py:19-39 | when the earlier one writes last the row is never the serial one, but for two plans bought in one second without a row |
| Subscriptions.OverlapLosesTime | billing/subscription.py:28-39 | for one plan and either order the end is never later than the serial one, two extensions lose exactly one period, and the loss of a refused insert is exact |
| Webhooks.WebhookDelivery.PostDelivery | organizations/webhooks.py:66-108 | one attempt counts itself and ends in success or in the retry schedule |
| Webhooks.AttemptDecides | organizations/webhooks.py:81-118 | success exactly for an answer from 200 to 299; otherwise a failure with one attempt more and a retry 60, 300, 1800 or 7200 seconds later below five |
| Webhooks.DueAfterWait | organizations/tasks.py:25-29 | a saved attempt is taken up by the beat exactly when it failed below five attempts and its wait is over |
| Webhooks.SuccessNeedsAcceptance | organizations/webhooks.py:88-92 | in every run, overlapping or not, a success was answered 200 to 299 |
| Webhooks.SuccessIffTaken | organizations/webhooks.py:81-118 | when jobs cannot overlap, a delivery reads success if and only if some attempt was answered 200 to 299 |
| Webhooks.WebhookDelivery.ScheduleRetryInPlace | organizations/webhooks.py:111-118 | fewer than five attempts set the next retry time, otherwise the failure is final |
| Webhooks.EnqueueEvent | organizations/webhooks.py:25-54 | one pending delivery and one job for exactly the active webhooks that listen, in order |
| Webhooks.RetryPendingWebhooks | organizations/tasks.py:22-34 | queues one job for each of the first fifty due rows |
| Webhooks.DelayTable | organizations/webhooks.py:16-17 | the delay lookup stays in range and never reaches the last entry |
| Webhooks.SerialPostBound | organizations/webhooks.py:66-118 | when jobs cannot overlap: at most MAX_ATTEMPTS - 1 + Q POSTs besides crashed ones, and a retry time exactly below five attempts |
| Webhooks.SerialBoundIff | organizations/tasks.py:22-34 | that bound holds of all runs if and only if jobs of one delivery cannot overlap |
| Webhooks.OverlapExceedsSerialBound | organizations/tasks.py:22-34 | for any Q and number of workers of at least two, a crash-free run with 7 + Q POSTs |
| Webhooks.SerialQuiescence | organizations/webhooks.py:81-118 | with nothing outstanding a delivery succeeded, failed for good, waits for a beat that will take it, or only crashed |
| Webhooks.EndsWithinFive | organizations/webhooks.py:81-118 | with one outstanding job and no crash the fifth POST ends the delivery in success or permanent failure, and nothing changes or POSTs after that |
| Webhooks.SuccessIsFinal | organizations/tasks.py:17-18 | when jobs cannot overlap, success is followed by no POST and no change |
| Webhooks.SuccessIsKeptIff | organizations/tasks.py:8-34 | success is final in all runs if and only if jobs of one delivery cannot overlap |
| Webhooks.RetrySchedule | organizations/webhooks.py:111-118 | with one outstanding job and no crash, at most five POSTs, the n-th no earlier than the first plus the first n-1 delays |
| Webhooks.OverlappingPostBound | organizations/webhooks.py:66-118 | however jobs overlap, Q outstanding jobs make at most Q + Q^2 + ... + Q^5 POSTs, and each crash adds at most one such tree |
| Webhooks.OverlapUndoesSuccess | organizations/webhooks.py:99-107 | for all limits that let jobs overlap, a run in which a stale failure overwrites a success and the receiver is POSTed again |
| TokenRefresh.ApiClient.ProcessFailedQueue | frontend/src/api/client.ts:72-78 | every queued request is settled with the outcome, no other request changes, the queue is empty |
| TokenRefresh.ApiClient.OnAnswer | frontend/src/api/client.ts:97-120 | the interceptor up to its first await: reject, enqueue or lead |
| TokenRefresh.ApiClient.OnRefreshEnd | frontend/src/api/client.ts:122-136 | the leader settles the queue, repeats or rejects its own request and lowers the flag |
| TokenRefresh.AnswerDecides | frontend/src/api/client.ts:97-120 | which requests an answer ends, queues or makes the leader |
| TokenRefresh.RunIsSound | frontend/src/api/client.ts:66-137 | every event keeps single flight, exact settlement and the counts, and lowers a measure |
| TokenRefresh.SingleFlightRefresh | frontend/src/api/client.ts:66-137 | for n requests: one refresh at a time, no waiters without one, each waiter settled once with its own refresh's outcome, at most n refreshes, n + 1 sends each, 2n^2 + 3n events |
| TokenRefresh.RequestsAreToldTheTruth | frontend/src/api/client.ts:97-136 | in every run a request succeeds exactly when it was answered with success; login and refresh requests go out once and fail on a 401; other requests that did not lead fail on 401s only when a refresh failed; sends are counted exactly |
| TokenRefresh.NoDeadlock | frontend/src/api/client.ts:111-135 | while a request is not done some event is possible, so with the bound every request is answered |

## Left out

- HTTP to gateways and receivers, SMTP, file storage, PDF, QR and ZIP: only their outcomes appear, as inputs.
- SHA-256 and JSON: the hash is a constructor over the canonical payload, so equal hashes mean equal payloads.
- Authentication, roles, API scopes, generic create/update/destroy endpoints, React pages, migrations, settings, audit log: lookups and framework code.
- Other certificate and recipient fields (course code, score, phone, custom fields and the like): copied through without a decision.
- Column length limits and database integer widths.
- Unicode: `lower` changes ASCII letters only; texts are sequences of characters. `\w` is JavaScript's, which is ASCII.
- ISO week dates ("2024-W01-1"), which newer Pythons read: `IsoDates.FromIsoFormat` knows the two calendar forms.
- `render_variables`: it fills a dictionary field by field; its result is the input of `Substitution`.
- Names in `vars[key]` that JavaScript objects inherit (`constructor`, `toString`): `Substitution.SubstituteVars` looks up own names only.
- Plan lookup: the monthly limit is an input of every issuance; of `get_entitlements` only the test for a running period is modelled.
- `_status_is_success` and Zibal's result codes: whether a verification succeeded is an input.
- Finding the payment a callback belongs to, and the settings checks before the gateway call: a callback may give up before verifying (`Abandon`).
- Two issuances creating the same recipient at the same moment: a commit is one step, so the later one finds the recipient. Waiting on the number row, which orders commits of one year, is not modelled either.
- IssuanceGuarantees.RunIsSound: organizations are never renamed to an empty name, which the hashed issuer would otherwise fall back on.
- IssuanceGuarantees.NumberAlwaysFree: issue years before 1000 are excluded, where `Numbering.ShortYearsCollide` shows it fails.
- BulkGuarantees.BatchFillsQuota: issue years before 1000 are excluded for the same reason, and nobody else issues or changes the organization during the run.
- Substitution.BackendAgreesWithPreview: a literal holds no `{` and a placeholder's name no brace; values hold no `{`. For values that are such texts themselves `Substitution.AlwaysPreviewedIff` gives the condition; a value that opens a placeholder which the text behind it closes is not covered.
- Substitution.AlwaysFillsIff: values are texts of whole placeholders, as above.
- Webhooks.RetrySchedule: at one outstanding job per delivery; the clock is the one the database rows are compared with.
- Subscriptions.OverlapLosesTime: two overlapping payments, not more.
