# Loan ledger of the Quickcash loan backend, in Dafny

This project models the core of an Express/Sequelize loan backend and proves
properties of it. The core covers:

- how a borrower applies for a loan (`createLoan`);
- how an administrator approves or rejects the loan (`approveLoan`);
- how the borrower repays it (`make_payment`);
- the daily job that reminds borrowers two days before the due date
  (`sendDueDateReminders`);
- the paged loan and user listings (`getLoans`, `getallusers`).

The database becomes one in-memory store: the class
`Ledger.LoanLedger` holds a map from loan id to loan record and a sequence of
payment rows. Its methods run the handlers' steps in order. Each method is
proved to do three things:

- commit exactly what a pure outcome function of the old state describes;
- keep the store invariant `LedgerInvariant.LedgerInvariant`;
- move every stored loan only forward in its lifecycle (`LedgerInvariant.Evolves`).

The store invariant says three things:

- every loan has the shape its status implies: paid plus remaining equals the
  total, and remaining is never negative;
- at most one unsettled loan exists per borrower, and loan numbers are unique;
- every payment row is a COMPLETED payment of a stored loan, and a loan's paid
  amount is the sum of those rows.

Units:

- money is integer cents (ZMW 200 is 20000);
- the interest rate is in hundredths (0.15 is 15; the column's 100.00 is 10000);
- a time is a count of minutes since the epoch in server local time, and a
  calendar day is `t / 1440`.

The host supplies the clock, the random draws, the ids the database
generates, the outcome of each notification and the steps of the reminder
job that throw. These appear as parameters (`CreateEnv`, `ImageEnv`,
`PayEnv`, `now`, `undeliverable`, `throwing`).

Modules, one per part of the program:

| module | file | models |
|---|---|---|
| Common | common.dfy | the two user roles; number-to-text and ASCII case helpers; `Math.ceil` of a count |
| CollateralJson | collateral_json.dfy | `JSON.stringify` / `JSON.parse` of the collateral filename list |
| Loans | loan_model.dfy | the Loan record, its status enum, and the bounds of `Loan.init` |
| Payments | payment_model.dfy | the Payment record, its status enum, bounds and defaults |
| LoanNumbers | loan_numbers.dfy | `generateLoanNumber` |
| CollateralFiles | collateral_files.dfy | `saveBase64Image` and the checks of `getCollateralImage` |
| LoanController | loan_rules.dfy | `createLoan`, `approveLoan`, `getLoans` |
| PaymentController | payment_rules.dfy | `make_payment` and `txn_generator` |
| DueReminders | due_reminders.dfy | the selection and flag update of `sendDueDateReminders` |
| LedgerInvariant | ledger_invariant.dfy | the store invariant, and one preservation lemma per operation |
| Ledger | ledger.dfy | the store as a class, with the state-changing handlers as methods |
| UsersController | user_listing.dfy | `getallusers` |

Where the code and its apparent intent differ, the model follows the code:

- Approval writes ACTIVE, never APPROVED.
- The rate is fixed when the loan is created and read back at approval.
- A term that passes the schema but is not a whole number (2.5) is refused by
  the rate table.
- `make_payment` checks, in this order:
  1. that someone is logged in;
  2. that the amount is positive;
  3. that the loan exists;
  4. that its status is active or approved.

  An OVERDUE loan therefore cannot be paid, and nothing in the core ever sets
  OVERDUE.
- The reminder job logs how many loans it selected, not how many it flagged or delivered.
  `sendEmail` catches its own failure and returns `false`, which the job
  ignores, so a loan whose e-mail failed is flagged all the same and never
  reminded again. Only an exception from building the reminder or from
  `loan.update` ends the rest of the batch. src/services/email.ts defines no
  `generateLoanReminderTemplate`, so as written that call throws at the first
  selected loan that has a borrower, and the job flags nothing.
- `getLoans` counts with the hasMany `payments` include and without
  `distinct`, so `pagination.total` counts joined rows: a loan with k payments
  counts k times, a loan with none once. `total` and `pages` equal the number
  of matching loans only when none of them has two payments.
- The User model has no `name` and no `status` column. A non-empty `search` or
  `status` filter in `getallusers` therefore names a missing column, and the
  query fails with a 500.

## Model

| member | source | states |
|---|---|---|
| Common.NatToString | src/controllers/payementController.ts:134 | the decimal text of a number is a non-empty run of digits, with two or more digits exactly from 10 up |
| Common.NatToStringValue | src/controllers/payementController.ts:134 | the decimal text of a number reads back as that number |
| Common.NatToStringLength | src/controllers/payementController.ts:134 | a number below 10^k has at most k digits |
| Common.LowerAscii | src/controllers/loanController.ts:986 | `toLowerCase` maps each character and keeps the length |
| Common.UpperAscii | src/controllers/payementController.ts:135 | `toUpperCase` maps each character and keeps the length |
| Common.CeilDiv | src/controllers/usersController.ts:61 | `Math.ceil(n / d)` is the least r with n <= r*d |
| CollateralJson.Encode | src/models/Loan.ts:119-121 | `JSON.stringify` of a list is a bracketed text that `JSON.parse` reads back as the same list |
| CollateralJson.ReadImages | src/models/Loan.ts:115-118 | an absent or empty column reads as no images, and the encoding of any list reads as that list |
| CollateralJson.StoreImages | src/models/Loan.ts:119-121 | the setter always stores a non-empty JSON text |
| CollateralJson.EscapeParses | src/models/Loan.ts:115-121 | the string escaping of `JSON.stringify` is undone by the string reader of `JSON.parse` |
| CollateralJson.ItemsParse | src/models/Loan.ts:115-121 | the elements of an encoded non-empty array parse back to the same list |
| CollateralJson.CollateralRoundTrip | src/models/Loan.ts:112-122 | reading the column after storing any list of filenames gives back that list |
| CollateralJson.EmptyCollateral | src/models/Loan.ts:115-118 | an absent or empty column reads as [], and [] is stored as "[]" |
| Loans.ParseStatus | src/models/Loan.ts:6-14 | exactly the seven enum names are loan statuses, and each maps back to its name |
| Loans.NewLoan | src/models/Loan.ts:127-177 | a created loan is PENDING with paidAmount 0, reminderSent false, every decision field unset, and the images stored as a readable list |
| Payments.ParseStatus | src/models/Payment.ts:6-10 | exactly pending, completed and failed are payment statuses |
| Payments.Create | src/models/Payment.ts:55-83 | a row is stored iff the amount is at least 0.01, a payment method of at most 50 characters is given and any transaction id fits 100 characters; status defaults to pending and paymentDate to now; the given method, transaction id, notes and `receivedBy` (the column src/models/index.ts:23 adds) are stored |
| LoanNumbers.Suffix | src/controllers/loanController.ts:1661 | `Math.floor(1000 + r * 9000)` lies in [1000, 9999] |
| LoanNumbers.ParseLoanNumber | src/controllers/loanController.ts:1663 | a text reads as a loan number exactly when it has the LN-ddmmhhmm-nnnn shape |
| LoanNumbers.LoanNumber | src/controllers/loanController.ts:1652-1664 | for real local-time fields a generated number is 16 characters, within the 20 of the column |
| LoanNumbers.LoanNumberRoundTrip | src/controllers/loanController.ts:1652-1664 | a generated number reads back as the day, month, hour, minute and suffix it was made from |
| LoanNumbers.LayoutRoundTrip | src/controllers/loanController.ts:1655-1663 | the padded fields joined as `LN-ddMMhhmm-ssss` parse back as those fields |
| CollateralFiles.AlnumRun | src/controllers/loanController.ts:981 | the `[a-zA-Z0-9]+` group is the longest alphanumeric prefix |
| CollateralFiles.ParseDataUrl | src/controllers/loanController.ts:981-987 | a match splits the text into type and data, and putting them back gives the text |
| CollateralFiles.ParseDataUrlComplete | src/controllers/loanController.ts:981-987 | every well-formed data URL matches, and with its own type and data |
| CollateralFiles.SaveImage | src/controllers/loanController.ts:975-1017 | a text that is not a base64 image data URL is an invalid format; otherwise the lower-cased type decides: outside the whitelist it is refused with that type, over 5 MB too large, else the file is named `user_timestamp_hex.ext` and is later served as that type |
| CollateralFiles.CheckAndName | src/controllers/loanController.ts:989-1010 | a type is accepted iff whitelisted and the data is at most 5 MB; the name ends in the type's extension and is served with the type's content type |
| CollateralFiles.SaveAll | src/controllers/loanController.ts:1083-1086 | when saving succeeds, there is one filename per image, in input order, each the name that image was saved under |
| CollateralFiles.SaveAllStopsAtFirstFailure | src/controllers/loanController.ts:1082-1098 | a failed save fails with the error of the first image that could not be saved, and every image before it was saved |
| CollateralFiles.SchemaImageHasAllowedType | src/controllers/loanController.ts:936-993 | an image that passes the schema pattern is never refused as an unsupported type |
| CollateralFiles.LastDot | src/controllers/loanController.ts:1164 | the position of the last dot, or that there is none |
| CollateralFiles.Extname | src/controllers/loanController.ts:1164 | `path.extname` is a proper suffix that starts with the only dot it contains, or empty when no dot follows the first character |
| CollateralFiles.ServeCollateral | src/controllers/loanController.ts:1147-1171 | an empty name, `..`, `/` or `\` gives 400; a missing file gives 404; otherwise the content type of the extension |
| CollateralFiles.ContentTypeOfExtension | src/controllers/loanController.ts:1164-1171 | a name whose lower-cased extension is that of a whitelisted type is served as that type |
| CollateralFiles.TableEntry | src/controllers/loanController.ts:1164-1171 | the extension table maps each whitelisted type's extension to that type's content type |
| CollateralFiles.SavedFileServedAsItsType | src/controllers/loanController.ts:998-1171 | a file saved under a whitelisted type is served with that type's content type |
| CollateralFiles.SavedFilePassesGuard | src/controllers/loanController.ts:998-1152 | a saved filename passes the traversal guard when the user id and hex part have no dot or slash |
| LoanController.RateFor | src/controllers/loanController.ts:1067-1079 | a rate exists exactly for 1, 2, 3 and 4 weeks; it is 15, 25, 35 or 45 hundredths, within the column's bounds |
| LoanController.ApplicationOutcome | src/controllers/loanController.ts:1037-1111 | schema, then the unsettled-loan gate, then rate, then images (failing with the first failing image's error), then insert (refused for a taken id or number); an accepted loan is PENDING, undecided and unpaid, with the borrower, amount, table rate, purpose, details, generated number and saved filenames |
| LoanController.SchemaValidImagesHaveKnownTypes | src/controllers/loanController.ts:936-1086 | after the schema has passed, saving the images fails only on an unreadable data URL or a size over 5 MB, never on the type |
| LoanController.ApplicationAcceptedIff | src/controllers/loanController.ts:1037-1111 | an application is accepted iff every check passes |
| LoanController.FractionalTermRejected | src/controllers/loanController.ts:1068-1079 | a valid application with a fractional term is refused as an invalid term |
| LoanController.SettledLoansDoNotBlock | src/controllers/loanController.ts:1047-1062 | rejected, completed and overdue loans do not trip the gate |
| LoanController.OneUnsettledLoanBlocks | src/controllers/loanController.ts:1047-1062 | one active, pending, defaulted or approved loan refuses a valid application |
| LoanController.ParseDecision | src/controllers/loanController.ts:961-964 | the body is valid iff status is approved or rejected and any reason is non-empty |
| LoanController.RoundTotal | src/controllers/loanController.ts:1350-1366 | the total is the amount with interest, rounded to the nearest cent |
| LoanController.Decided | src/controllers/loanController.ts:1349-1397 | approval writes ACTIVE, start now, end after 7 × termWeeks days and total = remaining = the amount with interest to the nearest cent; rejection writes REJECTED and leaves dates and balance; both keep the application, paid amount and reminder flag, and write approver, time and reason |
| LoanController.DecisionOutcome | src/controllers/loanController.ts:1322-1397 | a decision is stored iff the body parses, the loan exists and is PENDING and its borrower exists; the refusals come in that order; a decision keeps the application fields and writes approver, time and reason |
| LoanController.DecisionIsOneShot | src/controllers/loanController.ts:1335-1337 | after a decision is stored, every later decision on that loan is refused |
| LoanController.ApprovalBalance | src/controllers/loanController.ts:1349-1367 | approval gives ACTIVE, total = remaining = the rounded total, start now, and end after 7 × termWeeks days; it keeps paid and the reminder flag |
| LoanController.RejectionKeepsBalance | src/controllers/loanController.ts:1391-1397 | rejection gives REJECTED and leaves the dates, total, remaining, paid and the flag as they were |
| LoanController.TotalCoversPrincipal | src/controllers/loanController.ts:1350-1365 | with a non-negative rate, the rounded total is at least the amount |
| LoanController.ListLoans | src/controllers/loanController.ts:1196-1252 | a borrower lists only their own loans, and a status filter narrows; offset is (page−1)·limit; total is the count of the loans joined with their payments; pages is the ceiling of total/limit; the listing succeeds iff the status is absent, empty or a known one and limit and offset are >= 0 |
| LoanController.ExtraRows | src/controllers/loanController.ts:1209-1232 | the payment rows of the loans are at least the number of loans that have one, and equal to it exactly when no loan has two |
| LoanController.JoinCountIff | src/controllers/loanController.ts:1209-1232 | the join count is at least the number of loans, and equal to it exactly when no loan has more than one payment |
| LoanController.ListedTotalIff | src/controllers/loanController.ts:1209-1250 | `pagination.total` is at least the number of matching loans, and equals it exactly when none of them has two payments |
| LoanController.BorrowerSeesOwnLoans | src/controllers/loanController.ts:1199-1207 | every listed loan is stored, belongs to a borrower-requester, and has the status filtered for |
| LoanController.AdminCountsAll | src/controllers/loanController.ts:1199-1207 | an administrator without a status filter counts every stored loan |
| PaymentController.DigitRun | src/controllers/payementController.ts:136 | the longest run of leading digits |
| PaymentController.TxnId | src/controllers/payementController.ts:133-137 | a transaction id reads back as its timestamp and its (at most six) upper-cased random characters |
| PaymentController.TxnIdRoundTrip | src/controllers/payementController.ts:133-137 | `txn-`, the timestamp's digits, `-lnp-` and the random part parse back as the timestamp and the random part |
| PaymentController.TxnIdFits | src/controllers/payementController.ts:133-137 | a transaction id fits the 100-character column for any timestamp of up to 80 digits |
| PaymentController.Settle | src/controllers/payementController.ts:64-84 | a settled loan keeps its application and decision, adds the amount to paid with paid + remaining = total, and is COMPLETED when nothing is left, else keeps its status |
| PaymentController.PaymentOutcome | src/controllers/payementController.ts:13-118 | the guards in the order of the source; past them a payment is committed iff the row is valid and its id is free, and is otherwise a store failure; a committed payment adds the amount to paid, leaves remaining >= 0 with paid + remaining = total, gives COMPLETED exactly at 0, writes a COMPLETED row for this loan with a txn id, received by the requester, and reports the balance |
| PaymentController.OverpaymentIff | src/controllers/payementController.ts:64-74 | a payment past the guards is refused as an overpayment iff it exceeds total − paid |
| PaymentController.UnsetTotalNeverPayable | src/controllers/payementController.ts:59-74 | a loan without a total cannot be paid at all |
| PaymentController.OnlyActiveOrApprovedPayable | src/controllers/payementController.ts:49-56 | pending, rejected, completed, defaulted and overdue loans are refused before any balance is computed |
| PaymentController.ExactPaymentCompletes | src/controllers/payementController.ts:64-118 | paying exactly the balance completes the loan and reports 0 remaining |
| DueReminders.InWindowIff | src/services/automated_job/due_loan_reminders.ts:116-125 | 00:00 to 23:59:59.999 two days ahead is exactly the calendar day after tomorrow |
| DueReminders.Selected | src/services/automated_job/due_loan_reminders.ts:128-135 | a loan is selected iff it is active, not yet reminded, and ends on the day after tomorrow |
| DueReminders.MarkReminded | src/services/automated_job/due_loan_reminders.ts:158 | flagging keeps the set of stored loans |
| DueReminders.MarkWritesOnlyTheFlag | src/services/automated_job/due_loan_reminders.ts:144-159 | flagging writes reminderSent of the flagged loans and nothing else |
| DueReminders.SweepIdempotent | src/services/automated_job/due_loan_reminders.ts:128-158 | a second run on the same day selects what the first selected, minus the loans it flagged |
| DueReminders.MarkTwice | src/services/automated_job/due_loan_reminders.ts:158 | flagging the same loans twice is flagging them once |
| LedgerInvariant.PaidTotalAppend | src/controllers/payementController.ts:96-105 | appending a row adds its amount to its loan's payment sum |
| LedgerInvariant.BalanceOfStoredLoan | src/controllers/payementController.ts:59-84 | in every reachable state: paid is the sum of the loan's payment rows and >= 0; paid + remaining = total when a total is set; remaining >= 0; a completed loan has 0 remaining and an active one more |
| LedgerInvariant.UnsettledShrinks | src/controllers/loanController.ts:1047-1062 | an update that unsettles no loan keeps one unsettled loan per borrower |
| LedgerInvariant.InsertPreserves | src/controllers/loanController.ts:1101-1111 | inserting a fresh well-formed loan for a borrower with no unsettled loan, under a free id and number, keeps the invariant |
| LedgerInvariant.CreatePreserves | src/controllers/loanController.ts:1037-1111 | an accepted application keeps the invariant and only adds a loan |
| LedgerInvariant.DecidedWellFormed | src/controllers/loanController.ts:1349-1397 | a decided pending loan is well formed in its new status and a lifecycle step of the old one |
| LedgerInvariant.DecidePreserves | src/controllers/loanController.ts:1322-1397 | a stored decision keeps the invariant, and every loan moves only forward |
| LedgerInvariant.RepaidWellFormed | src/controllers/payementController.ts:59-84 | a repayment as the payment outcome describes it leaves a well-formed loan and is a lifecycle step of the old one |
| LedgerInvariant.RepayPreserves | src/controllers/payementController.ts:77-105 | the loan update together with the new row keeps the invariant |
| LedgerInvariant.PayPreserves | src/controllers/payementController.ts:13-118 | a committed payment keeps the invariant, and every loan moves only forward |
| LedgerInvariant.MarkKeepsShapes | src/services/automated_job/due_loan_reminders.ts:144-159 | flagging selected loans keeps every loan well formed and numbers unique |
| LedgerInvariant.MarkPreserves | src/services/automated_job/due_loan_reminders.ts:144-159 | flagging any subset of the selected loans keeps the invariant |
| LedgerInvariant.FlaggedNeverRemindedAgain | src/services/automated_job/due_loan_reminders.ts:128-158 | a flagged loan, its e-mail delivered or not, is never selected by a later run, whatever the operations in between |
| Ledger.SaveCollateralImages | src/controllers/loanController.ts:1083-1086 | the loop that pushes each saved filename yields what `SaveAll` describes |
| Ledger.LoanLedger.CreateLoan | src/controllers/loanController.ts:1033-1111 | the store gains exactly the accepted loan or stays as it was, and keeps the invariant |
| Ledger.LoanLedger.Apply | src/controllers/loanController.ts:1037-1111 | the steps of `createLoan` commit the application outcome, and the payments are untouched |
| Ledger.LoanLedger.Decide | src/controllers/loanController.ts:1319-1397 | the stored loan is updated in place to the decision outcome, or nothing changes; the invariant holds |
| Ledger.LoanLedger.MakePayment | src/controllers/payementController.ts:13-118 | a committed payment updates the loan and appends the row, a refused one changes nothing; the invariant holds |
| Ledger.LoanLedger.ApplyPayment | src/controllers/payementController.ts:14-108 | the guards and the transaction commit the payment outcome |
| Ledger.LoanLedger.SendDueDateReminders | src/services/automated_job/due_loan_reminders.ts:113-165 | only selected loans with a borrower and no throwing step are flagged, whether their e-mail was delivered or not, and only their flag changes; the undelivered ones are reported; a full run flags every selected loan with a borrower and logs the number selected; an error means a selected loan with a borrower threw; when every step throws, as the missing template function makes it, nothing is flagged; the invariant holds |
| Ledger.LoanLedger.RemindEach | src/services/automated_job/due_loan_reminders.ts:144-161 | loans without a borrower are skipped and stay unflagged; every other loan is flagged after its e-mail, delivered or not, unless its template or update throws, which ends the batch |
| DueReminders.VisitSkipped | src/services/automated_job/due_loan_reminders.ts:145-146 | skipping a loan without a borrower keeps what the loop knows |
| DueReminders.VisitFlagged | src/services/automated_job/due_loan_reminders.ts:148-158 | flagging a loan with a borrower keeps what the loop knows, recording it as undelivered when its e-mail failed |
| UsersController.PageParam | src/controllers/usersController.ts:25-26 | a missing, non-numeric or zero value takes the default; any other number is kept |
| UsersController.BuildWhere | src/controllers/usersController.ts:35-50 | each filter key is present iff its query string is non-empty, with that string (search as %search%) |
| UsersController.WithRole | src/controllers/usersController.ts:44-46 | the role filter keeps exactly the rows with that role, and no filter keeps all |
| UsersController.WithRoleCounts | src/controllers/usersController.ts:44-58 | each row with the role is kept as often as the table holds it, others not at all |
| UsersController.WithRoleAppend | src/controllers/usersController.ts:44-58 | the filter keeps table order: filtering a concatenation concatenates the filtered parts |
| UsersController.Window | src/controllers/usersController.ts:53-58 | LIMIT/OFFSET take `limit` rows from `offset` on, fewer at the end |
| UsersController.FindAndCountAll | src/controllers/usersController.ts:53-58 | the query succeeds iff it has no name or status condition, any role is an ENUM value, and limit and offset are >= 0; it then counts the role's rows and returns the window |
| UsersController.GetAllUsers | src/controllers/usersController.ts:6-88 | no requester is 401 and a borrower is 403, whatever the query; an administrator gets the count, the page of rows, totalPages = ceil(count/limit), hasNext iff page < totalPages and hasPrevious iff page > 1 |
| UsersController.HasNextIff | src/controllers/usersController.ts:61-62 | page < ceil(count/limit) iff page·limit < count |
| UsersController.NextPageNonEmptyIff | src/controllers/usersController.ts:61-62 | hasNext holds exactly when the next page has rows |
| UsersController.RowOnItsPage | src/controllers/usersController.ts:27-61 | every matching row appears on page i/limit + 1, at position i mod limit, within the page count |

## Left out

- E-mail: sending and the templates of src/services/email.ts. `make_payment` sends no e-mail. In `createLoan` and `approveLoan`, a failed e-mail never changes the store, so it is not modelled. In the reminder job, the borrowers whose e-mail `sendEmail` fails to send are the `undeliverable` set, and the loans whose template call or `loan.update` throws are the `throwing` set.
- Authentication: JWT and bcrypt live in authController and the middleware. A requester is given as an id and role, or as absent.
- Database: transactions, locking and concurrency are not modelled. Every operation here runs alone, and a rollback leaves the store as it was. The `loanUpdateCount === 0` branch of `make_payment` cannot happen once the loan was found, so it is not modelled.
- Floating point: JavaScript numbers, `Number(...)` and `Math.round(x * 100) / 100`. The model uses integer cents, rounding half up. Sub-cent request amounts are not modelled.
- Dates: `setDate`, `setHours` and local time are a minute count and `t / 1440`. Daylight-saving changes and month ends are not modelled. One `now` stands for the several `new Date()` calls of one request.
- Randomness and time: `Math.random`, `crypto.randomBytes` and `Date.now()` are parameters.
- Files: writing and streaming collateral files, `ensureUploadDirectory`, and the `cleanupImages` loop, which deletes files and changes no stored state. The existence of a file is a parameter of `ServeCollateral`. Decoding base64 is a size parameter.
- Requests: body validation keeps only the bounds that decide acceptance. Joi's unknown-key rules, type conversion and messages are left out, and so are the optional fields at src/controllers/loanController.ts:952-958. Query strings are given already as parsed numbers or as absent.
- Strings: lengths are counted in Dafny characters, not UTF-16 code units. Case mapping is ASCII only.
- JSON: the model's collateral decoder reads the text `JSON.stringify` writes (no whitespace between tokens). A hand-written column in any other JSON layout is not read.
- `getLoanById` and `AdminDashBoard` are not modelled. They are read-only queries and aggregate reports that change nothing.
- LoanController.ListLoans: the rows `getLoans` returns (with their `user`, `approver` and `payments` attributes and image URLs) and their order are not modelled; of its includes, only the effect of the `payments` join on the count is.
- Not modelled at all: the overdue sweep `handleOverdueLoans` imported by src/services/triggers.ts, which is not defined in the reminder job file; the broken route imports; the compiled dist/ files; and the commented-out earlier revisions.
