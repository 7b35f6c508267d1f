/** The rules of src/controllers/loanController.ts, with the database
    replaced by the map of stored loans and the users table by the set of
    existing user ids:
    - `createLoanSchema` and the checks of `createLoan` (905-949, 1033-1111);
    - `approveLoanSchema` and the one-shot decision of `approveLoan`
      (961-964, 1319-1397);
    - the filter and pagination arithmetic of `getLoans` (1196-1258).

    Amounts are in cents, the interest rate in hundredths and times in
    minutes since the epoch, as in module Loans. */
module LoanController {
  import opened Common
  import opened Loans
  import LoanNumbers
  import CollateralFiles
  import Payments

  // ---------------------------------------------------------------------
  // Applying for a loan

  /** The validated request body of `createLoan`. The term is a real
      number: Joi's `number().min(1).max(4)` lets 2.5 through. */
  datatype LoanApplication = LoanApplication(
    amount: int,
    termWeeks: real,
    purpose: string,
    collateralDetails: string,
    collateralImages: seq<string>)

  /** `createLoanSchema.validate` succeeds. */
  predicate SchemaValid(app: LoanApplication) {
    && MinAmount <= app.amount <= MaxAmount
    && MinTerm as real <= app.termWeeks <= MaxTerm as real
    && 3 <= |app.purpose| <= 500
    && 10 <= |app.collateralDetails| <= 500
    && 1 <= |app.collateralImages| <= 10
    && forall i :: 0 <= i < |app.collateralImages| ==> CollateralFiles.SchemaImagePattern(app.collateralImages[i])
  }

  /** The rate `switch`: 0.15, 0.25, 0.35 and 0.45 for one to four weeks,
      in hundredths; no rate for any other term. */
  function RateFor(termWeeks: real): (r: Option<int>)
    ensures r.Some? <==> (termWeeks == 1.0 || termWeeks == 2.0 || termWeeks == 3.0 || termWeeks == 4.0)
    ensures r.Some? ==> r.value == 5 + 10 * termWeeks.Floor && MinRate <= r.value <= MaxRate
  {
    if termWeeks == 1.0 then Some(15)
    else if termWeeks == 2.0 then Some(25)
    else if termWeeks == 3.0 then Some(35)
    else if termWeeks == 4.0 then Some(45)
    else None
  }

  /** The statuses that the "multiple unsettled loans" query looks for. */
  predicate Unsettled(s: LoanStatus) {
    s == Active || s == Pending || s == Defaulted || s == Approved
  }

  predicate HasUnsettledLoan(loans: map<string, Loan>, userId: string) {
    exists id :: id in loans && loans[id].userId == userId && Unsettled(loans[id].status)
  }

  predicate NumberTaken(loans: map<string, Loan>, loanNumber: string) {
    exists id :: id in loans && loans[id].loanNumber == loanNumber
  }

  /** What the host supplies to one application: the id the database
      generates, the clock and random draw of `generateLoanNumber`, and
      one `ImageEnv` per image. */
  datatype CreateEnv = CreateEnv(
    loanId: string,
    clock: LoanNumbers.Clock,
    suffixDraw: real,
    images: seq<CollateralFiles.ImageEnv>)

  predicate ValidCreateEnv(env: CreateEnv) {
    LoanNumbers.ValidClock(env.clock) && 0.0 <= env.suffixDraw < 1.0
  }

  datatype ApplyError =
    | ValidationFailed                             // 400, schema message
    | UnsettledLoan                                // "You cannot have multiple unsettled loans"
    | InvalidTerm                                  // 400, "Only 1–4 weeks are allowed"
    | ImageFailed(cause: CollateralFiles.ImageError) // 400, "Image processing error"
    | StoreRejected                                // 500, the insert fails

  /** `createLoan`: the stored loan, or why none was stored. The checks run
      in the order of the source: schema, unsettled loan, rate, images, and
      the insert, which fails on a taken id or loan number. */
  function ApplicationOutcome(loans: map<string, Loan>, userId: string, app: LoanApplication, env: CreateEnv): (r: Result<Loan, ApplyError>)
    requires ValidCreateEnv(env) && |env.images| == |app.collateralImages|
    ensures !SchemaValid(app) ==> r == Err(ValidationFailed)
    ensures SchemaValid(app) && HasUnsettledLoan(loans, userId) ==> r == Err(UnsettledLoan)
    ensures SchemaValid(app) && !HasUnsettledLoan(loans, userId) && RateFor(app.termWeeks).None?
            ==> r == Err(InvalidTerm)
    ensures var saved := CollateralFiles.SaveAll(app.collateralImages, userId, env.images);
            (SchemaValid(app) && !HasUnsettledLoan(loans, userId) && RateFor(app.termWeeks).Some? && saved.Err?)
            ==> r == Err(ImageFailed(saved.error))
    ensures (SchemaValid(app) && !HasUnsettledLoan(loans, userId) && RateFor(app.termWeeks).Some?
             && CollateralFiles.SaveAll(app.collateralImages, userId, env.images).Ok?
             && (env.loanId in loans || NumberTaken(loans, LoanNumbers.LoanNumber(env.clock, env.suffixDraw))))
            ==> r == Err(StoreRejected)
    ensures r.Ok? ==> && SchemaValid(app) && !HasUnsettledLoan(loans, userId)
                      && r.value.id == env.loanId && env.loanId !in loans
                      && !NumberTaken(loans, r.value.loanNumber)
                      && r.value.loanNumber == LoanNumbers.LoanNumber(env.clock, env.suffixDraw)
                      && r.value.userId == userId && r.value.amount == app.amount
                      && r.value.termWeeks as real == app.termWeeks
                      && RateFor(app.termWeeks) == Some(r.value.interestRate)
                      && r.value.status == Pending && r.value.paidAmount == 0 && !r.value.reminderSent
                      && Undecided(r.value) && FieldsValid(r.value)
                      && r.value.purpose == app.purpose
                      && r.value.collateralDetails == Some(app.collateralDetails)
                      && CollateralImages(r.value).Some?
                      && CollateralFiles.SaveAll(app.collateralImages, userId, env.images) == Ok(CollateralImages(r.value).value)
  {
    if !SchemaValid(app) then Err(ValidationFailed)
    else if HasUnsettledLoan(loans, userId) then Err(UnsettledLoan)
    else
      var saved := CollateralFiles.SaveAll(app.collateralImages, userId, env.images);
      var number := LoanNumbers.LoanNumber(env.clock, env.suffixDraw);
      match RateFor(app.termWeeks)
      case None => Err(InvalidTerm)
      case Some(rate) =>
        if saved.Err? then Err(ImageFailed(saved.error))
        else if env.loanId in loans || NumberTaken(loans, number) then Err(StoreRejected)
        else Ok(NewLoan(env.loanId, number, userId, app.amount, rate, app.termWeeks.Floor,
                        saved.value, app.purpose, Some(app.collateralDetails)))
  }

  /** An application succeeds exactly when it passes the schema, the
      borrower has no unsettled loan, the term is a whole number of weeks,
      every image is saved and the generated id and number are free. */
  lemma ApplicationAcceptedIff(loans: map<string, Loan>, userId: string, app: LoanApplication, env: CreateEnv)
    requires ValidCreateEnv(env) && |env.images| == |app.collateralImages|
    ensures ApplicationOutcome(loans, userId, app, env).Ok? <==>
              && SchemaValid(app) && !HasUnsettledLoan(loans, userId)
              && RateFor(app.termWeeks).Some?
              && CollateralFiles.SaveAll(app.collateralImages, userId, env.images).Ok?
              && env.loanId !in loans
              && !NumberTaken(loans, LoanNumbers.LoanNumber(env.clock, env.suffixDraw))
  {
  }

  /** A term inside the schema's [1, 4] that is not a whole number passes
      validation and is then refused by the rate table. */
  lemma FractionalTermRejected(loans: map<string, Loan>, userId: string, app: LoanApplication, env: CreateEnv)
    requires ValidCreateEnv(env) && |env.images| == |app.collateralImages|
    requires SchemaValid(app) && !HasUnsettledLoan(loans, userId)
    requires app.termWeeks.Floor as real != app.termWeeks
    ensures ApplicationOutcome(loans, userId, app, env) == Err(InvalidTerm)
  {
  }

  /** Every image of an application that passed the schema has a
      whitelisted type, so saving the images can fail on the content or the
      size of an image but never on its type. */
  lemma SchemaValidImagesHaveKnownTypes(app: LoanApplication, userId: string, env: seq<CollateralFiles.ImageEnv>)
    requires SchemaValid(app) && |env| == |app.collateralImages|
    ensures var saved := CollateralFiles.SaveAll(app.collateralImages, userId, env);
            saved.Err? ==> saved.error == CollateralFiles.InvalidFormat || saved.error == CollateralFiles.TooLarge
  {
    var images := app.collateralImages;
    var saved := CollateralFiles.SaveAll(images, userId, env);
    if saved.Err? {
      CollateralFiles.SaveAllStopsAtFirstFailure(images, userId, env);
      var i :| 0 <= i < |images| && CollateralFiles.SaveImage(images[i], userId, env[i]) == Err(saved.error)
               && forall j :: 0 <= j < i ==> CollateralFiles.SaveImage(images[j], userId, env[j]).Ok?;
      CollateralFiles.SchemaImageHasAllowedType(images[i], userId, env[i]);
    }
  }

  /** Rejected, completed and overdue loans do not stop a new application:
      a borrower whose loans all have one of those statuses gets past the
      gate. */
  lemma SettledLoansDoNotBlock(loans: map<string, Loan>, userId: string)
    requires forall id :: id in loans && loans[id].userId == userId ==>
               loans[id].status == Rejected || loans[id].status == Completed || loans[id].status == Overdue
    ensures !HasUnsettledLoan(loans, userId)
  {
  }

  /** One loan in any of the four unsettled statuses is enough to refuse. */
  lemma OneUnsettledLoanBlocks(loans: map<string, Loan>, userId: string, app: LoanApplication, env: CreateEnv, id: string)
    requires ValidCreateEnv(env) && |env.images| == |app.collateralImages|
    requires SchemaValid(app) && id in loans && loans[id].userId == userId && Unsettled(loans[id].status)
    ensures ApplicationOutcome(loans, userId, app, env) == Err(UnsettledLoan)
  {
  }

  // ---------------------------------------------------------------------
  // Approving or rejecting

  /** The request body of `approveLoan`, as far as the schema reads it. */
  datatype DecisionBody = DecisionBody(status: Option<string>, reason: Option<string>)

  datatype Verdict = Approve | Reject

  /** `approveLoanSchema.validate`: the status must be "approved" or
      "rejected"; a reason, when present, must be a non-empty string
      (Joi refuses the empty string). */
  function ParseDecision(b: DecisionBody): (r: Option<(Verdict, Option<string>)>)
    ensures r.Some? <==> (b.status == Some("approved") || b.status == Some("rejected")) && b.reason != Some("")
    ensures r.Some? ==> (r.value.0 == Approve <==> b.status == Some("approved")) && r.value.1 == b.reason
  {
    if b.reason == Some("") then None
    else if b.status == Some("approved") then Some((Approve, b.reason))
    else if b.status == Some("rejected") then Some((Reject, b.reason))
    else None
  }

  /** `Math.round(total * 100) / 100` for `total = amount + amount * rate`,
      in cents: the cent nearest to the exact total, halves rounded up. */
  function RoundTotal(amount: int, interestRate: int): (t: int)
    ensures 100 * t - 50 <= amount * (100 + interestRate) < 100 * t + 50
  {
    (amount * (100 + interestRate) + 50) / 100
  }

  /** `endDate.setDate(startDate.getDate() + termWeeks * 7)`. */
  function EndDate(start: int, termWeeks: int): int {
    start + termWeeks * 7 * MinutesPerDay
  }

  /** The two `loan.update` calls: approval writes ACTIVE with the dates and
      the balance, rejection writes REJECTED with the decision fields only. */
  function Decided(l: Loan, v: Verdict, reason: Option<string>, actorId: string, now: int): (d: Loan)
    ensures && SameApplication(l, d) && d.paidAmount == l.paidAmount && d.reminderSent == l.reminderSent
            && d.approvedBy == Some(actorId) && d.approvedAt == Some(now) && d.approvalReason == reason
    ensures v.Approve? ==> && d.status == Active && d.startDate == Some(now)
                           && d.endDate == Some(now + 7 * l.termWeeks * MinutesPerDay)
                           && d.totalAmount.Some? && d.remainingAmount == d.totalAmount
                           && 100 * d.totalAmount.value - 50 <= l.amount * (100 + l.interestRate) < 100 * d.totalAmount.value + 50
    ensures v.Reject? ==> && d.status == Rejected && d.startDate == l.startDate && d.endDate == l.endDate
                          && d.totalAmount == l.totalAmount && d.remainingAmount == l.remainingAmount
  {
    match v
    case Approve =>
      var total := RoundTotal(l.amount, l.interestRate);
      l.(status := Active, approvedBy := Some(actorId), approvedAt := Some(now), approvalReason := reason,
         startDate := Some(now), endDate := Some(EndDate(now, l.termWeeks)),
         totalAmount := Some(total), remainingAmount := Some(total))
    case Reject =>
      l.(status := Rejected, approvedBy := Some(actorId), approvedAt := Some(now), approvalReason := reason)
  }

  datatype DecideError =
    | InvalidDecision   // 400, schema message
    | LoanNotFound      // 404
    | AlreadyProcessed  // 400, "Loan has already been processed"
    | BorrowerNotFound  // 404

  /** `approveLoan`: the updated loan, or why nothing was written. */
  function DecisionOutcome(loans: map<string, Loan>, users: set<string>, loanId: string,
                           body: DecisionBody, actorId: string, now: int): (r: Result<Loan, DecideError>)
    ensures r.Ok? <==> && ParseDecision(body).Some? && loanId in loans
                       && loans[loanId].status == Pending && loans[loanId].userId in users
    ensures r.Ok? ==> && ParseDecision(body).Some? && loanId in loans
                      && loans[loanId].status == Pending && loans[loanId].userId in users
                      && SameApplication(loans[loanId], r.value)
                      && r.value.approvedBy == Some(actorId) && r.value.approvedAt == Some(now)
                      && r.value.approvalReason == body.reason
                      && (r.value.status == Active <==> body.status == Some("approved"))
                      && (r.value.status == Rejected <==> body.status == Some("rejected"))
    ensures ParseDecision(body).None? ==> r == Err(InvalidDecision)
    ensures ParseDecision(body).Some? && loanId !in loans ==> r == Err(LoanNotFound)
    ensures ParseDecision(body).Some? && loanId in loans && loans[loanId].status != Pending
            ==> r == Err(AlreadyProcessed)
    ensures (ParseDecision(body).Some? && loanId in loans && loans[loanId].status == Pending
             && loans[loanId].userId !in users) ==> r == Err(BorrowerNotFound)
  {
    match ParseDecision(body)
    case None => Err(InvalidDecision)
    case Some((v, reason)) =>
      if loanId !in loans then Err(LoanNotFound)
      else if loans[loanId].status != Pending then Err(AlreadyProcessed)
      else if loans[loanId].userId !in users then Err(BorrowerNotFound)
      else Ok(Decided(loans[loanId], v, reason, actorId, now))
  }

  /** A loan leaves pending only once: after a decision has been stored,
      every later decision on it is refused. */
  lemma DecisionIsOneShot(loans: map<string, Loan>, users: set<string>, loanId: string, body: DecisionBody,
                          actorId: string, now: int, body2: DecisionBody, actor2: string, later: int)
    requires DecisionOutcome(loans, users, loanId, body, actorId, now).Ok?
    ensures var l := DecisionOutcome(loans, users, loanId, body, actorId, now).value;
            DecisionOutcome(loans[loanId := l], users, loanId, body2, actor2, later).Err?
  {
    var l := DecisionOutcome(loans, users, loanId, body, actorId, now).value;
    assert l.status != Pending;
  }

  /** Approval sets the total and the remaining balance to the same value,
      the amount with interest rounded to the cent, and the end date to the
      term in whole days after the start. */
  lemma ApprovalBalance(loans: map<string, Loan>, users: set<string>, loanId: string, body: DecisionBody,
                        actorId: string, now: int)
    requires DecisionOutcome(loans, users, loanId, body, actorId, now).Ok?
    requires body.status == Some("approved")
    ensures var l := DecisionOutcome(loans, users, loanId, body, actorId, now).value;
            && l.status == Active && l.totalAmount.Some? && l.remainingAmount == l.totalAmount
            && 100 * l.totalAmount.value - 50 <= l.amount * (100 + l.interestRate) < 100 * l.totalAmount.value + 50
            && l.startDate == Some(now)
            && l.endDate == Some(now + 7 * l.termWeeks * MinutesPerDay)
            && l.paidAmount == loans[loanId].paidAmount && l.reminderSent == loans[loanId].reminderSent
  {
  }

  /** Rejection leaves the dates and the balance as they were. */
  lemma RejectionKeepsBalance(loans: map<string, Loan>, users: set<string>, loanId: string, body: DecisionBody,
                              actorId: string, now: int)
    requires DecisionOutcome(loans, users, loanId, body, actorId, now).Ok?
    requires body.status == Some("rejected")
    ensures var l := DecisionOutcome(loans, users, loanId, body, actorId, now).value;
            var before := loans[loanId];
            && l.status == Rejected
            && l.startDate == before.startDate && l.endDate == before.endDate
            && l.totalAmount == before.totalAmount && l.remainingAmount == before.remainingAmount
            && l.paidAmount == before.paidAmount && l.reminderSent == before.reminderSent
  {
  }

  /** With interest at a rate in the column's range, the rounded total never
      falls below the principal. */
  lemma TotalCoversPrincipal(amount: int, interestRate: int)
    requires amount >= 0 && interestRate >= 0
    ensures RoundTotal(amount, interestRate) >= amount
  {
    var t := RoundTotal(amount, interestRate);
    assert 100 * t + 50 > amount * (100 + interestRate) >= 100 * amount;
  }

  // ---------------------------------------------------------------------
  // Listing loans

  /** The query string of `getLoans` as numbers; an absent page or limit
      takes the default 1 or 10. */
  datatype LoanQuery = LoanQuery(page: Option<int>, limit: Option<int>, status: Option<string>)

  datatype Requester = Requester(id: string, role: Role)

  /** The `where` clause: a borrower sees only their own loans; a non-empty
      status narrows to that status. */
  predicate Matches(l: Loan, who: Requester, status: Option<string>) {
    && (who.role == User ==> l.userId == who.id)
    && (status.Some? && status.value != "" ==> StatusName(l.status) == status.value)
  }

  datatype LoanPage = LoanPage(matching: set<string>, offset: int, limit: int, page: int,
                               total: nat, pages: Option<nat>)

  datatype ListError = QueryFailed  // 500

  /** The number of payment rows of the loan `id`. */
  function RowsOf(id: string, payments: seq<Payments.Payment>): (n: nat)
    ensures n <= |payments|
  {
    if payments == [] then 0
    else (if payments[0].loanId == id then 1 else 0) + RowsOf(id, payments[1..])
  }

  /** The number of payment rows that belong to one of the loans `ids`. */
  function RowsOfAny(ids: set<string>, payments: seq<Payments.Payment>): (n: nat)
    ensures n <= |payments|
  {
    if payments == [] then 0
    else (if payments[0].loanId in ids then 1 else 0) + RowsOfAny(ids, payments[1..])
  }

  /** The loans of `ids` that have at least one payment row. */
  function WithRows(ids: set<string>, payments: seq<Payments.Payment>): (s: set<string>)
    ensures s <= ids
  {
    set id | id in ids && RowsOf(id, payments) > 0
  }

  /** `COUNT("Loan"."id")` over the loans `ids` LEFT OUTER JOINed with their
      payments, which is what `findAndCountAll` counts when the hasMany
      include is given without `distinct`: a loan without payments is one
      row, a loan with k payments is k rows. */
  function JoinCount(ids: set<string>, payments: seq<Payments.Payment>): nat {
    |ids - WithRows(ids, payments)| + RowsOfAny(ids, payments)
  }

  /** The query `getLoans` sends and the pagination it reports. `payments`
      is the payments table, joined in by the `payments` include, so
      `total` and `pages` count joined rows rather than loans.
      `pages` is None where `Math.ceil(count / 0)` is not a number. The
      database refuses a status the ENUM does not know and a negative
      LIMIT or OFFSET. */
  function ListLoans(loans: map<string, Loan>, payments: seq<Payments.Payment>, who: Requester, q: LoanQuery)
    : (r: Result<LoanPage, ListError>)
    ensures var page, limit := q.page.GetOr(1), q.limit.GetOr(10);
            r.Ok? <==> && (q.status.None? || q.status.value == "" || ParseStatus(q.status.value).Some?)
                       && limit >= 0 && (page - 1) * limit >= 0
    ensures r.Ok? ==> && r.value.page == q.page.GetOr(1) && r.value.limit == q.limit.GetOr(10)
                      && r.value.offset == (r.value.page - 1) * r.value.limit
                      && r.value.offset >= 0 && r.value.limit >= 0
                      && r.value.total == JoinCount(r.value.matching, payments)
                      && (forall id :: id in r.value.matching <==> id in loans && Matches(loans[id], who, q.status))
                      && (r.value.pages.Some? <==> r.value.limit > 0)
                      && (r.value.pages.Some? ==> r.value.total <= r.value.pages.value * r.value.limit
                                                  && (r.value.pages.value == 0 || (r.value.pages.value - 1) * r.value.limit < r.value.total))
    ensures q.status.Some? && q.status.value != "" && ParseStatus(q.status.value).None? ==> r == Err(QueryFailed)
    ensures var page, limit := q.page.GetOr(1), q.limit.GetOr(10);
            limit < 0 || (page - 1) * limit < 0 ==> r == Err(QueryFailed)
  {
    var page, limit := q.page.GetOr(1), q.limit.GetOr(10);
    var offset := (page - 1) * limit;
    if q.status.Some? && q.status.value != "" && ParseStatus(q.status.value).None? then Err(QueryFailed)
    else if limit < 0 || offset < 0 then Err(QueryFailed)
    else
      var matching := set id | id in loans && Matches(loans[id], who, q.status);
      var total := JoinCount(matching, payments);
      Ok(LoanPage(matching, offset, limit, page, total, if limit == 0 then None else Some(CeilDiv(total, limit))))
  }

  /** The payment rows beyond the first of each loan: never negative, and
      none exactly when no loan of `ids` has two payments. */
  lemma {:induction false} ExtraRows(ids: set<string>, payments: seq<Payments.Payment>)
    ensures RowsOfAny(ids, payments) >= |WithRows(ids, payments)|
    ensures RowsOfAny(ids, payments) == |WithRows(ids, payments)|
            <==> forall id :: id in ids ==> RowsOf(id, payments) <= 1
    decreases |payments|
  {
    if payments == [] {
      assert WithRows(ids, payments) == {};
    } else {
      var x, rest := payments[0].loanId, payments[1..];
      ExtraRows(ids, rest);
      assert forall id :: id != x ==> RowsOf(id, payments) == RowsOf(id, rest);
      if x !in ids {
        assert WithRows(ids, payments) == WithRows(ids, rest);
      } else if RowsOf(x, rest) > 0 {
        assert WithRows(ids, payments) == WithRows(ids, rest);
        assert RowsOf(x, payments) >= 2;
      } else {
        assert WithRows(ids, payments) == WithRows(ids, rest) + {x};
        assert x !in WithRows(ids, rest);
      }
    }
  }

  /** The join count is at least the number of loans, and equals it
      exactly when no loan of `ids` has more than one payment row. */
  lemma JoinCountIff(ids: set<string>, payments: seq<Payments.Payment>)
    ensures JoinCount(ids, payments) >= |ids|
    ensures JoinCount(ids, payments) == |ids| <==> forall id :: id in ids ==> RowsOf(id, payments) <= 1
  {
    var paid := WithRows(ids, payments);
    assert ids == (ids - paid) + paid;
    assert |ids| == |ids - paid| + |paid|;
    ExtraRows(ids, payments);
  }

  /** `pagination.total` is the number of matching loans only when none of
      them has been paid more than once; otherwise it is larger. */
  lemma ListedTotalIff(loans: map<string, Loan>, payments: seq<Payments.Payment>, who: Requester, q: LoanQuery)
    requires ListLoans(loans, payments, who, q).Ok?
    ensures var page := ListLoans(loans, payments, who, q).value;
            && page.total >= |page.matching|
            && (page.total == |page.matching| <==> forall id :: id in page.matching ==> RowsOf(id, payments) <= 1)
  {
    JoinCountIff(ListLoans(loans, payments, who, q).value.matching, payments);
  }

  /** A borrower's listing holds only that borrower's loans, and with a
      status filter only loans in that status. */
  lemma BorrowerSeesOwnLoans(loans: map<string, Loan>, payments: seq<Payments.Payment>, who: Requester,
                             q: LoanQuery, id: string)
    requires ListLoans(loans, payments, who, q).Ok? && id in ListLoans(loans, payments, who, q).value.matching
    ensures id in loans
    ensures who.role == User ==> loans[id].userId == who.id
    ensures q.status.Some? && q.status.value != "" ==> StatusName(loans[id].status) == q.status.value
  {
  }

  /** An administrator without a status filter counts every loan. */
  lemma AdminCountsAll(loans: map<string, Loan>, payments: seq<Payments.Payment>, id: string, q: LoanQuery)
    requires q.status.None? || q.status == Some("")
    requires ListLoans(loans, payments, Requester(id, Admin), q).Ok?
    ensures ListLoans(loans, payments, Requester(id, Admin), q).value.matching == loans.Keys
  {
  }
}
