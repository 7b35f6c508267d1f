/** What holds of every state the operations of this backend can reach,
    starting from an empty store: the invariant of the loans table and the
    payments table, the lifecycle order of a loan, and one lemma per
    operation showing that it keeps both. */
module LedgerInvariant {
  import opened Common
  import opened Loans
  import Payments
  import LoanController
  import PaymentController
  import DueReminders

  // ---------------------------------------------------------------------
  // One loan

  /** An approved loan that is being repaid or has been: its dates and
      total were set by the approval, and paid plus remaining is the
      total. */
  predicate Running(l: Loan) {
    && l.approvedBy.Some? && l.approvedAt.Some?
    && l.startDate.Some? && l.endDate == Some(LoanController.EndDate(l.startDate.value, l.termWeeks))
    && l.totalAmount == Some(LoanController.RoundTotal(l.amount, l.interestRate))
    && l.remainingAmount.Some? && l.paidAmount >= 0
    && l.paidAmount + l.remainingAmount.value == l.totalAmount.value
  }

  /** The shape of a loan in each status that the operations produce.
      APPROVED, DEFAULTED and OVERDUE are never written. */
  predicate WellFormed(l: Loan) {
    && FieldsValid(l)
    && LoanController.RateFor(l.termWeeks as real) == Some(l.interestRate)
    && CollateralImages(l).Some?
    && match l.status
       case Pending => Undecided(l) && l.paidAmount == 0 && !l.reminderSent
       case Rejected =>
         && l.approvedBy.Some? && l.approvedAt.Some?
         && l.startDate.None? && l.endDate.None? && l.totalAmount.None? && l.remainingAmount.None?
         && l.paidAmount == 0 && !l.reminderSent
       case Active => Running(l) && l.remainingAmount.value > 0
       case Completed => Running(l) && l.remainingAmount.value == 0
       case Approved => false
       case Defaulted => false
       case Overdue => false
  }

  // ---------------------------------------------------------------------
  // The two tables

  /** The sum of the completed payments recorded against a loan. */
  function PaidTotal(ps: seq<Payments.Payment>, loanId: string): int {
    if ps == [] then 0
    else PaidTotal(ps[..|ps| - 1], loanId) + Counted(ps[|ps| - 1], loanId)
  }

  function Counted(p: Payments.Payment, loanId: string): int {
    if p.loanId == loanId && p.status == Payments.Completed then p.amount else 0
  }

  lemma PaidTotalAppend(ps: seq<Payments.Payment>, p: Payments.Payment, loanId: string)
    ensures PaidTotal(ps + [p], loanId) == PaidTotal(ps, loanId) + Counted(p, loanId)
  {
    assert (ps + [p])[..|ps|] == ps;
  }

  /** No payment recorded against a loan means nothing paid on it. */
  lemma {:induction false} PaidTotalUnreferenced(ps: seq<Payments.Payment>, loanId: string)
    requires forall i :: 0 <= i < |ps| ==> ps[i].loanId != loanId
    ensures PaidTotal(ps, loanId) == 0
  {
    if ps != [] {
      PaidTotalUnreferenced(ps[..|ps| - 1], loanId);
    }
  }

  predicate LoansWellFormed(loans: map<string, Loan>) {
    forall id :: id in loans ==> loans[id].id == id && WellFormed(loans[id])
  }

  /** The unique index on `loan_number`. */
  predicate NumbersUnique(loans: map<string, Loan>) {
    forall a, b :: a in loans && b in loans && a != b ==> loans[a].loanNumber != loans[b].loanNumber
  }

  /** The gate of `createLoan`, as a property of the table: no borrower
      holds two loans that are both unsettled. */
  predicate OneUnsettledPerBorrower(loans: map<string, Loan>) {
    forall a, b :: a in loans && b in loans && a != b && loans[a].userId == loans[b].userId
      ==> !(LoanController.Unsettled(loans[a].status) && LoanController.Unsettled(loans[b].status))
  }

  /** Every payment row is a completed payment of a stored loan, and the
      ids are unique. */
  predicate PaymentsValid(loans: map<string, Loan>, payments: seq<Payments.Payment>) {
    && (forall i :: 0 <= i < |payments| ==>
          payments[i].loanId in loans && payments[i].status == Payments.Completed && Payments.FieldsValid(payments[i]))
    && (forall i, j :: 0 <= i < j < |payments| ==> payments[i].id != payments[j].id)
  }

  /** The paid amount of every loan is the sum of its payments. */
  predicate PaidMatchesPayments(loans: map<string, Loan>, payments: seq<Payments.Payment>) {
    forall id :: id in loans ==> loans[id].paidAmount == PaidTotal(payments, id)
  }

  predicate LedgerInvariant(loans: map<string, Loan>, payments: seq<Payments.Payment>) {
    && LoansWellFormed(loans)
    && NumbersUnique(loans)
    && OneUnsettledPerBorrower(loans)
    && PaymentsValid(loans, payments)
    && PaidMatchesPayments(loans, payments)
  }

  /** The central balance facts: a loan with a total has paid plus
      remaining equal to it, and nothing negative left to pay. */
  lemma BalanceOfStoredLoan(loans: map<string, Loan>, payments: seq<Payments.Payment>, id: string)
    requires LedgerInvariant(loans, payments) && id in loans
    ensures var l := loans[id];
            && l.paidAmount == PaidTotal(payments, id) && l.paidAmount >= 0
            && (l.totalAmount.Some? ==> l.remainingAmount.Some?
                                        && l.paidAmount + l.remainingAmount.value == l.totalAmount.value
                                        && l.remainingAmount.value >= 0)
            && (l.status == Completed ==> l.remainingAmount == Some(0))
            && (l.status == Active ==> l.remainingAmount.Some? && l.remainingAmount.value > 0)
  {
    assert WellFormed(loans[id]);
  }

  // ---------------------------------------------------------------------
  // The lifecycle of one loan across operations

  /** What any operation may do to a stored loan: the application fields
      stay, a decided loan never returns to pending and keeps its decision,
      rejected and completed loans are final, the reminder flag is only
      ever set, and the paid amount never shrinks. */
  predicate Step(a: Loan, b: Loan) {
    && SameApplication(a, b)
    && (a.status != Pending ==> b.status != Pending && SameDecision(a, b))
    && (a.status == Rejected || a.status == Completed ==> b == a)
    && (a.reminderSent ==> b.reminderSent)
    && a.paidAmount <= b.paidAmount
  }

  predicate Evolves(before: map<string, Loan>, after: map<string, Loan>) {
    forall id :: id in before ==> id in after && Step(before[id], after[id])
  }

  lemma EvolvesTransitive(a: map<string, Loan>, b: map<string, Loan>, c: map<string, Loan>)
    requires Evolves(a, b) && Evolves(b, c)
    ensures Evolves(a, c)
  {
  }

  /** Changing loans only towards settled statuses keeps the one-unsettled
      rule. */
  lemma UnsettledShrinks(loans: map<string, Loan>, m: map<string, Loan>)
    requires OneUnsettledPerBorrower(loans) && m.Keys == loans.Keys
    requires forall id :: id in m ==> m[id].userId == loans[id].userId
    requires forall id :: id in m && LoanController.Unsettled(m[id].status) ==> LoanController.Unsettled(loans[id].status)
    ensures OneUnsettledPerBorrower(m)
  {
  }

  // ---------------------------------------------------------------------
  // Each operation keeps the invariant

  /** Inserting a well-formed pending loan with a fresh id and number,
      for a borrower with no unsettled loan, keeps the invariant. */
  lemma InsertPreserves(loans: map<string, Loan>, payments: seq<Payments.Payment>, l: Loan)
    requires LedgerInvariant(loans, payments)
    requires l.id !in loans && WellFormed(l) && l.status == Pending
    requires forall id :: id in loans ==> loans[id].loanNumber != l.loanNumber
    requires forall id :: id in loans && loans[id].userId == l.userId ==> !LoanController.Unsettled(loans[id].status)
    ensures LedgerInvariant(loans[l.id := l], payments) && Evolves(loans, loans[l.id := l])
  {
    var m := loans[l.id := l];
    InsertKeepsShapes(loans, l);
    InsertKeepsUnsettled(loans, l);
    InsertKeepsPayments(loans, payments, l);
    InsertEvolves(loans, l);
  }

  lemma InsertKeepsShapes(loans: map<string, Loan>, l: Loan)
    requires LoansWellFormed(loans) && NumbersUnique(loans)
    requires l.id !in loans && WellFormed(l)
    requires forall id :: id in loans ==> loans[id].loanNumber != l.loanNumber
    ensures LoansWellFormed(loans[l.id := l]) && NumbersUnique(loans[l.id := l])
  {
  }

  lemma InsertKeepsUnsettled(loans: map<string, Loan>, l: Loan)
    requires OneUnsettledPerBorrower(loans) && l.id !in loans
    requires forall id :: id in loans && loans[id].userId == l.userId ==> !LoanController.Unsettled(loans[id].status)
    ensures OneUnsettledPerBorrower(loans[l.id := l])
  {
  }

  lemma InsertKeepsPayments(loans: map<string, Loan>, payments: seq<Payments.Payment>, l: Loan)
    requires PaymentsValid(loans, payments) && PaidMatchesPayments(loans, payments)
    requires l.id !in loans && l.paidAmount == 0
    ensures PaymentsValid(loans[l.id := l], payments) && PaidMatchesPayments(loans[l.id := l], payments)
  {
    PaidTotalUnreferenced(payments, l.id);
  }

  lemma InsertEvolves(loans: map<string, Loan>, l: Loan)
    requires l.id !in loans
    ensures Evolves(loans, loans[l.id := l])
  {
  }

  lemma CreatePreserves(loans: map<string, Loan>, payments: seq<Payments.Payment>, userId: string,
                        app: LoanController.LoanApplication, env: LoanController.CreateEnv)
    requires LedgerInvariant(loans, payments)
    requires LoanController.ValidCreateEnv(env) && |env.images| == |app.collateralImages|
    requires LoanController.ApplicationOutcome(loans, userId, app, env).Ok?
    ensures var l := LoanController.ApplicationOutcome(loans, userId, app, env).value;
            LedgerInvariant(loans[l.id := l], payments) && Evolves(loans, loans[l.id := l])
  {
    var l := LoanController.ApplicationOutcome(loans, userId, app, env).value;
    assert WellFormed(l);
    assert !LoanController.NumberTaken(loans, l.loanNumber);
    assert !LoanController.HasUnsettledLoan(loans, userId);
    InsertPreserves(loans, payments, l);
  }

  /** Replacing one stored loan by a well-formed successor that keeps its
      application fields keeps the per-loan shapes and the unique numbers. */
  lemma ReplaceKeepsShapes(loans: map<string, Loan>, id: string, after: Loan)
    requires LoansWellFormed(loans) && NumbersUnique(loans) && id in loans
    requires WellFormed(after) && SameApplication(loans[id], after)
    ensures LoansWellFormed(loans[id := after]) && NumbersUnique(loans[id := after])
  {
  }

  lemma ReplaceKeepsUnsettled(loans: map<string, Loan>, id: string, after: Loan)
    requires OneUnsettledPerBorrower(loans) && id in loans && after.userId == loans[id].userId
    requires LoanController.Unsettled(after.status) ==> LoanController.Unsettled(loans[id].status)
    ensures OneUnsettledPerBorrower(loans[id := after])
  {
    UnsettledShrinks(loans, loans[id := after]);
  }

  lemma ReplaceEvolves(loans: map<string, Loan>, id: string, after: Loan)
    requires id in loans && Step(loans[id], after)
    ensures Evolves(loans, loans[id := after])
  {
  }

  /** A decision on a well-formed pending loan leaves a well-formed loan,
      settled or not as before, with the same paid amount. */
  lemma DecidedWellFormed(before: Loan, v: LoanController.Verdict, reason: Option<string>, actorId: string, now: int)
    requires WellFormed(before) && before.status == Pending
    ensures var l := LoanController.Decided(before, v, reason, actorId, now);
            && WellFormed(l) && Step(before, l) && l.paidAmount == before.paidAmount
            && (LoanController.Unsettled(l.status) ==> LoanController.Unsettled(before.status))
  {
    var l := LoanController.Decided(before, v, reason, actorId, now);
    if v == LoanController.Approve {
      LoanController.TotalCoversPrincipal(before.amount, before.interestRate);
      assert Running(l);
    }
  }

  lemma DecidePreserves(loans: map<string, Loan>, payments: seq<Payments.Payment>, users: set<string>,
                        loanId: string, body: LoanController.DecisionBody, actorId: string, now: int)
    requires LedgerInvariant(loans, payments)
    requires LoanController.DecisionOutcome(loans, users, loanId, body, actorId, now).Ok?
    ensures var l := LoanController.DecisionOutcome(loans, users, loanId, body, actorId, now).value;
            LedgerInvariant(loans[loanId := l], payments) && Evolves(loans, loans[loanId := l])
  {
    var before := loans[loanId];
    var (v, reason) := LoanController.ParseDecision(body).value;
    var l := LoanController.Decided(before, v, reason, actorId, now);
    assert LoanController.DecisionOutcome(loans, users, loanId, body, actorId, now).value == l;
    assert WellFormed(before);
    DecidedWellFormed(before, v, reason, actorId, now);
    ReplaceKeepsShapes(loans, loanId, l);
    ReplaceKeepsUnsettled(loans, loanId, l);
    ReplaceEvolves(loans, loanId, l);
    assert PaidMatchesPayments(loans[loanId := l], payments);
  }

  /** A repayment of an active loan, described by what the payment
      outcome promises, leaves a well-formed loan. */
  lemma RepaidWellFormed(before: Loan, after: Loan)
    requires WellFormed(before) && PaymentController.Payable(before.status)
    requires SameApplication(before, after) && SameDecision(before, after)
    requires after.reminderSent == before.reminderSent && after.paidAmount >= before.paidAmount
    requires after.remainingAmount.Some? && after.remainingAmount.value >= 0
    requires after.paidAmount + after.remainingAmount.value == before.totalAmount.GetOr(0)
    requires after.remainingAmount.value == 0 ==> after.status == Completed
    requires after.remainingAmount.value > 0 ==> after.status == before.status
    ensures WellFormed(after) && Step(before, after)
  {
    assert before.status == Active && Running(before);
    assert Running(after);
  }

  /** Appending a completed payment of a stored loan with a fresh id keeps
      the payments table valid, and adds its amount to that loan only. */
  lemma AppendPayment(loans: map<string, Loan>, m: map<string, Loan>, payments: seq<Payments.Payment>, p: Payments.Payment)
    requires PaymentsValid(loans, payments) && m.Keys == loans.Keys
    requires p.loanId in loans && p.status == Payments.Completed && Payments.FieldsValid(p)
    requires !PaymentController.PaymentIdTaken(payments, p.id)
    ensures PaymentsValid(m, payments + [p])
    ensures forall id :: PaidTotal(payments + [p], id) == PaidTotal(payments, id) + (if id == p.loanId then p.amount else 0)
  {
    forall id ensures PaidTotal(payments + [p], id) == PaidTotal(payments, id) + (if id == p.loanId then p.amount else 0) {
      PaidTotalAppend(payments, p, id);
    }
  }

  lemma RepayKeepsPaid(loans: map<string, Loan>, payments: seq<Payments.Payment>, loanId: string,
                       after: Loan, p: Payments.Payment)
    requires PaidMatchesPayments(loans, payments) && loanId in loans
    requires after.paidAmount == loans[loanId].paidAmount + p.amount && p.loanId == loanId
    requires forall id :: PaidTotal(payments + [p], id) == PaidTotal(payments, id) + (if id == p.loanId then p.amount else 0)
    ensures PaidMatchesPayments(loans[loanId := after], payments + [p])
  {
  }

  /** Replacing a stored loan by its repaid version and appending the
      payment that repaid it keeps the invariant. */
  lemma RepayPreserves(loans: map<string, Loan>, payments: seq<Payments.Payment>, loanId: string,
                       after: Loan, p: Payments.Payment)
    requires LedgerInvariant(loans, payments) && loanId in loans
    requires WellFormed(after) && Step(loans[loanId], after)
    requires LoanController.Unsettled(after.status) ==> LoanController.Unsettled(loans[loanId].status)
    requires after.paidAmount == loans[loanId].paidAmount + p.amount
    requires p.loanId == loanId && p.status == Payments.Completed && Payments.FieldsValid(p)
    requires !PaymentController.PaymentIdTaken(payments, p.id)
    ensures LedgerInvariant(loans[loanId := after], payments + [p]) && Evolves(loans, loans[loanId := after])
  {
    var m := loans[loanId := after];
    ReplaceKeepsShapes(loans, loanId, after);
    ReplaceKeepsUnsettled(loans, loanId, after);
    ReplaceEvolves(loans, loanId, after);
    AppendPayment(loans, m, payments, p);
    RepayKeepsPaid(loans, payments, loanId, after, p);
  }

  lemma PayPreserves(loans: map<string, Loan>, payments: seq<Payments.Payment>, actor: Option<string>,
                     loanId: string, req: PaymentController.PaymentRequest, env: PaymentController.PayEnv)
    requires LedgerInvariant(loans, payments)
    requires PaymentController.PaymentOutcome(loans, payments, actor, loanId, req, env).Ok?
    ensures var s := PaymentController.PaymentOutcome(loans, payments, actor, loanId, req, env).value;
            LedgerInvariant(loans[loanId := s.loan], payments + [s.payment])
            && Evolves(loans, loans[loanId := s.loan])
  {
    var before := loans[loanId];
    var s := PaymentController.PaymentOutcome(loans, payments, actor, loanId, req, env).value;
    assert WellFormed(before);
    RepaidWellFormed(before, s.loan);
    RepayPreserves(loans, payments, loanId, s.loan, s.payment);
  }

  /** Setting the reminder flag of selected (hence active) loans keeps
      every loan's shape. */
  lemma MarkKeepsShapes(loans: map<string, Loan>, ids: set<string>, now: int)
    requires LoansWellFormed(loans) && NumbersUnique(loans)
    requires ids <= DueReminders.Selected(loans, now)
    ensures var m := DueReminders.MarkReminded(loans, ids);
            LoansWellFormed(m) && NumbersUnique(m) && Evolves(loans, m)
            && forall id :: id in m ==> m[id].userId == loans[id].userId && m[id].status == loans[id].status
                                        && m[id].paidAmount == loans[id].paidAmount
  {
    var m := DueReminders.MarkReminded(loans, ids);
    forall id | id in m
      ensures m[id].id == id && WellFormed(m[id]) && Step(loans[id], m[id])
    {
      if id in ids {
        MarkOneWellFormed(loans[id]);
      }
    }
  }

  lemma MarkOneWellFormed(l: Loan)
    requires WellFormed(l) && l.status == Active
    ensures WellFormed(l.(reminderSent := true)) && Step(l, l.(reminderSent := true))
  {
  }

  lemma SamePaidKeepsPayments(loans: map<string, Loan>, m: map<string, Loan>, payments: seq<Payments.Payment>)
    requires PaymentsValid(loans, payments) && PaidMatchesPayments(loans, payments) && m.Keys == loans.Keys
    requires forall id :: id in m ==> m[id].paidAmount == loans[id].paidAmount
    ensures PaymentsValid(m, payments) && PaidMatchesPayments(m, payments)
  {
  }

  lemma MarkPreserves(loans: map<string, Loan>, payments: seq<Payments.Payment>, ids: set<string>, now: int)
    requires LedgerInvariant(loans, payments)
    requires ids <= DueReminders.Selected(loans, now)
    ensures var m := DueReminders.MarkReminded(loans, ids);
            LedgerInvariant(m, payments) && Evolves(loans, m)
  {
    var m := DueReminders.MarkReminded(loans, ids);
    MarkKeepsShapes(loans, ids, now);
    UnsettledShrinks(loans, m);
    SamePaidKeepsPayments(loans, m, payments);
  }

  /** A loan the reminder job flagged, its e-mail delivered or not, is
      never selected by a later run, whatever the operations in between. */
  lemma FlaggedNeverRemindedAgain(loans: map<string, Loan>, ids: set<string>, later: map<string, Loan>,
                                  id: string, t: int)
    requires id in ids && id in loans
    requires Evolves(DueReminders.MarkReminded(loans, ids), later)
    ensures id !in DueReminders.Selected(later, t)
  {
    assert DueReminders.MarkReminded(loans, ids)[id].reminderSent;
  }

  /** The empty store satisfies the invariant. */
  lemma EmptyLedger()
    ensures LedgerInvariant(map[], [])
  {
  }
}
