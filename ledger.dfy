/** The loans and payments tables as one in-memory store, with the
    operations that change them: `createLoan`, `approveLoan`,
    `make_payment` and `sendDueDateReminders`. Each method runs the
    source's steps in order and is proved to commit exactly what the
    matching outcome function describes, to keep `LedgerInvariant`, and to
    move every loan only forward in its lifecycle (`Evolves`). Everything
    an operation refuses leaves both tables as they were, as the rollback
    or early return does in the source. */
module Ledger {
  import opened Common
  import opened Loans
  import Payments
  import CollateralFiles
  import LoanNumbers
  import opened LoanController
  import opened PaymentController
  import opened DueReminders
  import opened LedgerInvariant

  /** Puts the names saved so far in front of what saving the rest gives. */
  function Prepend(saved: seq<string>, rest: Result<seq<string>, CollateralFiles.ImageError>): Result<seq<string>, CollateralFiles.ImageError> {
    if rest.Ok? then Ok(saved + rest.value) else rest
  }

  /** Saving from image `i` on, after the names `saved`, is failing with
      image `i`'s error, or saving the rest after one more name. */
  lemma SaveStep(images: seq<string>, userId: string, env: seq<CollateralFiles.ImageEnv>, i: nat, saved: seq<string>)
    requires |env| == |images| && i < |images|
    ensures var first := CollateralFiles.SaveImage(images[i], userId, env[i]);
            var now := Prepend(saved, CollateralFiles.SaveAll(images[i..], userId, env[i..]));
            && (first.Err? ==> now == Err(first.error))
            && (first.Ok? ==> now == Prepend(saved + [first.value], CollateralFiles.SaveAll(images[i + 1..], userId, env[i + 1..])))
  {
    SaveAllFrom(images, userId, env, i);
    var first := CollateralFiles.SaveImage(images[i], userId, env[i]);
    if first.Ok? {
      PrependTwice(saved, first.value, CollateralFiles.SaveAll(images[i + 1..], userId, env[i + 1..]));
    }
  }

  /** Saving from image `i` on is saving image `i`, then the rest. */
  lemma SaveAllFrom(images: seq<string>, userId: string, env: seq<CollateralFiles.ImageEnv>, i: nat)
    requires |env| == |images| && i < |images|
    ensures var first := CollateralFiles.SaveImage(images[i], userId, env[i]);
            CollateralFiles.SaveAll(images[i..], userId, env[i..])
            == if first.Err? then Err(first.error)
               else Prepend([first.value], CollateralFiles.SaveAll(images[i + 1..], userId, env[i + 1..]))
  {
    assert images[i..][0] == images[i] && env[i..][0] == env[i];
    assert images[i..][1..] == images[i + 1..] && env[i..][1..] == env[i + 1..];
  }

  lemma PrependTwice(saved: seq<string>, name: string, rest: Result<seq<string>, CollateralFiles.ImageError>)
    ensures Prepend(saved, Prepend([name], rest)) == Prepend(saved + [name], rest)
  {
    if rest.Ok? {
      assert saved + ([name] + rest.value) == (saved + [name]) + rest.value;
    }
  }

  /** Before any image is saved, the outcome is that of saving them all. */
  lemma SaveStart(images: seq<string>, userId: string, env: seq<CollateralFiles.ImageEnv>)
    requires |env| == |images|
    ensures Prepend([], CollateralFiles.SaveAll(images[0..], userId, env[0..])) == CollateralFiles.SaveAll(images, userId, env)
  {
    assert images[0..] == images && env[0..] == env;
    var all := CollateralFiles.SaveAll(images, userId, env);
    if all.Ok? {
      assert [] + all.value == all.value;
    }
  }

  /** After the last image, the outcome is the names saved. */
  lemma SaveEnd(images: seq<string>, userId: string, env: seq<CollateralFiles.ImageEnv>, saved: seq<string>)
    requires |env| == |images|
    ensures Prepend(saved, CollateralFiles.SaveAll(images[|images|..], userId, env[|images|..])) == Ok(saved)
  {
    assert images[|images|..] == [] && env[|images|..] == [] && saved + [] == saved;
  }

  /** The loop of `createLoan` that saves each image in turn and collects
      the filenames (src/controllers/loanController.ts:1083-1086); the first
      failure ends it. */
  method SaveCollateralImages(images: seq<string>, userId: string, env: seq<CollateralFiles.ImageEnv>)
    returns (r: Result<seq<string>, CollateralFiles.ImageError>)
    requires |env| == |images|
    ensures r == CollateralFiles.SaveAll(images, userId, env)
  {
    var saved: seq<string> := [];
    var i := 0;
    SaveStart(images, userId, env);
    while i < |images|
      invariant 0 <= i <= |images|
      invariant CollateralFiles.SaveAll(images, userId, env)
                == Prepend(saved, CollateralFiles.SaveAll(images[i..], userId, env[i..]))
    {
      var name := CollateralFiles.SaveImage(images[i], userId, env[i]);
      SaveStep(images, userId, env, i, saved);
      if name.Err? {
        return Err(name.error);
      }
      saved := saved + [name.value];
      i := i + 1;
    }
    SaveEnd(images, userId, env, saved);
    return Ok(saved);
  }

  class LoanLedger {
    var loans: map<string, Loan>
    var payments: seq<Payments.Payment>

    ghost predicate Valid()
      reads this
    {
      LedgerInvariant.LedgerInvariant(loans, payments)
    }

    constructor ()
      ensures Valid() && loans == map[] && payments == []
    {
      loans := map[];
      payments := [];
    }

    /** `createLoan`, run by `Apply`; the store keeps its invariant. */
    method CreateLoan(userId: string, app: LoanApplication, env: CreateEnv) returns (r: Result<Loan, ApplyError>)
      requires Valid() && ValidCreateEnv(env) && |env.images| == |app.collateralImages|
      modifies this
      ensures Valid()
      ensures r == ApplicationOutcome(old(loans), userId, app, env)
      ensures loans == (if r.Ok? then old(loans)[r.value.id := r.value] else old(loans))
      ensures payments == old(payments)
      ensures Evolves(old(loans), loans)
    {
      if ApplicationOutcome(loans, userId, app, env).Ok? {
        CreatePreserves(loans, payments, userId, app, env);
      }
      r := Apply(userId, app, env);
    }

    /** The steps of `createLoan`: validation, the gate on unsettled loans,
      the rate of the term, the images, then the insert. */
    method Apply(userId: string, app: LoanApplication, env: CreateEnv) returns (r: Result<Loan, ApplyError>)
      requires ValidCreateEnv(env) && |env.images| == |app.collateralImages|
      modifies this
      ensures r == ApplicationOutcome(old(loans), userId, app, env)
      ensures loans == (if r.Ok? then old(loans)[r.value.id := r.value] else old(loans))
      ensures payments == old(payments)
    {
      if !SchemaValid(app) {
        return Err(ValidationFailed);
      }
      if HasUnsettledLoan(loans, userId) {
        return Err(UnsettledLoan);
      }
      var rate := RateFor(app.termWeeks);
      if rate.None? {
        return Err(InvalidTerm);
      }
      var saved := SaveCollateralImages(app.collateralImages, userId, env.images);
      if saved.Err? {
        return Err(ImageFailed(saved.error));
      }
      var number := LoanNumbers.LoanNumber(env.clock, env.suffixDraw);
      if env.loanId in loans || NumberTaken(loans, number) {
        return Err(ApplyError.StoreRejected);
      }
      var loan := NewLoan(env.loanId, number, userId, app.amount, rate.value, app.termWeeks.Floor,
                          saved.value, app.purpose, Some(app.collateralDetails));
      loans := loans[loan.id := loan];
      r := Ok(loan);
    }

    /** `approveLoan`: the decision is written into the stored loan. */
    method Decide(users: set<string>, loanId: string, body: DecisionBody, actorId: string, now: int)
      returns (r: Result<Loan, DecideError>)
      requires Valid()
      modifies this
      ensures Valid()
      ensures r == DecisionOutcome(old(loans), users, loanId, body, actorId, now)
      ensures loans == (if r.Ok? then old(loans)[loanId := r.value] else old(loans))
      ensures payments == old(payments)
      ensures Evolves(old(loans), loans)
    {
      var parsed := ParseDecision(body);
      if parsed.None? {
        return Err(InvalidDecision);
      }
      if loanId !in loans {
        return Err(DecideError.LoanNotFound);
      }
      var loan := loans[loanId];
      if loan.status != Pending {
        return Err(AlreadyProcessed);
      }
      if loan.userId !in users {
        return Err(BorrowerNotFound);
      }
      var (verdict, reason) := parsed.value;
      if verdict == Approve {
        var total := RoundTotal(loan.amount, loan.interestRate);
        loan := loan.(status := Active, approvedBy := Some(actorId), approvedAt := Some(now),
                      approvalReason := reason, startDate := Some(now),
                      endDate := Some(EndDate(now, loan.termWeeks)),
                      totalAmount := Some(total), remainingAmount := Some(total));
      } else {
        loan := loan.(status := Rejected, approvedBy := Some(actorId), approvedAt := Some(now),
                      approvalReason := reason);
      }
      DecidePreserves(loans, payments, users, loanId, body, actorId, now);
      loans := loans[loanId := loan];
      r := Ok(loan);
    }

    /** `make_payment`, run by `ApplyPayment`; the store keeps its
      invariant and every loan moves only forward. */
    method MakePayment(actor: Option<string>, loanId: string, req: PaymentRequest, env: PayEnv)
      returns (r: Result<Receipt, PayError>)
      requires Valid()
      modifies this
      ensures Valid()
      ensures var o := PaymentOutcome(old(loans), old(payments), actor, loanId, req, env);
              && (o.Ok? ==> && r == Ok(o.value.receipt)
                            && loans == old(loans)[loanId := o.value.loan]
                            && payments == old(payments) + [o.value.payment])
              && (o.Err? ==> r == Err(o.error) && loans == old(loans) && payments == old(payments))
      ensures Evolves(old(loans), loans)
    {
      if PaymentOutcome(loans, payments, actor, loanId, req, env).Ok? {
        PayPreserves(loans, payments, actor, loanId, req, env);
      }
      r := ApplyPayment(actor, loanId, req, env);
    }

    /** The steps of `make_payment`: the guards in the order of the source,
      then the loan update and the payment row, committed together. */
    method ApplyPayment(actor: Option<string>, loanId: string, req: PaymentRequest, env: PayEnv)
      returns (r: Result<Receipt, PayError>)
      modifies this
      ensures var o := PaymentOutcome(old(loans), old(payments), actor, loanId, req, env);
              && (o.Ok? ==> && r == Ok(o.value.receipt)
                            && loans == old(loans)[loanId := o.value.loan]
                            && payments == old(payments) + [o.value.payment])
              && (o.Err? ==> r == Err(o.error) && loans == old(loans) && payments == old(payments))
    {
      ghost var o := PaymentOutcome(loans, payments, actor, loanId, req, env);
      if actor.None? {
        return Err(NotLoggedIn);
      }
      if req.amount <= 0 {
        return Err(NonPositiveAmount);
      }
      if loanId !in loans {
        return Err(PayError.LoanNotFound);
      }
      var loan := loans[loanId];
      if !Payable(loan.status) {
        return Err(NotPayable);
      }
      var newPaid := loan.paidAmount + req.amount;
      var remaining := loan.totalAmount.GetOr(0) - newPaid;
      if remaining < 0 {
        return Err(Overpayment);
      }
      var payment := Payments.Create(env.paymentId, loan.id, req.amount, req.paymentMethod,
                                     Some(TxnId(env.timestampMs, env.fraction36)), req.notes,
                                     Some(Payments.Completed), Some(env.now), actor, env.now);
      if payment.None? || PaymentIdTaken(payments, env.paymentId) {
        return Err(PayError.StoreRejected);
      }
      assert o == Ok(Settlement(Settle(loan, req.amount), payment.value, Receipt(payment.value.id, remaining, remaining <= 0)));
      loans := loans[loanId := loan.(remainingAmount := Some(remaining), paidAmount := newPaid,
                                     status := if remaining <= 0 then Completed else loan.status)];
      payments := payments + [payment.value];
      r := Ok(Receipt(payment.value.id, remaining, remaining <= 0));
    }

    /** `sendDueDateReminders`. `users` is the users table; `undeliverable`
      holds the borrowers whose e-mail `sendEmail` fails to send, a failure
      it logs and turns into `false`, which the job ignores; `throwing`
      holds the loans for which building the reminder or `loan.update`
      throws, which ends the batch in the job's catch. src/services/email.ts
      defines no `generateLoanReminderTemplate`, so as written the call
      throws for every loan and `throwing` holds every selected loan; the
      last ensures states what the job then does. */
    method SendDueDateReminders(now: int, users: set<string>, undeliverable: set<string>, throwing: set<string>)
      returns (flagged: set<string>, undelivered: set<string>, report: SweepReport)
      requires Valid()
      modifies this
      ensures Valid()
      ensures flagged <= Selected(old(loans), now) && flagged !! throwing
      ensures forall id :: id in flagged ==> old(loans)[id].userId in users
      ensures undelivered <= flagged
      ensures forall id :: id in flagged ==> (id in undelivered <==> old(loans)[id].userId in undeliverable)
      ensures loans == MarkReminded(old(loans), flagged) && payments == old(payments)
      ensures Evolves(old(loans), loans)
      ensures report.Logged? ==>
                && report.count == |Selected(old(loans), now)|
                && forall id :: id in Selected(old(loans), now) ==> (id in flagged <==> old(loans)[id].userId in users)
      ensures report.ErrorLogged? ==>
                exists id :: id in Selected(old(loans), now) && id !in flagged
                             && old(loans)[id].userId in users && id in throwing
      ensures Selected(old(loans), now) <= throwing ==>
                && flagged == {}
                && (report.ErrorLogged? <==> exists id :: id in Selected(old(loans), now) && old(loans)[id].userId in users)
    {
      ghost var before := loans;
      flagged, undelivered, report := RemindEach(now, users, undeliverable, throwing);
      MarkPreserves(before, payments, flagged, now);
    }

    /** The loop of `sendDueDateReminders`, one selected loan at a time in
      the order the query returns them (any order here): a loan without a
      borrower is skipped; otherwise the reminder is built and sent and the
      loan flagged, delivered or not; a throwing step ends the batch and
      leaves the loans flagged so far flagged. */
    method RemindEach(now: int, users: set<string>, undeliverable: set<string>, throwing: set<string>)
      returns (flagged: set<string>, undelivered: set<string>, report: SweepReport)
      modifies this
      ensures flagged <= Selected(old(loans), now) && flagged !! throwing
      ensures forall id :: id in flagged ==> old(loans)[id].userId in users
      ensures undelivered <= flagged
      ensures forall id :: id in flagged ==> (id in undelivered <==> old(loans)[id].userId in undeliverable)
      ensures loans == MarkReminded(old(loans), flagged) && payments == old(payments)
      ensures report.Logged? ==>
                && report.count == |Selected(old(loans), now)|
                && forall id :: id in Selected(old(loans), now) ==> (id in flagged <==> old(loans)[id].userId in users)
      ensures report.ErrorLogged? ==>
                exists id :: id in Selected(old(loans), now) && id !in flagged
                             && old(loans)[id].userId in users && id in throwing
    {
      ghost var before := loans;
      var selected := Selected(loans, now);
      var todo := selected;
      flagged, undelivered := {}, {};
      while todo != {}
        invariant Visited(before, selected, todo, flagged, undelivered, users, undeliverable, throwing)
        invariant loans == MarkReminded(before, flagged) && payments == old(payments)
        decreases |todo|
      {
        var id :| id in todo;
        MarkWritesOnlyTheFlag(before, flagged, id);
        var loan := loans[id];
        if loan.userId !in users {
          VisitSkipped(before, selected, todo, flagged, undelivered, users, undeliverable, throwing, id);
          todo := todo - {id};
          continue;
        }
        if id in throwing {
          report := ErrorLogged;
          return;
        }
        VisitFlagged(before, selected, todo, flagged, undelivered, users, undeliverable, throwing, id);
        MarkOneMore(before, flagged, id);
        if loan.userId in undeliverable {
          undelivered := undelivered + {id};
        }
        loans := loans[id := loan.(reminderSent := true)];
        flagged := flagged + {id};
        todo := todo - {id};
      }
      report := Logged(|selected|);
    }
  }
}
