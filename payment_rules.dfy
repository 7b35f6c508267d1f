/** `make_payment` and `txn_generator` of
    src/controllers/payementController.ts:13-137: a chain of guards, the
    balance arithmetic, the completion transition and the COMPLETED payment
    row. Every early exit rolls the transaction back, so a refused payment
    leaves the store as it was; the outcome below is what gets committed. */
module PaymentController {
  import opened Common
  import opened Loans
  import Payments

  // ---------------------------------------------------------------------
  // Transaction ids

  /** `txn-${Date.now()}-lnp-${random}` where `random` is characters two to
      seven of `Math.random().toString(36)`, upper-cased. `fraction36` is
      the base-36 text after the leading "0."; it may be shorter than six
      characters. */
  function TxnId(timestampMs: nat, fraction36: string): (t: string)
    ensures ParseTxnId(t) == Some((timestampMs, UpperAscii(fraction36[..Min(6, |fraction36|)])))
  {
    TxnIdRoundTrip(timestampMs, fraction36);
    "txn-" + NatToString(timestampMs) + "-lnp-" + UpperAscii(fraction36[..Min(6, |fraction36|)])
  }

  /** The length of the longest prefix of decimal digits. */
  function DigitRun(s: string): (k: nat)
    ensures k <= |s| && AllDigits(s[..k])
    ensures k < |s| ==> !IsDigit(s[k])
  {
    if s == [] || !IsDigit(s[0]) then 0
    else
      var k := 1 + DigitRun(s[1..]);
      assert s[..k] == [s[0]] + s[1..][..k - 1];
      k
  }

  /** Reads the timestamp and the random part back out of a transaction id. */
  function ParseTxnId(s: string): Option<(nat, string)> {
    if "txn-" <= s then
      var rest := s[4..];
      var k := DigitRun(rest);
      if k > 0 && "-lnp-" <= rest[k..] then Some((DigitsValue(rest[..k]), rest[k + 5..]))
      else None
    else None
  }

  lemma DigitRunOfNumber(d: string, tail: string)
    requires AllDigits(d) && tail != [] && tail[0] == '-'
    ensures DigitRun(d + tail) == |d|
  {
    var s := d + tail;
    assert s[|d|] == '-';
    assert s[..|d|] == d;
  }

  /** A transaction id reads back as the timestamp and the (at most six)
      upper-cased random characters it was made from. */
  lemma TxnIdRoundTrip(timestampMs: nat, fraction36: string)
    ensures var s := "txn-" + NatToString(timestampMs) + "-lnp-" + UpperAscii(fraction36[..Min(6, |fraction36|)]);
            ParseTxnId(s) == Some((timestampMs, UpperAscii(fraction36[..Min(6, |fraction36|)])))
  {
    var digits := NatToString(timestampMs);
    var random := UpperAscii(fraction36[..Min(6, |fraction36|)]);
    var tail := "-lnp-" + random;
    var rest := digits + tail;
    var s := "txn-" + NatToString(timestampMs) + "-lnp-" + random;
    assert s == "txn-" + rest;
    SplitAt("txn-", rest);
    assert s[4..] == rest;
    DigitRunOfNumber(digits, tail);
    SplitAt(digits, tail);
    SplitAt("-lnp-", random);
    assert rest[|digits| + 5..] == tail[5..] == random;
    NatToStringValue(timestampMs);
  }

  lemma SplitAt(a: string, b: string)
    ensures (a + b)[..|a|] == a && (a + b)[|a|..] == b
  {
  }

  /** A transaction id fits the 100-character column whenever the
      timestamp has at most 80 digits. */
  lemma TxnIdFits(timestampMs: nat, fraction36: string)
    requires timestampMs < Pow10(80)
    ensures |TxnId(timestampMs, fraction36)| <= Payments.TransactionIdWidth
  {
    NatToStringLength(timestampMs, 80);
  }

  // ---------------------------------------------------------------------
  // Making a payment

  /** The request body: the amount in cents, the payment method and notes. */
  datatype PaymentRequest = PaymentRequest(amount: int, paymentMethod: Option<string>, notes: Option<string>)

  /** What the host supplies: the id the database generates for the row,
      the current time, `Date.now()` in milliseconds and the base-36 digits
      of the random draw. */
  datatype PayEnv = PayEnv(paymentId: string, now: int, timestampMs: nat, fraction36: string)

  datatype PayError =
    | NotLoggedIn        // 401
    | NonPositiveAmount  // 400, "Payment amount must be greater than zero."
    | LoanNotFound       // 404
    | NotPayable         // 400, "only be made for active or approved loans"
    | Overpayment        // 400, "exceeds the remaining loan balance"
    | StoreRejected      // 500, the payment row is refused

  /** The `data` of the 201 response. */
  datatype Receipt = Receipt(paymentId: string, remainingBalance: int, isLoanCompleted: bool)

  /** What one committed payment writes and answers. */
  datatype Settlement = Settlement(loan: Loan, payment: Payments.Payment, receipt: Receipt)

  /** The statuses the guard at line 50 lets through. */
  predicate Payable(s: LoanStatus) {
    s == Active || s == Approved
  }

  /** The balance left after paying `amount`, an unset total counting as 0. */
  function RemainingAfter(l: Loan, amount: int): int {
    l.totalAmount.GetOr(0) - (l.paidAmount + amount)
  }

  /** The `Loan.update`: the new paid amount and remaining balance, and
      COMPLETED once nothing is left to pay. */
  function Settle(l: Loan, amount: int): (after: Loan)
    ensures && SameApplication(l, after) && SameDecision(l, after) && after.reminderSent == l.reminderSent
            && after.paidAmount == l.paidAmount + amount && after.remainingAmount.Some?
            && after.paidAmount + after.remainingAmount.value == l.totalAmount.GetOr(0)
    ensures after.remainingAmount.value <= 0 ==> after.status == Completed
    ensures after.remainingAmount.value > 0 ==> after.status == l.status
  {
    var remaining := RemainingAfter(l, amount);
    l.(remainingAmount := Some(remaining), paidAmount := l.paidAmount + amount,
       status := if remaining <= 0 then Completed else l.status)
  }

  predicate PaymentIdTaken(payments: seq<Payments.Payment>, id: string) {
    exists i :: 0 <= i < |payments| && payments[i].id == id
  }

  /** `make_payment`: the committed settlement, or the reason for the
      rollback; the guards are checked in the order of the source. */
  function PaymentOutcome(loans: map<string, Loan>, payments: seq<Payments.Payment>, actor: Option<string>,
                          loanId: string, req: PaymentRequest, env: PayEnv): (r: Result<Settlement, PayError>)
    ensures actor.None? ==> r == Err(NotLoggedIn)
    ensures actor.Some? && req.amount <= 0 ==> r == Err(NonPositiveAmount)
    ensures actor.Some? && req.amount > 0 && loanId !in loans ==> r == Err(LoanNotFound)
    ensures actor.Some? && req.amount > 0 && loanId in loans && !Payable(loans[loanId].status) ==> r == Err(NotPayable)
    ensures (actor.Some? && req.amount > 0 && loanId in loans && Payable(loans[loanId].status)
             && RemainingAfter(loans[loanId], req.amount) < 0) ==> r == Err(Overpayment)
    ensures (actor.Some? && req.amount > 0 && loanId in loans && Payable(loans[loanId].status)
             && RemainingAfter(loans[loanId], req.amount) >= 0)
            ==> var created := Payments.Create(env.paymentId, loans[loanId].id, req.amount, req.paymentMethod,
                                               Some(TxnId(env.timestampMs, env.fraction36)), req.notes,
                                               Some(Payments.Completed), Some(env.now), actor, env.now);
                (r.Ok? <==> created.Some? && !PaymentIdTaken(payments, env.paymentId))
                && (r.Err? ==> r == Err(StoreRejected))
    ensures r.Ok? ==>
              var before := loans[loanId];
              var after := r.value.loan;
              && actor.Some? && req.amount > 0 && loanId in loans && Payable(before.status)
              && SameApplication(before, after) && SameDecision(before, after)
              && after.reminderSent == before.reminderSent
              && after.paidAmount == before.paidAmount + req.amount
              && after.remainingAmount.Some? && after.remainingAmount.value >= 0
              && after.paidAmount + after.remainingAmount.value == before.totalAmount.GetOr(0)
              && (after.remainingAmount.value == 0 ==> after.status == Completed)
              && (after.remainingAmount.value > 0 ==> after.status == before.status)
              && r.value.payment.id == env.paymentId && !PaymentIdTaken(payments, env.paymentId)
              && r.value.payment.loanId == before.id && r.value.payment.amount == req.amount
              && r.value.payment.status == Payments.Completed && r.value.payment.paymentDate == env.now
              && r.value.payment.transactionId == Some(TxnId(env.timestampMs, env.fraction36))
              && r.value.payment.receivedBy == actor
              && Payments.FieldsValid(r.value.payment)
              && r.value.receipt.paymentId == env.paymentId
              && r.value.receipt.remainingBalance == after.remainingAmount.value
              && (r.value.receipt.isLoanCompleted <==> after.remainingAmount.value == 0)
  {
    if actor.None? then Err(NotLoggedIn)
    else if req.amount <= 0 then Err(NonPositiveAmount)
    else if loanId !in loans then Err(LoanNotFound)
    else if !Payable(loans[loanId].status) then Err(NotPayable)
    else
      var l := loans[loanId];
      var remaining := RemainingAfter(l, req.amount);
      if remaining < 0 then Err(Overpayment)
      else
        match Payments.Create(env.paymentId, l.id, req.amount, req.paymentMethod,
                              Some(TxnId(env.timestampMs, env.fraction36)), req.notes,
                              Some(Payments.Completed), Some(env.now), actor, env.now)
        case None => Err(StoreRejected)
        case Some(p) =>
          if PaymentIdTaken(payments, env.paymentId) then Err(StoreRejected)
          else Ok(Settlement(Settle(l, req.amount), p, Receipt(p.id, remaining, remaining <= 0)))
  }

  /** A payment that passes the guards is refused as an overpayment exactly
      when it is larger than what is left to pay. */
  lemma OverpaymentIff(loans: map<string, Loan>, payments: seq<Payments.Payment>, actor: string,
                       loanId: string, req: PaymentRequest, env: PayEnv)
    requires req.amount > 0 && loanId in loans && Payable(loans[loanId].status)
    ensures PaymentOutcome(loans, payments, Some(actor), loanId, req, env) == Err(Overpayment)
            <==> req.amount > loans[loanId].totalAmount.GetOr(0) - loans[loanId].paidAmount
  {
    if req.amount <= loans[loanId].totalAmount.GetOr(0) - loans[loanId].paidAmount {
      assert RemainingAfter(loans[loanId], req.amount) >= 0;
    }
  }

  /** A loan whose total was never set cannot be paid: every positive
      amount overshoots the zero it counts as. */
  lemma UnsetTotalNeverPayable(loans: map<string, Loan>, payments: seq<Payments.Payment>, actor: Option<string>,
                               loanId: string, req: PaymentRequest, env: PayEnv)
    requires loanId in loans && loans[loanId].totalAmount.None? && loans[loanId].paidAmount >= 0
    ensures PaymentOutcome(loans, payments, actor, loanId, req, env).Err?
  {
  }

  /** Overdue, pending, rejected, completed and defaulted loans are refused
      before any balance is computed. */
  lemma OnlyActiveOrApprovedPayable(loans: map<string, Loan>, payments: seq<Payments.Payment>, actor: string,
                                    loanId: string, req: PaymentRequest, env: PayEnv)
    requires req.amount > 0 && loanId in loans && !Payable(loans[loanId].status)
    ensures PaymentOutcome(loans, payments, Some(actor), loanId, req, env) == Err(NotPayable)
  {
  }

  /** Paying exactly the outstanding balance of a payable loan, with a
      payment method and a fresh row id, completes it. */
  lemma ExactPaymentCompletes(loans: map<string, Loan>, payments: seq<Payments.Payment>, actor: string,
                              loanId: string, req: PaymentRequest, env: PayEnv)
    requires loanId in loans && Payable(loans[loanId].status)
    requires req.amount == loans[loanId].totalAmount.GetOr(0) - loans[loanId].paidAmount > 0
    requires req.paymentMethod.Some? && |req.paymentMethod.value| <= Payments.PaymentMethodWidth
    requires env.timestampMs < Pow10(80) && !PaymentIdTaken(payments, env.paymentId)
    ensures var r := PaymentOutcome(loans, payments, Some(actor), loanId, req, env);
            r.Ok? && r.value.loan.status == Completed && r.value.receipt.isLoanCompleted
            && r.value.receipt.remainingBalance == 0
  {
    TxnIdFits(env.timestampMs, env.fraction36);
    var l := loans[loanId];
    assert RemainingAfter(l, req.amount) == 0;
    var txn := Some(TxnId(env.timestampMs, env.fraction36));
    assert Payments.Create(env.paymentId, l.id, req.amount, req.paymentMethod, txn, req.notes,
                           Some(Payments.Completed), Some(env.now), Some(actor), env.now).Some?;
  }
}
