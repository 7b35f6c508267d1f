/** The Payment record of src/models/Payment.ts: its status enumeration,
    its attributes, the validators and the defaults of `Payment.create`.
    `receivedBy` is the nullable foreign key that the association
    `Payment.belongsTo(User, { foreignKey: 'receivedBy' })` of
    src/models/index.ts:23 adds to the model. Amounts are in cents and
    dates in minutes since the epoch. */
module Payments {
  import opened Common

  datatype PaymentStatus = Pending | Completed | Failed

  function StatusName(s: PaymentStatus): string {
    match s
    case Pending => "pending"
    case Completed => "completed"
    case Failed => "failed"
  }

  /** The ENUM column accepts exactly the three names (src/models/Payment.ts:6-10). */
  function ParseStatus(name: string): (r: Option<PaymentStatus>)
    ensures r.Some? ==> StatusName(r.value) == name
    ensures (exists s :: StatusName(s) == name) ==> r.Some?
  {
    if name == "pending" then Some(Pending)
    else if name == "completed" then Some(Completed)
    else if name == "failed" then Some(Failed)
    else None
  }

  datatype Payment = Payment(
    id: string,
    loanId: string,
    amount: int,
    paymentDate: int,
    status: PaymentStatus,
    paymentMethod: string,
    transactionId: Option<string>,
    notes: Option<string>,
    receivedBy: Option<string>)

  const MinAmount: int := 1                 // 0.01
  const PaymentMethodWidth: int := 50       // STRING(50)
  const TransactionIdWidth: int := 100      // STRING(100)

  /** The validators and widths that an inserted row satisfies. */
  predicate FieldsValid(p: Payment) {
    && p.amount >= MinAmount
    && |p.paymentMethod| <= PaymentMethodWidth
    && (p.transactionId.Some? ==> |p.transactionId.value| <= TransactionIdWidth)
  }

  /** `Payment.create`: status defaults to pending and paymentDate to the
      current time; the insert fails (None) when the amount is below 0.01,
      the payment method is missing or the method or transaction id is
      wider than its column. */
  function Create(id: string, loanId: string, amount: int, paymentMethod: Option<string>,
                  transactionId: Option<string>, notes: Option<string>,
                  status: Option<PaymentStatus>, paymentDate: Option<int>, receivedBy: Option<string>,
                  now: int): (r: Option<Payment>)
    ensures r.Some? <==> (amount >= MinAmount && paymentMethod.Some? && |paymentMethod.value| <= PaymentMethodWidth
                          && (transactionId.Some? ==> |transactionId.value| <= TransactionIdWidth))
    ensures r.Some? ==> FieldsValid(r.value) && r.value.id == id && r.value.loanId == loanId && r.value.amount == amount
    ensures r.Some? && status.None? ==> r.value.status == Pending
    ensures r.Some? && status.Some? ==> r.value.status == status.value
    ensures r.Some? && paymentDate.None? ==> r.value.paymentDate == now
    ensures r.Some? && paymentDate.Some? ==> r.value.paymentDate == paymentDate.value
    ensures r.Some? ==> && r.value.paymentMethod == paymentMethod.value && r.value.transactionId == transactionId
                        && r.value.notes == notes && r.value.receivedBy == receivedBy
  {
    if amount < MinAmount || paymentMethod.None? || |paymentMethod.value| > PaymentMethodWidth then None
    else if transactionId.Some? && |transactionId.value| > TransactionIdWidth then None
    else Some(Payment(id, loanId, amount, paymentDate.GetOr(now), status.GetOr(Pending),
                      paymentMethod.value, transactionId, notes, receivedBy))
  }
}
