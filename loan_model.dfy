/** The Loan record of src/models/Loan.ts: the status enumeration, the
    stored attributes, the column validators and the defaults that
    `Loan.create` fills in.

    Decimal columns are held in hundredths: `amount`, `totalAmount`,
    `paidAmount` and `remainingAmount` in cents, and `interestRate` in
    hundredths of the stored fraction (the application stores 0.15 for a
    one-week loan, which is 15 here). Dates are minutes since the epoch. */
module Loans {
  import opened Common
  import CollateralJson

  datatype LoanStatus = Pending | Approved | Rejected | Active | Completed | Defaulted | Overdue

  /** The string value of each enumeration member (src/models/Loan.ts:6-14). */
  function StatusName(s: LoanStatus): string {
    match s
    case Pending => "pending"
    case Approved => "approved"
    case Rejected => "rejected"
    case Active => "active"
    case Completed => "completed"
    case Defaulted => "defaulted"
    case Overdue => "overdue"
  }

  /** The ENUM column accepts exactly the seven names. */
  function ParseStatus(name: string): (r: Option<LoanStatus>)
    ensures r.Some? ==> StatusName(r.value) == name
    ensures (exists s :: StatusName(s) == name) ==> r.Some?
  {
    if name == "pending" then Some(Pending)
    else if name == "approved" then Some(Approved)
    else if name == "rejected" then Some(Rejected)
    else if name == "active" then Some(Active)
    else if name == "completed" then Some(Completed)
    else if name == "defaulted" then Some(Defaulted)
    else if name == "overdue" then Some(Overdue)
    else None
  }

  datatype Loan = Loan(
    id: string,
    loanNumber: string,
    userId: string,
    amount: int,
    interestRate: int,
    termWeeks: int,
    collateralImages: Option<string>,
    purpose: string,
    collateralDetails: Option<string>,
    status: LoanStatus,
    reminderSent: bool,
    approvedBy: Option<string>,
    approvedAt: Option<int>,
    approvalReason: Option<string>,
    startDate: Option<int>,
    endDate: Option<int>,
    totalAmount: Option<int>,
    paidAmount: int,
    remainingAmount: Option<int>)

  // Column bounds, in the units above.
  const MinAmount: int := 20000          // 200.00
  const MaxAmount: int := 100000000      // 1,000,000.00
  const MinTerm: int := 1
  const MaxTerm: int := 4
  const MinRate: int := 0
  const MaxRate: int := 10000            // 100.00
  const LoanNumberWidth: int := 20       // STRING(20)

  const MinutesPerDay: int := 1440

  /** The validators and widths declared in `Loan.init`
      (src/models/Loan.ts:75-111). */
  predicate FieldsValid(l: Loan) {
    && MinAmount <= l.amount <= MaxAmount
    && MinRate <= l.interestRate <= MaxRate
    && MinTerm <= l.termWeeks <= MaxTerm
    && |l.loanNumber| <= LoanNumberWidth
  }

  /** None of the decision fields is set: the loan has not been approved
      or rejected yet. */
  predicate Undecided(l: Loan) {
    && l.approvedBy.None? && l.approvedAt.None? && l.approvalReason.None?
    && l.startDate.None? && l.endDate.None?
    && l.totalAmount.None? && l.remainingAmount.None?
  }

  /** The attributes that the application fixed: no later operation
      touches them. */
  predicate SameApplication(a: Loan, b: Loan) {
    && a.id == b.id && a.loanNumber == b.loanNumber && a.userId == b.userId
    && a.amount == b.amount && a.interestRate == b.interestRate && a.termWeeks == b.termWeeks
    && a.collateralImages == b.collateralImages && a.purpose == b.purpose
    && a.collateralDetails == b.collateralDetails
  }

  /** The decision fields: written once, by `approveLoan`. */
  predicate SameDecision(a: Loan, b: Loan) {
    && a.approvedBy == b.approvedBy && a.approvedAt == b.approvedAt && a.approvalReason == b.approvalReason
    && a.startDate == b.startDate && a.endDate == b.endDate && a.totalAmount == b.totalAmount
  }

  /** The image filenames, as the `collateralImages` getter reads them. */
  function CollateralImages(l: Loan): Option<seq<string>> {
    CollateralJson.ReadImages(l.collateralImages)
  }

  /** `Loan.create` with the attributes the application passes: the status
      given explicitly as pending, the images through the setter, and the
      column defaults for the rest (paidAmount 0, reminderSent false,
      every nullable decision column null). */
  function NewLoan(id: string, loanNumber: string, userId: string, amount: int,
                   interestRate: int, termWeeks: int, images: seq<string>,
                   purpose: string, collateralDetails: Option<string>): (l: Loan)
    ensures l.status == Pending && l.paidAmount == 0 && !l.reminderSent
    ensures Undecided(l)
    ensures CollateralImages(l) == Some(images)
    ensures l.id == id && l.loanNumber == loanNumber && l.userId == userId
    ensures l.amount == amount && l.interestRate == interestRate && l.termWeeks == termWeeks
    ensures l.purpose == purpose && l.collateralDetails == collateralDetails
  {
    CollateralJson.CollateralRoundTrip(images);
    Loan(id, loanNumber, userId, amount, interestRate, termWeeks,
         CollateralJson.StoreImages(images), purpose, collateralDetails,
         Pending, false, None, None, None, None, None, None, 0, None)
  }
}
