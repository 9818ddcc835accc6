/** The two pure helpers of the invoice page: the validator and the
    derived-amount calculator (pages/Invoice.py:17-32). */
module InvoiceRules {

  /** Money columns are floating point in the schema and shown as whole
      amounts; the model keeps them exact. */
  type Money = real

  /** The four checks of the validator, in the order it runs them. */
  datatype ValidationError =
    | InvalidPrice     // price < 0
    | InvalidQuantity  // quantity <= 0
    | InvalidPaid      // paid < 0
    | OverPayment      // paid > price * quantity

  datatype Verdict = Accepted | Rejected(error: ValidationError)

  function Total(price: Money, quantity: int): Money {
    price * quantity as real
  }

  /** The condition the validator accepts, stated all at once. */
  predicate WellFormedAmounts(price: Money, quantity: int, paid: Money) {
    price >= 0.0 && quantity > 0 && paid >= 0.0 && paid <= Total(price, quantity)
  }

  /** `validate_invoice`: runs the checks in a fixed order and reports the
      first one that fails. */
  function Validate(price: Money, quantity: int, paid: Money): (v: Verdict)
    ensures v == Accepted <==> WellFormedAmounts(price, quantity, paid)
  {
    if price < 0.0 then Rejected(InvalidPrice)
    else if quantity <= 0 then Rejected(InvalidQuantity)
    else if paid < 0.0 then Rejected(InvalidPaid)
    else if paid > Total(price, quantity) then Rejected(OverPayment)
    else Accepted
  }

  /** The first failing check decides the verdict: each error is reported
      exactly when its own check fails and every earlier check passed. */
  lemma ValidateFirstFailureDecides(price: Money, quantity: int, paid: Money)
    ensures Validate(price, quantity, paid) == Rejected(InvalidPrice) <==> price < 0.0
    ensures Validate(price, quantity, paid) == Rejected(InvalidQuantity)
        <==> price >= 0.0 && quantity <= 0
    ensures Validate(price, quantity, paid) == Rejected(InvalidPaid)
        <==> price >= 0.0 && quantity > 0 && paid < 0.0
    ensures Validate(price, quantity, paid) == Rejected(OverPayment)
        <==> price >= 0.0 && quantity > 0 && paid >= 0.0 && paid > Total(price, quantity)
  {
  }

  /** The message shown for a verdict; the empty string when it is accepted. */
  function Message(v: Verdict): (m: string)
    ensures m == "" <==> v == Accepted
  {
    match v
    case Accepted => ""
    case Rejected(InvalidPrice) => "Giá không hợp lệ"
    case Rejected(InvalidQuantity) => "Số lượng phải > 0"
    case Rejected(InvalidPaid) => "Đã trả không hợp lệ"
    case Rejected(OverPayment) => "Đã trả > Tổng tiền"
  }

  /** Each verdict has its own message, so the message tells which check failed. */
  lemma MessagesDistinct(v: Verdict, w: Verdict)
    ensures Message(v) == Message(w) ==> v == w
  {
  }

  datatype Amounts = Amounts(total: Money, debt: Money)

  /** `calculate`: the amount owed in all and the part of it not yet paid. */
  function Calculate(price: Money, quantity: int, paid: Money): (a: Amounts)
    ensures a.total == Total(price, quantity)
    ensures a.total - a.debt == paid
  {
    var total := price * quantity as real;
    Amounts(total, total - paid)
  }

  /** For accepted amounts the debt lies between nothing and the whole total,
      and it is zero exactly when everything has been paid. */
  lemma AcceptedDebtBounds(price: Money, quantity: int, paid: Money)
    requires Validate(price, quantity, paid) == Accepted
    ensures 0.0 <= Calculate(price, quantity, paid).debt <= Calculate(price, quantity, paid).total
    ensures Calculate(price, quantity, paid).debt == 0.0 <==> paid == Total(price, quantity)
  {
  }

  /** Once price, quantity and paid pass their own checks, an over-payment is
      rejected exactly when the computed debt would be negative. */
  lemma OverPaymentIsNegativeDebt(price: Money, quantity: int, paid: Money)
    requires price >= 0.0 && quantity > 0 && paid >= 0.0
    ensures Validate(price, quantity, paid) == Rejected(OverPayment)
        <==> Calculate(price, quantity, paid).debt < 0.0
  {
  }
}
