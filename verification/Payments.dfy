/** What the payment gateways tell the rest of the system about one payment. */
module Payments {
  import opened Outcomes

  /** The verified payment record. `reference` is "" when the provider sent none. */
  datatype PaymentData = PaymentData(
    success: bool,
    reference: string,
    email: Option<string>,
    amountKobo: int)

  /** `Math.round`: nearest integer, halves upwards. */
  function Round(x: real): int {
    (x + 0.5).Floor
  }

  lemma RoundOfWhole(n: int)
    ensures Round(n as real) == n
  {
  }
}
