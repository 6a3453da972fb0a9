/** The Payment schema (Backend/models/Payment.js): one settled charge of an appointment. */
module PaymentModel {
  import opened Wrappers

  datatype ChargeStatus = ChargeCompleted | ChargeRefunded | ChargeFailed

  const ChargeStatusNames: seq<string> := ["completed", "refunded", "failed"]

  function ChargeStatusName(s: ChargeStatus): string {
    match s
    case ChargeCompleted => "completed"
    case ChargeRefunded => "refunded"
    case ChargeFailed => "failed"
  }

  function ParseChargeStatus(s: string): (r: Option<ChargeStatus>)
    ensures r.Some? ==> ChargeStatusName(r.value) == s
    ensures r.None? <==> s !in ChargeStatusNames
  {
    if s == "completed" then Some(ChargeCompleted)
    else if s == "refunded" then Some(ChargeRefunded)
    else if s == "failed" then Some(ChargeFailed)
    else None
  }

  const DefaultChargeStatus: ChargeStatus := ChargeCompleted

  /** A payment; `amount` in cents, `stripePaymentId` the processor's payment intent. */
  datatype Payment = Payment(
    id: Id,
    appointment: Id,
    patient: Id,
    doctor: Id,
    amount: int,
    stripePaymentId: string,
    status: ChargeStatus,
    createdAt: int)

  /** `Payment.create(...)`, `status` defaulting to completed. */
  function NewPayment(id: Id, appointment: Id, patient: Id, doctor: Id, amount: int,
                      stripePaymentId: string, status: Option<ChargeStatus>, now: int): Payment
  {
    Payment(id, appointment, patient, doctor, amount, stripePaymentId,
            if status.Some? then status.value else DefaultChargeStatus, now)
  }

  lemma NewPaymentDefaults(id: Id, appointment: Id, patient: Id, doctor: Id, amount: int,
                           stripePaymentId: string, now: int)
    ensures var p := NewPayment(id, appointment, patient, doctor, amount, stripePaymentId, None, now);
      p.status == ChargeCompleted && p.createdAt == now && ChargeStatusName(p.status) == "completed"
  {
  }

  function PaymentId(p: Payment): Id { p.id }
  function PaymentCreatedKey(p: Payment): int { p.createdAt }
  function PaymentAmount(p: Payment): int { p.amount }
}
