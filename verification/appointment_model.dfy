/** The Appointment schema (Backend/models/Appointment.js). */
module AppointmentModel {
  import opened Wrappers

  datatype AppointmentStatus = Proposed | Pending | Confirmed | Completed | Cancelled

  /** The values the schema's `status` enum admits. */
  const StatusNames: seq<string> := ["proposed", "pending", "confirmed", "completed", "cancelled"]

  function StatusName(s: AppointmentStatus): string {
    match s
    case Proposed => "proposed"
    case Pending => "pending"
    case Confirmed => "confirmed"
    case Completed => "completed"
    case Cancelled => "cancelled"
  }

  /** Mongoose's enum check on `status`: a string is accepted iff it names a status. */
  function ParseStatus(s: string): (r: Option<AppointmentStatus>)
    ensures r.Some? ==> StatusName(r.value) == s
    ensures r.None? <==> s !in StatusNames
  {
    if s == "proposed" then Some(Proposed)
    else if s == "pending" then Some(Pending)
    else if s == "confirmed" then Some(Confirmed)
    else if s == "completed" then Some(Completed)
    else if s == "cancelled" then Some(Cancelled)
    else None
  }

  /** `paymentStatus` of an appointment. */
  datatype PaymentStatus = PaymentPending | Paid | Refunded

  const PaymentStatusNames: seq<string> := ["pending", "paid", "refunded"]

  function PaymentStatusName(s: PaymentStatus): string {
    match s
    case PaymentPending => "pending"
    case Paid => "paid"
    case Refunded => "refunded"
  }

  function ParsePaymentStatus(s: string): (r: Option<PaymentStatus>)
    ensures r.Some? ==> PaymentStatusName(r.value) == s
    ensures r.None? <==> s !in PaymentStatusNames
  {
    if s == "pending" then Some(PaymentPending)
    else if s == "paid" then Some(Paid)
    else if s == "refunded" then Some(Refunded)
    else None
  }

  /** Every status has a name in the enum and parses back to itself. */
  lemma StatusNamesRoundTrip(st: AppointmentStatus, ps: PaymentStatus)
    ensures StatusName(st) in StatusNames && ParseStatus(StatusName(st)) == Some(st)
    ensures PaymentStatusName(ps) in PaymentStatusNames
    ensures ParsePaymentStatus(PaymentStatusName(ps)) == Some(ps)
  {
  }

  const DefaultStatus: AppointmentStatus := Pending
  const DefaultPaymentStatus: PaymentStatus := PaymentPending
  const DefaultDuration: int := 30

  /** An appointment; `appointmentDate` is a day number, `consultationFee` in cents. */
  datatype Appointment = Appointment(
    id: Id,
    patient: Id,
    doctor: Id,
    appointmentDate: int,
    appointmentTime: string,
    duration: int,
    consultationFee: int,
    status: AppointmentStatus,
    paymentStatus: PaymentStatus,
    paymentId: Option<string>,
    notes: Option<string>,
    createdAt: int)

  /** `Appointment.create(...)`: the required fields are given, `status` and
      `paymentStatus` fall back to their defaults when not given, `duration` is 30,
      `createdAt` is the creation instant. */
  function NewAppointment(id: Id, patient: Id, doctor: Id, date: int, time: string, fee: int,
                          status: Option<AppointmentStatus>, paymentStatus: Option<PaymentStatus>,
                          now: int): Appointment
  {
    Appointment(id, patient, doctor, date, time, DefaultDuration, fee,
                if status.Some? then status.value else DefaultStatus,
                if paymentStatus.Some? then paymentStatus.value else DefaultPaymentStatus,
                None, None, now)
  }

  /** The schema's defaults, as a creation that gives neither status sees them. */
  lemma NewAppointmentDefaults(id: Id, patient: Id, doctor: Id, date: int, time: string,
                               fee: int, now: int)
    ensures var a := NewAppointment(id, patient, doctor, date, time, fee, None, None, now);
      a.status == Pending && a.paymentStatus == PaymentPending && a.duration == 30
      && a.createdAt == now && a.paymentId.None? && a.notes.None?
  {
  }

  function AppointmentId(a: Appointment): Id { a.id }
  function AppointmentDateKey(a: Appointment): int { a.appointmentDate }
  function AppointmentCreatedKey(a: Appointment): int { a.createdAt }
}
