/** The payment flow (Backend/controllers/paymentController.js): the checkout request sent to
    the payment processor, the two confirmation handlers that settle an appointment, the
    admin refund with its 24-hour rule, and the payment history. The processor and the mail
    service are outside the model: what they answer is a parameter. */
module PaymentController {
  import opened Wrappers
  import opened Seqs
  import opened Clock
  import opened UserModel
  import opened AppointmentModel
  import opened PaymentModel
  import opened Store

  /** What `createPaymentIntent` asks the processor for: one line item of `unitAmount` cents,
      tagged with the appointment's id. */
  datatype CheckoutRequest = CheckoutRequest(
    currency: string,
    productName: string,
    unitAmount: int,
    quantity: nat,
    mode: string,
    appointmentId: Id)

  /** The fields of a retrieved checkout session that confirmation reads. */
  datatype Session = Session(
    paymentStatus: string,
    appointmentId: Option<Id>,
    paymentIntent: Option<string>)

  /** The records a successful settlement answers with. */
  datatype Receipt = Receipt(payment: Payment, appointment: Appointment)

  /** A value Mongoose accepts for a required string field. */
  predicate Present(s: Option<string>) {
    s.Some? && s.value != ""
  }

  /** Checkout creation: only for an appointment of the caller; the amount charged is the one
      the client sent, whatever the appointment's fee. `created` is the processor's answer:
      whether it created the session; a failure answers 500. */
  function CreatePaymentIntent(db: Db, caller: Id, appointmentId: Id, amount: int, created: bool)
    : (r: Response<CheckoutRequest>)
    requires db.Valid()
    reads db
    ensures r.Ok? <==>
      created && exists a :: a in db.appointments && a.id == appointmentId && a.patient == caller
    ensures r.Ok? ==> r.value.unitAmount == amount && r.value.quantity == 1
                      && r.value.currency == "usd" && r.value.appointmentId == appointmentId
    ensures r.Err? ==> r == Err(404, "Appointment not found or not yours")
                       || (r == Err(500, "Payment setup failed") && !created)
    ensures (forall a :: a in db.appointments && a.id == appointmentId ==> a.patient != caller)
            ==> r == Err(404, "Appointment not found or not yours")
    ensures !created && (exists a :: a in db.appointments && a.id == appointmentId && a.patient == caller)
            ==> r == Err(500, "Payment setup failed")
  {
    var k := FindAppointment(db.appointments, appointmentId);
    if k.None? || db.appointments[k.value].patient != caller then
      assert forall a :: a in db.appointments && a.id == appointmentId ==> a.patient != caller by {
        forall a | a in db.appointments && a.id == appointmentId ensures a.patient != caller {
          FindAppointmentExact(db.appointments, appointmentId, a);
        }
      }
      Err(404, "Appointment not found or not yours")
    else
      assert db.appointments[k.value] in db.appointments;
      if !created then Err(500, "Payment setup failed")
      else Ok(CheckoutRequest("usd", "Appointment Fee", amount, 1, "payment", appointmentId))
  }

  /** The records a settlement of the appointment at `k` writes: a completed payment for
      the appointment's fee under the next id, and the appointment paid and confirmed with the
      intent attached. Its previous status is not consulted. */
  function Settlement(t: Tables, k: nat, intent: string, now: int): (rc: Receipt)
    requires k < |t.appointments|
    ensures var a := t.appointments[k];
      && rc.payment.id == t.nextId && rc.payment.appointment == a.id
      && rc.payment.patient == a.patient && rc.payment.doctor == a.doctor
      && rc.payment.amount == a.consultationFee && rc.payment.stripePaymentId == intent
      && rc.payment.status == ChargeCompleted && rc.payment.createdAt == now
      && rc.appointment.paymentStatus == Paid && rc.appointment.status == Confirmed
      && rc.appointment.paymentId == Some(intent)
      && rc.appointment == a.(paymentStatus := Paid, status := Confirmed, paymentId := Some(intent))
  {
    var a := t.appointments[k];
    Receipt(NewPayment(t.nextId, a.id, a.patient, a.doctor, a.consultationFee,
                       intent, Some(ChargeCompleted), now),
            a.(paymentStatus := Paid, status := Confirmed, paymentId := Some(intent)))
  }

  /** The database after that settlement: one payment more, the one appointment rewritten. */
  function AfterSettlement(t: Tables, k: nat, intent: string, now: int): (t': Tables)
    requires k < |t.appointments|
    ensures t'.payments == t.payments + [Settlement(t, k, intent, now).payment]
    ensures t'.appointments == t.appointments[k := Settlement(t, k, intent, now).appointment]
    ensures t'.users == t.users && t'.doctors == t.doctors && t'.patients == t.patients
    ensures t'.nextId == t.nextId + 1
  {
    var rc := Settlement(t, k, intent, now);
    t.(payments := t.payments + [rc.payment], appointments := t.appointments[k := rc.appointment],
       nextId := t.nextId + 1)
  }

  /** Settlement keeps the database consistent. */
  lemma SettlementConsistent(t: Tables, k: nat, intent: string, now: int)
    requires Consistent(t) && k < |t.appointments|
    ensures Consistent(AfterSettlement(t, k, intent, now))
  {
    var rc := Settlement(t, k, intent, now);
    UpdateAppointmentConsistent(t, k, rc.appointment);
    var t1 := t.(appointments := t.appointments[k := rc.appointment]);
    assert t1.appointments[k] == rc.appointment;
    AppendPaymentConsistent(t1, rc.payment);
    assert AfterSettlement(t, k, intent, now) == t1.(payments := t1.payments + [rc.payment], nextId := t1.nextId + 1);
  }

  /** The write both confirmation handlers share. */
  method Settle(db: Db, k: nat, intent: string, now: int) returns (rc: Receipt)
    requires db.Valid() && k < |db.appointments|
    modifies db
    ensures db.Valid()
    ensures rc == Settlement(old(db.State()), k, intent, now)
    ensures db.State() == AfterSettlement(old(db.State()), k, intent, now)
  {
    var t := db.State();
    rc := Settlement(t, k, intent, now);
    SettlementConsistent(t, k, intent, now);
    db.Load(AfterSettlement(t, k, intent, now));
  }

  /** The guard chain of checkout confirmation: the appointment index and payment intent to
      settle, or the error. A session the processor cannot return is None. */
  function CheckoutTarget(apps: seq<Appointment>, session: Option<Session>)
    : (r: Response<(nat, string)>)
    ensures session.None? ==> r == Err(500, "Confirmation failed")
    ensures session.Some? && session.value.paymentStatus != "paid"
            ==> r == Err(400, "Payment not completed")
    ensures session.Some? && session.value.paymentStatus == "paid"
            && (session.value.appointmentId.None?
                || FindAppointment(apps, session.value.appointmentId.value).None?)
            ==> r == Err(404, "Appointment not found")
    ensures r.Ok? <==>
      && session.Some? && session.value.paymentStatus == "paid"
      && session.value.appointmentId.Some?
      && FindAppointment(apps, session.value.appointmentId.value).Some?
      && Present(session.value.paymentIntent)
    ensures r.Ok? ==> r.value.0 < |apps| && apps[r.value.0].id == session.value.appointmentId.value
                      && r.value.1 == session.value.paymentIntent.value && r.value.1 != ""
    ensures r.Err? && session.Some? && session.value.paymentStatus == "paid"
            && session.value.appointmentId.Some?
            && FindAppointment(apps, session.value.appointmentId.value).Some?
            ==> r == Err(500, "Confirmation failed")
  {
    if session.None? then Err(500, "Confirmation failed")
    else if session.value.paymentStatus != "paid" then Err(400, "Payment not completed")
    else if session.value.appointmentId.None? then Err(404, "Appointment not found")
    else match FindAppointment(apps, session.value.appointmentId.value)
      case None => Err(404, "Appointment not found")
      case Some(k) =>
        if !Present(session.value.paymentIntent) then Err(500, "Confirmation failed")
        else Ok((k, session.value.paymentIntent.value))
  }

  /** Checkout confirmation (any signed-in user). `session` is the processor's answer and
      `mailed` whether both notification mails went out; a mail failure answers 500 after the
      settlement has been written. */
  method ConfirmCheckout(db: Db, session: Option<Session>, mailed: bool, now: int)
    returns (r: Response<Receipt>)
    requires db.Valid()
    modifies db
    ensures db.Valid()
    ensures var target := CheckoutTarget(old(db.appointments), session);
      && (target.Err? ==> r == Err(target.code, target.message) && db.State() == old(db.State()))
      && (target.Ok? ==>
            && db.State() == AfterSettlement(old(db.State()), target.value.0, target.value.1, now)
            && (mailed ==> r == Ok(Settlement(old(db.State()), target.value.0, target.value.1, now)))
            && (!mailed ==> r == Err(500, "Confirmation failed")))
  {
    var target := CheckoutTarget(db.appointments, session);
    if target.Err? {
      return Err(target.code, target.message);
    }
    var rc := Settle(db, target.value.0, target.value.1, now);
    if !mailed {
      return Err(500, "Confirmation failed");
    }
    r := Ok(rc);
  }

  /** The guard chain of direct confirmation. */
  function ConfirmTarget(apps: seq<Appointment>, intent: Option<string>, appointmentId: Id)
    : (r: Response<nat>)
    ensures FindAppointment(apps, appointmentId).None? ==> r == Err(404, "Appointment not found")
    ensures FindAppointment(apps, appointmentId).Some? && !Present(intent)
            ==> r == Err(500, "Payment confirmation failed")
    ensures r.Ok? <==> FindAppointment(apps, appointmentId).Some? && Present(intent)
    ensures r.Ok? ==> r.value < |apps| && apps[r.value].id == appointmentId
  {
    match FindAppointment(apps, appointmentId)
    case None => Err(404, "Appointment not found")
    case Some(k) => if !Present(intent) then Err(500, "Payment confirmation failed") else Ok(k)
  }

  /** Direct confirmation (any signed-in user) of a payment intent for an appointment. */
  method ConfirmPayment(db: Db, intent: Option<string>, appointmentId: Id, mailed: bool, now: int)
    returns (r: Response<Receipt>)
    requires db.Valid()
    modifies db
    ensures db.Valid()
    ensures var target := ConfirmTarget(old(db.appointments), intent, appointmentId);
      && (target.Err? ==> r == Err(target.code, target.message) && db.State() == old(db.State()))
      && (target.Ok? ==>
            && db.State() == AfterSettlement(old(db.State()), target.value, intent.value, now)
            && (mailed ==> r == Ok(Settlement(old(db.State()), target.value, intent.value, now)))
            && (!mailed ==> r == Err(500, "Payment confirmation failed")))
  {
    var target := ConfirmTarget(db.appointments, intent, appointmentId);
    if target.Err? {
      return Err(target.code, target.message);
    }
    var rc := Settle(db, target.value, intent.value, now);
    if !mailed {
      return Err(500, "Payment confirmation failed");
    }
    r := Ok(rc);
  }

  /** The refund rule: refused when the appointment's instant is known and less than a day
      away (or past); an unparseable time gives an invalid `Date`, the comparison is false,
      and the refund is allowed. */
  function TooLateToRefund(a: Appointment, now: int): (r: bool)
    ensures r ==> ':' in a.appointmentTime
    ensures r ==> a.appointmentDate * DayMs < now + DayMs
  {
    var when := InstantMs(a.appointmentDate, a.appointmentTime);
    when.Some? && when.value - now < DayMs
  }

  /** On a well-formed time the rule is the plain 24-hour window. */
  lemma TooLateOnClock(a: Appointment, now: int)
    requires IsClock(a.appointmentTime)
    ensures TooLateToRefund(a, now) <==>
      a.appointmentDate * DayMs + ClockMinutes(a.appointmentTime) * MinuteMs < now + DayMs
  {
    InstantMsOfClock(a.appointmentDate, a.appointmentTime);
  }

  /** A time without a colon never blocks a refund, however close the appointment. */
  lemma NoColonNeverTooLate(a: Appointment, now: int)
    requires ':' !in a.appointmentTime
    ensures !TooLateToRefund(a, now)
  {
  }

  /** The guard chain of a refund: the payment and appointment indices to rewrite, or the
      error. `refunded` is the processor's answer. */
  function RefundTarget(t: Tables, intent: string, now: int, refunded: bool)
    : (r: Response<(nat, nat)>)
    ensures FindPaymentByIntent(t.payments, intent).None? ==> r == Err(404, "Payment not found")
    ensures r.Ok? ==>
      && FindPaymentByIntent(t.payments, intent) == Some(r.value.0)
      && r.value.0 < |t.payments| && r.value.1 < |t.appointments|
      && t.appointments[r.value.1].id == t.payments[r.value.0].appointment
      && !TooLateToRefund(t.appointments[r.value.1], now) && refunded
    ensures FindPaymentByIntent(t.payments, intent).Some? ==>
      var p := t.payments[FindPaymentByIntent(t.payments, intent).value];
      match FindAppointment(t.appointments, p.appointment)
      case None => r == Err(404, "Appointment not found")
      case Some(k) =>
        && (TooLateToRefund(t.appointments[k], now)
            ==> r == Err(400, "Refund not allowed within 24 hours of the appointment"))
        && (!TooLateToRefund(t.appointments[k], now) && !refunded ==> r == Err(500, "Refund failed"))
        && (!TooLateToRefund(t.appointments[k], now) && refunded ==> r.Ok?)
  {
    match FindPaymentByIntent(t.payments, intent)
    case None => Err(404, "Payment not found")
    case Some(j) =>
      match FindAppointment(t.appointments, t.payments[j].appointment)
      case None => Err(404, "Appointment not found")
      case Some(k) =>
        if TooLateToRefund(t.appointments[k], now) then
          Err(400, "Refund not allowed within 24 hours of the appointment")
        else if !refunded then Err(500, "Refund failed")
        else Ok((j, k))
  }

  /** In a consistent database the payment's appointment is always found. */
  lemma RefundFindsAppointment(t: Tables, intent: string, now: int, refunded: bool)
    requires Consistent(t) && FindPaymentByIntent(t.payments, intent).Some?
    ensures RefundTarget(t, intent, now, refunded) != Err(404, "Appointment not found")
  {
    var p := t.payments[FindPaymentByIntent(t.payments, intent).value];
    assert p in t.payments;
    var b :| b in t.appointments && b.id == p.appointment && b.patient == p.patient && b.doctor == p.doctor;
    FindAppointmentExact(t.appointments, p.appointment, b);
  }

  /** Refund (admin): the payment found by intent (the first match) becomes refunded and its
      appointment refunded and cancelled. A payment already refunded is not refused here. */
  method RefundPayment(db: Db, intent: string, now: int, refunded: bool)
    returns (r: Response<Receipt>)
    requires db.Valid()
    modifies db
    ensures db.Valid()
    ensures var target := RefundTarget(old(db.State()), intent, now, refunded);
      && (target.Err? ==> r == Err(target.code, target.message) && db.State() == old(db.State()))
      && (target.Ok? ==>
            var (j, k) := target.value;
            && r == Ok(Receipt(old(db.payments)[j].(status := ChargeRefunded),
                               old(db.appointments)[k].(paymentStatus := Refunded, status := Cancelled)))
            && db.State() == old(db.State()).(payments := old(db.payments)[j := r.value.payment],
                                              appointments := old(db.appointments)[k := r.value.appointment]))
  {
    var target := RefundTarget(db.State(), intent, now, refunded);
    if target.Err? {
      return Err(target.code, target.message);
    }
    var (j, k) := target.value;
    var t := db.State();
    var p := t.payments[j].(status := ChargeRefunded);
    UpdatePaymentConsistent(t, j, p);
    var t1 := t.(payments := t.payments[j := p]);
    var a := t1.appointments[k].(paymentStatus := Refunded, status := Cancelled);
    UpdateAppointmentConsistent(t1, k, a);
    db.Load(t1.(appointments := t1.appointments[k := a]));
    r := Ok(Receipt(p, a));
  }

  /** Which payments the history shows: a patient's own, a doctor's own, an admin all. */
  predicate Visible(p: Payment, caller: Id, role: Role) {
    match role
    case Patient => p.patient == caller
    case Doctor => p.doctor == caller
    case Admin => true
  }

  /** Payment history, newest first. */
  function GetPaymentHistory(db: Db, caller: Id, role: Role): (r: seq<Payment>)
    reads db
    ensures forall p :: p in r <==> p in db.payments && Visible(p, caller, role)
    ensures multiset(r) == multiset(Filter(db.payments, (p: Payment) => Visible(p, caller, role)))
    ensures SortedDesc(r, PaymentCreatedKey)
    ensures role == Admin ==> multiset(r) == multiset(db.payments)
  {
    var shown := Filter(db.payments, (p: Payment) => Visible(p, caller, role));
    var r := SortDesc(shown, PaymentCreatedKey);
    assert forall p :: p in r <==> p in multiset(shown);
    if role == Admin then
      FilterAll(db.payments, (p: Payment) => Visible(p, caller, role));
      r
    else r
  }
}
