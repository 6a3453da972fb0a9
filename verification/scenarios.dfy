/** Sequences of handler calls, showing what the handlers allow when used together: each
    scenario calls the modelled handlers and states the combined outcome. */
module Scenarios {
  import opened Wrappers
  import opened Seqs
  import opened UserModel
  import opened AppointmentModel
  import opened PaymentModel
  import opened Store
  import opened AppointmentController
  import opened PaymentController

  /** A doctor's proposal conflict check keys on the patient too, so the same slot can be
      proposed to two patients and both proposals are stored. */
  method ProposeSlotTwice(db: Db, doctor: Id, p1: Id, p2: Id, date: int, time: string,
                          fee: int, now: int) returns (r1: Response<Appointment>, r2: Response<Appointment>)
    requires db.Valid() && HasRole(db.users, doctor, Doctor)
    requires p1 != p2 && time != ""
    requires FindUser(db.users, p1).Some? && db.users[FindUser(db.users, p1).value].role == Patient
    requires FindUser(db.users, p2).Some? && db.users[FindUser(db.users, p2).value].role == Patient
    requires forall a :: a in db.appointments ==>
      !Occupies(a, doctor, date, time)
    modifies db
    ensures db.Valid()
    ensures r1.Ok? && r2.Ok? && r1.value.id != r2.value.id
    ensures Occupies(r1.value, doctor, date, time) && Occupies(r2.value, doctor, date, time)
    ensures r1.value in db.appointments && r2.value in db.appointments
  {
    ghost var apps0 := db.appointments;
    r1 := ProposeFree(db, doctor, p1, date, time, fee, now);
    ghost var apps1 := db.appointments;
    assert forall a :: a in apps1 ==> a == r1.value || a in apps0;
    r2 := ProposeFree(db, doctor, p2, date, time, fee, now);
    assert db.appointments[|apps0|] == r1.value;
  }

  /** A proposal of a slot that no appointment of this patient with this doctor holds. */
  method ProposeFree(db: Db, doctor: Id, p: Id, date: int, time: string, fee: int, now: int)
    returns (r: Response<Appointment>)
    requires db.Valid() && HasRole(db.users, doctor, Doctor) && time != ""
    requires FindUser(db.users, p).Some? && db.users[FindUser(db.users, p).value].role == Patient
    requires forall a :: a in db.appointments ==> !HoldsProposal(a, doctor, p, date, time)
    modifies db
    ensures db.Valid() && r.Ok? && r.value.id == old(db.nextId) && r.value.patient == p
    ensures Occupies(r.value, doctor, date, time)
    ensures db.appointments == old(db.appointments) + [r.value]
    ensures db.users == old(db.users) && db.nextId == old(db.nextId) + 1
  {
    r := ProposeAppointment(db, doctor, p, date, time, fee, now);
  }

  /** A cancelled appointment frees its slot for booking, but the status update lets its
      patient set it back to "pending" afterwards: the slot then has two holders. */
  method ReopenAfterRebooking(db: Db, p1: Id, id: Id, p2: Id, doctor: Id, date: int,
                              time: string, fee: int, now: int)
    returns (booked: Response<Appointment>, reopened: Response<Appointment>)
    requires db.Valid() && HasRole(db.users, p2, Patient)
    requires FindAppointment(db.appointments, id).Some?
    requires var a := db.appointments[FindAppointment(db.appointments, id).value];
      a.patient == p1 && a.status == Cancelled
      && a.doctor == doctor && a.appointmentDate == date && a.appointmentTime == time
    modifies db
    ensures db.Valid()
    ensures booked.Ok? ==>
      && reopened.Ok?
      && booked.value in db.appointments && reopened.value in db.appointments
      && booked.value.id != reopened.value.id
      && Occupies(booked.value, doctor, date, time) && Occupies(reopened.value, doctor, date, time)
  {
    var k := FindAppointment(db.appointments, id).value;
    var n := |db.appointments|;
    ghost var t0 := db.State();
    assert Consistent(t0);
    booked := BookAppointment(db, p2, doctor, date, time, fee, now);
    reopened := Err(0, "");
    if booked.Ok? {
      AppendedKeepsIndex(t0, k, booked.value);
      ghost var apps1 := db.appointments;
      assert apps1 == t0.appointments + [booked.value];
      assert apps1[n] == booked.value && apps1[k] == t0.appointments[k];
      reopened := SetPending(db, p1, id, k, n);
      assert db.appointments[n] == booked.value;
      assert db.appointments[k] == reopened.value;
    }
  }

  /** The patient of appointment `k` sets it back to "pending"; appointment `j` stays. */
  method SetPending(db: Db, p1: Id, id: Id, k: nat, j: nat) returns (reopened: Response<Appointment>)
    requires db.Valid() && FindAppointment(db.appointments, id) == Some(k)
    requires j < |db.appointments| && j != k && db.appointments[k].patient == p1
    modifies db
    ensures db.Valid() && reopened.Ok?
    ensures db.appointments == old(db.appointments)[k := reopened.value]
    ensures reopened.value == old(db.appointments)[k].(status := Pending)
    ensures db.appointments[j] == old(db.appointments)[j]
  {
    assert StatusGate(db.appointments[k], p1, "pending");
    assert ParseStatus("pending") == Some(Pending);
    reopened := UpdateAppointmentStatus(db, p1, id, "pending");
    assert reopened.Ok?;
    StatusNamesRoundTrip(reopened.value.status, PaymentPending);
  }

  /** An appended appointment with the next id leaves every earlier one found where it was,
      under a different id. */
  lemma AppendedKeepsIndex(t: Tables, k: nat, b: Appointment)
    requires Consistent(t) && k < |t.appointments| && b.id == t.nextId
    ensures var apps := t.appointments + [b];
      && FindAppointment(apps, t.appointments[k].id) == Some(k)
      && apps[k] == t.appointments[k] && t.appointments[k].id != b.id
  {
    var apps := t.appointments + [b];
    var a := t.appointments[k];
    assert a in t.appointments;
    assert apps[k] == a;
    var j := FindAppointment(apps, a.id).value;
    assert j < |t.appointments| && apps[j] == t.appointments[j];
    assert AppointmentId(t.appointments[j]) == AppointmentId(t.appointments[k]);
  }

  /** Settlement never looks at the appointment's payment status, so confirming the same
      intent twice records two completed payments for one appointment. */
  lemma SettleTwice(t: Tables, k: nat, intent: string, now1: int, now2: int)
    requires Consistent(t) && k < |t.appointments|
    ensures var t1 := AfterSettlement(t, k, intent, now1);
      var t2 := AfterSettlement(t1, k, intent, now2);
      && t1.appointments[k].paymentStatus == Paid
      && |t2.payments| == |t.payments| + 2
      && var p1, p2 := t2.payments[|t.payments|], t2.payments[|t.payments| + 1];
      && p1.id != p2.id
      && p1.appointment == p2.appointment == t.appointments[k].id
      && p1.status == p2.status == ChargeCompleted
      && p1.stripePaymentId == p2.stripePaymentId == intent
  {
    var t1 := AfterSettlement(t, k, intent, now1);
    var t2 := AfterSettlement(t1, k, intent, now2);
    assert t2.payments[|t.payments|] == t1.payments[|t.payments|];
  }

  /** Refund never looks at the payment's status, so a payment already refunded is refunded
      again, with the same payment and appointment, when the 24-hour window and the
      processor allow it. */
  lemma RefundTwice(t: Tables, intent: string, now1: int, now2: int, j: nat, k: nat)
    requires RefundTarget(t, intent, now1, true) == Ok((j, k))
    requires !TooLateToRefund(t.appointments[k], now2)
    ensures var t1 := t.(payments := t.payments[j := t.payments[j].(status := ChargeRefunded)],
                         appointments := t.appointments[k := t.appointments[k].(paymentStatus := Refunded,
                                                                                status := Cancelled)]);
      && t1.payments[j].status == ChargeRefunded
      && RefundTarget(t1, intent, now2, true) == Ok((j, k))
  {
    var p := t.payments[j];
    IntentStillFirst(t.payments, j, p.(status := ChargeRefunded), intent);
    IdStillFirst(t.appointments, k, t.appointments[k].(paymentStatus := Refunded, status := Cancelled),
                 p.appointment);
  }

  /** Rewriting the first payment with an intent, keeping the intent, keeps it first. */
  lemma IntentStillFirst(ps: seq<Payment>, j: nat, x: Payment, intent: string)
    requires FindPaymentByIntent(ps, intent) == Some(j) && x.stripePaymentId == intent
    ensures FindPaymentByIntent(ps[j := x], intent) == Some(j)
  {
    var r := FindPaymentByIntent(ps[j := x], intent);
    assert ps[j := x][j].stripePaymentId == intent;
  }

  /** Rewriting the first appointment with an id, keeping the id, keeps it first. */
  lemma IdStillFirst(apps: seq<Appointment>, k: nat, x: Appointment, id: Id)
    requires FindAppointment(apps, id) == Some(k) && x.id == id
    ensures FindAppointment(apps[k := x], id) == Some(k)
  {
    var r := FindAppointment(apps[k := x], id);
    assert apps[k := x][k].id == id;
  }
}
