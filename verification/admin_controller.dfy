/** The admin console (Backend/controllers/adminController.js): doctor vetting, dashboard
    figures, listings, and permanent deletion of a patient or doctor with everything that
    hangs off them. The route gate (`authorize("admin")`) is outside the handlers. */
module AdminController {
  import opened Wrappers
  import opened Seqs
  import opened UserModel
  import opened DoctorModel
  import opened AppointmentModel
  import opened PaymentModel
  import opened Store

  // ---------------------------------------------------------------------------------------
  // Doctor vetting.

  /** Some user with this id is a doctor awaiting approval and still active. */
  predicate PendingDoctorUser(users: seq<User>, id: Id) {
    exists u | u in users :: u.id == id && u.role == Doctor && !u.isApproved && u.isActive
  }

  /** Some user with this id has this role and is active. */
  predicate ActiveUser(users: seq<User>, id: Id, role: Role) {
    exists u | u in users :: u.id == id && u.role == role && u.isActive
  }

  /** Profiles of the doctors awaiting approval, in natural order. */
  function GetPendingDoctors(db: Db): (r: seq<DoctorProfile>)
    reads db
    ensures forall d :: d in r <==> d in db.doctors && PendingDoctorUser(db.users, d.user)
  {
    var users := db.users;
    Filter(db.doctors, (d: DoctorProfile) => PendingDoctorUser(users, d.user))
  }

  /** The vetting handlers' shared lookup: the index of the doctor user with this id. */
  function DoctorUserIndex(users: seq<User>, id: Id): (r: Option<nat>)
    ensures r.Some? ==> r.value < |users| && users[r.value].id == id && users[r.value].role == Doctor
    ensures r.None? ==> forall u :: u in users && u.id == id && FindUser(users, id).Some?
                                    ==> users[FindUser(users, id).value].role != Doctor
    ensures r.None? <==> FindUser(users, id).None? || users[FindUser(users, id).value].role != Doctor
  {
    match FindUser(users, id)
    case None => None
    case Some(k) => if users[k].role == Doctor then Some(k) else None
  }

  /** Approval: a doctor's `isApproved` becomes true; nothing else changes. */
  method ApproveDoctor(db: Db, id: Id) returns (r: Response<User>)
    requires db.Valid()
    modifies db
    ensures db.Valid()
    ensures r.Ok? <==> DoctorUserIndex(old(db.users), id).Some?
    ensures r.Err? ==> r == Err(404, "Not found") && db.State() == old(db.State())
    ensures r.Ok? ==>
      var k := DoctorUserIndex(old(db.users), id).value;
      && r.value == old(db.users)[k].(isApproved := true)
      && db.State() == old(db.State()).(users := old(db.users)[k := r.value])
  {
    var k := DoctorUserIndex(db.users, id);
    if k.None? {
      return Err(404, "Not found");
    }
    var u := db.users[k.value].(isApproved := true);
    UpdateUserConsistent(db.State(), k.value, u);
    db.users := db.users[k.value := u];
    r := Ok(u);
  }

  /** Rejection: a doctor's `isActive` becomes false (the account is kept). */
  method RejectDoctor(db: Db, id: Id) returns (r: Response<User>)
    requires db.Valid()
    modifies db
    ensures db.Valid()
    ensures r.Ok? <==> DoctorUserIndex(old(db.users), id).Some?
    ensures r.Err? ==> r == Err(404, "Not found") && db.State() == old(db.State())
    ensures r.Ok? ==>
      var k := DoctorUserIndex(old(db.users), id).value;
      && r.value == old(db.users)[k].(isActive := false)
      && db.State() == old(db.State()).(users := old(db.users)[k := r.value])
  {
    var k := DoctorUserIndex(db.users, id);
    if k.None? {
      return Err(404, "Not found");
    }
    var u := db.users[k.value].(isActive := false);
    UpdateUserConsistent(db.State(), k.value, u);
    db.users := db.users[k.value := u];
    r := Ok(u);
  }

  /** After approval the doctor's profile leaves the pending list. */
  lemma ApprovedNotPending(t: Tables, id: Id)
    requires Consistent(t) && DoctorUserIndex(t.users, id).Some?
    ensures var k := DoctorUserIndex(t.users, id).value;
      !PendingDoctorUser(t.users[k := t.users[k].(isApproved := true)], id)
  {
    var k := DoctorUserIndex(t.users, id).value;
    var users' := t.users[k := t.users[k].(isApproved := true)];
    forall u | u in users' && u.id == id ensures u.isApproved {
      var i :| 0 <= i < |users'| && users'[i] == u;
    }
  }

  // ---------------------------------------------------------------------------------------
  // Dashboard figures.

  predicate IsCompleted(p: Payment) {
    p.status == ChargeCompleted
  }

  /** The amount a payment contributes to revenue: its amount when completed, else 0. */
  function CompletedAmount(p: Payment): int {
    if IsCompleted(p) then p.amount else 0
  }

  /** `$match: {status: "completed"}` then `$sum: "$amount"`; an empty match reads as 0. */
  function Revenue(payments: seq<Payment>): (r: int)
    ensures r == SumBy(payments, CompletedAmount)
  {
    RevenueIsMaskedSum(payments);
    SumBy(Filter(payments, IsCompleted), PaymentAmount)
  }

  /** Summing the completed payments is summing, over all payments, what each contributes. */
  lemma {:induction false} RevenueIsMaskedSum(payments: seq<Payment>)
    ensures SumBy(Filter(payments, IsCompleted), PaymentAmount) == SumBy(payments, CompletedAmount)
  {
    if |payments| > 0 {
      RevenueIsMaskedSum(payments[1..]);
      assert Filter(payments, IsCompleted)
             == (if IsCompleted(payments[0]) then [payments[0]] else []) + Filter(payments[1..], IsCompleted);
      SumByAppend(if IsCompleted(payments[0]) then [payments[0]] else [],
                  Filter(payments[1..], IsCompleted), PaymentAmount);
    }
  }

  /** A settled payment adds exactly its amount to revenue. */
  lemma RevenueAfterPayment(payments: seq<Payment>, p: Payment)
    requires IsCompleted(p)
    ensures Revenue(payments + [p]) == Revenue(payments) + p.amount
  {
    RevenueIsMaskedSum(payments);
    RevenueIsMaskedSum(payments + [p]);
    SumByAppend(payments, [p], CompletedAmount);
  }

  /** Refunding a payment takes its amount out of revenue if it was completed, and changes
      nothing if it was already refunded. */
  lemma RevenueAfterRefund(payments: seq<Payment>, j: nat)
    requires j < |payments|
    ensures Revenue(payments[j := payments[j].(status := ChargeRefunded)])
            == Revenue(payments) - CompletedAmount(payments[j])
  {
    RevenueIsMaskedSum(payments);
    RevenueIsMaskedSum(payments[j := payments[j].(status := ChargeRefunded)]);
    SumByUpdate(payments, j, payments[j].(status := ChargeRefunded), CompletedAmount);
  }

  /** No completed payment, no revenue. */
  lemma RevenueWithoutCompleted(payments: seq<Payment>)
    requires forall p :: p in payments ==> !IsCompleted(p)
    ensures Revenue(payments) == 0
  {
    RevenueIsMaskedSum(payments);
    SumByZero(payments, CompletedAmount);
  }

  datatype Stats = Stats(totalPatients: nat, totalDoctors: nat, totalAppointments: nat,
                         totalRevenue: int)

  predicate CountedPatient(u: User) {
    u.role == Patient && u.isActive
  }

  predicate CountedDoctor(u: User) {
    u.role == Doctor && u.isApproved && u.isActive
  }

  /** The dashboard: active patients, approved active doctors, every appointment whatever its
      status, and revenue from completed payments only. */
  function GetStats(db: Db): (r: Stats)
    reads db
    ensures r.totalPatients <= |db.users| && r.totalDoctors <= |db.users|
    ensures r.totalAppointments == |db.appointments|
    ensures r.totalPatients == |Filter(db.users, CountedPatient)|
    ensures r.totalDoctors == |Filter(db.users, CountedDoctor)|
    ensures r.totalRevenue == SumBy(db.payments, CompletedAmount)
  {
    RevenueIsMaskedSum(db.payments);
    Stats(|Filter(db.users, CountedPatient)|, |Filter(db.users, CountedDoctor)|,
          |db.appointments|, Revenue(db.payments))
  }

  // ---------------------------------------------------------------------------------------
  // Listings.

  /** Every appointment, newest first. */
  function GetAllAppointments(db: Db): (r: seq<Appointment>)
    reads db
    ensures multiset(r) == multiset(db.appointments)
    ensures SortedDesc(r, AppointmentCreatedKey)
  {
    SortDesc(db.appointments, AppointmentCreatedKey)
  }

  /** Completed payments, newest first. */
  function GetRevenue(db: Db): (r: seq<Payment>)
    reads db
    ensures forall p :: p in r <==> p in db.payments && p.status == ChargeCompleted
    ensures multiset(r) == multiset(Filter(db.payments, IsCompleted))
    ensures SortedDesc(r, PaymentCreatedKey)
  {
    var completed := Filter(db.payments, IsCompleted);
    var r := SortDesc(completed, PaymentCreatedKey);
    assert forall p :: p in r <==> p in multiset(completed);
    r
  }

  /** Profiles of active doctors, approved or not. */
  function GetAllDoctors(db: Db): (r: seq<DoctorProfile>)
    reads db
    ensures forall d :: d in r <==> d in db.doctors && ActiveUser(db.users, d.user, Doctor)
  {
    var users := db.users;
    Filter(db.doctors, (d: DoctorProfile) => ActiveUser(users, d.user, Doctor))
  }

  /** Profiles of active patients. */
  function GetAllPatients(db: Db): (r: seq<PatientProfile>)
    reads db
    ensures forall p :: p in r <==> p in db.patients && ActiveUser(db.users, p.user, Patient)
  {
    var users := db.users;
    Filter(db.patients, (p: PatientProfile) => ActiveUser(users, p.user, Patient))
  }

  // ---------------------------------------------------------------------------------------
  // Permanent deletion.

  /** The appointment has the user in the given role. */
  predicate Involves(a: Appointment, id: Id, role: Role) {
    if role == Patient then a.patient == id else a.doctor == id
  }

  /** Ids of the user's appointments, whose payments go with them. */
  function InvolvedIds(apps: seq<Appointment>, id: Id, role: Role): (r: set<Id>)
    ensures forall a :: a in apps && Involves(a, id, role) ==> a.id in r
    ensures forall x :: x in r ==> exists a :: a in apps && Involves(a, id, role) && a.id == x
  {
    set a | a in apps && Involves(a, id, role) :: a.id
  }

  function OtherAppointments(apps: seq<Appointment>, id: Id, role: Role): (r: seq<Appointment>)
    ensures forall a :: a in r <==> a in apps && !Involves(a, id, role)
  {
    Filter(apps, (a: Appointment) => !Involves(a, id, role))
  }

  function UnlinkedPayments(payments: seq<Payment>, ids: set<Id>): (r: seq<Payment>)
    ensures forall p :: p in r <==> p in payments && p.appointment !in ids
  {
    Filter(payments, (p: Payment) => p.appointment !in ids)
  }

  function OtherProfiles(doctors: seq<DoctorProfile>, id: Id): (r: seq<DoctorProfile>)
    ensures forall d :: d in r <==> d in doctors && d.user != id
  {
    Filter(doctors, (d: DoctorProfile) => d.user != id)
  }

  function OtherPatientProfiles(patients: seq<PatientProfile>, id: Id): (r: seq<PatientProfile>)
    ensures forall p :: p in r <==> p in patients && p.user != id
  {
    Filter(patients, (p: PatientProfile) => p.user != id)
  }

  /** The cascade of a deletion, in the handler's order: payments of the user's
      appointments, the appointments, the user's profile, the user. */
  function Cascade(t: Tables, id: Id, role: Role): (t': Tables)
    ensures forall a :: a in t'.appointments <==> a in t.appointments && !Involves(a, id, role)
    ensures forall p :: p in t'.payments <==>
      p in t.payments && p.appointment !in InvolvedIds(t.appointments, id, role)
    ensures forall u :: u in t'.users <==> u in t.users && u.id != id
    ensures role == Patient ==>
      t'.doctors == t.doctors && forall p :: p in t'.patients <==> p in t.patients && p.user != id
    ensures role != Patient ==>
      t'.patients == t.patients && forall d :: d in t'.doctors <==> d in t.doctors && d.user != id
    ensures t'.nextId == t.nextId
  {
    var ids := InvolvedIds(t.appointments, id, role);
    t.(payments := UnlinkedPayments(t.payments, ids),
       appointments := OtherAppointments(t.appointments, id, role),
       patients := if role == Patient then OtherPatientProfiles(t.patients, id) else t.patients,
       doctors := if role == Patient then t.doctors else OtherProfiles(t.doctors, id),
       users := OtherUsers(t.users, id))
  }

  /** A deletion leaves no record that refers to the deleted user, and keeps the rest of the
      database consistent. */
  lemma CascadeConsistent(t: Tables, id: Id, role: Role)
    requires Consistent(t) && HasRole(t.users, id, role)
    ensures Consistent(Cascade(t, id, role))
    ensures forall u :: u in Cascade(t, id, role).users ==> u.id != id
    ensures forall a :: a in Cascade(t, id, role).appointments ==> !Involves(a, id, role)
  {
    CascadeKeys(t, id, role);
    CascadeLinked(t, id, role);
  }

  lemma CascadeKeys(t: Tables, id: Id, role: Role)
    requires Keys(t)
    ensures Keys(Cascade(t, id, role))
  {
    var ids := InvolvedIds(t.appointments, id, role);
    FilterDistinct(t.users, (u: User) => u.id != id, UserId);
    FilterDistinct(t.users, (u: User) => u.id != id, UserEmail);
    FilterDistinct(t.doctors, (d: DoctorProfile) => d.user != id, ProfileId);
    FilterDistinct(t.doctors, (d: DoctorProfile) => d.user != id, ProfileUser);
    FilterDistinct(t.patients, (p: PatientProfile) => p.user != id, PatientProfileId);
    FilterDistinct(t.patients, (p: PatientProfile) => p.user != id, PatientProfileUser);
    FilterDistinct(t.appointments, (a: Appointment) => !Involves(a, id, role), AppointmentId);
    FilterDistinct(t.payments, (p: Payment) => p.appointment !in ids, PaymentId);
  }

  lemma CascadeLinked(t: Tables, id: Id, role: Role)
    requires Consistent(t) && HasRole(t.users, id, role)
    ensures Linked(Cascade(t, id, role))
  {
    CascadeProfilesLinked(t, id, role);
    CascadeAppointmentsLinked(t, id, role);
    CascadePaymentsBacked(t, id, role);
  }

  lemma CascadeProfilesLinked(t: Tables, id: Id, role: Role)
    requires Consistent(t) && HasRole(t.users, id, role)
    ensures var t' := Cascade(t, id, role);
      && (forall d :: d in t'.doctors ==> HasRole(t'.users, d.user, Doctor))
      && (forall p :: p in t'.patients ==> HasRole(t'.users, p.user, Patient))
  {
    var t' := Cascade(t, id, role);
    forall d | d in t'.doctors ensures HasRole(t'.users, d.user, Doctor) {
      OtherUsersKeepRoles(t.users, id, role, d.user, Doctor);
    }
    forall p | p in t'.patients ensures HasRole(t'.users, p.user, Patient) {
      OtherUsersKeepRoles(t.users, id, role, p.user, Patient);
    }
  }

  lemma CascadeAppointmentsLinked(t: Tables, id: Id, role: Role)
    requires Consistent(t) && HasRole(t.users, id, role)
    ensures var t' := Cascade(t, id, role);
      forall a :: a in t'.appointments ==>
        HasRole(t'.users, a.patient, Patient) && HasRole(t'.users, a.doctor, Doctor)
  {
    var t' := Cascade(t, id, role);
    forall a | a in t'.appointments
      ensures HasRole(t'.users, a.patient, Patient) && HasRole(t'.users, a.doctor, Doctor)
    {
      OtherUsersKeepRoles(t.users, id, role, a.patient, Patient);
      OtherUsersKeepRoles(t.users, id, role, a.doctor, Doctor);
    }
  }

  lemma CascadePaymentsBacked(t: Tables, id: Id, role: Role)
    requires Consistent(t)
    ensures var t' := Cascade(t, id, role);
      forall p :: p in t'.payments ==> BackedBy(t'.appointments, p)
  {
    var t' := Cascade(t, id, role);
    assert forall p :: p in t.payments ==> BackedBy(t.appointments, p);
    UnlinkedStayBacked(t.appointments, t.payments, InvolvedIds(t.appointments, id, role),
                       t'.appointments, t'.payments, id, role);
  }

  /** A payment whose appointment does not involve the user keeps that appointment. */
  lemma UnlinkedStayBacked(apps: seq<Appointment>, payments: seq<Payment>, ids: set<Id>,
                           apps': seq<Appointment>, payments': seq<Payment>, id: Id, role: Role)
    requires forall p :: p in payments ==> BackedBy(apps, p)
    requires forall a :: a in apps && Involves(a, id, role) ==> a.id in ids
    requires forall a :: a in apps' <==> a in apps && !Involves(a, id, role)
    requires forall p :: p in payments' <==> p in payments && p.appointment !in ids
    ensures forall p :: p in payments' ==> BackedBy(apps', p)
  {
    forall p | p in payments' ensures BackedBy(apps', p) {
      var b :| b in apps && b.id == p.appointment && b.patient == p.patient && b.doctor == p.doctor;
      assert b in apps';
    }
  }

  /** Deletion of a user of the given role, with the handler's two messages. */
  method DeleteUser(db: Db, id: Id, role: Role, notFound: string, deleted: string)
    returns (r: Response<string>)
    requires db.Valid()
    modifies db
    ensures db.Valid()
    ensures r.Ok? <==> FindUser(old(db.users), id).Some?
                       && old(db.users)[FindUser(old(db.users), id).value].role == role
    ensures r.Err? ==> r == Err(404, notFound) && db.State() == old(db.State())
    ensures r.Ok? ==> r.value == deleted && db.State() == Cascade(old(db.State()), id, role)
  {
    var k := FindUser(db.users, id);
    if k.None? || db.users[k.value].role != role {
      return Err(404, notFound);
    }
    assert db.users[k.value] in db.users;
    CascadeConsistent(db.State(), id, role);
    db.Load(Cascade(db.State(), id, role));
    r := Ok(deleted);
  }

  method DeletePatient(db: Db, id: Id) returns (r: Response<string>)
    requires db.Valid()
    modifies db
    ensures db.Valid()
    ensures r.Ok? <==> FindUser(old(db.users), id).Some?
                       && old(db.users)[FindUser(old(db.users), id).value].role == Patient
    ensures r.Err? ==> r == Err(404, "Patient not found") && db.State() == old(db.State())
    ensures r.Ok? ==> r.value == "Patient account deleted permanently"
                      && db.State() == Cascade(old(db.State()), id, Patient)
  {
    r := DeleteUser(db, id, Patient, "Patient not found", "Patient account deleted permanently");
  }

  method DeleteDoctor(db: Db, id: Id) returns (r: Response<string>)
    requires db.Valid()
    modifies db
    ensures db.Valid()
    ensures r.Ok? <==> FindUser(old(db.users), id).Some?
                       && old(db.users)[FindUser(old(db.users), id).value].role == Doctor
    ensures r.Err? ==> r == Err(404, "Doctor not found") && db.State() == old(db.State())
    ensures r.Ok? ==> r.value == "Doctor account deleted permanently"
                      && db.State() == Cascade(old(db.State()), id, Doctor)
  {
    r := DeleteUser(db, id, Doctor, "Doctor not found", "Doctor account deleted permanently");
  }
}
