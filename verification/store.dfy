/** The five collections the controllers read and write, as one in-memory database.
    Each collection is a sequence in natural (insertion) order, so a Mongoose `findOne`
    is the first match. `nextId` stands for ObjectId generation: a new record takes it. */
module Store {
  import opened Wrappers
  import opened Seqs
  import opened UserModel
  import opened DoctorModel
  import opened AppointmentModel
  import opened PaymentModel

  /** The whole database as a value. */
  datatype Tables = Tables(
    users: seq<User>,
    doctors: seq<DoctorProfile>,
    patients: seq<PatientProfile>,
    appointments: seq<Appointment>,
    payments: seq<Payment>,
    nextId: Id)

  /** Some user with this id has this role. */
  ghost predicate HasRole(users: seq<User>, id: Id, role: Role) {
    exists u :: u in users && u.id == id && u.role == role
  }

  /** The payment's appointment exists and names the same patient and doctor. */
  ghost predicate BackedBy(apps: seq<Appointment>, p: Payment) {
    exists a :: a in apps && a.id == p.appointment && a.patient == p.patient && a.doctor == p.doctor
  }

  /** Every id in use is below `nextId`, so the next record's id is fresh. */
  ghost predicate IdsBelow(t: Tables) {
    && (forall u :: u in t.users ==> u.id < t.nextId)
    && (forall d :: d in t.doctors ==> d.id < t.nextId)
    && (forall p :: p in t.patients ==> p.id < t.nextId)
    && (forall a :: a in t.appointments ==> a.id < t.nextId)
    && (forall p :: p in t.payments ==> p.id < t.nextId)
  }

  /** Primary keys, unique emails, at most one Doctor and one Patient profile per user. */
  ghost predicate Keys(t: Tables) {
    && DistinctBy(t.users, UserId) && DistinctBy(t.users, UserEmail)
    && DistinctBy(t.doctors, ProfileId) && DistinctBy(t.doctors, ProfileUser)
    && DistinctBy(t.patients, PatientProfileId) && DistinctBy(t.patients, PatientProfileUser)
    && DistinctBy(t.appointments, AppointmentId) && DistinctBy(t.payments, PaymentId)
  }

  /** References between collections: profiles and appointments point at users of the right
      role, payments at an existing appointment with the same parties. */
  ghost predicate Linked(t: Tables) {
    && (forall d :: d in t.doctors ==> HasRole(t.users, d.user, Doctor))
    && (forall p :: p in t.patients ==> HasRole(t.users, p.user, Patient))
    && (forall a :: a in t.appointments ==>
          HasRole(t.users, a.patient, Patient) && HasRole(t.users, a.doctor, Doctor))
    && (forall p :: p in t.payments ==> BackedBy(t.appointments, p))
  }

  /** The invariant every handler keeps. */
  ghost predicate Consistent(t: Tables) {
    IdsBelow(t) && Keys(t) && Linked(t)
  }

  // ---------------------------------------------------------------------------------------
  // Lookups: `findById` and `findOne` in natural order.

  function FindUser(users: seq<User>, id: Id): (r: Option<nat>)
    ensures r.Some? ==> r.value < |users| && users[r.value].id == id
    ensures r.Some? ==> forall j :: 0 <= j < r.value ==> users[j].id != id
    ensures r.None? <==> forall i :: 0 <= i < |users| ==> users[i].id != id
  {
    FirstIndex(users, (u: User) => u.id == id)
  }

  /** `User.findOne({ email })`: the first account with the email. */
  function FindUserByEmail(users: seq<User>, email: string): (r: Option<nat>)
    ensures r.Some? ==> r.value < |users| && users[r.value].email == email
    ensures r.Some? ==> forall j :: 0 <= j < r.value ==> users[j].email != email
    ensures r.None? <==> forall i :: 0 <= i < |users| ==> users[i].email != email
  {
    FirstIndex(users, (u: User) => u.email == email)
  }

  function FindProfile(doctors: seq<DoctorProfile>, id: Id): (r: Option<nat>)
    ensures r.Some? ==> r.value < |doctors| && doctors[r.value].id == id
    ensures r.Some? ==> forall j :: 0 <= j < r.value ==> doctors[j].id != id
    ensures r.None? <==> forall i :: 0 <= i < |doctors| ==> doctors[i].id != id
  {
    FirstIndex(doctors, (d: DoctorProfile) => d.id == id)
  }

  /** `Doctor.findOne({ user })`: the first profile of the user. */
  function FindProfileOf(doctors: seq<DoctorProfile>, user: Id): (r: Option<nat>)
    ensures r.Some? ==> r.value < |doctors| && doctors[r.value].user == user
    ensures r.Some? ==> forall j :: 0 <= j < r.value ==> doctors[j].user != user
    ensures r.None? <==> forall i :: 0 <= i < |doctors| ==> doctors[i].user != user
  {
    FirstIndex(doctors, (d: DoctorProfile) => d.user == user)
  }

  function FindAppointment(apps: seq<Appointment>, id: Id): (r: Option<nat>)
    ensures r.Some? ==> r.value < |apps| && apps[r.value].id == id
    ensures r.Some? ==> forall j :: 0 <= j < r.value ==> apps[j].id != id
    ensures r.None? <==> forall i :: 0 <= i < |apps| ==> apps[i].id != id
  {
    FirstIndex(apps, (a: Appointment) => a.id == id)
  }

  /** `Payment.findOne({ stripePaymentId })`: the first such payment. */
  function FindPaymentByIntent(payments: seq<Payment>, intent: string): (r: Option<nat>)
    ensures r.Some? ==> r.value < |payments| && payments[r.value].stripePaymentId == intent
    ensures r.Some? ==> forall j :: 0 <= j < r.value ==> payments[j].stripePaymentId != intent
    ensures r.None? <==> forall i :: 0 <= i < |payments| ==> payments[i].stripePaymentId != intent
  {
    FirstIndex(payments, (p: Payment) => p.stripePaymentId == intent)
  }

  /** With distinct ids, `findById` finds every appointment carrying that id. */
  lemma FindAppointmentExact(apps: seq<Appointment>, id: Id, a: Appointment)
    requires DistinctBy(apps, AppointmentId) && a in apps && a.id == id
    ensures FindAppointment(apps, id).Some? && apps[FindAppointment(apps, id).value] == a
  {
    var j :| 0 <= j < |apps| && apps[j] == a;
    var k := FindAppointment(apps, id).value;
    assert AppointmentId(apps[j]) == AppointmentId(apps[k]);
  }

  /** With distinct keys, the record found is the only one with that key. */
  lemma FoundIsUnique<T, K>(s: seq<T>, key: T -> K, i: nat, j: nat)
    requires DistinctBy(s, key) && i < |s| && j < |s| && key(s[i]) == key(s[j])
    ensures i == j
  {
  }

  // ---------------------------------------------------------------------------------------
  // How the handlers' writes keep the invariant.

  /** Inserting an appointment with a fresh id between an existing patient and doctor. */
  lemma AppendAppointmentConsistent(t: Tables, a: Appointment)
    requires Consistent(t) && a.id == t.nextId
    requires HasRole(t.users, a.patient, Patient) && HasRole(t.users, a.doctor, Doctor)
    ensures Consistent(t.(appointments := t.appointments + [a], nextId := t.nextId + 1))
  {
    var t' := t.(appointments := t.appointments + [a], nextId := t.nextId + 1);
    DistinctAppend(t.appointments, a, AppointmentId);
    forall p | p in t'.payments ensures BackedBy(t'.appointments, p) {
      var b :| b in t.appointments && b.id == p.appointment && b.patient == p.patient && b.doctor == p.doctor;
      assert b in t'.appointments;
    }
  }

  /** Rewriting one appointment without touching its id, patient or doctor. */
  lemma UpdateAppointmentConsistent(t: Tables, k: nat, a: Appointment)
    requires Consistent(t) && k < |t.appointments|
    requires a.id == t.appointments[k].id && a.patient == t.appointments[k].patient
    requires a.doctor == t.appointments[k].doctor
    ensures Consistent(t.(appointments := t.appointments[k := a]))
  {
    var t' := t.(appointments := t.appointments[k := a]);
    DistinctUpdate(t.appointments, k, a, AppointmentId);
    UpdateMembers(t.appointments, k, a);
    assert t.appointments[k] in t.appointments;
    forall p | p in t'.payments ensures BackedBy(t'.appointments, p) {
      var b :| b in t.appointments && b.id == p.appointment && b.patient == p.patient && b.doctor == p.doctor;
      if b == t.appointments[k] {
        assert t'.appointments[k] == a;
      } else {
        assert b in t'.appointments;
      }
    }
  }

  /** Inserting a payment with a fresh id that an existing appointment backs. */
  lemma AppendPaymentConsistent(t: Tables, p: Payment)
    requires Consistent(t) && p.id == t.nextId && BackedBy(t.appointments, p)
    ensures Consistent(t.(payments := t.payments + [p], nextId := t.nextId + 1))
  {
    DistinctAppend(t.payments, p, PaymentId);
  }

  /** Rewriting one payment without touching its id, appointment, patient or doctor. */
  lemma UpdatePaymentConsistent(t: Tables, k: nat, p: Payment)
    requires Consistent(t) && k < |t.payments|
    requires p.id == t.payments[k].id && p.appointment == t.payments[k].appointment
    requires p.patient == t.payments[k].patient && p.doctor == t.payments[k].doctor
    ensures Consistent(t.(payments := t.payments[k := p]))
  {
    DistinctUpdate(t.payments, k, p, PaymentId);
    UpdateMembers(t.payments, k, p);
    assert t.payments[k] in t.payments;
  }

  /** Inserting a doctor profile with a fresh id for a doctor who has none. */
  lemma AppendProfileConsistent(t: Tables, d: DoctorProfile)
    requires Consistent(t) && d.id == t.nextId && HasRole(t.users, d.user, Doctor)
    requires forall i :: 0 <= i < |t.doctors| ==> t.doctors[i].user != d.user
    ensures Consistent(t.(doctors := t.doctors + [d], nextId := t.nextId + 1))
  {
    DistinctAppend(t.doctors, d, ProfileId);
    DistinctAppend(t.doctors, d, ProfileUser);
  }

  /** Rewriting one doctor profile without touching its id or user. */
  lemma UpdateProfileConsistent(t: Tables, k: nat, d: DoctorProfile)
    requires Consistent(t) && k < |t.doctors|
    requires d.id == t.doctors[k].id && d.user == t.doctors[k].user
    ensures Consistent(t.(doctors := t.doctors[k := d]))
  {
    DistinctUpdate(t.doctors, k, d, ProfileId);
    DistinctUpdate(t.doctors, k, d, ProfileUser);
    UpdateMembers(t.doctors, k, d);
    assert t.doctors[k] in t.doctors;
  }

  /** Inserting a user with a fresh id and an email no user has. */
  lemma AppendUserConsistent(t: Tables, u: User)
    requires Consistent(t) && u.id == t.nextId
    requires forall i :: 0 <= i < |t.users| ==> t.users[i].email != u.email
    ensures Consistent(t.(users := t.users + [u], nextId := t.nextId + 1))
  {
    var t' := t.(users := t.users + [u], nextId := t.nextId + 1);
    DistinctAppend(t.users, u, UserId);
    DistinctAppend(t.users, u, UserEmail);
    forall x: Id, r: Role | HasRole(t.users, x, r) ensures HasRole(t'.users, x, r) {
      var w :| w in t.users && w.id == x && w.role == r;
      assert w in t'.users;
    }
  }

  /** Inserting a patient profile with a fresh id for a patient who has none. */
  lemma AppendPatientProfileConsistent(t: Tables, p: PatientProfile)
    requires Consistent(t) && p.id == t.nextId && HasRole(t.users, p.user, Patient)
    requires forall i :: 0 <= i < |t.patients| ==> t.patients[i].user != p.user
    ensures Consistent(t.(patients := t.patients + [p], nextId := t.nextId + 1))
  {
    DistinctAppend(t.patients, p, PatientProfileId);
    DistinctAppend(t.patients, p, PatientProfileUser);
  }

  /** Rewriting one user without touching its id, email or role. */
  lemma UpdateUserConsistent(t: Tables, k: nat, u: User)
    requires Consistent(t) && k < |t.users|
    requires u.id == t.users[k].id && u.email == t.users[k].email && u.role == t.users[k].role
    ensures Consistent(t.(users := t.users[k := u]))
  {
    var t' := t.(users := t.users[k := u]);
    DistinctUpdate(t.users, k, u, UserId);
    DistinctUpdate(t.users, k, u, UserEmail);
    UpdateMembers(t.users, k, u);
    assert t'.users[k] == u;
    forall x: Id, r: Role | HasRole(t.users, x, r) ensures HasRole(t'.users, x, r) {
      var w :| w in t.users && w.id == x && w.role == r;
      if w == t.users[k] {
        assert u in t'.users;
      } else {
        assert w in t'.users;
      }
    }
  }

  /** The users other than the one with this id (`findByIdAndDelete`). */
  function OtherUsers(users: seq<User>, id: Id): (r: seq<User>)
    ensures forall u :: u in r <==> u in users && u.id != id
  {
    Filter(users, (u: User) => u.id != id)
  }

  /** Deleting the user `id`, whose role is `role`, keeps every other id's roles. */
  lemma OtherUsersKeepRoles(users: seq<User>, id: Id, role: Role, x: Id, r: Role)
    requires DistinctBy(users, UserId) && HasRole(users, id, role) && HasRole(users, x, r)
    requires x != id || r != role
    ensures HasRole(OtherUsers(users, id), x, r)
  {
    var w :| w in users && w.id == x && w.role == r;
    var v :| v in users && v.id == id && v.role == role;
    assert w in OtherUsers(users, id);
  }

  // ---------------------------------------------------------------------------------------
  // The database object.

  class Db {
    var users: seq<User>
    var doctors: seq<DoctorProfile>
    var patients: seq<PatientProfile>
    var appointments: seq<Appointment>
    var payments: seq<Payment>
    var nextId: Id

    function State(): Tables
      reads this
    {
      Tables(users, doctors, patients, appointments, payments, nextId)
    }

    ghost predicate Valid()
      reads this
    {
      Consistent(State())
    }

    /** Replaces every collection at once, as a handler's sequence of writes leaves them. */
    method Load(t: Tables)
      modifies this
      ensures State() == t
    {
      users, doctors, patients, appointments, payments, nextId :=
        t.users, t.doctors, t.patients, t.appointments, t.payments, t.nextId;
    }

    /** An empty database. */
    constructor ()
      ensures Valid()
      ensures State() == Tables([], [], [], [], [], 0)
    {
      users, doctors, patients, appointments, payments := [], [], [], [], [];
      nextId := 0;
    }
  }
}
