/** The appointment engine (Backend/controllers/appointmentController.js): booking by a
    patient, proposal by a doctor, and the accept / status-update / cancel transitions.
    The caller (`req.user`) is a parameter; the route's role gate is a precondition. */
module AppointmentController {
  import opened Wrappers
  import opened Seqs
  import opened Text
  import opened Clock
  import opened UserModel
  import opened DoctorModel
  import opened AppointmentModel
  import opened Store

  /** The booking handler's own weekday table, indexed by `getDay()`. */
  const DaysOfWeek: seq<string> :=
    ["Sunday", "Monday", "Tuesday", "Wednesday", "Thursday", "Friday", "Saturday"]

  function DayName(date: int): string {
    DaysOfWeek[WeekdayIndex(date)]
  }

  /** `doctor.availability.find(a => a.day === day)`: the first entry for the date's weekday. */
  function EntryFor(avail: seq<AvailabilityEntry>, date: int): (r: Option<AvailabilityEntry>)
    ensures r.Some? ==> r.value in avail && r.value.day == Some(DayName(date))
    ensures r.Some? ==> exists i :: 0 <= i < |avail| && avail[i] == r.value
                          && forall j :: 0 <= j < i ==> avail[j].day != Some(DayName(date))
    ensures r.None? <==> forall i :: 0 <= i < |avail| ==> avail[i].day != Some(DayName(date))
  {
    match FirstIndex(avail, (e: AvailabilityEntry) => e.day == Some(DayName(date)))
    case None => None
    case Some(i) => Some(avail[i])
  }

  /** Neither `time < startTime` nor `time >= endTime`; a missing bound compares false, as
      `undefined` does in JavaScript. The start itself is inside, the end itself is not, and
      an entry without bounds admits every time. */
  function WithinWindow(time: string, e: AvailabilityEntry): (r: bool)
    ensures e.startTime.None? && e.endTime.None? ==> r
    ensures e.startTime == Some(time) && (e.endTime.None? || StrLess(time, e.endTime.value)) ==> r
    ensures e.endTime == Some(time) ==> !r
  {
    StrLessIrreflexive(time);
    && !(e.startTime.Some? && StrLess(time, e.startTime.value))
    && !(e.endTime.Some? && !StrLess(time, e.endTime.value))
  }

  /** On zero-padded times the window is the half-open interval [startTime, endTime). */
  lemma WithinWindowHalfOpen(time: string, e: AvailabilityEntry)
    requires IsClock(time) && e.startTime.Some? && e.endTime.Some?
    requires IsClock(e.startTime.value) && IsClock(e.endTime.value)
    ensures WithinWindow(time, e) <==>
      ClockMinutes(e.startTime.value) <= ClockMinutes(time) < ClockMinutes(e.endTime.value)
  {
    ClockOrder(time, e.startTime.value);
    ClockOrder(time, e.endTime.value);
  }

  /** A non-cancelled appointment holding this doctor's slot. */
  predicate Occupies(a: Appointment, doctor: Id, date: int, time: string) {
    a.doctor == doctor && a.appointmentDate == date && a.appointmentTime == time
    && a.status != Cancelled
  }

  /** The booking conflict query. */
  function FindOccupant(apps: seq<Appointment>, doctor: Id, date: int, time: string): (r: Option<nat>)
    ensures r.Some? ==> r.value < |apps| && Occupies(apps[r.value], doctor, date, time)
    ensures r.None? <==> forall a :: a in apps ==> !Occupies(a, doctor, date, time)
  {
    FirstIndex(apps, (a: Appointment) => Occupies(a, doctor, date, time))
  }

  /** The proposal conflict query, which also keys on the patient. */
  predicate HoldsProposal(a: Appointment, doctor: Id, patient: Id, date: int, time: string) {
    Occupies(a, doctor, date, time) && a.patient == patient
  }

  function FindProposal(apps: seq<Appointment>, doctor: Id, patient: Id, date: int, time: string)
    : (r: Option<nat>)
    ensures r.Some? ==> r.value < |apps| && HoldsProposal(apps[r.value], doctor, patient, date, time)
    ensures r.None? <==> forall a :: a in apps ==> !HoldsProposal(a, doctor, patient, date, time)
  {
    FirstIndex(apps, (a: Appointment) => HoldsProposal(a, doctor, patient, date, time))
  }

  // The booking guards, in the order the handler applies them.

  /** The user found by `doctorId` exists, is a doctor and is approved (`isActive` is not
      consulted). */
  predicate DoctorOk(users: seq<User>, doctorId: Id) {
    match FindUser(users, doctorId)
    case None => false
    case Some(i) => users[i].role == Doctor && users[i].isApproved
  }

  predicate ProfileOk(doctors: seq<DoctorProfile>, doctorId: Id) {
    FindProfileOf(doctors, doctorId).Some?
  }

  /** The first entry for the weekday exists and is marked available. */
  predicate DayOk(doctors: seq<DoctorProfile>, doctorId: Id, date: int) {
    match FindProfileOf(doctors, doctorId)
    case None => false
    case Some(k) =>
      var e := EntryFor(doctors[k].availability, date);
      e.Some? && e.value.isAvailable
  }

  predicate TimeOk(doctors: seq<DoctorProfile>, doctorId: Id, date: int, time: string) {
    match FindProfileOf(doctors, doctorId)
    case None => false
    case Some(k) =>
      var e := EntryFor(doctors[k].availability, date);
      e.Some? && WithinWindow(time, e.value)
  }

  /** The booking guard chain as a value: the message of the first failing guard, in the
      handler's order, or None when the slot may be booked. */
  function BookingError(t: Tables, doctorId: Id, date: int, time: string): (r: Option<string>)
    ensures !DoctorOk(t.users, doctorId) ==> r == Some("Invalid doctor")
    ensures DoctorOk(t.users, doctorId) && !ProfileOk(t.doctors, doctorId)
            ==> r == Some("Doctor not found")
    ensures DoctorOk(t.users, doctorId) && ProfileOk(t.doctors, doctorId)
            && !DayOk(t.doctors, doctorId, date)
            ==> r == Some("Doctor not available on this day")
    ensures DoctorOk(t.users, doctorId) && DayOk(t.doctors, doctorId, date)
            && !TimeOk(t.doctors, doctorId, date, time)
            ==> r == Some("Doctor not available at this time")
    ensures DoctorOk(t.users, doctorId) && DayOk(t.doctors, doctorId, date)
            && TimeOk(t.doctors, doctorId, date, time)
            && (exists a :: a in t.appointments && Occupies(a, doctorId, date, time))
            ==> r == Some("Slot booked")
    ensures r.None? <==>
      && DoctorOk(t.users, doctorId) && DayOk(t.doctors, doctorId, date)
      && TimeOk(t.doctors, doctorId, date, time)
      && (forall a :: a in t.appointments ==> !Occupies(a, doctorId, date, time))
  {
    if !DoctorOk(t.users, doctorId) then Some("Invalid doctor")
    else if !ProfileOk(t.doctors, doctorId) then Some("Doctor not found")
    else if !DayOk(t.doctors, doctorId, date) then Some("Doctor not available on this day")
    else if !TimeOk(t.doctors, doctorId, date, time) then Some("Doctor not available at this time")
    else if FindOccupant(t.appointments, doctorId, date, time).Some? then
      assert t.appointments[FindOccupant(t.appointments, doctorId, date, time).value] in t.appointments;
      Some("Slot booked")
    else None
  }

  /** Booking (patient): a failing guard answers 400 with its message and changes nothing;
      an empty time passes no required-field validation and answers 500; a success inserts
      exactly one pending appointment, which is then the only non-cancelled holder of its
      slot. */
  method BookAppointment(db: Db, caller: Id, doctorId: Id, date: int, time: string, fee: int,
                         now: int) returns (r: Response<Appointment>)
    requires db.Valid() && HasRole(db.users, caller, Patient)
    modifies db
    ensures db.Valid()
    ensures BookingError(old(db.State()), doctorId, date, time).Some? ==>
      r == Err(400, BookingError(old(db.State()), doctorId, date, time).value)
    ensures BookingError(old(db.State()), doctorId, date, time).None? && time == "" ==>
      r == Err(500, "Failed to book")
    ensures r.Ok? <==> BookingError(old(db.State()), doctorId, date, time).None? && time != ""
    ensures r.Err? ==> db.State() == old(db.State())
    ensures r.Ok? ==>
      && r.value == NewAppointment(old(db.nextId), caller, doctorId, date, time, fee,
                                   Some(Pending), Some(PaymentPending), now)
      && db.State() == old(db.State()).(appointments := old(db.appointments) + [r.value],
                                        nextId := old(db.nextId) + 1)
    ensures r.Ok? ==> forall a :: a in db.appointments && Occupies(a, doctorId, date, time)
                                  ==> a == r.value
  {
    var err := BookingError(db.State(), doctorId, date, time);
    if err.Some? {
      return Err(400, err.value);
    }
    if time == "" {
      return Err(500, "Failed to book");
    }
    var t := db.State();
    var a := NewAppointment(db.nextId, caller, doctorId, date, time, fee,
                            Some(Pending), Some(PaymentPending), now);
    BookingKeepsConsistent(t, a, doctorId, date, time);
    db.Load(t.(appointments := t.appointments + [a], nextId := t.nextId + 1));
    r := Ok(a);
  }

  /** A booking that passes the guards keeps the database consistent and leaves the new
      appointment as the only non-cancelled holder of its slot. */
  lemma BookingKeepsConsistent(t: Tables, a: Appointment, doctorId: Id, date: int, time: string)
    requires Consistent(t) && a.id == t.nextId && HasRole(t.users, a.patient, Patient)
    requires a.doctor == doctorId && BookingError(t, doctorId, date, time).None?
    ensures Consistent(t.(appointments := t.appointments + [a], nextId := t.nextId + 1))
    ensures forall b :: b in t.appointments + [a] && Occupies(b, doctorId, date, time) ==> b == a
  {
    var ui := FindUser(t.users, doctorId);
    assert t.users[ui.value] in t.users;
    AppendAppointmentConsistent(t, a);
  }

  /** Proposal (doctor): the patient must exist with role patient, and the conflict check
      covers only this doctor-patient pair; availability is not consulted. An empty time
      fails validation on create. */
  method ProposeAppointment(db: Db, caller: Id, patientId: Id, date: int, time: string,
                            fee: int, now: int) returns (r: Response<Appointment>)
    requires db.Valid() && HasRole(db.users, caller, Doctor)
    modifies db
    ensures db.Valid()
    ensures !(FindUser(old(db.users), patientId).Some?
              && old(db.users)[FindUser(old(db.users), patientId).value].role == Patient)
            ==> r == Err(400, "Invalid patient")
    ensures (exists a :: a in old(db.appointments) && HoldsProposal(a, caller, patientId, date, time))
            && FindUser(old(db.users), patientId).Some?
            && old(db.users)[FindUser(old(db.users), patientId).value].role == Patient
            ==> r == Err(400, "Slot already proposed or booked")
    ensures FindUser(old(db.users), patientId).Some?
            && old(db.users)[FindUser(old(db.users), patientId).value].role == Patient
            && (forall a :: a in old(db.appointments) ==> !HoldsProposal(a, caller, patientId, date, time))
            && time == ""
            ==> r == Err(500, "Failed to propose")
    ensures r.Ok? <==>
      && FindUser(old(db.users), patientId).Some?
      && old(db.users)[FindUser(old(db.users), patientId).value].role == Patient
      && (forall a :: a in old(db.appointments) ==> !HoldsProposal(a, caller, patientId, date, time))
      && time != ""
    ensures r.Ok? ==>
      && r.value == NewAppointment(old(db.nextId), patientId, caller, date, time, fee,
                                   Some(Proposed), Some(PaymentPending), now)
      && db.State() == old(db.State()).(appointments := old(db.appointments) + [r.value],
                                        nextId := old(db.nextId) + 1)
    ensures !r.Ok? ==> db.State() == old(db.State())
  {
    var ui := FindUser(db.users, patientId);
    if ui.None? || db.users[ui.value].role != Patient {
      return Err(400, "Invalid patient");
    }
    var existing := FindProposal(db.appointments, caller, patientId, date, time);
    if existing.Some? {
      assert db.appointments[existing.value] in db.appointments;
      return Err(400, "Slot already proposed or booked");
    }
    if time == "" {
      return Err(500, "Failed to propose");
    }
    var t := db.State();
    var a := NewAppointment(db.nextId, patientId, caller, date, time, fee,
                            Some(Proposed), Some(PaymentPending), now);
    assert t.users[ui.value] in t.users;
    AppendAppointmentConsistent(t, a);
    db.Load(t.(appointments := t.appointments + [a], nextId := t.nextId + 1));
    r := Ok(a);
  }

  /** Accept (patient): only the named patient, only from `proposed`; the status becomes
      `pending` and nothing else changes. */
  method AcceptAppointment(db: Db, caller: Id, id: Id) returns (r: Response<Appointment>)
    requires db.Valid() && HasRole(db.users, caller, Patient)
    modifies db
    ensures db.Valid()
    ensures r.Ok? <==>
      && FindAppointment(old(db.appointments), id).Some?
      && old(db.appointments)[FindAppointment(old(db.appointments), id).value].patient == caller
      && old(db.appointments)[FindAppointment(old(db.appointments), id).value].status == Proposed
    ensures r.Ok? ==>
      var k := FindAppointment(old(db.appointments), id).value;
      && r.value == old(db.appointments)[k].(status := Pending)
      && db.State() == old(db.State()).(appointments := old(db.appointments)[k := r.value])
    ensures !r.Ok? ==> r == Err(403, "Not authorized or not proposed") && db.State() == old(db.State())
  {
    var k := FindAppointment(db.appointments, id);
    if k.None? || db.appointments[k.value].patient != caller
       || db.appointments[k.value].status != Proposed {
      return Err(403, "Not authorized or not proposed");
    }
    var t := db.State();
    var a := t.appointments[k.value].(status := Pending);
    UpdateAppointmentConsistent(t, k.value, a);
    db.Load(t.(appointments := t.appointments[k.value := a]));
    r := Ok(a);
  }

  /** The role gate of a status update: "cancelled" only by the appointment's patient,
      "confirmed" and "completed" only by its doctor, any other value by anyone. */
  function StatusGate(a: Appointment, caller: Id, status: string): (r: bool)
    ensures ParseStatus(status) == Some(Cancelled) ==> (r <==> caller == a.patient)
    ensures ParseStatus(status) == Some(Confirmed) || ParseStatus(status) == Some(Completed)
            ==> (r <==> caller == a.doctor)
    ensures ParseStatus(status) == Some(Pending) || ParseStatus(status) == Some(Proposed) ==> r
    ensures ParseStatus(status).None? ==> r
  {
    && !(status == "cancelled" && caller != a.patient)
    && !((status == "confirmed" || status == "completed") && caller != a.doctor)
  }

  /** Status update (any signed-in user): the role gate is the only guard. The current
      status is never consulted; a value outside the schema enum fails Mongoose validation
      on save and changes nothing. */
  method UpdateAppointmentStatus(db: Db, caller: Id, id: Id, status: string)
    returns (r: Response<Appointment>)
    requires db.Valid()
    modifies db
    ensures db.Valid()
    ensures FindAppointment(old(db.appointments), id).None? ==> r == Err(404, "Not found")
    ensures FindAppointment(old(db.appointments), id).Some? ==>
      var a := old(db.appointments)[FindAppointment(old(db.appointments), id).value];
      && (status == "cancelled" && caller != a.patient ==> r == Err(403, "Only patient can cancel"))
      && ((status == "confirmed" || status == "completed") && caller != a.doctor
          ==> r == Err(403, "Only doctor can confirm"))
      && (StatusGate(a, caller, status) && ParseStatus(status).None?
          ==> r == Err(500, "Failed to update status"))
    ensures r.Ok? <==>
      && FindAppointment(old(db.appointments), id).Some?
      && StatusGate(old(db.appointments)[FindAppointment(old(db.appointments), id).value], caller, status)
      && ParseStatus(status).Some?
    ensures r.Ok? ==>
      var k := FindAppointment(old(db.appointments), id).value;
      && StatusName(r.value.status) == status
      && r.value == old(db.appointments)[k].(status := r.value.status)
      && db.State() == old(db.State()).(appointments := old(db.appointments)[k := r.value])
    ensures !r.Ok? ==> db.State() == old(db.State())
  {
    var k := FindAppointment(db.appointments, id);
    if k.None? {
      return Err(404, "Not found");
    }
    var a := db.appointments[k.value];
    if status == "cancelled" && caller != a.patient {
      return Err(403, "Only patient can cancel");
    }
    if (status == "confirmed" || status == "completed") && caller != a.doctor {
      return Err(403, "Only doctor can confirm");
    }
    var parsed := ParseStatus(status);
    if parsed.None? {
      return Err(500, "Failed to update status");
    }
    var t := db.State();
    var a' := a.(status := parsed.value);
    UpdateAppointmentConsistent(t, k.value, a');
    db.Load(t.(appointments := t.appointments[k.value := a']));
    r := Ok(a');
  }

  /** Cancel (patient): the owning patient cancels from any status; no refund follows. */
  method CancelAppointment(db: Db, caller: Id, id: Id) returns (r: Response<Appointment>)
    requires db.Valid() && HasRole(db.users, caller, Patient)
    modifies db
    ensures db.Valid()
    ensures r.Ok? <==>
      && FindAppointment(old(db.appointments), id).Some?
      && old(db.appointments)[FindAppointment(old(db.appointments), id).value].patient == caller
    ensures r.Ok? ==>
      var k := FindAppointment(old(db.appointments), id).value;
      && r.value == old(db.appointments)[k].(status := Cancelled)
      && db.State() == old(db.State()).(appointments := old(db.appointments)[k := r.value])
    ensures !r.Ok? ==> r == Err(403, "Not authorized") && db.State() == old(db.State())
  {
    var k := FindAppointment(db.appointments, id);
    if k.None? || db.appointments[k.value].patient != caller {
      return Err(403, "Not authorized");
    }
    var t := db.State();
    var a := t.appointments[k.value].(status := Cancelled);
    UpdateAppointmentConsistent(t, k.value, a);
    db.Load(t.(appointments := t.appointments[k.value := a]));
    r := Ok(a);
  }

  function AppointmentsOfPatient(apps: seq<Appointment>, patient: Id): seq<Appointment> {
    Filter(apps, (a: Appointment) => a.patient == patient)
  }

  /** The caller's appointments, latest date first. */
  function GetPatientAppointments(db: Db, caller: Id): (r: seq<Appointment>)
    reads db
    ensures forall a :: a in r <==> a in db.appointments && a.patient == caller
    ensures multiset(r) == multiset(AppointmentsOfPatient(db.appointments, caller))
    ensures SortedDesc(r, AppointmentDateKey)
  {
    var mine := AppointmentsOfPatient(db.appointments, caller);
    var r := SortDesc(mine, AppointmentDateKey);
    assert forall a :: a in r <==> a in multiset(mine);
    r
  }
}
