/** Doctor profiles (Backend/controllers/doctorController.js): the doctor's own profile and
    weekly availability, the public directory, and the doctor's appointment list. */
module DoctorController {
  import opened Wrappers
  import opened Seqs
  import opened Text
  import opened UserModel
  import opened DoctorModel
  import opened AppointmentModel
  import opened Store

  /** Whether `Doctor.create` passes schema validation: required fields present and every
      availability day in the enum. */
  function CreateValid(p: ProfileInput): (r: bool)
    ensures r <==> (HasRequiredFields(p) &&
      (p.availability.Some? ==> forall e :: e in p.availability.value ==> e.day.None? || e.day.value in WeekdayNames))
  {
    HasRequiredFields(p) && (p.availability.Some? ==> EntriesValid(ToEntries(p.availability.value)))
  }

  /** Profile upsert (doctor). An existing profile (the first one of the caller) is
      overwritten field by field without validation; otherwise a profile is created, and a
      body that fails validation answers 500 and creates nothing. */
  method CompleteDoctorProfile(db: Db, caller: Id, callerRole: Role, p: ProfileInput)
    returns (r: Response<DoctorProfile>)
    requires db.Valid() && HasRole(db.users, caller, callerRole)
    modifies db
    ensures db.Valid()
    ensures callerRole != Doctor ==> r == Err(403, "Doctors only") && db.State() == old(db.State())
    ensures callerRole == Doctor && FindProfileOf(old(db.doctors), caller).Some? ==>
      var k := FindProfileOf(old(db.doctors), caller).value;
      && r == Ok(UpdateProfile(old(db.doctors)[k], p))
      && db.State() == old(db.State()).(doctors := old(db.doctors)[k := r.value])
    ensures callerRole == Doctor && FindProfileOf(old(db.doctors), caller).None? && !CreateValid(p)
            ==> r == Err(500, "Failed to save profile") && db.State() == old(db.State())
    ensures callerRole == Doctor && FindProfileOf(old(db.doctors), caller).None? && CreateValid(p) ==>
      && r == Ok(NewProfile(old(db.nextId), caller, p))
      && db.State() == old(db.State()).(doctors := old(db.doctors) + [r.value],
                                        nextId := old(db.nextId) + 1)
    ensures r.Ok? ==> r.value.user == caller
  {
    if callerRole != Doctor {
      return Err(403, "Doctors only");
    }
    var k := FindProfileOf(db.doctors, caller);
    if k.Some? {
      var t := db.State();
      var d := UpdateProfile(t.doctors[k.value], p);
      UpdateProfileConsistent(t, k.value, d);
      db.Load(t.(doctors := t.doctors[k.value := d]));
      return Ok(d);
    }
    if !CreateValid(p) {
      return Err(500, "Failed to save profile");
    }
    var t := db.State();
    var d := NewProfile(t.nextId, caller, p);
    AppendProfileConsistent(t, d);
    db.Load(t.(doctors := t.doctors + [d], nextId := t.nextId + 1));
    r := Ok(d);
  }

  /** The user has a profile, and every profile of the user is the one `findOne` returns:
      exactly one. */
  ghost predicate SoleProfile(ds: seq<DoctorProfile>, user: Id) {
    && (exists i :: 0 <= i < |ds| && ds[i].user == user)
    && forall i :: 0 <= i < |ds| && ds[i].user == user ==> FindProfileOf(ds, user) == Some(i)
  }

  /** After the upsert the caller has exactly one profile, whichever path was taken. */
  lemma UpsertKeepsOneProfile(t: Tables, caller: Id, d: DoctorProfile)
    requires DistinctBy(t.doctors, ProfileUser) && d.user == caller
    ensures FindProfileOf(t.doctors, caller).Some? ==>
      SoleProfile(t.doctors[FindProfileOf(t.doctors, caller).value := d], caller)
    ensures FindProfileOf(t.doctors, caller).None? ==>
      SoleProfile(t.doctors + [d.(id := t.nextId)], caller)
  {
    var k := FindProfileOf(t.doctors, caller);
    if k.Some? {
      var ds := t.doctors[k.value := d];
      assert ds[k.value].user == caller;
      forall i | 0 <= i < |ds| && ds[i].user == caller ensures FindProfileOf(ds, caller) == Some(i) {
      }
    } else {
      var ds := t.doctors + [d.(id := t.nextId)];
      assert ds[|t.doctors|].user == caller;
    }
  }

  /** A directory filter: an absent or empty query matches everything; otherwise the field
      must be present and contain the query, ignoring case. */
  predicate QueryMatches(field: Option<string>, query: Option<string>) {
    query.None? || query.value == "" || (field.Some? && ContainsIgnoringCase(field.value, query.value))
  }

  /** A profile whose user exists, is approved and is active. */
  predicate Listed(users: seq<User>, d: DoctorProfile) {
    match FindUser(users, d.user)
    case None => false
    case Some(k) => users[k].isApproved && users[k].isActive
  }

  predicate DirectoryMatch(users: seq<User>, d: DoctorProfile, specialty: Option<string>,
                           city: Option<string>, state: Option<string>) {
    && QueryMatches(Some(d.specialty), specialty) && QueryMatches(d.city, city)
    && QueryMatches(d.state, state) && Listed(users, d)
  }

  /** The public directory, in natural order. */
  function GetDoctors(db: Db, specialty: Option<string>, city: Option<string>, state: Option<string>)
    : (r: seq<DoctorProfile>)
    reads db
    ensures forall d :: d in r <==> d in db.doctors && DirectoryMatch(db.users, d, specialty, city, state)
    ensures specialty.None? && city.None? && state.None? ==>
      forall d :: d in r <==> d in db.doctors && Listed(db.users, d)
  {
    var users := db.users;
    Filter(db.doctors, (d: DoctorProfile) => DirectoryMatch(users, d, specialty, city, state))
  }

  /** A profile by id, shown only when its user is approved; `isActive` is not consulted. */
  function GetDoctorById(db: Db, id: Id): (r: Response<DoctorProfile>)
    reads db
    ensures r.Ok? <==>
      && FindProfile(db.doctors, id).Some?
      && FindUser(db.users, db.doctors[FindProfile(db.doctors, id).value].user).Some?
      && db.users[FindUser(db.users, db.doctors[FindProfile(db.doctors, id).value].user).value].isApproved
    ensures r.Ok? ==> r.value in db.doctors && r.value.id == id
    ensures r.Err? ==> r == Err(404, "Doctor not found")
  {
    match FindProfile(db.doctors, id)
    case None => Err(404, "Doctor not found")
    case Some(k) =>
      match FindUser(db.users, db.doctors[k].user)
      case None => Err(404, "Doctor not found")
      case Some(j) => if db.users[j].isApproved then Ok(db.doctors[k]) else Err(404, "Doctor not found")
  }

  /** What `save()` validates on a profile whose availability was just replaced: the
      required strings non-empty and every day in the enum. */
  function SaveValid(d: DoctorProfile): (r: bool)
    ensures r <==> (d.specialty != "" && d.licenseNumber != "" &&
      forall e :: e in d.availability && e.day.Some? ==> e.day.value in WeekdayNames)
  {
    d.specialty != "" && d.licenseNumber != "" && EntriesValid(d.availability)
  }

  /** Availability update (doctor): the caller's profile's list is replaced by the body's. */
  method UpdateAvailability(db: Db, caller: Id, availability: seq<AvailabilityInput>)
    returns (r: Response<DoctorProfile>)
    requires db.Valid()
    modifies db
    ensures db.Valid()
    ensures FindProfileOf(old(db.doctors), caller).None?
            ==> r == Err(404, "Profile not found") && db.State() == old(db.State())
    ensures FindProfileOf(old(db.doctors), caller).Some? ==>
      var k := FindProfileOf(old(db.doctors), caller).value;
      var d := old(db.doctors)[k].(availability := ToEntries(availability));
      && (!SaveValid(d) ==> r == Err(500, "Failed to update availability") && db.State() == old(db.State()))
      && (SaveValid(d) ==> r == Ok(d) && db.State() == old(db.State()).(doctors := old(db.doctors)[k := d]))
  {
    var k := FindProfileOf(db.doctors, caller);
    if k.None? {
      return Err(404, "Profile not found");
    }
    var d := db.doctors[k.value].(availability := ToEntries(availability));
    if !SaveValid(d) {
      return Err(500, "Failed to update availability");
    }
    UpdateProfileConsistent(db.State(), k.value, d);
    db.doctors := db.doctors[k.value := d];
    r := Ok(d);
  }

  function AppointmentsOfDoctor(apps: seq<Appointment>, doctor: Id): seq<Appointment> {
    Filter(apps, (a: Appointment) => a.doctor == doctor)
  }

  /** The caller's appointments as doctor, latest date first. */
  function GetDoctorAppointments(db: Db, caller: Id): (r: seq<Appointment>)
    reads db
    ensures forall a :: a in r <==> a in db.appointments && a.doctor == caller
    ensures multiset(r) == multiset(AppointmentsOfDoctor(db.appointments, caller))
    ensures SortedDesc(r, AppointmentDateKey)
  {
    var mine := AppointmentsOfDoctor(db.appointments, caller);
    var r := SortDesc(mine, AppointmentDateKey);
    assert forall a :: a in r <==> a in multiset(mine);
    r
  }
}
