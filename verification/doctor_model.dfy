/** The Doctor profile schema (Backend/models/Doctor.js) with its weekly availability
    template. */
module DoctorModel {
  import opened Wrappers

  /** The values the schema's availability `day` enum admits. */
  const WeekdayNames: seq<string> :=
    ["Monday", "Tuesday", "Wednesday", "Thursday", "Friday", "Saturday", "Sunday"]

  /** One availability entry as stored. No field is required, so `day`, `startTime` and
      `endTime` may be absent. */
  datatype AvailabilityEntry = AvailabilityEntry(
    day: Option<string>,
    startTime: Option<string>,
    endTime: Option<string>,
    isAvailable: bool)

  /** One availability entry as a request body carries it. */
  datatype AvailabilityInput = AvailabilityInput(
    day: Option<string>,
    startTime: Option<string>,
    endTime: Option<string>,
    isAvailable: Option<bool>)

  /** Casting an entry into the schema: `isAvailable` defaults to true. */
  function ToEntry(e: AvailabilityInput): (r: AvailabilityEntry)
    ensures r.day == e.day && r.startTime == e.startTime && r.endTime == e.endTime
    ensures r.isAvailable <==> e.isAvailable != Some(false)
  {
    AvailabilityEntry(e.day, e.startTime, e.endTime,
                      if e.isAvailable.Some? then e.isAvailable.value else true)
  }

  /** Casting a list entry by entry: same length and order, each entry keeping its day and
      times and available unless the body said false. */
  function ToEntries(es: seq<AvailabilityInput>): (r: seq<AvailabilityEntry>)
    ensures |r| == |es| && forall i :: 0 <= i < |es| ==> r[i] == ToEntry(es[i])
    ensures forall i :: 0 <= i < |es| ==>
      && r[i].day == es[i].day && r[i].startTime == es[i].startTime && r[i].endTime == es[i].endTime
      && (r[i].isAvailable <==> es[i].isAvailable != Some(false))
  {
    seq(|es|, i requires 0 <= i < |es| => ToEntry(es[i]))
  }

  /** What the enum validator checks of an entry on `save`/`create`. */
  predicate EntryValid(e: AvailabilityEntry) {
    e.day.None? || e.day.value in WeekdayNames
  }

  predicate EntriesValid(es: seq<AvailabilityEntry>) {
    forall i :: 0 <= i < |es| ==> EntryValid(es[i])
  }

  const DefaultRating: int := 0
  const DefaultTotalAppointments: int := 0

  datatype DoctorProfile = DoctorProfile(
    id: Id,
    user: Id,
    specialty: string,
    licenseNumber: string,
    experience: int,
    consultationFee: int,
    address: Option<string>,
    city: Option<string>,
    state: Option<string>,
    bio: Option<string>,
    availability: seq<AvailabilityEntry>,
    rating: int,
    totalAppointments: int)

  /** The profile fields a request body may carry (every one optional). */
  datatype ProfileInput = ProfileInput(
    specialty: Option<string>,
    licenseNumber: Option<string>,
    experience: Option<int>,
    consultationFee: Option<int>,
    address: Option<string>,
    city: Option<string>,
    state: Option<string>,
    bio: Option<string>,
    availability: Option<seq<AvailabilityInput>>,
    rating: Option<int>,
    totalAppointments: Option<int>)

  /** Mongoose's `required` check: strings must be present and non-empty, numbers present. */
  predicate HasRequiredFields(p: ProfileInput) {
    && p.specialty.Some? && p.specialty.value != ""
    && p.licenseNumber.Some? && p.licenseNumber.value != ""
    && p.experience.Some? && p.consultationFee.Some?
  }

  function Or<T>(o: Option<T>, default: T): T {
    if o.Some? then o.value else default
  }

  function OrElse<T>(o: Option<T>, prev: Option<T>): Option<T> {
    if o.Some? then o else prev
  }

  /** `Doctor.create(...)`: the given fields, an empty availability list, rating and
      appointment count 0 unless given. */
  function NewProfile(id: Id, user: Id, p: ProfileInput): (r: DoctorProfile)
    requires HasRequiredFields(p)
  {
    DoctorProfile(id, user, p.specialty.value, p.licenseNumber.value, p.experience.value,
                  p.consultationFee.value, p.address, p.city, p.state, p.bio,
                  if p.availability.Some? then ToEntries(p.availability.value) else [],
                  Or(p.rating, DefaultRating), Or(p.totalAppointments, DefaultTotalAppointments))
  }

  /** The schema's defaults, as a creation that gives neither availability, rating nor
      appointment count sees them; the required fields are stored as given. */
  lemma NewProfileDefaults(id: Id, user: Id, p: ProfileInput)
    requires HasRequiredFields(p) && p.availability.None? && p.rating.None?
    requires p.totalAppointments.None?
    ensures var d := NewProfile(id, user, p);
      && d.availability == [] && d.rating == 0 && d.totalAppointments == 0
      && d.id == id && d.user == user
      && Some(d.specialty) == p.specialty && Some(d.licenseNumber) == p.licenseNumber
      && Some(d.experience) == p.experience && Some(d.consultationFee) == p.consultationFee
  {
  }

  /** `findByIdAndUpdate(id, body)`: every field the body carries is overwritten, the others
      are kept; no validator runs on this path. */
  function UpdateProfile(d: DoctorProfile, p: ProfileInput): (r: DoctorProfile)
    ensures r.id == d.id && r.user == d.user
    // Every field the body carries is written.
    ensures && (p.specialty.Some? ==> Some(r.specialty) == p.specialty)
            && (p.licenseNumber.Some? ==> Some(r.licenseNumber) == p.licenseNumber)
            && (p.experience.Some? ==> Some(r.experience) == p.experience)
            && (p.consultationFee.Some? ==> Some(r.consultationFee) == p.consultationFee)
            && (p.address.Some? ==> r.address == p.address)
            && (p.city.Some? ==> r.city == p.city)
            && (p.state.Some? ==> r.state == p.state)
            && (p.bio.Some? ==> r.bio == p.bio)
            && (p.availability.Some? ==> r.availability == ToEntries(p.availability.value))
            && (p.rating.Some? ==> Some(r.rating) == p.rating)
            && (p.totalAppointments.Some? ==> Some(r.totalAppointments) == p.totalAppointments)
    // Every field it does not carry is kept.
    ensures && (p.specialty.None? ==> r.specialty == d.specialty)
            && (p.licenseNumber.None? ==> r.licenseNumber == d.licenseNumber)
            && (p.experience.None? ==> r.experience == d.experience)
            && (p.consultationFee.None? ==> r.consultationFee == d.consultationFee)
            && (p.address.None? ==> r.address == d.address)
            && (p.city.None? ==> r.city == d.city)
            && (p.state.None? ==> r.state == d.state)
            && (p.bio.None? ==> r.bio == d.bio)
            && (p.availability.None? ==> r.availability == d.availability)
            && (p.rating.None? ==> r.rating == d.rating)
            && (p.totalAppointments.None? ==> r.totalAppointments == d.totalAppointments)
  {
    DoctorProfile(d.id, d.user, Or(p.specialty, d.specialty), Or(p.licenseNumber, d.licenseNumber),
                  Or(p.experience, d.experience), Or(p.consultationFee, d.consultationFee),
                  OrElse(p.address, d.address), OrElse(p.city, d.city), OrElse(p.state, d.state),
                  OrElse(p.bio, d.bio),
                  if p.availability.Some? then ToEntries(p.availability.value) else d.availability,
                  Or(p.rating, d.rating), Or(p.totalAppointments, d.totalAppointments))
  }

  /** An update that carries no field leaves the profile as it was, and one that carries
      every field leaves nothing of the old profile but its id and user. */
  lemma UpdateProfileExtremes(d: DoctorProfile, p: ProfileInput, e: DoctorProfile)
    ensures UpdateProfile(d, ProfileInput(None, None, None, None, None, None, None, None, None, None, None)) == d
    ensures HasRequiredFields(p) && p.address.Some? && p.city.Some? && p.state.Some? && p.bio.Some?
            && p.availability.Some? && p.rating.Some? && p.totalAppointments.Some?
            ==> UpdateProfile(d, p) == UpdateProfile(e.(id := d.id, user := d.user), p)
  {
  }

  function ProfileId(d: DoctorProfile): Id { d.id }
  function ProfileUser(d: DoctorProfile): Id { d.user }
}
