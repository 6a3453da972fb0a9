/** Accounts. The User schema itself (Backend/models/User.js) is not part of this model: its
    fields are the ones the controllers read and write. The Patient profile
    (Backend/models/Patient.js) is kept only as the link to its user, which is all the core
    touches. */
module UserModel {
  import opened Wrappers

  datatype Role = Patient | Doctor | Admin

  function RoleName(r: Role): string {
    match r
    case Patient => "patient"
    case Doctor => "doctor"
    case Admin => "admin"
  }

  /** The role a string names, if any. */
  function ParseRole(s: string): (r: Option<Role>)
    ensures r.Some? ==> RoleName(r.value) == s
    ensures r.None? <==> s !in {"patient", "doctor", "admin"}
  {
    if s == "patient" then Some(Patient)
    else if s == "doctor" then Some(Doctor)
    else if s == "admin" then Some(Admin)
    else None
  }

  datatype User = User(
    id: Id,
    firstName: string,
    lastName: string,
    email: string,
    password: string,  // stored credential; hashing happens in the User schema
    phone: string,
    role: Role,
    isApproved: bool,
    isActive: bool)

  datatype PatientProfile = PatientProfile(id: Id, user: Id)

  function UserId(u: User): Id { u.id }
  function UserEmail(u: User): string { u.email }
  function PatientProfileId(p: PatientProfile): Id { p.id }
  function PatientProfileUser(p: PatientProfile): Id { p.user }
}
