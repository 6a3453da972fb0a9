/** Accounts (Backend/controllers/authController.js): self-registration and login.
    Password hashing and token signing are outside the model: the hash comparison is a
    parameter and no token is produced. */
module AuthController {
  import opened Wrappers
  import opened UserModel
  import opened Store

  /** The account fields the handlers answer with. */
  datatype AccountInfo = AccountInfo(
    id: Id,
    firstName: string,
    lastName: string,
    email: string,
    role: Role,
    isApproved: bool)

  function InfoOf(u: User): AccountInfo {
    AccountInfo(u.id, u.firstName, u.lastName, u.email, u.role, u.isApproved)
  }

  /** The roles a registration may name. */
  const AllowedRoles: seq<string> := ["patient", "admin", "doctor"]

  /** A registration body; an absent field is the empty string, which JavaScript treats as
      missing. */
  datatype Registration = Registration(
    firstName: string,
    lastName: string,
    email: string,
    password: string,
    phone: string,
    role: string)

  predicate AllFieldsGiven(b: Registration) {
    b.firstName != "" && b.lastName != "" && b.email != "" && b.password != "" && b.phone != ""
  }

  /** The role granted: the one named, patient when none is. */
  function GrantedRole(b: Registration): (r: Role)
    requires b.role == "" || b.role in AllowedRoles
    ensures b.role == "" ==> r == Patient
    ensures b.role != "" ==> RoleName(r) == b.role
  {
    if b.role == "" then Patient else ParseRole(b.role).value
  }

  /** The registration guard chain: the first failing check, or None. */
  function RegistrationError(users: seq<User>, b: Registration): (r: Option<string>)
    ensures !AllFieldsGiven(b) ==> r == Some("Please provide all fields")
    ensures AllFieldsGiven(b) && b.role != "" && b.role !in AllowedRoles
            ==> r == Some("Invalid registration role")
    ensures AllFieldsGiven(b) && (b.role == "" || b.role in AllowedRoles)
            && (exists u :: u in users && u.email == b.email)
            ==> r == Some("User exists")
    ensures r.None? <==> AllFieldsGiven(b) && (b.role == "" || b.role in AllowedRoles)
                         && forall u :: u in users ==> u.email != b.email
  {
    if !AllFieldsGiven(b) then Some("Please provide all fields")
    else if b.role != "" && b.role !in AllowedRoles then Some("Invalid registration role")
    else match FindUserByEmail(users, b.email)
      case Some(k) =>
        assert users[k] in users;
        Some("User exists")
      case None => None
  }

  /** The account a registration creates: active, and approved unless it is a doctor's. */
  function NewUser(id: Id, b: Registration): (u: User)
    requires b.role == "" || b.role in AllowedRoles
    ensures u.id == id && u.email == b.email && u.role == GrantedRole(b)
    ensures u.isApproved <==> u.role != Doctor
    ensures u.isActive
  {
    var role := GrantedRole(b);
    User(id, b.firstName, b.lastName, b.email, b.password, b.phone, role, role != Doctor, true)
  }

  /** The database after a registration that passed the guards: the account, then an empty
      patient profile under the following id when the role granted is patient. */
  function AfterRegistration(t: Tables, b: Registration): (t': Tables)
    requires RegistrationError(t.users, b).None?
    ensures t'.users == t.users + [NewUser(t.nextId, b)]
    ensures t'.patients == t.patients
      + (if GrantedRole(b) == Patient then [PatientProfile(t.nextId + 1, t.nextId)] else [])
    ensures t'.nextId == t.nextId + (if GrantedRole(b) == Patient then 2 else 1)
    ensures t'.doctors == t.doctors && t'.appointments == t.appointments && t'.payments == t.payments
  {
    var u := NewUser(t.nextId, b);
    var t1 := t.(users := t.users + [u], nextId := t.nextId + 1);
    if u.role == Patient then
      t1.(patients := t.patients + [PatientProfile(t1.nextId, u.id)], nextId := t1.nextId + 1)
    else t1
  }

  /** A registration keeps the database consistent. */
  lemma RegistrationConsistent(t: Tables, b: Registration)
    requires Consistent(t) && RegistrationError(t.users, b).None?
    ensures Consistent(AfterRegistration(t, b))
  {
    var u := NewUser(t.nextId, b);
    AppendUserConsistent(t, u);
    if u.role == Patient {
      var t1 := t.(users := t.users + [u], nextId := t.nextId + 1);
      assert u in t1.users;
      forall i | 0 <= i < |t1.patients| ensures t1.patients[i].user != u.id {
        assert t1.patients[i] in t.patients;
      }
      AppendPatientProfileConsistent(t1, PatientProfile(t1.nextId, u.id));
    }
  }

  /** Registration: a new active account whose approval is withheld only from doctors, plus
      an empty patient profile when the role granted is patient. */
  method RegisterUser(db: Db, b: Registration) returns (r: Response<AccountInfo>)
    requires db.Valid()
    modifies db
    ensures db.Valid()
    ensures r.Err? <==> RegistrationError(old(db.users), b).Some?
    ensures r.Err? ==> r == Err(400, RegistrationError(old(db.users), b).value)
                       && db.State() == old(db.State())
    ensures r.Ok? ==>
      && r.value == InfoOf(NewUser(old(db.nextId), b))
      && db.State() == AfterRegistration(old(db.State()), b)
  {
    var err := RegistrationError(db.users, b);
    if err.Some? {
      return Err(400, err.value);
    }
    var u := NewUser(db.nextId, b);
    RegistrationConsistent(db.State(), b);
    db.Load(AfterRegistration(db.State(), b));
    r := Ok(InfoOf(u));
  }

  /** Login: the first account with the email whose stored password `matches` the one given
      (the hash comparison); an unapproved doctor is refused. Neither `isActive` nor the role
      of a non-doctor is consulted. */
  function LoginUser(db: Db, email: string, password: string, matches: (string, string) -> bool)
    : (r: Response<AccountInfo>)
    reads db
    ensures r.Ok? ==> exists u :: u in db.users && u.email == email && matches(password, u.password)
                                  && r.value == InfoOf(u) && (u.role == Doctor ==> u.isApproved)
    ensures (forall u :: u in db.users ==> u.email != email) ==> r == Err(401, "Invalid credentials")
    ensures r.Err? ==> r == Err(401, "Invalid credentials") || r == Err(403, "Doctor not approved")
    ensures r == Err(403, "Doctor not approved") ==>
      exists u :: u in db.users && u.email == email && matches(password, u.password)
                  && u.role == Doctor && !u.isApproved
    ensures (forall u :: u in db.users && u.email == email ==> !matches(password, u.password))
            ==> r == Err(401, "Invalid credentials")
  {
    match FindUserByEmail(db.users, email)
    case None => Err(401, "Invalid credentials")
    case Some(k) =>
      var u := db.users[k];
      if !matches(password, u.password) then Err(401, "Invalid credentials")
      else if u.role == Doctor && !u.isApproved then Err(403, "Doctor not approved")
      else Ok(InfoOf(u))
  }

  /** In a consistent database the account found is the only one with that email, so login
      succeeds exactly for the matching password of an approved (or non-doctor) account. */
  lemma LoginExact(t: Tables, db: Db, u: User, password: string, matches: (string, string) -> bool)
    requires t == db.State() && Consistent(t) && u in t.users
    ensures LoginUser(db, u.email, password, matches).Ok? <==>
      matches(password, u.password) && (u.role == Doctor ==> u.isApproved)
    ensures !matches(password, u.password)
            ==> LoginUser(db, u.email, password, matches) == Err(401, "Invalid credentials")
    ensures matches(password, u.password) && u.role == Doctor && !u.isApproved
            ==> LoginUser(db, u.email, password, matches) == Err(403, "Doctor not approved")
  {
    var k := FindUserByEmail(t.users, u.email).value;
    var j :| 0 <= j < |t.users| && t.users[j] == u;
    assert UserEmail(t.users[j]) == UserEmail(t.users[k]);
  }

  /** A fresh account can log in with its own password right away unless it is a doctor's,
      which waits for approval. */
  lemma RegisteredLogin(t: Tables, b: Registration, db: Db, matches: (string, string) -> bool)
    requires Consistent(t) && RegistrationError(t.users, b).None?
    requires db.State() == AfterRegistration(t, b) && matches(b.password, b.password)
    ensures LoginUser(db, b.email, b.password, matches).Ok? <==> GrantedRole(b) != Doctor
    ensures GrantedRole(b) == Doctor ==>
      LoginUser(db, b.email, b.password, matches) == Err(403, "Doctor not approved")
  {
    var u := NewUser(t.nextId, b);
    RegistrationConsistent(t, b);
    assert u in db.users;
    LoginExact(db.State(), db, u, b.password, matches);
    var k := FindUserByEmail(db.users, b.email).value;
    assert UserEmail(db.users[k]) == UserEmail(db.users[|t.users|]);
  }
}
