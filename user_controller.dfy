/** The user handlers: `patientRegister`, `login`, `addNewAdmin`,
    `addNewDoctor`, `getAllDoctors` and `deleteDoctor`. Each new user goes
    through `User.create`: the schema's validators, then the `pre("save")`
    hook, then the insert. `bcrypt.hash`, `bcrypt.compare` and
    `validator.isEmail` are parameters. */
module UserController {
  import opened Common
  import opened UserModel
  import opened Database
  import opened AuthMiddleware

  /** The payload `generateJsonWebToken` signs: the user's id and nothing
      else, in particular no role. */
  function TokenClaims(id: Id): Claims {
    Claims(Some(id), None, "")
  }

  /** `User.create(u)`: refused when a validator fails; otherwise the
      password is hashed and the document is stored under a fresh id. The
      caller has made sure that no user has the email. */
  method CreateUser(db: Db, u: User, isEmail: string -> bool, hash: string -> string)
    returns (created: Option<User>)
    requires db.Valid()
    requires FindByEmail(db.users, u.email).None?
    modifies db
    ensures db.Valid()
    ensures !ValidUser(u, isEmail) ==> created.None? && unchanged(db)
    ensures ValidUser(u, isEmail) ==>
              created == Some(PreSave(u, true, hash).(id := old(db.nextId))) &&
              db.users == old(db.users) + [created.value] && db.nextId == old(db.nextId) + 1 &&
              db.appointments == old(db.appointments) && db.diagnoses == old(db.diagnoses) &&
              db.messages == old(db.messages)
  {
    if !ValidUser(u, isEmail) {
      return None;
    }
    var stored := db.InsertUser(PreSave(u, true, hash));
    return Some(stored);
  }

  // ---------------------------------------------------------------------------
  // Registration and login

  /** The fields `patientRegister` reads from the body ("" when absent). */
  datatype Registration = Registration(firstName: string, lastName: string, email: string,
                                       phone: string, dob: string, gender: string, password: string)

  function RegistrationFields(r: Registration): seq<string> {
    [r.firstName, r.lastName, r.email, r.phone, r.dob, r.gender, r.password]
  }

  /** The document `patientRegister` creates; the store assigns its id. */
  function PatientOf(r: Registration): User {
    User(0, r.firstName, r.lastName, r.email, r.phone, r.dob, r.gender, r.password, "Patient", "")
  }

  /** `patientRegister`: 400 when a field is missing or the email is taken;
      otherwise the new patient, answered with 201 and a `patientToken`
      cookie. */
  method PatientRegister(db: Db, r: Registration, isEmail: string -> bool, hash: string -> string)
    returns (reply: Reply, session: Option<Session>)
    requires db.Valid()
    modifies db
    ensures db.Valid()
    ensures reply == Status(201) <==> session.Some?
    ensures !AllTruthy(RegistrationFields(r)) ==> reply == Status(400) && unchanged(db)
    ensures AllTruthy(RegistrationFields(r)) && FindByEmail(old(db.users), r.email).Some? ==>
              reply == Status(400) && unchanged(db)
    ensures AllTruthy(RegistrationFields(r)) && FindByEmail(old(db.users), r.email).None? ==>
              (!ValidUser(PatientOf(r), isEmail) ==> reply == Uncaught && unchanged(db)) &&
              (ValidUser(PatientOf(r), isEmail) ==>
                 reply == Status(201) &&
                 session == Some(Session("patientToken", TokenClaims(old(db.nextId)))) &&
                 db.users == old(db.users) + [PreSave(PatientOf(r), true, hash).(id := old(db.nextId))] &&
                 db.appointments == old(db.appointments) && db.diagnoses == old(db.diagnoses) &&
                 db.messages == old(db.messages))
    // Every user it stores is a patient whose stored password is the hash.
    ensures reply == Status(201) ==>
              var u := db.users[|db.users| - 1];
              |db.users| == |old(db.users)| + 1 && u.role == "Patient" &&
              u.password == hash(r.password) && u.email == r.email
  {
    if !AllTruthy(RegistrationFields(r)) {
      return Status(400), None;
    }
    if db.FindUserByEmail(r.email).Some? {
      return Status(400), None;
    }
    var created := CreateUser(db, PatientOf(r), isEmail, hash);
    if created.None? {
      return Uncaught, None;
    }
    return Status(201), Some(Session("patientToken", TokenClaims(created.value.id)));
  }

  /** How `login` ends: refused with a status, or signed in with a cookie
      and the stored user document in the answer. */
  datatype LoginResult = LoginRefused(status: nat) | LoggedIn(session: Session, user: User)

  /** `login`: 400 without an email or a password, 404 for an unknown
      email, 401 for a wrong password; otherwise a token cookie named after
      the user's role. The answer carries the document as read with
      `select("+password")`, password hash included. */
  function Login(users: seq<User>, email: string, password: string,
                 compare: (string, string) -> bool): (r: LoginResult)
    ensures email == "" || password == "" ==> r == LoginRefused(400)
    ensures email != "" && password != "" && FindByEmail(users, email).None? ==> r == LoginRefused(404)
    ensures email != "" && password != "" && FindByEmail(users, email).Some? ==>
              var u := users[FindByEmail(users, email).value];
              (!ComparePassword(u, password, compare) ==> r == LoginRefused(401)) &&
              (ComparePassword(u, password, compare) ==> r.LoggedIn? && r.user == u)
    ensures r.LoggedIn? ==>
              r.user in users && r.user.email == email && compare(password, r.user.password) &&
              r.session == Session(if r.user.role == "Admin" then "adminToken" else "patientToken",
                                   TokenClaims(r.user.id))
  {
    if email == "" || password == "" then LoginRefused(400)
    else
      match FindByEmail(users, email)
      case None => LoginRefused(404)
      case Some(k) =>
        var u := users[k];
        if !ComparePassword(u, password, compare) then LoginRefused(401)
        else
          var cookieName := if u.role == "Admin" then "adminToken" else "patientToken";
          LoggedIn(Session(cookieName, TokenClaims(u.id)), u)
  }

  /** The token of a session `login` or `patientRegister` issues carries
      no role, so the guard that reads its cookie refuses it with 403,
      whichever role that guard wants. */
  lemma IssuedSessionRefused(id: Id, cookieName: string, token: string, role: string,
                             verify: string -> Outcome<Claims>)
    requires token != "" && verify(token) == Ok(TokenClaims(id)) && role != ""
    ensures Guard(Request(map[cookieName := token], None), cookieName, role, verify) == Refused(403)
  {
    CookieOnlyRequest(Session(cookieName, TokenClaims(id)), token, role, verify);
  }

  // ---------------------------------------------------------------------------
  // Administrators and doctors

  /** The fields `addNewAdmin` reads. */
  datatype AdminForm = AdminForm(firstName: string, lastName: string, email: string, password: string)

  /** The document `addNewAdmin` creates: no phone, date of birth or gender. */
  function AdminOf(f: AdminForm): User {
    User(0, f.firstName, f.lastName, f.email, "", "", "", f.password, "Admin", "")
  }

  /** The schema requires a phone, so an administrator created from the
      form alone is always refused; completed with a valid phone, date of
      birth and gender it would be accepted. */
  lemma AdminFormIncomplete(f: AdminForm, isEmail: string -> bool, phone: string, dob: string, gender: string)
    ensures !ValidUser(AdminOf(f), isEmail)
    ensures ValidUser(AdminOf(f).(phone := phone, dob := dob, gender := gender), isEmail) <==>
              |f.firstName| >= 3 && |f.lastName| >= 2 && f.email != "" && isEmail(f.email) &&
              9 <= |phone| <= 11 && dob != "" && gender in Genders && |f.password| >= 8
  {
  }

  /** `addNewAdmin`: 400 when a field is missing or the email is taken;
      otherwise `User.create`, which the schema always refuses. No
      administrator is ever added. */
  method AddNewAdmin(db: Db, f: AdminForm, isEmail: string -> bool, hash: string -> string)
    returns (reply: Reply)
    requires db.Valid()
    modifies db
    ensures db.Valid()
    ensures !AllTruthy([f.firstName, f.lastName, f.email, f.password]) ==> reply == Status(400)
    ensures AllTruthy([f.firstName, f.lastName, f.email, f.password]) ==>
              (FindByEmail(old(db.users), f.email).Some? ==> reply == Status(400)) &&
              (FindByEmail(old(db.users), f.email).None? ==> reply == Uncaught)
    ensures unchanged(db)
  {
    if !AllTruthy([f.firstName, f.lastName, f.email, f.password]) {
      return Status(400);
    }
    if db.FindUserByEmail(f.email).Some? {
      return Status(400);
    }
    AdminFormIncomplete(f, isEmail, "", "", "");
    var onSuccess := Status(201);
    var created := CreateUser(db, AdminOf(f), isEmail, hash);
    reply := if created.Some? then onSuccess else Uncaught;
  }

  /** The fields `addNewDoctor` reads. */
  datatype DoctorForm = DoctorForm(firstName: string, lastName: string, email: string,
                                   password: string, doctorDepartment: string)

  /** The document `addNewDoctor` creates, with the role "Doctor". */
  function DoctorOf(f: DoctorForm): User {
    User(0, f.firstName, f.lastName, f.email, "", "", "", f.password, "Doctor", f.doctorDepartment)
  }

  /** The role "Doctor" is outside the schema's enum: a doctor document is
      refused even with every other field completed. */
  lemma DoctorAlwaysRefused(f: DoctorForm, isEmail: string -> bool, phone: string, dob: string, gender: string)
    ensures !ValidUser(DoctorOf(f).(phone := phone, dob := dob, gender := gender), isEmail)
  {
  }

  /** `addNewDoctor`: 400 when a field is missing or the email is taken;
      otherwise `User.create`, which the schema always refuses. No doctor
      is ever added. */
  method AddNewDoctor(db: Db, f: DoctorForm, isEmail: string -> bool, hash: string -> string)
    returns (reply: Reply)
    requires db.Valid()
    modifies db
    ensures db.Valid()
    ensures !AllTruthy([f.firstName, f.lastName, f.email, f.password, f.doctorDepartment]) ==>
              reply == Status(400)
    ensures AllTruthy([f.firstName, f.lastName, f.email, f.password, f.doctorDepartment]) ==>
              (FindByEmail(old(db.users), f.email).Some? ==> reply == Status(400)) &&
              (FindByEmail(old(db.users), f.email).None? ==> reply == Uncaught)
    ensures unchanged(db)
  {
    if !AllTruthy([f.firstName, f.lastName, f.email, f.password, f.doctorDepartment]) {
      return Status(400);
    }
    if db.FindUserByEmail(f.email).Some? {
      return Status(400);
    }
    DoctorAlwaysRefused(f, isEmail, "", "", "");
    var onSuccess := Status(201);
    var created := CreateUser(db, DoctorOf(f), isEmail, hash);
    reply := if created.Some? then onSuccess else Uncaught;
  }

  /** The query filter `{ role: "Doctor" }`. */
  function IsDoctor(u: User): bool {
    u.role == "Doctor"
  }

  /** `getAllDoctors`: the users whose role is "Doctor", in the collection's order. */
  function AllDoctors(users: seq<User>): (r: seq<User>)
    ensures forall u :: u in r <==> u in users && u.role == "Doctor"
    ensures |r| <= |users|
  {
    Filter(users, IsDoctor)
  }

  /** Over a user collection the schema accepts, the doctor list is empty. */
  lemma NoDoctorsListed(users: seq<User>, isEmail: string -> bool)
    requires forall u | u in users :: ValidProfile(u, isEmail)
    ensures AllDoctors(users) == []
  {
    var r := AllDoctors(users);
    if r != [] {
      assert r[0] in r;
      ValidUserIsNoDoctor(r[0], isEmail);
    }
  }

  /** `deleteDoctor`: 404 for an unknown id; otherwise exactly the user with
      that id goes, whatever its role. */
  method DeleteDoctor(db: Db, id: Id) returns (reply: Reply)
    requires db.Valid()
    modifies db
    ensures db.Valid()
    ensures old(db.FindUser(id)).None? ==> reply == Status(404) && unchanged(db)
    ensures old(db.FindUser(id)).Some? ==>
              reply == Status(200) &&
              db.users == RemoveAt(old(db.users), old(db.FindUser(id)).value) &&
              forall u :: u in db.users <==> u in old(db.users) && u.id != id
    ensures db.appointments == old(db.appointments) && db.diagnoses == old(db.diagnoses) &&
            db.messages == old(db.messages) && db.nextId == old(db.nextId)
  {
    var found := db.FindUser(id);
    if found.None? {
      return Status(404);
    }
    var k := found.value;
    RemoveOnlyThatKey(db.users, k, UserId);
    db.DeleteUser(k);
    return Status(200);
  }
}
