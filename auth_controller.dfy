/** `loginUser`: a chain of early-returning checks over one lookup in the
    user collection, ending in a token signed with the user's id and role
    and a cookie named after the role the client asked for. `bcrypt.compare`
    is a parameter. */
module AuthController {
  import opened Common
  import opened UserModel
  import opened AuthMiddleware

  /** The body fields `loginUser` reads ("" when absent). */
  datatype Credentials = Credentials(email: string, password: string, role: string)

  /** The user as the answer shows it: id, email and role only. */
  datatype PublicUser = PublicUser(id: Id, email: string, role: string)

  /** How `loginUser` ends: refused with a status, or signed in. */
  datatype LoginAnswer = Denied(status: nat) | SignedIn(session: Session, user: PublicUser)

  /** The cookie a session for the requested role is sent in. */
  function CookieFor(role: string): (c: string)
    ensures c == "adminToken" <==> role == "Admin"
    ensures c == "adminToken" || c == "patientToken"
  {
    if role == "Admin" then "adminToken" else "patientToken"
  }

  /** `loginUser`, in the order of its checks: the three fields, the email,
      the password, and only then the role. */
  function LoginUser(users: seq<User>, c: Credentials, compare: (string, string) -> bool): (r: LoginAnswer)
    ensures !AllTruthy([c.email, c.password, c.role]) ==> r == Denied(400)
    ensures AllTruthy([c.email, c.password, c.role]) && FindByEmail(users, c.email).None? ==> r == Denied(404)
    ensures AllTruthy([c.email, c.password, c.role]) && FindByEmail(users, c.email).Some? ==>
              var u := users[FindByEmail(users, c.email).value];
              (!ComparePassword(u, c.password, compare) ==> r == Denied(401)) &&
              (ComparePassword(u, c.password, compare) && u.role != c.role ==> r == Denied(403)) &&
              (ComparePassword(u, c.password, compare) && u.role == c.role ==>
                 r == SignedIn(Session(CookieFor(c.role), Claims(Some(u.id), None, u.role)),
                               PublicUser(u.id, u.email, u.role)))
    ensures r.Denied? ==> r.status in {400, 401, 403, 404}
  {
    if !AllTruthy([c.email, c.password, c.role]) then Denied(400)
    else
      match FindByEmail(users, c.email)
      case None => Denied(404)
      case Some(k) =>
        var u := users[k];
        if !ComparePassword(u, c.password, compare) then Denied(401)
        else if u.role != c.role then Denied(403)
        else SignedIn(Session(CookieFor(c.role), Claims(Some(u.id), None, u.role)),
                      PublicUser(u.id, u.email, u.role))
  }

  /** A sign-in answer belongs to a stored user with that email, that
      password and the requested role. */
  lemma SignedInIsGenuine(users: seq<User>, c: Credentials, compare: (string, string) -> bool)
    requires LoginUser(users, c, compare).SignedIn?
    ensures var r := LoginUser(users, c, compare);
            exists u | u in users :: u.id == r.user.id && u.email == c.email && u.role == c.role &&
                                     compare(c.password, u.password)
  {
    var k := FindByEmail(users, c.email).value;
    assert users[k] in users;
  }

  /** The session a sign-in hands out, presented in its cookie: an
      administrator's passes the administrator guard and a patient's the
      patient guard; a doctor's lands in the patient cookie, which the
      doctor guard never reads and the patient guard refuses. */
  lemma SignedInSessionAtTheGuards(users: seq<User>, c: Credentials, compare: (string, string) -> bool,
                                   token: string, verify: string -> Outcome<Claims>)
    requires LoginUser(users, c, compare).SignedIn?
    requires token != "" && verify(token) == Ok(LoginUser(users, c, compare).session.claims)
    ensures var s := LoginUser(users, c, compare).session;
            var req := Request(map[s.cookieName := token], None);
            (c.role == "Admin" ==> AdminGuard(req, verify).Admitted?) &&
            (c.role == "Patient" ==> PatientGuard(req, verify).Admitted?) &&
            (c.role == "Doctor" ==> DoctorGuard(req, verify) == Refused(401) &&
                                    PatientGuard(req, verify) == Refused(403))
  {
    var s := LoginUser(users, c, compare).session;
    var req := Request(map[s.cookieName := token], None);
    assert s.claims.role == c.role;
    if c.role == "Doctor" {
      assert "doctorToken" !in req.cookies;
      assert GetToken(req, "doctorToken") == "";
    }
  }
}
