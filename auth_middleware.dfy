/** The authentication middleware: where a request's token comes from (a
    cookie named after the role, else an `Authorization: Bearer` header, a
    simplified reading of section 2.1 of RFC 6750), and the three guards
    that admit a request only when its verified token claims their role.
    `jwt.verify` is a parameter: it either fails (throws) or yields the
    token's claims. */
module AuthMiddleware {
  import opened Common

  /** The payload of a verified token: its `id` and `_id` keys when present,
      and its `role` ("" when the token has none). */
  datatype Claims = Claims(id: Option<Id>, underscoreId: Option<Id>, role: string)

  /** What the guards read from a request: its cookies and its
      `Authorization` header, if any. */
  datatype Request = Request(cookies: map<string, string>, authorization: Option<string>)

  const BearerPrefix: string := "Bearer "

  predicate HasBearerPrefix(h: string) {
    |BearerPrefix| <= |h| && h[..|BearerPrefix|] == BearerPrefix
  }

  /** The text of `s` up to its first space. */
  function UpToSpace(s: string): (r: string)
    ensures |r| <= |s| && r == s[..|r|]
    ensures ' ' !in r
    ensures |r| < |s| ==> s[|r|] == ' '
  {
    if |s| == 0 || s[0] == ' ' then "" else [s[0]] + UpToSpace(s[1..])
  }

  /** `authHeader?.startsWith("Bearer ") ? authHeader.split(" ")[1] : null`:
      the second space-separated field of a header that starts with the
      prefix, else nothing (""). */
  function HeaderToken(authorization: Option<string>): (t: string)
    ensures authorization.None? ==> t == ""
    ensures authorization.Some? && !HasBearerPrefix(authorization.value) ==> t == ""
    ensures ' ' !in t
  {
    if authorization.Some? && HasBearerPrefix(authorization.value) then
      UpToSpace(authorization.value[|BearerPrefix|..])
    else ""
  }

  /** The header `Bearer <token>`, optionally followed by more space-separated
      text, yields exactly `<token>` back. */
  lemma {:induction false} HeaderTokenRoundTrip(token: string, rest: string)
    requires ' ' !in token
    requires rest == "" || rest[0] == ' '
    ensures HeaderToken(Some(BearerPrefix + token + rest)) == token
  {
    var h := BearerPrefix + token + rest;
    assert h[..|BearerPrefix|] == BearerPrefix;
    assert h[|BearerPrefix|..] == token + rest;
    UpToSpaceOfWord(token, rest);
  }

  lemma {:induction false} UpToSpaceOfWord(word: string, rest: string)
    requires ' ' !in word
    requires rest == "" || rest[0] == ' '
    ensures UpToSpace(word + rest) == word
    decreases |word|
  {
    if |word| > 0 {
      assert (word + rest)[1..] == word[1..] + rest;
      assert word[0] in word;
      UpToSpaceOfWord(word[1..], rest);
      assert [word[0]] + word[1..] == word;
    }
  }

  /** `getToken`: the cookie's value when it is non-empty, else the header's
      token when that is non-empty, else nothing (`null`, here ""). */
  function GetToken(req: Request, cookieName: string): (t: string)
    ensures cookieName in req.cookies && req.cookies[cookieName] != "" ==> t == req.cookies[cookieName]
    ensures (cookieName !in req.cookies || req.cookies[cookieName] == "") ==> t == HeaderToken(req.authorization)
  {
    var fromCookie := if cookieName in req.cookies then req.cookies[cookieName] else "";
    if fromCookie != "" then fromCookie else HeaderToken(req.authorization)
  }

  /** How a guard ends: refused with a status, or passed on to the next
      handler with `req.user` and `req.userId` set. */
  datatype GuardResult = Refused(status: nat) | Admitted(user: Claims, userId: Option<Id>)

  /** The guard shared by the three middlewares, for the cookie and the
      role each names. */
  function Guard(req: Request, cookieName: string, role: string,
                 verify: string -> Outcome<Claims>): (g: GuardResult)
    ensures GetToken(req, cookieName) == "" ==> g == Refused(401)
    ensures GetToken(req, cookieName) != "" && verify(GetToken(req, cookieName)).Fail? ==> g == Refused(401)
    ensures g.Admitted? <==> GetToken(req, cookieName) != "" &&
                             verify(GetToken(req, cookieName)).Ok? &&
                             verify(GetToken(req, cookieName)).value.role == role
    ensures g.Refused? ==> g.status == 401 || g.status == 403
    ensures g == Refused(403) ==> verify(GetToken(req, cookieName)).value.role != role
    ensures g.Admitted? ==> g.user == verify(GetToken(req, cookieName)).value &&
                            g.userId == (if g.user.id.Some? then g.user.id else g.user.underscoreId)
  {
    var token := GetToken(req, cookieName);
    if token == "" then Refused(401)
    else
      match verify(token)
      case Fail => Refused(401)
      case Ok(decoded) =>
        if decoded.role != role then Refused(403)
        else Admitted(decoded, if decoded.id.Some? then decoded.id else decoded.underscoreId)
  }

  /** `isPatientAuthenticated`. */
  function PatientGuard(req: Request, verify: string -> Outcome<Claims>): (r: GuardResult)
    ensures GetToken(req, "patientToken") == "" ==> r == Refused(401)
    ensures r.Admitted? ==> r.user.role == "Patient" && verify(GetToken(req, "patientToken")) == Ok(r.user)
  {
    Guard(req, "patientToken", "Patient", verify)
  }

  /** `isAdminAuthenticated`. */
  function AdminGuard(req: Request, verify: string -> Outcome<Claims>): (r: GuardResult)
    ensures GetToken(req, "adminToken") == "" ==> r == Refused(401)
    ensures r.Admitted? ==> r.user.role == "Admin" && verify(GetToken(req, "adminToken")) == Ok(r.user)
  {
    Guard(req, "adminToken", "Admin", verify)
  }

  /** `isDoctorAuthenticated`. */
  function DoctorGuard(req: Request, verify: string -> Outcome<Claims>): (r: GuardResult)
    ensures GetToken(req, "doctorToken") == "" ==> r == Refused(401)
    ensures r.Admitted? ==> r.user.role == "Doctor" && verify(GetToken(req, "doctorToken")) == Ok(r.user)
  {
    Guard(req, "doctorToken", "Doctor", verify)
  }

  /** A token that verifies but carries no role is refused with 403 by every
      guard. */
  lemma RolelessTokenRefused(req: Request, verify: string -> Outcome<Claims>, id: Id)
    requires GetToken(req, "patientToken") != "" && verify(GetToken(req, "patientToken")) == Ok(Claims(Some(id), None, ""))
    requires GetToken(req, "adminToken") != "" && verify(GetToken(req, "adminToken")) == Ok(Claims(Some(id), None, ""))
    requires GetToken(req, "doctorToken") != "" && verify(GetToken(req, "doctorToken")) == Ok(Claims(Some(id), None, ""))
    ensures PatientGuard(req, verify) == Refused(403)
    ensures AdminGuard(req, verify) == Refused(403)
    ensures DoctorGuard(req, verify) == Refused(403)
  {
  }

  /** A token handed to the client in a cookie: the cookie's name and the
      claims signed into the token. */
  datatype Session = Session(cookieName: string, claims: Claims)

  /** A request that carries only the cookie of a session, whose token
      verifies to the session's claims, is admitted by a guard reading that
      cookie exactly when the claims name the guard's role. */
  lemma CookieOnlyRequest(s: Session, token: string, role: string, verify: string -> Outcome<Claims>)
    requires token != "" && verify(token) == Ok(s.claims)
    ensures var req := Request(map[s.cookieName := token], None);
            (Guard(req, s.cookieName, role, verify).Admitted? <==> s.claims.role == role) &&
            (s.claims.role != role ==> Guard(req, s.cookieName, role, verify) == Refused(403))
  {
  }

  /** A request whose only credential is the header `Bearer <token>` is
      admitted by a guard exactly when `<token>` verifies with that guard's
      role. */
  lemma HeaderOnlyRequest(token: string, cookieName: string, role: string,
                          verify: string -> Outcome<Claims>)
    requires token != "" && ' ' !in token
    ensures var req := Request(map[], Some(BearerPrefix + token));
            Guard(req, cookieName, role, verify).Admitted? <==>
              verify(token).Ok? && verify(token).value.role == role
  {
    HeaderTokenRoundTrip(token, "");
    assert BearerPrefix + token + "" == BearerPrefix + token;
  }
}
