/** The appointment handlers: `postAppointment` (the required-field test,
    then the rule that a booking names exactly one doctor), `getAllAppointments`,
    `updateAppointmentStatus` and `deleteAppointment`. The requester is the
    payload of the token the patient guard verified. */
module AppointmentController {
  import opened Common
  import opened UserModel
  import opened AppointmentModel
  import opened Database
  import AuthMiddleware

  /** The eleven booking fields that must be truthy; `hasVisited` is not
      among them. */
  function RequiredFields(b: Booking): seq<string> {
    [b.firstName, b.lastName, b.email, b.phone, b.dob, b.gender, b.appointmentDate,
     b.department, b.doctorFirstName, b.doctorLastName, b.address]
  }

  /** The query `{ firstName, lastName, role: "Doctor", doctorDepartment }`
      built from the booking's doctor and department. */
  function IsBookedDoctor(b: Booking): User -> bool {
    (u: User) => u.firstName == b.doctorFirstName && u.lastName == b.doctorLastName &&
                 u.role == "Doctor" && u.doctorDepartment == b.department
  }

  /** What the doctor query finds: nobody, several users, or exactly one. */
  datatype DoctorLookup = NoDoctor | SeveralDoctors | TheDoctor(doctor: User)

  /** The doctor a booking names, decided by the number of users the query
      returns. */
  function LookupDoctor(users: seq<User>, b: Booking): (r: DoctorLookup)
    ensures r == NoDoctor <==> forall u | u in users :: !IsBookedDoctor(b)(u)
    ensures r.TheDoctor? ==> r.doctor in users && IsBookedDoctor(b)(r.doctor) &&
                             forall u | u in users && IsBookedDoctor(b)(u) :: u == r.doctor
    ensures r == SeveralDoctors ==>
              exists i, j | 0 <= i < j < |users| :: IsBookedDoctor(b)(users[i]) && IsBookedDoctor(b)(users[j])
  {
    var candidates := Filter(users, IsBookedDoctor(b));
    if |candidates| == 0 then
      EmptyFilterNoMatch(users, IsBookedDoctor(b));
      NoDoctor
    else if |candidates| > 1 then
      TwoMatches(users, IsBookedDoctor(b));
      SeveralDoctors
    else
      SingleMatch(users, IsBookedDoctor(b));
      TheDoctor(candidates[0])
  }

  /** A filter keeps nothing exactly when nothing matches. */
  lemma EmptyFilterNoMatch<T>(s: seq<T>, p: T -> bool)
    ensures |Filter(s, p)| == 0 <==> forall x | x in s :: !p(x)
  {
    var r := Filter(s, p);
    if |r| > 0 {
      assert r[0] in r;
    }
  }

  /** A filter that keeps one element keeps the only matching value. */
  lemma SingleMatch<T>(s: seq<T>, p: T -> bool)
    requires |Filter(s, p)| == 1
    ensures var r := Filter(s, p); r[0] in s && p(r[0]) && forall x | x in s && p(x) :: x == r[0]
  {
    var r := Filter(s, p);
    assert r[0] in r;
    forall x | x in s && p(x) ensures x == r[0] {
      assert x in r;
    }
  }

  /** A filter that keeps an element found a matching position. */
  lemma {:induction false} OneMatch<T>(s: seq<T>, p: T -> bool) returns (j: nat)
    requires |Filter(s, p)| >= 1
    ensures j < |s| && p(s[j])
  {
    if p(s[0]) {
      j := 0;
    } else {
      var k := OneMatch(s[1..], p);
      j := k + 1;
    }
  }

  /** A filter that keeps two or more elements found two matching positions. */
  lemma {:induction false} TwoMatchPositions<T>(s: seq<T>, p: T -> bool) returns (i: nat, j: nat)
    requires |Filter(s, p)| >= 2
    ensures i < j < |s| && p(s[i]) && p(s[j])
  {
    if p(s[0]) {
      var k := OneMatch(s[1..], p);
      i, j := 0, k + 1;
    } else {
      var i', j' := TwoMatchPositions(s[1..], p);
      i, j := i' + 1, j' + 1;
    }
  }

  lemma TwoMatches<T>(s: seq<T>, p: T -> bool)
    requires |Filter(s, p)| >= 2
    ensures exists i, j | 0 <= i < j < |s| :: p(s[i]) && p(s[j])
  {
    var i, j := TwoMatchPositions(s, p);
  }

  /** No user the schema accepts has the role "Doctor", so over such a user
      collection every booking finds no doctor. */
  lemma SchemaValidUsersNameNoDoctor(users: seq<User>, b: Booking, isEmail: string -> bool)
    requires forall u | u in users :: ValidProfile(u, isEmail)
    ensures LookupDoctor(users, b) == NoDoctor
  {
    forall u | u in users ensures !IsBookedDoctor(b)(u) {
      ValidUserIsNoDoctor(u, isEmail);
    }
  }

  /** `postAppointment`. `requester` is `req.user`; the new appointment's
      `patientId` is the requester's `_id` claim. */
  method PostAppointment(db: Db, b: Booking, requester: AuthMiddleware.Claims, isEmail: string -> bool)
    returns (reply: Reply, booked: Option<Appointment>)
    requires db.Valid()
    modifies db
    ensures db.Valid()
    ensures reply == Status(200) <==> booked.Some?
    ensures !AllTruthy(RequiredFields(b)) ==> reply == Status(400) && unchanged(db)
    ensures AllTruthy(RequiredFields(b)) ==>
              var lookup := LookupDoctor(old(db.users), b);
              (lookup == NoDoctor ==> reply == Status(404) && unchanged(db)) &&
              (lookup == SeveralDoctors ==> reply == Status(400) && unchanged(db)) &&
              (lookup.TheDoctor? ==>
                 var a := NewAppointment(b, old(db.nextId), Some(lookup.doctor.id), requester.underscoreId);
                 (ValidAppointment(a, isEmail) ==>
                    reply == Status(200) && booked == Some(a) &&
                    db.appointments == old(db.appointments) + [a] && db.nextId == old(db.nextId) + 1 &&
                    db.users == old(db.users) && db.diagnoses == old(db.diagnoses) &&
                    db.messages == old(db.messages)) &&
                 (!ValidAppointment(a, isEmail) ==> reply == Uncaught && unchanged(db)))
    // A token without an `_id` claim never books anything.
    ensures requester.underscoreId.None? ==> booked.None? && unchanged(db)
  {
    if !AllTruthy(RequiredFields(b)) {
      return Status(400), None;
    }
    var lookup := LookupDoctor(db.users, b);
    if lookup == NoDoctor {
      return Status(404), None;
    }
    if lookup == SeveralDoctors {
      return Status(400), None;
    }
    var appointment := NewAppointment(b, db.nextId, Some(lookup.doctor.id), requester.underscoreId);
    if !ValidAppointment(appointment, isEmail) {
      return Uncaught, None;
    }
    var stored := db.InsertAppointment(appointment);
    return Status(200), Some(stored);
  }

  /** `getAllAppointments`: every appointment, in the collection's order. */
  method GetAllAppointments(db: Db) returns (reply: Reply, appointments: seq<Appointment>)
    ensures reply == Status(200)
    ensures appointments == db.appointments
  {
    return Status(200), db.appointments;
  }

  /** `updateAppointmentStatus`: 404 for an unknown id; otherwise the body's
      fields overwrite the appointment's, after the update validators
      accepted them. */
  method UpdateAppointmentStatus(db: Db, id: Id, patch: Patch, isEmail: string -> bool)
    returns (reply: Reply, updated: Option<Appointment>)
    requires db.Valid()
    modifies db
    ensures db.Valid()
    ensures reply == Status(200) <==> updated.Some?
    ensures old(db.FindAppointment(id)).None? ==> reply == Status(404) && unchanged(db)
    ensures old(db.FindAppointment(id)).Some? ==>
              var k := old(db.FindAppointment(id)).value;
              var a := ApplyPatch(old(db.appointments)[k], patch);
              (ValidPatch(patch, isEmail) ==>
                 reply == Status(200) && updated == Some(a) &&
                 db.appointments == old(db.appointments)[k := a]) &&
              (!ValidPatch(patch, isEmail) ==> reply == Uncaught && unchanged(db))
    ensures db.users == old(db.users) && db.diagnoses == old(db.diagnoses) &&
            db.messages == old(db.messages) && db.nextId == old(db.nextId)
    // An appointment the schema accepted stays acceptable.
    ensures updated.Some? && ValidAppointment(old(db.appointments)[old(db.FindAppointment(id)).value], isEmail) ==>
              ValidAppointment(updated.value, isEmail)
  {
    var found := db.FindAppointment(id);
    if found.None? {
      return Status(404), None;
    }
    var k := found.value;
    if !ValidPatch(patch, isEmail) {
      return Uncaught, None;
    }
    var a := ApplyPatch(db.appointments[k], patch);
    if ValidAppointment(db.appointments[k], isEmail) {
      PatchKeepsValid(db.appointments[k], patch, isEmail);
    }
    db.ReplaceAppointment(k, a);
    return Status(200), Some(a);
  }

  /** `deleteAppointment`: 404 for an unknown id; otherwise exactly that
      appointment goes. Whose appointment it is is not checked. */
  method DeleteAppointment(db: Db, id: Id) returns (reply: Reply)
    requires db.Valid()
    modifies db
    ensures db.Valid()
    ensures old(db.FindAppointment(id)).None? ==> reply == Status(404) && unchanged(db)
    ensures old(db.FindAppointment(id)).Some? ==>
              reply == Status(200) &&
              db.appointments == RemoveAt(old(db.appointments), old(db.FindAppointment(id)).value) &&
              forall a :: a in db.appointments <==> a in old(db.appointments) && a.id != id
    ensures db.users == old(db.users) && db.diagnoses == old(db.diagnoses) &&
            db.messages == old(db.messages) && db.nextId == old(db.nextId)
  {
    var found := db.FindAppointment(id);
    if found.None? {
      return Status(404);
    }
    var k := found.value;
    RemoveOnlyThatKey(db.appointments, k, AppointmentId);
    db.DeleteAppointment(k);
    return Status(200);
  }
}
