/** The `Appointment` collection's schema, with the embedded `result` record
    that `diagnoseXray` fills in. Date fields are kept as the text the client
    sent; their conversion to `Date` is not modelled. */
module AppointmentModel {
  import opened Common
  import Detection

  /** The embedded `result` record. */
  datatype AppointmentResult = AppointmentResult(fractureDetected: bool, confidence: real,
                                                 region: string,
                                                 detections: seq<Detection.NormalizedDetection>,
                                                 annotatedImage: string)

  /** The `result` record with every field at its default. */
  const DefaultResult: AppointmentResult := AppointmentResult(false, 0.0, "", [], "")

  datatype Appointment = Appointment(id: Id, firstName: string, lastName: string, email: string,
                                     phone: string, dob: string, gender: string,
                                     appointmentDate: string, department: string,
                                     doctorFirstName: string, doctorLastName: string,
                                     hasVisited: bool, address: string,
                                     doctorId: Option<Id>, patientId: Option<Id>,
                                     status: string, result: Option<AppointmentResult>)

  const Genders: set<string> := {"Nam", "Nữ"}
  const Statuses: set<string> := {"Pending", "Accepted", "Rejected", "Confirmed", "Cancelled"}

  /** The schema's validators; `isEmail` is `validator.isEmail`. */
  predicate ValidAppointment(a: Appointment, isEmail: string -> bool) {
    |a.firstName| >= 3 && |a.lastName| >= 2 &&
    a.email != "" && isEmail(a.email) &&
    9 <= |a.phone| <= 11 &&
    a.dob != "" && a.gender in Genders && a.appointmentDate != "" && a.department != "" &&
    a.doctorFirstName != "" && a.doctorLastName != "" && a.address != "" &&
    a.doctorId.Some? && a.patientId.Some? &&
    a.status in Statuses
  }

  /** The fields `postAppointment` copies from the request body; those the
      client leaves out are "" and a missing `hasVisited` is `None`. */
  datatype Booking = Booking(firstName: string, lastName: string, email: string, phone: string,
                             dob: string, gender: string, appointmentDate: string,
                             department: string, doctorFirstName: string, doctorLastName: string,
                             hasVisited: Option<bool>, address: string)

  /** The document `Appointment.create` builds: `hasVisited` defaults to
      false, `status` to "Pending", and no `result` is set. */
  function NewAppointment(b: Booking, id: Id, doctorId: Option<Id>, patientId: Option<Id>): (a: Appointment)
    ensures a.id == id && a.doctorId == doctorId && a.patientId == patientId
    ensures a.status == "Pending" && a.result.None?
    ensures a.hasVisited == (b.hasVisited == Some(true))
    ensures a.firstName == b.firstName && a.lastName == b.lastName && a.email == b.email &&
            a.phone == b.phone && a.dob == b.dob && a.gender == b.gender &&
            a.appointmentDate == b.appointmentDate && a.department == b.department &&
            a.doctorFirstName == b.doctorFirstName && a.doctorLastName == b.doctorLastName &&
            a.address == b.address
  {
    Appointment(id, b.firstName, b.lastName, b.email, b.phone, b.dob, b.gender,
                b.appointmentDate, b.department, b.doctorFirstName, b.doctorLastName,
                if b.hasVisited.Some? then b.hasVisited.value else false,
                b.address, doctorId, patientId, "Pending", None)
  }

  /** Without a patient id the new document fails validation, whatever the
      rest of the booking holds. */
  lemma MissingPatientRejected(b: Booking, id: Id, doctorId: Option<Id>, isEmail: string -> bool)
    ensures !ValidAppointment(NewAppointment(b, id, doctorId, None), isEmail)
  {
  }

  /** A request body sent to `updateAppointmentStatus`: the fields it sets,
      `None` for those it leaves alone. */
  datatype Patch = Patch(firstName: Option<string>, lastName: Option<string>,
                         email: Option<string>, phone: Option<string>, dob: Option<string>,
                         gender: Option<string>, appointmentDate: Option<string>,
                         department: Option<string>, address: Option<string>,
                         hasVisited: Option<bool>, status: Option<string>)

  function Pick<T>(update: Option<T>, current: T): T {
    if update.Some? then update.value else current
  }

  /** The document after `findByIdAndUpdate(id, body)`: each field the body
      sets is overwritten, every other field is kept. */
  function ApplyPatch(a: Appointment, p: Patch): (r: Appointment)
    ensures r.id == a.id && r.doctorId == a.doctorId && r.patientId == a.patientId &&
            r.doctorFirstName == a.doctorFirstName && r.doctorLastName == a.doctorLastName &&
            r.result == a.result
    ensures p.status.Some? ==> r.status == p.status.value
    ensures p.status.None? ==> r.status == a.status
    ensures p.firstName.Some? ==> r.firstName == p.firstName.value
    ensures p.firstName.None? ==> r.firstName == a.firstName
    ensures p.lastName.Some? ==> r.lastName == p.lastName.value
    ensures p.lastName.None? ==> r.lastName == a.lastName
    ensures p.email.Some? ==> r.email == p.email.value
    ensures p.email.None? ==> r.email == a.email
    ensures p.phone.Some? ==> r.phone == p.phone.value
    ensures p.phone.None? ==> r.phone == a.phone
    ensures p.dob.Some? ==> r.dob == p.dob.value
    ensures p.dob.None? ==> r.dob == a.dob
    ensures p.gender.Some? ==> r.gender == p.gender.value
    ensures p.gender.None? ==> r.gender == a.gender
    ensures p.appointmentDate.Some? ==> r.appointmentDate == p.appointmentDate.value
    ensures p.appointmentDate.None? ==> r.appointmentDate == a.appointmentDate
    ensures p.department.Some? ==> r.department == p.department.value
    ensures p.department.None? ==> r.department == a.department
    ensures p.address.Some? ==> r.address == p.address.value
    ensures p.address.None? ==> r.address == a.address
    ensures p.hasVisited.Some? ==> r.hasVisited == p.hasVisited.value
    ensures p.hasVisited.None? ==> r.hasVisited == a.hasVisited
    ensures p == Patch(None, None, None, None, None, None, None, None, None, None, None) ==> r == a
  {
    a.(firstName := Pick(p.firstName, a.firstName), lastName := Pick(p.lastName, a.lastName),
       email := Pick(p.email, a.email), phone := Pick(p.phone, a.phone), dob := Pick(p.dob, a.dob),
       gender := Pick(p.gender, a.gender), appointmentDate := Pick(p.appointmentDate, a.appointmentDate),
       department := Pick(p.department, a.department), address := Pick(p.address, a.address),
       hasVisited := Pick(p.hasVisited, a.hasVisited), status := Pick(p.status, a.status))
  }

  /** The update validators (`runValidators: true`) run only on the paths the
      body sets, each with the checks its schema path declares. */
  predicate ValidPatch(p: Patch, isEmail: string -> bool) {
    (p.firstName.Some? ==> |p.firstName.value| >= 3) &&
    (p.lastName.Some? ==> |p.lastName.value| >= 2) &&
    (p.email.Some? ==> p.email.value != "" && isEmail(p.email.value)) &&
    (p.phone.Some? ==> 9 <= |p.phone.value| <= 11) &&
    (p.dob.Some? ==> p.dob.value != "") &&
    (p.gender.Some? ==> p.gender.value in Genders) &&
    (p.appointmentDate.Some? ==> p.appointmentDate.value != "") &&
    (p.department.Some? ==> p.department.value != "") &&
    (p.address.Some? ==> p.address.value != "") &&
    (p.status.Some? ==> p.status.value in Statuses)
  }

  /** A patch the update validators accept keeps a valid appointment valid. */
  lemma PatchKeepsValid(a: Appointment, p: Patch, isEmail: string -> bool)
    requires ValidAppointment(a, isEmail) && ValidPatch(p, isEmail)
    ensures ValidAppointment(ApplyPatch(a, p), isEmail)
  {
  }
}
