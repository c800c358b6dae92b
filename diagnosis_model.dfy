/** The `Diagnosis` collection's schema: required fields, the bounds on the
    confidence, the status values and the defaults, and what `Diagnosis.create`
    makes of the document `diagnoseXray` hands it. */
module DiagnosisModel {
  import opened Common

  /** An image kept on the image host: its `public_id` and its URL. */
  datatype ImageRef = ImageRef(publicId: string, url: string)

  /** The value under `annotatedImage`. The schema types it as a string, but
      a stored document may hold anything; the controller offers `null` or an
      object `{ public_id, url }`. */
  datatype AnnotatedValue = NullValue | StringValue(s: string) | ObjectValue(ref: ImageRef)

  datatype Diagnosis = Diagnosis(id: Id, patientId: Option<Id>, patientName: string,
                                 patientEmail: string, xrayImage: ImageRef, result: string,
                                 confidence: real, details: string, doctorNote: string,
                                 status: string, createdAt: int, annotatedImage: AnnotatedValue)

  const Statuses: set<string> := {"pending", "reviewed", "completed"}

  /** The document `diagnoseXray` passes to `create`. Its `detections` and
      `totalDetections` are not schema paths, so the strict schema drops
      them and they are not part of it here. */
  datatype DiagnosisDraft = DiagnosisDraft(patientId: Id, xrayImage: ImageRef,
                                           annotatedImage: AnnotatedValue, result: string,
                                           confidence: real, details: string,
                                           doctorNote: string, status: string)

  /** A value Mongoose can cast to the string type of `annotatedImage`: a
      plain object has no string form and is a cast error. */
  predicate CastsToString(v: AnnotatedValue) {
    !v.ObjectValue?
  }

  /** The schema's validators on a stored document. */
  predicate ValidDiagnosis(d: Diagnosis) {
    d.xrayImage.publicId != "" && d.xrayImage.url != "" &&
    d.result != "" &&
    0.0 <= d.confidence <= 100.0 &&
    d.status in Statuses &&
    CastsToString(d.annotatedImage)
  }

  /** `Diagnosis.create(draft)` with the new document's id and creation time
      (`Date.now`): cast, defaults, validation. `patientName` and
      `patientEmail` take their default "". */
  function Create(draft: DiagnosisDraft, id: Id, now: int): (r: Outcome<Diagnosis>)
    ensures r.Ok? <==> CastsToString(draft.annotatedImage) &&
                       draft.xrayImage.publicId != "" && draft.xrayImage.url != "" &&
                       draft.result != "" && 0.0 <= draft.confidence <= 100.0 &&
                       draft.status in Statuses
    ensures r.Ok? ==> ValidDiagnosis(r.value) && r.value.id == id && r.value.createdAt == now
    ensures r.Ok? ==> r.value.patientId == Some(draft.patientId) &&
                      r.value.xrayImage == draft.xrayImage &&
                      r.value.annotatedImage == draft.annotatedImage &&
                      r.value.result == draft.result && r.value.confidence == draft.confidence &&
                      r.value.details == draft.details && r.value.status == draft.status
    ensures r.Ok? ==> r.value.patientName == "" && r.value.patientEmail == ""
  {
    var d := Diagnosis(id, Some(draft.patientId), "", "", draft.xrayImage, draft.result,
                       draft.confidence, draft.details, draft.doctorNote, draft.status, now,
                       draft.annotatedImage);
    if ValidDiagnosis(d) then Ok(d) else Fail
  }

  /** An object offered for `annotatedImage` makes `create` fail, whatever
      else the draft holds. */
  lemma ObjectImageRejected(draft: DiagnosisDraft, id: Id, now: int)
    requires draft.annotatedImage.ObjectValue?
    ensures Create(draft, id, now).Fail?
  {
  }

  /** The image `deleteDiagnosis` destroys for `annotatedImage?.public_id`:
      only an object with a non-empty `public_id` has one; a string or
      `null` has none. */
  function AnnotatedPublicId(v: AnnotatedValue): (r: Option<string>)
    ensures r.Some? <==> v.ObjectValue? && v.ref.publicId != ""
    ensures r.Some? ==> r.value == v.ref.publicId
  {
    if v.ObjectValue? && v.ref.publicId != "" then Some(v.ref.publicId) else None
  }

  /** No document the schema accepts has an annotated image to destroy. */
  lemma ValidHasNoAnnotatedPublicId(d: Diagnosis)
    requires ValidDiagnosis(d)
    ensures AnnotatedPublicId(d.annotatedImage).None?
  {
  }
}
