/** The X-ray diagnosis handlers: `diagnoseXray` (intake checks, then the
    step pipeline: AI call, upload of the original, optional upload of the
    annotated image, normalisation, `Diagnosis.create`, optional link to the
    appointment, cleanup), `getDiagnosisHistory`, `getDiagnosisById` and
    `deleteDiagnosis`. The AI service, the image host, the file system and
    the database are reached through calls whose outcomes are parameters. */
module XrayController {
  import opened Common
  import opened Rounding
  import opened Sorting
  import opened Detection
  import opened DiagnosisModel
  import opened AppointmentModel
  import opened Database
  import AiService

  /** The temporary files on the server's disk, by path. */
  class FileSystem {
    var files: set<string>
  }

  /** The images kept on the image host, by `public_id`. */
  class ImageHost {
    var assets: set<string>
  }

  // ---------------------------------------------------------------------------
  // Intake

  /** The uploaded file as the upload middleware describes it. */
  datatype Upload = Upload(tempFilePath: string, mimetype: string, size: nat)

  /** The request: `patientId` and `appointmentId` from the body (`None`
      when falsy), and the uploaded `xrayImage`. */
  datatype XrayRequest = XrayRequest(patientId: Option<Id>, appointmentId: Option<Id>,
                                     xrayImage: Option<Upload>)

  const AllowedFormats: set<string> := {"image/png", "image/jpeg", "image/jpg"}
  const MaxSize: nat := 10 * 1024 * 1024

  /** The outcome of the checks before the AI call: stop with a reply, or go
      on, knowing the position of the appointment found for the request's
      `appointmentId`, if any. */
  datatype IntakeVerdict = Stop(reply: Reply) | Proceed(appointment: Option<nat>)

  /** `Appointment.findById(appointmentId)` when an id was given. */
  function FoundAppointment(req: XrayRequest, appointments: seq<Appointment>): (r: Option<nat>)
    ensures r.Some? ==> req.appointmentId.Some? && r.value < |appointments| &&
                        appointments[r.value].id == req.appointmentId.value
    ensures r.None? <==> req.appointmentId.None? ||
                         forall i | 0 <= i < |appointments| :: appointments[i].id != req.appointmentId.value
  {
    if req.appointmentId.None? then None
    else
      var wanted := req.appointmentId.value;
      FindIndex(appointments, (a: Appointment) => a.id == wanted)
  }

  /** The checks of `diagnoseXray` before its `try`, in their order. An
      appointment without a `patientId` makes `.toString()` throw, an error
      the handler does not catch. */
  function Intake(req: XrayRequest, appointments: seq<Appointment>, files: set<string>): (v: IntakeVerdict)
    ensures req.patientId.None? ==> v == Stop(Status(400))
    ensures req.patientId.Some? ==>
              var found := FoundAppointment(req, appointments);
              (found.Some? && appointments[found.value].patientId.None? ==> v == Stop(Uncaught)) &&
              ((found.Some? && appointments[found.value].patientId.Some? &&
                appointments[found.value].patientId != req.patientId) ==> v == Stop(Status(403))) &&
              ((found.None? || appointments[found.value].patientId == req.patientId) ==>
                 v == if StoredImage(req, files) then Proceed(found) else Stop(Status(400)))
  {
    if req.patientId.None? then Stop(Status(400))
    else
      var found := FoundAppointment(req, appointments);
      if found.Some? && appointments[found.value].patientId.None? then Stop(Uncaught)
      else if found.Some? && appointments[found.value].patientId != req.patientId then Stop(Status(403))
      else if req.xrayImage.None? then Stop(Status(400))
      else
        var file := req.xrayImage.value;
        if file.tempFilePath == "" || file.tempFilePath !in files then Stop(Status(400))
        else if file.mimetype !in AllowedFormats then Stop(Status(400))
        else if file.size > MaxSize then Stop(Status(400))
        else Proceed(found)
  }

  /** The request carries an uploaded file that the upload middleware
      stored, of an allowed type and at most 10 MiB. */
  predicate StoredImage(req: XrayRequest, files: set<string>) {
    req.xrayImage.Some? &&
    req.xrayImage.value.tempFilePath != "" && req.xrayImage.value.tempFilePath in files &&
    req.xrayImage.value.mimetype in AllowedFormats &&
    req.xrayImage.value.size <= MaxSize
  }

  /** The request is admissible: a patient, no appointment under the given
      id that belongs to someone else, and a stored image file of an allowed
      type and at most 10 MiB. */
  predicate Admissible(req: XrayRequest, appointments: seq<Appointment>, files: set<string>) {
    req.patientId.Some? &&
    (req.appointmentId.Some? ==>
       forall i | 0 <= i < |appointments| && appointments[i].id == req.appointmentId.value ::
         appointments[i].patientId == req.patientId) &&
    StoredImage(req, files)
  }

  /** With distinct appointment ids, the checks let a request through
      exactly when it is admissible. */
  lemma IntakeAdmitsExactly(req: XrayRequest, appointments: seq<Appointment>, files: set<string>)
    requires DistinctKeys(appointments, AppointmentId)
    ensures Intake(req, appointments, files).Proceed? <==> Admissible(req, appointments, files)
  {
    var found := FoundAppointment(req, appointments);
    if req.patientId.Some? && req.appointmentId.Some? && found.Some? {
      var k := found.value;
      forall i | k < i < |appointments| ensures appointments[i].id != req.appointmentId.value {
        assert AppointmentId(appointments[k]) != AppointmentId(appointments[i]);
      }
    }
  }

  /** An appointment id that matches nothing is tolerated and changes
      nothing. */
  lemma IntakeAppointmentRules(req: XrayRequest, appointments: seq<Appointment>, files: set<string>)
    ensures FoundAppointment(req, appointments).None? ==>
              Intake(req, appointments, files) ==
              Intake(req.(appointmentId := None), appointments, files)
  {
  }

  /** A file of exactly 10 MiB passes; one byte more is refused. */
  lemma IntakeSizeBoundary(patient: Id, path: string, files: set<string>)
    requires path != "" && path in files
    ensures Intake(XrayRequest(Some(patient), None, Some(Upload(path, "image/png", 10485760))), [], files) ==
            Proceed(None)
    ensures Intake(XrayRequest(Some(patient), None, Some(Upload(path, "image/png", 10485761))), [], files) ==
            Stop(Status(400))
  {
  }

  // ---------------------------------------------------------------------------
  // The AI prediction and what the pipeline derives from it

  /** The AI service's answer as the controller reads it. Texts it lacks are
      "" (falsy either way); a missing confidence is `None`, a missing
      `detections` list too. */
  datatype AiPrediction = AiPrediction(result: string, confidence: Option<real>, details: string,
                                       detections: Option<seq<RawDetection>>, annotatedImage: string)

  /** `prediction.confidence || 0`. */
  function ConfidenceOrZero(p: AiPrediction): real {
    if p.confidence.Some? then p.confidence.value else 0.0
  }

  /** `prediction.result || "Không xác định"`. */
  function ResultText(p: AiPrediction): (r: string)
    ensures r != ""
  {
    if p.result != "" then p.result else "Không xác định"
  }

  /** `prediction.details || "Độ tin cậy: <confidence to one decimal>%"`. */
  function DetailsText(p: AiPrediction): (r: string)
    ensures r != ""
  {
    if p.details != "" then p.details else "Độ tin cậy: " + ToFixedText(ConfidenceOrZero(p), 1) + "%"
  }

  /** A character as the case-insensitive regular expressions compare it:
      ASCII capitals and `Ã` fold to their lower-case forms. */
  function Fold(c: char): char {
    if 'A' <= c <= 'Z' then (c as int + 32) as char
    else if c == 'Ã' then 'ã'
    else c
  }

  predicate StartsFolded(s: string, pat: string) {
    |pat| <= |s| && forall j | 0 <= j < |pat| :: Fold(s[j]) == pat[j]
  }

  /** `/pat/i.test(s)` for a lower-case literal `pat`. */
  predicate MatchesIgnoringCase(s: string, pat: string)
    decreases |s|
  {
    StartsFolded(s, pat) || (|s| > 0 && MatchesIgnoringCase(s[1..], pat))
  }

  /** The appointment's `fractureDetected`. */
  predicate FractureDetected(result: string, normalized: seq<NormalizedDetection>) {
    MatchesIgnoringCase(result, "fracture") || MatchesIgnoringCase(result, "gãy") || |normalized| > 0
  }

  /** The annotated image's URL and `public_id` once step 3 is over: both
      empty unless the prediction carried an annotated image and its upload
      succeeded. */
  function AnnotatedUpload(p: AiPrediction, annotated: Outcome<ImageRef>): (r: ImageRef)
    ensures p.annotatedImage == "" || annotated.Fail? ==> r == ImageRef("", "")
  {
    if p.annotatedImage != "" && annotated.Ok? then annotated.value else ImageRef("", "")
  }

  /** The document handed to `Diagnosis.create`. */
  function DraftFor(patientId: Id, original: ImageRef, annotatedRef: ImageRef, p: AiPrediction): (r: DiagnosisDraft)
    ensures r.patientId == patientId && r.xrayImage == original
    ensures r.annotatedImage.ObjectValue? <==> annotatedRef.url != ""
    ensures r.result != "" && r.details != "" && r.doctorNote == "" && r.status == "pending"
    ensures HasDecimals(r.confidence, 1)
    ensures 0.0 <= ConfidenceOrZero(p) <= 100.0 ==> 0.0 <= r.confidence <= 100.0
  {
    DiagnosisDraft(patientId, original,
                   if annotatedRef.url != "" then ObjectValue(annotatedRef) else NullValue,
                   ResultText(p), ToFixed(ConfidenceOrZero(p), 1), DetailsText(p), "", "pending")
  }

  /** The `result` record written into the linked appointment. */
  function LinkedResult(p: AiPrediction, normalized: seq<NormalizedDetection>,
                        annotatedUrl: string, originalUrl: string): (r: AppointmentResult)
    ensures |normalized| > 0 ==> r.fractureDetected
    ensures r.detections == normalized && r.region == p.details
    ensures HasDecimals(r.confidence, 2)
    ensures r.annotatedImage == (if annotatedUrl != "" then annotatedUrl else originalUrl)
    ensures annotatedUrl != "" || originalUrl != "" ==> r.annotatedImage != ""
  {
    AppointmentResult(FractureDetected(p.result, normalized), ToFixed(ConfidenceOrZero(p), 2),
                      p.details, normalized, if annotatedUrl != "" then annotatedUrl else originalUrl)
  }

  /** The `data` of the 200 answer. */
  datatype XrayResponse = XrayResponse(diagnosisId: Id, patientId: Id, appointmentId: Option<Id>,
                                       imageUrl: string, annotatedImage: string, result: string,
                                       confidence: real, details: string, totalDetections: nat,
                                       detections: seq<NormalizedDetection>, timestamp: int)

  /** The path of the temporary annotated image, named after `Date.now()`. */
  function TmpAnnotatedPath(now: nat): string {
    "./uploads/tmp_annotated_" + NatToString(now) + ".png"
  }

  // ---------------------------------------------------------------------------
  // Consequences of the schema for the pipeline

  /** Whenever the annotated image was uploaded (so its URL is non-empty),
      `create` is handed an object for the string path `annotatedImage` and
      fails; so a diagnosis is stored only when no annotated URL was
      obtained, and it stores `null`. */
  lemma AnnotatedUrlBlocksCreate(patientId: Id, original: ImageRef, p: AiPrediction,
                                 annotated: Outcome<ImageRef>, id: Id, now: int)
    ensures var ref := AnnotatedUpload(p, annotated);
            var created := Create(DraftFor(patientId, original, ref, p), id, now);
            (ref.url != "" ==> created.Fail?) &&
            (created.Ok? ==> ref.url == "" && created.value.annotatedImage == NullValue)
  {
    var ref := AnnotatedUpload(p, annotated);
    if ref.url != "" {
      ObjectImageRejected(DraftFor(patientId, original, ref, p), id, now);
    }
  }

  /** A stored diagnosis carries the prediction's result, or the fallback
      text, and a confidence rounded to one decimal that lies in [0, 100]. */
  lemma StoredDiagnosisFields(patientId: Id, original: ImageRef, ref: ImageRef, p: AiPrediction,
                              id: Id, now: int)
    requires Create(DraftFor(patientId, original, ref, p), id, now).Ok?
    ensures var d := Create(DraftFor(patientId, original, ref, p), id, now).value;
            d.result == ResultText(p) && d.confidence == ToFixed(ConfidenceOrZero(p), 1) &&
            0.0 <= d.confidence <= 100.0 && d.status == "pending" && d.patientId == Some(patientId) &&
            d.xrayImage == original && d.doctorNote == ""
  {
  }

  // ---------------------------------------------------------------------------
  // Bridge from the AI service's own answer

  /** The JSON the AI service sends, as the controller receives it: each
      detection has `class`, `confidence` and a corner `bbox`. */
  function PredictionOf(r: AiService.PredictResponse): AiPrediction {
    AiPrediction(r.result, Some(r.confidence), r.details,
                 Some(seq(|r.detections|, i requires 0 <= i < |r.detections| => RawDetectionOf(r.detections[i]))),
                 r.annotatedImage)
  }

  function RawDetectionOf(d: AiService.FormattedDetection): RawDetection {
    RawDetection(ObjectBox(map["x1" := d.x1, "y1" := d.y1, "x2" := d.x2, "y2" := d.y2]), Absent,
                 "", d.klass, "", Some(d.confidence))
  }

  lemma FractureLabelMatches()
    ensures MatchesIgnoringCase(AiService.FractureLabel, "gãy")
  {
    var s := AiService.FractureLabel;
    assert StartsFolded(s[15..], "gãy");
    assert s[15..][1..] == s[16..];
    var k := 15;
    while k > 0
      invariant 0 <= k <= 15
      invariant MatchesIgnoringCase(s[k..], "gãy")
    {
      assert s[k - 1..][1..] == s[k..];
      k := k - 1;
    }
  }

  /** No position where `a` is followed by `b`, folded, from position `i` on. */
  predicate NoPairFrom(s: string, i: nat, a: char, b: char)
    decreases |s| - i
  {
    i + 1 >= |s| || (!(Fold(s[i]) == a && Fold(s[i + 1]) == b) && NoPairFrom(s, i + 1, a, b))
  }

  /** A text in which the first two letters of the pattern never follow each
      other does not match it. */
  lemma {:induction false} NoMatchWithoutPair(s: string, i: nat, pat: string)
    requires i <= |s| && |pat| >= 2 && NoPairFrom(s, i, pat[0], pat[1])
    ensures !MatchesIgnoringCase(s[i..], pat)
    decreases |s| - i
  {
    if i < |s| {
      assert s[i..][1..] == s[i + 1..];
      if i + 1 < |s| {
        NoMatchWithoutPair(s, i + 1, pat);
      } else {
        assert s[i + 1..] == [];
      }
    }
  }

  /** A text with no character that folds to `b` has no `a` followed by `b`. */
  lemma {:induction false} NoPairWithoutSecond(s: string, i: nat, a: char, b: char)
    requires forall c | c in s :: Fold(c) != b
    ensures NoPairFrom(s, i, a, b)
    decreases |s| - i
  {
    if i + 1 < |s| {
      assert s[i + 1] in s;
      NoPairWithoutSecond(s, i + 1, a, b);
    }
  }

  lemma NormalLabelHasNoPairs()
    ensures NoPairFrom(AiService.NormalLabel, 0, 'f', 'r')
    ensures NoPairFrom(AiService.NormalLabel, 0, 'g', 'ã')
  {
    var s := AiService.NormalLabel;
    assert 'r' !in s && 'R' !in s && 'ã' !in s && 'Ã' !in s;
    assert forall c | c in s :: Fold(c) != 'r' && Fold(c) != 'ã';
    NoPairWithoutSecond(s, 0, 'f', 'r');
    NoPairWithoutSecond(s, 0, 'g', 'ã');
  }

  lemma NoMatchWithoutLeadingPair(s: string, pat: string)
    requires |pat| >= 2 && NoPairFrom(s, 0, pat[0], pat[1])
    ensures !MatchesIgnoringCase(s, pat)
  {
    assert s[0..] == s;
    NoMatchWithoutPair(s, 0, pat);
  }

  /** The label the AI service gives an X-ray without findings matches
      neither of the controller's patterns, so such an answer alone does not
      set `fractureDetected`. */
  lemma NormalLabelDoesNotMatch()
    ensures !MatchesIgnoringCase(AiService.NormalLabel, "fracture")
    ensures !MatchesIgnoringCase(AiService.NormalLabel, "gãy")
  {
    NormalLabelHasNoPairs();
    NoMatchWithoutLeadingPair(AiService.NormalLabel, "fracture");
    NoMatchWithoutLeadingPair(AiService.NormalLabel, "gãy");
  }

  /** What the controller makes of any answer the AI service gives: one
      normalised detection per detection, each a corner box whose `x`, `y`,
      `x2`, `y2` are the rounded corners and whose width and height are the
      differences; and the label is the fracture label. */
  lemma AiAnswerNormalised(dets: seq<AiService.Candidate>, encodedImage: string)
    ensures var r := AiService.PredictResult(dets, encodedImage);
            var normalized := NormalizeAll(PredictionOf(r).detections);
            |normalized| == |dets| == r.totalDetections &&
            forall i | 0 <= i < |dets| ::
              IsCornerDetection(normalized[i], dets[i].bbox.x1, dets[i].bbox.y1, dets[i].bbox.x2, dets[i].bbox.y2)
  {
    AnswerNormalised(AiService.PredictResult(dets, encodedImage));
  }

  /** A normalised detection carrying the fracture label and the corner box
      whose `x`, `y`, `x2`, `y2` are the rounded corners and whose width and
      height are their differences. */
  predicate IsCornerDetection(n: NormalizedDetection, x1: real, y1: real, x2: real, y2: real) {
    n.klass == DefaultLabel &&
    n.box == Box(Int(MathRound(x1)), Int(MathRound(y1)),
                 Int(MathRound(x2) - MathRound(x1)), Int(MathRound(y2) - MathRound(y1)),
                 Int(MathRound(x2)), Int(MathRound(y2)))
  }

  /** The normalised detections of an answer whose detections all carry the
      fracture label. */
  lemma AnswerNormalised(r: AiService.PredictResponse)
    requires forall i | 0 <= i < |r.detections| :: r.detections[i].klass == AiService.FractureLabel
    ensures var normalized := NormalizeAll(PredictionOf(r).detections);
            |normalized| == |r.detections| &&
            forall i | 0 <= i < |r.detections| ::
              IsCornerDetection(normalized[i], r.detections[i].x1, r.detections[i].y1,
                                r.detections[i].x2, r.detections[i].y2)
  {
    PredictionFacts(r);
    forall i | 0 <= i < |r.detections| {
      ServiceDetectionNormalised(r.detections[i]);
    }
  }

  lemma PredictionFacts(r: AiService.PredictResponse)
    ensures var p := PredictionOf(r);
            p.result == r.result && p.detections.Some? && |p.detections.value| == |r.detections| &&
            forall i | 0 <= i < |r.detections| :: p.detections.value[i] == RawDetectionOf(r.detections[i])
  {
  }

  /** The appointment's `fractureDetected` holds for an answer of the AI
      service exactly when the service found something: with detections the
      list is not empty, and without them the result is the normal label,
      which matches neither pattern. */
  lemma AiAnswerFlagsFracture(dets: seq<AiService.Candidate>, encodedImage: string)
    ensures var p := PredictionOf(AiService.PredictResult(dets, encodedImage));
            FractureDetected(p.result, NormalizeAll(p.detections)) <==> |dets| > 0
  {
    var r := AiService.PredictResult(dets, encodedImage);
    PredictionFacts(r);
    var p := PredictionOf(r);
    NormalizeEachPointwise(p.detections.value);
    FlagsWithoutMatch(p.result, NormalizeAll(p.detections));
  }

  /** With a non-empty list, or the normal label and no list, the flag is
      set exactly when the list is not empty. */
  lemma FlagsWithoutMatch(result: string, normalized: seq<NormalizedDetection>)
    requires |normalized| > 0 || result == AiService.NormalLabel
    ensures FractureDetected(result, normalized) <==> |normalized| > 0
  {
    if |normalized| == 0 {
      NormalLabelDoesNotMatch();
    }
  }

  /** One detection of the AI service's answer, normalised: a corner box
      and the fracture label. */
  lemma ServiceDetectionNormalised(d: AiService.FormattedDetection)
    requires d.klass == AiService.FractureLabel
    ensures var n := NormalizeOne(RawDetectionOf(d));
            n.klass == DefaultLabel &&
            n.box == Box(Int(MathRound(d.x1)), Int(MathRound(d.y1)),
                         Int(MathRound(d.x2) - MathRound(d.x1)), Int(MathRound(d.y2) - MathRound(d.y1)),
                         Int(MathRound(d.x2)), Int(MathRound(d.y2)))
  {
    var raw := RawDetectionOf(d);
    var cs := [raw.className, raw.klass, raw.labelText];
    assert cs[1] != "" && forall j | 0 <= j < 1 :: cs[j] == "";
  }

  /** The AI service's answer always carries an annotated image, so an
      annotated upload that succeeds with a URL always ends `diagnoseXray`
      with 500 (see `AnnotatedUrlBlocksCreate`). */
  lemma AiAnswerHasAnnotatedImage(dets: seq<AiService.Candidate>, encodedImage: string,
                                  annotated: Outcome<ImageRef>)
    requires annotated.Ok? && annotated.value.url != ""
    ensures AnnotatedUpload(PredictionOf(AiService.PredictResult(dets, encodedImage)), annotated).url != ""
  {
  }

  // ---------------------------------------------------------------------------
  // diagnoseXray

  /** Step 3 of `diagnoseXray`: when the prediction carries an annotated
      image, it is written to a temporary file and uploaded; a failed upload
      is swallowed, and the temporary file goes in every case. */
  method UploadAnnotated(fs: FileSystem, host: ImageHost, p: AiPrediction, annotated: Outcome<ImageRef>, now: nat)
    returns (ref: ImageRef)
    modifies fs, host
    ensures ref == AnnotatedUpload(p, annotated)
    ensures p.annotatedImage != "" && annotated.Ok? ==> ref.publicId in host.assets
    ensures fs.files == old(fs.files) - (if p.annotatedImage != "" then {TmpAnnotatedPath(now)} else {})
    ensures host.assets == old(host.assets) +
                           (if p.annotatedImage != "" && annotated.Ok? then {annotated.value.publicId} else {})
  {
    ref := ImageRef("", "");
    if p.annotatedImage != "" {
      var tmpFile := TmpAnnotatedPath(now);
      if annotated.Ok? {
        host.assets := host.assets + {annotated.value.publicId};
        ref := annotated.value;
      }
      fs.files := fs.files - {tmpFile};
    }
  }

  /** Step 6 of `diagnoseXray`: the appointment found at intake, if any,
      gets the `result` record; a failed update is swallowed. */
  method LinkAppointment(db: Db, appointment: Option<nat>, linked: bool, result: AppointmentResult)
    requires db.Valid()
    requires appointment.Some? ==> appointment.value < |db.appointments|
    modifies db
    ensures db.Valid()
    ensures appointment.Some? && linked ==>
              db.appointments == old(db.appointments)[appointment.value :=
                old(db.appointments)[appointment.value].(result := Some(result))]
    ensures appointment.None? || !linked ==> db.appointments == old(db.appointments)
    ensures db.users == old(db.users) && db.diagnoses == old(db.diagnoses) &&
            db.messages == old(db.messages) && db.nextId == old(db.nextId)
  {
    if appointment.Some? && linked {
      var k := appointment.value;
      db.ReplaceAppointment(k, db.appointments[k].(result := Some(result)));
    }
  }

  /** `diagnoseXray`. Outcomes of the calls it makes: `ai` (the POST to the
      AI service), `original` and `annotated` (the uploads of the original
      and of the decoded annotated image; a failed write of the temporary
      file is a failed `annotated`), `stored` (the database accepts the new
      diagnosis), `linked` (the appointment update reaches the database),
      and `now` (`Date.now()`). */
  method DiagnoseXray(db: Db, fs: FileSystem, host: ImageHost, req: XrayRequest,
                      ai: Outcome<AiPrediction>, original: Outcome<ImageRef>,
                      annotated: Outcome<ImageRef>, stored: bool, linked: bool, now: nat)
    returns (reply: Reply, response: Option<XrayResponse>)
    requires db.Valid()
    modifies db, fs, host
    ensures db.Valid()
    ensures reply == Status(200) <==> response.Some?
    // Intake: nothing happens before the checks pass.
    ensures var v := Intake(req, old(db.appointments), old(fs.files));
            v.Stop? ==> reply == v.reply && unchanged(db, fs, host)
    // AI failure (503) and upload failure (500): nothing stored, the
    // temporary upload is left on disk.
    ensures var v := Intake(req, old(db.appointments), old(fs.files));
            v.Proceed? && ai.Fail? ==> reply == Status(503) && unchanged(db, fs, host)
    ensures var v := Intake(req, old(db.appointments), old(fs.files));
            v.Proceed? && ai.Ok? && original.Fail? ==> reply == Status(500) && unchanged(db, fs, host)
    // Past the uploads.
    ensures var v := Intake(req, old(db.appointments), old(fs.files));
            v.Proceed? && ai.Ok? && original.Ok? ==>
              var p := ai.value;
              var ref := AnnotatedUpload(p, annotated);
              var created := Create(DraftFor(req.patientId.value, original.value, ref, p), old(db.nextId), now);
              var tmp := if p.annotatedImage != "" then {TmpAnnotatedPath(now)} else {};
              fs.files == old(fs.files) - tmp - {req.xrayImage.value.tempFilePath} &&
              host.assets == old(host.assets) + {original.value.publicId} +
                             (if p.annotatedImage != "" && annotated.Ok? then {annotated.value.publicId} else {}) &&
              (created.Fail? || !stored ==>
                 reply == Status(500) && db.diagnoses == old(db.diagnoses) &&
                 db.appointments == old(db.appointments)) &&
              (created.Ok? && stored ==>
                 var normalized := NormalizeAll(p.detections);
                 reply == Status(200) &&
                 db.diagnoses == old(db.diagnoses) + [created.value] &&
                 (v.appointment.Some? && linked ==>
                    db.appointments == old(db.appointments)[v.appointment.value :=
                      old(db.appointments)[v.appointment.value].(result :=
                        Some(LinkedResult(p, normalized, ref.url, original.value.url)))]) &&
                 (v.appointment.None? || !linked ==> db.appointments == old(db.appointments)) &&
                 response == Some(XrayResponse(created.value.id, req.patientId.value, req.appointmentId,
                                               original.value.url,
                                               if ref.url != "" then ref.url else original.value.url,
                                               ResultText(p), ToFixed(ConfidenceOrZero(p), 1), DetailsText(p),
                                               |normalized|, normalized, now)))
    ensures db.users == old(db.users) && db.messages == old(db.messages)
    // The annotated image never reaches a 200 answer.
    ensures reply == Status(200) ==> response.value.annotatedImage == response.value.imageUrl
  {
    var verdict := Intake(req, db.appointments, fs.files);
    if verdict.Stop? {
      return verdict.reply, None;
    }
    var patientId := req.patientId.value;
    var file := req.xrayImage.value;

    // Step 1: the AI service.
    if ai.Fail? {
      return Status(503), None;
    }
    var prediction := ai.value;

    // Step 2: the original image.
    if original.Fail? {
      return Status(500), None;
    }
    var cloudinaryResponse := original.value;
    host.assets := host.assets + {cloudinaryResponse.publicId};

    // Step 3: the annotated image; a failure is swallowed, the temporary
    // file goes in every case.
    var annotatedRef := UploadAnnotated(fs, host, prediction, annotated, now);

    // Step 4: normalise the detections.
    var normalizedDetections := NormalizeAll(prediction.detections);

    // Step 5: store the diagnosis; a failure lands in the outer `catch`.
    var created := Create(DraftFor(patientId, cloudinaryResponse, annotatedRef, prediction), db.nextId, now);
    AnnotatedUrlBlocksCreate(patientId, cloudinaryResponse, prediction, annotated, db.nextId, now);
    if created.Fail? || !stored {
      fs.files := fs.files - {file.tempFilePath};
      return Status(500), None;
    }
    var diagnosis := db.InsertDiagnosis(created.value);

    // Step 6: link the appointment; a failure is swallowed.
    LinkAppointment(db, verdict.appointment, linked,
                    LinkedResult(prediction, normalizedDetections, annotatedRef.url, cloudinaryResponse.url));

    // Step 7: cleanup.
    fs.files := fs.files - {file.tempFilePath};

    // Step 8: the answer.
    var annotatedUrl := if annotatedRef.url != "" then annotatedRef.url else cloudinaryResponse.url;
    reply := Status(200);
    response := Some(XrayResponse(diagnosis.id, patientId, req.appointmentId, cloudinaryResponse.url,
                                  annotatedUrl, ResultText(prediction),
                                  ToFixed(ConfidenceOrZero(prediction), 1), DetailsText(prediction),
                                  |normalizedDetections|, normalizedDetections, now));
  }

  // ---------------------------------------------------------------------------
  // Queries and deletion

  function CreatedAt(d: Diagnosis): real { d.createdAt as real }

  function Take<T>(s: seq<T>, n: nat): (r: seq<T>)
    ensures |r| == if |s| <= n then |s| else n
    ensures r == s[..|r|]
  {
    if |s| <= n then s else s[..n]
  }

  /** The query filter `{ patientId }`. */
  function OfPatient(pid: Id): Diagnosis -> bool {
    (d: Diagnosis) => d.patientId == Some(pid)
  }

  /** `Diagnosis.find({ patientId }).sort({ createdAt: -1 }).limit(50)`, or
      400 without a patient id. */
  function History(diagnoses: seq<Diagnosis>, patientId: Option<Id>): (r: (Reply, seq<Diagnosis>))
    ensures patientId.None? <==> r.0 == Status(400)
    ensures patientId.None? ==> r.1 == []
    ensures patientId.Some? ==> r.0 == Status(200)
    ensures patientId.Some? ==>
              var mine := |Filter(diagnoses, OfPatient(patientId.value))|;
              |r.1| == if mine <= 50 then mine else 50
  {
    if patientId.None? then (Status(400), [])
    else (Status(200), Take(SortDesc(Filter(diagnoses, OfPatient(patientId.value)), CreatedAt), 50))
  }

  /** Every diagnosis in the history is one of the patient's. */
  lemma HistoryIsPatients(diagnoses: seq<Diagnosis>, pid: Id)
    ensures forall d | d in History(diagnoses, Some(pid)).1 :: d in diagnoses && d.patientId == Some(pid)
  {
    var mine := Filter(diagnoses, OfPatient(pid));
    var sorted := SortDesc(mine, CreatedAt);
    var h := Take(sorted, 50);
    forall d | d in h ensures d in diagnoses && d.patientId == Some(pid) {
      assert d in sorted;
      assert d in multiset(sorted);
      assert d in mine;
    }
  }

  /** The history is newest first. */
  lemma HistoryNewestFirst(diagnoses: seq<Diagnosis>, pid: Id)
    ensures SortedDesc(History(diagnoses, Some(pid)).1, CreatedAt)
  {
    var sorted := SortDesc(Filter(diagnoses, OfPatient(pid)), CreatedAt);
    var h := Take(sorted, 50);
    assert History(diagnoses, Some(pid)).1 == h;
    assert h == sorted[..|h|];
    forall i, j | 0 <= i < j < |h| ensures CreatedAt(h[i]) >= CreatedAt(h[j]) {
      assert h[i] == sorted[i] && h[j] == sorted[j];
    }
  }

  /** A diagnosis of the patient left out of the history is no newer than
      any diagnosis shown; with at most 50 of them, none is left out. */
  lemma HistoryKeepsNewest(diagnoses: seq<Diagnosis>, pid: Id, d: Diagnosis)
    requires d in diagnoses && d.patientId == Some(pid)
    ensures var h := History(diagnoses, Some(pid)).1;
            d !in h ==> forall e | e in h :: d.createdAt <= e.createdAt
    ensures |Filter(diagnoses, OfPatient(pid))| <= 50 ==> d in History(diagnoses, Some(pid)).1
  {
    var mine := Filter(diagnoses, OfPatient(pid));
    var sorted := SortDesc(mine, CreatedAt);
    assert d in mine;
    assert d in multiset(mine);
    assert d in multiset(sorted);
    var k :| 0 <= k < |sorted| && sorted[k] == d;
    TakeDropsOnlyLater(sorted, 50, k);
  }

  /** In a list sorted newest first, an element at position `k` that the
      first `n` leave out is no newer than any of them. */
  lemma TakeDropsOnlyLater(sorted: seq<Diagnosis>, n: nat, k: nat)
    requires SortedDesc(sorted, CreatedAt) && k < |sorted|
    ensures sorted[k] !in Take(sorted, n) ==> forall e | e in Take(sorted, n) :: sorted[k].createdAt <= e.createdAt
    ensures |sorted| <= n ==> sorted[k] in Take(sorted, n)
  {
    var h := Take(sorted, n);
    if sorted[k] !in h {
      forall e | e in h ensures sorted[k].createdAt <= e.createdAt {
        var m :| 0 <= m < |h| && h[m] == e;
        assert m < k;
        assert CreatedAt(sorted[m]) >= CreatedAt(sorted[k]);
      }
    }
  }

  /** `getDiagnosisById`: 404 for an unknown id, else the diagnosis. */
  function DiagnosisById(diagnoses: seq<Diagnosis>, id: Id): (r: (Reply, Option<Diagnosis>))
    ensures r.0 == Status(404) <==> forall i | 0 <= i < |diagnoses| :: diagnoses[i].id != id
    ensures r.0 == Status(404) || r.0 == Status(200)
    ensures r.1.Some? <==> r.0 == Status(200)
    ensures r.1.Some? ==> r.1.value in diagnoses && r.1.value.id == id
  {
    match FindIndex(diagnoses, (d: Diagnosis) => d.id == id)
    case None => (Status(404), None)
    case Some(k) => (Status(200), Some(diagnoses[k]))
  }

  /** `deleteDiagnosis`. `destroyOriginal` and `destroyAnnotated` are the
      outcomes of the two `destroy` calls on the image host; a failed one is
      swallowed. */
  method DeleteDiagnosis(db: Db, host: ImageHost, id: Id, destroyOriginal: bool, destroyAnnotated: bool)
    returns (reply: Reply)
    requires db.Valid()
    modifies db, host
    ensures db.Valid()
    ensures old(db.FindDiagnosis(id)).None? ==> reply == Status(404) && unchanged(db, host)
    ensures old(db.FindDiagnosis(id)).Some? ==>
              var d := old(db.diagnoses)[old(db.FindDiagnosis(id)).value];
              var originalGone := if d.xrayImage.publicId != "" && destroyOriginal
                                  then {d.xrayImage.publicId} else {};
              var annotatedGone := if AnnotatedPublicId(d.annotatedImage).Some? && destroyAnnotated
                                   then {AnnotatedPublicId(d.annotatedImage).value} else {};
              reply == Status(200) &&
              db.diagnoses == RemoveAt(old(db.diagnoses), old(db.FindDiagnosis(id)).value) &&
              (forall e :: e in db.diagnoses <==> e in old(db.diagnoses) && e.id != id) &&
              host.assets == old(host.assets) - originalGone - annotatedGone
    ensures db.users == old(db.users) && db.appointments == old(db.appointments) &&
            db.messages == old(db.messages)
  {
    var found := db.FindDiagnosis(id);
    if found.None? {
      return Status(404);
    }
    var k := found.value;
    var diagnosis := db.diagnoses[k];
    if diagnosis.xrayImage.publicId != "" && destroyOriginal {
      host.assets := host.assets - {diagnosis.xrayImage.publicId};
    }
    var annotatedId := AnnotatedPublicId(diagnosis.annotatedImage);
    if annotatedId.Some? && destroyAnnotated {
      host.assets := host.assets - {annotatedId.value};
    }
    RemoveOnlyThatKey(db.diagnoses, k, DiagnosisId);
    db.DeleteDiagnosis(k);
    return Status(200);
  }
}
