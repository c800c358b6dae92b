# Hospital back end and X-ray AI service, modelled in Dafny

This project models the core of a hospital management system. The system has two parts.

- **The Node/Express back end.** It handles patient registration and login, and the role guards on JSON Web Tokens. It books appointments with a doctor and stores contact messages. Its X-ray pipeline sends an uploaded image to an AI service and stores the diagnosis. It can also link the diagnosis to an appointment.
- **The Python AI service.** It turns the raw output of an object detector into fracture detections. It uses letterbox geometry, confidence filtering, clamping, and greedy non-maximum suppression (NMS) by intersection over union (IoU).

Modules follow the program's files:

| module | models |
|---|---|
| `Common` | JavaScript truthiness and `a \|\| b \|\| c` chains; `Option`/`Outcome`; the `Reply` of a handler |
| `Rounding` | `Math.round`, `Number.prototype.toFixed`, Python's `round`, on exact reals |
| `Sorting` | a descending sort by a real key (`sorted(..., reverse=True)`, `.sort({createdAt: -1})`) |
| `AiService` | `calculate_iou`, `apply_nms`, `postprocess_output`, the letterbox padding split, the `/predict` route |
| `Detection` | the controller's detection normaliser: array, corner and size boxes; label and confidence fallbacks |
| `UserModel`, `DiagnosisModel`, `AppointmentModel`, `MessageModel` | the Mongoose schemas: validators, defaults, the password hook |
| `Database` | the four collections as sequences in one `Db` object, with id-preserving insert, replace and delete |
| `AuthMiddleware` | `getToken` and the three role guards |
| `XrayController` | `diagnoseXray`, `getDiagnosisHistory`, `getDiagnosisById`, `deleteDiagnosis` |
| `AppointmentController`, `UserController`, `AuthController`, `MessageController` | the request handlers |
| `SwapNames` | the maintenance script that swaps every user's first and last name |

## How the model treats outside calls

- Library and remote calls are parameters of the operations:
  - `bcrypt.hash` and `bcrypt.compare`;
  - `jwt.verify`;
  - `validator.isEmail`;
  - the AI service over HTTP, the image host's upload, the database's write, and `Date.now()`.
- A call that can fail is an `Outcome`, `Ok(v)` or `Fail`.
- Temporary files and the image host's assets are the fields of the `FileSystem` and `ImageHost` objects.
- A handler ends with `Status(code)`, the code it picks itself. It ends with `Uncaught` when a Mongoose validation error escapes to the error middleware. That middleware is not part of this model, so the status it sends is not modelled.

## What the model exposes

Several consequences of the code as written are proved as lemmas.

- **The user schema has no "Doctor" role.** Its `role` enum is {Patient, Admin}.
  - `addNewDoctor` can never store a doctor (`UserController.DoctorAlwaysRefused`).
  - Over a collection the schema accepts, `getAllDoctors` lists nobody (`UserController.NoDoctorsListed`).
  - Every booking finds no doctor and answers 404 (`AppointmentController.SchemaValidUsersNameNoDoctor`).
- **`addNewAdmin` never creates an administrator.** It omits the required phone, date of birth and gender (`UserController.AdminFormIncomplete`).
- **Tokens without a role never pass a guard.** `generateJsonWebToken` signs only `{id}`. So the tokens `patientRegister` and `login` hand out carry no role, and every guard refuses them with 403 (`UserController.IssuedSessionRefused`, `AuthMiddleware.RolelessTokenRefused`).
- **`postAppointment` never books through a token.** It takes the patient from `req.user._id`, and no token in the system carries `_id`. So it stores nothing for such a requester (`AppointmentController.PostAppointment`).
- **A stored diagnosis never has an annotated image.** `diagnoseXray` hands `Diagnosis.create` an object for the string path `annotatedImage`. The cast fails, so whenever the annotated upload produced a URL the request ends in 500.
  - The AI service always sends an annotated image (`XrayController.AnnotatedUrlBlocksCreate`, `XrayController.AiAnswerHasAnnotatedImage`).
  - So `deleteDiagnosis` never destroys an annotated image (`DiagnosisModel.ValidHasNoAnnotatedPublicId`).
- **The message schema requires a phone of exactly nine characters** (`MessageModel.TenDigitPhoneRefused`, `MessageController.TruthyFormMayBeRefused`).
- **`swapNames` can stop partway.** A user whose last name has two characters stops it, with the earlier users already swapped (`SwapNames.TwoLetterLastNameStops`).
- **`login` answers with the user document as read with `select("+password")`**, so the answer includes the password hash (`UserController.Login`).
- **`deleteAppointment` and `deleteDoctor` check neither ownership nor role** (`AppointmentController.DeleteAppointment`, `UserController.DeleteDoctor`).

## Model

| member | source | states |
|---|---|---|
| Common.FirstTruthy | Backend/controller/xrayController.js:179 | the result is the first non-empty candidate, or the fallback when every candidate is empty |
| Rounding.MathRound | Backend/controller/xrayController.js:151-171 | the integer nearest to x, with halves going up: x - 1/2 < r <= x + 1/2 |
| Rounding.RoundHalfAway | Backend/controller/xrayController.js:180 | the nearest integer, with ties going away from zero: the rule `toFixed` applies |
| Rounding.RoundHalfEven | ai-service/app.py:53 | the nearest integer, with a tie going to the even neighbour: Python's `round` |
| Rounding.ToFixed | Backend/controller/xrayController.js:201 | the result has d decimals and is the d-decimal number nearest to x: r·10^d lies within half of x·10^d, the bound on the zero side being strict, so a tie goes away from zero; a percentage stays within [0, 100] |
| Rounding.PyRound | ai-service/app.py:270 | the result has d decimals and r·10^d lies within half of x·10^d; its last digit is odd only when it is strictly the nearest, so a tie goes to the even digit; a percentage stays within [0, 100] |
| Rounding.PyRoundMonotone | ai-service/app.py:239-270 | `round(x, d)` keeps order: a larger value never rounds to less |
| Rounding.RoundHalfEvenMonotone | ai-service/app.py:270 | rounding half to even keeps order |
| Rounding.ScaleIsProduct | ai-service/app.py:270 | scaling by ten d times is multiplying by 10^d |
| Rounding.ScaleUnscale | ai-service/app.py:270 | dividing by 10^d and scaling back gives the value back |
| Rounding.UnscaleScale | ai-service/app.py:270 | scaling by 10^d and dividing back gives the value back |
| Rounding.RoundedPercent | ai-service/app.py:259 | any integer within half a unit of x·10^d, divided by 10^d, stays in [0, 100] when x does |
| Rounding.NatToString | Backend/controller/xrayController.js:118 | the decimal form of `Date.now()` in the temporary file name is non-empty and made of digits |
| Sorting.InsertDesc | ai-service/app.py:146 | inserting adds exactly that element (same multiset plus one) |
| Sorting.InsertDescSorted | ai-service/app.py:146 | inserting into a non-increasing sequence keeps it non-increasing |
| Sorting.SortDesc | ai-service/app.py:146 | the result is a permutation of the input (same multiset and length) in non-increasing key order |
| Sorting.SortDescHeadIsMax | ai-service/app.py:146 | the first element after sorting is an input element with the largest key |
| AiService.Clamp | ai-service/app.py:126-131 | the clamped value lies in [lo, hi] and equals v when v already lies there |
| AiService.IouZeroCases | ai-service/app.py:168-174 | IoU is 0 when the boxes are apart on either axis and when the union is not positive |
| AiService.Iou | ai-service/app.py:161-174 | intersection over union is never negative and is 0 when the boxes are apart on either axis; `IouZeroCases`, `IouSymmetric` and `IouInUnitInterval` state the rest |
| AiService.IouSymmetric | ai-service/app.py:161-174 | IoU does not depend on the order of the two boxes |
| AiService.IntersectionWithinAreas | ai-service/app.py:168-172 | for overlapping well-formed boxes the intersection lies between 0 and each box's area |
| AiService.IouInUnitInterval | ai-service/app.py:161-174 | the IoU of two well-formed boxes lies in [0, 1] |
| AiService.Survivors | ai-service/app.py:154-158 | a survivor is an input detection whose overlap with the kept box is below the threshold |
| AiService.SurvivorsSorted | ai-service/app.py:154-158 | suppression keeps the confidence order |
| AiService.SurvivorsComplete | ai-service/app.py:154-158 | every input detection below the threshold survives |
| AiService.GreedyNms | ai-service/app.py:148-159 | the kept list is no longer than the input, and a non-empty input keeps its first detection first |
| AiService.GreedyStep | ai-service/app.py:149-158 | one round of the loop moves the head to the kept list and suppresses against it |
| AiService.GreedyKeepsInputs | ai-service/app.py:148-159 | only input detections are kept |
| AiService.GreedySorted | ai-service/app.py:146-159 | a sorted input gives kept detections in non-increasing confidence |
| AiService.GreedyPairwiseBelow | ai-service/app.py:148-159 | every two kept detections overlap below the threshold |
| AiService.GreedyCovers | ai-service/app.py:148-159 | every input detection is kept or overlaps a kept one at or above the threshold |
| AiService.ApplyNms | ai-service/app.py:143-159 | the loop computes the greedy specification: [] exactly for [], a subset of the input, sorted by confidence, first element of maximal confidence, pairwise IoU below the threshold, every input covered |
| AiService.SuppressOverlapping | ai-service/app.py:153-158 | the inner loop keeps exactly the detections whose IoU with the kept box is below the threshold |
| AiService.NmsProperties | ai-service/app.py:143-159 | the suppression specification over a sorted non-empty input has every property listed for `ApplyNms` |
| AiService.PadSplit | ai-service/app.py:56-61 | the left and right pads plus the unpadded side make the full side, and they differ by at most one |
| AiService.ScaledSideFits | ai-service/app.py:52-53 | a side scaled by 640 over the longer side and rounded lies in [0, 640] |
| AiService.LetterboxOf | ai-service/app.py:44-67 | on both axes the pads and the resized side add up to 640, split evenly, and the ratio is positive |
| AiService.ArgMax | ai-service/app.py:99-101 | the index of the first maximal class confidence |
| AiService.CandidateOf | ai-service/app.py:95-138 | a short row gives nothing; a long enough row gives a candidate exactly when the score of its best class (the first maximum) reaches the threshold; the candidate has that class and its name, the score times 100 clamped into [0, 100], and the row's box in the original image with each corner clamped into the image |
| AiService.OriginalBoxUndoesLetterbox | ai-service/app.py:107-124 | the box in the original image, mapped back through the letterbox (times the ratio, plus the padding), has the row's centre and size |
| AiService.InputBox | ai-service/app.py:98-111 | the row's centre and size in the letterboxed input, times the input size when the output is normalised; `OriginalBoxUndoesLetterbox` states it through the original box |
| AiService.OriginalBox | ai-service/app.py:113-124 | the input box with the padding removed and divided by the ratio; `OriginalBoxUndoesLetterbox` proves this undoes the letterbox |
| AiService.ClampToImage | ai-service/app.py:126-129 | the clamped corners lie in the image, and a box already inside it is unchanged |
| AiService.Candidates | ai-service/app.py:94-138 | at most one candidate per output row; the candidate of every row that yields one is kept, and every candidate is the candidate of some row |
| AiService.CandidatesAppend | ai-service/app.py:94-138 | the candidates of two runs of rows are those of the first run followed by those of the second: row order is kept |
| AiService.CandidatesInBounds | ai-service/app.py:126-131 | every candidate's corners lie in the image and its confidence in [0, 100] |
| AiService.PostprocessOutput | ai-service/app.py:81-141 | the detections are the suppression of the sorted candidates, at most one per row, all in bounds |
| AiService.MaxConfidence | ai-service/app.py:239 | the maximum is some detection's confidence and bounds them all |
| AiService.PredictResult | ai-service/app.py:238-275 | the fracture label exactly when something was detected, with `round(max confidence, 2)` as its confidence; otherwise the normal label with confidence 0; the count; each formatted detection keeps its detection's class id and corners, takes the fracture label and `round(confidence, 2)`; an annotated image is always present |
| AiService.PredictTopConfidence | ai-service/app.py:239-270 | a fracture answer's confidence is one of its formatted detections' confidences and no smaller than any of them |
| AiService.PredictConfidencesArePercent | ai-service/app.py:256-275 | the answer's confidences lie in [0, 100] |
| AiService.Predict | ai-service/app.py:213-283 | 500 without a model, 400 without a named file, 200 exactly when decoding and inference succeed, and then the answer is built from the suppressed detections |
| Detection.Add | Backend/controller/xrayController.js:155-156 | a sum is a number exactly when both operands are (an undefined operand gives NaN) |
| Detection.Sub | Backend/controller/xrayController.js:164-165 | a difference is a number exactly when both operands are |
| Detection.RoundOpt | Backend/controller/xrayController.js:151-154 | rounding a missing value gives NaN; rounding a number gives the nearest integer |
| Detection.FirstNonZero | Backend/controller/xrayController.js:170-171 | `width \|\| w \|\| 0`: a zero or missing first field falls through to the second, then to 0 |
| Detection.NormalizeAll | Backend/controller/xrayController.js:144-183 | no detections give []; otherwise one normalised detection per input, in order |
| Detection.NormalizeBox | Backend/controller/xrayController.js:144-175 | an empty box exactly when neither form is recognised; the array form's far corner is its corner plus its size; the corner object's size is the difference of its corners |
| Detection.NormalizeOne | Backend/controller/xrayController.js:143-182 | a normalised detection always has a class name, its box is the normalised box of the detection's box source, and its confidence has one decimal |
| Detection.NormalizeEachPointwise | Backend/controller/xrayController.js:144-183 | the mapping keeps the length and normalises each position on its own |
| Detection.BoxEndsAreSums | Backend/controller/xrayController.js:149-173 | every produced box has x2 = x + width and y2 = y + height |
| Detection.EmptyExactlyWhenUnrecognised | Backend/controller/xrayController.js:145-176 | the box is the empty object exactly when the box source is missing or of no known form |
| Detection.ArrayForm | Backend/controller/xrayController.js:149-156 | an array [x, y, w, h] gives the rounded four values and their sums |
| Detection.CornerForm | Backend/controller/xrayController.js:158-165 | a corner box gives the rounded corners and their differences as width and height |
| Detection.SizeForm | Backend/controller/xrayController.js:166-173 | a size box gives the rounded position and the rounded width\|w and height\|h, always numbers |
| Detection.ArrayExample | Backend/controller/xrayController.js:149-156 | a worked array box |
| Detection.ShortArrayExample | Backend/controller/xrayController.js:149-156 | a two-element array gives NaN width, height and ends |
| Detection.ZeroWidthExample | Backend/controller/xrayController.js:170-171 | a zero width falls through to `w`, and a missing height becomes 0 |
| Detection.LabelChain | Backend/controller/xrayController.js:179 | the label is the first non-empty of class_name, class and label, else the fracture label |
| Detection.ConfidenceRounded | Backend/controller/xrayController.js:180 | a missing confidence becomes 0; a present one becomes the one-decimal number nearest to it (within half of a tenth, a tie away from zero), so a percentage stays in [0, 100] |
| UserModel.ValidUserIsNoDoctor | Backend/models/userSchema.js:45-49 | a user the schema accepts is a patient or an administrator, never a doctor |
| UserModel.ValidProfile | Backend/models/userSchema.js:6-49 | the schema's validators other than the password's: name lengths, email, a phone of 9 to 11 characters, date of birth, gender and role in their enums |
| UserModel.ValidUser | Backend/models/userSchema.js:6-57 | every validator of the schema, the profile's and a password of at least 8 characters |
| UserModel.PreSave | Backend/models/userSchema.js:59-63 | the password is hashed exactly when it was modified, and nothing else changes |
| UserModel.PasswordHashedOnce | Backend/models/userSchema.js:59-63 | later saves of a hashed user leave the hash alone |
| UserModel.FindByEmail | Backend/controller/userController.js:13-16 | the position of a user with that email; none exactly when nobody has it |
| DiagnosisModel.Create | Backend/models/diagnosisSchema.js:4-43 | creation succeeds exactly when the annotated value casts to a string and the required and bounded fields hold; it stores the draft's fields, the defaults, the id and the time |
| DiagnosisModel.ValidDiagnosis | Backend/models/diagnosisSchema.js:4-43 | the image id and url and the result are present, the confidence is within [0, 100], the status is in its enum and the annotated image is a string |
| DiagnosisModel.ObjectImageRejected | Backend/models/diagnosisSchema.js:42 | an object under `annotatedImage` makes creation fail |
| DiagnosisModel.AnnotatedPublicId | Backend/controller/xrayController.js:340 | `annotatedImage?.public_id` is present exactly for an object with a non-empty id |
| DiagnosisModel.ValidHasNoAnnotatedPublicId | Backend/models/diagnosisSchema.js:42 | a stored diagnosis never has an annotated public id |
| AppointmentModel.NewAppointment | Backend/controller/appointmentController.js:66-83 | the booking's fields are copied; hasVisited defaults to false, the status to "Pending", and there is no result |
| AppointmentModel.MissingPatientRejected | Backend/models/appointmentSchema.js:78-82 | an appointment without a patient id fails validation |
| AppointmentModel.ApplyPatch | Backend/controller/appointmentController.js:117-121 | every field the patch sets is overwritten with its value and every field it leaves out is kept; the id, doctor, patient and result are kept; an empty patch changes nothing |
| AppointmentModel.PatchKeepsValid | Backend/controller/appointmentController.js:117-121 | a valid appointment with a patch the update validators accept stays valid |
| AppointmentModel.ValidPatch | Backend/controller/appointmentController.js:117-121 | the update validators run only on the paths the patch sets, each with the check its schema path declares |
| MessageModel.TenDigitPhoneRefused | Backend/models/messageSchema.js:20-25 | a ten-character phone fails validation |
| MessageModel.ValidMessage | Backend/models/messageSchema.js:4-31 | the schema's validators: name lengths, email, a phone of exactly 9 characters and a message of at least 3 |
| AuthMiddleware.UpToSpace | Backend/middlewares/auth.js:9 | the longest prefix without a space: it ends at the end or at a space |
| AuthMiddleware.HeaderToken | Backend/middlewares/auth.js:8-10 | no header or no "Bearer " prefix gives no token; a token never contains a space |
| AuthMiddleware.HeaderTokenRoundTrip | Backend/middlewares/auth.js:8-10 | "Bearer " + token + a rest that starts with a space gives the token back |
| AuthMiddleware.UpToSpaceOfWord | Backend/middlewares/auth.js:9 | splitting a space-free word followed by a space gives the word |
| AuthMiddleware.GetToken | Backend/middlewares/auth.js:5-13 | a non-empty cookie wins; otherwise the header token |
| AuthMiddleware.Guard | Backend/middlewares/auth.js:16-32 | 401 without a token or when verification fails; admitted exactly when the verified role is the guard's; otherwise 403; the user id is `id`, else `_id` |
| AuthMiddleware.PatientGuard | Backend/middlewares/auth.js:16-32 | without a `patientToken` the answer is 401; an admitted user has the role "Patient" and is the one the token verifies to |
| AuthMiddleware.AdminGuard | Backend/middlewares/auth.js:35-51 | without an `adminToken` the answer is 401; an admitted user has the role "Admin" and is the one the token verifies to |
| AuthMiddleware.DoctorGuard | Backend/middlewares/auth.js:54-70 | without a `doctorToken` the answer is 401; an admitted user has the role "Doctor" and is the one the token verifies to |
| AuthMiddleware.RolelessTokenRefused | Backend/models/userSchema.js:69-73 | a token signed with only an id is refused with 403 by every guard |
| AuthMiddleware.CookieOnlyRequest | Backend/middlewares/auth.js:5-28 | a session presented in its cookie is admitted exactly when its role is the guard's, and is refused with 403 otherwise |
| AuthMiddleware.HeaderOnlyRequest | Backend/middlewares/auth.js:5-28 | a bearer header alone is admitted exactly when the token verifies with the guard's role |
| XrayController.FoundAppointment | Backend/controller/xrayController.js:32-33 | the position of the appointment with the given id; none when no id was given or none has it |
| XrayController.Intake | Backend/controller/xrayController.js:26-64 | no patient id gives 400; with one, an appointment found without a patient is an uncaught error, one of another patient gives 403, and otherwise the request goes on with the appointment found exactly when the file exists, has an allowed type and is at most 10 MiB, and gets 400 when not |
| XrayController.IntakeAdmitsExactly | Backend/controller/xrayController.js:26-64 | the request goes on exactly when there is a patient id, the appointment (if any) is the patient's, and the file exists, has an allowed type and is at most 10 MiB |
| XrayController.StoredImage | Backend/controller/xrayController.js:46-64 | the file check: a file is present with a known temp path, an allowed MIME type and a size of at most 10 MiB |
| XrayController.IntakeAppointmentRules | Backend/controller/xrayController.js:32-44 | an appointment id that matches nothing is ignored: the verdict is the one without it |
| XrayController.IntakeSizeBoundary | Backend/controller/xrayController.js:61-64 | exactly 10 MiB passes, and one byte more gives 400 |
| XrayController.ResultText | Backend/controller/xrayController.js:200 | the stored result is never empty |
| XrayController.DetailsText | Backend/controller/xrayController.js:202 | the stored details are never empty |
| XrayController.AnnotatedUpload | Backend/controller/xrayController.js:113-139 | no annotated image or a failed upload leaves the annotated URL and id empty |
| XrayController.AnnotatedUrlBlocksCreate | Backend/controller/xrayController.js:190-198 | an annotated URL makes creation fail; a stored diagnosis holds null |
| XrayController.StoredDiagnosisFields | Backend/controller/xrayController.js:190-208 | a stored diagnosis has the result text, a confidence rounded to one decimal within [0, 100], the status "pending" and the patient |
| XrayController.DraftFor | Backend/controller/xrayController.js:187-207 | the draft carries the patient and the uploaded image, an annotated image exactly when the annotated upload has a url, a non-empty result and details, an empty note, the status "pending" and a one-decimal confidence within [0, 100] |
| XrayController.FractureLabelMatches | Backend/controller/xrayController.js:222-225 | the AI service's fracture label matches /gãy/i |
| XrayController.NormalLabelDoesNotMatch | Backend/controller/xrayController.js:222-225 | the normal label matches neither /fracture/i nor /gãy/i |
| XrayController.AiAnswerNormalised | Backend/controller/xrayController.js:158-165 | each of the AI service's detections becomes a corner box with the fracture label; the count matches `total_detections` |
| XrayController.AnswerNormalised | Backend/controller/xrayController.js:158-165 | an answer's corner boxes are normalised position by position |
| XrayController.AiAnswerFlagsFracture | Backend/controller/xrayController.js:222-225 | for the AI service's answer, `fractureDetected` holds exactly when something was detected |
| XrayController.FractureDetected | Backend/controller/xrayController.js:221-224 | the fracture flag of the AI answer; `AiAnswerFlagsFracture` states when it holds |
| XrayController.LinkedResult | Backend/controller/xrayController.js:212-230 | the appointment's result flags a fracture when something was detected, carries the normalised detections and region, a two-decimal confidence, and the annotated url when there is one |
| XrayController.FlagsWithoutMatch | Backend/controller/xrayController.js:222-225 | with detections, or with the normal label and none, the flag is set exactly when there are detections |
| XrayController.ServiceDetectionNormalised | Backend/controller/xrayController.js:158-165 | one service detection gives the fracture label and its rounded corner box |
| XrayController.AiAnswerHasAnnotatedImage | Backend/controller/xrayController.js:116-129 | for the AI service's answer, a successful annotated upload always yields an annotated URL |
| XrayController.UploadAnnotated | Backend/controller/xrayController.js:113-139 | the temporary file goes in every case; the asset is added only when the upload succeeds |
| XrayController.LinkAppointment | Backend/controller/xrayController.js:215-240 | only the appointment found at intake gets the result, and only when the update goes through |
| XrayController.DiagnoseXray | Backend/controller/xrayController.js:20-281 | intake stops change nothing; 503 and 500 before any diagnosis keep the upload on disk; past the uploads the temporary files go, one diagnosis is stored or 500, the link is optional, and a 200 answer never shows the annotated image |
| XrayController.Take | Backend/controller/xrayController.js:295 | a prefix of length min(n, length): everything when the sequence is short enough |
| XrayController.History | Backend/controller/xrayController.js:286-302 | 400 exactly without a patient id; otherwise 200 and min(50, number of the patient's diagnoses) diagnoses |
| XrayController.HistoryIsPatients | Backend/controller/xrayController.js:293 | every diagnosis listed is a stored diagnosis of that patient |
| XrayController.HistoryNewestFirst | Backend/controller/xrayController.js:293-294 | the history is in non-increasing creation time |
| XrayController.HistoryKeepsNewest | Backend/controller/xrayController.js:293-295 | a diagnosis of the patient that is left out is no newer than any listed one; with at most 50 all are listed |
| XrayController.TakeDropsOnlyLater | Backend/controller/xrayController.js:294-295 | cutting a newest-first list drops only the oldest |
| XrayController.DiagnosisById | Backend/controller/xrayController.js:307-318 | 404 exactly when no diagnosis has the id; otherwise 200 with that diagnosis |
| XrayController.DeleteDiagnosis | Backend/controller/xrayController.js:323-355 | 404 changes nothing; otherwise exactly that diagnosis goes, and each image whose id is present goes when its destroy succeeds |
| AppointmentController.LookupDoctor | Backend/controller/appointmentController.js:42-60 | no doctor exactly when nobody matches; a single doctor is the only matching user; several means two matching positions |
| AppointmentController.SchemaValidUsersNameNoDoctor | Backend/controller/appointmentController.js:42-50 | over users the schema accepts, every booking finds no doctor |
| AppointmentController.PostAppointment | Backend/controller/appointmentController.js:8-90 | a missing field gives 400; no doctor 404; several 400; one doctor stores the new appointment or the validation error escapes; a requester without `_id` books nothing |
| AppointmentController.GetAllAppointments | Backend/controller/appointmentController.js:95-102 | 200 with every appointment |
| AppointmentController.UpdateAppointmentStatus | Backend/controller/appointmentController.js:107-129 | 404 changes nothing; a patch the validators accept overwrites that appointment alone; a valid appointment stays valid |
| AppointmentController.DeleteAppointment | Backend/controller/appointmentController.js:134-149 | 404 changes nothing; otherwise exactly the appointments with another id remain |
| UserController.CreateUser | Backend/controller/userController.js:18-27 | an invalid user is refused with no change; a valid one is appended with its password hashed |
| UserController.PatientRegister | Backend/controller/userController.js:6-41 | 400 for a missing field or a known email; a validation error escapes; 201 stores a patient with the hashed password and issues a role-less session |
| UserController.Login | Backend/controller/userController.js:44-75 | 400, 404, 401 in that order; the session cookie is adminToken exactly for an administrator; the answer includes the stored password hash |
| UserController.IssuedSessionRefused | Backend/controller/userController.js:61-62 | the token `login` issues is refused with 403 by every guard |
| UserController.AdminFormIncomplete | Backend/controller/userController.js:148-154 | the administrator document always fails validation, and would pass exactly with a valid phone, date of birth and gender |
| UserController.AddNewAdmin | Backend/controller/userController.js:136-161 | 400 for a missing field or a known email, otherwise a validation error; no user is ever stored |
| UserController.DoctorAlwaysRefused | Backend/controller/userController.js:181-188 | a doctor document fails validation whatever its other fields |
| UserController.AddNewDoctor | Backend/controller/userController.js:169-195 | 400 for a missing field or a known email, otherwise a validation error; no user is ever stored |
| UserController.AllDoctors | Backend/controller/userController.js:164-167 | exactly the users whose role is "Doctor" |
| UserController.NoDoctorsListed | Backend/controller/userController.js:165 | over users the schema accepts, the list is empty |
| UserController.DeleteDoctor | Backend/controller/userController.js:197-211 | 404 changes nothing; otherwise exactly the users with another id remain, whatever the role |
| AuthController.LoginUser | Backend/controller/authController.js:6-53 | 400, 404, 401, 403 in that order; success signs id and role, picks the cookie by the requested role, and shows only id, email and role |
| AuthController.CookieFor | Backend/controller/authController.js:33 | the cookie is `adminToken` exactly for the role "Admin" and `patientToken` otherwise |
| AuthController.SignedInIsGenuine | Backend/controller/authController.js:15-25 | a sign-in belongs to a stored user with that email, password and role |
| AuthController.SignedInSessionAtTheGuards | Backend/controller/authController.js:28-33 | an administrator's session passes the administrator guard and a patient's the patient guard; a doctor's cannot pass the doctor guard |
| MessageController.TruthyFormMayBeRefused | Backend/controller/messageController.js:12-23 | a complete form with a phone that is not nine characters long fails validation |
| MessageController.SendMessage | Backend/controller/messageController.js:8-30 | 400 for a missing field; a validation error escapes; otherwise exactly one message with the form's fields is stored |
| MessageController.GetAllMessages | Backend/controller/messageController.js:35-42 | 200 with every message |
| MessageController.DeleteMessage | Backend/controller/messageController.js:47-62 | 404 changes nothing; otherwise exactly the messages with another id remain |
| SwapNames.SwapAll | Backend/swapNames.js:23-35 | every user swapped, in order |
| SwapNames.SwapTouchesOnlyNames | Backend/swapNames.js:24-29 | only the two names change, and swapping twice restores the user |
| SwapNames.SwapAcceptedExactly | Backend/swapNames.js:28-31 | a valid user's swapped save passes exactly when the last name has at least three characters |
| SwapNames.TwoLetterLastNameStops | Backend/swapNames.js:31 | a valid user with a two-letter last name is refused after the swap |
| SwapNames.SecondRunRestores | Backend/swapNames.js:23-35 | after a complete run, a second run also completes and restores every name |
| SwapNames.SwapNames | Backend/swapNames.js:7-53 | no connection exits 1 with nothing changed; otherwise the users before the first refused save are swapped, the rest untouched, the count is their number, and the exit code is 0 exactly when all were saved |

## Left out

- Network, disk and database I/O are parameters or `Outcome` values. So are the image host, `Buffer.from(..., "base64")` and `Date.now()`. One `now` stands for both `Date.now()` calls in `diagnoseXray`.
- These library calls are uninterpreted function parameters: bcrypt, `jwt.sign`, `jwt.verify` and `validator.isEmail`.
- The error middleware (`errorMiddleware.js`) and `catchAsyncErrors` are not part of this model. An escaping validation or cast error is the `Uncaught` reply, with no status.
- The routers, `app.js`, `server.js`, the database connection and `utils/jwtToken.js` are wiring. So is the routers' import of `isAuthenticated`/`isAuthorized`, which `auth.js` does not export.
- `xraySchema.js` is an unused model.
- The front ends (`Fontend`, `dashboard`) are React user interface.
- Not part of the modelled core: `getUserDetails`, `getUserProfile`, `logoutPatient`, `getAdminDetails` and `logoutAdmin`. They echo `req.user` or clear a cookie.
- The AI service's ONNX inference, image decoding and resizing, `draw_boxes_on_image`, `image_to_base64`, the `/` and `/test` routes, and console output. The raw model output and the image size are parameters of `AiService.Predict`.
- Log output, the localised message strings, and the response fields beyond those named in the table.
- Concurrency. Every handler is one sequential chain, and two requests do not interleave in the model.
- Rounding.MathRound: numbers are exact reals, not IEEE doubles. `toFixed`, `round` and the letterbox scale are taken on the exact value, so double-rounding effects are not modelled.
- AiService.LetterboxOf: the resized side uses Python's half-even `round` on the exact ratio; cv2's resampling is not modelled.
- AiService.PostprocessOutput: a 3-dimensional output is taken already transposed to rows (`output[0].T`).
- DiagnosisModel.Create: dates are integers, and the ObjectId cast of `patientId` is not modelled.
- UserModel.ValidProfile and AppointmentModel.ValidAppointment: the `Date` cast of a user's `dob` and of an appointment's `dob` and `appointment_date` is not modelled, because dates are kept as the strings the request sends. In the source a value that is no date (such as "abc") makes the save fail with a cast error, an `Uncaught` reply. The model's `UserController.CreateUser` accepts such a value, so `UserController.PatientRegister` answers 201 and `AppointmentController.PostAppointment` answers 200 for it.
- Sorting.SortDesc: the order among elements with equal keys is not stated. Its contract gives the sorted order and the permutation only.
- AppointmentModel.ApplyPatch: a request body is modelled as a patch of the schema's scalar fields; paths outside the schema are dropped, and the doctor, `doctorId`, `patientId` and `result` are never patched.
- MessageController.GetAllMessages: messages have no `createdAt` path, so `.sort({ createdAt: -1 })` has no key to order by; the model returns the collection's order.
- XrayController.DiagnoseXray: the answer's `timestamp` is the `now` parameter, not a stored date value.
- Database: ids are natural numbers from a counter rather than ObjectIds, and the email uniqueness index is a precondition of insertion.
- UserController.AllDoctors: the records keep the `password` field; the `.select("-password")` projection is not modelled, because the model has no field-selection layer.
- Detection.NormalizeBox: a box object is a map from its names to numbers, so a present key whose value is not a number (which gives NaN in JavaScript) cannot be represented. The AI service always sends numbers.
