# Smart-attendance, modelled in Dafny

This project models the decision logic of the smart-attendance system. The
system has an Express/Mongoose backend and two React clients: `frontend/` and
the newer `frontend_new/`. The model works on immutable values.

**Backend**
- The attendance, device and user collections are sequences of records.
- Each request handler is a pure function from the store and the request to
  a new store and a reply (a status with a body, or a status with a message).
- The schemas become record datatypes: required paths, enumerations,
  defaults, setters and unique indexes.
- Three request-level decisions are modelled on their own:
  - the first-match attendance route table;
  - the CORS origin check;
  - the device-fingerprint pre-image.

**Clients**
- The validators and the page-level form checks.
- The two session stores: the `useAuth` hook of `frontend/` and the auth
  reducer of `frontend_new/`.
- The API interceptor.
- The route guards of both clients.
- The four-step mark-attendance wizard.
- The teacher's one-minute QR session.
- The report and dashboard aggregation, including the CSV export.

**Representation**
- Foreign code is a parameter. This covers bcrypt, SHA-256, date parsing and
  locale formatting, `Math.random` (a real in [0, 1)) and every network
  reply (an `Outcome`: a returned value or a thrown message).
- Browser storage is a value passed in and returned.
- Times are integers of milliseconds.
- Timers are explicit tick steps that count the live intervals.

Modules, one per source file or component:

| module | source |
|---|---|
| `Common` | shared `Option`, `Result`, `Outcome`, JS truthiness |
| `Text` | JS whitespace, `trim`, ASCII `toLowerCase`, decimal digits |
| `Mongo` | ObjectId casting, `required` strings, handler replies |
| `Regex` | a small regular-expression matcher |
| `Validators` | frontend/src/utils/validateInput.js and the pages' email regex |
| `AttendanceModel`, `DeviceModel`, `UserModel` | backend/models |
| `AttendanceController`, `UserController` | backend/controller |
| `Paths`, `AttendanceRoutes` | Express path matching, backend/routes/attendance.js |
| `Cors` | backend/server.js |
| `Fingerprint` | backend/utils/deviceFInger.js |
| `SignupForm`, `ResetPassword`, `ForgotPassword`, `ProfileForm` | frontend/src/pages |
| `Session`, `ApiClient`, `AppGuard` | frontend/src/hooks/useAuth.jsx, services/api.js, App.jsx |
| `AuthReducer`, `NewAppGuard` | frontend_new/src/context/Auth.jsx, App.jsx |
| `StudentSignupForm`, `LoginForm` | frontend_new/src/pages/Signup.jsx, Login.jsx |
| `AttendanceWizard`, `TeacherSession` | frontend_new/src/pages/Attendance.jsx, TeacherDashboard.jsx |
| `Delimited`, `Report`, `Dashboard` | CSV text, frontend_new/src/pages/Report.jsx, Dashboard.jsx |

## Model

| member | source | states |
|---|---|---|
| Mongo.CastId | backend/controller/attendance.js:64 | `findById` casts the URL text to an ObjectId: text of 24 hex digits in either case is accepted, and the id it names has each digit in lower case |
| Mongo.CastStoredId | backend/controller/attendance.js:64 | a stored id is valid ObjectId text and casts to itself |
| Mongo.CastIdIgnoresCase | backend/controller/attendance.js:64 | text that differs from a valid id only in the case of its hex digits is valid too and names the same id |
| Mongo.CastIdSameIff | backend/controller/attendance.js:64 | two valid id texts name the same ObjectId iff they differ only in the case of their hex digits |
| Mongo.FindById | backend/controller/attendance.js:64 | the lookup by `_id` returns the first position holding the id, and none iff no document has it (also the user lookup of backend/controller/user.js:18) |
| AttendanceModel.Create | backend/models/attendance.js:3-47 | creation succeeds iff userId, date, class, qrCodeUsed and deviceId are present (strings non-empty) and any given status is in the enumeration; the record then carries the input's fields, with status defaulting to present, selfieUrl to null, verified to false and remarks to '' |
| AttendanceModel.NoUniquenessAcrossRecords | backend/models/attendance.js:3-47 | the same admissible input is accepted under two ids and yields the same record apart from its id: nothing is unique across records |
| DeviceModel.InsertDevice | backend/models/device.js:3-36 | insertion succeeds iff userId is present, deviceId is a non-empty string and no stored device has that deviceId; the new device is appended with deviceName 'Unknown Device', ipAddress null, lastUsed the current time and isActive true unless given |
| DeviceModel.InsertDevicePreservesWellFormed | backend/models/device.js:10-14 | insertion keeps device ids unique and required |
| DeviceModel.OneOwnerPerDevice | backend/models/device.js:10-14 | in a well-formed collection two devices with the same deviceId are the same device, so a deviceId has one owner |
| UserModel.NormalizeEmail | backend/models/user.js:11-17 | the stored address is the lower-cased input with only the surrounding whitespace removed; it has no upper-case letter, and it is empty iff the input is all whitespace |
| UserModel.NormalizeEmailIdempotent | backend/models/user.js:15-16 | normalising twice is normalising once |
| UserModel.NormalizeEmailFixes | backend/models/user.js:15-16 | an address that is already lower-case and trimmed is left unchanged |
| UserModel.Build | backend/models/user.js:6-61 | the built user has the trimmed name and normalised email; role defaults to student, isActive to true, and fingerprintData, selfieUrl and lastLogin to null |
| UserModel.CreateUser | backend/models/user.js:4-66 | creation succeeds iff name, email, password and rollNumber are present and non-blank, any role is in the enumeration, and the new user collides with no stored one on _id, email, rollNumber or a present deviceId; the user is then appended |
| UserModel.CreateUserPreservesWellFormed | backend/models/user.js:11-45 | a successful creation keeps every unique index and every stored user valid |
| UserModel.EmailUniqueUpToNormalisation | backend/models/user.js:11-17 | after one user is created, a second whose address lower-cases and trims to the same text is refused |
| UserModel.DeviceIdSparseUnique | backend/models/user.js:41-45 | a user whose present deviceId is already stored is refused |
| AttendanceController.MarkAttendance | backend/controller/attendance.js:6-46 | marking succeeds iff a device matches the caller and the deviceId, and the qrCode and deviceId are present and non-empty; an unregistered device gives 400 'Device not registered'; a failure changes nothing; success with 201 appends exactly one record: userId the caller, status present, class the body's or 'default', the selfie or null, verified true |
| AttendanceController.MarkNeverRejectsQrOrSelfie | backend/controller/attendance.js:16-24 | the only failures are the device refusal and the server error; the QR and selfie refusals never occur |
| AttendanceController.InactiveDeviceStillAccepted | backend/controller/attendance.js:11 | a deactivated device that matches still lets the caller mark attendance (with backend/models/device.js:27-30) |
| AttendanceController.MarkTwiceAddsTwo | backend/controller/attendance.js:26-35 | marking twice for the same user, class and time adds two records: there is no per-day check |
| AttendanceController.MarkPreservesUniqueIds | backend/controller/attendance.js:26-35 | marking keeps record ids unique |
| AttendanceController.SortNewestFirst | backend/controller/attendance.js:52 | the sorted ledger is a permutation of the input ordered by date, newest first |
| AttendanceController.GetAllAttendance | backend/controller/attendance.js:48-59 | the reply holds every record exactly once, ordered by date, newest first |
| AttendanceController.GetAttendanceById | backend/controller/attendance.js:62-76 | text that is not 24 hex digits gives 500; otherwise the text is cast, an unknown id gives 404, and a known one gives 200 with the stored record of the cast id |
| AttendanceController.FilterUser | backend/controller/attendance.js:81 | the selection holds exactly the records of the user, each at most as often as stored |
| AttendanceController.GetUserAttendanceHistory | backend/controller/attendance.js:78-90 | a user id that is not 24 hex digits gives 500; otherwise the reply holds exactly the records of the cast user id, newest first |
| AttendanceController.StartOfDay | backend/controller/attendance.js:94-95 | in a zone at a fixed offset from UTC, the start of day is the midnight at or before the clock reading, less than a day earlier |
| AttendanceController.EndOfDay | backend/controller/attendance.js:97-98 | the end of day is the last millisecond of the reading's day in the same zone, a day less a millisecond after its start, and not before the reading |
| AttendanceController.GetTodayAttendance | backend/controller/attendance.js:92-109 | the handler reads the clock twice; the reply is 200 and holds exactly the records dated from the start of the first reading's day to the end of the second reading's day, inclusive, each at most as often as stored |
| AttendanceController.OneDayWindow | backend/controller/attendance.js:94-98 | two readings on the same day give a window of one day less a millisecond |
| AttendanceController.MidnightStraddleSpansTwoDays | backend/controller/attendance.js:94-98 | a first reading one millisecond before midnight and a second at midnight give a window of two days less a millisecond, so yesterday's records count as today's |
| AttendanceController.TodayFilter | backend/controller/attendance.js:100-102 | the date filter keeps exactly the records inside the inclusive bounds, each at most as often as stored |
| AttendanceController.UpdateAttendance | backend/controller/attendance.js:111-128 | an id that is not 24 hex digits, or a body userId that is not, gives 500 and changes nothing; an unknown id gives 404 and changes nothing; otherwise the record of the cast id is replaced by its patched form, which is returned |
| AttendanceController.UpdateRejectsBadUserId | backend/controller/attendance.js:113-117 | a body whose userId is not an ObjectId, such as 'nope', gives 500 and leaves the ledger as it was |
| AttendanceController.UpdateOverwritesFields | backend/controller/attendance.js:113-117 | the ledger holds the returned record in the place of the one found; in it every field the body carries takes the body's value, userId in its cast form, every field the body leaves out keeps the stored value, and the id is unchanged |
| AttendanceController.UpdateKeepsOthers | backend/controller/attendance.js:113-117 | an update leaves every record with another id as it was |
| AttendanceController.UpdateCanLeaveEnum | backend/controller/attendance.js:113-117 | an update runs no validators, so it can store a status outside present/absent/late |
| AttendanceController.DeleteAttendance | backend/controller/attendance.js:130-143 | a malformed id gives 500; an unknown id gives 404 and changes nothing; otherwise the record of that id is removed |
| AttendanceController.DeleteRemovesExactlyOne | backend/controller/attendance.js:132-138 | with unique ids, a delete removes exactly the named record and keeps every other |
| AttendanceController.IdCaseIgnored | backend/controller/attendance.js:62-143 | ids that differ only in the case of their hex digits get the same reply and the same ledger from the by-id, history, update and delete handlers |
| AttendanceController.StoredRecordFoundInAnyCase | backend/controller/attendance.js:64 | a stored record is found by its id written with any mix of upper- and lower-case hex digits |
| UserController.ProjectionDropsOnlyPassword | backend/controller/user.js:7-18 | the password-free projection loses the password and nothing else |
| UserController.GetAllUsers | backend/controller/user.js:5-13 | the reply holds every user in store order, each without its password |
| UserController.GetUserById | backend/controller/user.js:16-27 | text that is not 24 hex digits gives 500; otherwise an unknown cast id gives 404 'User not found' and a known one 200 with that user minus the password |
| UserController.Merge | backend/controller/user.js:39-46 | a truthy name or email is taken through the schema setters; a truthy role replaces the role; a truthy password is replaced by its hash; every other field is kept |
| UserController.MergeKeepsFalsyFields | backend/controller/user.js:39-40 | an absent or empty name or email keeps the stored value |
| UserController.UpdateUser | backend/controller/user.js:30-63 | text that is not 24 hex digits gives 500; an unknown cast id gives 404; a failure changes nothing; success replaces the user by the merged document and replies with exactly its id, name, email and role |
| UserController.UpdateUserSucceedsIff | backend/controller/user.js:48 | the save succeeds iff the merged document is valid and collides with no other user |
| UserController.UpdateRejectsUnknownRole | backend/controller/user.js:41-48 | a role outside the enumeration makes the update fail |
| UserController.UpdateUserPreservesWellFormed | backend/controller/user.js:30-63 | an update keeps the collection's unique indexes and validity |
| UserController.DeleteUser | backend/controller/user.js:66-77 | text that is not 24 hex digits gives 500; an unknown cast id gives 404 and changes nothing; otherwise that user is removed |
| UserController.DeleteUserRemovesExactlyOne | backend/controller/user.js:68-72 | in a well-formed collection, a delete removes exactly the named user and keeps every other |
| UserController.UserIdCaseIgnored | backend/controller/user.js:16-77 | ids that differ only in the case of their hex digits get the same reply and the same collection from the by-id, update and delete handlers |
| AttendanceRoutes.FirstMatch | backend/routes/attendance.js:15-27 | the chosen route is the first in declaration order whose method and pattern match, and none is chosen iff no route matches |
| AttendanceRoutes.Resolve | backend/routes/attendance.js:15-27 | a handler runs only for an authenticated request; the result is not-found iff no route matches; a handler is bound from a matching route |
| AttendanceRoutes.TodayIsShadowed | backend/routes/attendance.js:19-23 | GET /today runs getAttendanceById with the id "today" |
| AttendanceRoutes.TodayUnreachable | backend/routes/attendance.js:19-23 | no request reaches getTodayAttendance |
| AttendanceRoutes.UserHistoryReached | backend/routes/attendance.js:19-21 | GET /user/X reaches getUserAttendanceHistory with X |
| AttendanceRoutes.MarkAndListReached | backend/routes/attendance.js:15-17 | POST /mark reaches markAttendance and GET / reaches getAllAttendance |
| AttendanceRoutes.UpdateAndDeleteReached | backend/routes/attendance.js:25-27 | PUT /X and DELETE /X reach update and delete with X |
| AttendanceRoutes.ProtectGuardsEveryRoute | backend/routes/attendance.js:15-27 | every matched route refuses an unauthenticated request |
| Cors.AllowedOrigins | backend/server.js:23-27 | the list has three entries: FRONTEND_URL when set, else the local development origin, then the two fixed local origins |
| Cors.CheckOrigin | backend/server.js:22-38 | a request is allowed iff it has no origin or its origin is exactly one of the allowed entries; a refusal's message is the policy text followed by the origin |
| Cors.DenyNamesOrigin | backend/server.js:32-35 | a refusal's message ends with the refused origin |
| Cors.FixedOriginsAllowed | backend/server.js:25-30 | a missing origin and the two fixed origins always pass |
| Cors.ExactComparison | backend/server.js:24-32 | once FRONTEND_URL is set the default origin is refused; an origin with a trailing slash is refused |
| Fingerprint.ClientIp | backend/utils/deviceFInger.js:5 | the address is x-forwarded-for if truthy, else the socket address if truthy, else 'unknown-ip' |
| Fingerprint.Agent | backend/utils/deviceFInger.js:6 | the agent is the user-agent header if truthy, else 'unknown-agent' |
| Fingerprint.GenerateDeviceFingerprint | backend/utils/deviceFInger.js:4-11 | the fingerprint is the digest of the address, the agent and the seed (empty when not given) joined by dashes; for an address without a dash, the hashed text begins with that address |
| Fingerprint.PreimageRecoversIp | backend/utils/deviceFInger.js:8 | the hashed text begins with the address and a dash, so an address without a dash can be read back from it |
| Fingerprint.FingerprintDeterministic | backend/utils/deviceFInger.js:8-10 | two requests with the same address and agent get the same fingerprint |
| Fingerprint.SeparatorAmbiguity | backend/utils/deviceFInger.js:8 | the dash is not escaped, so two requests with different addresses can get the same fingerprint |
| Fingerprint.CompareIsEquivalence | backend/utils/deviceFInger.js:14-16 | comparing fingerprints is reflexive, symmetric and transitive |
| Text.Trim | backend/models/user.js:9-16 | the result is the infix of the text left after removing only whitespace before and after it; it has no whitespace at either end, and it is empty iff the text is all whitespace |
| Text.TrimIdempotent | backend/models/user.js:9-16 | trimming twice is trimming once |
| Text.Lower | backend/models/user.js:15 | lower-casing keeps the length, turns each ASCII capital A-Z into its own lower-case letter (32 code points on) and leaves every other character as it was |
| Validators.ValidateEmailIsPattern | frontend/src/utils/validateInput.js:2-5 | the characterisation of validateEmail (no whitespace, exactly one '@' not first, a '.' in the domain neither first nor last) holds iff the anchored regex matches the whole string |
| Validators.HasEmailShapeIsSearch | frontend/src/pages/Signup.new.jsx:78 | the characterisation of the pages' test holds iff the unanchored `\S+@\S+\.\S+` matches somewhere in the string |
| Validators.ValidEmailHasEmailShape | frontend/src/utils/validateInput.js:3 | every address validateEmail accepts also passes the pages' looser test (with frontend/src/pages/Signup.new.jsx:78) |
| Validators.EmailShapeIsLooser | frontend/src/utils/validateInput.js:3 | an address with two '@' passes the pages' test and fails validateEmail (with frontend/src/pages/Signup.new.jsx:78) |
| Validators.LookaheadContains | frontend/src/utils/validateInput.js:10 | on text without line terminators, a `(?=.*X)` lookahead at the start holds iff some character is of class X |
| Validators.ValidatePasswordIsPattern | frontend/src/utils/validateInput.js:9-12 | the characterisation of validatePassword (at least 8 characters, none a line terminator, with a lower-case letter, an upper-case letter and a digit) holds iff the regex matches |
| Validators.ValidateNameIsPattern | frontend/src/utils/validateInput.js:15-18 | the characterisation of validateName (at least two characters, each an ASCII letter or a space) holds iff the regex matches |
| Validators.ValidateNameAcceptsBlank | frontend/src/utils/validateInput.js:16 | a name of spaces only is accepted |
| Validators.ValidateQRCodeIsPattern | frontend/src/utils/validateInput.js:21-24 | the characterisation of validateQRCode (6 to 12 ASCII letters and digits) holds iff the regex matches |
| Validators.ValidateRollNumberIsPattern | frontend/src/utils/validateInput.js:27-30 | the characterisation of validateRollNumber (1 to 10 digits) holds iff the regex matches |
| Validators.ValidatePhoneIsPattern | frontend/src/utils/validateInput.js:33-36 | the characterisation of validatePhone (exactly 10 digits) holds iff the regex matches |
| Validators.PhoneIsRollNumber | frontend/src/utils/validateInput.js:28-34 | every accepted phone number is an accepted roll number |
| Validators.IsEmpty | frontend/src/utils/validateInput.js:39-41 | a value is empty iff it is absent or all whitespace |
| SignupForm.HandleChange | frontend/src/pages/Signup.new.jsx:53-67 | a change sets only the named field and clears only that field's error |
| SignupForm.ValidateForm | frontend/src/pages/Signup.new.jsx:69-98 | name fails iff it is blank after trimming; email is 'required' when empty and otherwise 'invalid' iff the loose test fails; rollNumber fails iff empty, untrimmed; password fails iff shorter than 6, with 'required' when empty; confirmation fails iff it differs from the password |
| SignupForm.FormValidIff | frontend/src/pages/Signup.new.jsx:96-97 | the form is valid iff every field check passes |
| SignupForm.BlankRollNumberPasses | frontend/src/pages/Signup.new.jsx:82-84 | a roll number of one space raises no error |
| SignupForm.HandleSubmit | frontend/src/pages/Signup.new.jsx:100-133 | an invalid form shows its errors and sends nothing; a valid one sends the form without the confirmation, then goes to /login iff registration succeeded, or shows the error or 'Registration failed' |
| SignupForm.PayloadDeterminesForm | frontend/src/pages/Signup.new.jsx:108 | the payload holds every field but the confirmation, so the submitted form can be rebuilt from it |
| SignupForm.Call | frontend/src/pages/Signup.new.jsx:48 | calling a function returns its answer; calling any other value throws a TypeError |
| SignupForm.MountAsWritten | frontend/src/pages/Signup.new.jsx:47-51 | as written, the mount effect throws iff `isAuthenticated` is not a function, and goes home iff it is a function answering true |
| SignupForm.MountAlwaysThrows | frontend/src/pages/Signup.new.jsx:47-51 | with `isAuthenticated` the boolean the hook returns, the page throws on mount whether or not anyone is signed in (with frontend/src/hooks/useAuth.jsx:203) |
| SignupForm.Mount | frontend/src/pages/Signup.new.jsx:47-51 | reading the flag, the effect never throws and goes home iff someone is signed in |
| SignupForm.MountRedirectsSignedIn | frontend/src/pages/Signup.new.jsx:47-51 | reading the flag the hook returns, a signed-in user goes home and a visitor stays; this is what the written effect does when given a function |
| StudentSignupForm.HandleChange | frontend_new/src/pages/Signup.jsx:35-49 | a change sets only the named field and blanks only that field's error |
| StudentSignupForm.ValidateForm | frontend_new/src/pages/Signup.jsx:51-92 | exactly the fields whose rule fails get an entry, holding that rule's message |
| StudentSignupForm.RequiredFieldRules | frontend_new/src/pages/Signup.jsx:54-80 | name, rollNumber and class fail iff blank after trimming; email is 'required' when empty and otherwise fails iff the loose test fails; password is 'required' when empty and fails iff shorter than 6; confirmation fails iff it differs |
| StudentSignupForm.OptionalFieldRules | frontend_new/src/pages/Signup.jsx:82-88 | phone fails iff non-empty and not 10 digits; parentEmail fails iff non-empty and failing the loose test; the role is never checked |
| StudentSignupForm.FormValidIff | frontend_new/src/pages/Signup.jsx:90-91 | the form is valid iff every field check passes |
| StudentSignupForm.HandleSubmit | frontend_new/src/pages/Signup.jsx:94-105 | an invalid form shows its errors and sends nothing; a valid one registers and goes to the dashboard iff registration succeeded |
| StudentSignupForm.PayloadDeterminesForm | frontend_new/src/pages/Signup.jsx:99 | the payload holds every field but the confirmation, so the submitted form can be rebuilt from it |
| LoginForm.HandleChange | frontend_new/src/pages/Login.jsx:28-42 | a change sets only the named field and blanks only that field's error |
| LoginForm.ValidateForm | frontend_new/src/pages/Login.jsx:44-61 | email is 'required' when empty and otherwise 'invalid' iff the loose test fails; password is 'required' when empty and otherwise fails iff shorter than 6 |
| LoginForm.FormValidIff | frontend_new/src/pages/Login.jsx:59-60 | the form is valid iff the email passes the loose test and the password has at least 6 characters |
| LoginForm.HandleSubmit | frontend_new/src/pages/Login.jsx:63-73 | login is called iff the form is valid, with the form's email and password, and the page goes to the dashboard iff it succeeded |
| ResetPassword.Mount | frontend/src/pages/ResetPassword.jsx:45-66 | without a token the link is invalid and no request is made; with one, the link stays valid only if the check returns valid, and loading ends |
| ResetPassword.Submit | frontend/src/pages/ResetPassword.jsx:68-120 | a reset is requested iff both fields are filled, the password has at least 6 characters and the two match; otherwise only the first problem is shown; success sets isSuccess and schedules the redirect; failure shows the reply's error, the thrown message, or the defaults |
| ResetPassword.FirstProblemOrder | frontend/src/pages/ResetPassword.jsx:75-88 | some problem is reported iff a field is empty, the password is too short or they differ, and the checks apply in that order |
| ResetPassword.FailureShowsMessage | frontend/src/pages/ResetPassword.jsx:111-116 | a request that does not succeed always leaves a non-empty error |
| ResetPassword.ServerTokenDecides | frontend/src/pages/ResetPassword.jsx:45-66 | with a hook that asks the server, a link is valid iff the server accepts its token |
| ResetPassword.ProvidedHookRejectsEveryLink | frontend/src/pages/ResetPassword.jsx:40-93 | with the hook as written, every link is marked invalid and every valid submission fails with 'resetPassword is not a function' (with frontend/src/hooks/useAuth.jsx:195-204) |
| ForgotPassword.Submit | frontend/src/pages/ForgotPassword.jsx:35-73 | an empty email asks for one and a failing loose test asks for a valid one, without a request; otherwise the request is sent with the error cleared, and success sets isSubmitted while failure shows the reply's error, the thrown message, or the defaults |
| ForgotPassword.LooseShapeIsSent | frontend/src/pages/ForgotPassword.jsx:44 | an address with two '@' passes the check and is sent |
| ForgotPassword.Edit | frontend/src/pages/ForgotPassword.jsx:211-214 | editing the email sets it and clears the error |
| ForgotPassword.RefusalThenEdit | frontend/src/pages/ForgotPassword.jsx:39-214 | a refused submission shows an error that the next edit clears |
| ForgotPassword.ProvidedHookNeverSubmits | frontend/src/pages/ForgotPassword.jsx:31-53 | with the hook as written, no submission succeeds, and a well-shaped address shows 'resetPassword is not a function' (with frontend/src/hooks/useAuth.jsx:195-204) |
| ForgotPassword.ServerReplySubmits | frontend/src/pages/ForgotPassword.jsx:49-57 | with a hook that passes the server's answer on, a well-shaped address the server accepts is submitted with no error |
| ProfileForm.Load | frontend/src/pages/Profile.jsx:40-48 | loading a user sets name and email to the user's, or '' when falsy, and leaves the password fields alone |
| ProfileForm.Cancel | frontend/src/pages/Profile.jsx:237-247 | cancel stops editing, restores name and email from the user and clears the three password fields |
| ProfileForm.Submit | frontend/src/pages/Profile.jsx:58-104 | no update is sent iff a new password differs from its confirmation; the payload always has the name and never the email, and carries the two passwords iff a current password is given; success stops editing and clears the password fields; failure shows the message |
| ProfileForm.NewPasswordWithoutCurrentDropped | frontend/src/pages/Profile.jsx:71-74 | a new password without the current one is silently left out of the update |
| ProfileForm.SuccessThenCancelIsLoad | frontend/src/pages/Profile.jsx:86-247 | after a successful update of a form loaded from the user, cancel changes nothing |
| Session.WithRole | frontend/src/hooks/useAuth.jsx:56-88 | the stored user keeps every field of the reply's user and has role set to the reply's role, or to 'student' when that is falsy |
| Session.FetchProfile | frontend/src/hooks/useAuth.jsx:50-71 | loading ends; a successful reply sets the user with the role defaulted; any other outcome removes the token, clears the user and shows the session-expired toast |
| Session.Mount | frontend/src/hooks/useAuth.jsx:40-47 | with a stored token the profile is fetched; without one only loading ends |
| Session.Login | frontend/src/hooks/useAuth.jsx:74-103 | login succeeds iff the reply has success, a token and a user; success stores that token and sets the user with the role defaulted; failure returns the default message and keeps the user; loading ends either way |
| Session.LoginFailureIgnoresServerMessage | frontend/src/hooks/useAuth.jsx:93-97 | the failure message never depends on the server's, since the interceptor's rejection has no `response` (with frontend/src/services/api.js:53-54) |
| Session.TokenStoredOnFailedLogin | frontend/src/hooks/useAuth.jsx:81-88 | a reply with success and a token but no user stores the token and still reports failure |
| Session.Register | frontend/src/hooks/useAuth.jsx:106-127 | as written, registration always fails with 'Failed to register. Please try again.', leaving the user and the storage alone |
| Session.SignupNeverCompletes | frontend/src/hooks/useAuth.jsx:111 | as written, no signup ever reaches the login page (with frontend/src/pages/Signup.new.jsx:100-133) |
| Session.RegisterSent | frontend/src/hooks/useAuth.jsx:106-127 | with the request sent through `axios` itself, which keeps the error response, registration succeeds iff the server accepts it; an HTTP refusal shows the server's message or the default, an accepted failure shows the default, and nobody is signed in |
| Session.SentRegistrationCompletesSignup | frontend/src/hooks/useAuth.jsx:113-115 | with the request sent, a valid form the server accepts reaches the login page (with frontend/src/pages/Signup.new.jsx:111-119) |
| Session.MergeUser | frontend/src/hooks/useAuth.jsx:138-142 | the merged user has every field of the reply's user over the previous user's, with the reply's role when truthy and the previous one otherwise |
| Session.UpdateProfile | frontend/src/hooks/useAuth.jsx:130-157 | a successful reply merges the user; an unsuccessful or rejected one rethrows with the user unchanged; loading ends |
| Session.UpdateKeepsRole | frontend/src/hooks/useAuth.jsx:141 | an update whose user has no role keeps the previous role |
| Session.Logout | frontend/src/hooks/useAuth.jsx:189-193 | logout removes the token, clears the user and navigates to /login |
| Session.LogoutLoginCycle | frontend/src/hooks/useAuth.jsx:74-203 | logging out twice is logging out once, and a good login after a logout authenticates |
| ApiClient.InjectToken | frontend/src/services/api.js:17-24 | the Authorization header becomes 'Bearer ' and the token iff a token is stored; every other header is unchanged |
| ApiClient.InjectedTokenReadsBack | frontend/src/services/api.js:21 | the token can be read back from the header |
| ApiClient.Intercept | frontend/src/services/api.js:31-56 | responses pass unchanged; no response maps to the network-error message; a 401 maps to 'Session expired…' and clears the token and goes to /login unless already there; any other status maps to the server's message or the default, with the status |
| ApiClient.RejectionWellFormed | frontend/src/services/api.js:35-54 | every rejection has a non-empty message, and it carries a status iff the failure had one other than 401 |
| ApiClient.UnauthorizedSettles | frontend/src/services/api.js:43-50 | a 401 always leaves the browser at /login, and a second 401 changes nothing |
| AppGuard.ProtectedRoute | frontend/src/App.jsx:24-40 | the loading box shows iff loading; no user redirects to /login; a truthy requiredRole other than the user's redirects to /unauthorized; otherwise the children render |
| AppGuard.GuardAdmits | frontend/src/App.jsx:35-39 | without a required role any signed-in user gets the page; with one, the user gets it iff the roles are equal |
| AppGuard.RoutesDisjoint | frontend/src/App.jsx:64-138 | no path matches two declared routes, so the first match is the only one |
| Paths.ApartDisjoint | frontend/src/App.jsx:64-138 | two patterns of different lengths, or whose first literals differ in length or first letter, never match the same path (also used for frontend_new/src/App.jsx:52-86) |
| AppGuard.Show | frontend/src/App.jsx:62-139 | a path matching no declared route shows the not-found page |
| AppGuard.FirstMatchIs | frontend/src/App.jsx:64-138 | a route that matches with none before it is the one chosen |
| AppGuard.LoginAndSignupUnguarded | frontend/src/App.jsx:64-65 | /login and /signup render their pages whatever the session |
| AppGuard.RecoveryPagesUnguarded | frontend/src/App.jsx:66-67 | /forgot-password and /reset-password/:token render their pages whatever the session |
| AppGuard.TeacherDashboardTeacherOnly | frontend/src/App.jsx:35-135 | /teacher/dashboard renders only for the role 'teacher'; anyone else signed in is redirected to /unauthorized |
| AppGuard.UnauthorizedShowsNotFound | frontend/src/App.jsx:35-138 | no route declares /unauthorized, so the redirect target shows the not-found page |
| AuthReducer.Spread | frontend_new/src/context/Auth.jsx:27 | the spread user has the keys of both, with the update's values winning |
| AuthReducer.Reduce | frontend_new/src/context/Auth.jsx:6-31 | LOGIN_START sets loading and clears the error; LOGIN_SUCCESS sets user and token, ends loading and clears the error; LOGIN_FAILURE ends loading and sets the error; LOGOUT clears user, token and error only; CLEAR_ERROR and SET_LOADING change one field; UPDATE_USER merges into the user only; an unknown action changes nothing |
| AuthReducer.ClearErrorIdempotent | frontend_new/src/context/Auth.jsx:22-23 | clearing the error twice is clearing it once |
| AuthReducer.LogoutForgetsSession | frontend_new/src/context/Auth.jsx:20-21 | logout gives the same state from any two states with the same loading flag, signed out |
| AuthReducer.UnknownActionsIgnored | frontend_new/src/context/Auth.jsx:28-29 | an unknown action in front of a run of actions changes nothing |
| AuthReducer.UpdateWhileSignedOut | frontend_new/src/context/Auth.jsx:27 | updating the user while signed out makes the update the user |
| AuthReducer.FailedAttemptKeepsSession | frontend_new/src/context/Auth.jsx:8-19 | LOGIN_START then LOGIN_FAILURE keeps user and token, ends loading and sets the error |
| AuthReducer.Initial | frontend_new/src/context/Auth.jsx:34-39 | the first state is loading, signed out, with the stored token |
| AuthReducer.CheckAuth | frontend_new/src/context/Auth.jsx:42-61 | loading always ends; without a token nothing else changes; a profile signs in with the stored token; a failure removes the token and logs out |
| AuthReducer.SignIn | frontend_new/src/context/Auth.jsx:63-99 | sign-in succeeds iff the request returns; success stores the token and sets user and token; failure keeps user, token and storage and reports the server's message or the default |
| AuthReducer.Login | frontend_new/src/context/Auth.jsx:76 | a failed login without a server message reports 'Login failed' |
| AuthReducer.Register | frontend_new/src/context/Auth.jsx:95 | a failed registration without a server message reports 'Registration failed' |
| AuthReducer.LogoutFlow | frontend_new/src/context/Auth.jsx:101-111 | logout removes the stored token and signs out, leaving loading alone |
| AuthReducer.MissingTokenIsStored | frontend_new/src/context/Auth.jsx:44-69 | a reply without a token stores the string "undefined", which the next start takes for a token |
| AuthReducer.LoginThenLogout | frontend_new/src/context/Auth.jsx:63-111 | logging in and then out ends signed out, with storage cleared |
| NewAppGuard.ProtectedRoute | frontend_new/src/App.jsx:14-42 | the loading screen shows iff loading; no user redirects to /login; a non-empty allowedRoles without the user's role redirects to /dashboard; otherwise the children render |
| NewAppGuard.GuardAdmits | frontend_new/src/App.jsx:37-41 | an empty allowedRoles admits any signed-in user; a non-empty one admits exactly the listed roles |
| NewAppGuard.RoutesDisjoint | frontend_new/src/App.jsx:52-86 | no path matches two declared routes, so the first match is the only one |
| NewAppGuard.Show | frontend_new/src/App.jsx:51-87 | a path renders nothing iff it matches no route; every redirect goes to /login, or to /dashboard for a signed-in user |
| NewAppGuard.FirstMatchIs | frontend_new/src/App.jsx:52-86 | a route that matches with none before it is the one chosen |
| NewAppGuard.LiteralRoute | frontend_new/src/App.jsx:52-85 | a one-segment path equal to a route's literal selects that route |
| NewAppGuard.RedirectTargetsShow | frontend_new/src/App.jsx:52-61 | /login always renders, and /dashboard renders for a signed-in user |
| NewAppGuard.NoRedirectLoop | frontend_new/src/App.jsx:34-86 | every redirect leads to a page that renders |
| NewAppGuard.AttendanceStudentOnly | frontend_new/src/App.jsx:62-69 | /attendance renders for a student and redirects everyone else to /dashboard |
| NewAppGuard.TeacherPageForStaff | frontend_new/src/App.jsx:70-77 | /teacher renders for a teacher or an admin and redirects everyone else to /dashboard |
| NewAppGuard.ReportForSignedIn | frontend_new/src/App.jsx:78-83 | /report renders for any signed-in user |
| NewAppGuard.RootRedirectsToLogin | frontend_new/src/App.jsx:86 | / is matched by its own route, which redirects to /login whatever the session |
| AttendanceWizard.ScanProblem | frontend_new/src/pages/Attendance.jsx:18-48 | a scan passes iff it parses, has a truthy code, teacherId and class, has not expired (now after expiresAt; a missing expiry never expires) and is for the user's class; otherwise the first failing check, in that order, names the message |
| AttendanceWizard.HandleScan | frontend_new/src/pages/Attendance.jsx:18-48 | a failing scan sets only the error; a passing one stores the scanned code, teacher and class, moves to step 2 and clears the error |
| AttendanceWizard.CaptureSelfie | frontend_new/src/pages/Attendance.jsx:51-54 | a selfie is stored and the wizard moves to step 3 |
| AttendanceWizard.BackToSelfie | frontend_new/src/pages/Attendance.jsx:203-204 | the back button returns to step 2 keeping the data |
| AttendanceWizard.Submit | frontend_new/src/pages/Attendance.jsx:57-89 | nothing is sent iff QR data or the selfie is missing, which sets 'Missing required data'; otherwise the payload carries the code as qrCodeUsed, the class, the selfie, the user agent and 'present'; step 4 is reached iff the reply has success; failures show the reply's message or the default |
| AttendanceWizard.Reset | frontend_new/src/pages/Attendance.jsx:92-98 | reset returns to step 1 and clears the QR data, selfie, error and success message |
| AttendanceWizard.HappyPath | frontend_new/src/pages/Attendance.jsx:18-89 | a good scan, a selfie and an accepted submission reach step 4 having sent the scanned code |
| AttendanceWizard.RetryAfterBadScan | frontend_new/src/pages/Attendance.jsx:23-98 | a failed scan does not stop a later good scan from working, and reset undoes a good scan |
| AttendanceWizard.AsReceived | frontend_new/src/pages/Attendance.jsx:67-73 | the server finds no qrCode in the wizard's body, and reads its class, selfie and device (with backend/controller/attendance.js:8, 30) |
| AttendanceWizard.WizardNeverMarks | frontend_new/src/pages/Attendance.jsx:68 | taking both sides as written, no submission of the wizard is ever recorded (with backend/controller/attendance.js:8, 31) |
| AttendanceWizard.AsIntended | frontend_new/src/pages/Attendance.jsx:67-73 | the corrected body carries the scanned code under `qrCode`, with the class, selfie and device as sent |
| AttendanceWizard.IntendedWizardMarks | frontend_new/src/pages/Attendance.jsx:57-89 | with the code sent as `qrCode`, a submission is recorded iff the browser's agent is a device registered to the caller, the code and agent are non-empty and the new id is free; the record keeps the scanned code and class (with backend/controller/attendance.js:8-35) |
| TeacherSession.CodeNumber | frontend_new/src/pages/TeacherDashboard.jsx:18 | for any random value in [0, 1) the number lies in 100000..999999 |
| TeacherSession.GenerateCode | frontend_new/src/pages/TeacherDashboard.jsx:17-20 | the code is six decimal digits, not starting with 0, whose value lies in 100000..999999 |
| TeacherSession.MakePayload | frontend_new/src/pages/TeacherDashboard.jsx:25-31 | the payload carries the code, the teacher, the selected class, the time, and an expiry 60000 ms later |
| TeacherSession.Scanned | frontend_new/src/pages/TeacherDashboard.jsx:33 | a student's scan of the payload parses to the code, teacher, class and expiry it carries (with frontend_new/src/pages/Attendance.jsx:20) |
| TeacherSession.FreshCodeAcceptedForOneMinute | frontend_new/src/pages/TeacherDashboard.jsx:25-31 | a fresh code for the student's class passes the scan checks iff the scan is at most 60000 ms after issue (with frontend_new/src/pages/Attendance.jsx:29-40) |
| TeacherSession.MissingTeacherIdRejected | frontend_new/src/pages/TeacherDashboard.jsx:27 | a payload without a teacher id fails with 'Invalid QR code format' (with frontend_new/src/pages/Attendance.jsx:23-26) |
| TeacherSession.StartAttendance | frontend_new/src/pages/TeacherDashboard.jsx:51-87 | without a class the alert is shown and nothing changes; a failed render alerts and changes nothing; otherwise the session is active with 60 seconds, a six-digit code, a payload for the class expiring 60000 ms later, and one more live interval |
| TeacherSession.FireEach | frontend_new/src/pages/TeacherDashboard.jsx:68-79 | live intervals firing never add intervals and never change the selected class |
| TeacherSession.StopAttendance | frontend_new/src/pages/TeacherDashboard.jsx:90-95 | stop makes the session inactive, clears the code and QR and sets the time to 0, and leaves the live intervals running |
| TeacherSession.StopAndClear | frontend_new/src/pages/TeacherDashboard.jsx:90-95 | the corrected stop is the stop as written with no interval left running |
| TeacherSession.CountdownWithOneTimer | frontend_new/src/pages/TeacherDashboard.jsx:68-79 | with one interval each tick takes one second off until the last, which ends the session, clears code and QR and clears the interval |
| TeacherSession.SessionLastsOneMinute | frontend_new/src/pages/TeacherDashboard.jsx:62-79 | a session started from rest is still active after 59 ticks with one second left, and over after 60 with no interval left |
| TeacherSession.CountdownWithTwoTimers | frontend_new/src/pages/TeacherDashboard.jsx:68-79 | with two live intervals the countdown runs at double speed |
| TeacherSession.RestartRunsDoubleSpeed | frontend_new/src/pages/TeacherDashboard.jsx:68-95 | as written, stop then start leaves two intervals, and the new session ends after 30 seconds |
| TeacherSession.RestartAfterClearLastsOneMinute | frontend_new/src/pages/TeacherDashboard.jsx:68-95 | if stop also clears the interval, a restarted session lasts exactly 60 ticks |
| TeacherSession.Pad2 | frontend_new/src/pages/TeacherDashboard.jsx:101 | `padStart(2, '0')` leaves text of two or more characters alone and otherwise prefixes zeros up to two characters |
| TeacherSession.SecondsFieldHasTwoDigits | frontend_new/src/pages/TeacherDashboard.jsx:100-101 | the seconds field is two digits whose value is the seconds |
| TeacherSession.FormatTimeRoundTrip | frontend_new/src/pages/TeacherDashboard.jsx:98-102 | reading minutes and the two-digit seconds back from the formatted time gives the number of seconds |
| Delimited.SplitJoin | frontend_new/src/pages/Report.jsx:135-145 | splitting a join at its separator gives the parts back when no part holds the separator |
| Delimited.PlainCellsReadBack | frontend_new/src/pages/Report.jsx:137-144 | a CSV line of cells holding neither comma nor quote reads back as those cells |
| Delimited.QuotedCellsReadBack | frontend_new/src/pages/Report.jsx:137-144 | a CSV line of quoted cells reads back as those cells, commas included, when none holds a quote |
| Report.Select | frontend_new/src/pages/Report.jsx:56-76 | `filter` keeps exactly the records satisfying the predicate, each from the input |
| Report.SelectCongruent | frontend_new/src/pages/Report.jsx:56-76 | predicates that agree on every record keep the same records |
| Report.SelectTwice | frontend_new/src/pages/Report.jsx:55-77 | filtering twice is filtering once by the conjunction |
| Report.SelectEverything | frontend_new/src/pages/Report.jsx:53 | a predicate every record satisfies keeps the list as it is |
| Report.FiltersAreConjunctive | frontend_new/src/pages/Report.jsx:52-81 | the filtered list is the order-preserving selection of the records that satisfy every non-empty filter: on or after dateFrom, on or before dateTo, exactly the class, exactly the status |
| Report.ClearFilters | frontend_new/src/pages/Report.jsx:107-114 | all four filters become empty |
| Report.ClearedFiltersKeepAll | frontend_new/src/pages/Report.jsx:53-114 | with cleared filters the result is the whole list |
| Report.ChangeFilter | frontend_new/src/pages/Report.jsx:99-105 | a change sets the named filter and keeps the other three |
| Report.CountStatus | frontend_new/src/pages/Report.jsx:85-87 | the count of a status is at most the number of records, 0 iff no record has the status, and 1 or 0 for a single record as its status matches or not |
| Report.SelectEmptyIff | frontend_new/src/pages/Report.jsx:56-76 | the selection is empty iff no record satisfies the predicate |
| Report.SelectAppend | frontend_new/src/pages/Report.jsx:56-76 | filtering two lists joined is joining the two filtered lists |
| Report.CountStatusAppend | frontend_new/src/pages/Report.jsx:85-87 | the count of a status over two lists joined is the sum of the two counts, so with the single-record case it counts exactly the matching records |
| Report.CountsWithinTotal | frontend_new/src/pages/Report.jsx:84-87 | the present, absent and late counts add up to at most the number of records |
| Report.Rate | frontend_new/src/pages/Report.jsx:88 | the rate is 0 without records; otherwise it is 100·present/total rounded to the nearest integer, halves up, and lies in 0..100 |
| Report.RateExtremes | frontend_new/src/pages/Report.jsx:88 | everyone present gives 100 and nobody present gives 0 |
| Report.CalculateStats | frontend_new/src/pages/Report.jsx:83-97 | the total is the number of records; the present, absent and late figures are the counts of their statuses and add up to at most the total; the rate is the rounded percentage of present over total, 0 without records |
| Report.StatusColor | frontend_new/src/pages/Report.jsx:124-131 | present, absent and late map to 'status-' followed by the status; anything else maps to 'status-unknown' (with frontend_new/src/pages/Dashboard.jsx:68-75) |
| Report.StatusColorSeparates | frontend_new/src/pages/Report.jsx:124-131 | the three known statuses get three different classes, none of them 'status-unknown' |
| Report.RowCells | frontend_new/src/pages/Report.jsx:137-144 | a row has one cell per header column: the formatted date, the class, the student's name or 'Unknown' when it is absent or empty, the status, the QR code, and 'Yes' iff the record is verified, otherwise 'No' |
| Report.CsvLines | frontend_new/src/pages/Report.jsx:133-145 | the CSV has the header line and then one line per filtered record, in order |
| Report.CsvLineStructure | frontend_new/src/pages/Report.jsx:133-145 | when no cell holds a newline, splitting the file at newlines gives the header and one line per record |
| Report.HeaderHasSixColumns | frontend_new/src/pages/Report.jsx:134 | the header line reads back as its six names |
| Report.DigitsArePlain | frontend_new/src/pages/Report.jsx:117-121 | digits never need quoting in a CSV cell |
| Report.DateSplitsRow | frontend_new/src/pages/Report.jsx:116-144 | as written, a row whose date formats as 'Mon D, YYYY' reads back as seven cells, the first of them only 'Mon D' |
| Report.QuotedRowReadsBack | frontend_new/src/pages/Report.jsx:133-145 | with every cell quoted, a row reads back as its six cells |
| Dashboard.Summarize | frontend_new/src/pages/Dashboard.jsx:32-44 | totalDays is the number of records; presentDays, absentDays and lateDays are the counts of their statuses and add up to at most it; the percentage is the rounded percentage of present over total, 0 without records |
| Dashboard.Recent | frontend_new/src/pages/Dashboard.jsx:47 | the recent list is a prefix of the history of length min(10, n) |
| Dashboard.Fetch | frontend_new/src/pages/Dashboard.jsx:22-58 | loading ends; a student's page is filled from the history; anyone else's keeps its figures and shows today's records; a failed request changes nothing else |
| Dashboard.SameFiguresAsReport | frontend_new/src/pages/Dashboard.jsx:32-36 | the dashboard's student figures equal the report's statistics over the same records (with frontend_new/src/pages/Report.jsx:84-88) |
| Dashboard.RecentShowsFirstTen | frontend_new/src/pages/Dashboard.jsx:47 | up to ten records are all shown; beyond that the first ten in order |
| Dashboard.AllPresentIsHundred | frontend_new/src/pages/Dashboard.jsx:33-36 | a history of present records only scores 100 with no absent or late days |
| Dashboard.FetchIdempotent | frontend_new/src/pages/Dashboard.jsx:22-58 | fetching again with the same replies gives the same page |
| Dashboard.ReadAsWritten | frontend_new/src/pages/Dashboard.jsx:29-35 | as written, reading the wrapped history always throws, keeping the request's own message when it failed (with backend/controller/attendance.js:85) |
| Dashboard.ReadHistory | backend/controller/attendance.js:85 | reading the list from the wrapper returns exactly the records the server sent |
| Dashboard.WrappedHistoryShowsNothing | frontend_new/src/pages/Dashboard.jsx:28-57 | as written, a student's dashboard keeps its previous figures whatever the server returns |
| Dashboard.HistoryShowsFigures | frontend_new/src/pages/Dashboard.jsx:32-47 | reading the wrapped list, a student sees the figures and first records of exactly the history sent |
| Dashboard.TodayListNeverArrives | frontend_new/src/pages/Dashboard.jsx:50-51 | the staff view's request for today is served by getAttendanceById("today"), which answers 500, so the page keeps its list (with backend/routes/attendance.js:19, 23; backend/controller/attendance.js:64) |

## Left out

- Rendering is not modelled: layout, toasts, the camera, QR drawing and React's scheduling. Each page is reduced to its state changes and the requests it sends.
- Foreign code is a parameter: bcrypt hashing and comparison, SHA-256, JWT signing and checking, `new Date` parsing, `toLocaleDateString`, `Math.random`, and every network reply. Their own behaviour is not modelled.
- Mongoose is modelled only as far as the handlers rely on it. `populate`, timestamps, connection handling, middleware order and rate limiting are left out. The JWT `protect` middleware is not part of this model; a caller is an authenticated id.
- Mongo.CastId: only the text form of an ObjectId, 24 hex digits in either case, is cast. Other values Mongoose may also accept as an id, such as a 12-byte value, are treated as malformed, so the model answers 500 where the source might look them up.
- AttendanceController.UpdateAttendance: of the body's values only `userId` is cast. The other paths are modelled already typed (a date in milliseconds, a boolean `verified`), so a cast failure on them, which would also give 500, is not modelled.
- AttendanceController.StartOfDay: `setHours(0, 0, 0, 0)` works in the server's local time zone, which is modelled as a fixed offset from UTC. A daylight-saving change, which makes a local day 23 or 25 hours long, is not modelled.
- AttendanceController.EndOfDay: `setHours(23, 59, 59, 999)` is modelled as the start of day plus a day less a millisecond, in the same fixed-offset zone. On a daylight-saving day the source's end of day differs from this by the hour the clock moves.
- Text.Lower: `toLowerCase` is modelled for the ASCII letters A-Z only. Other letters with a lower-case form, such as accented Latin, Greek or Cyrillic capitals, are left unchanged by the model.
- UserModel.NormalizeEmail: it lower-cases through `Text.Lower`, so it folds only ASCII letters. Two addresses that differ only in a non-ASCII capital are distinct here but equal in the source.
- Lengths: a `string` here is a sequence of Unicode scalar values, while JavaScript's `length`, the regular expressions' `.` and `padStart` count UTF-16 code units. The two agree on text without characters outside the Basic Multilingual Plane. On other text the password minimum of 6 and the `.{8,}` of validatePassword count differently.
- AppGuard.Show: it describes the routes frontend/src/App.jsx declares as a single router would show them. As written, frontend/src/main.jsx:11 wraps `App` in a `BrowserRouter`, and App.jsx:61 renders its own `BrowserRouter` (imported as `Router`) inside it. React Router version 6, whose `Routes` and `element` interface App.jsx uses, refuses a router inside another one and throws, so the first client renders no page at all. The router library is not part of this model, so this is stated here and not proved.
- A record without a `deviceId` matches no registered device. This follows the query on an absent field as the handler builds it.
- The selfie upload and face-verification layer has no code behind it in the source, so `verified` is only ever the stored flag.
- frontend_new/src/hooks/useAuth.jsx is not part of this model. Signup.jsx and Login.jsx of `frontend_new/` are modelled through their form checks and the `AuthReducer` flows.
- `changePassword` of frontend/src/hooks/useAuth.jsx:160-187 is left out: the hook does not return it, so no page can call it.
- Report.jsx reads `response.data` as the list, as Dashboard.jsx does, while the server wraps the list (backend/controller/attendance.js:54, 85). `Report` is stated over record lists and the wrapper is modelled only for the dashboard.
- Report.Rate: `Math.round` on a floating-point quotient is modelled as exact rounding with halves up. Binary floating-point error at a half is not modelled.
- Report.FiltersAreConjunctive: dates are compared as whole milliseconds, with both ends inclusive. The inputs' own day boundaries come from the date-parsing parameter.
- AttendanceWizard.ScanProblem: text that parses to JSON `null` fails at its first field access. It is folded into `Unparseable`, which shows the same message.
- TeacherSession.MakePayload: TeacherDashboard.jsx:29-30 reads the clock twice, once for `timestamp` and once for `expiresAt`. The model uses one reading for both, so the expiry is exactly 60000 ms after the timestamp. The scanning page reads only `expiresAt` (frontend_new/src/pages/Attendance.jsx:30), so nothing it checks depends on this.
- TeacherSession.Fire: its contract restates its body, so it has no row; the countdown lemmas state what it does over time.
- Dashboard.TodayListNeverArrives covers the staff view only as far as the request: the route table serves it with the by-id handler, so the list is never shown.

## Findings

| source | as written | input that shows it | evidently intended | confidence | as-written member | corrected member |
|---|---|---|---|---|---|---|
| frontend/src/hooks/useAuth.jsx:111 | `register` calls `axios.post`, but the file never imports `axios`, so every call throws a ReferenceError that the hook reports as a failed registration | any registration from Signup.new.jsx | post the form with `axios` imported, so the server's verdict decides and a success leads to the login page, with nobody signed in | not executed | Session.SignupNeverCompletes | Session.SentRegistrationCompletesSignup |
| frontend/src/pages/ResetPassword.jsx:40, frontend/src/hooks/useAuth.jsx:195-204 | the page takes `validateResetToken` and `resetPassword` from the hook, which offers neither, so every link is reported invalid | any reset link with a token | the hook asks the server and passes its verdict on | not executed | ResetPassword.ProvidedHookRejectsEveryLink | ResetPassword.ServerTokenDecides |
| frontend/src/pages/ForgotPassword.jsx:31, frontend/src/hooks/useAuth.jsx:195-204 | the page takes `resetPassword` from the hook, which does not offer it, so no request is ever made | any well-shaped address, for example `a@b.co` | the hook sends the request and passes on the server's answer | not executed | ForgotPassword.ProvidedHookNeverSubmits | ForgotPassword.ServerReplySubmits |
| frontend_new/src/pages/TeacherDashboard.jsx:68-79, 90-95 | `stopAttendance` does not clear the interval that `startAttendance` created, so a restarted session has two intervals counting it down | start, stop, then start again before the stale interval's next tick | stop clears the interval and every session lasts one minute | not executed | TeacherSession.RestartRunsDoubleSpeed | TeacherSession.RestartAfterClearLastsOneMinute |
| frontend_new/src/pages/Report.jsx:116-122, 133-145 | cells are joined with commas unquoted, and the en-US date `Mon D, YYYY` holds a comma, so every row has seven cells under a six-column header | any record, for example one dated Jan 5, 2024 | every cell is quoted, so each row reads back as its six cells | not executed | Report.DateSplitsRow | Report.QuotedRowReadsBack |
| frontend_new/src/pages/Dashboard.jsx:28-35, backend/controller/attendance.js:85 | the dashboard calls `filter` on `response.data`, which is the server's wrapper object `{ success, attendanceHistory }`, so it throws and the student's figures never appear | any student with at least one record | read the list from `response.data.attendanceHistory` | not executed | Dashboard.WrappedHistoryShowsNothing | Dashboard.HistoryShowsFigures |
| frontend/src/pages/Signup.new.jsx:47-51, frontend/src/hooks/useAuth.jsx:203 | the mount effect calls `isAuthenticated()`, but the hook returns `isAuthenticated` as the boolean `!!user`, so the call throws a TypeError and a signed-in user is never sent home | opening /signup, signed in or not | read the flag: `if (isAuthenticated) navigate('/')` | not executed | SignupForm.MountAlwaysThrows | SignupForm.MountRedirectsSignedIn |
| frontend_new/src/pages/Attendance.jsx:67-73, backend/controller/attendance.js:8 | the wizard sends the scanned code as `qrCodeUsed`, but the server reads `qrCode`, so the record it tries to create lacks the required `qrCodeUsed` (or the device check refuses first) and no submission is ever recorded | any submission with a scanned code and a selfie | send the code as `qrCode`, so a registered device's submission is recorded with the scanned code | not executed | AttendanceWizard.WizardNeverMarks | AttendanceWizard.IntendedWizardMarks |
