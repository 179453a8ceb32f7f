/** The mark-attendance wizard of the second frontend
    (frontend_new/src/pages/Attendance.jsx): step 1 scans the teacher's QR
    code, step 2 takes a selfie, step 3 submits, step 4 reports success.
    Times are milliseconds since the epoch. */
module AttendanceWizard {
  import opened Common
  import opened Mongo
  import opened DeviceModel
  import opened AttendanceController

  /** A QR text after `JSON.parse`: each field may be missing, and a
      missing or unparseable `expiresAt` is an invalid date. */
  datatype QrInfo = QrInfo(code: Option<string>, teacherId: Option<string>, className: Option<string>,
                           expiresAt: Option<int>)

  /** What the scanner hands over: text that is not JSON (or parses to
      null, which fails on the first field access the same way) or a parsed
      object. */
  datatype Scan = Unparseable | Parsed(info: QrInfo)

  /** The QR data kept once every check has passed. */
  datatype QrData = QrData(code: string, teacherId: string, className: string, expiresAt: Option<int>)

  datatype Wizard = Wizard(step: nat, qrData: Option<QrData>, selfieUrl: string, submitting: bool,
                           error: string, success: string)

  const Start := Wizard(1, None, "", false, "", "")

  const BadFormat := "Invalid QR code format"
  const Expired := "QR code has expired. Please ask your teacher for a new one."
  const WrongClass := "This QR code is not for your class"
  const Unreadable := "Invalid QR code. Please try again."
  const MissingData := "Missing required data"
  const Marked := "Attendance marked successfully!"
  const MarkFailed := "Failed to mark attendance"

  predicate WellFormedInfo(q: QrInfo) {
    Truthy(q.code) && Truthy(q.teacherId) && Truthy(q.className)
  }

  /** `now > new Date(expiresAt)`: an invalid date compares false, so a
      code without an expiry never expires. */
  predicate IsExpired(q: QrInfo, now: int) {
    q.expiresAt.Some? && now > q.expiresAt.value
  }

  /** `qrInfo.class !== user.class`. */
  predicate ForOtherClass(q: QrInfo, userClass: Option<string>) {
    q.className != userClass
  }

  /** The message of the first failing check, in the order parse, format,
      expiry, class; the empty string when all pass. */
  function ScanProblem(s: Scan, now: int, userClass: Option<string>): (r: string)
    ensures r == "" <==> s.Parsed? && WellFormedInfo(s.info) && !IsExpired(s.info, now)
                                   && !ForOtherClass(s.info, userClass)
    ensures s.Unparseable? ==> r == Unreadable
    ensures s.Parsed? && !WellFormedInfo(s.info) ==> r == BadFormat
    ensures s.Parsed? && WellFormedInfo(s.info) && IsExpired(s.info, now) ==> r == Expired
  {
    match s
    case Unparseable => Unreadable
    case Parsed(q) =>
      if !WellFormedInfo(q) then BadFormat
      else if IsExpired(q, now) then Expired
      else if ForOtherClass(q, userClass) then WrongClass
      else ""
  }

  /** handleQRScan: a failing check sets its message and nothing else; a
      passing scan stores the data, moves to step 2 and clears the error. */
  function HandleScan(w: Wizard, s: Scan, now: int, userClass: Option<string>): (r: Wizard)
    ensures ScanProblem(s, now, userClass) != "" ==> r == w.(error := ScanProblem(s, now, userClass))
    ensures ScanProblem(s, now, userClass) == "" ==>
              r.step == 2 && r.error == "" && r.selfieUrl == w.selfieUrl && r.success == w.success
    ensures ScanProblem(s, now, userClass) == "" ==>
              && r.qrData.Some? && Some(r.qrData.value.code) == s.info.code
              && Some(r.qrData.value.teacherId) == s.info.teacherId
              && Some(r.qrData.value.className) == s.info.className == userClass
  {
    var problem := ScanProblem(s, now, userClass);
    if problem != "" then w.(error := problem)
    else
      var q := s.info;
      w.(qrData := Some(QrData(q.code.value, q.teacherId.value, q.className.value, q.expiresAt)),
         step := 2, error := "")
  }

  /** Capturing a selfie moves to step 3. */
  function CaptureSelfie(w: Wizard, imageUrl: string): (r: Wizard)
    ensures r.step == 3 && r.selfieUrl == imageUrl
    ensures r.qrData == w.qrData && r.error == w.error
  {
    w.(selfieUrl := imageUrl, step := 3)
  }

  /** The "Back to Selfie" button. */
  function BackToSelfie(w: Wizard): (r: Wizard)
    ensures r.step == 2 && r.selfieUrl == w.selfieUrl && r.qrData == w.qrData
  {
    w.(step := 2)
  }

  /** The body the wizard posts. */
  datatype MarkPayload = MarkPayload(qrCodeUsed: string, className: string, selfieUrl: string,
                                     deviceId: string, status: string)

  /** The server's answer: `data.success` and `data.message`, or a thrown
      error with the server message (the empty string when absent). */
  datatype MarkReply = MarkReply(success: bool, message: Option<string>)

  /** submitAttendance: without QR data or a selfie nothing is sent;
      otherwise the payload is posted (`deviceId` is the browser's user
      agent) and the reply decides between step 4 and an error. Returns the
      wizard and the payload sent, if any. */
  function Submit(w: Wizard, userAgent: string, reply: Outcome<MarkReply>): (r: (Wizard, Option<MarkPayload>))
    ensures r.1.None? <==> w.qrData.None? || w.selfieUrl == ""
    ensures r.1.None? ==> r.0 == w.(error := MissingData)
    ensures r.1.Some? ==>
              r.1.value == MarkPayload(w.qrData.value.code, w.qrData.value.className, w.selfieUrl,
                                       userAgent, "present")
    ensures r.1.Some? ==> !r.0.submitting && r.0.qrData == w.qrData && r.0.selfieUrl == w.selfieUrl
    ensures r.1.Some? ==> (r.0.step == 4 <==> reply.Returned? && reply.value.success) || r.0.step == w.step == 4
    ensures r.1.Some? && reply.Returned? && reply.value.success ==> r.0.error == "" && r.0.success == Marked
    ensures r.1.Some? && reply.Returned? && !reply.value.success ==>
              r.0.error == OrElse(reply.value.message, MarkFailed)
    ensures r.1.Some? && reply.Threw? ==> r.0.error == MessageOr(reply.message, MarkFailed)
  {
    if w.qrData.None? || w.selfieUrl == "" then (w.(error := MissingData), None)
    else
      var q := w.qrData.value;
      var payload := MarkPayload(q.code, q.className, w.selfieUrl, userAgent, "present");
      var sending := w.(submitting := true, error := "");
      var after :=
        match reply
        case Returned(m) =>
          if m.success then sending.(success := Marked, step := 4)
          else sending.(error := OrElse(m.message, MarkFailed))
        case Threw(message) => sending.(error := MessageOr(message, MarkFailed));
      (after.(submitting := false), Some(payload))
  }

  /** resetForm. */
  function Reset(w: Wizard): (r: Wizard)
    ensures r.step == 1 && r.qrData.None? && r.selfieUrl == "" && r.error == "" && r.success == ""
    ensures r.submitting == w.submitting
  {
    w.(step := 1, qrData := None, selfieUrl := "", error := "", success := "")
  }

  /** The whole happy path from a fresh wizard: a good scan, a selfie and an
      accepted submission reach step 4 having posted the scanned code. */
  lemma HappyPath(q: QrInfo, now: int, userClass: Option<string>, imageUrl: string, userAgent: string,
                  message: Option<string>)
    requires WellFormedInfo(q) && !IsExpired(q, now) && !ForOtherClass(q, userClass) && imageUrl != ""
    ensures var w := CaptureSelfie(HandleScan(Start, Parsed(q), now, userClass), imageUrl);
            var (done, sent) := Submit(w, userAgent, Returned(MarkReply(true, message)));
            done.step == 4 && sent == Some(MarkPayload(q.code.value, q.className.value, imageUrl, userAgent, "present"))
  {
  }

  /** A failed scan leaves the wizard where it was, so scanning again with
      a good code still works; reset undoes any progress. */
  lemma RetryAfterBadScan(w: Wizard, bad: Scan, good: QrInfo, now: int, userClass: Option<string>)
    requires ScanProblem(bad, now, userClass) != ""
    requires WellFormedInfo(good) && !IsExpired(good, now) && !ForOtherClass(good, userClass)
    ensures HandleScan(HandleScan(w, bad, now, userClass), Parsed(good), now, userClass)
            == HandleScan(w, Parsed(good), now, userClass)
    ensures Reset(HandleScan(w, Parsed(good), now, userClass)) == Reset(w)
  {
  }

  /** The payload as markAttendance reads it: the server looks for `qrCode`
      and `class`, and the wizard sends the code as `qrCodeUsed`. */
  function AsReceived(p: MarkPayload): (r: MarkBody)
    ensures r.qrCode.None? && r.className == Some(p.className)
    ensures r.deviceId == Some(p.deviceId) && r.selfieUrl == Some(p.selfieUrl)
  {
    MarkBody(None, Some(p.selfieUrl), Some(p.deviceId), Some(p.className))
  }

  /** Taking both sides as written, no submission of the wizard is ever
      recorded: the server finds no `qrCode` in the body. */
  lemma WizardNeverMarks(w: Wizard, userAgent: string, reply: Outcome<MarkReply>,
                         l: Ledger, devices: seq<Device>, caller: Oid, newId: Oid, now: int)
    requires Submit(w, userAgent, reply).1.Some?
    ensures MarkAttendance(l, devices, caller, AsReceived(Submit(w, userAgent, reply).1.value), newId, now).1.Err?
  {
  }

  /** The payload with the code under the key the server reads. */
  function AsIntended(p: MarkPayload): (r: MarkBody)
    ensures r.qrCode == Some(p.qrCodeUsed) && r.className == Some(p.className)
    ensures r.deviceId == Some(p.deviceId) && r.selfieUrl == Some(p.selfieUrl)
  {
    MarkBody(Some(p.qrCodeUsed), Some(p.selfieUrl), Some(p.deviceId), Some(p.className))
  }

  /** Sending the code as `qrCode`, a submission is recorded exactly when the
      browser's agent is a device registered to the caller, the scanned code
      and the agent are non-empty and the new id is free; the record then
      keeps the scanned code, and the scanned class when there is one. */
  lemma IntendedWizardMarks(w: Wizard, userAgent: string, reply: Outcome<MarkReply>,
                            l: Ledger, devices: seq<Device>, caller: Oid, newId: Oid, now: int)
    requires Submit(w, userAgent, reply).1.Some?
    ensures var q := w.qrData.value;
            var r := MarkAttendance(l, devices, caller, AsIntended(Submit(w, userAgent, reply).1.value),
                                    newId, now);
            && (r.1.Ok? <==>
                  DeviceRegistered(devices, caller, Some(userAgent)) && q.code != "" && userAgent != ""
                  && !HasId(l, newId))
            && (r.1.Ok? ==> r.1.body.qrCodeUsed == q.code && r.1.body.deviceId == userAgent)
            && (r.1.Ok? && q.className != "" ==> r.1.body.className == q.className)
  {
  }
}
