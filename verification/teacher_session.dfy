/** The attendance session of the teacher dashboard
    (frontend_new/src/pages/TeacherDashboard.jsx): a random six-digit code,
    the QR payload a student scans, and a one-second countdown driven by
    `setInterval`. Each interval still running is counted in `timers`; a
    second of wall time fires every one of them once. */
module TeacherSession {
  import opened Common
  import opened Text
  import AttendanceWizard

  // ------------------------------------------------------------------ code

  /** `Math.floor(100000 + random * 900000)` for `random` in [0, 1),
      computed exactly on reals. */
  function CodeNumber(random: real): (n: nat)
    requires 0.0 <= random < 1.0
    ensures 100000 <= n <= 999999
  {
    (100000.0 + random * 900000.0).Floor
  }

  /** generateCode: the number's decimal text. */
  function GenerateCode(random: real): (r: string)
    requires 0.0 <= random < 1.0
    ensures |r| == 6 && AllDigits(r) && r[0] != '0'
    ensures 100000 <= DecimalValue(r) <= 999999
  {
    var n := CodeNumber(random);
    assert Pow10(5) == 100000 && Pow10(6) == 1000000;
    DecimalLength(n, 6);
    DecimalRoundTrip(n);
    NatToDecimal(n)
  }

  // ---------------------------------------------------------------- payload

  const Lifetime := 60000

  /** The object encoded in the QR image; `teacherId` is the signed-in
      user's `_id`, which may be missing. */
  datatype QrPayload = QrPayload(code: string, teacherId: Option<string>, className: string,
                                 timestamp: int, expiresAt: int)

  function MakePayload(code: string, teacherId: Option<string>, className: string, now: int): (r: QrPayload)
    ensures r.code == code && r.teacherId == teacherId && r.className == className
    ensures r.timestamp == now && r.expiresAt - r.timestamp == 60000
  {
    QrPayload(code, teacherId, className, now, now + Lifetime)
  }

  /** What the student's page gets from `JSON.parse` of the payload's
      `JSON.stringify` (a missing `teacherId` is dropped and reads back as
      missing); the ISO timestamp reads back as the same instant. */
  function Scanned(p: QrPayload): (r: AttendanceWizard.Scan)
    ensures r.Parsed? && r.info.code == Some(p.code) && r.info.teacherId == p.teacherId
    ensures r.info.className == Some(p.className) && r.info.expiresAt == Some(p.expiresAt)
  {
    AttendanceWizard.Parsed(AttendanceWizard.QrInfo(Some(p.code), p.teacherId, Some(p.className), Some(p.expiresAt)))
  }

  /** A code shown by a signed-in teacher for a selected class is accepted by
      a student of that class exactly while its minute lasts. */
  lemma FreshCodeAcceptedForOneMinute(random: real, teacherId: string, className: string, issued: int, now: int)
    requires 0.0 <= random < 1.0 && teacherId != "" && className != ""
    ensures var q := Scanned(MakePayload(GenerateCode(random), Some(teacherId), className, issued));
            AttendanceWizard.ScanProblem(q, now, Some(className)) == "" <==> now <= issued + 60000
  {
  }

  /** A teacher record without `_id` yields codes no student can use. */
  lemma MissingTeacherIdRejected(code: string, className: string, issued: int, now: int, userClass: Option<string>)
    ensures AttendanceWizard.ScanProblem(Scanned(MakePayload(code, None, className, issued)), now, userClass)
            == AttendanceWizard.BadFormat
  {
  }

  // ---------------------------------------------------------------- session

  /** `qr` stands for the rendered image of the payload (empty when None). */
  datatype Session = Session(selectedClass: string, code: string, qr: Option<QrPayload>,
                             timeLeft: nat, active: bool, timers: nat)

  const Idle := Session("", "", None, 0, false, 0)

  const PickClass := "Please select a class first"
  const StartFailed := "Failed to start attendance session"

  /** startAttendance, with the alert it raises if any. Rendering the QR image
      may fail (`renderFails`), which leaves the session as it was. */
  function StartAttendance(s: Session, random: real, teacherId: Option<string>, now: int, renderFails: bool)
    : (r: (Session, Option<string>))
    requires 0.0 <= random < 1.0
    ensures s.selectedClass == "" ==> r == (s, Some(PickClass))
    ensures s.selectedClass != "" && renderFails ==> r == (s, Some(StartFailed))
    ensures r.1.None? <==> s.selectedClass != "" && !renderFails
    ensures r.1.None? ==> r.0.active && r.0.timeLeft == 60 && r.0.timers == s.timers + 1
    ensures r.1.None? ==> |r.0.code| == 6 && r.0.qr.Some? && r.0.qr.value.code == r.0.code
    ensures r.1.None? ==> r.0.qr.value.className == s.selectedClass && r.0.qr.value.expiresAt == now + 60000
  {
    if s.selectedClass == "" then (s, Some(PickClass))
    else
      var code := GenerateCode(random);
      if renderFails then (s, Some(StartFailed))
      else (s.(code := code, qr := Some(MakePayload(code, teacherId, s.selectedClass, now)),
               active := true, timeLeft := 60, timers := s.timers + 1), None)
  }

  /** One interval firing: `setTimeLeft(prev => ...)`. At one second or less
      it clears itself and closes the session. */
  function Fire(s: Session): (r: Session)
    requires s.timers > 0
    ensures s.timeLeft <= 1 ==> r == s.(timeLeft := 0, active := false, code := "", qr := None, timers := s.timers - 1)
    ensures s.timeLeft > 1 ==> r == s.(timeLeft := s.timeLeft - 1)
  {
    if s.timeLeft <= 1 then s.(timeLeft := 0, active := false, code := "", qr := None, timers := s.timers - 1)
    else s.(timeLeft := s.timeLeft - 1)
  }

  /** The first `k` live intervals fire once each. */
  function FireEach(s: Session, k: nat): (r: Session)
    requires k <= s.timers
    ensures r.timers <= s.timers && r.selectedClass == s.selectedClass
    decreases k
  {
    if k == 0 then s else FireEach(Fire(s), k - 1)
  }

  /** One second of wall time. */
  function Second(s: Session): Session {
    FireEach(s, s.timers)
  }

  /** `n` seconds of wall time. */
  function Seconds(s: Session, n: nat): Session
    decreases n
  {
    if n == 0 then s else Seconds(Second(s), n - 1)
  }

  /** stopAttendance as written: the interval started by startAttendance is
      not cleared and keeps running. */
  function StopAttendance(s: Session): (r: Session)
    ensures !r.active && r.code == "" && r.qr.None? && r.timeLeft == 0
    ensures r.timers == s.timers && r.selectedClass == s.selectedClass
  {
    s.(active := false, code := "", qr := None, timeLeft := 0)
  }

  /** stopAttendance with its interval cleared as well. */
  function StopAndClear(s: Session): (r: Session)
    ensures r == StopAttendance(s).(timers := 0)
  {
    s.(active := false, code := "", qr := None, timeLeft := 0, timers := 0)
  }

  /** With one interval, each second takes one second off; a session with
      `n` seconds left ends after exactly `n` seconds. */
  lemma {:induction false} CountdownWithOneTimer(s: Session, n: nat)
    requires s.timers == 1 && s.active && s.timeLeft == n && n >= 1
    decreases n
    ensures forall k | 0 <= k < n :: Seconds(s, k) == s.(timeLeft := n - k)
    ensures Seconds(s, n) == s.(timeLeft := 0, active := false, code := "", qr := None, timers := 0)
  {
    if n == 1 {
      assert Seconds(s, 0) == s;
      assert Second(s) == Fire(s);
      assert Seconds(s, 1) == Seconds(Second(s), 0);
    } else {
      var t := Second(s);
      assert t == FireEach(Fire(s), 0);
      assert t == s.(timeLeft := n - 1);
      CountdownWithOneTimer(t, n - 1);
      forall k | 0 <= k < n ensures Seconds(s, k) == s.(timeLeft := n - k) {
        if k > 0 {
          assert Seconds(s, k) == Seconds(t, k - 1);
        }
      }
      assert Seconds(s, n) == Seconds(t, n - 1);
    }
  }

  /** Started from a dashboard with no interval running, a session stays
      open for 59 seconds and closes at the 60th. */
  lemma SessionLastsOneMinute(s: Session, random: real, teacherId: Option<string>, now: int)
    requires 0.0 <= random < 1.0 && s.selectedClass != "" && s.timers == 0
    ensures var started := StartAttendance(s, random, teacherId, now, false).0;
            Seconds(started, 59).active && Seconds(started, 59).timeLeft == 1
            && !Seconds(started, 60).active && Seconds(started, 60).timers == 0
  {
    var started := StartAttendance(s, random, teacherId, now, false).0;
    CountdownWithOneTimer(started, 60);
  }

  /** With two intervals running, each second takes two off; an even count
      `2 * m` runs out after `m` seconds. */
  lemma {:induction false} CountdownWithTwoTimers(s: Session, m: nat)
    requires s.timers == 2 && s.active && s.timeLeft == 2 * m && m >= 1
    decreases m
    ensures !Seconds(s, m).active && Seconds(s, m).timeLeft == 0
  {
    var t := Second(s);
    assert Second(s) == FireEach(s, 2);
    if m == 1 {
      assert t == Fire(Fire(s));
      assert Seconds(s, 1) == Seconds(t, 0);
    } else {
      assert t == Fire(Fire(s));
      assert t == s.(timeLeft := 2 * (m - 1));
      CountdownWithTwoTimers(t, m - 1);
      assert Seconds(s, m) == Seconds(t, m - 1);
    }
  }

  /** Stopping and restarting within the same second leaves the first
      interval running next to the new one, so the new session closes after
      30 seconds instead of 60. */
  lemma RestartRunsDoubleSpeed(s: Session, r1: real, r2: real, teacherId: Option<string>, t1: int, t2: int)
    requires 0.0 <= r1 < 1.0 && 0.0 <= r2 < 1.0 && s.selectedClass != "" && s.timers == 0
    ensures var first := StartAttendance(s, r1, teacherId, t1, false).0;
            var second := StartAttendance(StopAttendance(first), r2, teacherId, t2, false).0;
            second.timers == 2 && !Seconds(second, 30).active
  {
    var first := StartAttendance(s, r1, teacherId, t1, false).0;
    var second := StartAttendance(StopAttendance(first), r2, teacherId, t2, false).0;
    CountdownWithTwoTimers(second, 30);
  }

  /** With the interval cleared on stop, a restart gets its full minute. */
  lemma RestartAfterClearLastsOneMinute(s: Session, r1: real, r2: real, teacherId: Option<string>, t1: int, t2: int)
    requires 0.0 <= r1 < 1.0 && 0.0 <= r2 < 1.0 && s.selectedClass != "" && s.timers == 0
    ensures var first := StartAttendance(s, r1, teacherId, t1, false).0;
            var second := StartAttendance(StopAndClear(first), r2, teacherId, t2, false).0;
            second.timers == 1 && Seconds(second, 59).active && !Seconds(second, 60).active
  {
    var first := StartAttendance(s, r1, teacherId, t1, false).0;
    var second := StartAttendance(StopAndClear(first), r2, teacherId, t2, false).0;
    CountdownWithOneTimer(second, 60);
  }

  // ------------------------------------------------------------ formatTime

  /** `String.prototype.padStart(2, '0')`. */
  function Pad2(s: string): (r: string)
    ensures |s| >= 2 ==> r == s
    ensures |s| < 2 ==> |r| == 2 && r[2 - |s|..] == s && forall i | 0 <= i < 2 - |s| :: r[i] == '0'
    decreases 2 - |s|
  {
    if |s| >= 2 then s else Pad2(['0'] + s)
  }

  /** formatTime: minutes, a colon, and the seconds on two digits. */
  function FormatTime(seconds: nat): (r: string)
  {
    NatToDecimal(seconds / 60) + ":" + Pad2(NatToDecimal(seconds % 60))
  }

  /** Reading a "m:ss" text back into seconds. */
  function ParseTime(t: string): Option<nat> {
    if |t| >= 4 && t[|t| - 3] == ':' && AllDigits(t[..|t| - 3]) && AllDigits(t[|t| - 2..]) then
      Some(DecimalValue(t[..|t| - 3]) * 60 + DecimalValue(t[|t| - 2..]))
    else None
  }

  /** The seconds field always has two digits. */
  lemma {:induction false} SecondsFieldHasTwoDigits(n: nat)
    requires n < 60
    ensures |Pad2(NatToDecimal(n))| == 2 && AllDigits(Pad2(NatToDecimal(n)))
    ensures DecimalValue(Pad2(NatToDecimal(n))) == n
  {
    DecimalRoundTrip(n);
    if n < 10 {
      DecimalLength(n, 1);
      var d := NatToDecimal(n);
      var p := Pad2(d);
      assert p == ['0'] + d;
      assert p[..1] == ['0'];
      assert DecimalValue(p[..1]) == 0 by {
        assert p[..1][..0] == [];
      }
    } else {
      DecimalLength(n, 2);
    }
  }

  /** Formatting then reading back gives the seconds. */
  lemma FormatTimeRoundTrip(seconds: nat)
    ensures ParseTime(FormatTime(seconds)) == Some(seconds)
  {
    var m := NatToDecimal(seconds / 60);
    var ss := Pad2(NatToDecimal(seconds % 60));
    SecondsFieldHasTwoDigits(seconds % 60);
    DecimalRoundTrip(seconds / 60);
    var t := FormatTime(seconds);
    assert t == m + ":" + ss;
    assert t[..|t| - 3] == m;
    assert t[|t| - 2..] == ss;
  }
}
