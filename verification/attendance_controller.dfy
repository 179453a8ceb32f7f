/** The handlers of backend/controller/attendance.js as operations over an
    in-memory ledger (the attendance collection in insertion order) and the
    device collection. A handler's reply and the ledger after it are returned
    together; the caller's identity, the clock and the id the store assigns
    are parameters. */
module AttendanceController {
  import opened Common
  import opened Mongo
  import opened AttendanceModel
  import opened DeviceModel

  type Ledger = seq<Attendance>

  predicate UniqueIds(l: Ledger) {
    forall i, j | 0 <= i < j < |l| :: l[i].id != l[j].id
  }

  predicate HasId(l: Ledger, id: Oid) {
    exists i | 0 <= i < |l| :: l[i].id == id
  }

  function IdOf(a: Attendance): Oid {
    a.id
  }

  /** The position of the first record with id `id`, if any. */
  function Find(l: Ledger, id: Oid): Option<nat> {
    FindById(l, IdOf, id)
  }

  // ------------------------------------------------------------ markAttendance

  /** The body fields markAttendance reads. */
  datatype MarkBody = MarkBody(
    qrCode: Option<string>,
    selfieUrl: Option<string>,
    deviceId: Option<string>,
    className: Option<string>)

  /** `Device.findOne({ userId, deviceId })`: some device matches both the
      caller and the given device id. `isActive` is not consulted. */
  predicate DeviceRegistered(devices: seq<Device>, caller: Oid, deviceId: Option<string>) {
    exists i | 0 <= i < |devices| ::
      devices[i].userId == caller && deviceId == Some(devices[i].deviceId)
  }

  const DeviceNotRegistered := "Device not registered"
  const InvalidQr := "Invalid or expired QR code"
  const SelfieFailed := "Selfie verification failed"

  /** The record markAttendance hands to `Attendance.create`. */
  function MarkInput(caller: Oid, body: MarkBody, now: int): AttendanceInput {
    AttendanceInput(
      Some(caller), Some(now), Some("present"), Some(OrElse(body.className, "default")),
      body.qrCode,
      Some(if Truthy(body.selfieUrl) then body.selfieUrl else None),
      body.deviceId, Some(true), None)
  }

  /** markAttendance: the device gate, two verification steps that are the
      constant `true`, then creation of one record under the id `newId` the
      store assigns (a clash with an existing id is a duplicate-key error). */
  function MarkAttendance(l: Ledger, devices: seq<Device>, caller: Oid, body: MarkBody,
                          newId: Oid, now: int): (r: (Ledger, Reply<Attendance>))
    ensures r.1.Ok? <==>
              && DeviceRegistered(devices, caller, body.deviceId)
              && Truthy(body.qrCode) && Truthy(body.deviceId) && !HasId(l, newId)
    ensures !DeviceRegistered(devices, caller, body.deviceId) ==>
              r == (l, Err(400, DeviceNotRegistered))
    ensures r.1.Err? ==> r.0 == l && r.1.status in {400, 500}
    ensures r.1.Ok? ==> r.1.status == 201 && r.0 == l + [r.1.body]
    ensures r.1.Ok? ==>
              r.1.body == Attendance(newId, caller, now, "present",
                                     OrElse(body.className, "default"), body.qrCode.value,
                                     if Truthy(body.selfieUrl) then body.selfieUrl else None,
                                     body.deviceId.value, true, "")
  {
    if !DeviceRegistered(devices, caller, body.deviceId) then (l, Err(400, DeviceNotRegistered))
    else
      var isQrValid := true;
      if !isQrValid then (l, Err(400, InvalidQr))
      else
        var isSelfieValid := true;
        if !isSelfieValid then (l, Err(400, SelfieFailed))
        else match Create(newId, MarkInput(caller, body, now))
          case Failure(_) => (l, Err(500, ServerError))
          case Success(a) =>
            if HasId(l, newId) then (l, Err(500, ServerError)) else (l + [a], Ok(201, a))
  }

  /** The QR-code and selfie refusals can never be the outcome. */
  lemma MarkNeverRejectsQrOrSelfie(l: Ledger, devices: seq<Device>, caller: Oid, body: MarkBody,
                                   newId: Oid, now: int)
    ensures var r := MarkAttendance(l, devices, caller, body, newId, now).1;
            r.Err? ==> r.message == DeviceNotRegistered || r.message == ServerError
  {
  }

  /** A deactivated device still opens the gate. */
  lemma InactiveDeviceStillAccepted(l: Ledger, devices: seq<Device>, caller: Oid, body: MarkBody,
                                    newId: Oid, now: int, i: int)
    requires 0 <= i < |devices| && !devices[i].isActive
    requires devices[i].userId == caller && body.deviceId == Some(devices[i].deviceId)
    requires Truthy(body.qrCode) && devices[i].deviceId != "" && !HasId(l, newId)
    ensures MarkAttendance(l, devices, caller, body, newId, now).1.Ok?
  {
  }

  /** There is no per-day check: marking twice for the same class at the same
      instant adds two records. */
  lemma MarkTwiceAddsTwo(l: Ledger, devices: seq<Device>, caller: Oid, body: MarkBody,
                         id1: Oid, id2: Oid, now: int)
    requires DeviceRegistered(devices, caller, body.deviceId)
    requires Truthy(body.qrCode) && Truthy(body.deviceId)
    requires id1 != id2 && !HasId(l, id1) && !HasId(l, id2)
    ensures var (l1, r1) := MarkAttendance(l, devices, caller, body, id1, now);
            var (l2, r2) := MarkAttendance(l1, devices, caller, body, id2, now);
            && r1.Ok? && r2.Ok? && |l2| == |l| + 2
            && l2[|l|].userId == l2[|l| + 1].userId
            && l2[|l|].className == l2[|l| + 1].className
            && l2[|l|].date == l2[|l| + 1].date
  {
    var (l1, r1) := MarkAttendance(l, devices, caller, body, id1, now);
    assert !HasId(l1, id2) by {
      forall i | 0 <= i < |l1| ensures l1[i].id != id2 {
        if i < |l| { assert l1[i] == l[i]; }
      }
    }
  }

  lemma MarkPreservesUniqueIds(l: Ledger, devices: seq<Device>, caller: Oid, body: MarkBody,
                               newId: Oid, now: int)
    requires UniqueIds(l)
    ensures UniqueIds(MarkAttendance(l, devices, caller, body, newId, now).0)
  {
    var (l', r) := MarkAttendance(l, devices, caller, body, newId, now);
    if r.Ok? {
      forall i, j | 0 <= i < j < |l'| ensures l'[i].id != l'[j].id {
        assert l'[i] == l[i];
        if j < |l| { assert l'[j] == l[j]; }
      }
    }
  }

  // ------------------------------------------------------ ordering by date

  /** Ordered by `date`, newest first (`sort({ date: -1 })`). */
  predicate NewestFirst(s: seq<Attendance>) {
    forall i, j | 0 <= i < j < |s| :: s[i].date >= s[j].date
  }

  function InsertNewestFirst(x: Attendance, s: seq<Attendance>): (r: seq<Attendance>)
    requires NewestFirst(s)
    ensures NewestFirst(r) && multiset(r) == multiset(s) + multiset{x}
  {
    if s == [] || x.date >= s[0].date then [x] + s
    else
      var rest := InsertNewestFirst(x, s[1..]);
      assert s == [s[0]] + s[1..];
      BelowHead(x, s, rest);
      [s[0]] + rest
  }

  /** What is inserted after the head of a newest-first list is no newer
      than the head. */
  lemma BelowHead(x: Attendance, s: seq<Attendance>, rest: seq<Attendance>)
    requires NewestFirst(s) && s != [] && x.date < s[0].date
    requires NewestFirst(rest) && multiset(rest) == multiset(s[1..]) + multiset{x}
    ensures NewestFirst([s[0]] + rest)
  {
    forall k | 0 <= k < |rest| ensures rest[k].date <= s[0].date {
      assert rest[k] in multiset(rest);
      if rest[k] != x {
        assert rest[k] in s[1..];
        var m :| 0 <= m < |s[1..]| && s[1..][m] == rest[k];
        assert s[m + 1] == rest[k];
      }
    }
    var r := [s[0]] + rest;
    forall i, j | 0 <= i < j < |r| ensures r[i].date >= r[j].date {
      assert r[j] == rest[j - 1];
      if i > 0 { assert r[i] == rest[i - 1]; }
    }
  }

  /** The ledger's records in newest-first order: a permutation that is sorted.
      Records with equal dates may come in any order. */
  function SortNewestFirst(s: seq<Attendance>): (r: seq<Attendance>)
    ensures NewestFirst(r) && multiset(r) == multiset(s)
  {
    if s == [] then []
    else
      assert s == [s[0]] + s[1..];
      InsertNewestFirst(s[0], SortNewestFirst(s[1..]))
  }

  // ---------------------------------------------------------------- queries

  /** getAllAttendance: every record, newest first. */
  function GetAllAttendance(l: Ledger): (r: Reply<seq<Attendance>>)
    ensures r.Ok? && r.status == 200
    ensures NewestFirst(r.body) && multiset(r.body) == multiset(l)
  {
    Ok(200, SortNewestFirst(l))
  }

  /** getAttendanceById: the record whose id the text casts to, 404 when
      there is none, 500 when the text is not an ObjectId. */
  function GetAttendanceById(l: Ledger, id: string): (r: Reply<Attendance>)
    ensures !IsObjectIdText(id) ==> r == Err(500, ServerError)
    ensures IsObjectIdText(id) && !HasId(l, CastId(id)) ==> r == Err(404, "Attendance not found")
    ensures r.Ok? <==> IsObjectIdText(id) && HasId(l, CastId(id))
    ensures r.Ok? ==> r.status == 200 && r.body.id == CastId(id) && r.body in l
  {
    if !IsObjectIdText(id) then Err(500, ServerError)
    else match Find(l, CastId(id))
      case None => Err(404, "Attendance not found")
      case Some(i) => Ok(200, l[i])
  }

  function FilterUser(l: Ledger, userId: Oid): (r: seq<Attendance>)
    ensures forall a | a in r :: a.userId == userId
    ensures forall i | 0 <= i < |l| :: l[i].userId == userId ==> l[i] in r
    ensures multiset(r) <= multiset(l)
  {
    if l == [] then []
    else
      assert l == [l[0]] + l[1..];
      (if l[0].userId == userId then [l[0]] else []) + FilterUser(l[1..], userId)
  }

  /** Two sequences with the same multiset have the same members. */
  lemma SameElements(s: seq<Attendance>, t: seq<Attendance>)
    requires multiset(s) == multiset(t)
    ensures forall a :: a in s <==> a in t
  {
    forall a ensures a in s <==> a in t {
      assert a in s <==> a in multiset(s);
      assert a in t <==> a in multiset(t);
    }
  }

  /** getUserAttendanceHistory: exactly the records of the user the text
      casts to, newest first. */
  function GetUserAttendanceHistory(l: Ledger, userId: string): (r: Reply<seq<Attendance>>)
    ensures !IsObjectIdText(userId) ==> r == Err(500, ServerError)
    ensures r.Ok? <==> IsObjectIdText(userId)
    ensures r.Ok? ==> NewestFirst(r.body)
    ensures r.Ok? ==> forall a | a in r.body :: a.userId == CastId(userId)
    ensures r.Ok? ==> forall i | 0 <= i < |l| :: l[i].userId == CastId(userId) ==> l[i] in r.body
    ensures r.Ok? ==> multiset(r.body) <= multiset(l)
  {
    if !IsObjectIdText(userId) then Err(500, ServerError)
    else
      var mine := FilterUser(l, CastId(userId));
      var sorted := SortNewestFirst(mine);
      SameElements(mine, sorted);
      Ok(200, sorted)
  }

  const DayMs := 86_400_000

  /** Midnight of the day containing `now` in a zone a fixed `offsetMs`
      ahead of UTC (`setHours(0, 0, 0, 0)` on a day without a clock change). */
  function StartOfDay(now: int, offsetMs: int): (r: int)
    ensures r <= now < r + DayMs
    ensures (r + offsetMs) % DayMs == 0
  {
    now - (now + offsetMs) % DayMs
  }

  /** `setHours(23, 59, 59, 999)`: the last millisecond of the same day, in
      the same fixed-offset zone. */
  function EndOfDay(now: int, offsetMs: int): (r: int)
    ensures r == StartOfDay(now, offsetMs) + DayMs - 1
    ensures now <= r
  {
    StartOfDay(now, offsetMs) + 23 * 3_600_000 + 59 * 60_000 + 59 * 1000 + 999
  }

  /** getTodayAttendance: the records dated between the start of the day of
      the first clock reading and the end of the day of the second, in store
      order. The handler reads the clock twice. */
  function GetTodayAttendance(l: Ledger, startRead: int, endRead: int, offsetMs: int)
    : (r: Reply<seq<Attendance>>)
    ensures r.Ok? && r.status == 200
    ensures forall a | a in r.body ::
              StartOfDay(startRead, offsetMs) <= a.date <= EndOfDay(endRead, offsetMs)
    ensures forall i | 0 <= i < |l| ::
              StartOfDay(startRead, offsetMs) <= l[i].date <= EndOfDay(endRead, offsetMs) ==> l[i] in r.body
    ensures multiset(r.body) <= multiset(l)
  {
    Ok(200, TodayFilter(l, StartOfDay(startRead, offsetMs), EndOfDay(endRead, offsetMs)))
  }

  /** Both readings within one day give exactly that day. */
  lemma OneDayWindow(startRead: int, endRead: int, offsetMs: int)
    requires StartOfDay(startRead, offsetMs) == StartOfDay(endRead, offsetMs)
    ensures EndOfDay(endRead, offsetMs) - StartOfDay(startRead, offsetMs) == DayMs - 1
  {
  }

  /** Readings on either side of midnight give a window of two days: the
      records of yesterday are reported as today's. */
  lemma MidnightStraddleSpansTwoDays(startRead: int, offsetMs: int)
    requires (startRead + 1 + offsetMs) % DayMs == 0
    ensures EndOfDay(startRead + 1, offsetMs) - StartOfDay(startRead, offsetMs) == 2 * DayMs - 1
  {
    assert StartOfDay(startRead + 1, offsetMs) == startRead + 1;
  }

  /** The records of `l` whose date lies in `lo..hi`, in their order in `l`. */
  function TodayFilter(l: Ledger, lo: int, hi: int): (r: seq<Attendance>)
    ensures forall a | a in r :: lo <= a.date <= hi
    ensures forall i | 0 <= i < |l| :: lo <= l[i].date <= hi ==> l[i] in r
    ensures multiset(r) <= multiset(l)
  {
    if l == [] then []
    else
      assert l == [l[0]] + l[1..];
      (if lo <= l[0].date <= hi then [l[0]] else []) + TodayFilter(l[1..], lo, hi)
  }

  // ------------------------------------------------------- updates and deletes

  /** The body of an update; `None` is a field the body leaves out. The
      user id is text until the update casts it. */
  datatype AttendancePatch = AttendancePatch(
    userId: Option<string>,
    date: Option<int>,
    status: Option<string>,
    className: Option<string>,
    qrCodeUsed: Option<string>,
    selfieUrl: Option<Option<string>>,
    deviceId: Option<string>,
    verified: Option<bool>,
    remarks: Option<string>)

  /** The update casts every value it carries to its path's type: a user id
      that is not an ObjectId fails the cast. */
  predicate PatchCasts(p: AttendancePatch) {
    p.userId.None? || IsObjectIdText(p.userId.value)
  }

  /** Every field the patch carries overwrites the stored one. No validator
      runs, so neither the enumeration nor `required` is checked. */
  function ApplyPatch(a: Attendance, p: AttendancePatch): Attendance
    requires PatchCasts(p)
  {
    Attendance(a.id, if p.userId.Some? then CastId(p.userId.value) else a.userId,
               p.date.GetOr(a.date), p.status.GetOr(a.status),
               p.className.GetOr(a.className), p.qrCodeUsed.GetOr(a.qrCodeUsed),
               p.selfieUrl.GetOr(a.selfieUrl), p.deviceId.GetOr(a.deviceId),
               p.verified.GetOr(a.verified), p.remarks.GetOr(a.remarks))
  }

  /** updateAttendance (`findByIdAndUpdate` with `new: true`): the id and the
      body are cast before the store is asked, so a failed cast of either is
      a 500 that changes nothing. */
  function UpdateAttendance(l: Ledger, id: string, p: AttendancePatch): (r: (Ledger, Reply<Attendance>))
    ensures !IsObjectIdText(id) || !PatchCasts(p) ==> r == (l, Err(500, ServerError))
    ensures IsObjectIdText(id) && PatchCasts(p) && !HasId(l, CastId(id)) ==>
              r == (l, Err(404, "Attendance not found"))
    ensures r.1.Ok? <==> IsObjectIdText(id) && PatchCasts(p) && HasId(l, CastId(id))
    ensures r.1.Ok? ==> PatchCasts(p) && exists i | 0 <= i < |l| ::
              l[i].id == CastId(id) && r.0 == l[i := r.1.body] && r.1.body == ApplyPatch(l[i], p)
  {
    if !IsObjectIdText(id) || !PatchCasts(p) then (l, Err(500, ServerError))
    else match Find(l, CastId(id))
      case None => (l, Err(404, "Attendance not found"))
      case Some(i) =>
        var a := ApplyPatch(l[i], p);
        (l[i := a], Ok(200, a))
  }

  /** A body whose user id is not an ObjectId is refused, even for a stored
      record. */
  lemma UpdateRejectsBadUserId(l: Ledger, id: string, p: AttendancePatch)
    requires p.userId == Some("nope")
    ensures UpdateAttendance(l, id, p) == (l, Err(500, ServerError))
  {
  }

  /** The record an update replies with, field by field against the stored
      record `l[i]` it found: each field the body carries replaces the stored
      one (a user id in its cast form), each field it leaves out is kept, and
      the id is unchanged. */
  lemma UpdateOverwritesFields(l: Ledger, id: string, p: AttendancePatch, i: int)
    requires UniqueIds(l) && 0 <= i < |l| && IsObjectIdText(id) && l[i].id == CastId(id)
    requires UpdateAttendance(l, id, p).1.Ok?
    ensures UpdateAttendance(l, id, p).0 == l[i := UpdateAttendance(l, id, p).1.body]
    ensures var a := UpdateAttendance(l, id, p).1.body;
            && a.id == l[i].id
            && (if p.userId.Some? then a.userId == CastId(p.userId.value) else a.userId == l[i].userId)
            && (if p.date.Some? then a.date == p.date.value else a.date == l[i].date)
            && (if p.status.Some? then a.status == p.status.value else a.status == l[i].status)
            && (if p.className.Some? then a.className == p.className.value else a.className == l[i].className)
            && (if p.qrCodeUsed.Some? then a.qrCodeUsed == p.qrCodeUsed.value else a.qrCodeUsed == l[i].qrCodeUsed)
            && (if p.selfieUrl.Some? then a.selfieUrl == p.selfieUrl.value else a.selfieUrl == l[i].selfieUrl)
            && (if p.deviceId.Some? then a.deviceId == p.deviceId.value else a.deviceId == l[i].deviceId)
            && (if p.verified.Some? then a.verified == p.verified.value else a.verified == l[i].verified)
            && (if p.remarks.Some? then a.remarks == p.remarks.value else a.remarks == l[i].remarks)
  {
    var k := Find(l, CastId(id)).value;
    assert k == i;
  }

  /** An update leaves every record with another id as it was. */
  lemma UpdateKeepsOthers(l: Ledger, id: string, p: AttendancePatch, j: int)
    requires UniqueIds(l) && 0 <= j < |l| && (IsObjectIdText(id) ==> l[j].id != CastId(id))
    ensures UpdateAttendance(l, id, p).0[j] == l[j]
    ensures |UpdateAttendance(l, id, p).0| == |l|
  {
  }

  /** An update can store a status outside the enumeration. */
  lemma UpdateCanLeaveEnum(a: Attendance)
    requires IsStatus(a.status)
    ensures var p := AttendancePatch(None, None, Some("excused"), None, None, None, None, None, None);
            var r := UpdateAttendance([a], a.id, p);
            r.1.Ok? && !IsStatus(r.0[0].status)
  {
    CastStoredId(a.id);
    assert Find([a], a.id) == Some(0);
  }

  /** deleteAttendance (`findByIdAndDelete`). */
  function DeleteAttendance(l: Ledger, id: string): (r: (Ledger, Reply<()>))
    ensures !IsObjectIdText(id) ==> r == (l, Err(500, ServerError))
    ensures IsObjectIdText(id) && !HasId(l, CastId(id)) ==> r == (l, Err(404, "Attendance not found"))
    ensures r.1.Ok? <==> IsObjectIdText(id) && HasId(l, CastId(id))
    ensures r.1.Ok? ==> IsObjectIdText(id) && exists i | 0 <= i < |l| ::
              l[i].id == CastId(id) && r.0 == l[..i] + l[i + 1..]
  {
    if !IsObjectIdText(id) then (l, Err(500, ServerError))
    else match Find(l, CastId(id))
      case None => (l, Err(404, "Attendance not found"))
      case Some(i) => (l[..i] + l[i + 1..], Ok(200, ()))
  }

  /** With unique ids a delete removes exactly the named record. */
  lemma DeleteRemovesExactlyOne(l: Ledger, id: string)
    requires UniqueIds(l) && DeleteAttendance(l, id).1.Ok?
    ensures IsObjectIdText(id)
    ensures var l' := DeleteAttendance(l, id).0;
            && |l'| == |l| - 1 && !HasId(l', CastId(id))
            && forall a | a in l && a.id != CastId(id) :: a in l'
  {
    var l' := DeleteAttendance(l, id).0;
    var i :| 0 <= i < |l| && l[i].id == CastId(id) && l' == l[..i] + l[i + 1..];
    RemoveUnique(l, CastId(id), i);
  }

  /** Removing the one record with a given id from a ledger with unique ids. */
  lemma RemoveUnique(l: Ledger, id: Oid, i: int)
    requires UniqueIds(l) && 0 <= i < |l| && l[i].id == id
    ensures var l' := l[..i] + l[i + 1..];
            && |l'| == |l| - 1 && !HasId(l', id)
            && forall a | a in l && a.id != id :: a in l'
  {
    var l' := l[..i] + l[i + 1..];
    forall k | 0 <= k < |l'| ensures l'[k].id != id {
      if k < i { assert l'[k] == l[k]; } else { assert l'[k] == l[k + 1]; }
    }
    forall a | a in l && a.id != id ensures a in l' {
      var k :| 0 <= k < |l| && l[k] == a;
      if k < i { assert l'[k] == a; } else { assert k != i; assert l'[k - 1] == a; }
    }
  }

  /** The handlers that take an id read it without regard to the case of its
      letters: two spellings of one ObjectId get the same reply. */
  lemma IdCaseIgnored(l: Ledger, x: string, y: string, p: AttendancePatch)
    requires SameUpToHexCase(x, y)
    ensures GetAttendanceById(l, x) == GetAttendanceById(l, y)
    ensures GetUserAttendanceHistory(l, x) == GetUserAttendanceHistory(l, y)
    ensures UpdateAttendance(l, x, p) == UpdateAttendance(l, y, p)
    ensures DeleteAttendance(l, x) == DeleteAttendance(l, y)
  {
    if IsObjectIdText(x) {
      CastIdIgnoresCase(x, y);
    } else if IsObjectIdText(y) {
      CastIdIgnoresCase(y, x);
    }
  }

  /** A stored record is found under any spelling of its id, upper-case
      letters included. */
  lemma StoredRecordFoundInAnyCase(a: Attendance, x: string)
    requires SameUpToHexCase(x, a.id)
    ensures GetAttendanceById([a], x) == Ok(200, a)
  {
    CastStoredId(a.id);
    CastIdIgnoresCase(a.id, x);
  }
}
