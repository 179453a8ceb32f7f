/** The attendance record of backend/models/attendance.js: its fields, the
    `status` enumeration, the required paths and the defaults applied when a
    record is created. */
module AttendanceModel {
  import opened Common
  import opened Mongo

  /** A stored attendance record. `status` is kept as the string the store
      holds: creation checks the enumeration, an update does not. */
  datatype Attendance = Attendance(
    id: Oid,
    userId: Oid,
    date: int,                  // milliseconds since the epoch
    status: string,
    className: string,          // the `class` path
    qrCodeUsed: string,
    selfieUrl: Option<string>,  // null when absent
    deviceId: string,
    verified: bool,
    remarks: string)

  /** The `status` enumeration. */
  predicate IsStatus(s: string) {
    s == "present" || s == "absent" || s == "late"
  }

  /** The fields handed to `Attendance.create`; `None` is a field left out. */
  datatype AttendanceInput = AttendanceInput(
    userId: Option<Oid>,
    date: Option<int>,
    status: Option<string>,
    className: Option<string>,
    qrCodeUsed: Option<string>,
    selfieUrl: Option<Option<string>>,
    deviceId: Option<string>,
    verified: Option<bool>,
    remarks: Option<string>)

  /** What the schema demands of a new record: every required path present
      (a required String also non-empty) and a status from the enumeration. */
  predicate Admissible(input: AttendanceInput) {
    && input.userId.Some?
    && input.date.Some?
    && RequiredString(input.className)
    && RequiredString(input.qrCodeUsed)
    && RequiredString(input.deviceId)
    && (input.status.None? || IsStatus(input.status.value))
  }

  /** A record every one of whose schema constraints holds. */
  predicate WellFormed(a: Attendance) {
    a.className != "" && a.qrCodeUsed != "" && a.deviceId != "" && IsStatus(a.status)
  }

  /** `Attendance.create` (document construction and validation) under id
      `id`: defaults fill the absent optional paths. */
  function Create(id: Oid, input: AttendanceInput): (r: Result<Attendance>)
    ensures r.Success? <==> Admissible(input)
    ensures r.Success? ==> WellFormed(r.value) && r.value.id == id
    ensures r.Success? ==> r.value.status == input.status.GetOr("present")
    ensures r.Success? ==> r.value.selfieUrl == input.selfieUrl.GetOr(None)
    ensures r.Success? ==> r.value.verified == input.verified.GetOr(false)
    ensures r.Success? ==> r.value.remarks == input.remarks.GetOr("")
    ensures r.Success? ==> && r.value.userId == input.userId.value
                           && r.value.date == input.date.value
                           && r.value.className == input.className.value
                           && r.value.qrCodeUsed == input.qrCodeUsed.value
                           && r.value.deviceId == input.deviceId.value
  {
    if !Admissible(input) then Failure("ValidationError")
    else Success(Attendance(
      id, input.userId.value, input.date.value, input.status.GetOr("present"),
      input.className.value, input.qrCodeUsed.value, input.selfieUrl.GetOr(None),
      input.deviceId.value, input.verified.GetOr(false), input.remarks.GetOr("")))
  }

  /** No path or combination of paths is unique: two records for the same
      user, class and date are both admissible side by side. */
  lemma NoUniquenessAcrossRecords(id1: Oid, id2: Oid, input: AttendanceInput)
    requires Admissible(input)
    ensures Create(id1, input).Success? && Create(id2, input).Success?
    ensures Create(id1, input).value.(id := id2) == Create(id2, input).value
  {
  }
}
