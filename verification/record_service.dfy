/**
 * `RecordService` (backend-flask/app/services/record_service.py): the attendance table
 * and its check-in/check-out rules. Instants are whole seconds since the epoch in UTC;
 * a calendar date is a day number. The server's local time zone is `utcOffset` seconds
 * ahead of UTC, and the clock reading of a call is passed in as `nowUtc`.
 */
module RecordService {
  import opened Wrappers
  import FS = FeatureService

  const SecondsPerDay: int := 86400
  /** The default of `ATTENDANCE_MAX_DISTANCE`. */
  const DefaultMaxDistance: int := 5000

  /** An `attendance_records` row. */
  datatype AttendanceRecord = AttendanceRecord(
    userId: int, checkTime: int, checkType: string, faceSimilarity: real,
    location: int, deviceInfo: Option<string>, status: string)

  /** The calendar date of an instant read on a clock `offset` seconds ahead of UTC. */
  function DateOf(t: int, offset: int): (d: int)
    ensures d * SecondsPerDay <= t + offset < (d + 1) * SecondsPerDay
  {
    (t + offset) / SecondsPerDay
  }

  /** Some record of the user with the given type falls on `date` (whatever its status). */
  predicate HasRecordOn(records: seq<AttendanceRecord>, userId: int, checkType: string, date: int, offset: int)
  {
    exists i :: 0 <= i < |records| && records[i].userId == userId && records[i].checkType == checkType
      && DateOf(records[i].checkTime, offset) == date
  }

  /** Why `create_attendance_record` refuses a request made on `today`, in the order the checks run. */
  function Rejection(records: seq<AttendanceRecord>, userId: int, checkType: string, today: int, offset: int)
    : (r: Option<string>)
    ensures checkType == "IN" ==> (r.Some? <==> HasRecordOn(records, userId, "IN", today, offset))
    ensures checkType == "IN" && r.Some? ==> r.value == "Already checked in today"
    ensures checkType == "OUT" && HasRecordOn(records, userId, "OUT", today, offset) ==>
      r == Some("Already checked out today")
    ensures checkType == "OUT" && !HasRecordOn(records, userId, "OUT", today, offset) ==>
      (r.Some? <==> !HasRecordOn(records, userId, "IN", today, offset))
    ensures checkType == "OUT" && r.Some? && !HasRecordOn(records, userId, "OUT", today, offset) ==>
      r.value == "Must check in before checking out"
    ensures checkType != "IN" && checkType != "OUT" ==> r.None?
  {
    if checkType == "IN" && HasRecordOn(records, userId, "IN", today, offset) then Some("Already checked in today")
    else if checkType == "OUT" && HasRecordOn(records, userId, "OUT", today, offset) then Some("Already checked out today")
    else if checkType == "OUT" && !HasRecordOn(records, userId, "IN", today, offset) then Some("Must check in before checking out")
    else None
  }

  /** The stored status: a record is kept either way, marked by whether both limits are met. */
  function Status(similarity: real, distance: int, threshold: real, maxDistance: int): (s: string)
    ensures s == "SUCCESS" || s == "FAILED"
    ensures s == "SUCCESS" <==> similarity >= threshold && distance <= maxDistance
  {
    if similarity >= threshold && distance <= maxDistance then "SUCCESS" else "FAILED"
  }

  /** At most one record of the given type per user and date. */
  predicate OnePerDay(records: seq<AttendanceRecord>, checkType: string, offset: int)
  {
    forall i, j :: 0 <= i < j < |records| ==>
      (records[i].userId == records[j].userId && records[i].checkType == checkType && records[j].checkType == checkType ==>
       DateOf(records[i].checkTime, offset) != DateOf(records[j].checkTime, offset))
  }

  /** Every check-out has a check-in of the same user on the same date. */
  predicate OutsHaveIns(records: seq<AttendanceRecord>, offset: int)
  {
    forall j :: 0 <= j < |records| && records[j].checkType == "OUT" ==>
      HasRecordOn(records, records[j].userId, "IN", DateOf(records[j].checkTime, offset), offset)
  }

  /** What the check-in/check-out rules are meant to keep true of the table. */
  predicate Consistent(records: seq<AttendanceRecord>, offset: int)
  {
    OnePerDay(records, "IN", offset) && OnePerDay(records, "OUT", offset) && OutsHaveIns(records, offset)
  }

  lemma HasRecordOnGrows(records: seq<AttendanceRecord>, rec: AttendanceRecord, userId: int, checkType: string, date: int, offset: int)
    requires HasRecordOn(records, userId, checkType, date, offset)
    ensures HasRecordOn(records + [rec], userId, checkType, date, offset)
  {
    var i :| 0 <= i < |records| && records[i].userId == userId && records[i].checkType == checkType
      && DateOf(records[i].checkTime, offset) == date;
    assert (records + [rec])[i] == records[i];
  }

  /** A record the rules admit, stamped with the current instant, keeps the table consistent. */
  lemma {:induction false} AdmittedRecordKeepsConsistency(records: seq<AttendanceRecord>, rec: AttendanceRecord, offset: int)
    requires Consistent(records, offset)
    requires Rejection(records, rec.userId, rec.checkType, DateOf(rec.checkTime, offset), offset).None?
    ensures Consistent(records + [rec], offset)
  {
    var out := records + [rec];
    var today := DateOf(rec.checkTime, offset);
    forall i, j | 0 <= i < j < |out| && out[i].userId == out[j].userId
      && out[i].checkType == "IN" && out[j].checkType == "IN"
      ensures DateOf(out[i].checkTime, offset) != DateOf(out[j].checkTime, offset)
    {
      if j == |records| {
        assert out[i] == records[i];
      } else {
        assert out[i] == records[i] && out[j] == records[j];
      }
    }
    forall i, j | 0 <= i < j < |out| && out[i].userId == out[j].userId
      && out[i].checkType == "OUT" && out[j].checkType == "OUT"
      ensures DateOf(out[i].checkTime, offset) != DateOf(out[j].checkTime, offset)
    {
      if j == |records| {
        assert out[i] == records[i];
      } else {
        assert out[i] == records[i] && out[j] == records[j];
      }
    }
    forall j | 0 <= j < |out| && out[j].checkType == "OUT"
      ensures HasRecordOn(out, out[j].userId, "IN", DateOf(out[j].checkTime, offset), offset)
    {
      if j == |records| {
        assert HasRecordOn(records, rec.userId, "IN", today, offset);
        HasRecordOnGrows(records, rec, rec.userId, "IN", today, offset);
      } else {
        assert out[j] == records[j];
        HasRecordOnGrows(records, rec, records[j].userId, "IN", DateOf(records[j].checkTime, offset), offset);
      }
    }
  }

  // ---------------------------------------------------------------------------
  // The date check as written: the stored instant is UTC (`datetime.utcnow()`), and
  // the database's `date()` of it is compared with the server's local date
  // (`datetime.now().date()`).
  // ---------------------------------------------------------------------------

  /** `has_checked_in_today`/`has_checked_out_today` as written: the UTC date of a record against the local date. */
  predicate HasRecordOnAsWritten(records: seq<AttendanceRecord>, userId: int, checkType: string, today: int)
  {
    exists i :: 0 <= i < |records| && records[i].userId == userId && records[i].checkType == checkType
      && DateOf(records[i].checkTime, 0) == today
  }

  /** The refusal of `create_attendance_record` as written, at instant `nowUtc` on a server `offset` seconds ahead of UTC. */
  function RejectionAsWritten(records: seq<AttendanceRecord>, userId: int, checkType: string, nowUtc: int, offset: int)
    : (r: Option<string>)
    ensures offset == 0 ==> r == Rejection(records, userId, checkType, DateOf(nowUtc, 0), 0)
  {
    var today := DateOf(nowUtc, offset);
    if checkType == "IN" && HasRecordOnAsWritten(records, userId, "IN", today) then Some("Already checked in today")
    else if checkType == "OUT" && HasRecordOnAsWritten(records, userId, "OUT", today) then Some("Already checked out today")
    else if checkType == "OUT" && !HasRecordOnAsWritten(records, userId, "IN", today) then Some("Must check in before checking out")
    else None
  }

  /**
   * On a server seven hours ahead of UTC, a check-in at 06:00 local time is stored under
   * the previous UTC date, so a second check-in half an hour later, on the same local
   * day, is let through and the table holds two check-ins for that day.
   */
  lemma SecondCheckInSameDayAsWritten()
    ensures var offset, now1 := 25200, 20000 * 86400 - 3600;
      var rec1 := AttendanceRecord(1, now1, "IN", 0.9, 10, None, "SUCCESS");
      var rec2 := AttendanceRecord(1, now1 + 1800, "IN", 0.9, 10, None, "SUCCESS");
      && RejectionAsWritten([], 1, "IN", now1, offset).None?
      && RejectionAsWritten([rec1], 1, "IN", now1 + 1800, offset).None?
      && DateOf(now1, offset) == DateOf(now1 + 1800, offset)
      && !Consistent([rec1, rec2], offset)
  {
    var offset, now1 := 25200, 20000 * 86400 - 3600;
    var rec1 := AttendanceRecord(1, now1, "IN", 0.9, 10, None, "SUCCESS");
    var rec2 := AttendanceRecord(1, now1 + 1800, "IN", 0.9, 10, None, "SUCCESS");
    assert DateOf(now1, 0) == 19999;
    assert DateOf(now1, offset) == 20000 && DateOf(now1 + 1800, offset) == 20000;
    assert !OnePerDay([rec1, rec2], "IN", offset) by {
      assert [rec1, rec2][0] == rec1 && [rec1, rec2][1] == rec2;
    }
  }

  /** With the record's date read on the same clock as "today", that second check-in is refused. */
  lemma SecondCheckInSameDayRefused()
    ensures var offset, now1 := 25200, 20000 * 86400 - 3600;
      var rec1 := AttendanceRecord(1, now1, "IN", 0.9, 10, None, "SUCCESS");
      Rejection([rec1], 1, "IN", DateOf(now1 + 1800, offset), offset) == Some("Already checked in today")
  {
    var offset, now1 := 25200, 20000 * 86400 - 3600;
    var rec1 := AttendanceRecord(1, now1, "IN", 0.9, 10, None, "SUCCESS");
    assert DateOf(now1, offset) == 20000 && DateOf(now1 + 1800, offset) == 20000;
    assert [rec1][0] == rec1;
  }

  // ---------------------------------------------------------------------------
  // `get_daily_records`: a filter, ordered by check time.
  // ---------------------------------------------------------------------------

  predicate SortedByTime(rs: seq<AttendanceRecord>)
  {
    forall i, j :: 0 <= i < j < |rs| ==> rs[i].checkTime <= rs[j].checkTime
  }

  /** `r` put before the first row of `rs` that is later than it. */
  function InsertByTime(r: AttendanceRecord, rs: seq<AttendanceRecord>): (out: seq<AttendanceRecord>)
    ensures multiset(out) == multiset(rs) + multiset{r}
    ensures forall k :: 0 <= k < |out| ==> out[k] == r || out[k] in rs
  {
    if rs == [] || r.checkTime <= rs[0].checkTime then [r] + rs
    else
      assert rs == [rs[0]] + rs[1..];
      [rs[0]] + InsertByTime(r, rs[1..])
  }

  lemma {:induction false} InsertKeepsSorted(r: AttendanceRecord, rs: seq<AttendanceRecord>)
    requires SortedByTime(rs)
    ensures SortedByTime(InsertByTime(r, rs))
  {
    if rs != [] && r.checkTime > rs[0].checkTime {
      InsertKeepsSorted(r, rs[1..]);
      var tail := InsertByTime(r, rs[1..]);
      assert forall k :: 0 <= k < |tail| ==> rs[0].checkTime <= tail[k].checkTime;
    }
  }

  /** The order of `ORDER BY check_time`; rows with equal times may come in any order there. */
  function SortByTime(rs: seq<AttendanceRecord>): (out: seq<AttendanceRecord>)
    ensures SortedByTime(out)
    ensures multiset(out) == multiset(rs)
  {
    if rs == [] then []
    else
      var sortedTail := SortByTime(rs[1..]);
      InsertKeepsSorted(rs[0], sortedTail);
      assert rs == [rs[0]] + rs[1..];
      InsertByTime(rs[0], sortedTail)
  }

  /** The user's rows dated `date`, in table order. */
  function OnDate(records: seq<AttendanceRecord>, userId: int, date: int, offset: int): (out: seq<AttendanceRecord>)
    ensures forall r :: r in out <==> r in records && r.userId == userId && DateOf(r.checkTime, offset) == date
    ensures multiset(out) <= multiset(records)
    ensures forall r ::
      multiset(out)[r] == (if r.userId == userId && DateOf(r.checkTime, offset) == date then multiset(records)[r] else 0)
  {
    if records == [] then []
    else
      var rest := OnDate(records[1..], userId, date, offset);
      assert records == [records[0]] + records[1..];
      if records[0].userId == userId && DateOf(records[0].checkTime, offset) == date then [records[0]] + rest else rest
  }

  class RecordService {
    const featureService: FS.FeatureService
    const maxDistance: int
    /** How far the server's local time zone is ahead of UTC, in seconds. */
    const utcOffset: int
    var records: seq<AttendanceRecord>

    /** `ATTENDANCE_MAX_DISTANCE` from the environment, 5000 when unset. */
    constructor (featureService: FS.FeatureService, maxDistanceSetting: Option<int>, utcOffset: int, records: seq<AttendanceRecord>)
      ensures this.featureService == featureService && this.utcOffset == utcOffset && this.records == records
      ensures maxDistance == (if maxDistanceSetting.Some? then maxDistanceSetting.value else DefaultMaxDistance)
    {
      this.featureService := featureService;
      maxDistance := if maxDistanceSetting.Some? then maxDistanceSetting.value else DefaultMaxDistance;
      this.utcOffset := utcOffset;
      this.records := records;
    }

    /** `get_daily_records`: the user's records dated `date` (today when absent), earliest first. */
    function GetDailyRecords(userId: int, date: Option<int>, nowUtc: int): (rs: seq<AttendanceRecord>)
      reads this
      ensures SortedByTime(rs)
      ensures multiset(rs) <= multiset(records)
      ensures forall r ::
        multiset(rs)[r]
        == if r.userId == userId && DateOf(r.checkTime, utcOffset) == (if date.Some? then date.value else DateOf(nowUtc, utcOffset))
           then multiset(records)[r] else 0
      ensures forall r :: r in rs <==>
        (r in records && r.userId == userId
         && DateOf(r.checkTime, utcOffset) == (if date.Some? then date.value else DateOf(nowUtc, utcOffset)))
    {
      var day := if date.Some? then date.value else DateOf(nowUtc, utcOffset);
      var rs := SortByTime(OnDate(records, userId, day, utcOffset));
      assert forall r :: r in rs <==> r in multiset(rs);
      rs
    }

    /** `has_checked_in_today`. */
    predicate HasCheckedInToday(userId: int, nowUtc: int): (b: bool)
      reads this
      ensures b <==> exists i ::
        && 0 <= i < |records| && records[i].userId == userId && records[i].checkType == "IN"
        && DateOf(records[i].checkTime, utcOffset) == DateOf(nowUtc, utcOffset)
      ensures b ==> exists i ::
        && 0 <= i < |records| && records[i].userId == userId && records[i].checkType == "IN"
        && nowUtc - SecondsPerDay < records[i].checkTime < nowUtc + SecondsPerDay
    {
      HasRecordOn(records, userId, "IN", DateOf(nowUtc, utcOffset), utcOffset)
    }

    /** `has_checked_out_today`. */
    predicate HasCheckedOutToday(userId: int, nowUtc: int): (b: bool)
      reads this
      ensures b <==> exists i ::
        && 0 <= i < |records| && records[i].userId == userId && records[i].checkType == "OUT"
        && DateOf(records[i].checkTime, utcOffset) == DateOf(nowUtc, utcOffset)
      ensures b ==> exists i ::
        && 0 <= i < |records| && records[i].userId == userId && records[i].checkType == "OUT"
        && nowUtc - SecondsPerDay < records[i].checkTime < nowUtc + SecondsPerDay
    {
      HasRecordOn(records, userId, "OUT", DateOf(nowUtc, utcOffset), utcOffset)
    }

    /**
     * `create_attendance_record`: a refused request changes nothing; an admitted one
     * appends exactly one record stamped `nowUtc`, and keeps the table consistent.
     */
    method CreateAttendanceRecord(userId: int, checkType: string, similarity: real, distance: int,
                                  deviceInfo: Option<string>, nowUtc: int)
      returns (r: Result<AttendanceRecord, string>)
      modifies this
      ensures checkType == "IN" && old(HasCheckedInToday(userId, nowUtc)) ==> r == Err("Already checked in today")
      ensures checkType == "OUT" && old(HasCheckedOutToday(userId, nowUtc)) ==> r == Err("Already checked out today")
      ensures checkType == "OUT" && !old(HasCheckedOutToday(userId, nowUtc)) && !old(HasCheckedInToday(userId, nowUtc)) ==>
        r == Err("Must check in before checking out")
      ensures r.Err? <==> Rejection(old(records), userId, checkType, DateOf(nowUtc, utcOffset), utcOffset).Some?
      ensures r.Err? ==> records == old(records)
      ensures r.Ok? ==>
        && r.value == AttendanceRecord(userId, nowUtc, checkType, similarity, distance, deviceInfo,
                                       Status(similarity, distance, featureService.similarityThreshold, maxDistance))
        && records == old(records) + [r.value]
      ensures Consistent(old(records), utcOffset) ==> Consistent(records, utcOffset)
    {
      if checkType == "IN" && HasCheckedInToday(userId, nowUtc) {
        return Err("Already checked in today");
      }
      if checkType == "OUT" && HasCheckedOutToday(userId, nowUtc) {
        return Err("Already checked out today");
      }
      if checkType == "OUT" && !HasCheckedInToday(userId, nowUtc) {
        return Err("Must check in before checking out");
      }
      var isValid := similarity >= featureService.similarityThreshold && distance <= maxDistance;
      var record := AttendanceRecord(userId, nowUtc, checkType, similarity, distance, deviceInfo,
                                     if isValid then "SUCCESS" else "FAILED");
      if Consistent(records, utcOffset) {
        AdmittedRecordKeepsConsistency(records, record, utcOffset);
      }
      records := records + [record];
      return Ok(record);
    }

    /**
     * `process_attendance`: face verification, then the record; the verifier's own
     * yes/no is dropped and the stored status decides.
     */
    method ProcessAttendance(userId: int, spoofResponse: FS.ServiceResponse, extractResponse: FS.ServiceResponse,
                             distance: int, deviceInfo: Option<string>, checkType: string, nowUtc: int)
      returns (r: Result<(AttendanceRecord, real), string>)
      modifies this
      ensures featureService.VerifyFace(userId, spoofResponse, extractResponse).Err? ==>
        r == Err(featureService.VerifyFace(userId, spoofResponse, extractResponse).error) && records == old(records)
      ensures r.Ok? ==>
        && featureService.VerifyFace(userId, spoofResponse, extractResponse).Ok?
        && r.value.1 == featureService.VerifyFace(userId, spoofResponse, extractResponse).value.0
        && r.value.0.faceSimilarity == r.value.1
        && records == old(records) + [r.value.0]
      ensures r.Ok? ==>
        r.value.0 == AttendanceRecord(userId, nowUtc, checkType, r.value.1, distance, deviceInfo,
                                      Status(r.value.1, distance, featureService.similarityThreshold, maxDistance))
      ensures featureService.VerifyFace(userId, spoofResponse, extractResponse).Ok? ==>
        var refusal := Rejection(old(records), userId, checkType, DateOf(nowUtc, utcOffset), utcOffset);
        && (r.Err? <==> refusal.Some?)
        && (refusal.Some? ==> r == Err(refusal.value))
      ensures r.Err? ==> records == old(records)
      ensures Consistent(old(records), utcOffset) ==> Consistent(records, utcOffset)
    {
      var verified := featureService.VerifyFace(userId, spoofResponse, extractResponse);
      if verified.Err? {
        return Err(verified.error);
      }
      var (similarity, isValid) := verified.value;
      var record := CreateAttendanceRecord(userId, checkType, similarity, distance, deviceInfo, nowUtc);
      if record.Err? {
        return Err(record.error);
      }
      return Ok((record.value, similarity));
    }
  }

  /**
   * The verifier's verdict is not what is stored: a face that passes can still give a
   * FAILED record (too far away), while a SUCCESS record always means it passed.
   */
  lemma VerifiedFaceMayStillFail(similarity: real, distance: int, threshold: real, maxDistance: int)
    ensures Status(similarity, distance, threshold, maxDistance) == "SUCCESS" ==> similarity >= threshold
    ensures similarity >= threshold && distance > maxDistance ==> Status(similarity, distance, threshold, maxDistance) == "FAILED"
  {
  }
}
