/** `controllers/trainingSessionController.js`: the training-session state
    machine. There is one record per (schedule, day) with status
    not_started, started or finished. Start needs a same-day
    `training_before` photo, Finish a same-day `training_after` photo, and the
    bulk status query is authorised all or nothing. */
module TrainingSessions {
  import opened Common
  import opened Text
  import opened Time
  import opened DateUtils
  import opened Entities
  import opened Store

  /** `hasTrainerPrivileges`: admin, director or trainer. */
  predicate HasTrainerPrivileges(a: Actor)
  {
    Includes(a.userType, Admin) || Includes(a.userType, Director) || Includes(a.userType, Trainer)
  }

  /** The trainer that populating a schedule's group yields; `None` when the
      group document no longer exists. */
  function GroupTrainer(schedules: map<Id, Schedule>, groups: map<Id, Group>, scheduleId: Id): Option<Id>
    requires scheduleId in schedules
  {
    var g := schedules[scheduleId].groupId;
    if g in groups then Some(groups[g].trainerId) else None
  }

  /** `ensureScheduleAccess`: 404 for a missing schedule; otherwise the
      schedule's group trainer or an admin/director gets it, anyone else 403. */
  function EnsureScheduleAccess(schedules: map<Id, Schedule>, groups: map<Id, Group>, scheduleId: Id, a: Actor): (r: Result<Schedule>)
    ensures r.Ok? ==> scheduleId in schedules && r.value == schedules[scheduleId]
    ensures r.Fail? ==> r.code == NotFound || r.code == Forbidden
  {
    if scheduleId !in schedules then Fail(NotFound)
    else if GroupTrainer(schedules, groups, scheduleId) != Some(a.id) && !IsAdminOrDirector(a) then Fail(Forbidden)
    else Ok(schedules[scheduleId])
  }

  /** The access rule in full: 404 exactly for a missing schedule; otherwise
      access iff the caller trains the group or is admin/director, so a
      schedule whose group is gone is open to admins and directors only. */
  lemma AccessRule(schedules: map<Id, Schedule>, groups: map<Id, Group>, scheduleId: Id, a: Actor)
    ensures EnsureScheduleAccess(schedules, groups, scheduleId, a) == Fail(NotFound) <==> scheduleId !in schedules
    ensures scheduleId in schedules ==>
      (EnsureScheduleAccess(schedules, groups, scheduleId, a).Ok? <==>
         GroupTrainer(schedules, groups, scheduleId) == Some(a.id) || IsAdminOrDirector(a))
    ensures scheduleId in schedules && GroupTrainer(schedules, groups, scheduleId).None? ==>
      (EnsureScheduleAccess(schedules, groups, scheduleId, a).Ok? <==> IsAdminOrDirector(a))
  {
  }

  /** The photo query of Start and Finish: a report of the given type linked to
      the schedule and created inside the day range. */
  predicate PhotoMatches(p: PhotoReport, kind: PhotoType, scheduleId: Id, range: DayRange)
  {
    p.kind == kind && p.relatedId == Some(scheduleId) && InRange(range, p.createdAt)
  }

  predicate HasPhoto(photos: map<Id, PhotoReport>, kind: PhotoType, scheduleId: Id, range: DayRange)
  {
    exists id :: id in photos && PhotoMatches(photos[id], kind, scheduleId, range)
  }

  /** `findOne(…).sort({ createdAt: -1 })`: a matching photo created no
      earlier than any other match. */
  predicate IsLatestPhoto(photos: map<Id, PhotoReport>, kind: PhotoType, scheduleId: Id, range: DayRange, id: Id)
  {
    && id in photos
    && PhotoMatches(photos[id], kind, scheduleId, range)
    && forall j :: j in photos && PhotoMatches(photos[j], kind, scheduleId, range) ==> photos[j].createdAt <= photos[id].createdAt
  }

  /** Every non-empty set of photos has one created last. */
  lemma {:induction false} LatestInSet(photos: map<Id, PhotoReport>, ids: set<Id>)
    requires ids != {} && ids <= photos.Keys
    ensures exists m :: m in ids && forall j :: j in ids ==> photos[j].createdAt <= photos[m].createdAt
    decreases |ids|
  {
    var x :| x in ids;
    if ids != {x} {
      var rest := ids - {x};
      LatestInSet(photos, rest);
      var m :| m in rest && forall j :: j in rest ==> photos[j].createdAt <= photos[m].createdAt;
      if photos[x].createdAt <= photos[m].createdAt {
        assert forall j :: j in ids ==> photos[j].createdAt <= photos[m].createdAt;
      } else {
        assert forall j :: j in ids ==> photos[j].createdAt <= photos[x].createdAt;
      }
    }
  }

  /** When some photo matches, the sorted query returns one. */
  lemma {:induction false} LatestPhotoExists(photos: map<Id, PhotoReport>, kind: PhotoType, scheduleId: Id, range: DayRange)
    requires HasPhoto(photos, kind, scheduleId, range)
    ensures exists id :: IsLatestPhoto(photos, kind, scheduleId, range, id)
  {
    var matching := set id | id in photos && PhotoMatches(photos[id], kind, scheduleId, range);
    var w :| w in photos && PhotoMatches(photos[w], kind, scheduleId, range);
    assert w in matching;
    LatestInSet(photos, matching);
    var m :| m in matching && forall j :: j in matching ==> photos[j].createdAt <= photos[m].createdAt;
    assert IsLatestPhoto(photos, kind, scheduleId, range, m);
  }

  function Lookup(sessions: map<SessionKey, TrainingSession>, key: SessionKey): Option<TrainingSession>
  {
    if key in sessions then Some(sessions[key]) else None
  }

  /** The upsert of `startSession`: `$set` of group, trainer, status,
      `startedAt` and the before photo; an inserted record takes the schema
      defaults for the other fields. */
  function StartedRecord(existing: Option<TrainingSession>, groupId: Id, trainerId: Id, now: int, photoId: Id): TrainingSession
  {
    match existing
    case None => TrainingSession(groupId, trainerId, Started, Some(now), None, Some(photoId), None)
    case Some(s) => s.(groupId := groupId, trainerId := trainerId, status := Started, startedAt := Some(now), beforePhotoReportId := Some(photoId))
  }

  /** The assignments of `finishSession` before `save()`. */
  function FinishedRecord(s: TrainingSession, now: int, photoId: Id): TrainingSession
  {
    s.(status := Finished, finishedAt := Some(now), afterPhotoReportId := Some(photoId))
  }

  /** The upsert a training photo report triggers: the photo id is set,
      group and trainer only on insert, and the status is left alone (an
      inserted record gets the default `not_started`). */
  function PhotoUpserted(existing: Option<TrainingSession>, groupId: Id, trainerId: Id, kind: PhotoType, photoId: Id): TrainingSession
  {
    var s := match existing
      case None => TrainingSession(groupId, trainerId, NotStarted, None, None, None, None)
      case Some(s) => s;
    if kind == TrainingBefore then s.(beforePhotoReportId := Some(photoId))
    else s.(afterPhotoReportId := Some(photoId))
  }

  /** Every check `startSession` makes before writing, in the source's order;
      `Ok` carries the session key to upsert. */
  function CheckStart(schedules: map<Id, Schedule>, groups: map<Id, Group>, photos: map<Id, PhotoReport>,
                      sessions: map<SessionKey, TrainingSession>, a: Actor, scheduleId: Option<Id>, date: DateInput, now: int): (r: Result<SessionKey>)
    ensures r.Ok? ==> r.value.scheduleId in schedules && schedules[r.value.scheduleId].groupId in groups
    ensures r.Ok? ==> IsMidnight(r.value.sessionDate)
    ensures !HasTrainerPrivileges(a) ==> r == Fail(Forbidden)
    ensures HasTrainerPrivileges(a) && (!Given(scheduleId) || NormalizeDate(date, now).None?) ==> r == Fail(BadRequest)
    ensures HasTrainerPrivileges(a) && Given(scheduleId) && NormalizeDate(date, now).Some? ==>
      var sid := scheduleId.value;
      var day := NormalizeDate(date, now).value;
      var access := EnsureScheduleAccess(schedules, groups, sid, a);
      var beforePhoto := HasPhoto(photos, TrainingBefore, sid, GetDayRange(Instant(day), now));
      var finished := SessionKey(sid, day) in sessions && sessions[SessionKey(sid, day)].status == Finished;
      && (access.Fail? ==> r == Fail(access.code))
      && (access.Ok? && !beforePhoto ==> r == Fail(BadRequest))
      && (access.Ok? && finished ==> r == Fail(BadRequest))
      && (r.Ok? <==> access.Ok? && beforePhoto && !finished && schedules[sid].groupId in groups)
      && (r.Ok? ==> r.value == SessionKey(sid, day))
  {
    if !HasTrainerPrivileges(a) then Fail(Forbidden)
    else if !Given(scheduleId) then Fail(BadRequest)
    else match NormalizeDate(date, now)
      case None => Fail(BadRequest)
      case Some(day) =>
        var sid := scheduleId.value;
        match EnsureScheduleAccess(schedules, groups, sid, a)
        case Fail(code) => Fail(code)
        case Ok(schedule) =>
          var key := SessionKey(sid, day);
          if !HasPhoto(photos, TrainingBefore, sid, GetDayRange(Instant(day), now)) then Fail(BadRequest)
          else if key in sessions && sessions[key].status == Finished then Fail(BadRequest)
          // `schedule.groupId._id` on a missing group is a TypeError
          else if schedule.groupId !in groups then Fail(ServerError)
          else Ok(key)
  }

  /** `startSession`. */
  method StartSession(db: Db, a: Actor, scheduleId: Option<Id>, date: DateInput, now: int) returns (r: Result<TrainingSession>)
    modifies db`sessions
    ensures var check := CheckStart(db.schedules, db.groups, db.photoReports, old(db.sessions), a, scheduleId, date, now);
      && (r.Fail? <==> check.Fail?)
      && (check.Fail? ==> r.code == check.code && db.sessions == old(db.sessions))
      && (check.Ok? ==>
            var key := check.value;
            var g := db.schedules[key.scheduleId].groupId;
            && r.value.beforePhotoReportId.Some?
            && IsLatestPhoto(db.photoReports, TrainingBefore, key.scheduleId, GetDayRange(Instant(key.sessionDate), now), r.value.beforePhotoReportId.value)
            && r.value == StartedRecord(Lookup(old(db.sessions), key), g, db.groups[g].trainerId, now, r.value.beforePhotoReportId.value)
            && db.sessions == old(db.sessions)[key := r.value])
    ensures forall k :: k in old(db.sessions) && old(db.sessions)[k].status == Finished ==>
      k in db.sessions && db.sessions[k].status == Finished
  {
    var check := CheckStart(db.schedules, db.groups, db.photoReports, db.sessions, a, scheduleId, date, now);
    if check.Fail? {
      return Fail(check.code);
    }
    var key := check.value;
    var range := GetDayRange(Instant(key.sessionDate), now);
    LatestPhotoExists(db.photoReports, TrainingBefore, key.scheduleId, range);
    var photoId :| IsLatestPhoto(db.photoReports, TrainingBefore, key.scheduleId, range, photoId);
    var g := db.schedules[key.scheduleId].groupId;
    var record := StartedRecord(Lookup(db.sessions, key), g, db.groups[g].trainerId, now, photoId);
    db.sessions := db.sessions[key := record];
    r := Ok(record);
  }

  /** What `finishSession` does once its checks pass. */
  datatype FinishStep = AlreadyFinished(key: SessionKey) | FinishNow(key: SessionKey)

  /** Every check `finishSession` makes, in the source's order. */
  function CheckFinish(schedules: map<Id, Schedule>, groups: map<Id, Group>, photos: map<Id, PhotoReport>,
                       sessions: map<SessionKey, TrainingSession>, a: Actor, scheduleId: Option<Id>, date: DateInput, now: int): (r: Result<FinishStep>)
    ensures r.Ok? ==> r.value.key in sessions
    ensures r.Ok? && r.value.AlreadyFinished? ==> sessions[r.value.key].status == Finished
    ensures r.Ok? && r.value.FinishNow? ==> sessions[r.value.key].status != Finished
    ensures !HasTrainerPrivileges(a) ==> r == Fail(Forbidden)
    ensures HasTrainerPrivileges(a) && (!Given(scheduleId) || NormalizeDate(date, now).None?) ==> r == Fail(BadRequest)
    ensures HasTrainerPrivileges(a) && Given(scheduleId) && NormalizeDate(date, now).Some? ==>
      var sid := scheduleId.value;
      var key := SessionKey(sid, NormalizeDate(date, now).value);
      var access := EnsureScheduleAccess(schedules, groups, sid, a);
      && (access.Fail? ==> r == Fail(access.code))
      && (access.Ok? && key !in sessions ==> r == Fail(BadRequest))
      && (access.Ok? && key in sessions && sessions[key].status == Finished ==> r == Ok(AlreadyFinished(key)))
      && (access.Ok? && key in sessions && sessions[key].status != Finished ==>
            r == if HasPhoto(photos, TrainingAfter, sid, GetDayRange(Instant(key.sessionDate), now))
                 then Ok(FinishNow(key)) else Fail(BadRequest))
  {
    if !HasTrainerPrivileges(a) then Fail(Forbidden)
    else if !Given(scheduleId) then Fail(BadRequest)
    else match NormalizeDate(date, now)
      case None => Fail(BadRequest)
      case Some(day) =>
        var sid := scheduleId.value;
        match EnsureScheduleAccess(schedules, groups, sid, a)
        case Fail(code) => Fail(code)
        case Ok(_) =>
          var key := SessionKey(sid, day);
          if key !in sessions then Fail(BadRequest)
          else if sessions[key].status == Finished then Ok(AlreadyFinished(key))
          else if !HasPhoto(photos, TrainingAfter, sid, GetDayRange(Instant(day), now)) then Fail(BadRequest)
          else Ok(FinishNow(key))
  }

  /** `finishSession`. */
  method FinishSession(db: Db, a: Actor, scheduleId: Option<Id>, date: DateInput, now: int) returns (r: Result<TrainingSession>)
    modifies db`sessions
    ensures var check := CheckFinish(db.schedules, db.groups, db.photoReports, old(db.sessions), a, scheduleId, date, now);
      && (r.Fail? <==> check.Fail?)
      && (check.Fail? ==> r.code == check.code && db.sessions == old(db.sessions))
      && (check.Ok? && check.value.AlreadyFinished? ==>
            r == Ok(old(db.sessions)[check.value.key]) && db.sessions == old(db.sessions))
      && (check.Ok? && check.value.FinishNow? ==>
            var key := check.value.key;
            && r.value.afterPhotoReportId.Some?
            && IsLatestPhoto(db.photoReports, TrainingAfter, key.scheduleId, GetDayRange(Instant(key.sessionDate), now), r.value.afterPhotoReportId.value)
            && r.value == FinishedRecord(old(db.sessions)[key], now, r.value.afterPhotoReportId.value)
            && db.sessions == old(db.sessions)[key := r.value])
    ensures forall k :: k in old(db.sessions) && old(db.sessions)[k].status == Finished ==>
      k in db.sessions && db.sessions[k].status == Finished
  {
    var check := CheckFinish(db.schedules, db.groups, db.photoReports, db.sessions, a, scheduleId, date, now);
    if check.Fail? {
      return Fail(check.code);
    }
    var key := check.value.key;
    if check.value.AlreadyFinished? {
      return Ok(db.sessions[key]);
    }
    var range := GetDayRange(Instant(key.sessionDate), now);
    LatestPhotoExists(db.photoReports, TrainingAfter, key.scheduleId, range);
    var photoId :| IsLatestPhoto(db.photoReports, TrainingAfter, key.scheduleId, range, photoId);
    var record := FinishedRecord(db.sessions[key], now, photoId);
    db.sessions := db.sessions[key := record];
    r := Ok(record);
  }

  /** A caller without admin, director or trainer is refused with 403 by
      Start and Finish before any input is looked at. */
  lemma ForbiddenFirst(schedules: map<Id, Schedule>, groups: map<Id, Group>, photos: map<Id, PhotoReport>,
                       sessions: map<SessionKey, TrainingSession>, a: Actor, scheduleId: Option<Id>, date: DateInput, now: int)
    requires !HasTrainerPrivileges(a)
    ensures CheckStart(schedules, groups, photos, sessions, a, scheduleId, date, now) == Fail(Forbidden)
    ensures CheckFinish(schedules, groups, photos, sessions, a, scheduleId, date, now) == Fail(Forbidden)
  {
  }

  /** Start succeeds only with a `training_before` photo of that schedule
      taken on the session's day, and never on a finished session. */
  lemma StartGate(schedules: map<Id, Schedule>, groups: map<Id, Group>, photos: map<Id, PhotoReport>,
                  sessions: map<SessionKey, TrainingSession>, a: Actor, scheduleId: Option<Id>, date: DateInput, now: int)
    requires CheckStart(schedules, groups, photos, sessions, a, scheduleId, date, now).Ok?
    ensures var key := CheckStart(schedules, groups, photos, sessions, a, scheduleId, date, now).value;
      && scheduleId == Some(key.scheduleId)
      && NormalizeDate(date, now) == Some(key.sessionDate)
      && (exists id :: id in photos && photos[id].kind == TrainingBefore && photos[id].relatedId == scheduleId
                       && SameDay(photos[id].createdAt, key.sessionDate))
      && (key !in sessions || sessions[key].status != Finished)
  {
    var key := CheckStart(schedules, groups, photos, sessions, a, scheduleId, date, now).value;
    var range := GetDayRange(Instant(key.sessionDate), now);
    var id :| id in photos && PhotoMatches(photos[id], TrainingBefore, key.scheduleId, range);
    InRangeIffSameDay(key.sessionDate, now, photos[id].createdAt);
  }

  /** Finish succeeds, when the session is not already finished, only with a
      `training_after` photo of that schedule taken on the session's day. */
  lemma FinishGate(schedules: map<Id, Schedule>, groups: map<Id, Group>, photos: map<Id, PhotoReport>,
                   sessions: map<SessionKey, TrainingSession>, a: Actor, scheduleId: Option<Id>, date: DateInput, now: int)
    requires CheckFinish(schedules, groups, photos, sessions, a, scheduleId, date, now).Ok?
    requires CheckFinish(schedules, groups, photos, sessions, a, scheduleId, date, now).value.FinishNow?
    ensures var key := CheckFinish(schedules, groups, photos, sessions, a, scheduleId, date, now).value.key;
      && scheduleId == Some(key.scheduleId)
      && exists id :: id in photos && photos[id].kind == TrainingAfter && photos[id].relatedId == scheduleId
                      && SameDay(photos[id].createdAt, key.sessionDate)
  {
    var key := CheckFinish(schedules, groups, photos, sessions, a, scheduleId, date, now).value.key;
    var range := GetDayRange(Instant(key.sessionDate), now);
    var id :| id in photos && PhotoMatches(photos[id], TrainingAfter, key.scheduleId, range);
    InRangeIffSameDay(key.sessionDate, now, photos[id].createdAt);
  }

  /** Nothing requires a session to be started before it is finished: a
      `not_started` record with a same-day after photo finishes directly. */
  lemma FinishFromNotStarted(schedules: map<Id, Schedule>, groups: map<Id, Group>, photos: map<Id, PhotoReport>,
                             sessions: map<SessionKey, TrainingSession>, a: Actor, sid: Id, day: int, now: int, photoId: Id)
    requires HasTrainerPrivileges(a) && sid != ""
    requires IsMidnight(day)
    requires EnsureScheduleAccess(schedules, groups, sid, a).Ok?
    requires SessionKey(sid, day) in sessions && sessions[SessionKey(sid, day)].status == NotStarted
    requires photoId in photos && photos[photoId].kind == TrainingAfter && photos[photoId].relatedId == Some(sid)
    requires SameDay(photos[photoId].createdAt, day)
    ensures CheckFinish(schedules, groups, photos, sessions, a, Some(sid), Instant(day), now) == Ok(FinishNow(SessionKey(sid, day)))
  {
    DayOfInstant(day, day);
    InRangeIffSameDay(day, now, photos[photoId].createdAt);
    assert PhotoMatches(photos[photoId], TrainingAfter, sid, GetDayRange(Instant(day), now));
  }

  /** A repeated Start re-stamps `startedAt` and the before photo and keeps
      what Finish would have written. */
  lemma RestartRestamps(s: TrainingSession, groupId: Id, trainerId: Id, now: int, photoId: Id)
    ensures var t := StartedRecord(Some(s), groupId, trainerId, now, photoId);
      && t.status == Started && t.startedAt == Some(now) && t.beforePhotoReportId == Some(photoId)
      && t.finishedAt == s.finishedAt && t.afterPhotoReportId == s.afterPhotoReportId
  {
  }

  /** A photo upsert never changes a session's status, and a session it
      creates is `not_started`. */
  lemma PhotoUpsertKeepsStatus(existing: Option<TrainingSession>, groupId: Id, trainerId: Id, kind: PhotoType, photoId: Id)
    ensures var t := PhotoUpserted(existing, groupId, trainerId, kind, photoId);
      && t.status == (if existing.Some? then existing.value.status else NotStarted)
      && (existing.Some? ==> t.groupId == existing.value.groupId && t.trainerId == existing.value.trainerId)
      && (kind == TrainingBefore ==> t.beforePhotoReportId == Some(photoId))
      && (kind == TrainingAfter ==> t.afterPhotoReportId == Some(photoId))
  {
  }

  /** A usable id of the status query: not empty, without a comma, and
      without blanks at either end. */
  predicate CleanId(id: string)
  {
    id != [] && ',' !in id && !IsSpace(id[0]) && !IsSpace(id[|id| - 1])
  }

  /** The ids of the status query: the comma-separated parts, trimmed, empty
      ones dropped. */
  function ParseIdList(s: string): (ids: seq<Id>)
    ensures forall id :: id in ids ==> CleanId(id)
  {
    NonEmptyTrimmed(Split(s, ','))
  }

  /** A part without a comma that is not blank trims to a clean id. */
  lemma TrimmedPartClean(part: string)
    requires ',' !in part && Trim(part) != []
    ensures CleanId(Trim(part))
  {
  }

  /** `parts.map(trim).filter(Boolean)`. */
  function NonEmptyTrimmed(parts: seq<string>): (ids: seq<string>)
    requires forall k :: 0 <= k < |parts| ==> ',' !in parts[k]
    ensures |ids| <= |parts|
    ensures forall id :: id in ids ==> CleanId(id)
  {
    if |parts| == 0 then []
    else
      var t := Trim(parts[0]);
      var rest := NonEmptyTrimmed(parts[1..]);
      if t == [] then rest
      else
        TrimmedPartClean(parts[0]);
        [t] + rest
  }

  /** No non-blank part is lost and nothing else is added. */
  lemma {:induction false} NonEmptyTrimmedKeeps(parts: seq<string>)
    requires forall k :: 0 <= k < |parts| ==> ',' !in parts[k]
    ensures forall id :: id in NonEmptyTrimmed(parts) <==> exists k :: 0 <= k < |parts| && Trim(parts[k]) == id && id != []
  {
    if |parts| > 0 {
      var rest := parts[1..];
      NonEmptyTrimmedKeeps(rest);
      forall id
        ensures id in NonEmptyTrimmed(parts) <==> exists k :: 0 <= k < |parts| && Trim(parts[k]) == id && id != []
      {
        if id in NonEmptyTrimmed(parts) && id !in NonEmptyTrimmed(rest) {
          assert Trim(parts[0]) == id && id != [];
        }
        if id in NonEmptyTrimmed(rest) {
          var k :| 0 <= k < |rest| && Trim(rest[k]) == id && id != [];
          assert parts[k + 1] == rest[k];
        }
        if exists k :: 0 <= k < |parts| && Trim(parts[k]) == id && id != [] {
          var k :| 0 <= k < |parts| && Trim(parts[k]) == id && id != [];
          if k > 0 {
            assert rest[k - 1] == parts[k];
          }
        }
      }
    }
  }

  /** The status query's authorisation of one schedule: it fails for a
      schedule whose group is missing, even for an admin. */
  predicate QueryAuthorized(schedules: map<Id, Schedule>, groups: map<Id, Group>, a: Actor, scheduleId: Id)
    requires scheduleId in schedules
  {
    match GroupTrainer(schedules, groups, scheduleId)
    case None => false
    case Some(t) => t == a.id || IsAdminOrDirector(a)
  }

  /** The distinct requested ids that name an existing schedule. */
  function FoundIds(schedules: map<Id, Schedule>, ids: seq<Id>): set<Id>
  {
    set id | id in ids && id in schedules
  }

  /** Every check `getSessionStatuses` makes; `Ok` carries the ids and the day. */
  function CheckStatusQuery(schedules: map<Id, Schedule>, groups: map<Id, Group>, a: Actor,
                            scheduleIds: Option<string>, date: DateInput, now: int): (r: Result<(seq<Id>, int)>)
    ensures r.Ok? ==> forall id :: id in r.value.0 ==> id in schedules && QueryAuthorized(schedules, groups, a, id)
    ensures !HasTrainerPrivileges(a) ==> r == Fail(Forbidden)
    ensures HasTrainerPrivileges(a) && (!Given(scheduleIds) || ParseIdList(scheduleIds.value) == []) ==> r == Fail(BadRequest)
    ensures HasTrainerPrivileges(a) && Given(scheduleIds) && ParseIdList(scheduleIds.value) != [] ==>
      var ids := ParseIdList(scheduleIds.value);
      && (NormalizeDate(date, now).None? ==> r == Fail(BadRequest))
      && (NormalizeDate(date, now).Some? && (exists id :: id in ids && id !in schedules) ==> r == Fail(NotFound))
      && (NormalizeDate(date, now).Some? && (forall id :: id in ids ==> id in schedules)
          && (forall i, j :: 0 <= i < j < |ids| ==> ids[i] != ids[j]) ==>
            (forall id :: id in ids ==> QueryAuthorized(schedules, groups, a, id)) || r == Fail(Forbidden))
      && (r.Ok? <==>
            && NormalizeDate(date, now).Some?
            && (forall id :: id in ids ==> id in schedules && QueryAuthorized(schedules, groups, a, id))
            && (forall i, j :: 0 <= i < j < |ids| ==> ids[i] != ids[j]))
      && (r.Ok? ==> r.value == (ids, NormalizeDate(date, now).value))
  {
    if !HasTrainerPrivileges(a) then Fail(Forbidden)
    else if !Given(scheduleIds) then Fail(BadRequest)
    else
      var ids := ParseIdList(scheduleIds.value);
      FoundAllIff(schedules, ids);
      if |ids| == 0 then Fail(BadRequest)
      else match NormalizeDate(date, now)
        case None => Fail(BadRequest)
        case Some(day) =>
          if |FoundIds(schedules, ids)| != |ids| then Fail(NotFound)
          else if exists id :: id in FoundIds(schedules, ids) && !QueryAuthorized(schedules, groups, a, id) then Fail(Forbidden)
          else
            FoundAllExist(schedules, ids);
            Ok((ids, day))
  }

  /** The query finds as many schedules as ids exactly when every id names a
      schedule and no id is repeated. */
  lemma {:induction false} FoundAllIff(schedules: map<Id, Schedule>, ids: seq<Id>)
    ensures |FoundIds(schedules, ids)| <= |ids|
    ensures |FoundIds(schedules, ids)| == |ids| <==>
      (forall id :: id in ids ==> id in schedules) && (forall i, j :: 0 <= i < j < |ids| ==> ids[i] != ids[j])
  {
    if |ids| > 0 {
      var rest := ids[1..];
      FoundAllIff(schedules, rest);
      assert forall id :: id in ids <==> id == ids[0] || id in rest;
      assert forall i :: 0 < i < |ids| ==> ids[i] == rest[i - 1];
      if ids[0] in schedules && ids[0] !in rest {
        assert FoundIds(schedules, ids) == FoundIds(schedules, rest) + {ids[0]};
      } else {
        assert FoundIds(schedules, ids) == FoundIds(schedules, rest);
        if ids[0] in rest {
          var j :| 0 <= j < |rest| && rest[j] == ids[0];
          assert ids[j + 1] == ids[0];
        }
      }
    }
  }

  lemma FoundAllExist(schedules: map<Id, Schedule>, ids: seq<Id>)
    requires |FoundIds(schedules, ids)| == |ids|
    ensures forall id :: id in ids ==> id in schedules
  {
    FoundAllIff(schedules, ids);
  }

  /** A repeated id makes the query answer 404, as does a missing one. */
  lemma StatusQueryRepeatedId(schedules: map<Id, Schedule>, groups: map<Id, Group>, a: Actor,
                              scheduleIds: Option<string>, date: DateInput, now: int, i: nat, j: nat)
    requires HasTrainerPrivileges(a) && Given(scheduleIds) && NormalizeDate(date, now).Some?
    requires var ids := ParseIdList(scheduleIds.value); i < j < |ids| && ids[i] == ids[j]
    ensures CheckStatusQuery(schedules, groups, a, scheduleIds, date, now) == Fail(NotFound)
  {
    FoundAllIff(schedules, ParseIdList(scheduleIds.value));
  }

  /** The query is stricter than `ensureScheduleAccess`: an admin asking about
      a schedule whose group is missing gets 403 from the query although
      Start and Finish would let the admin through. */
  lemma QueryStricterThanAccess(schedules: map<Id, Schedule>, groups: map<Id, Group>, a: Actor, scheduleId: Id)
    requires scheduleId in schedules && schedules[scheduleId].groupId !in groups
    requires IsAdminOrDirector(a)
    ensures !QueryAuthorized(schedules, groups, a, scheduleId)
    ensures EnsureScheduleAccess(schedules, groups, scheduleId, a).Ok?
  {
  }

  /** The answer of a successful query: each requested id mapped to the
      status of its session on that day, or `not_started`. */
  function ExpectedStatuses(sessions: map<SessionKey, TrainingSession>, ids: seq<Id>, day: int): map<Id, SessionStatus>
  {
    map id | id in ids :: if SessionKey(id, day) in sessions then sessions[SessionKey(id, day)].status else NotStarted
  }

  /** `getSessionStatuses`: the checks, then the answer. */
  method GetSessionStatuses(db: Db, a: Actor, scheduleIds: Option<string>, date: DateInput, now: int)
    returns (r: Result<map<Id, SessionStatus>>)
    ensures var check := CheckStatusQuery(db.schedules, db.groups, a, scheduleIds, date, now);
      && (r.Fail? <==> check.Fail?)
      && (check.Fail? ==> r.code == check.code)
      && (check.Ok? ==> r.value == ExpectedStatuses(db.sessions, check.value.0, check.value.1))
    ensures r.Ok? ==>
      && scheduleIds.Some? && NormalizeDate(date, now).Some?
      && (forall id :: id in r.value <==> id in ParseIdList(scheduleIds.value))
      && forall id :: id in r.value ==>
           var key := SessionKey(id, NormalizeDate(date, now).value);
           r.value[id] == if key in db.sessions then db.sessions[key].status else NotStarted
  {
    var check := CheckStatusQuery(db.schedules, db.groups, a, scheduleIds, date, now);
    if check.Fail? {
      return Fail(check.code);
    }
    var statuses := FillStatuses(db.sessions, check.value.0, check.value.1);
    r := Ok(statuses);
  }

  /** The two `forEach` loops of `getSessionStatuses`: every id starts as
      `not_started`, then each session found for the day overwrites its
      schedule's entry. */
  method FillStatuses(sessions: map<SessionKey, TrainingSession>, ids: seq<Id>, day: int) returns (statuses: map<Id, SessionStatus>)
    ensures statuses == ExpectedStatuses(sessions, ids, day)
  {
    statuses := map[];
    var i := 0;
    while i < |ids|
      invariant 0 <= i <= |ids|
      invariant forall id :: id in statuses <==> id in ids[..i]
      invariant forall id :: id in statuses ==> statuses[id] == NotStarted
    {
      statuses := statuses[ids[i] := NotStarted];
      i := i + 1;
    }
    assert ids[..|ids|] == ids;
    var found := set k | k in sessions && k.scheduleId in ids && k.sessionDate == day;
    var rest := found;
    while rest != {}
      invariant rest <= found
      invariant forall id :: id in statuses <==> id in ids
      invariant forall id :: id in statuses ==>
        statuses[id] == if SessionKey(id, day) in found - rest then sessions[SessionKey(id, day)].status else NotStarted
      decreases rest
    {
      var k :| k in rest;
      statuses := statuses[k.scheduleId := sessions[k].status];
      rest := rest - {k};
    }
  }
}
