/** `controllers/photoReportController.js`: photo reports before and after a
    training or of a cleaning, who may file and read them, and the session
    record a training photo creates or updates. */
module PhotoReports {
  import opened Common
  import opened Time
  import opened DateUtils
  import opened Entities
  import opened Store
  import opened TrainingSessions

  /** The wire name of each report type (`allowedTypes`). */
  function TypeName(k: PhotoType): string
  {
    match k
    case TrainingBefore => "training_before"
    case TrainingAfter => "training_after"
    case Cleaning => "cleaning"
  }

  /** `!type || !allowedTypes.includes(type)` rejects everything but the three names. */
  function ParsePhotoType(s: string): (r: Option<PhotoType>)
    ensures r.Some? ==> TypeName(r.value) == s
  {
    if s == "training_before" then Some(TrainingBefore)
    else if s == "training_after" then Some(TrainingAfter)
    else if s == "cleaning" then Some(Cleaning)
    else None
  }

  /** Parsing inverts naming, so exactly the three names are accepted. */
  lemma ParseTypeName(k: PhotoType)
    ensures ParsePhotoType(TypeName(k)) == Some(k)
  {
  }

  predicate IsTraining(k: PhotoType)
  {
    k == TrainingBefore || k == TrainingAfter
  }

  /** Uploaded file paths win; otherwise the body's photos, a single one
      wrapped into a list. */
  function SelectPhotos(uploaded: seq<string>, body: OneOrMany<string>): (photos: seq<string>)
    ensures |uploaded| > 0 ==> photos == uploaded
    ensures |uploaded| == 0 ==> photos == StringList(body)
  {
    if |uploaded| > 0 then uploaded else StringList(body)
  }

  /** `canManageReports`: `userType.some(…)` exists on arrays only, so on a
      bare role string it throws; `None` stands for that exception. */
  function CanManageReports(a: Actor): (r: Option<bool>)
    ensures r.None? <==> a.userType.RoleText?
    ensures r == Some(true) <==>
      a.userType.RoleList? && (Admin in a.userType.roles || Director in a.userType.roles || Manager in a.userType.roles)
  {
    match a.userType
    case RoleText(_) => None
    case RoleList(roles) => Some(Admin in roles || Director in roles || Manager in roles)
  }

  /** The role a report type needs: a trainer for a training photo, tech
      staff for a cleaning photo; admins and directors may file either. */
  predicate MayFileKind(a: Actor, k: PhotoType)
  {
    IsAdminOrDirector(a) || (if IsTraining(k) then Includes(a.userType, Trainer) else Includes(a.userType, TechStaff))
  }

  /** The related document exists, a schedule's group is still there, and
      it belongs to the caller unless the caller is an admin or director. */
  predicate MayFileFor(schedules: map<Id, Schedule>, groups: map<Id, Group>, cleaning: map<Id, CleaningReport>,
                       a: Actor, k: PhotoType, rid: Id)
  {
    if IsTraining(k) then
      && rid in schedules && schedules[rid].groupId in groups
      && (IsAdminOrDirector(a) || groups[schedules[rid].groupId].trainerId == a.id)
    else
      rid in cleaning && (IsAdminOrDirector(a) || cleaning[rid].staffId == a.id)
  }

  /** What a valid creation request resolves to. */
  datatype PhotoPlan = PhotoPlan(kind: PhotoType, relatedId: Id, relatedModel: RelatedModel, photos: seq<string>)

  /** The checks of `createPhotoReport`, in the source's order. */
  function CheckCreate(schedules: map<Id, Schedule>, groups: map<Id, Group>, cleaning: map<Id, CleaningReport>,
                       a: Actor, typeName: Option<string>, relatedId: Option<Id>,
                       uploaded: seq<string>, body: OneOrMany<string>): (r: Result<PhotoPlan>)
    ensures r.Ok? ==> Some(TypeName(r.value.kind)) == typeName && relatedId == Some(r.value.relatedId)
    ensures r.Ok? ==> |r.value.photos| > 0
    ensures r.Ok? && IsTraining(r.value.kind) ==>
      && r.value.relatedModel == ScheduleModel
      && r.value.relatedId in schedules && schedules[r.value.relatedId].groupId in groups
      && (IsAdminOrDirector(a) || groups[schedules[r.value.relatedId].groupId].trainerId == a.id)
    ensures r.Ok? && r.value.kind == Cleaning ==>
      && r.value.relatedModel == CleaningReportModel
      && r.value.relatedId in cleaning
      && (IsAdminOrDirector(a) || cleaning[r.value.relatedId].staffId == a.id)
    ensures typeName.None? || ParsePhotoType(typeName.value).None? ==> r == Fail(BadRequest)
    ensures |SelectPhotos(uploaded, body)| == 0 ==> r == Fail(BadRequest)
    ensures typeName.Some? && ParsePhotoType(typeName.value).Some? && |SelectPhotos(uploaded, body)| > 0 ==>
      var k := ParsePhotoType(typeName.value).value;
      && (!MayFileKind(a, k) ==> r == Fail(Forbidden))
      && (MayFileKind(a, k) && !Given(relatedId) ==> r == Fail(BadRequest))
      && (MayFileKind(a, k) && Given(relatedId) && IsTraining(k) ==>
            var rid := relatedId.value;
            && (rid !in schedules ==> r == Fail(NotFound))
            && (rid in schedules && schedules[rid].groupId !in groups ==> r == Fail(BadRequest))
            && (rid in schedules && schedules[rid].groupId in groups && !IsAdminOrDirector(a) ==>
                  groups[schedules[rid].groupId].trainerId == a.id || r == Fail(Forbidden)))
      && (MayFileKind(a, k) && Given(relatedId) && k == Cleaning ==>
            var rid := relatedId.value;
            && (rid !in cleaning ==> r == Fail(NotFound))
            && (rid in cleaning && !IsAdminOrDirector(a) && cleaning[rid].staffId != a.id ==> r == Fail(Forbidden)))
    ensures r.Ok? <==>
      && typeName.Some? && ParsePhotoType(typeName.value).Some?
      && |SelectPhotos(uploaded, body)| > 0 && "" !in SelectPhotos(uploaded, body)
      && MayFileKind(a, ParsePhotoType(typeName.value).value)
      && Given(relatedId)
      && MayFileFor(schedules, groups, cleaning, a, ParsePhotoType(typeName.value).value, relatedId.value)
    ensures r.Ok? ==> r.value.photos == SelectPhotos(uploaded, body)
  {
    var kind := if typeName.Some? then ParsePhotoType(typeName.value) else None;
    var photos := SelectPhotos(uploaded, body);
    var isTrainer := Includes(a.userType, Trainer);
    var isTechStaff := Includes(a.userType, TechStaff);
    var isAdminOrDirector := IsAdminOrDirector(a);
    if kind.None? then Fail(BadRequest)
    else if |photos| == 0 then Fail(BadRequest)
    else if !isTrainer && !isTechStaff && !isAdminOrDirector then Fail(Forbidden)
    else if IsTraining(kind.value) && !isTrainer && !isAdminOrDirector then Fail(Forbidden)
    else if kind.value == Cleaning && !isTechStaff && !isAdminOrDirector then Fail(Forbidden)
    else if !Given(relatedId) then Fail(BadRequest)
    else
      var rid := relatedId.value;
      if IsTraining(kind.value) then
        if rid !in schedules then Fail(NotFound)
        // the populated group is null when the group document is gone
        else if schedules[rid].groupId !in groups then Fail(BadRequest)
        else if !isAdminOrDirector && groups[schedules[rid].groupId].trainerId != a.id then Fail(Forbidden)
        // a path the schema requires to be non-empty
        else if "" in photos then Fail(ServerError)
        else Ok(PhotoPlan(kind.value, rid, ScheduleModel, photos))
      else
        if rid !in cleaning then Fail(NotFound)
        else if !isAdminOrDirector && cleaning[rid].staffId != a.id then Fail(Forbidden)
        else if "" in photos then Fail(ServerError)
        else Ok(PhotoPlan(kind.value, rid, CleaningReportModel, photos))
  }

  /** The document `PhotoReport.create` stores; an omitted comment takes the
      schema default "". */
  function NewPhotoReport(plan: PhotoPlan, a: Actor, comment: Option<string>, now: int): PhotoReport
  {
    PhotoReport(plan.kind, a.id, Some(plan.relatedId), Some(plan.relatedModel), plan.photos,
                OrEmpty(comment), now)
  }

  /** `createPhotoReport`: store the report; a training photo then upserts the
      session of its schedule on the day of its `createdAt`. `photoId` is the
      id the database assigns. */
  method CreatePhotoReport(db: Db, a: Actor, typeName: Option<string>, relatedId: Option<Id>, comment: Option<string>,
                           uploaded: seq<string>, body: OneOrMany<string>, now: int, photoId: Id)
    returns (r: Result<PhotoReport>)
    requires photoId !in db.photoReports
    modifies db`photoReports, db`sessions
    ensures var check := CheckCreate(db.schedules, db.groups, db.cleaningReports, a, typeName, relatedId, uploaded, body);
      && (r.Fail? <==> check.Fail?)
      && (check.Fail? ==> r.code == check.code && db.photoReports == old(db.photoReports) && db.sessions == old(db.sessions))
      && (check.Ok? ==>
            var plan := check.value;
            && r == Ok(NewPhotoReport(plan, a, comment, now))
            && db.photoReports == old(db.photoReports)[photoId := r.value]
            && (plan.kind == Cleaning ==> db.sessions == old(db.sessions))
            && (IsTraining(plan.kind) ==>
                  var key := SessionKey(plan.relatedId, StartOfDay(now));
                  var g := db.schedules[plan.relatedId].groupId;
                  db.sessions == old(db.sessions)[key := PhotoUpserted(Lookup(old(db.sessions), key), g, db.groups[g].trainerId, plan.kind, photoId)]))
  {
    var check := CheckCreate(db.schedules, db.groups, db.cleaningReports, a, typeName, relatedId, uploaded, body);
    if check.Fail? {
      return Fail(check.code);
    }
    var plan := check.value;
    var report := NewPhotoReport(plan, a, comment, now);
    db.photoReports := db.photoReports[photoId := report];
    if IsTraining(plan.kind) {
      var sessionDate := NormalizeDate(Instant(now), now);
      var key := SessionKey(plan.relatedId, sessionDate.value);
      var g := db.schedules[plan.relatedId].groupId;
      db.sessions := db.sessions[key := PhotoUpserted(Lookup(db.sessions, key), g, db.groups[g].trainerId, plan.kind, photoId)];
    }
    r := Ok(report);
  }

  /** A training photo filed at `now` is the photo Start or Finish look for on
      that day: after it is stored, the day's range query finds a photo of its
      type for its schedule. */
  lemma {:induction false} FiledPhotoCounts(photos: map<Id, PhotoReport>, photoId: Id, report: PhotoReport, sid: Id, now: int, later: int)
    requires report.relatedId == Some(sid) && report.createdAt == now
    ensures HasPhoto(photos[photoId := report], report.kind, sid, GetDayRange(Instant(now), later))
  {
    var range := GetDayRange(Instant(now), later);
    InRangeIffSameDay(now, later, now);
    assert PhotoMatches(report, report.kind, sid, range);
    assert photos[photoId := report][photoId] == report;
  }

  /** A filter value of `getPhotoReports`; `None` is an omitted parameter. */
  predicate ListedBy(p: PhotoReport, typeName: Option<string>, author: Option<Id>, dateFrom: Option<int>, dateTo: Option<int>)
  {
    && (typeName.Some? ==> TypeName(p.kind) == typeName.value)
    && (author.Some? ==> p.authorId == author.value)
    && (dateFrom.Some? ==> dateFrom.value <= p.createdAt)
    && (dateTo.Some? ==> p.createdAt <= dateTo.value)
  }

  /** `getPhotoReports`: the ids of the reports the query returns. */
  function GetPhotoReports(photos: map<Id, PhotoReport>, a: Actor, typeName: Option<string>, userId: Option<Id>,
                           dateFrom: Option<int>, dateTo: Option<int>): (r: Result<set<Id>>)
    ensures r.Fail? ==> r.code == ServerError || r.code == Forbidden
    ensures r == Fail(ServerError) <==> CanManageReports(a).None?
    ensures r == Fail(Forbidden) <==>
      CanManageReports(a) == Some(false) && !Includes(a.userType, Trainer) && !Includes(a.userType, TechStaff)
    ensures r.Ok? ==> forall id :: id in r.value ==> id in photos
    ensures r.Ok? && Given(userId) ==> forall id :: id in r.value ==> photos[id].authorId == userId.value
    ensures r.Ok? && CanManageReports(a) == Some(false) && !Given(userId) ==>
      forall id :: id in r.value ==> photos[id].authorId == a.id
    ensures r.Ok? ==> forall id :: id in photos ==>
      (id in r.value <==>
         && (Given(typeName) ==> TypeName(photos[id].kind) == typeName.value)
         && Between(photos[id].createdAt, dateFrom, dateTo)
         && (Given(userId) ==> photos[id].authorId == userId.value)
         && (!Given(userId) && CanManageReports(a) == Some(false) ==> photos[id].authorId == a.id))
  {
    match CanManageReports(a)
    case None => Fail(ServerError)
    case Some(manage) =>
      if !manage && !Includes(a.userType, Trainer) && !Includes(a.userType, TechStaff) then Fail(Forbidden)
      else
        var typeFilter := if Given(typeName) then typeName else None;
        var author := if Given(userId) then userId else if !manage then Some(a.id) else None;
        Ok(set id | id in photos && ListedBy(photos[id], typeFilter, author, dateFrom, dateTo))
  }

  /** Every report of the caller that passes the other filters is listed:
      the scoping narrows to the caller's own reports and no further. */
  lemma OwnReportsListed(photos: map<Id, PhotoReport>, a: Actor, id: Id, dateFrom: Option<int>, dateTo: Option<int>)
    requires GetPhotoReports(photos, a, None, None, dateFrom, dateTo).Ok?
    requires id in photos && photos[id].authorId == a.id && ListedBy(photos[id], None, None, dateFrom, dateTo)
    ensures id in GetPhotoReports(photos, a, None, None, dateFrom, dateTo).value
  {
  }

  /** A trainer who names another author in `userId` gets that author's
      reports: the listing narrows a non-manager to their own reports only
      when `userId` is omitted, while `getPhotoReportById` refuses the same
      trainer each of those reports. */
  lemma TrainerReadsOthersByUserId(photos: map<Id, PhotoReport>, users: map<Id, User>, a: Actor, other: Id, id: Id)
    requires a.userType == RoleList([Trainer]) && other != a.id && other != ""
    requires id in photos && photos[id].authorId == other && other in users
    ensures GetPhotoReports(photos, a, None, Some(other), None, None).Ok?
    ensures id in GetPhotoReports(photos, a, None, Some(other), None, None).value
    ensures GetPhotoReportById(photos, users, a, id) == Fail(Forbidden)
  {
  }

  /** `getPhotoReportById`. Populating a deleted author gives `null`, whose
      `_id` throws. */
  function GetPhotoReportById(photos: map<Id, PhotoReport>, users: map<Id, User>, a: Actor, id: Id): (r: Result<PhotoReport>)
    ensures r.Ok? <==>
      id in photos && photos[id].authorId in users && (photos[id].authorId == a.id || CanManageReports(a) == Some(true))
    ensures r.Ok? ==> r.value == photos[id]
    ensures id !in photos ==> r == Fail(NotFound)
  {
    if id !in photos then Fail(NotFound)
    else if photos[id].authorId !in users then Fail(ServerError)
    else if photos[id].authorId == a.id then Ok(photos[id])
    else match CanManageReports(a)
      case None => Fail(ServerError)
      case Some(false) => Fail(Forbidden)
      case Some(true) => Ok(photos[id])
  }
}
