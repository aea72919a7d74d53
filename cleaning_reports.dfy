/** `controllers/cleaningReportController.js`: technical staff report the
    zones they cleaned, with photos; each report gets a companion photo
    report of type cleaning, and reports are listed by who may see them. */
module CleaningReports {
  import opened Common
  import opened Entities
  import opened Store
  import PhotoReports

  /** `allowedZones`, which is also the schema's enum. */
  const AllowedZones: seq<string> := ["hall", "locker_room", "shower", "corridor"]

  /** `zones.find(zone => !allowedZones.includes(zone))`: the first zone
      outside the allowed ones, if any. */
  function FirstInvalidZone(zones: seq<string>): (r: Option<string>)
    ensures r.None? <==> forall i :: 0 <= i < |zones| ==> zones[i] in AllowedZones
    ensures r.Some? ==> exists k :: 0 <= k < |zones| && zones[k] == r.value && r.value !in AllowedZones
                                    && forall j :: 0 <= j < k ==> zones[j] in AllowedZones
  {
    if |zones| == 0 then None
    else if zones[0] !in AllowedZones then Some(zones[0])
    else
      var rest := FirstInvalidZone(zones[1..]);
      if rest.Some? then
        var k :| 0 < k + 1 <= |zones[1..]| && zones[1..][k] == rest.value && rest.value !in AllowedZones
                 && forall j :: 0 <= j < k ==> zones[1..][j] in AllowedZones;
        assert zones[k + 1] == rest.value;
        rest
      else
        assert forall i :: 1 <= i < |zones| ==> zones[i] == zones[1..][i - 1];
        rest
  }

  predicate MayCreate(a: Actor)
  {
    Includes(a.userType, TechStaff) || IsAdminOrDirector(a)
  }

  /** The checks of `createCleaningReport`, in order, and the zones it
      stores: 403 for anyone but technical staff or an admin or director;
      400 for no zone, for a named invalid zone and for no photo. The
      invalid zone is reported only when it is truthy: an empty zone name
      passes that test and fails the schema's enum instead (500), as does an
      empty photo path. */
  function CheckCreate(a: Actor, zones: OneOrMany<string>, photos: seq<string>): (r: Result<seq<string>>)
    ensures !MayCreate(a) ==> r == Fail(Forbidden)
    ensures MayCreate(a) && |StringList(zones)| == 0 ==> r == Fail(BadRequest)
    ensures r.Ok? <==>
      && MayCreate(a) && |StringList(zones)| > 0 && |photos| > 0 && "" !in photos
      && forall i :: 0 <= i < |StringList(zones)| ==> StringList(zones)[i] in AllowedZones
    ensures r.Ok? ==> r.value == StringList(zones)
    ensures (&& MayCreate(a) && |StringList(zones)| > 0
             && (exists z :: z in StringList(zones) && z != "" && z !in AllowedZones)
             && (forall y :: y in StringList(zones) && y !in AllowedZones ==> y != "")) ==> r == Fail(BadRequest)
  {
    var list := StringList(zones);
    if !MayCreate(a) then Fail(Forbidden)
    else if |list| == 0 then Fail(BadRequest)
    else
      var invalid := FirstInvalidZone(list);
      if invalid.Some? && invalid.value != "" then Fail(BadRequest)
      else if |photos| == 0 then Fail(BadRequest)
      // the schema's enum on zones and required photo paths
      else if invalid.Some? || "" in photos then Fail(ServerError)
      else Ok(list)
  }

  /** An empty zone name ahead of an invalid one hides it from the named
      check: `["", "roof"]` is answered 500, not 400. */
  lemma EmptyZoneEscapesCheck(a: Actor, photos: seq<string>)
    requires MayCreate(a) && |photos| > 0
    ensures CheckCreate(a, Many(["", "roof"]), photos) == Fail(ServerError)
  {
    assert FirstInvalidZone(["", "roof"]) == Some("");
  }

  /** The report `CleaningReport.create` stores: the date defaults to now and
      the comment to "". */
  function NewReport(a: Actor, date: Option<int>, zones: seq<string>, comment: Option<string>, photos: seq<string>, now: int): CleaningReport
  {
    CleaningReport(a.id, if date.Some? then date.value else now, zones, photos, OrEmpty(comment))
  }

  /** The companion photo report: type cleaning, pointing at the new report,
      with the same photos and comment. */
  function Companion(a: Actor, reportId: Id, comment: Option<string>, photos: seq<string>, now: int): PhotoReport
  {
    PhotoReports.NewPhotoReport(PhotoReports.PhotoPlan(Cleaning, reportId, CleaningReportModel, photos), a, comment, now)
  }

  /** `createCleaningReport`; `date` is the parsed date of the request (`None`
      when omitted), `photos` the paths of the uploaded files, and
      `reportId`, `photoId` the ids the database assigns. */
  method CreateCleaningReport(db: Db, a: Actor, date: Option<int>, zones: OneOrMany<string>, comment: Option<string>,
                              photos: seq<string>, now: int, reportId: Id, photoId: Id) returns (r: Result<CleaningReport>)
    requires reportId !in db.cleaningReports && photoId !in db.photoReports
    modifies db`cleaningReports, db`photoReports
    ensures var check := CheckCreate(a, zones, photos);
      && (check.Fail? ==> r == Fail(check.code)
                          && db.cleaningReports == old(db.cleaningReports) && db.photoReports == old(db.photoReports))
      && (check.Ok? ==> r == Ok(NewReport(a, date, check.value, comment, photos, now))
                        && db.cleaningReports == old(db.cleaningReports)[reportId := r.value]
                        && db.photoReports == old(db.photoReports)[photoId := Companion(a, reportId, comment, photos, now)])
  {
    var check := CheckCreate(a, zones, photos);
    if check.Fail? {
      return Fail(check.code);
    }
    var report := NewReport(a, date, check.value, comment, photos, now);
    db.cleaningReports := db.cleaningReports[reportId := report];
    db.photoReports := db.photoReports[photoId := Companion(a, reportId, comment, photos, now)];
    r := Ok(report);
  }

  /** The companion is the very photo report the caller could have filed
      through the photo-report handler for the new cleaning report. */
  lemma CompanionAcceptedByPhotoReports(schedules: map<Id, Schedule>, groups: map<Id, Group>,
                                        cleaning: map<Id, CleaningReport>, a: Actor, date: Option<int>,
                                        zones: OneOrMany<string>, comment: Option<string>, photos: seq<string>,
                                        now: int, reportId: Id)
    requires CheckCreate(a, zones, photos).Ok? && reportId != ""
    ensures var report := NewReport(a, date, StringList(zones), comment, photos, now);
      var plan := PhotoReports.CheckCreate(schedules, groups, cleaning[reportId := report], a, Some("cleaning"),
                                           Some(reportId), photos, Missing);
      && plan == Ok(PhotoReports.PhotoPlan(Cleaning, reportId, CleaningReportModel, photos))
      && PhotoReports.NewPhotoReport(plan.value, a, comment, now) == Companion(a, reportId, comment, photos, now)
  {
    assert PhotoReports.ParsePhotoType("cleaning") == Some(Cleaning);
  }

  /** Technical staff who are neither admin, director nor manager see only
      their own reports. */
  predicate OwnOnly(a: Actor)
  {
    Includes(a.userType, TechStaff) && !IsAdminOrDirector(a) && !Includes(a.userType, Manager)
  }

  /** `getCleaningReports`: technical staff, admins, directors and managers;
      the others may narrow the list to one member of staff. */
  function GetCleaningReports(reports: map<Id, CleaningReport>, a: Actor, dateFrom: Option<int>, dateTo: Option<int>,
                              staffId: Option<Id>): (r: Result<set<Id>>)
    ensures r.Ok? <==> Includes(a.userType, TechStaff) || IsAdminOrDirector(a) || Includes(a.userType, Manager)
    ensures r.Fail? ==> r.code == Forbidden
    ensures r.Ok? ==> forall id :: id in r.value ==> id in reports && Between(reports[id].date, dateFrom, dateTo)
    ensures r.Ok? && OwnOnly(a) ==> forall id :: id in r.value <==>
      id in reports && reports[id].staffId == a.id && Between(reports[id].date, dateFrom, dateTo)
    ensures r.Ok? && !OwnOnly(a) ==> forall id :: id in r.value <==>
      id in reports && Between(reports[id].date, dateFrom, dateTo) && (Given(staffId) ==> reports[id].staffId == staffId.value)
  {
    if !Includes(a.userType, TechStaff) && !IsAdminOrDirector(a) && !Includes(a.userType, Manager) then Fail(Forbidden)
    else if OwnOnly(a) then
      Ok(set id | id in reports && Between(reports[id].date, dateFrom, dateTo) && reports[id].staffId == a.id)
    else
      Ok(set id | id in reports && Between(reports[id].date, dateFrom, dateTo)
                  && (Given(staffId) ==> reports[id].staffId == staffId.value))
  }

  /** A member of staff cannot widen their own listing with `staffId`. */
  lemma {:induction false} StaffIdIgnoredForOwnOnly(reports: map<Id, CleaningReport>, a: Actor, dateFrom: Option<int>,
                                                    dateTo: Option<int>, staffId: Option<Id>)
    requires OwnOnly(a)
    ensures GetCleaningReports(reports, a, dateFrom, dateTo, staffId) == GetCleaningReports(reports, a, dateFrom, dateTo, None)
  {
  }

  /** A report a member of staff just filed appears in their own listing
      over any date range that holds its date. */
  lemma CreatedReportListed(reports: map<Id, CleaningReport>, a: Actor, date: Option<int>, zones: OneOrMany<string>,
                            comment: Option<string>, photos: seq<string>, now: int, reportId: Id,
                            dateFrom: Option<int>, dateTo: Option<int>)
    requires CheckCreate(a, zones, photos).Ok? && OwnOnly(a)
    requires Between(if date.Some? then date.value else now, dateFrom, dateTo)
    ensures var after := reports[reportId := NewReport(a, date, StringList(zones), comment, photos, now)];
      reportId in GetCleaningReports(after, a, dateFrom, dateTo, None).value
  {
  }
}
