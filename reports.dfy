/** `controllers/reportController.js`: a trainer's report on a training
    slot, with one to four attachments, accepted from an hour before the
    slot and flagged late from half an hour before it; trainers list and
    delete their own reports, managers and directors list them all. The
    controller repeats the window arithmetic of `utils/reportTiming.js`,
    which `ReportTiming` models. */
module TrainerReports {
  import opened Common
  import opened Text
  import opened Entities
  import opened Store
  import opened Time
  import opened ReportTiming

  /** The MIME type of a Word document. */
  const DocxMime: string := "application/" + "vnd.openxmlformats-officedocument.wordprocessingml.document"

  /** `allowedMime`. */
  const AllowedMime: set<string> := {"image/jpeg", "image/png", "application/pdf", DocxMime}

  /** An uploaded file: its MIME type and original name, and the URL and
      public id the upload service answered for it (the upload itself is not
      part of this model). */
  datatype Upload = Upload(mimetype: string, originalName: string, url: string, publicId: string)

  /** "image" for a MIME type starting with "image/", "raw" otherwise. */
  function ResourceTypeOf(mimetype: string): ResourceType
  {
    if StartsWith(mimetype, "image/") then Image else Raw
  }

  /** Among the allowed types exactly the two image formats upload as
      images. */
  lemma AllowedResourceTypes(mimetype: string)
    requires mimetype in AllowedMime
    ensures ResourceTypeOf(mimetype) == Image <==> mimetype == "image/jpeg" || mimetype == "image/png"
  {
    if mimetype == "application/pdf" {
      assert mimetype[..6] != "image/" by { assert mimetype[0] == 'a'; }
    } else if mimetype == DocxMime {
      assert mimetype[..6] != "image/" by { assert mimetype[0] == 'a'; }
    } else if mimetype == "image/jpeg" {
      assert mimetype[..6] == "image/";
    } else {
      assert mimetype[..6] == "image/";
    }
  }

  /** The attachment stored for an uploaded file. */
  function AttachmentOf(f: Upload): (t: Attachment)
    ensures t.fileType == f.mimetype && t.originalName == f.originalName && t.url == f.url && t.publicId == f.publicId
    ensures t.resourceType == Image <==> StartsWith(f.mimetype, "image/")
  {
    Attachment(f.url, f.publicId, ResourceTypeOf(f.mimetype), f.mimetype, f.originalName)
  }

  /** The attachments of the files, or `None` when one of them has a MIME
      type outside the allowed ones. */
  function Attachments(files: seq<Upload>): (r: Option<seq<Attachment>>)
    ensures r.None? <==> exists i :: 0 <= i < |files| && files[i].mimetype !in AllowedMime
    ensures r.Some? ==> |r.value| == |files| && forall i :: 0 <= i < |files| ==> r.value[i] == AttachmentOf(files[i])
  {
    if |files| == 0 then Some([])
    else if files[0].mimetype !in AllowedMime then None
    else
      var rest := Attachments(files[1..]);
      if rest.None? then
        var i :| 0 <= i < |files[1..]| && files[1..][i].mimetype !in AllowedMime;
        assert files[i + 1].mimetype !in AllowedMime;
        None
      else
        assert forall i :: 1 <= i < |files| ==> files[i] == files[1..][i - 1];
        Some([AttachmentOf(files[0])] + rest.value)
  }

  /** The upload loop of `createReport`: each file in turn, stopping at the
      first type that is not allowed. */
  method CollectAttachments(files: seq<Upload>) returns (r: Option<seq<Attachment>>)
    ensures r == Attachments(files)
  {
    var attachments: seq<Attachment> := [];
    var i := 0;
    while i < |files|
      invariant 0 <= i <= |files|
      invariant forall j :: 0 <= j < i ==> files[j].mimetype in AllowedMime
      invariant |attachments| == i && forall j :: 0 <= j < i ==> attachments[j] == AttachmentOf(files[j])
    {
      if files[i].mimetype !in AllowedMime {
        assert Attachments(files).None?;
        return None;
      }
      attachments := attachments + [AttachmentOf(files[i])];
      i := i + 1;
    }
    assert attachments == Attachments(files).value;
    r := Some(attachments);
  }

  /** The checks of `createReport`, in the source's order, and the report it
      stores. `parseDate` stands for `new Date(trainingDate)`, `None` for an
      Invalid Date. The role check reads the single `role` field. */
  function CheckCreate(a: Actor, trainingDate: Option<string>, slot: Option<string>, comment: Option<string>,
                       files: seq<Upload>, now: int, parseDate: string -> Option<int>): (r: Result<Report>)
    ensures a.role != Trainer ==> r == Fail(Forbidden)
    ensures a.role == Trainer && r.Fail? ==> r.code == BadRequest
    ensures r.Ok? <==>
      && a.role == Trainer && Given(trainingDate) && Given(slot) && slot.value in Slots
      && parseDate(trainingDate.value).Some? && 1 <= |files| <= 4
      && CanSubmitAt(parseDate(trainingDate.value).value, slot.value, now)
      && forall i :: 0 <= i < |files| ==> files[i].mimetype in AllowedMime
    ensures r.Ok? ==>
      && r.value.trainerId == a.id && r.value.slot == slot.value
      && r.value.trainingDate == parseDate(trainingDate.value).value
      && r.value.comment == OrEmpty(comment)
      && r.value.isLate == IsLateAt(r.value.trainingDate, r.value.slot, now)
      && |r.value.attachments| == |files|
      && forall i :: 0 <= i < |files| ==> r.value.attachments[i] == AttachmentOf(files[i])
  {
    if a.role != Trainer then Fail(Forbidden)
    else if !Given(trainingDate) || !Given(slot) then Fail(BadRequest)
    else if slot.value !in Slots then Fail(BadRequest)
    else
      var date := parseDate(trainingDate.value);
      if date.None? then Fail(BadRequest)
      else if |files| == 0 || |files| > 4 then Fail(BadRequest)
      else
        var w := ListedWindow(date.value, slot.value);
        if now < w.windowStart then Fail(BadRequest)
        else
          var attachments := Attachments(files);
          if attachments.None? then Fail(BadRequest)
          else Ok(Report(a.id, date.value, slot.value, OrEmpty(comment), attachments.value, now > w.windowEnd))
  }

  /** The window of a listed slot, which always parses. */
  function ListedWindow(trainingDate: int, slot: string): (w: Window)
    requires slot in Slots
    ensures WindowTimes(trainingDate, slot) == Some(w)
    ensures w.windowStart + 30 * MsPerMinute == w.windowEnd
  {
    var i :| 0 <= i < |Slots| && Slots[i] == slot;
    ListedSlotStart(i);
    WindowTimes(trainingDate, slot).value
  }

  /** `createReport`; `reportId` is the id the database assigns. */
  method CreateReport(db: Db, a: Actor, trainingDate: Option<string>, slot: Option<string>, comment: Option<string>,
                      files: seq<Upload>, now: int, parseDate: string -> Option<int>, reportId: Id) returns (r: Result<Report>)
    requires reportId !in db.reports
    modifies db`reports
    ensures r == CheckCreate(a, trainingDate, slot, comment, files, now, parseDate)
    ensures db.reports == if r.Ok? then old(db.reports)[reportId := r.value] else old(db.reports)
  {
    if a.role != Trainer {
      return Fail(Forbidden);
    }
    if !Given(trainingDate) || !Given(slot) || slot.value !in Slots {
      return Fail(BadRequest);
    }
    var date := parseDate(trainingDate.value);
    if date.None? || |files| == 0 || |files| > 4 {
      return Fail(BadRequest);
    }
    var w := ListedWindow(date.value, slot.value);
    if now < w.windowStart {
      return Fail(BadRequest);
    }
    var attachments := CollectAttachments(files);
    if attachments.None? {
      return Fail(BadRequest);
    }
    var report := Report(a.id, date.value, slot.value, OrEmpty(comment), attachments.value, now > w.windowEnd);
    db.reports := db.reports[reportId := report];
    r := Ok(report);
  }

  /** A report accepted at most 30 minutes after the window opens is on
      time, and one accepted later is late; lateness never blocks it. */
  lemma {:induction false} LateOnlyAfterHalfHour(a: Actor, trainingDate: Option<string>, slot: Option<string>,
                                                 comment: Option<string>, files: seq<Upload>, now: int,
                                                 parseDate: string -> Option<int>)
    requires CheckCreate(a, trainingDate, slot, comment, files, now, parseDate).Ok?
    ensures var rep := CheckCreate(a, trainingDate, slot, comment, files, now, parseDate).value;
      var w := WindowTimes(rep.trainingDate, rep.slot).value;
      && w.windowStart <= now
      && (rep.isLate <==> now > w.windowStart + 30 * MsPerMinute)
      && (rep.isLate ==> CheckCreate(a, trainingDate, slot, comment, files, now + 1, parseDate).Ok?)
  {
    var rep := CheckCreate(a, trainingDate, slot, comment, files, now, parseDate).value;
    var w := ListedWindow(rep.trainingDate, rep.slot);
    if rep.isLate {
      NoUpperBound(rep.trainingDate, rep.slot, now, now + 1);
      assert CanSubmitAt(parseDate(trainingDate.value).value, slot.value, now + 1);
    }
  }

  /** `getMyReports`: the caller's own reports, for trainers only. */
  function GetMyReports(reports: map<Id, Report>, a: Actor): (r: Result<set<Id>>)
    ensures r.Ok? <==> a.role == Trainer
    ensures r.Fail? ==> r.code == Forbidden
    ensures r.Ok? ==> forall id :: id in r.value <==> id in reports && reports[id].trainerId == a.id
  {
    if a.role != Trainer then Fail(Forbidden)
    else Ok(set id | id in reports && reports[id].trainerId == a.id)
  }

  /** `deleteReport`: a trainer deletes one of their own reports. */
  method DeleteReport(db: Db, a: Actor, id: Id) returns (r: Result<()>)
    modifies db`reports
    ensures a.role != Trainer ==> r == Fail(Forbidden)
    ensures a.role == Trainer && id !in old(db.reports) ==> r == Fail(NotFound)
    ensures a.role == Trainer && id in old(db.reports) && old(db.reports)[id].trainerId != a.id ==> r == Fail(Forbidden)
    ensures r.Ok? <==> a.role == Trainer && id in old(db.reports) && old(db.reports)[id].trainerId == a.id
    ensures db.reports == if r.Ok? then old(db.reports) - {id} else old(db.reports)
  {
    if a.role != Trainer {
      return Fail(Forbidden);
    }
    if id !in db.reports {
      return Fail(NotFound);
    }
    if db.reports[id].trainerId != a.id {
      return Fail(Forbidden);
    }
    db.reports := db.reports - {id};
    r := Ok(());
  }

  /** The `isLate` query: only the literal strings "true" and "false" filter. */
  function LateFilter(isLate: Option<string>): (r: Option<bool>)
    ensures r.Some? <==> isLate == Some("true") || isLate == Some("false")
    ensures r.Some? ==> (r.value <==> isLate == Some("true"))
  {
    if isLate == Some("true") then Some(true) else if isLate == Some("false") then Some(false) else None
  }

  /** `getReports`: managers and directors, by the single `role` field. */
  function GetReports(reports: map<Id, Report>, a: Actor, dateFrom: Option<int>, dateTo: Option<int>,
                      trainerId: Option<Id>, isLate: Option<string>): (r: Result<set<Id>>)
    ensures r.Ok? <==> a.role == Manager || a.role == Director
    ensures r.Fail? ==> r.code == Forbidden
    ensures r.Ok? ==> forall id :: id in r.value ==>
      && id in reports && Between(reports[id].trainingDate, dateFrom, dateTo)
      && (Given(trainerId) ==> reports[id].trainerId == trainerId.value)
      && (isLate == Some("true") ==> reports[id].isLate)
      && (isLate == Some("false") ==> !reports[id].isLate)
    ensures r.Ok? ==> forall id :: id in reports ==>
      (id in r.value <==>
         && Between(reports[id].trainingDate, dateFrom, dateTo)
         && (Given(trainerId) ==> reports[id].trainerId == trainerId.value)
         && (isLate == Some("true") ==> reports[id].isLate)
         && (isLate == Some("false") ==> !reports[id].isLate))
    ensures r.Ok? && !Given(trainerId) && dateFrom.None? && dateTo.None? && LateFilter(isLate).None? ==>
      forall id :: id in r.value <==> id in reports
  {
    if a.role != Manager && a.role != Director then Fail(Forbidden)
    else
      var late := LateFilter(isLate);
      Ok(set id | id in reports && Between(reports[id].trainingDate, dateFrom, dateTo)
                  && (Given(trainerId) ==> reports[id].trainerId == trainerId.value)
                  && (late.Some? ==> reports[id].isLate == late.value))
  }

  /** The "true" and "false" listings split the unfiltered one, and any
      other value of `isLate` does not filter at all. */
  lemma {:induction false} LateFilterSplits(reports: map<Id, Report>, a: Actor, dateFrom: Option<int>, dateTo: Option<int>,
                                            trainerId: Option<Id>, other: string)
    requires a.role == Manager || a.role == Director
    requires other != "true" && other != "false"
    ensures var all := GetReports(reports, a, dateFrom, dateTo, trainerId, None).value;
      var late := GetReports(reports, a, dateFrom, dateTo, trainerId, Some("true")).value;
      var onTime := GetReports(reports, a, dateFrom, dateTo, trainerId, Some("false")).value;
      && late * onTime == {}
      && late + onTime == all
      && GetReports(reports, a, dateFrom, dateTo, trainerId, Some(other)).value == all
  {
    var all := GetReports(reports, a, dateFrom, dateTo, trainerId, None).value;
    var late := GetReports(reports, a, dateFrom, dateTo, trainerId, Some("true")).value;
    var onTime := GetReports(reports, a, dateFrom, dateTo, trainerId, Some("false")).value;
    assert LateFilter(Some("true")) == Some(true) && LateFilter(Some("false")) == Some(false);
    assert LateFilter(Some(other)).None?;
    assert late + onTime == all;
  }
}
