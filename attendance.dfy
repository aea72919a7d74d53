/** `controllers/attendanceController.js`: one attendance record per student
    and date, created in bulk for a group as `absent`, then marked by the
    group's trainer; closing a mark needs an after-training photo of the
    schedule. */
module AttendanceRules {
  import opened Common
  import opened Entities
  import opened Store

  /** The students a bulk creation covers: the group's student list, as
      populating it leaves it (ids of deleted users drop out); when that is
      empty, every user whose `groupId` is the group. */
  function StudentsToMark(users: map<Id, User>, group: Group, groupId: Id): (students: set<Id>)
    ensures forall s :: s in students ==> s in users
    ensures (exists s :: s in group.students && s in users) ==> students == set s | s in group.students && s in users
    ensures (forall s :: s in group.students ==> s !in users) ==>
      forall u :: u in students <==> u in users && users[u].groupId == Some(groupId)
  {
    if exists s :: s in group.students && s in users then set s | s in group.students && s in users
    else set u | u in users && users[u].groupId == Some(groupId)
  }

  predicate HasRecord(records: map<Id, Attendance>, studentId: Id, date: int)
  {
    exists id :: id in records && records[id].studentId == studentId && records[id].date == date
  }

  /** The record `Attendance.create` inserts for one student. */
  function NewRecord(scheduleId: Id, groupId: Id, studentId: Id, date: int, a: Actor): Attendance
  {
    Attendance(Some(scheduleId), groupId, studentId, date, Some(Absent), None, Some(a.id))
  }

  /** The records the final query returns: every record of the group on that
      date, old or new. */
  function RecordsOn(records: map<Id, Attendance>, groupId: Id, date: int): (ids: set<Id>)
    ensures forall id :: id in ids <==> id in records && records[id].groupId == groupId && records[id].date == date
  {
    set id | id in records && records[id].groupId == groupId && records[id].date == date
  }

  /** The checks of `createAttendanceForGroup`; `Ok` carries the students.
      `date` is `None` when `new Date(date)` is invalid, which makes the
      first `create` throw. */
  function CheckCreate(users: map<Id, User>, groups: map<Id, Group>, schedules: map<Id, Schedule>,
                       a: Actor, groupId: Id, scheduleId: Id, date: Option<int>): (r: Result<set<Id>>)
    ensures !Includes(a.userType, Trainer) ==> r == Fail(Forbidden)
    ensures Includes(a.userType, Trainer) && groupId !in groups ==> r == Fail(NotFound)
    ensures Includes(a.userType, Trainer) && groupId in groups && groups[groupId].trainerId != a.id ==> r == Fail(Forbidden)
    ensures Includes(a.userType, Trainer) && groupId in groups && groups[groupId].trainerId == a.id ==>
      && (scheduleId !in schedules ==> r == Fail(NotFound))
      && (scheduleId in schedules && StudentsToMark(users, groups[groupId], groupId) == {} ==> r == Fail(BadRequest))
    ensures r.Ok? <==>
      && Includes(a.userType, Trainer) && groupId in groups && groups[groupId].trainerId == a.id
      && scheduleId in schedules && StudentsToMark(users, groups[groupId], groupId) != {} && date.Some?
    ensures r.Ok? ==> r.value == StudentsToMark(users, groups[groupId], groupId)
  {
    if !Includes(a.userType, Trainer) then Fail(Forbidden)
    else if groupId !in groups then Fail(NotFound)
    else if groups[groupId].trainerId != a.id then Fail(Forbidden)
    else if scheduleId !in schedules then Fail(NotFound)
    else
      var students := StudentsToMark(users, groups[groupId], groupId);
      if students == {} then Fail(BadRequest)
      else if date.None? then Fail(ServerError)
      else Ok(students)
  }

  /** `createAttendanceForGroup`. `newIds` maps each student to the id the
      database would give a new record. A student who already has a record
      on that date is skipped (the duplicate-key error 11000 is swallowed). */
  method CreateAttendanceForGroup(db: Db, a: Actor, groupId: Id, scheduleId: Id, date: Option<int>, newIds: map<Id, Id>)
    returns (r: Result<set<Id>>)
    requires db.Valid()
    requires forall u :: u in db.users ==> u in newIds && newIds[u] !in db.attendance
    requires forall s, t :: s in newIds && t in newIds && newIds[s] == newIds[t] ==> s == t
    modifies db`attendance
    ensures db.Valid()
    ensures var check := CheckCreate(db.users, db.groups, db.schedules, a, groupId, scheduleId, date);
      && (r.Fail? <==> check.Fail?)
      && (check.Fail? ==> r.code == check.code && db.attendance == old(db.attendance))
      && (check.Ok? ==>
            && r.value == RecordsOn(db.attendance, groupId, date.value)
            && (forall s :: s in check.value ==> HasRecord(db.attendance, s, date.value))
            && (forall id :: id in old(db.attendance) ==> id in db.attendance && db.attendance[id] == old(db.attendance)[id])
            && (forall id :: id in db.attendance && id !in old(db.attendance) ==>
                  exists s :: s in check.value && !HasRecord(old(db.attendance), s, date.value) && id == newIds[s]
                              && db.attendance[id] == NewRecord(scheduleId, groupId, s, date.value, a)))
  {
    var check := CheckCreate(db.users, db.groups, db.schedules, a, groupId, scheduleId, date);
    if check.Fail? {
      return Fail(check.code);
    }
    db.attendance := InsertMissing(db.attendance, check.value, scheduleId, groupId, date.value, a, newIds);
    r := Ok(RecordsOn(db.attendance, groupId, date.value));
  }

  /** The `for … of students` loop of `createAttendanceForGroup`: insert an
      `absent` record for every student without one on that date. */
  method InsertMissing(records: map<Id, Attendance>, students: set<Id>, scheduleId: Id, groupId: Id, day: int, a: Actor,
                       newIds: map<Id, Id>) returns (out: map<Id, Attendance>)
    requires AttendanceUnique(records)
    requires forall s :: s in students ==> s in newIds && newIds[s] !in records
    requires forall s, t :: s in newIds && t in newIds && newIds[s] == newIds[t] ==> s == t
    ensures AttendanceUnique(out)
    ensures forall id :: id in records ==> id in out && out[id] == records[id]
    ensures forall s :: s in students ==> HasRecord(out, s, day)
    ensures forall id :: id in out && id !in records ==>
      exists s :: s in students && !HasRecord(records, s, day) && id == newIds[s] && out[id] == NewRecord(scheduleId, groupId, s, day, a)
  {
    out := records;
    var rest := students;
    while rest != {}
      invariant Inserted(records, students, rest, out, scheduleId, groupId, day, a, newIds)
      decreases rest
    {
      var s :| s in rest;
      if !HasRecord(out, s, day) {
        InsertOne(records, students, rest, out, s, scheduleId, groupId, day, a, newIds);
        out := out[newIds[s] := NewRecord(scheduleId, groupId, s, day, a)];
      }
      rest := rest - {s};
    }
    assert students - rest == students;
  }

  /** The state of the loop once the students outside `rest` are handled. */
  ghost predicate Inserted(records: map<Id, Attendance>, students: set<Id>, rest: set<Id>, out: map<Id, Attendance>,
                           scheduleId: Id, groupId: Id, day: int, a: Actor, newIds: map<Id, Id>)
  {
    && rest <= students
    && (forall s :: s in students ==> s in newIds)
    && (forall s, t :: s in newIds && t in newIds && newIds[s] == newIds[t] ==> s == t)
    && AttendanceUnique(out)
    && (forall id :: id in records ==> id in out && out[id] == records[id])
    && (forall id :: id in out && id !in records ==>
          exists s :: s in students - rest && !HasRecord(records, s, day) && id == newIds[s]
                      && out[id] == NewRecord(scheduleId, groupId, s, day, a))
    && (forall s :: s in students - rest ==> HasRecord(out, s, day))
    && (forall s :: s in rest ==> newIds[s] !in out)
  }

  /** One step of the loop: a student without a record gets one under
      their new id, and every earlier fact survives. */
  lemma InsertOne(records: map<Id, Attendance>, students: set<Id>, rest: set<Id>, out: map<Id, Attendance>, s: Id,
                  scheduleId: Id, groupId: Id, day: int, a: Actor, newIds: map<Id, Id>)
    requires rest <= students && s in rest && !HasRecord(out, s, day)
    requires Inserted(records, students, rest, out, scheduleId, groupId, day, a, newIds)
    ensures Inserted(records, students, rest - {s}, out[newIds[s] := NewRecord(scheduleId, groupId, s, day, a)],
                     scheduleId, groupId, day, a, newIds)
  {
    InsertOneCovers(students, rest, out, s, day, newIds[s], NewRecord(scheduleId, groupId, s, day, a));
    InsertOneOrigins(records, students, rest, out, s, scheduleId, groupId, day, a, newIds);
  }

  /** After the step every handled student, the new one included, has a
      record on the day. */
  lemma InsertOneCovers(students: set<Id>, rest: set<Id>, out: map<Id, Attendance>, s: Id, day: int,
                        newId: Id, rec: Attendance)
    requires s in rest && newId !in out && rec.studentId == s && rec.date == day
    requires forall t :: t in students - rest ==> HasRecord(out, t, day)
    ensures forall t :: t in students - (rest - {s}) ==> HasRecord(out[newId := rec], t, day)
  {
    var after := out[newId := rec];
    assert after[newId] == rec;
    forall t | t in students - (rest - {s})
      ensures HasRecord(after, t, day)
    {
      if t != s {
        assert t in students - rest;
        var id :| id in out && out[id].studentId == t && out[id].date == day;
        assert after[id] == out[id];
      }
    }
  }

  /** After the step every record not in `records` still comes from a
      handled student who had none. */
  lemma InsertOneOrigins(records: map<Id, Attendance>, students: set<Id>, rest: set<Id>, out: map<Id, Attendance>, s: Id,
                         scheduleId: Id, groupId: Id, day: int, a: Actor, newIds: map<Id, Id>)
    requires rest <= students && s in rest && !HasRecord(out, s, day)
    requires Inserted(records, students, rest, out, scheduleId, groupId, day, a, newIds)
    ensures var after := out[newIds[s] := NewRecord(scheduleId, groupId, s, day, a)];
      forall id :: id in after && id !in records ==>
        exists t :: t in students - (rest - {s}) && !HasRecord(records, t, day) && id == newIds[t]
                    && after[id] == NewRecord(scheduleId, groupId, t, day, a)
  {
    var after := out[newIds[s] := NewRecord(scheduleId, groupId, s, day, a)];
    forall id | id in after && id !in records
      ensures exists t :: t in students - (rest - {s}) && !HasRecord(records, t, day) && id == newIds[t]
                          && after[id] == NewRecord(scheduleId, groupId, t, day, a)
    {
      if id == newIds[s] {
        forall k | k in records
          ensures !(records[k].studentId == s && records[k].date == day)
        {
          assert k in out && out[k] == records[k];
        }
      } else {
        var t :| t in students - rest && !HasRecord(records, t, day) && id == newIds[t] && out[id] == NewRecord(scheduleId, groupId, t, day, a);
        assert t in students - (rest - {s});
      }
    }
  }

  /** The `status` of a marking request: one of the five enum values, no
      status at all (the assignment of `undefined` unsets the field, and the
      enum validator does not run on it), or a string outside the enum that
      fails validation on `save()`. */
  datatype StatusInput = Valid(status: AttendanceStatus) | Omitted | OutsideEnum

  /** The statuses that close a record and so need the after photo. */
  predicate NeedsAfterPhoto(s: StatusInput)
  {
    s == Valid(Present) || s == Valid(Absent) || s == Valid(Sick)
  }

  /** `PhotoReport.exists({ type: "training_after", relatedId })`: on any date. */
  predicate HasAfterPhoto(photos: map<Id, PhotoReport>, scheduleId: Id)
  {
    exists p :: p in photos && photos[p].kind == TrainingAfter && photos[p].relatedId == Some(scheduleId)
  }

  /** The checks of `markAttendance`, in the source's order. */
  function CheckMark(groups: map<Id, Group>, records: map<Id, Attendance>, photos: map<Id, PhotoReport>,
                     a: Actor, id: Id, status: StatusInput): (r: Result<Option<AttendanceStatus>>)
    ensures r.Ok? ==> (r.value.None? <==> status == Omitted)
    ensures r.Ok? && r.value.Some? ==> status == Valid(r.value.value)
    ensures r.Ok? ==> id in records && records[id].groupId in groups && groups[records[id].groupId].trainerId == a.id
    ensures r.Ok? && records[id].scheduleId.Some? && NeedsAfterPhoto(status) ==>
      HasAfterPhoto(photos, records[id].scheduleId.value)
    ensures !Includes(a.userType, Trainer) ==> r == Fail(Forbidden)
    ensures Includes(a.userType, Trainer) && id !in records ==> r == Fail(NotFound)
    ensures Includes(a.userType, Trainer) && id in records && records[id].groupId in groups ==>
      && (groups[records[id].groupId].trainerId != a.id ==> r == Fail(Forbidden))
      && (groups[records[id].groupId].trainerId == a.id && records[id].scheduleId.Some? && NeedsAfterPhoto(status) ==>
            HasAfterPhoto(photos, records[id].scheduleId.value) || r == Fail(BadRequest))
    ensures r.Ok? <==>
      && Includes(a.userType, Trainer) && id in records
      && records[id].groupId in groups && groups[records[id].groupId].trainerId == a.id
      && !status.OutsideEnum?
      && (records[id].scheduleId.Some? && NeedsAfterPhoto(status) ==> HasAfterPhoto(photos, records[id].scheduleId.value))
  {
    if !Includes(a.userType, Trainer) then Fail(Forbidden)
    else if id !in records then Fail(NotFound)
    // the populated group is null when the group document is gone
    else if records[id].groupId !in groups then Fail(ServerError)
    else if groups[records[id].groupId].trainerId != a.id then Fail(Forbidden)
    else if records[id].scheduleId.Some? && NeedsAfterPhoto(status) && !HasAfterPhoto(photos, records[id].scheduleId.value) then
      Fail(BadRequest)
    else match status
      case OutsideEnum => Fail(ServerError)
      case Omitted => Ok(None)
      case Valid(s) => Ok(Some(s))
  }

  /** The record after the assignments of `markAttendance`. */
  function Marked(rec: Attendance, status: Option<AttendanceStatus>, note: Option<string>, a: Actor): Attendance
  {
    rec.(status := status, note := if Given(note) then note else rec.note, markedBy := Some(a.id))
  }

  /** `markAttendance`. */
  method MarkAttendance(db: Db, a: Actor, id: Id, status: StatusInput, note: Option<string>) returns (r: Result<Attendance>)
    requires db.Valid()
    modifies db`attendance
    ensures db.Valid()
    ensures var check := CheckMark(db.groups, old(db.attendance), db.photoReports, a, id, status);
      && (r.Fail? <==> check.Fail?)
      && (check.Fail? ==> r.code == check.code && db.attendance == old(db.attendance))
      && (check.Ok? ==>
            && r == Ok(Marked(old(db.attendance)[id], check.value, note, a))
            && db.attendance == old(db.attendance)[id := r.value])
  {
    var check := CheckMark(db.groups, db.attendance, db.photoReports, a, id, status);
    if check.Fail? {
      return Fail(check.code);
    }
    var rec := Marked(db.attendance[id], check.value, note, a);
    db.attendance := db.attendance[id := rec];
    r := Ok(rec);
  }

  /** A closing mark on a scheduled record needs an after photo of the
      schedule, but any date will do, unlike Finish, which wants one from the
      session's day. Competition and excused skip the photo check entirely,
      and so does a request without a status, which unsets the record's. */
  lemma PhotoGate(groups: map<Id, Group>, records: map<Id, Attendance>, photos: map<Id, PhotoReport>, a: Actor, id: Id, status: AttendanceStatus)
    requires Includes(a.userType, Trainer) && id in records
    requires records[id].groupId in groups && groups[records[id].groupId].trainerId == a.id
    ensures records[id].scheduleId.Some? && (status == Present || status == Absent || status == Sick) ==>
      (CheckMark(groups, records, photos, a, id, Valid(status)).Ok? <==> HasAfterPhoto(photos, records[id].scheduleId.value))
    ensures status == Competition || status == Excused || records[id].scheduleId.None? ==>
      CheckMark(groups, records, photos, a, id, Valid(status)) == Ok(Some(status))
    ensures CheckMark(groups, records, photos, a, id, Omitted) == Ok(None)
  {
  }

  /** Marking changes only status, note and marker: group, student, date and
      schedule stay, and a falsy note keeps the old one. */
  lemma MarkKeepsIdentity(rec: Attendance, status: Option<AttendanceStatus>, note: Option<string>, a: Actor)
    ensures var m := Marked(rec, status, note, a);
      && m.groupId == rec.groupId && m.studentId == rec.studentId && m.date == rec.date && m.scheduleId == rec.scheduleId
      && m.status == status && m.markedBy == Some(a.id)
      && (!Given(note) ==> m.note == rec.note)
  {
  }

  /** The records of a student, optionally bounded by date. */
  function StudentRecords(records: map<Id, Attendance>, studentId: Id, from: Option<int>, to: Option<int>): (ids: set<Id>)
    ensures forall id :: id in ids <==>
      id in records && records[id].studentId == studentId && Between(records[id].date, from, to)
  {
    set id | id in records && records[id].studentId == studentId
                           && Between(records[id].date, from, to)
  }

  /** `getGroupAttendanceByDate`: the group's trainer or an admin. */
  function GetGroupAttendanceByDate(groups: map<Id, Group>, records: map<Id, Attendance>, a: Actor, groupId: Id, date: int): (r: Result<set<Id>>)
    ensures r.Ok? <==> groupId in groups && (groups[groupId].trainerId == a.id || Includes(a.userType, Admin))
    ensures groupId !in groups ==> r == Fail(NotFound)
    ensures r.Ok? ==> r.value == RecordsOn(records, groupId, date)
  {
    if groupId !in groups then Fail(NotFound)
    else if groups[groupId].trainerId != a.id && !Includes(a.userType, Admin) then Fail(Forbidden)
    else Ok(RecordsOn(records, groupId, date))
  }

  /** Who may read a student's attendance: the student, the parent, an admin,
      or the trainer of the student's group. */
  predicate MayReadStudent(users: map<Id, User>, groups: map<Id, Group>, a: Actor, studentId: Id)
    requires studentId in users
  {
    var st := users[studentId];
    || a.id == studentId
    || st.parentId == Some(a.id)
    || Includes(a.userType, Admin)
    || (st.groupId.Some? && st.groupId.value in groups && groups[st.groupId.value].trainerId == a.id)
  }

  /** `getStudentAttendance`. */
  function GetStudentAttendance(users: map<Id, User>, groups: map<Id, Group>, records: map<Id, Attendance>, a: Actor,
                                studentId: Id, from: Option<int>, to: Option<int>): (r: Result<set<Id>>)
    ensures studentId !in users ==> r == Fail(NotFound)
    ensures studentId in users ==> (r.Ok? <==> MayReadStudent(users, groups, a, studentId))
    ensures r.Ok? ==> forall id :: id in r.value ==> id in records && records[id].studentId == studentId
    ensures r.Ok? ==> r.value == StudentRecords(records, studentId, from, to)
  {
    if studentId !in users then Fail(NotFound)
    else if !MayReadStudent(users, groups, a, studentId) then Fail(Forbidden)
    else Ok(StudentRecords(records, studentId, from, to))
  }

  /** The counts of `getStudentAttendanceStats`. */
  datatype StudentStats = StudentStats(total: nat, present: nat, absent: nat, sick: nat, competition: nat, excused: nat)

  /** The records among `ids` counted by `countDocuments({ ...filter, status })`. */
  function WithStatus(records: map<Id, Attendance>, ids: set<Id>, s: AttendanceStatus): (r: set<Id>)
    requires ids <= records.Keys
    ensures forall id :: id in r <==> id in ids && records[id].status == Some(s)
  {
    set id | id in ids && records[id].status == Some(s)
  }

  /** The records among `ids` whose stored document has no status: the total
      counts them, no status count does. */
  function Unmarked(records: map<Id, Attendance>, ids: set<Id>): (r: set<Id>)
    requires ids <= records.Keys
    ensures forall id :: id in r <==> id in ids && records[id].status.None?
  {
    set id | id in ids && records[id].status.None?
  }

  /** `getStudentAttendanceStats`: the student, the parent or an admin (not the
      trainer, unlike the listing). The rate is left out. */
  function GetStudentAttendanceStats(users: map<Id, User>, records: map<Id, Attendance>, a: Actor,
                                     studentId: Id, from: Option<int>, to: Option<int>): (r: Result<StudentStats>)
    ensures studentId !in users ==> r == Fail(NotFound)
    ensures studentId in users ==>
      (r.Ok? <==> a.id == studentId || users[studentId].parentId == Some(a.id) || Includes(a.userType, Admin))
    ensures r.Ok? ==> r.value.total == |StudentRecords(records, studentId, from, to)|
    ensures r.Ok? ==> var ids := StudentRecords(records, studentId, from, to);
      && r.value.present == |WithStatus(records, ids, Present)|
      && r.value.absent == |WithStatus(records, ids, Absent)|
      && r.value.sick == |WithStatus(records, ids, Sick)|
      && r.value.competition == |WithStatus(records, ids, Competition)|
      && r.value.excused == |WithStatus(records, ids, Excused)|
  {
    if studentId !in users then Fail(NotFound)
    else if a.id != studentId && users[studentId].parentId != Some(a.id) && !Includes(a.userType, Admin) then Fail(Forbidden)
    else
      var ids := StudentRecords(records, studentId, from, to);
      Ok(StudentStats(|ids|, |WithStatus(records, ids, Present)|, |WithStatus(records, ids, Absent)|,
                      |WithStatus(records, ids, Sick)|, |WithStatus(records, ids, Competition)|, |WithStatus(records, ids, Excused)|))
  }

  /** The five status counts and the records without a status split the
      total; so the counts add up to the total exactly when every record in
      range has a status. */
  lemma {:induction false} StatsPartition(users: map<Id, User>, records: map<Id, Attendance>, a: Actor,
                                          studentId: Id, from: Option<int>, to: Option<int>)
    requires GetStudentAttendanceStats(users, records, a, studentId, from, to).Ok?
    ensures var st := GetStudentAttendanceStats(users, records, a, studentId, from, to).value;
      st.present + st.absent + st.sick + st.competition + st.excused
        + |Unmarked(records, StudentRecords(records, studentId, from, to))| == st.total
  {
    var ids := StudentRecords(records, studentId, from, to);
    var p, ab, si, c, e := WithStatus(records, ids, Present), WithStatus(records, ids, Absent),
      WithStatus(records, ids, Sick), WithStatus(records, ids, Competition), WithStatus(records, ids, Excused);
    WithStatusCover(records, ids);
    AddStatus(records, ids, {}, Present, {});
    AddStatus(records, ids, p, Absent, {Present});
    AddStatus(records, ids, p + ab, Sick, {Present, Absent});
    AddStatus(records, ids, p + ab + si, Competition, {Present, Absent, Sick});
    AddStatus(records, ids, p + ab + si + c, Excused, {Present, Absent, Sick, Competition});
    DisjointCard(p + ab + si + c + e, Unmarked(records, ids));
  }

  /** Every record has one of the five statuses or none. */
  lemma WithStatusCover(records: map<Id, Attendance>, ids: set<Id>)
    requires ids <= records.Keys
    ensures ids == WithStatus(records, ids, Present) + WithStatus(records, ids, Absent) + WithStatus(records, ids, Sick)
                   + WithStatus(records, ids, Competition) + WithStatus(records, ids, Excused) + Unmarked(records, ids)
  {
    var all := WithStatus(records, ids, Present) + WithStatus(records, ids, Absent) + WithStatus(records, ids, Sick)
               + WithStatus(records, ids, Competition) + WithStatus(records, ids, Excused) + Unmarked(records, ids);
    forall id | id in ids
      ensures id in all
    {
      match records[id].status
      case None =>
      case Some(Present) =>
      case Some(Absent) =>
      case Some(Sick) =>
      case Some(Competition) =>
      case Some(Excused) =>
    }
  }

  /** Adding the records of a status not yet counted adds their number. */
  lemma AddStatus(records: map<Id, Attendance>, ids: set<Id>, counted: set<Id>, s: AttendanceStatus, seen: set<AttendanceStatus>)
    requires ids <= records.Keys && s !in seen
    requires forall id :: id in counted ==> id in ids && records[id].status.Some? && records[id].status.value in seen
    ensures |counted + WithStatus(records, ids, s)| == |counted| + |WithStatus(records, ids, s)|
  {
    DisjointCard(counted, WithStatus(records, ids, s));
  }

  lemma DisjointCard(x: set<Id>, y: set<Id>)
    requires x * y == {}
    ensures |x + y| == |x| + |y|
  {
  }

  /** The counts of `getGroupAttendanceStats`. */
  datatype GroupStats = GroupStats(total: nat, present: nat, absent: nat, sick: nat)

  /** The records of a group, optionally bounded by date. */
  function GroupRecords(records: map<Id, Attendance>, groupId: Id, from: Option<int>, to: Option<int>): (ids: set<Id>)
    ensures ids <= records.Keys
    ensures forall id :: id in ids <==>
      id in records && records[id].groupId == groupId && Between(records[id].date, from, to)
  {
    set id | id in records && records[id].groupId == groupId
                           && Between(records[id].date, from, to)
  }

  /** `getGroupAttendanceStats`: the group's trainer or an admin. */
  function GetGroupAttendanceStats(groups: map<Id, Group>, records: map<Id, Attendance>, a: Actor,
                                   groupId: Id, from: Option<int>, to: Option<int>): (r: Result<GroupStats>)
    ensures groupId !in groups ==> r == Fail(NotFound)
    ensures groupId in groups ==> (r.Ok? <==> groups[groupId].trainerId == a.id || Includes(a.userType, Admin))
    ensures r.Ok? ==> r.value.total == |GroupRecords(records, groupId, from, to)|
    ensures r.Ok? ==> var ids := GroupRecords(records, groupId, from, to);
      && r.value.present == |WithStatus(records, ids, Present)|
      && r.value.absent == |WithStatus(records, ids, Absent)|
      && r.value.sick == |WithStatus(records, ids, Sick)|
  {
    if groupId !in groups then Fail(NotFound)
    else if groups[groupId].trainerId != a.id && !Includes(a.userType, Admin) then Fail(Forbidden)
    else
      var ids := GroupRecords(records, groupId, from, to);
      Ok(GroupStats(|ids|, |WithStatus(records, ids, Present)|, |WithStatus(records, ids, Absent)|, |WithStatus(records, ids, Sick)|))
  }

  /** The three counted statuses never exceed the total. */
  lemma {:induction false} GroupStatsBounded(groups: map<Id, Group>, records: map<Id, Attendance>, a: Actor,
                                             groupId: Id, from: Option<int>, to: Option<int>)
    requires GetGroupAttendanceStats(groups, records, a, groupId, from, to).Ok?
    ensures var st := GetGroupAttendanceStats(groups, records, a, groupId, from, to).value;
      st.present + st.absent + st.sick <= st.total
  {
    var ids := GroupRecords(records, groupId, from, to);
    var p, ab, si := WithStatus(records, ids, Present), WithStatus(records, ids, Absent), WithStatus(records, ids, Sick);
    AddStatus(records, ids, {}, Present, {});
    AddStatus(records, ids, p, Absent, {Present});
    AddStatus(records, ids, p + ab, Sick, {Present, Absent});
    SubsetCard(p + ab + si, ids);
  }

  lemma SubsetCard(x: set<Id>, y: set<Id>)
    requires x <= y
    ensures |x| <= |y|
  {
    assert y == x + (y - x);
    DisjointCard(x, y - x);
  }
}
