/** `controllers/scheduleController.js`: a group's trainer adds and removes
    its weekly training slots; a group's slots are listed by weekday, then
    start time. */
module Schedules {
  import opened Common
  import opened Entities
  import opened Store

  /** The checks of `createSchedule` and the schedule it stores: 404 for a
      missing group, 403 for anyone but its trainer, then schema validation
      (weekday 0..6, both times present) fails with 500. */
  function CheckCreate(groups: map<Id, Group>, a: Actor, groupId: Option<Id>, dayOfWeek: Option<int>,
                       startTime: Option<string>, endTime: Option<string>, location: Option<string>): (r: Result<Schedule>)
    ensures (groupId.None? || groupId.value !in groups) ==> r == Fail(NotFound)
    ensures (groupId.Some? && groupId.value in groups && groups[groupId.value].trainerId != a.id) ==> r == Fail(Forbidden)
    ensures r.Ok? ==>
      && groupId.Some? && groupId.value in groups && groups[groupId.value].trainerId == a.id
      && 0 <= r.value.dayOfWeek <= 6 && r.value.startTime != "" && r.value.endTime != ""
      && r.value.groupId == groupId.value
      && r.value.location == (if Given(location) then location.value else DefaultLocation)
    ensures (groupId.Some? && groupId.value in groups && groups[groupId.value].trainerId == a.id) ==>
      (r.Ok? <==> dayOfWeek.Some? && 0 <= dayOfWeek.value <= 6 && Given(startTime) && Given(endTime))
  {
    if groupId.None? || groupId.value !in groups then Fail(NotFound)
    else if groups[groupId.value].trainerId != a.id then Fail(Forbidden)
    else if dayOfWeek.None? || !(0 <= dayOfWeek.value <= 6) || !Given(startTime) || !Given(endTime) then Fail(ServerError)
    else Ok(Schedule(groupId.value, dayOfWeek.value, startTime.value, endTime.value,
                     if Given(location) then location.value else DefaultLocation))
  }

  /** `createSchedule`; `scheduleId` is the id the database assigns. */
  method CreateSchedule(db: Db, a: Actor, groupId: Option<Id>, dayOfWeek: Option<int>, startTime: Option<string>,
                        endTime: Option<string>, location: Option<string>, scheduleId: Id) returns (r: Result<Schedule>)
    requires scheduleId !in db.schedules
    modifies db`schedules
    ensures r == CheckCreate(db.groups, a, groupId, dayOfWeek, startTime, endTime, location)
    ensures db.schedules == if r.Ok? then old(db.schedules)[scheduleId := r.value] else old(db.schedules)
  {
    r := CheckCreate(db.groups, a, groupId, dayOfWeek, startTime, endTime, location);
    if r.Ok? {
      db.schedules := db.schedules[scheduleId := r.value];
    }
  }

  /** `deleteSchedule`: 404 for a missing schedule; the populated group is
      `null` when it was deleted, so reading its trainer throws (500); only
      the group's trainer may delete. */
  method DeleteSchedule(db: Db, a: Actor, id: Id) returns (r: Result<()>)
    modifies db`schedules
    ensures id !in old(db.schedules) ==> r == Fail(NotFound)
    ensures id in old(db.schedules) && old(db.schedules)[id].groupId !in db.groups ==> r == Fail(ServerError)
    ensures (id in old(db.schedules) && old(db.schedules)[id].groupId in db.groups
             && db.groups[old(db.schedules)[id].groupId].trainerId != a.id) ==> r == Fail(Forbidden)
    ensures r.Ok? <==>
      id in old(db.schedules) && old(db.schedules)[id].groupId in db.groups
      && db.groups[old(db.schedules)[id].groupId].trainerId == a.id
    ensures db.schedules == if r.Ok? then old(db.schedules) - {id} else old(db.schedules)
  {
    if id !in db.schedules {
      return Fail(NotFound);
    }
    var g := db.schedules[id].groupId;
    if g !in db.groups {
      return Fail(ServerError);
    }
    if db.groups[g].trainerId != a.id {
      return Fail(Forbidden);
    }
    db.schedules := db.schedules - {id};
    r := Ok(());
  }

  /** The code-unit order MongoDB sorts strings by: lexicographic. */
  predicate StrLe(x: string, y: string)
    decreases |x|
  {
    |x| == 0 || (|y| > 0 && (x[0] < y[0] || (x[0] == y[0] && StrLe(x[1..], y[1..]))))
  }

  /** Any two strings are ordered one way or the other. */
  lemma {:induction false} StrLeTotal(x: string, y: string)
    ensures StrLe(x, y) || StrLe(y, x)
    decreases |x|
  {
    if |x| > 0 && |y| > 0 && x[0] == y[0] {
      StrLeTotal(x[1..], y[1..]);
    }
  }

  /** The sort key `{ dayOfWeek: 1, startTime: 1 }`. */
  predicate KeyLe(s: Schedule, t: Schedule)
  {
    s.dayOfWeek < t.dayOfWeek || (s.dayOfWeek == t.dayOfWeek && StrLe(s.startTime, t.startTime))
  }

  lemma KeyLeTotal(s: Schedule, t: Schedule)
    ensures KeyLe(s, t) || KeyLe(t, s)
  {
    StrLeTotal(s.startTime, t.startTime);
  }

  /** Neighbouring schedules are in key order. */
  predicate Sorted(schedules: map<Id, Schedule>, ids: seq<Id>)
    requires forall i :: 0 <= i < |ids| ==> ids[i] in schedules
  {
    forall i :: 0 <= i < |ids| - 1 ==> KeyLe(schedules[ids[i]], schedules[ids[i + 1]])
  }

  /** Puts one id into a key-ordered list, before the first id whose key is
      not below it. */
  function Insert(schedules: map<Id, Schedule>, id: Id, ids: seq<Id>): (r: seq<Id>)
    requires id in schedules && forall i :: 0 <= i < |ids| ==> ids[i] in schedules
    ensures multiset(r) == multiset(ids) + multiset{id}
    ensures forall i :: 0 <= i < |r| ==> r[i] in schedules
    ensures |r| > 0 && (r[0] == id || (|ids| > 0 && r[0] == ids[0]))
  {
    if |ids| == 0 then [id]
    else if KeyLe(schedules[id], schedules[ids[0]]) then [id] + ids
    else
      assert ids == [ids[0]] + ids[1..];
      [ids[0]] + Insert(schedules, id, ids[1..])
  }

  /** Inserting into a sorted list keeps it sorted. */
  lemma {:induction false} InsertSorted(schedules: map<Id, Schedule>, id: Id, ids: seq<Id>)
    requires id in schedules && forall i :: 0 <= i < |ids| ==> ids[i] in schedules
    requires Sorted(schedules, ids)
    ensures Sorted(schedules, Insert(schedules, id, ids))
    decreases |ids|
  {
    if |ids| > 0 && !KeyLe(schedules[id], schedules[ids[0]]) {
      KeyLeTotal(schedules[id], schedules[ids[0]]);
      InsertSorted(schedules, id, ids[1..]);
      var rest := Insert(schedules, id, ids[1..]);
      assert Insert(schedules, id, ids) == [ids[0]] + rest;
      if |ids| > 1 {
        assert KeyLe(schedules[ids[0]], schedules[ids[1]]);
      }
    }
  }

  /** The ids in key order. */
  function SortByKey(schedules: map<Id, Schedule>, ids: seq<Id>): (r: seq<Id>)
    requires forall i :: 0 <= i < |ids| ==> ids[i] in schedules
    ensures multiset(r) == multiset(ids)
    ensures forall i :: 0 <= i < |r| ==> r[i] in schedules
  {
    if |ids| == 0 then []
    else
      assert ids == [ids[0]] + ids[1..];
      Insert(schedules, ids[0], SortByKey(schedules, ids[1..]))
  }

  lemma {:induction false} SortByKeySorted(schedules: map<Id, Schedule>, ids: seq<Id>)
    requires forall i :: 0 <= i < |ids| ==> ids[i] in schedules
    ensures Sorted(schedules, SortByKey(schedules, ids))
    decreases |ids|
  {
    if |ids| > 0 {
      SortByKeySorted(schedules, ids[1..]);
      InsertSorted(schedules, ids[0], SortByKey(schedules, ids[1..]));
    }
  }

  /** The stored ids of a group's schedules, in the order the collection
      holds them. */
  function OfGroup(schedules: map<Id, Schedule>, stored: seq<Id>, groupId: Id): (r: seq<Id>)
    requires forall i :: 0 <= i < |stored| ==> stored[i] in schedules
    ensures forall i :: 0 <= i < |r| ==> r[i] in schedules && schedules[r[i]].groupId == groupId
    ensures forall id :: id in r <==> id in stored && schedules[id].groupId == groupId
    ensures forall id :: multiset(r)[id] <= multiset(stored)[id]
  {
    if |stored| == 0 then []
    else
      assert stored == [stored[0]] + stored[1..];
      var rest := OfGroup(schedules, stored[1..], groupId);
      if schedules[stored[0]].groupId == groupId then [stored[0]] + rest else rest
  }

  /** `getScheduleByGroup`: the group's schedules sorted by weekday, then
      start time. `stored` lists the collection's ids in storage order. */
  function GetScheduleByGroup(schedules: map<Id, Schedule>, stored: seq<Id>, groupId: Id): (r: seq<Id>)
    requires forall i :: 0 <= i < |stored| ==> stored[i] in schedules
    ensures forall i :: 0 <= i < |r| ==> r[i] in schedules && schedules[r[i]].groupId == groupId
    ensures multiset(r) == multiset(OfGroup(schedules, stored, groupId))
    ensures Sorted(schedules, r)
  {
    var ids := OfGroup(schedules, stored, groupId);
    SortByKeySorted(schedules, ids);
    var r := SortByKey(schedules, ids);
    assert forall i :: 0 <= i < |r| ==> r[i] in multiset(r) && r[i] in ids;
    r
  }

  /** When `stored` lists every schedule once, the listing holds each of the
      group's schedules exactly once and nothing else. */
  lemma GroupListingComplete(schedules: map<Id, Schedule>, stored: seq<Id>, groupId: Id, id: Id)
    requires forall i :: 0 <= i < |stored| ==> stored[i] in schedules
    requires forall k :: k in schedules ==> multiset(stored)[k] == 1
    ensures multiset(GetScheduleByGroup(schedules, stored, groupId))[id] ==
      if id in schedules && schedules[id].groupId == groupId then 1 else 0
  {
    var ids := OfGroup(schedules, stored, groupId);
    if id in schedules && schedules[id].groupId == groupId {
      assert id in ids;
    } else {
      assert id !in ids;
    }
  }
}
