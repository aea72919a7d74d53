/** `controllers/groupController.js`: trainers create groups, see the
    pending requests to join them, and requests are approved or rejected. */
module Groups {
  import opened Common
  import opened Entities
  import opened Store

  /** The checks of `createGroup` and the group it stores. The caller's
      `userType` is compared with the string "trainer", so only a bare role
      name passes: a role array never equals a string. A missing or empty
      name fails validation and a taken name the unique index (both 500). */
  function CheckCreate(groups: map<Id, Group>, a: Actor, name: Option<string>): (r: Result<Group>)
    ensures r.Ok? <==>
      a.userType == RoleText(Trainer) && Given(name) && forall g :: g in groups ==> groups[g].name != name.value
    ensures a.userType != RoleText(Trainer) ==> r == Fail(Forbidden)
    ensures r.Ok? ==> r.value == Group(name.value, a.id, [])
  {
    if a.userType != RoleText(Trainer) then Fail(Forbidden)
    else if !Given(name) then Fail(ServerError)
    else if exists g :: g in groups && groups[g].name == name.value then Fail(ServerError)
    else Ok(Group(name.value, a.id, []))
  }

  /** A trainer whose role is stored as an array, the form registration
      writes, is refused: `createGroup` only admits the legacy bare string. */
  lemma ArrayTrainerRefused(groups: map<Id, Group>, a: Actor, name: Option<string>)
    requires a.userType.RoleList? && Trainer in a.userType.roles
    ensures CheckCreate(groups, a, name) == Fail(Forbidden)
  {
  }

  /** `createGroup`; `groupId` is the id the database assigns. */
  method CreateGroup(db: Db, a: Actor, name: Option<string>, groupId: Id) returns (r: Result<Group>)
    requires db.Valid()
    requires groupId !in db.groups
    modifies db`groups
    ensures db.Valid()
    ensures r == CheckCreate(old(db.groups), a, name)
    ensures db.groups == if r.Ok? then old(db.groups)[groupId := r.value] else old(db.groups)
  {
    r := CheckCreate(db.groups, a, name);
    if r.Ok? {
      db.groups := db.groups[groupId := r.value];
    }
  }

  /** `getJoinRequests`: the pending requests for groups the caller trains;
      any caller may ask. */
  function GetJoinRequests(groups: map<Id, Group>, requests: map<Id, JoinRequest>, a: Actor): (r: set<Id>)
    ensures forall id :: id in r <==>
      id in requests && requests[id].status == Pending
      && requests[id].groupId in groups && groups[requests[id].groupId].trainerId == a.id
  {
    set id | id in requests && requests[id].status == Pending
             && requests[id].groupId in groups && groups[requests[id].groupId].trainerId == a.id
  }

  /** `handleJoinRequest`: no role or ownership check. "approve" approves the
      request, sets the student's group and pushes the student onto the
      group's list (updates of a missing user or group match nothing); any
      other action rejects it. */
  method HandleJoinRequest(db: Db, a: Actor, requestId: Id, action: Option<string>) returns (r: Result<JoinRequest>)
    requires db.Valid()
    modifies db`joinRequests, db`users, db`groups
    ensures db.Valid()
    ensures requestId !in old(db.joinRequests) ==>
      r == Fail(NotFound) && db.joinRequests == old(db.joinRequests) && db.users == old(db.users) && db.groups == old(db.groups)
    ensures requestId in old(db.joinRequests) && action != Some("approve") ==>
      && r == Ok(old(db.joinRequests)[requestId].(status := Rejected))
      && db.joinRequests == old(db.joinRequests)[requestId := r.value]
      && db.users == old(db.users) && db.groups == old(db.groups)
    ensures requestId in old(db.joinRequests) && action == Some("approve") ==>
      var req := old(db.joinRequests)[requestId];
      && r == Ok(req.(status := Approved))
      && db.joinRequests == old(db.joinRequests)[requestId := r.value]
      && db.users == JoinedUser(old(db.users), req.studentId, req.groupId)
      && db.groups == JoinedGroup(old(db.groups), req.studentId, req.groupId)
  {
    if requestId !in db.joinRequests {
      return Fail(NotFound);
    }
    var req := db.joinRequests[requestId];
    if action == Some("approve") {
      JoinedUserPhones(db.users, req.studentId, req.groupId);
      db.users := JoinedUser(db.users, req.studentId, req.groupId);
      db.groups := JoinedGroup(db.groups, req.studentId, req.groupId);
      r := Ok(req.(status := Approved));
    } else {
      r := Ok(req.(status := Rejected));
    }
    db.joinRequests := db.joinRequests[requestId := r.value];
  }

  /** `User.findByIdAndUpdate(studentId, { groupId })`. */
  function JoinedUser(users: map<Id, User>, studentId: Id, groupId: Id): map<Id, User>
  {
    if studentId in users then users[studentId := users[studentId].(groupId := Some(groupId))] else users
  }

  /** `Group.findByIdAndUpdate(groupId, { $push: { students: studentId } })`. */
  function JoinedGroup(groups: map<Id, Group>, studentId: Id, groupId: Id): map<Id, Group>
  {
    if groupId in groups then groups[groupId := groups[groupId].(students := groups[groupId].students + [studentId])] else groups
  }

  /** Moving a student to a group touches no phone number. */
  lemma JoinedUserPhones(users: map<Id, User>, studentId: Id, groupId: Id)
    requires PhonesUnique(users)
    ensures PhonesUnique(JoinedUser(users, studentId, groupId))
  {
    var after := JoinedUser(users, studentId, groupId);
    assert forall i :: i in after ==> i in users && after[i].phoneNumber == users[i].phoneNumber;
  }

  /** Approving pushes rather than adds to a set: each approval of the same
      request puts the student into the group's list once more, while the
      student's group stays the same. */
  lemma {:induction false} ApproveTwiceDuplicates(groups: map<Id, Group>, users: map<Id, User>, studentId: Id, groupId: Id)
    requires groupId in groups
    ensures var once := JoinedGroup(groups, studentId, groupId);
      var twice := JoinedGroup(once, studentId, groupId);
      && multiset(once[groupId].students)[studentId] == multiset(groups[groupId].students)[studentId] + 1
      && multiset(twice[groupId].students)[studentId] == multiset(groups[groupId].students)[studentId] + 2
      && JoinedUser(JoinedUser(users, studentId, groupId), studentId, groupId) == JoinedUser(users, studentId, groupId)
  {
    var s := groups[groupId].students;
    var once := JoinedGroup(groups, studentId, groupId);
    assert once[groupId].students == s + [studentId];
    assert multiset(s + [studentId]) == multiset(s) + multiset{studentId};
    var twice := JoinedGroup(once, studentId, groupId);
    assert twice[groupId].students == (s + [studentId]) + [studentId];
    assert multiset((s + [studentId]) + [studentId]) == multiset(s + [studentId]) + multiset{studentId};
  }
}
