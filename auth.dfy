/** `controllers/authController.js`: self-registration, with the optional
    link to a parent and the join request of a student, and login. Tokens
    and password hashing are not part of this model; login takes the
    password comparison as a parameter. */
module Auth {
  import opened Common
  import opened Entities
  import opened Store
  import opened Users
  import Groups

  /** The seven fields `register` insists on, by JavaScript truthiness; an
      array of roles is truthy even when empty. */
  predicate Complete(f: AccountForm)
  {
    Given(f.phoneNumber) && Given(f.iin) && Given(f.fullName) && Given(f.dateOfBirth) && Given(f.weight)
    && !f.userType.Missing? && Given(f.password)
  }

  /** The checks of `register`: 400 for an incomplete form or a taken phone
      number or IIN. */
  function CheckRegister(users: map<Id, User>, f: AccountForm, parentId: Option<Id>): (r: Result<User>)
    ensures r.Ok? <==> Complete(f) && !Taken(users, f.phoneNumber, f.iin)
    ensures r.Fail? ==> r.code == BadRequest
    ensures r.Ok? ==> SchemaValid(r.value) && r.value.parentId == (if Given(parentId) then parentId else None)
    ensures r.Ok? ==> r.value == NewAccount(f, if Given(parentId) then parentId else None)
  {
    if !Complete(f) || Taken(users, f.phoneNumber, f.iin) then Fail(BadRequest)
    else Ok(NewAccount(f, if Given(parentId) then parentId else None))
  }

  /** The users after the new account is inserted and, when a parent is
      named, appended to that parent's children with `$push`. */
  function Registered(users: map<Id, User>, userId: Id, u: User, parentId: Option<Id>): (after: map<Id, User>)
    ensures after.Keys == users.Keys + {userId}
    ensures after[userId] == u
  {
    var inserted := users[userId := u];
    if Given(parentId) && parentId.value in inserted && parentId.value != userId then
      inserted[parentId.value := inserted[parentId.value].(children := inserted[parentId.value].children + [userId])]
    else inserted
  }

  /** Whether registration files a join request: the roles include student
      and a group was named. */
  predicate WantsGroup(f: AccountForm, groupId: Option<Id>)
  {
    Student in ToList(f.userType) && Given(groupId)
  }

  /** `register`; `userId` and `requestId` are the ids the database assigns. */
  method Register(db: Db, f: AccountForm, groupId: Option<Id>, parentId: Option<Id>, userId: Id, requestId: Id)
    returns (r: Result<User>)
    requires db.Valid()
    requires userId !in db.users && requestId !in db.joinRequests
    modifies db`users, db`joinRequests
    ensures db.Valid()
    ensures r == CheckRegister(old(db.users), f, parentId)
    ensures r.Fail? ==> db.users == old(db.users) && db.joinRequests == old(db.joinRequests)
    ensures r.Ok? ==> db.users == Registered(old(db.users), userId, r.value, parentId)
    ensures r.Ok? && WantsGroup(f, groupId) ==>
      db.joinRequests == old(db.joinRequests)[requestId := JoinRequest(userId, groupId.value, Pending)]
    ensures r.Ok? && !WantsGroup(f, groupId) ==> db.joinRequests == old(db.joinRequests)
  {
    r := CheckRegister(db.users, f, parentId);
    if r.Fail? {
      return;
    }
    RegisteredPhones(db.users, userId, r.value, f, parentId);
    db.users := Registered(db.users, userId, r.value, parentId);
    if WantsGroup(f, groupId) {
      db.joinRequests := db.joinRequests[requestId := JoinRequest(userId, groupId.value, Pending)];
    }
  }

  /** Registration keeps phone numbers unique: the new phone number is not
      taken, and appending a child touches no phone number. */
  lemma RegisteredPhones(users: map<Id, User>, userId: Id, u: User, f: AccountForm, parentId: Option<Id>)
    requires PhonesUnique(users) && userId !in users
    requires !Taken(users, f.phoneNumber, f.iin) && Some(u.phoneNumber) == f.phoneNumber
    ensures PhonesUnique(Registered(users, userId, u, parentId))
  {
    var inserted := users[userId := u];
    forall other | other in users
      ensures users[other].phoneNumber != u.phoneNumber
    {
      assert !(Some(users[other].phoneNumber) == f.phoneNumber);
    }
    var after := Registered(users, userId, u, parentId);
    assert forall i :: i in after ==> after[i].phoneNumber == inserted[i].phoneNumber;
  }

  /** The request a registering student files is among the pending
      requests the group's trainer lists. */
  lemma {:induction false} RegisteredStudentListed(groups: map<Id, Group>, requests: map<Id, JoinRequest>, requestId: Id,
                                                   userId: Id, groupId: Id, trainer: Actor)
    requires groupId in groups && groups[groupId].trainerId == trainer.id
    ensures requestId in Groups.GetJoinRequests(groups, requests[requestId := JoinRequest(userId, groupId, Pending)], trainer)
  {
  }

  /** `login`: the user with the phone number, when the password matches;
      otherwise 401. `matches` stands for the stored-hash comparison. */
  method Login(users: map<Id, User>, phoneNumber: string, password: string, matches: (User, string) -> bool)
    returns (r: Result<Id>)
    requires PhonesUnique(users)
    ensures r.Ok? <==> exists id :: id in users && users[id].phoneNumber == phoneNumber && matches(users[id], password)
    ensures r.Ok? ==> r.value in users && users[r.value].phoneNumber == phoneNumber && matches(users[r.value], password)
    ensures r.Fail? ==> r.code == Unauthorized
  {
    if id :| id in users && users[id].phoneNumber == phoneNumber {
      if matches(users[id], password) {
        return Ok(id);
      }
    }
    r := Fail(Unauthorized);
  }
}
