/** `controllers/userController.js`: a director creates accounts, a user
    edits their own profile, and a parent links a student as their child. */
module Users {
  import opened Common
  import opened Entities
  import opened Store

  /** A user as the handlers answer it, without the password. */
  datatype PublicUser = PublicUser(
    phoneNumber: string,
    iin: string,
    fullName: string,
    dateOfBirth: string,
    weight: string,
    userType: UserType,
    role: Role,
    groupId: Option<Id>,
    parentId: Option<Id>,
    children: seq<Id>)

  /** `user.toObject()` with `password` deleted. */
  function PublicView(u: User): (v: PublicUser)
    ensures v.phoneNumber == u.phoneNumber && v.fullName == u.fullName && v.userType == u.userType
  {
    PublicUser(u.phoneNumber, u.iin, u.fullName, u.dateOfBirth, u.weight, u.userType, u.role, u.groupId, u.parentId, u.children)
  }

  /** `User.findOne({ $or: [{ phoneNumber }, { iin }] })` finds someone. An
      omitted value matches no stored user, since every stored user has both. */
  predicate Taken(users: map<Id, User>, phoneNumber: Option<string>, iin: Option<string>)
  {
    exists id :: id in users && (Some(users[id].phoneNumber) == phoneNumber || Some(users[id].iin) == iin)
  }

  /** `Array.isArray(userType) ? userType : [userType]`. */
  function RoleArray(userType: OneOrMany<Role>): UserType
  {
    RoleList(ToList(userType))
  }

  /** The form fields of an account, as both account-creating handlers read
      them. */
  datatype AccountForm = AccountForm(
    phoneNumber: Option<string>,
    iin: Option<string>,
    fullName: Option<string>,
    dateOfBirth: Option<string>,
    weight: Option<string>,
    userType: OneOrMany<Role>,
    password: Option<string>)

  /** The account a form describes, with the schema's default role. The
      password is stored as given: hashing is not part of this model. */
  function NewAccount(f: AccountForm, parentId: Option<Id>): User
  {
    User(OrEmpty(f.phoneNumber), OrEmpty(f.iin), OrEmpty(f.fullName), OrEmpty(f.dateOfBirth), OrEmpty(f.weight),
         RoleArray(f.userType), Client, None, parentId, [], OrEmpty(f.password))
  }

  /** What the user schema requires: a phone number, a full name and a
      password, none of them empty. */
  predicate SchemaValid(u: User)
  {
    u.phoneNumber != "" && u.fullName != "" && u.password != ""
  }

  /** The checks of `createUserByDirector`: director only, then uniqueness
      of phone and IIN (400), then schema validation (500). */
  function CheckCreate(users: map<Id, User>, a: Actor, f: AccountForm): (r: Result<User>)
    ensures !Includes(a.userType, Director) ==> r == Fail(Forbidden)
    ensures Includes(a.userType, Director) && Taken(users, f.phoneNumber, f.iin) ==> r == Fail(BadRequest)
    ensures r.Ok? ==>
      && Includes(a.userType, Director) && !Taken(users, f.phoneNumber, f.iin) && SchemaValid(r.value)
      && r.value == NewAccount(f, None)
      && r.value.userType.RoleList? && r.value.userType.roles == ToList(f.userType)
    ensures r.Ok? <==>
      Includes(a.userType, Director) && !Taken(users, f.phoneNumber, f.iin) && SchemaValid(NewAccount(f, None))
  {
    if !Includes(a.userType, Director) then Fail(Forbidden)
    else if Taken(users, f.phoneNumber, f.iin) then Fail(BadRequest)
    else
      var u := NewAccount(f, None);
      if !SchemaValid(u) then Fail(ServerError) else Ok(u)
  }

  /** An account whose phone number no stored user has keeps phone numbers
      unique. */
  lemma InsertKeepsPhonesUnique(users: map<Id, User>, id: Id, u: User)
    requires PhonesUnique(users) && id !in users
    requires forall other :: other in users ==> users[other].phoneNumber != u.phoneNumber
    ensures PhonesUnique(users[id := u])
  {
  }

  /** `createUserByDirector`; `userId` is the id the database assigns. */
  method CreateUserByDirector(db: Db, a: Actor, f: AccountForm, userId: Id) returns (r: Result<PublicUser>)
    requires db.Valid()
    requires userId !in db.users
    modifies db`users
    ensures db.Valid()
    ensures var check := CheckCreate(old(db.users), a, f);
      && (check.Fail? ==> r == Fail(check.code) && db.users == old(db.users))
      && (check.Ok? ==> r == Ok(PublicView(check.value)) && db.users == old(db.users)[userId := check.value])
  {
    var check := CheckCreate(db.users, a, f);
    if check.Fail? {
      return Fail(check.code);
    }
    assert forall other :: other in db.users ==> db.users[other].phoneNumber != check.value.phoneNumber by {
      forall other | other in db.users
        ensures db.users[other].phoneNumber != check.value.phoneNumber
      {
        assert Some(check.value.phoneNumber) == f.phoneNumber;
      }
    }
    InsertKeepsPhonesUnique(db.users, userId, check.value);
    db.users := db.users[userId := check.value];
    r := Ok(PublicView(check.value));
  }

  /** The caller's record after `updateProfile`: `weight` when truthy, and
      `groupId` when truthy and the caller is a student. */
  function UpdatedProfile(u: User, weight: Option<string>, groupId: Option<Id>): (v: User)
    ensures v.phoneNumber == u.phoneNumber && v.userType == u.userType && v.children == u.children && v.parentId == u.parentId
    ensures v.weight == (if Given(weight) then weight.value else u.weight)
    ensures v.groupId == (if Given(groupId) && Includes(u.userType, Student) then Some(groupId.value) else u.groupId)
  {
    u.(weight := if Given(weight) then weight.value else u.weight,
       groupId := if Given(groupId) && Includes(u.userType, Student) then Some(groupId.value) else u.groupId)
  }

  /** `updateProfile`: the caller's record, which a deleted account no
      longer has (500); the saved document is answered as it is, password
      field included. */
  method UpdateProfile(db: Db, a: Actor, weight: Option<string>, groupId: Option<Id>) returns (r: Result<User>)
    requires db.Valid()
    modifies db`users
    ensures db.Valid()
    ensures a.id !in old(db.users) ==> r == Fail(ServerError) && db.users == old(db.users)
    ensures a.id in old(db.users) ==>
      var v := UpdatedProfile(old(db.users)[a.id], weight, groupId);
      r == Ok(v) && db.users == old(db.users)[a.id := v]
  {
    if a.id !in db.users {
      return Fail(ServerError);
    }
    var v := UpdatedProfile(db.users[a.id], weight, groupId);
    assert forall i :: i in db.users[a.id := v] ==> i in db.users && db.users[a.id := v][i].phoneNumber == db.users[i].phoneNumber;
    db.users := db.users[a.id := v];
    r := Ok(v);
  }

  /** The users after `addChild` links `childId` to the parent `parentId`:
      the child is added to the parent's set of children (if the parent's
      record exists) and the child's `parentId` is the parent. */
  function ChildAdded(users: map<Id, User>, parentId: Id, childId: Id): (after: map<Id, User>)
    requires childId in users
    ensures after.Keys == users.Keys
    ensures after[childId].parentId == Some(parentId)
    ensures parentId in users ==> childId in after[parentId].children
  {
    var linked := if parentId in users then users[parentId := users[parentId].(children := AddToSet(users[parentId].children, childId))] else users;
    linked[childId := linked[childId].(parentId := Some(parentId))]
  }

  /** `addChild`: parents only; the child must be a stored student. */
  method AddChild(db: Db, a: Actor, childId: Option<Id>) returns (r: Result<()>)
    requires db.Valid()
    modifies db`users
    ensures db.Valid()
    ensures !Includes(a.userType, Parent) ==> r == Fail(Forbidden) && db.users == old(db.users)
    ensures (Includes(a.userType, Parent) && (childId.None? || childId.value !in old(db.users)
             || !Includes(old(db.users)[childId.value].userType, Student))) ==>
      r == Fail(NotFound) && db.users == old(db.users)
    ensures r.Ok? ==> childId.Some? && childId.value in old(db.users) && db.users == ChildAdded(old(db.users), a.id, childId.value)
    ensures r.Fail? ==> db.users == old(db.users)
    ensures (Includes(a.userType, Parent) && childId.Some? && childId.value in old(db.users)
             && Includes(old(db.users)[childId.value].userType, Student)) ==> r.Ok?
  {
    if !Includes(a.userType, Parent) {
      return Fail(Forbidden);
    }
    if childId.None? || childId.value !in db.users || !Includes(db.users[childId.value].userType, Student) {
      return Fail(NotFound);
    }
    ChildAddedPhones(db.users, a.id, childId.value);
    db.users := ChildAdded(db.users, a.id, childId.value);
    r := Ok(());
  }

  /** Linking a child touches no phone number. */
  lemma ChildAddedPhones(users: map<Id, User>, parentId: Id, childId: Id)
    requires childId in users && PhonesUnique(users)
    ensures PhonesUnique(ChildAdded(users, parentId, childId))
  {
    var after := ChildAdded(users, parentId, childId);
    assert forall i :: i in after ==> after[i].phoneNumber == users[i].phoneNumber;
  }

  /** Adding the same child twice leaves the users as adding it once. */
  lemma {:induction false} AddChildIdempotent(users: map<Id, User>, parentId: Id, childId: Id)
    requires childId in users
    ensures ChildAdded(ChildAdded(users, parentId, childId), parentId, childId) == ChildAdded(users, parentId, childId)
  {
    var once := ChildAdded(users, parentId, childId);
    var twice := ChildAdded(once, parentId, childId);
    if parentId in users {
      assert childId in once[parentId].children;
      assert AddToSet(once[parentId].children, childId) == once[parentId].children;
    }
    assert forall i :: i in twice ==> twice[i] == once[i];
  }
}
