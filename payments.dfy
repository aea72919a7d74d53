/** `controllers/paymentController.js`: monthly tuition payments. Admins and
    trainers create them and mark them paid; who may read which payments
    depends on ownership, parenthood and the trainer's groups. */
module Payments {
  import opened Common
  import opened Entities
  import opened Store

  predicate AdminOrTrainer(a: Actor)
  {
    Includes(a.userType, Admin) || Includes(a.userType, Trainer)
  }

  /** Whether a payment for the student, month and year is already stored. */
  predicate HasPayment(payments: map<Id, Payment>, studentId: Id, month: int, year: int)
  {
    exists id :: id in payments && payments[id].studentId == studentId && payments[id].month == month && payments[id].year == year
  }

  /** The checks of `createPayment` and the document it stores. `amount`,
      `month` and `year` are `None` when missing or not numbers. Schema
      validation (required fields, month in 1..12) fails with 500 before the
      insert; the unique (student, month, year) index then answers 400. */
  function CheckCreate(users: map<Id, User>, payments: map<Id, Payment>, a: Actor, studentId: Option<Id>,
                       amount: Option<int>, month: Option<int>, year: Option<int>): (r: Result<Payment>)
    ensures !AdminOrTrainer(a) ==> r == Fail(Forbidden)
    ensures (AdminOrTrainer(a) && (studentId.None? || studentId.value !in users
             || !Includes(users[studentId.value].userType, Student))) ==> r == Fail(NotFound)
    ensures r.Ok? ==>
      && studentId.Some? && studentId.value in users
      && Includes(users[studentId.value].userType, Student) && users[studentId.value].groupId.Some?
      && amount.Some? && month.Some? && year.Some?
      && r.value == Payment(studentId.value, users[studentId.value].groupId.value, amount.value, month.value, year.value,
                            Unpaid, "manual", None)
      && 1 <= r.value.month <= 12
      && !HasPayment(payments, r.value.studentId, r.value.month, r.value.year)
    ensures (r.Fail? && r.code == BadRequest && amount.Some? && month.Some? && year.Some? && 1 <= month.value <= 12) ==>
      studentId.Some? && studentId.value in users
      && (users[studentId.value].groupId.None?
          || HasPayment(payments, studentId.value, month.value, year.value))
    ensures r.Ok? <==>
      && AdminOrTrainer(a) && studentId.Some? && studentId.value in users
      && Includes(users[studentId.value].userType, Student) && users[studentId.value].groupId.Some?
      && amount.Some? && month.Some? && year.Some? && 1 <= month.value <= 12
      && !HasPayment(payments, studentId.value, month.value, year.value)
  {
    if !AdminOrTrainer(a) then Fail(Forbidden)
    else if studentId.None? || studentId.value !in users || !Includes(users[studentId.value].userType, Student) then
      Fail(NotFound)
    else
      var student := users[studentId.value];
      if student.groupId.None? then Fail(BadRequest)
      else if amount.None? || month.None? || year.None? || !(1 <= month.value <= 12) then Fail(ServerError)
      else if HasPayment(payments, studentId.value, month.value, year.value) then Fail(BadRequest)
      else Ok(Payment(studentId.value, student.groupId.value, amount.value, month.value, year.value, Unpaid, "manual", None))
  }

  /** `createPayment`; `paymentId` is the id the database assigns. */
  method CreatePayment(db: Db, a: Actor, studentId: Option<Id>, amount: Option<int>, month: Option<int>, year: Option<int>,
                       paymentId: Id) returns (r: Result<Payment>)
    requires db.Valid()
    requires paymentId !in db.payments
    modifies db`payments
    ensures db.Valid()
    ensures r == CheckCreate(db.users, old(db.payments), a, studentId, amount, month, year)
    ensures db.payments == if r.Ok? then old(db.payments)[paymentId := r.value] else old(db.payments)
  {
    r := CheckCreate(db.users, db.payments, a, studentId, amount, month, year);
    if r.Ok? {
      db.payments := db.payments[paymentId := r.value];
    }
  }

  /** A second payment for the same student, month and year is refused
      with 400, whoever asks and whatever the amount. */
  lemma SecondPaymentRejected(users: map<Id, User>, payments: map<Id, Payment>, a: Actor, studentId: Option<Id>,
                              amount: Option<int>, month: Option<int>, year: Option<int>, paymentId: Id,
                              b: Actor, otherAmount: Option<int>)
    requires CheckCreate(users, payments, a, studentId, amount, month, year).Ok?
    requires AdminOrTrainer(b) && otherAmount.Some?
    ensures var p := CheckCreate(users, payments, a, studentId, amount, month, year).value;
      CheckCreate(users, payments[paymentId := p], b, studentId, otherAmount, month, year) == Fail(BadRequest)
  {
    var p := CheckCreate(users, payments, a, studentId, amount, month, year).value;
    assert payments[paymentId := p][paymentId] == p;
  }

  /** `getStudentPayments`: the student, their parent or an admin. */
  function GetStudentPayments(users: map<Id, User>, payments: map<Id, Payment>, a: Actor, studentId: Id): (r: Result<set<Id>>)
    ensures studentId !in users ==> r == Fail(NotFound)
    ensures r.Ok? <==>
      studentId in users
      && (a.id == studentId || users[studentId].parentId == Some(a.id) || Includes(a.userType, Admin))
    ensures r.Ok? ==> forall id :: id in r.value <==> id in payments && payments[id].studentId == studentId
  {
    if studentId !in users then Fail(NotFound)
    else if a.id != studentId && users[studentId].parentId != Some(a.id) && !Includes(a.userType, Admin) then Fail(Forbidden)
    else Ok(set id | id in payments && payments[id].studentId == studentId)
  }

  /** `getGroupPayments`: the group's trainer or an admin. */
  function GetGroupPayments(groups: map<Id, Group>, payments: map<Id, Payment>, a: Actor, groupId: Id): (r: Result<set<Id>>)
    ensures groupId !in groups ==> r == Fail(NotFound)
    ensures r.Ok? <==> groupId in groups && (groups[groupId].trainerId == a.id || Includes(a.userType, Admin))
    ensures r.Ok? ==> forall id :: id in r.value <==> id in payments && payments[id].groupId == groupId
  {
    if groupId !in groups then Fail(NotFound)
    else if groups[groupId].trainerId != a.id && !Includes(a.userType, Admin) then Fail(Forbidden)
    else Ok(set id | id in payments && payments[id].groupId == groupId)
  }

  /** Whether the caller trains the group. */
  predicate Trains(groups: map<Id, Group>, a: Actor, groupId: Id)
  {
    groupId in groups && groups[groupId].trainerId == a.id
  }

  /** `getUnpaidPayments`: unpaid payments; a trainer who is not an admin
      sees only those of the groups they train. */
  function GetUnpaidPayments(groups: map<Id, Group>, payments: map<Id, Payment>, a: Actor): (r: Result<set<Id>>)
    ensures r.Ok? <==> AdminOrTrainer(a)
    ensures r.Ok? ==> forall id :: id in r.value ==> id in payments && payments[id].status == Unpaid
    ensures r.Ok? && !Includes(a.userType, Admin) ==>
      forall id :: id in r.value <==> id in payments && payments[id].status == Unpaid && Trains(groups, a, payments[id].groupId)
    ensures r.Ok? && Includes(a.userType, Admin) ==>
      forall id :: id in r.value <==> id in payments && payments[id].status == Unpaid
  {
    if !AdminOrTrainer(a) then Fail(Forbidden)
    else if !Includes(a.userType, Admin) then
      Ok(set id | id in payments && payments[id].status == Unpaid && Trains(groups, a, payments[id].groupId))
    else Ok(set id | id in payments && payments[id].status == Unpaid)
  }

  /** The payment after `markAsPaid`. The update runs without validators,
      so any method string is stored; a falsy one becomes "manual". */
  function Paid(p: Payment, paymentMethod: Option<string>, now: int): Payment
  {
    p.(status := PaidStatus, paidAt := Some(now), paymentMethod := if Given(paymentMethod) then paymentMethod.value else "manual")
  }

  /** `markAsPaid`. */
  method MarkAsPaid(db: Db, a: Actor, id: Id, paymentMethod: Option<string>, now: int) returns (r: Result<Payment>)
    requires db.Valid()
    modifies db`payments
    ensures db.Valid()
    ensures !AdminOrTrainer(a) ==> r == Fail(Forbidden)
    ensures AdminOrTrainer(a) && id !in old(db.payments) ==> r == Fail(NotFound)
    ensures AdminOrTrainer(a) && id in old(db.payments) ==> r == Ok(Paid(old(db.payments)[id], paymentMethod, now))
    ensures db.payments == if r.Ok? then old(db.payments)[id := r.value] else old(db.payments)
  {
    if !AdminOrTrainer(a) {
      return Fail(Forbidden);
    }
    if id !in db.payments {
      return Fail(NotFound);
    }
    var p := Paid(db.payments[id], paymentMethod, now);
    db.payments := db.payments[id := p];
    r := Ok(p);
  }

  /** A payment marked paid keeps its student, group, amount and period,
      and leaves every unpaid listing, while every other payment keeps its
      place in them. */
  lemma {:induction false} PaidLeavesUnpaid(groups: map<Id, Group>, payments: map<Id, Payment>, a: Actor, b: Actor,
                                            id: Id, paymentMethod: Option<string>, now: int)
    requires id in payments && AdminOrTrainer(b)
    ensures var q := Paid(payments[id], paymentMethod, now);
      && q.studentId == payments[id].studentId && q.groupId == payments[id].groupId
      && q.amount == payments[id].amount && q.month == payments[id].month && q.year == payments[id].year
      && id !in GetUnpaidPayments(groups, payments[id := q], b).value
      && (forall other :: other != id ==>
            (other in GetUnpaidPayments(groups, payments[id := q], b).value <==> other in GetUnpaidPayments(groups, payments, b).value))
  {
    var after := payments[id := Paid(payments[id], paymentMethod, now)];
    forall other | other != id
      ensures other in GetUnpaidPayments(groups, after, b).value <==> other in GetUnpaidPayments(groups, payments, b).value
    {
      if other in payments {
        assert after[other] == payments[other];
      }
    }
  }
}
