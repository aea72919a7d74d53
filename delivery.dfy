/** `controllers/deliveryRequestController.js`: a client asks for one of
    their orders to be delivered; admins list the requests and move their
    status. */
module Delivery {
  import opened Common
  import opened Text
  import opened Entities
  import opened Store

  /** `${item.name} x${item.quantity}`. */
  function SummaryLine(item: OrderItem): string
  {
    item.name + " x" + IntString(item.quantity)
  }

  /** The item lines of an order, in item order. */
  function SummaryLines(items: seq<OrderItem>): (lines: seq<string>)
    ensures |lines| == |items|
    ensures forall i :: 0 <= i < |items| ==> lines[i] == SummaryLine(items[i])
  {
    seq(|items|, i requires 0 <= i < |items| => SummaryLine(items[i]))
  }

  /** The request's `summary`: the item lines joined by ", ". */
  function Summary(items: seq<OrderItem>): string
  {
    Join(SummaryLines(items), ", ")
  }

  /** The summary grows by one line per appended item: an empty order has
      the empty summary, one item its own line, and a further item adds
      ", " and its line at the end. */
  lemma {:induction false} SummaryAppend(items: seq<OrderItem>, item: OrderItem)
    ensures Summary([]) == ""
    ensures Summary([item]) == SummaryLine(item)
    ensures |items| > 0 ==> Summary(items + [item]) == Summary(items) + ", " + SummaryLine(item)
    decreases |items|
  {
    assert SummaryLines([item]) == [SummaryLine(item)];
    if |items| > 0 {
      var xs := SummaryLines(items + [item]);
      if |items| == 1 {
        assert xs == [SummaryLine(items[0]), SummaryLine(item)];
        assert xs[1..] == [SummaryLine(item)];
        assert SummaryLines(items) == [SummaryLine(items[0])];
      } else {
        SummaryAppend(items[1..], item);
        assert items + [item] == [items[0]] + (items[1..] + [item]);
        assert xs[1..] == SummaryLines(items[1..] + [item]);
        assert SummaryLines(items)[1..] == SummaryLines(items[1..]);
      }
    }
  }

  /** The pickup address and method every new request gets. */
  const PickupAddress: string := DefaultLocation
  const DesiredMethod: string := "delivery"

  /** Whether any stored request is for the order. */
  predicate Requested(requests: map<Id, DeliveryRequest>, orderId: Id)
  {
    exists id :: id in requests && requests[id].orderId == orderId
  }

  /** The checks of `createDeliveryRequest`, in the source's order, up to
      the request document it creates. The owner is read through the
      populated `userId`, which is `null` for a deleted user; the request
      schema requires a non-empty name and phone. */
  function CheckCreate(orders: map<Id, Order>, users: map<Id, User>, requests: map<Id, DeliveryRequest>,
                       a: Actor, orderId: Option<Id>): (r: Result<DeliveryRequest>)
    ensures !Given(orderId) ==> r == Fail(BadRequest)
    ensures Given(orderId) && orderId.value !in orders ==> r == Fail(NotFound)
    ensures r.Ok? ==>
      && orderId.Some? && orderId.value in orders && orders[orderId.value].userId == a.id
      && !Requested(requests, orderId.value)
      && r.value.orderId == orderId.value && r.value.studentId == a.id
      && r.value.status == DeliveryNew && r.value.pickupAddress == PickupAddress && r.value.desiredMethod == DesiredMethod
      && r.value.summary == Summary(orders[orderId.value].items)
    ensures (Given(orderId) && orderId.value in orders && orders[orderId.value].userId in users
             && orders[orderId.value].userId != a.id) ==> r == Fail(Forbidden)
    ensures (Given(orderId) && orderId.value in orders && orders[orderId.value].userId == a.id && a.id in users
             && Requested(requests, orderId.value)) ==> r == Fail(BadRequest)
    ensures Given(orderId) && orderId.value in orders && orders[orderId.value].userId !in users ==> r == Fail(ServerError)
    ensures r.Ok? <==>
      && Given(orderId) && orderId.value in orders && orders[orderId.value].userId == a.id && a.id in users
      && !Requested(requests, orderId.value)
      && users[a.id].fullName != "" && users[a.id].phoneNumber != ""
    ensures r.Ok? ==> r.value.studentName == users[a.id].fullName && r.value.phoneNumber == users[a.id].phoneNumber
  {
    if !Given(orderId) then Fail(BadRequest)
    else if orderId.value !in orders then Fail(NotFound)
    else
      var order := orders[orderId.value];
      if order.userId !in users then Fail(ServerError)
      else if order.userId != a.id then Fail(Forbidden)
      else if Requested(requests, orderId.value) then Fail(BadRequest)
      else
        var owner := users[order.userId];
        if owner.fullName == "" || owner.phoneNumber == "" then Fail(ServerError)
        else Ok(DeliveryRequest(orderId.value, a.id, owner.fullName, owner.phoneNumber, Summary(order.items),
                                PickupAddress, DesiredMethod, DeliveryNew))
  }

  /** `createDeliveryRequest`; `requestId` is the id the database assigns.
      After the insert, an order still `new` is set to "ready", a value the
      order schema's status enum does not list, so that save fails (500)
      with the request already stored and the order unchanged. */
  method CreateDeliveryRequest(db: Db, a: Actor, orderId: Option<Id>, requestId: Id) returns (r: Result<DeliveryRequest>)
    requires db.Valid()
    requires requestId !in db.deliveryRequests
    modifies db`deliveryRequests
    ensures db.Valid()
    ensures var check := CheckCreate(db.orders, db.users, old(db.deliveryRequests), a, orderId);
      && (check.Fail? ==> r == Fail(check.code) && db.deliveryRequests == old(db.deliveryRequests))
      && (check.Ok? ==> db.deliveryRequests == old(db.deliveryRequests)[requestId := check.value])
      && (check.Ok? && db.orders[orderId.value].status == New ==> r == Fail(ServerError))
      && (check.Ok? && db.orders[orderId.value].status != New ==> r == Ok(check.value))
  {
    var check := CheckCreate(db.orders, db.users, db.deliveryRequests, a, orderId);
    if check.Fail? {
      return Fail(check.code);
    }
    db.deliveryRequests := db.deliveryRequests[requestId := check.value];
    if db.orders[orderId.value].status == New {
      return Fail(ServerError);
    }
    r := Ok(check.value);
  }

  /** Once a request is stored for an order, asking again for that order is
      refused with 400: at most one request per order. */
  lemma SecondRequestRejected(orders: map<Id, Order>, users: map<Id, User>, requests: map<Id, DeliveryRequest>,
                              a: Actor, orderId: Option<Id>, requestId: Id)
    requires a.id in users
    requires CheckCreate(orders, users, requests, a, orderId).Ok?
    ensures CheckCreate(orders, users, requests[requestId := CheckCreate(orders, users, requests, a, orderId).value], a, orderId)
            == Fail(BadRequest)
  {
    var after := requests[requestId := CheckCreate(orders, users, requests, a, orderId).value];
    assert after[requestId].orderId == orderId.value;
  }

  /** `getAllRequests`: admin only. */
  function GetAllRequests(requests: map<Id, DeliveryRequest>, a: Actor): (r: Result<set<Id>>)
    ensures r.Ok? <==> Includes(a.userType, Admin)
    ensures r.Ok? ==> r.value == requests.Keys
    ensures r.Fail? ==> r.code == Forbidden
  {
    if Includes(a.userType, Admin) then Ok(requests.Keys) else Fail(Forbidden)
  }

  /** The four statuses by name. */
  function ParseDeliveryStatus(s: string): Option<DeliveryStatus>
  {
    if s == "new" then Some(DeliveryNew)
    else if s == "in_progress" then Some(InProgress)
    else if s == "delivered" then Some(Delivered)
    else if s == "cancelled" then Some(Cancelled)
    else None
  }

  /** `updateRequestStatus`: admin only. An omitted status is dropped from
      the update, which then changes nothing; a status outside the enum fails
      the update validators (500) before the lookup. */
  function UpdateStatusOutcome(requests: map<Id, DeliveryRequest>, a: Actor, id: Id, status: Option<string>)
    : (r: Result<DeliveryRequest>)
    ensures !Includes(a.userType, Admin) ==> r == Fail(Forbidden)
    ensures Includes(a.userType, Admin) && status.Some? && ParseDeliveryStatus(status.value).None? ==> r == Fail(ServerError)
    ensures r.Ok? ==> id in requests && r.value == requests[id].(status := r.value.status)
    ensures r.Ok? && status.Some? ==> ParseDeliveryStatus(status.value) == Some(r.value.status)
    ensures r.Ok? && status.None? ==> r.value == requests[id]
    ensures Includes(a.userType, Admin) && (status.None? || ParseDeliveryStatus(status.value).Some?) ==>
      (r.Ok? <==> id in requests)
  {
    if !Includes(a.userType, Admin) then Fail(Forbidden)
    else if status.Some? && ParseDeliveryStatus(status.value).None? then Fail(ServerError)
    else if id !in requests then Fail(NotFound)
    else if status.None? then Ok(requests[id])
    else Ok(requests[id].(status := ParseDeliveryStatus(status.value).value))
  }

  method UpdateRequestStatus(db: Db, a: Actor, id: Id, status: Option<string>) returns (r: Result<DeliveryRequest>)
    requires db.Valid()
    modifies db`deliveryRequests
    ensures db.Valid()
    ensures r == UpdateStatusOutcome(old(db.deliveryRequests), a, id, status)
    ensures db.deliveryRequests == if r.Ok? then old(db.deliveryRequests)[id := r.value] else old(db.deliveryRequests)
  {
    r := UpdateStatusOutcome(db.deliveryRequests, a, id, status);
    if r.Ok? {
      db.deliveryRequests := db.deliveryRequests[id := r.value];
    }
  }
}
