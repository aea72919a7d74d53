/** The records of the club backend's collections (the Mongoose schemas under
    `models/`), with their enums and defaults, and the unique indexes the
    controllers rely on, stated as predicates on a collection. */
module Entities {
  import opened Common

  /** A user document as the controllers read and write it. */
  datatype User = User(
    phoneNumber: string,
    iin: string,
    fullName: string,
    dateOfBirth: string,
    weight: string,
    userType: UserType,
    role: Role,
    groupId: Option<Id>,
    parentId: Option<Id>,
    children: seq<Id>,
    password: string)

  datatype Group = Group(name: string, trainerId: Id, students: seq<Id>)

  datatype JoinStatus = Pending | Approved | Rejected

  datatype JoinRequest = JoinRequest(studentId: Id, groupId: Id, status: JoinStatus)

  /** `dayOfWeek` is 0 (Monday) to 6 (Sunday); times are "HH:MM" strings. */
  datatype Schedule = Schedule(groupId: Id, dayOfWeek: int, startTime: string, endTime: string, location: string)

  const DefaultLocation: string := "Зал ORTUS"

  datatype SessionStatus = NotStarted | Started | Finished

  /** The unique index of training sessions: one record per schedule and day. */
  datatype SessionKey = SessionKey(scheduleId: Id, sessionDate: int)

  datatype TrainingSession = TrainingSession(
    groupId: Id,
    trainerId: Id,
    status: SessionStatus,
    startedAt: Option<int>,
    finishedAt: Option<int>,
    beforePhotoReportId: Option<Id>,
    afterPhotoReportId: Option<Id>)

  datatype PhotoType = TrainingBefore | TrainingAfter | Cleaning

  datatype RelatedModel = ScheduleModel | CleaningReportModel

  datatype PhotoReport = PhotoReport(
    kind: PhotoType,
    authorId: Id,
    relatedId: Option<Id>,
    relatedModel: Option<RelatedModel>,
    photos: seq<string>,
    comment: string,
    createdAt: int)

  datatype AttendanceStatus = Present | Absent | Sick | Competition | Excused

  /** An attendance document; `status` is `None` when the stored document has
      no status field, which a marking request without a status leaves. */
  datatype Attendance = Attendance(
    scheduleId: Option<Id>,
    groupId: Id,
    studentId: Id,
    date: int,
    status: Option<AttendanceStatus>,
    note: Option<string>,
    markedBy: Option<Id>)

  /** A cart line; the cart of a user is the list of its lines. */
  datatype CartItem = CartItem(productId: Id, size: string, quantity: int)

  /** Whether a cart line is the line of a product in a size. */
  predicate SameLine(item: CartItem, productId: Id, size: string)
  {
    item.productId == productId && item.size == size
  }

  /** No two lines of a cart share product and size. */
  predicate UniqueLines(items: seq<CartItem>)
  {
    forall i, j :: 0 <= i < j < |items| ==> !SameLine(items[j], items[i].productId, items[i].size)
  }

  /** What `cart.save()` accepts and the handlers keep: unique lines, each
      with a quantity of at least 1 (`min: 1` in the cart item schema). */
  predicate CartValid(items: seq<CartItem>)
  {
    UniqueLines(items) && forall i :: 0 <= i < |items| ==> items[i].quantity >= 1
  }

  datatype SizeEntry = SizeEntry(size: string, stock: int)

  /** `sizes.findIndex(s => s.size === size)`: the first entry of that size, or -1. */
  function SizeIndex(sizes: seq<SizeEntry>, size: string): (i: int)
    ensures -1 <= i < |sizes|
    ensures i >= 0 ==> sizes[i].size == size && forall j :: 0 <= j < i ==> sizes[j].size != size
    ensures i == -1 <==> forall j :: 0 <= j < |sizes| ==> sizes[j].size != size
  {
    if |sizes| == 0 then -1
    else if sizes[0].size == size then 0
    else
      var k := SizeIndex(sizes[1..], size);
      if k == -1 then -1 else k + 1
  }

  /** Entries with the same size names in the same places are found at the same index. */
  lemma SizeIndexSameNames(sizes: seq<SizeEntry>, other: seq<SizeEntry>, size: string)
    requires |other| == |sizes| && forall j :: 0 <= j < |sizes| ==> other[j].size == sizes[j].size
    ensures SizeIndex(other, size) == SizeIndex(sizes, size)
  {
    var a, b := SizeIndex(sizes, size), SizeIndex(other, size);
    if a >= 0 && b >= 0 {
      assert !(a < b) && !(b < a);
    }
  }

  datatype Product = Product(
    name: string,
    description: string,
    category: string,
    price: int,
    images: seq<string>,
    sizes: seq<SizeEntry>,
    isActive: bool)

  const ProductCategories: set<string> := {"tshirt", "patch", "bottle", "mug", "cap"}

  datatype OrderStatus = New | Contacted | Paid | Delivering | Completed | Canceled

  datatype OrderItem = OrderItem(productId: Id, name: string, image: string, size: string, quantity: int, price: int)

  datatype Order = Order(
    userId: Id,
    clientName: string,
    clientPhone: string,
    items: seq<OrderItem>,
    totalAmount: int,
    status: OrderStatus,
    clientComment: string,
    managerNote: string)

  datatype DeliveryStatus = DeliveryNew | InProgress | Delivered | Cancelled

  datatype DeliveryRequest = DeliveryRequest(
    orderId: Id,
    studentId: Id,
    studentName: string,
    phoneNumber: string,
    summary: string,
    pickupAddress: string,
    desiredMethod: string,
    status: DeliveryStatus)

  datatype PaymentStatus = Unpaid | PaidStatus

  /** `paymentMethod` is a plain string: the update that sets it runs
      without schema validators, so any value can be stored. */
  datatype Payment = Payment(
    studentId: Id,
    groupId: Id,
    amount: int,
    month: int,
    year: int,
    status: PaymentStatus,
    paymentMethod: string,
    paidAt: Option<int>)

  datatype NewsType = GroupNews | GeneralNews

  const NewsCategories: set<string> := {"general", "tournament", "event", "announcement"}

  datatype News = News(
    title: string,
    content: string,
    newsType: NewsType,
    category: string,
    images: seq<string>,
    targetGroups: seq<Id>,
    authorId: Id,
    isPinned: bool,
    isActive: bool)

  datatype CleaningReport = CleaningReport(staffId: Id, date: int, zones: seq<string>, photos: seq<string>, comment: string)

  datatype ResourceType = Image | Raw

  datatype Attachment = Attachment(url: string, publicId: string, resourceType: ResourceType, fileType: string, originalName: string)

  datatype Report = Report(trainerId: Id, trainingDate: int, slot: string, comment: string, attachments: seq<Attachment>, isLate: bool)

  /** The unique index on `User.phoneNumber`. */
  predicate PhonesUnique(users: map<Id, User>)
  {
    forall i, j :: i in users && j in users && users[i].phoneNumber == users[j].phoneNumber ==> i == j
  }

  /** The unique index on `Group.name`. */
  predicate GroupNamesUnique(groups: map<Id, Group>)
  {
    forall i, j :: i in groups && j in groups && groups[i].name == groups[j].name ==> i == j
  }

  /** The unique index of attendance: one record per student and date. */
  predicate AttendanceUnique(records: map<Id, Attendance>)
  {
    forall i, j ::
      (i in records && j in records && records[i].studentId == records[j].studentId && records[i].date == records[j].date)
      ==> i == j
  }

  /** The unique index of payments: one payment per student, month and year. */
  predicate PaymentsUnique(payments: map<Id, Payment>)
  {
    forall i, j ::
      (i in payments && j in payments && payments[i].studentId == payments[j].studentId
       && payments[i].month == payments[j].month && payments[i].year == payments[j].year)
      ==> i == j
  }

  /** Every stored cart is valid. */
  predicate CartsValid(carts: map<Id, seq<CartItem>>)
  {
    forall u :: u in carts ==> CartValid(carts[u])
  }

  /** The unique index on `DeliveryRequest.orderId`. */
  predicate OneRequestPerOrder(requests: map<Id, DeliveryRequest>)
  {
    forall i, j :: i in requests && j in requests && requests[i].orderId == requests[j].orderId ==> i == j
  }
}
