# ORTUS backend business rules, in Dafny

This project models the request handlers of the ORTUS sports-club backend (an Express and Mongoose service). It covers the rules that decide, for a caller and the current records, whether a request is refused (and with which status code) or which records it creates or changes. The areas are:
- trainer reports and their 60-to-30-minute submission window;
- calendar-day normalisation;
- the training-session state machine, gated on before and after photos;
- attendance and its photo gate;
- photo, cleaning and trainer reports;
- the shop: catalogue, cart, orders and delivery requests;
- payments, groups and join requests, news, users, registration and schedules.

How the system is represented:
- **Store.** The document store is one object, `Store.Db`. Its fields are maps keyed by id, and training sessions are keyed by schedule and day. Its `Valid()` holds the unique indexes and the cart invariants the handlers rely on.
- **Handlers.** Every handler that writes is a module-level method that takes the store `db: Db` and names the fields it changes in a field-level `modifies` clause. Its `ensures` ties the answer to a pure check function and states the whole new state. Read-only handlers are functions.
- **Listings.** They are sets of ids, except the schedule listing, whose order is modelled.
- **Callers.** An `Actor` carries both forms the source reads:
  - `userType`, either a list of roles or a bare role string;
  - the single `role` field, which `reportController.js` and `orderController.js` compare.
- **Time.** Instants are integer milliseconds on fixed 24-hour days.
- **Environment inputs.** The clock (`now`), database-assigned ids, uploaded file paths, date parsing and the password check are parameters.

| module | file | source |
|---|---|---|
| `Common`, `Text`, `Time`, `Entities`, `Store` | `common.dfy`, `text.dfy`, `time.dfy`, `entities.dfy`, `store.dfy` | shared values: roles, options and results, string splitting, trimming and `parseInt`, instants, the documents of `models/*.js`, the store |
| `ReportTiming` | `report_timing.dfy` | `utils/reportTiming.js` |
| `DateUtils` | `date_utils.dfy` | `utils/dateUtils.js` |
| `TrainingSessions` | `training_sessions.dfy` | `controllers/trainingSessionController.js` |
| `PhotoReports` | `photo_reports.dfy` | `controllers/photoReportController.js` |
| `AttendanceRules` | `attendance.dfy` | `controllers/attendanceController.js` |
| `Carts`, `Orders`, `Products`, `Delivery` | `cart.dfy`, `orders.dfy`, `products.dfy`, `delivery.dfy` | the shop controllers |
| `Payments`, `Groups`, `Users`, `Auth`, `NewsFeed`, `Schedules` | `payments.dfy`, `groups.dfy`, `users.dfy`, `auth.dfy`, `news.dfy`, `schedules.dfy` | the membership and content controllers |
| `CleaningReports`, `TrainerReports` | `cleaning_reports.dfy`, `reports.dfy` | `controllers/cleaningReportController.js`, `controllers/reportController.js` |

Where the code and the documentation of the system disagree, the model follows the code. These quirks are kept as written and stated as lemmas:
- **`createGroup` checks a bare string.** It admits a caller only when `userType` is the bare string "trainer". A trainer registered through `register`, which stores a list, is refused (`Groups.ArrayTrainerRefused`).
- **`reportController.js` and `orderController.js` read the single `role` field.** The other controllers read `userType`.
- **`createDeliveryRequest` writes an invalid status.** It sets an order's status to "ready", which `models/Order.js:28` does not list. That save fails with 500 after the delivery request has already been stored (`Delivery.CreateDeliveryRequest`).
- **The cart's stock check ignores the cart.** `addToCart` compares only the newly requested quantity with the stock, so repeated additions can hold more than the stock (`Carts.StockCheckIgnoresCart`).
- **Approving a join request twice duplicates the student.** It pushes the student onto the group's list again (`Groups.ApproveTwiceDuplicates`).
- **An update can leave group news with no targets.** Creation refuses such news, but an update that switches to group type without naming groups keeps an empty target list (`NewsFeed.UpdateMayLeaveGroupUntargeted`).
- **An empty zone name hides an invalid one.** Placed ahead of an invalid zone, it turns the 400 of `createCleaningReport` into a 500 (`CleaningReports.EmptyZoneEscapesCheck`).
- **A mark without a status unsets it.** `markAttendance` assigns an omitted status as `undefined`, which skips the photo check and the enum validator and stores the record without a status; the statistics then count it in the total but under no status (`AttendanceRules.CheckMark`, `AttendanceRules.StatsPartition`).
- **The attendance photo gate is not scoped to a date.** It accepts an after photo from any day, unlike `finishSession` (`AttendanceRules.PhotoGate`).
- **The status query is stricter than Start and Finish.** It refuses a schedule whose group is gone even for an admin, where they would let the admin through (`TrainingSessions.QueryStricterThanAccess`).
- **`models/User.js` declares fewer fields than the controllers use.** It declares a single `role` and none of `userType`, `iin`, `groupId`, `children` or `parentId`. The model's `User` has the fields the controllers read and write.

## Model

| member | source | states |
|---|---|---|
| AttendanceRules.StudentsToMark | ortus_app/ortus-backend/controllers/attendanceController.js:33-36 | the students covered are existing users; when the group's populated list keeps anyone, it is exactly that list, otherwise the users whose `groupId` is the group |
| AttendanceRules.RecordsOn | ortus_app/ortus-backend/controllers/attendanceController.js:65-70 | the returned records are exactly the group's records on that date, old and new alike |
| AttendanceRules.CheckCreate | ortus_app/ortus-backend/controllers/attendanceController.js:10-41 | 403 without the trainer role, 404 for a missing group, 403 for another trainer's group, 404 for a missing schedule, 400 when no student is found; succeeds if and only if all of these pass and the date is valid, covering exactly `StudentsToMark` |
| AttendanceRules.CreateAttendanceForGroup | ortus_app/ortus-backend/controllers/attendanceController.js:8-76 | fails exactly when the checks fail, leaving the records; otherwise every covered student has a record on the date, no old record changes, each new record is the `absent` record of a student who had none, and the reply is every record of the group on that date |
| AttendanceRules.InsertMissing | ortus_app/ortus-backend/controllers/attendanceController.js:46-63 | the loop keeps one record per student and date, keeps every old record, gives every student a record and inserts only `absent` records for students without one (the duplicate-key error is swallowed) |
| AttendanceRules.InsertOne | ortus_app/ortus-backend/controllers/attendanceController.js:47-56 | one pass of the loop preserves the loop invariant, uniqueness per student and date included |
| AttendanceRules.CheckMark | ortus_app/ortus-backend/controllers/attendanceController.js:81-121 | 403 without the trainer role, 404 for a missing record, 403 for another trainer's group, 400 for a closing status on a scheduled record without an after-training photo; succeeds if and only if the caller trains the record's group, the status is in the enum or missing and that photo rule holds; a missing status leaves the record without one |
| AttendanceRules.MarkAttendance | ortus_app/ortus-backend/controllers/attendanceController.js:79-130 | fails exactly when the checks fail, leaving the records; otherwise only the marked record changes, to its new status, note and marker |
| AttendanceRules.PhotoGate | ortus_app/ortus-backend/controllers/attendanceController.js:106-121 | for the group's trainer, a present, absent or sick mark on a scheduled record passes if and only if an after photo of the schedule exists; competition, excused, unscheduled records and a request without a status always pass |
| AttendanceRules.MarkKeepsIdentity | ortus_app/ortus-backend/controllers/attendanceController.js:102-104 | marking changes only status, note and marker, and a falsy note keeps the old note |
| AttendanceRules.StudentRecords | ortus_app/ortus-backend/controllers/attendanceController.js:193-199 | a record is listed if and only if it belongs to the student and its date lies within the given startDate/endDate bounds |
| AttendanceRules.GetGroupAttendanceByDate | ortus_app/ortus-backend/controllers/attendanceController.js:133-163 | 404 for a missing group; succeeds if and only if the caller is the group's trainer or an admin, returning the group's records on that date |
| AttendanceRules.GetStudentAttendance | ortus_app/ortus-backend/controllers/attendanceController.js:166-210 | 404 for a missing student; succeeds if and only if the caller is the student, the parent, an admin or the trainer of the student's group, returning exactly the student's records within the date bounds |
| AttendanceRules.GetStudentAttendanceStats | ortus_app/ortus-backend/controllers/attendanceController.js:213-273 | 404 for a missing student; succeeds if and only if the caller is the student, the parent or an admin; the total is the number of the student's records in the date range and each of the five counts is the number of those records with that status |
| AttendanceRules.StatsPartition | ortus_app/ortus-backend/controllers/attendanceController.js:242-259 | the five status counts plus the records without a status add up to the total |
| AttendanceRules.GroupRecords | ortus_app/ortus-backend/controllers/attendanceController.js:294-300 | a record is counted if and only if it belongs to the group and its date lies within the given startDate/endDate bounds |
| AttendanceRules.GetGroupAttendanceStats | ortus_app/ortus-backend/controllers/attendanceController.js:276-323 | 404 for a missing group; succeeds if and only if the caller is the trainer or an admin; the total is the number of the group's records in range and present, absent and sick are the numbers of those records with each status |
| AttendanceRules.GroupStatsBounded | ortus_app/ortus-backend/controllers/attendanceController.js:302-311 | present, absent and sick together never exceed the total |
| Auth.CheckRegister | ortus_app/ortus-backend/controllers/authController.js:26-68 | registration goes ahead if and only if all seven fields are truthy and neither the phone number nor the IIN is taken, failing with 400 otherwise; the new account is schema-valid and links the parent only when one is named |
| Auth.Registered | ortus_app/ortus-backend/controllers/authController.js:59-74 | the users after registration are the old ones plus the new account under its new id |
| Auth.Register | ortus_app/ortus-backend/controllers/authController.js:5-93 | answers the checks; on success stores the account, appends it to the named parent's children and files a pending join request exactly when the roles include student and a group is named; keeps phone numbers unique |
| Auth.RegisteredPhones | ortus_app/ortus-backend/controllers/authController.js:42-74 | registering after the duplicate check keeps every phone number unique, the parent's `$push` included |
| Auth.RegisteredStudentListed | ortus_app/ortus-backend/controllers/authController.js:76-82 | the join request a registering student files is among the requests the group's trainer lists |
| Auth.Login | ortus_app/ortus-backend/controllers/authController.js:95-113 | succeeds if and only if some user has the phone number and the password matches, returning that user; otherwise 401 |
| Users.CheckCreate | ortus_app/ortus-backend/controllers/userController.js:18-47 | 403 for a non-director, 400 for a taken phone number or IIN; succeeds if and only if a director asks, neither is taken and the new account passes the schema; a created account is the form's account with the roles as a list |
| Users.InsertKeepsPhonesUnique | ortus_app/ortus-backend/models/User.js:5 | inserting an account whose phone number nobody has keeps phone numbers unique |
| Users.CreateUserByDirector | ortus_app/ortus-backend/controllers/userController.js:16-56 | answers the checks; on success stores exactly the new account and answers it without the password; phone numbers stay unique |
| Users.UpdatedProfile | ortus_app/ortus-backend/controllers/userController.js:63-64 | only `weight` (when truthy) and, for a student, `groupId` (when truthy) change; phone, roles, children and parent stay |
| Users.UpdateProfile | ortus_app/ortus-backend/controllers/userController.js:58-71 | a missing caller record gives 500 and changes nothing; otherwise exactly the caller's record becomes the updated profile |
| Users.ChildAdded | ortus_app/ortus-backend/controllers/userController.js:86-92 | no user is added or removed, the child's parent becomes the caller, and the caller's children include the child |
| Users.AddChild | ortus_app/ortus-backend/controllers/userController.js:73-98 | 403 for a non-parent, 404 for a missing child or one who is not a student, success otherwise with exactly the two updates; phone numbers stay unique |
| Users.ChildAddedPhones | ortus_app/ortus-backend/controllers/userController.js:86-92 | linking a child keeps phone numbers unique |
| Users.AddChildIdempotent | ortus_app/ortus-backend/controllers/userController.js:86-88 | `$addToSet` makes a second link of the same child change nothing |
| Users.PublicView | ortus_app/ortus-backend/controllers/userController.js:49-52 | the answer to a director's create carries the account's phone, name and roles and has no password field |
| Carts.FindLine | ortus_app/ortus-backend/controllers/cartController.js:41-43 | the index found is the first line with that product and size, and -1 if and only if no line has them |
| Carts.AddLineEffect | ortus_app/ortus-backend/controllers/cartController.js:41-49 | merging or pushing keeps one line per product and size, raises that key's quantity by exactly the amount added and leaves every other key's quantity |
| Carts.RemoveLines | ortus_app/ortus-backend/controllers/cartController.js:108-110 | the filter leaves no line of that key and keeps only lines that were there |
| Carts.RemoveLinesAppend | ortus_app/ortus-backend/controllers/cartController.js:108-110 | the filter distributes over concatenation |
| Carts.RemoveLinesIdempotent | ortus_app/ortus-backend/controllers/cartController.js:108-110 | a list without the key is left as it is, so filtering twice is filtering once |
| Carts.DropIsRemove | ortus_app/ortus-backend/controllers/cartController.js:78-79 | with one line per key, splicing out the found line gives the same list as filtering the key out |
| Carts.RemoveLinesValid | ortus_app/ortus-backend/models/Cart.js:1-30 | filtering keeps a valid cart valid |
| Carts.FindSize | ortus_app/ortus-backend/controllers/cartController.js:31 | the stock entry found has the size asked for, and none is found if and only if no entry has it |
| Carts.CheckAdd | ortus_app/ortus-backend/controllers/cartController.js:26-34 | adding is allowed if and only if the product exists, is active and has that size with at least the requested stock; 404 exactly for a missing or inactive product |
| Carts.AddLineValid | ortus_app/ortus-backend/models/Cart.js:1-30 | the merged cart passes validation if and only if the merged line's quantity is at least 1 |
| Carts.StockCheckIgnoresCart | ortus_app/ortus-backend/controllers/cartController.js:31-49 | the stock check ignores what the cart already holds: adding the whole stock again passes and leaves twice the stock in the cart |
| Carts.GetCart | ortus_app/ortus-backend/controllers/cartController.js:5-19 | answers the caller's cart, stored empty when there was none |
| Carts.AddToCart | ortus_app/ortus-backend/controllers/cartController.js:22-58 | a failed check changes nothing; a merge that fails validation is 500 but leaves the created cart; otherwise the cart becomes the merged list |
| Carts.UpdateOutcome | ortus_app/ortus-backend/controllers/cartController.js:65-87 | 404 without a cart or without the line; a quantity of zero or less drops the line; a positive quantity is 500 for a missing product or size, and otherwise succeeds if and only if the stock covers it, else 400 |
| Carts.UpdateEffect | ortus_app/ortus-backend/controllers/cartController.js:78-87 | a quantity of 0 or less removes the line; a positive one becomes that line's exact quantity; no other key's quantity changes; the cart stays valid |
| Carts.RemoveKeepsOthers | ortus_app/ortus-backend/controllers/cartController.js:108-110 | filtering one key out leaves every other key's quantity |
| Carts.UpdateCartItem | ortus_app/ortus-backend/controllers/cartController.js:61-96 | answers the update's outcome and stores the new list exactly on success |
| Carts.RemoveFromCart | ortus_app/ortus-backend/controllers/cartController.js:99-119 | 404 without a cart; otherwise the cart becomes the filtered list, even when nothing matched |
| Carts.ClearCart | ortus_app/ortus-backend/controllers/cartController.js:122-136 | 404 without a cart; otherwise the cart is emptied |
| Delivery.SummaryLines | ortus_app/ortus-backend/controllers/deliveryRequestController.js:26-27 | one `name xquantity` line per item, in item order |
| Delivery.SummaryAppend | ortus_app/ortus-backend/controllers/deliveryRequestController.js:26-28 | the summary of no items is empty, of one item its line, and each further item appends ", " and its line |
| Delivery.CheckCreate | ortus_app/ortus-backend/controllers/deliveryRequestController.js:8-39 | 400 without an order id, 404 for a missing order, 403 for another user's order, 400 for an order already requested, 500 when the order's owner is gone; succeeds if and only if the caller's own unrequested order is named and the caller has a name and phone number; the request created is `new`, has the fixed pickup address and method, the caller's name and phone, and the order's summary |
| Delivery.CreateDeliveryRequest | ortus_app/ortus-backend/controllers/deliveryRequestController.js:5-51 | a failed check stores nothing; otherwise the request is stored, and the reply is 500 exactly when the order was `new` (its "ready" status fails the order schema) and the request otherwise; one request per order holds |
| Delivery.SecondRequestRejected | ortus_app/ortus-backend/controllers/deliveryRequestController.js:21-24 | once a request is stored for an order, a second one for it is refused with 400 |
| Delivery.GetAllRequests | ortus_app/ortus-backend/controllers/deliveryRequestController.js:53-68 | admins get every request and no one else gets any |
| Delivery.UpdateStatusOutcome | ortus_app/ortus-backend/controllers/deliveryRequestController.js:70-90 | 403 for a non-admin, 500 for a status outside the enum; otherwise success if and only if the request exists, changing only its status, and not even that when the status is omitted |
| Delivery.UpdateRequestStatus | ortus_app/ortus-backend/controllers/deliveryRequestController.js:70-90 | answers the outcome and stores the updated request exactly on success |
| Groups.CheckCreate | ortus_app/ortus-backend/controllers/groupController.js:5-20 | a group is created if and only if the caller's `userType` is the bare string "trainer" and the name is given and not taken; the group has that name, the caller as trainer and no students |
| Groups.ArrayTrainerRefused | ortus_app/ortus-backend/controllers/groupController.js:9 | a trainer whose roles are stored as an array, the form registration writes, is refused with 403 |
| Groups.CreateGroup | ortus_app/ortus-backend/controllers/groupController.js:5-20 | answers the checks and stores the group exactly on success; group names stay unique |
| Groups.GetJoinRequests | ortus_app/ortus-backend/controllers/groupController.js:31-47 | exactly the pending requests for groups the caller trains |
| Groups.HandleJoinRequest | ortus_app/ortus-backend/controllers/groupController.js:49-75 | 404 for a missing request; any action but "approve" rejects it and changes nothing else; "approve" approves it, sets the student's group and pushes the student onto the group's list |
| Groups.JoinedUserPhones | ortus_app/ortus-backend/controllers/groupController.js:60-62 | moving a student to a group keeps phone numbers unique |
| Groups.ApproveTwiceDuplicates | ortus_app/ortus-backend/controllers/groupController.js:58-65 | approving the same request twice puts the student into the group's list twice, while the student's own group update is idempotent |
| NewsFeed.ParseNewsType | ortus_app/ortus-backend/models/News.js:1-40 | a type is known if and only if it is "group" or "general", and it reads back as its own name |
| NewsFeed.NormalizeTargets | ortus_app/ortus-backend/controllers/newsController.js:56-63 | general news has no targets; otherwise an array is kept, a single id is wrapped and a falsy value gives none |
| NewsFeed.CheckCreate | ortus_app/ortus-backend/controllers/newsController.js:13-80 | 403 for a caller with none of the four roles and for a type the caller may not post; 400 for group news without targets; succeeds if and only if the role, type, target, title, content and category rules all hold; a created item is valid, has the resolved type, the given title and content, the caller as author, is active, and is either targeted group news by a trainer, admin or director or untargeted general news by a manager, admin or director, with the defaults for category, images and pin |
| NewsFeed.DefaultTypePermitted | ortus_app/ortus-backend/controllers/newsController.js:29-54 | leaving the type out never costs a permitted author the permission check: a trainer gets group news, anyone else general news |
| NewsFeed.CreateNews | ortus_app/ortus-backend/controllers/newsController.js:11-89 | answers the checks and stores the item exactly on success |
| NewsFeed.GetAllNews | ortus_app/ortus-backend/controllers/newsController.js:92-122 | an active item is listed if and only if it has the requested category, is general for type "general", is group news for type "group", and as group news targets the requested group; inactive items never are |
| NewsFeed.GetNewsById | ortus_app/ortus-backend/controllers/newsController.js:125-139 | the item is answered if and only if it exists and is active, and 404 otherwise |
| NewsFeed.Patched | ortus_app/ortus-backend/controllers/newsController.js:181-201 | title, content, category, images and pin take the given value or keep the old one; the author and the active flag stay; a new "general" type clears the targets; omitted targets are kept; given targets are normalised against the type after the update |
| NewsFeed.UpdateOutcome | ortus_app/ortus-backend/controllers/newsController.js:150-203 | 403 unless author, admin or director; only an admin or director changes the type; a "general" or "group" type needs the posting rights of that kind; succeeds if and only if these hold, the type parses and the patched item is valid, and then returns exactly the patched item |
| NewsFeed.GeneralStaysUntargeted | ortus_app/ortus-backend/controllers/newsController.js:56-63 | general news has no targets after creation and after every update |
| NewsFeed.UpdateMayLeaveGroupUntargeted | ortus_app/ortus-backend/controllers/newsController.js:185-200 | unlike creation, an update can produce group news with no targets: an admin retyping general news as "group" without naming groups |
| NewsFeed.EmptyPatchKeeps | ortus_app/ortus-backend/controllers/newsController.js:181-201 | an update naming nothing saves the item unchanged |
| NewsFeed.UpdateNews | ortus_app/ortus-backend/controllers/newsController.js:142-211 | 404 for a missing item, otherwise the update's outcome, stored exactly on success |
| NewsFeed.DeleteNews | ortus_app/ortus-backend/controllers/newsController.js:214-236 | 404 for a missing item; succeeds if and only if the caller is the author, an admin or a director, and then only marks the item inactive |
| NewsFeed.DeletedHidden | ortus_app/ortus-backend/controllers/newsController.js:92-139 | a deleted item disappears from every listing and from the lookup, and every other item keeps its place |
| NewsFeed.Toggled | ortus_app/ortus-backend/controllers/newsController.js:254 | the pin flips |
| NewsFeed.TogglePinNews | ortus_app/ortus-backend/controllers/newsController.js:239-263 | 403 for anyone but an admin or director, checked before the lookup; 404 for a missing item; otherwise only the pin of that item flips |
| NewsFeed.ToggleTwiceRestores | ortus_app/ortus-backend/controllers/newsController.js:254 | a toggle touches nothing but the pin, and toggling twice restores the collection |
| Orders.EntryIndex | ortus_app/ortus-backend/controllers/orderController.js:26 | the `label` lookup never finds an entry; the `size` lookup finds only an entry of that size |
| Orders.StepLine | ortus_app/ortus-backend/controllers/orderController.js:24-47 | a line is skipped if and only if its product is gone; a taken line yields an item with the line's product, size and quantity |
| Orders.TakeEffect | ortus_app/ortus-backend/controllers/orderController.js:26-47 | a taken line had enough stock, lowers exactly its own stock entry by its quantity, touches no other product, and snapshots the product's name, first image and price |
| Orders.Place | ortus_app/ortus-backend/controllers/orderController.js:20-48 | the total is the sum of price times quantity over the items, there are at most as many items as lines, and no product is added or removed |
| Orders.PlacedItems | ortus_app/ortus-backend/controllers/orderController.js:23-48 | when no line is rejected, every line whose product exists has an item with its product, size and quantity |
| Orders.LabelLookupRejects | ortus_app/ortus-backend/controllers/orderController.js:26-31 | as written, any line whose product still exists ends the request with 400, and a cart whose products are all gone is placed as an empty order |
| Orders.InStockCartPlaced | ortus_app/ortus-backend/controllers/orderController.js:23-48 | with the `size` lookup, a cart of unique lines that are each in stock is placed without rejection |
| Orders.PlaceStep | ortus_app/ortus-backend/controllers/orderController.js:23-48 | one pass of the loop: a skipped line changes nothing, a rejected one ends the placement, a taken one extends the items and the total |
| Orders.PlaceLines | ortus_app/ortus-backend/controllers/orderController.js:20-48 | the loop saves the products, items, total and rejection exactly as `Place` describes them |
| Orders.CreateOrder | ortus_app/ortus-backend/controllers/orderController.js:5-66 | 403 for any role but client, 400 for an empty cart; otherwise the stock moves as `Place` says even when a later line is rejected (400); an empty client name or phone gives 500; a placed order holds the items and total, and the cart is emptied |
| Orders.GetMyOrders | ortus_app/ortus-backend/controllers/orderController.js:68-81 | clients only, and exactly the caller's orders |
| Orders.GetAllOrders | ortus_app/ortus-backend/controllers/orderController.js:83-98 | managers only; every order without a status filter, exactly the orders of that status with one |
| Orders.UpdateStatusOutcome | ortus_app/ortus-backend/controllers/orderController.js:100-133 | 403 for any role but manager, 400 for a status outside the six, then success if and only if the order exists; the status changes only when given, the note whenever defined, and items, total and owner stay |
| Orders.UpdateOrderStatus | ortus_app/ortus-backend/controllers/orderController.js:100-133 | answers the outcome and stores the updated order exactly on success |
| Payments.CheckCreate | ortus_app/ortus-backend/controllers/paymentController.js:8-47 | 403 for anyone but an admin or trainer, 404 for a missing user or one who is not a student; succeeds if and only if the caller may, the student exists with a group, amount, month and year are given, the month is in 1..12 and the period is not paid for; a stored payment is the unpaid manual payment of that student; a 400 for valid fields means the student has no group or the period is taken |
| Payments.CreatePayment | ortus_app/ortus-backend/controllers/paymentController.js:6-48 | answers the checks and stores the payment exactly on success; one payment per student, month and year holds |
| Payments.SecondPaymentRejected | ortus_app/ortus-backend/controllers/paymentController.js:41-45 | a second payment for the same student, month and year is refused with 400, whoever asks and whatever the amount |
| Payments.GetStudentPayments | ortus_app/ortus-backend/controllers/paymentController.js:51-79 | 404 for a missing student; succeeds if and only if the caller is the student, the parent or an admin, returning exactly the student's payments |
| Payments.GetGroupPayments | ortus_app/ortus-backend/controllers/paymentController.js:82-107 | 404 for a missing group; succeeds if and only if the caller trains it or is an admin, returning exactly the group's payments |
| Payments.GetUnpaidPayments | ortus_app/ortus-backend/controllers/paymentController.js:110-140 | admins and trainers only; an admin gets every unpaid payment, a trainer who is not an admin exactly the unpaid payments of the groups they train |
| Payments.MarkAsPaid | ortus_app/ortus-backend/controllers/paymentController.js:143-174 | 403 for anyone but an admin or trainer, 404 for a missing payment; otherwise only that payment becomes paid at `now` with the given method or "manual" |
| Payments.PaidLeavesUnpaid | ortus_app/ortus-backend/controllers/paymentController.js:154-162 | a paid payment keeps its student, group, amount and period and leaves every unpaid listing; every other payment keeps its place there |
| PhotoReports.ParsePhotoType | ortus_app/ortus-backend/controllers/photoReportController.js:7-20 | only the three allowed type names are accepted, each as the type it names |
| PhotoReports.ParseTypeName | ortus_app/ortus-backend/controllers/photoReportController.js:7 | every report type's name parses back to that type |
| PhotoReports.SelectPhotos | ortus_app/ortus-backend/controllers/photoReportController.js:22-28 | uploaded files win when there are any; otherwise the body's photos, a single value becoming a one-element list |
| PhotoReports.CanManageReports | ortus_app/ortus-backend/controllers/photoReportController.js:9-12 | throws exactly when the role field is a bare string; otherwise true if and only if admin, director or manager is among the roles |
| PhotoReports.CheckCreate | ortus_app/ortus-backend/controllers/photoReportController.js:18-127 | 400 for an unknown type or no photo; 403 unless a trainer files a training photo or tech staff a cleaning photo (admins and directors file either); 400 without relatedId; 404 for a missing schedule or cleaning report; 400 for a schedule without its group; 403 for another trainer's schedule or another staff member's cleaning report; succeeds if and only if all of these pass and no photo path is empty |
| PhotoReports.CreatePhotoReport | ortus_app/ortus-backend/controllers/photoReportController.js:14-169 | fails with the check's code and changes nothing, or stores the report and, for a training photo, upserts that day's session of the schedule with the photo in the slot of its type; nothing else changes |
| PhotoReports.FiledPhotoCounts | ortus_app/ortus-backend/controllers/photoReportController.js:140-162 | a training photo stored at `now` is found by the day-range photo lookup for its schedule and type on the same day |
| PhotoReports.GetPhotoReports | ortus_app/ortus-backend/controllers/photoReportController.js:171-209 | 500 for a bare-string role; 403 exactly for a caller who cannot manage reports and is neither trainer nor tech staff; otherwise a report is listed if and only if it passes the type and date filters, is by `userId` when one is given, and is the caller's own when a non-manager gives none |
| PhotoReports.OwnReportsListed | ortus_app/ortus-backend/controllers/photoReportController.js:194-199 | every report of the caller within the date filters is listed when no type or user filter is given |
| PhotoReports.TrainerReadsOthersByUserId | ortus_app/ortus-backend/controllers/photoReportController.js:187-199 | a trainer naming another author in `userId` is shown that author's reports, although `getPhotoReportById` refuses each of them with 403 |
| PhotoReports.GetPhotoReportById | ortus_app/ortus-backend/controllers/photoReportController.js:211-234 | 404 for a missing report; the report is returned if and only if its author still exists and the caller is the author or can manage reports |
| Products.ListProducts | ortus_app/ortus-backend/controllers/productController.js:4-15 | lists only active products; an active product is listed if and only if no category is given or it has the given category |
| Products.GetProductById | ortus_app/ortus-backend/controllers/productController.js:18-28 | any stored product, active or not, is returned; a missing one is a 404 |
| Products.NewProduct | ortus_app/ortus-backend/controllers/productController.js:31-62 | 403 unless admin or director; the product is created if and only if name and description are non-empty, the category is in the enum and the price parses, with no sizes, active and with the uploaded images; otherwise 500 |
| Products.CreateProduct | ortus_app/ortus-backend/controllers/productController.js:31-62 | answers as above and stores the product exactly when it is created |
| Products.UpdateOutcome | ortus_app/ortus-backend/controllers/productController.js:65-86 | 403 unless admin; a body the validators refuse is a 500 even for a missing product; otherwise the stored product with every named field replaced, or 404 |
| Products.EmptyPatchKeeps | ortus_app/ortus-backend/controllers/productController.js:73-76 | an empty update body leaves the product as it was |
| Products.UpdateProduct | ortus_app/ortus-backend/controllers/productController.js:65-86 | stores the updated product under its id on success and changes nothing otherwise |
| Products.DeleteProduct | ortus_app/ortus-backend/controllers/productController.js:89-111 | 403 unless admin, 404 for a missing product; otherwise only that product becomes inactive |
| Products.DeletedHidden | ortus_app/ortus-backend/controllers/productController.js:97-101 | a deleted product leaves every listing and is refused by the cart with 404, can still be fetched by id, and no other product's listing changes |
| Products.UpdateStock | ortus_app/ortus-backend/controllers/productController.js:114-139 | 403 unless admin, 404 for a missing product or size, 500 for a stock that is not a number; otherwise the first entry of that size holds the new stock and nothing else changes |
| Products.StockSetReadBack | ortus_app/ortus-backend/controllers/productController.js:127-133 | after a stock update the size reads back the new stock, every other size reads what it read before, and the cart accepts that size exactly up to the new stock |
| ReportTiming.SlotStartIgnoresEnd | ortus_app/ortus-backend/utils/reportTiming.js:9-10 | only the text before the first "-" of a slot decides its start |
| ReportTiming.SlotStartOfParts | ortus_app/ortus-backend/utils/reportTiming.js:9-13 | a start written hour, ":", minute reads those two numbers as the hour and the minute |
| ReportTiming.SlotStartOfDigits | ortus_app/ortus-backend/utils/reportTiming.js:9-13 | a slot written `HH:MM-…` starts at hour `HH` and minute `MM` |
| ReportTiming.ListedSlotStart | ortus_app/ortus-backend/utils/reportTiming.js:1-8 | each of the five listed slots starts on the hour 8, 10, 16, 18 or 20 |
| ReportTiming.WindowOfSlot | ortus_app/ortus-backend/utils/reportTiming.js:15-24 | for a valid start time the start instant is that time on the training date's own day, and the window opens 60 and closes 30 minutes before it |
| ReportTiming.Classification | ortus_app/ortus-backend/utils/reportTiming.js:26-34 | submission is allowed from the window's start, late strictly after its end, a late submission is still allowed, and inside the window it is on time |
| ReportTiming.NoUpperBound | ortus_app/ortus-backend/utils/reportTiming.js:26-34 | once late, every later instant is late and still allowed |
| ReportTiming.UnparsableSlot | ortus_app/ortus-backend/utils/reportTiming.js:15-34 | a slot whose start does not parse is never allowed and never late |
| ReportTiming.EightOClockSlot | ortus_app/ortus-backend/test/reportTiming.test.js:10-45 | for the 08:00 slot the window runs 07:00 to 07:30; 06:59 is refused and not late, 07:15 allowed and on time, 07:31 allowed and late |
| TrainerReports.AllowedResourceTypes | ortus_app/ortus-backend/controllers/reportController.js:85-87 | among the allowed MIME types exactly JPEG and PNG upload as images, PDF and Word documents as raw files |
| TrainerReports.Attachments | ortus_app/ortus-backend/controllers/reportController.js:80-99 | refuses the files if and only if one has a MIME type outside the allowed set; otherwise one attachment per file, in order, carrying its type, name, URL and public id |
| TrainerReports.CollectAttachments | ortus_app/ortus-backend/controllers/reportController.js:80-99 | the upload loop stops at the first refused file and otherwise yields exactly the attachments above |
| TrainerReports.CheckCreate | ortus_app/ortus-backend/controllers/reportController.js:43-108 | 403 unless the role is trainer, otherwise any refusal is a 400; a report is made if and only if date and slot are given, the slot is listed, the date parses, there are one to four allowed files and the window has opened; it belongs to the caller, keeps the date, slot and comment (or ""), and is late exactly when the timing rule says so |
| TrainerReports.ListedWindow | ortus_app/ortus-backend/controllers/reportController.js:11-34 | every listed slot has a window, and it closes 30 minutes after it opens |
| TrainerReports.CreateReport | ortus_app/ortus-backend/controllers/reportController.js:41-114 | answers the checks and stores the report exactly when it is made |
| TrainerReports.LateOnlyAfterHalfHour | ortus_app/ortus-backend/controllers/reportController.js:72-107 | an accepted report was sent after the window opened, is late if and only if sent more than 30 minutes after that, and a late report would still be accepted a moment later |
| TrainerReports.GetMyReports | ortus_app/ortus-backend/controllers/reportController.js:116-129 | trainers only; exactly the caller's reports |
| TrainerReports.DeleteReport | ortus_app/ortus-backend/controllers/reportController.js:131-151 | 403 unless a trainer, 404 for a missing report, 403 for someone else's; removes exactly that report if and only if it is the caller's |
| TrainerReports.LateFilter | ortus_app/ortus-backend/controllers/reportController.js:170-172 | only the strings "true" and "false" filter on lateness, meaning late and on time |
| TrainerReports.GetReports | ortus_app/ortus-backend/controllers/reportController.js:153-181 | managers and directors only, by the single role field; a report is listed if and only if it passes the date bounds, the trainer filter and the "true"/"false" lateness filter |
| TrainerReports.LateFilterSplits | ortus_app/ortus-backend/controllers/reportController.js:170-172 | the late and on-time listings are disjoint and together make the unfiltered one; any other lateness value does not filter |
| TrainerReports.AttachmentOf | ortus_app/ortus-backend/controllers/reportController.js:85-98 | an attachment keeps the file's MIME type, original name, URL and public id, and is an image if and only if its type starts with "image/" |
| Schedules.CheckCreate | ortus_app/ortus-backend/controllers/scheduleController.js:6-25 | 404 for a missing group, 403 for anyone but its trainer; for the trainer the schedule is created if and only if the weekday is 0..6 and both times are given, with the given location or the default hall |
| Schedules.CreateSchedule | ortus_app/ortus-backend/controllers/scheduleController.js:4-31 | answers the checks and stores the schedule exactly when it is created |
| Schedules.DeleteSchedule | ortus_app/ortus-backend/controllers/scheduleController.js:57-74 | 404 for a missing schedule, 500 when its group is gone, 403 for anyone but the group's trainer; removes exactly that schedule if and only if the caller trains its group |
| Schedules.StrLeTotal | ortus_app/ortus-backend/controllers/scheduleController.js:36-39 | the string order the sort uses is total |
| Schedules.Insert | ortus_app/ortus-backend/controllers/scheduleController.js:36-39 | inserting an id adds exactly that id to the list |
| Schedules.InsertSorted | ortus_app/ortus-backend/controllers/scheduleController.js:36-39 | inserting into a list in weekday-then-start-time order keeps it in that order |
| Schedules.SortByKey | ortus_app/ortus-backend/controllers/scheduleController.js:36-39 | sorting is a permutation of the ids it is given |
| Schedules.SortByKeySorted | ortus_app/ortus-backend/controllers/scheduleController.js:36-39 | the sorted ids are in weekday-then-start-time order |
| Schedules.OfGroup | ortus_app/ortus-backend/controllers/scheduleController.js:36 | keeps exactly the stored schedules of the group, none more often than stored |
| Schedules.GetScheduleByGroup | ortus_app/ortus-backend/controllers/scheduleController.js:33-44 | lists only the group's schedules, a permutation of the group's stored ones, in weekday-then-start-time order |
| Schedules.GroupListingComplete | ortus_app/ortus-backend/controllers/scheduleController.js:33-44 | every schedule of the group is listed exactly once and no other schedule is listed |
| TrainingSessions.EnsureScheduleAccess | ortus_app/ortus-backend/controllers/trainingSessionController.js:11-35 | grants only a stored schedule, and refuses with 404 or 403 only |
| TrainingSessions.AccessRule | ortus_app/ortus-backend/controllers/trainingSessionController.js:11-35 | 404 exactly for a missing schedule; otherwise access if and only if the caller trains the group or is an admin or director, so a schedule whose group is gone is open to admins and directors only |
| TrainingSessions.LatestInSet | ortus_app/ortus-backend/controllers/trainingSessionController.js:61-65 | every non-empty set of photos has one created last |
| TrainingSessions.LatestPhotoExists | ortus_app/ortus-backend/controllers/trainingSessionController.js:61-65 | when some photo matches the day query, the newest-first query returns one |
| TrainingSessions.CheckStart | ortus_app/ortus-backend/controllers/trainingSessionController.js:39-83 | 403 without trainer privileges, 400 without scheduleId or for an invalid date, the access code of `ensureScheduleAccess`, 400 without a same-day before photo, 400 on a finished session; succeeds if and only if all of these pass (and the group still exists), naming the requested schedule on the normalised day |
| TrainingSessions.StartSession | ortus_app/ortus-backend/controllers/trainingSessionController.js:37-104 | fails with the check's code and changes nothing, or upserts that day's session as started at `now` with the newest same-day before photo; a finished session stays finished |
| TrainingSessions.CheckFinish | ortus_app/ortus-backend/controllers/trainingSessionController.js:108-158 | 403 without trainer privileges, 400 without scheduleId or for an invalid date, the access code, 400 without a session; a finished session is answered as it is; otherwise finish now with a same-day after photo, else 400 |
| TrainingSessions.FinishSession | ortus_app/ortus-backend/controllers/trainingSessionController.js:106-169 | fails with the check's code and changes nothing; an already finished session is answered unchanged; otherwise the session becomes finished at `now` with the newest same-day after photo; a finished session stays finished |
| TrainingSessions.ForbiddenFirst | ortus_app/ortus-backend/controllers/trainingSessionController.js:6-9 | a caller without admin, director or trainer gets 403 from start and finish whatever the input |
| TrainingSessions.StartGate | ortus_app/ortus-backend/controllers/trainingSessionController.js:60-83 | a start succeeds only with a before photo of that schedule taken on the session's day, and never on a finished session |
| TrainingSessions.FinishGate | ortus_app/ortus-backend/controllers/trainingSessionController.js:146-158 | finishing succeeds only with an after photo of that schedule taken on the session's day |
| TrainingSessions.FinishFromNotStarted | ortus_app/ortus-backend/controllers/trainingSessionController.js:129-163 | a not-started session with a same-day after photo finishes directly: nothing requires a start first |
| TrainingSessions.RestartRestamps | ortus_app/ortus-backend/controllers/trainingSessionController.js:85-98 | a repeated start re-stamps the start time and the before photo and keeps what finishing wrote |
| TrainingSessions.PhotoUpsertKeepsStatus | ortus_app/ortus-backend/controllers/photoReportController.js:146-161 | the upsert a training photo triggers never changes a session's status and creates sessions as not started, setting only the photo of its type |
| TrainingSessions.ParseIdList | ortus_app/ortus-backend/controllers/trainingSessionController.js:184-187 | every id of the query is non-empty, free of commas and trimmed |
| TrainingSessions.NonEmptyTrimmed | ortus_app/ortus-backend/controllers/trainingSessionController.js:186-187 | yields no more ids than parts, each one clean |
| TrainingSessions.NonEmptyTrimmedKeeps | ortus_app/ortus-backend/controllers/trainingSessionController.js:186-187 | an id is kept if and only if it is a non-blank part trimmed |
| TrainingSessions.CheckStatusQuery | ortus_app/ortus-backend/controllers/trainingSessionController.js:173-223 | 403 without trainer privileges, 400 without ids or for an invalid date, 404 for an unknown id, 403 for a schedule the caller may not see; succeeds if and only if every parsed id names a schedule the caller may see and none repeats, carrying the parsed ids and the normalised day |
| TrainingSessions.FoundAllIff | ortus_app/ortus-backend/controllers/trainingSessionController.js:200-207 | the number of schedules found equals the number of ids if and only if every id names a schedule and none is repeated |
| TrainingSessions.FoundAllExist | ortus_app/ortus-backend/controllers/trainingSessionController.js:205-207 | when as many schedules are found as ids were given, every id names a schedule |
| TrainingSessions.StatusQueryRepeatedId | ortus_app/ortus-backend/controllers/trainingSessionController.js:205-207 | a repeated id makes the status query answer 404, as a missing one does |
| TrainingSessions.QueryStricterThanAccess | ortus_app/ortus-backend/controllers/trainingSessionController.js:209-219 | for a schedule whose group is gone an admin is refused by the status query though start and finish let them through |
| TrainingSessions.GetSessionStatuses | ortus_app/ortus-backend/controllers/trainingSessionController.js:171-243 | fails with the check's code; otherwise its keys are exactly the parsed ids and each maps to the status of its session on the normalised day, not started when there is none |
| TrainingSessions.FillStatuses | ortus_app/ortus-backend/controllers/trainingSessionController.js:230-237 | the two loops yield exactly that map |
| CleaningReports.FirstInvalidZone | ortus_app/ortus-backend/controllers/cleaningReportController.js:30-32 | none exactly when every zone is allowed; otherwise the first zone outside the allowed list |
| CleaningReports.CheckCreate | ortus_app/ortus-backend/controllers/cleaningReportController.js:8-50 | 403 for anyone but technical staff, admins and directors; 400 for no zone, and for a non-empty invalid zone when no empty name comes first; accepted if and only if there is at least one zone, every zone is allowed and there are photos with non-empty paths, keeping the zones as given |
| CleaningReports.EmptyZoneEscapesCheck | ortus_app/ortus-backend/controllers/cleaningReportController.js:30-35 | an empty zone name ahead of an invalid one hides it: the zones "" and "roof" get 500, not 400 |
| CleaningReports.CreateCleaningReport | ortus_app/ortus-backend/controllers/cleaningReportController.js:6-67 | fails with the check's code and changes nothing, or stores the report (date defaulting to now, comment to "") and a cleaning photo report pointing at it with the same photos |
| CleaningReports.CompanionAcceptedByPhotoReports | ortus_app/ortus-backend/controllers/cleaningReportController.js:52-59 | the companion photo report is exactly the one the photo-report handler would accept from the same caller for the new cleaning report |
| CleaningReports.GetCleaningReports | ortus_app/ortus-backend/controllers/cleaningReportController.js:69-106 | technical staff, admins, directors and managers only; staff who are nothing more see exactly their own reports in the date range, the others exactly the reports in the range of the given member of staff, or all |
| CleaningReports.StaffIdIgnoredForOwnOnly | ortus_app/ortus-backend/controllers/cleaningReportController.js:92-96 | a member of staff cannot widen their own listing with a staff filter |
| CleaningReports.CreatedReportListed | ortus_app/ortus-backend/controllers/cleaningReportController.js:44-96 | a report a member of staff has just filed appears in their own listing over any date range holding its date |
| DateUtils.NormalizeDate | ortus_app/ortus-backend/utils/dateUtils.js:1-8 | null exactly for an unparsable input; otherwise the midnight of the day holding the input, or holding now for a falsy input |
| DateUtils.GetDayRange | ortus_app/ortus-backend/utils/dateUtils.js:10-19 | both bounds null together; otherwise from the normalised midnight to the last millisecond of that day |
| DateUtils.NormalizeIdempotent | ortus_app/ortus-backend/utils/dateUtils.js:1-8 | normalising an already normalised date changes nothing |
| DateUtils.NormalizeNotLater | ortus_app/ortus-backend/utils/dateUtils.js:6 | the normalised date never lies after the instant it came from |
| DateUtils.InRangeIffSameDay | ortus_app/ortus-backend/utils/dateUtils.js:10-19 | an instant lies in the day range of a date if and only if it is on the same day |
| DateUtils.SameDaySameRange | ortus_app/ortus-backend/utils/dateUtils.js:10-19 | two instants of the same day have the same day range |
| Time.StartOfDayBounds | ortus_app/ortus-backend/utils/dateUtils.js:6 | truncating to the day gives a midnight no later than the instant, less than a day before it |
| Time.SetHoursSameDay | ortus_app/ortus-backend/utils/reportTiming.js:17-18 | setting a time of day inside the day stays on the same day, that far past its midnight |
| Entities.SizeIndex | ortus_app/ortus-backend/controllers/productController.js:127 | the index of the first entry of that size, or -1 exactly when no entry has it |
| Entities.SizeIndexSameNames | ortus_app/ortus-backend/controllers/productController.js:127-132 | changing entries without changing their size names leaves every size's index unchanged |
| Common.AddToSet | ortus_app/ortus-backend/controllers/userController.js:86-88 | the element is present afterwards, nothing else is added, and a present element leaves the list unchanged |
| Text.Split | ortus_app/ortus-backend/utils/reportTiming.js:10-11 | at least one part, none containing the separator, and the whole string when it has no separator |
| Text.SplitJoin | ortus_app/ortus-backend/utils/reportTiming.js:10-11 | joining the parts with the separator gives back the string |
| Text.Trim | ortus_app/ortus-backend/controllers/trainingSessionController.js:186 | the input with only whitespace removed at both ends: an infix of it, preceded and followed only by whitespace, with no blank at either end, and empty exactly for a blank input |
| Text.IntStringParses | ortus_app/ortus-backend/controllers/deliveryRequestController.js:27 | a printed integer reads back unchanged |

## Left out

- **Analytics and export:** `controllers/analyticsController.js` and `controllers/exportController.js`. They are MongoDB aggregation pipelines, floating-point rates, and CSV produced by a library.
- **Server and routes:** `server.js` and `routes/*.js`. They are Express wiring, upload limits and storage configuration.
- **Uploads:** `utils/cloudinaryUpload.js` and the uploads in `controllers/reportController.js:88-91`. The URL and public id the upload service answers enter as parameters. Files uploaded before a later file is refused stay uploaded, which is not modelled.
- **Scripts and seeding:** `scripts/createDirector.js`, `scripts/dropIinIndex.js` and `utils/seed.js`. They are console input and direct database administration.
- **Passwords and tokens:** password hashing and token generation are not part of this model. `Auth.Login` takes the hash comparison as the parameter `matches` and answers the user rather than a token, and registration stores the password as given.
- **Concurrency:** every handler is one atomic step. The race between a photo check and a session upsert, and retries after duplicate keys, are not modelled.
- **Time zones and daylight saving:** days are fixed 86,400,000 ms days, with midnight at multiples of that length.
- **Malformed input:** malformed ObjectIds (Mongoose's CastError, a 500) and unparsable date strings in query filters are not modelled. Dates and numbers arrive already parsed; where the source branches on an unparsable date or number, that case is an `Option`.
- **Query and response shapes:** `populate` projections, JSON response shapes and sort orders are not modelled, except the ordering of `getScheduleByGroup`. Listings are sets of ids.
- **Numbers:** prices, amounts and quantities are integers. `parseFloat` yielding `NaN` is `None`. A quantity sent as a string, which JavaScript would concatenate, is not modelled.
- **Handlers without branching logic:** `getAllGroups`, `getAllSchedules` and `getProfile` are unfiltered reads with `populate`.
- **`getPaymentStats`:** an aggregation. Note that `paymentController.js` requires `models/Payment` while the schema file is `models/Payments.js`; the model assumes the module resolves.
- **Attendance rate:** the `attendanceRate` of the attendance statistics is a float formatted with `toFixed`. `AttendanceRules.GetStudentAttendanceStats` and `AttendanceRules.GetGroupAttendanceStats` return the counts only.
- **Defaults on read:** a record stored without a status reads back as `absent` once Mongoose loads it and applies the schema default. The model keeps the stored document, which is what `countDocuments` sees.
- **Storage order:** `AttendanceRules.GetGroupAttendanceByDate`, `NewsFeed.GetAllNews`, `PhotoReports.GetPhotoReports`, `TrainerReports.GetReports` and the other listings do not state the order of their answer.

## Findings

| source | as written | input that shows it | evidently intended | confidence | as-written member | corrected member |
|---|---|---|---|---|---|---|
| ortus_app/ortus-backend/controllers/orderController.js:26 | the stock entry is looked up with `s.label === item.size`, but a size entry's field is `size` (`models/Product.js:15`), so no entry is ever found and every order with an existing product is refused with 400 | a client's cart with one line for an active product whose `sizes` holds `{ size: "M", stock: 5 }`, quantity 1 | look the entry up by `size`, so that a cart whose lines are all in stock is placed | high (not executed) | Orders.LabelLookupRejects | Orders.InStockCartPlaced |

`Orders.CreateOrder` and `Orders.PlaceLines` take the lookup as a parameter. `ByLabel` gives the behaviour as written, `BySize` the corrected one, and `Orders.InStockCartPlaced` is proved about `BySize`.
