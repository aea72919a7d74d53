/** The database the controllers share: one map per collection, keyed by
    document id, except training sessions (keyed by their unique
    (schedule, day) index) and carts (one per user, keyed by the user id).
    Handlers are methods that change some of these fields in place. */
module Store {
  import opened Common
  import opened Entities

  class Db {
    var users: map<Id, User>
    var groups: map<Id, Group>
    var joinRequests: map<Id, JoinRequest>
    var schedules: map<Id, Schedule>
    var sessions: map<SessionKey, TrainingSession>
    var photoReports: map<Id, PhotoReport>
    var attendance: map<Id, Attendance>
    var carts: map<Id, seq<CartItem>>
    var products: map<Id, Product>
    var orders: map<Id, Order>
    var deliveryRequests: map<Id, DeliveryRequest>
    var payments: map<Id, Payment>
    var news: map<Id, News>
    var cleaningReports: map<Id, CleaningReport>
    var reports: map<Id, Report>

    /** The unique indexes of the schemas hold and every cart is valid. */
    predicate Valid()
      reads this
    {
      && PhonesUnique(users)
      && GroupNamesUnique(groups)
      && AttendanceUnique(attendance)
      && PaymentsUnique(payments)
      && OneRequestPerOrder(deliveryRequests)
      && CartsValid(carts)
    }

    /** An empty database. */
    constructor ()
      ensures Valid()
      ensures users == map[] && groups == map[] && joinRequests == map[] && schedules == map[]
      ensures sessions == map[] && photoReports == map[] && attendance == map[] && carts == map[]
      ensures products == map[] && orders == map[] && deliveryRequests == map[] && payments == map[]
      ensures news == map[] && cleaningReports == map[] && reports == map[]
    {
      users, groups, joinRequests, schedules := map[], map[], map[], map[];
      sessions, photoReports, attendance, carts := map[], map[], map[], map[];
      products, orders, deliveryRequests, payments := map[], map[], map[], map[];
      news, cleaningReports, reports := map[], map[], map[];
    }
  }
}
