/** The datastore: one sequence per collection, in insertion order, and the
    source of fresh document ids. */
module Store {
  import opened Common
  import opened Models

  class Database {
    var events: seq<Event>
    var orders: seq<Order>
    var promos: seq<Promo>
    var usages: seq<Usage>
    var payments: seq<Payment>
    var tasks: seq<Task>
    var users: seq<User>
    var companies: seq<Company>
    var nextId: Id

    constructor ()
      ensures events == [] && orders == [] && promos == [] && usages == []
      ensures payments == [] && tasks == [] && users == [] && companies == []
      ensures nextId == 0
    {
      events, orders, promos, usages := [], [], [], [];
      payments, tasks, users, companies := [], [], [], [];
      nextId := 0;
    }

    /** A new ObjectId, distinct from every id handed out before. */
    method FreshId() returns (id: Id)
      modifies this`nextId
      ensures id == old(nextId) && nextId == old(nextId) + 1
    {
      id := nextId;
      nextId := nextId + 1;
    }
  }
}
