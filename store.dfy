/** The database as an in-memory store: the `users`, `orders` and
    `cylinders` tables as maps from id to row, the two log tables as
    sequences in commit order, and the queries the services issue against
    them. `func.now()` is a logical clock that advances at every commit that
    stamps a row, so log entries are totally ordered by `created_at`. */
module Store {
  import opened Common
  import opened Seqs
  import opened UserModel
  import opened CylinderModel
  import opened OrderModel

  // ---------------------------------------------------------------- cylinders

  /** A cylinder a vendor can hand out: its own, filled and not assigned
      (`is_assigned == False`, which a `NULL` flag does not satisfy). */
  predicate Available(c: Cylinder, vendorId: nat)
  {
    c.vendorId == vendorId && c.status == Filled && c.isAssigned == Some(false)
  }

  /** The ids the availability count of `find_nearby_vendors` counts
      (app/modules/orders/service.py:130-140). */
  function AvailableIds(cylinders: map<nat, Cylinder>, vendorId: nat): (r: set<nat>)
    ensures forall id :: id in r <==> id in cylinders && Available(cylinders[id], vendorId)
  {
    set id | id in cylinders && Available(cylinders[id], vendorId)
  }

  /** The rows the acceptance query returns: the listed ids that are the
      vendor's, filled and unassigned (app/modules/orders/service.py:164-173).
      An id listed twice is one row. */
  function Matching(cylinders: map<nat, Cylinder>, ids: seq<nat>, vendorId: nat): (r: set<nat>)
    ensures r <= Elements(ids)
    ensures r <= AvailableIds(cylinders, vendorId)
    ensures forall id :: id in r <==> id in ids && id in cylinders && Available(cylinders[id], vendorId)
  {
    set id | id in cylinders && id in ids && Available(cylinders[id], vendorId)
  }

  /** The count check `len(cylinders) == len(assigned_cylinder_ids)`
      holds exactly when the list has no repeated id and every listed id is
      an available cylinder of the vendor. */
  lemma MatchingCountIff(cylinders: map<nat, Cylinder>, ids: seq<nat>, vendorId: nat)
    ensures |Matching(cylinders, ids, vendorId)| == |ids| <==>
      Distinct(ids) && forall k :: 0 <= k < |ids| ==> ids[k] in cylinders && Available(cylinders[ids[k]], vendorId)
  {
    var m := Matching(cylinders, ids, vendorId);
    var e := Elements(ids);
    ElementsCard(ids);
    SubsetCardLe(m, e);
    if |m| == |ids| {
      SubsetCard(m, e);
      forall k | 0 <= k < |ids|
        ensures ids[k] in cylinders && Available(cylinders[ids[k]], vendorId)
      {
        assert ids[k] in e;
      }
    }
    if Distinct(ids) && forall k :: 0 <= k < |ids| ==> ids[k] in cylinders && Available(cylinders[ids[k]], vendorId) {
      forall id | id in e
        ensures id in m
      {
        var k :| 0 <= k < |ids| && ids[k] == id;
      }
      assert m == e;
    }
  }

  /** A duplicated id makes acceptance fail, whatever the cylinders are. */
  lemma DuplicateIdFails(cylinders: map<nat, Cylinder>, ids: seq<nat>, vendorId: nat, i: nat, j: nat)
    requires i < j < |ids| && ids[i] == ids[j]
    ensures |Matching(cylinders, ids, vendorId)| != |ids|
  {
    MatchingCountIff(cylinders, ids, vendorId);
  }

  /** The cylinders after the acceptance loop: every id of `ids` is assigned
      to the order (app/modules/orders/service.py:187-190). */
  function Reserve(cylinders: map<nat, Cylinder>, ids: set<nat>, orderId: nat): (r: map<nat, Cylinder>)
    ensures r.Keys == cylinders.Keys
  {
    map id | id in cylinders :: if id in ids then cylinders[id].(isAssigned := Some(true), currentOrderId := Some(orderId))
                                else cylinders[id]
  }

  /** The cylinders after the cancellation loop: every id of `ids` is
      released (app/modules/orders/service.py:273-275). */
  function Release(cylinders: map<nat, Cylinder>, ids: set<nat>): (r: map<nat, Cylinder>)
    ensures r.Keys == cylinders.Keys
  {
    map id | id in cylinders :: if id in ids then cylinders[id].(isAssigned := Some(false), currentOrderId := None)
                                else cylinders[id]
  }

  /** Reserving one more cylinder updates that one row. */
  lemma ReserveStep(cylinders: map<nat, Cylinder>, done: set<nat>, id: nat, orderId: nat)
    requires id in cylinders && id !in done
    ensures Reserve(cylinders, done + {id}, orderId)
            == Reserve(cylinders, done, orderId)[id := cylinders[id].(isAssigned := Some(true), currentOrderId := Some(orderId))]
  {
  }

  /** Releasing one more cylinder updates that one row. */
  lemma ReleaseStep(cylinders: map<nat, Cylinder>, done: set<nat>, id: nat)
    requires id in cylinders && id !in done
    ensures Release(cylinders, done + {id}) == Release(cylinders, done)[id := cylinders[id].(isAssigned := Some(false), currentOrderId := None)]
  {
  }

  /** Releasing an id that has no row changes nothing. */
  lemma ReleaseMissing(cylinders: map<nat, Cylinder>, done: set<nat>, id: nat)
    requires id !in cylinders
    ensures Release(cylinders, done + {id}) == Release(cylinders, done)
  {
  }

  /** Reserving takes exactly the reserved cylinders out of the vendor's
      available stock. */
  lemma {:induction false} ReserveTakesStock(cylinders: map<nat, Cylinder>, ids: set<nat>, orderId: nat, vendorId: nat)
    ensures AvailableIds(Reserve(cylinders, ids, orderId), vendorId) == AvailableIds(cylinders, vendorId) - ids
  {
    var r := Reserve(cylinders, ids, orderId);
    assert forall id :: id in r ==> (Available(r[id], vendorId) <==> id !in ids && Available(cylinders[id], vendorId));
  }

  /** Releasing twice is releasing once. */
  lemma ReleaseIdempotent(cylinders: map<nat, Cylinder>, ids: set<nat>)
    ensures Release(Release(cylinders, ids), ids) == Release(cylinders, ids)
  {
  }

  /** Releasing the cylinders a reservation took restores them, when they
      carried no order before. */
  lemma {:induction false} ReleaseUndoesReserve(cylinders: map<nat, Cylinder>, ids: set<nat>, orderId: nat)
    requires forall id :: id in ids && id in cylinders ==> cylinders[id].isAssigned == Some(false) && cylinders[id].currentOrderId.None?
    ensures Release(Reserve(cylinders, ids, orderId), ids) == cylinders
  {
    var r := Release(Reserve(cylinders, ids, orderId), ids);
    assert forall id :: id in cylinders ==> r[id] == cylinders[id];
  }

  /** Release leaves every released cylinder assignment-consistent. */
  lemma ReleaseConsistent(cylinders: map<nat, Cylinder>, ids: set<nat>, id: nat)
    requires id in ids && id in cylinders
    ensures AssignmentConsistent(Release(cylinders, ids)[id]) && Release(cylinders, ids)[id].isAssigned == Some(false)
  {
  }

  /** The conjunctive `WHERE` of the cylinder list: `vendor_id` and `status`
      apply only when truthy (a vendor id of 0 is falsy), `is_assigned` only
      when not `None`, and then never admits a `NULL` flag
      (app/modules/cylinders/service.py:109-116). */
  predicate CylinderFilter(c: Cylinder, vendorId: Option<nat>, status: Option<CylinderStatus>, isAssigned: Option<bool>)
  {
    (vendorId.Some? && vendorId.value != 0 ==> c.vendorId == vendorId.value)
    && (status.Some? ==> c.status == status.value)
    && (isAssigned.Some? ==> c.isAssigned == Some(isAssigned.value))
  }

  /** A cylinder whose `is_assigned` is `NULL` is never available and never
      passes an `is_assigned` filter, whichever boolean it asks for. */
  lemma NullFlagNeverMatches(c: Cylinder, vendorId: nat, filterVendor: Option<nat>, status: Option<CylinderStatus>,
                             b: bool)
    requires c.isAssigned.None?
    ensures !Available(c, vendorId)
    ensures !CylinderFilter(c, filterVendor, status, Some(b))
  {
  }

  /** The rows of a table in ascending id order. */
  function RowsById<T>(rows: map<nat, T>, nextId: nat): (r: seq<T>)
    ensures |r| == |IdsBelow(rows.Keys, nextId)|
    ensures forall k :: 0 <= k < |r| ==> IdsBelow(rows.Keys, nextId)[k] in rows && r[k] == rows[IdsBelow(rows.Keys, nextId)[k]]
  {
    var ids := IdsBelow(rows.Keys, nextId);
    seq(|ids|, k requires 0 <= k < |ids| => rows[ids[k]])
  }

  lemma RowsByIdValues<T>(rows: map<nat, T>, nextId: nat, x: T)
    requires x in RowsById(rows, nextId)
    ensures x in rows.Values
  {
    var r := RowsById(rows, nextId);
    var k :| 0 <= k < |r| && r[k] == x;
    var id := IdsBelow(rows.Keys, nextId)[k];
    assert rows[id] == x;
  }

  lemma RowsByIdContains<T>(rows: map<nat, T>, nextId: nat, id: nat)
    requires id in rows && id < nextId
    ensures rows[id] in RowsById(rows, nextId)
  {
    var ids := IdsBelow(rows.Keys, nextId);
    var k :| 0 <= k < |ids| && ids[k] == id;
    assert RowsById(rows, nextId)[k] == rows[id];
  }

  /** The cylinder rows in id order. The query has no `ORDER BY`; the model
      fixes the order as ascending id. */
  function CylindersById(cylinders: map<nat, Cylinder>, nextId: nat): seq<Cylinder>
  {
    RowsById(cylinders, nextId)
  }

  /** `CylinderService.list`. */
  function ListCylinders(cylinders: map<nat, Cylinder>, nextId: nat, vendorId: Option<nat>,
                         status: Option<CylinderStatus>, isAssigned: Option<bool>, skip: nat, limit: nat)
    : (r: seq<Cylinder>)
    ensures |r| <= limit
    ensures forall c :: c in r ==> CylinderFilter(c, vendorId, status, isAssigned)
    ensures forall c :: c in r ==> c in cylinders.Values
  {
    var rows := Filter(CylindersById(cylinders, nextId), (c: Cylinder) => CylinderFilter(c, vendorId, status, isAssigned));
    var r := Page(rows, skip, limit);
    assert forall c :: c in r ==> c in rows;
    forall c | c in r
      ensures c in cylinders.Values
    {
      RowsByIdValues(cylinders, nextId, c);
    }
    r
  }

  /** Every cylinder that passes the filters, below the id bound, is on the
      first page when the page is large enough. */
  lemma ListCylindersComplete(cylinders: map<nat, Cylinder>, nextId: nat, vendorId: Option<nat>,
                              status: Option<CylinderStatus>, isAssigned: Option<bool>, id: nat)
    requires id in cylinders && id < nextId && CylinderFilter(cylinders[id], vendorId, status, isAssigned)
    ensures cylinders[id] in ListCylinders(cylinders, nextId, vendorId, status, isAssigned, 0, |cylinders|)
  {
    var all := CylindersById(cylinders, nextId);
    RowsByIdContains(cylinders, nextId, id);
    var p := (c: Cylinder) => CylinderFilter(c, vendorId, status, isAssigned);
    var rows := Filter(all, p);
    assert cylinders[id] in rows;
    IdsCard(cylinders.Keys, nextId);
    assert |rows| <= |cylinders|;
    assert Page(rows, 0, |cylinders|) == rows;
  }

  lemma {:induction false} IdsCard(ids: set<nat>, n: nat)
    ensures |IdsBelow(ids, n)| <= |ids|
  {
    var s := IdsBelow(ids, n);
    ElementsCard(s);
    assert Distinct(s);
    assert Elements(s) <= ids;
    assert |Elements(s)| <= |ids| by {
      SubsetCardLe(Elements(s), ids);
    }
  }

  lemma SubsetCardLe<T>(a: set<T>, b: set<T>)
    requires a <= b
    ensures |a| <= |b|
  {
    assert b == a + (b - a);
  }

  /** The serial numbers are unique across the table. */
  predicate SerialsUnique(cylinders: map<nat, Cylinder>)
  {
    forall a, b :: a in cylinders && b in cylinders && cylinders[a].serialNumber == cylinders[b].serialNumber ==> a == b
  }

  // ------------------------------------------------------------------- orders

  /** The conjunctive `WHERE` of the order list: each filter applies only when
      truthy (ids of 0 are falsy) (app/modules/orders/service.py:105-110). */
  predicate OrderFilter(o: Order, hospitalId: Option<nat>, vendorId: Option<nat>, status: Option<OrderStatus>)
  {
    (hospitalId.Some? && hospitalId.value != 0 ==> o.hospitalId == hospitalId.value)
    && (vendorId.Some? && vendorId.value != 0 ==> o.vendorId == Some(vendorId.value))
    && (status.Some? ==> o.status == status.value)
  }

  /** Orders in descending id order. */
  function OrdersByIdDesc(orders: map<nat, Order>, nextId: nat): (r: seq<Order>)
  {
    Reverse(RowsById(orders, nextId))
  }

  lemma OrdersByIdDescMembers(orders: map<nat, Order>, nextId: nat, o: Order)
    ensures o in OrdersByIdDesc(orders, nextId) <==> o in RowsById(orders, nextId)
  {
    var asc := RowsById(orders, nextId);
    var r := OrdersByIdDesc(orders, nextId);
    if o in r {
      var k :| 0 <= k < |r| && r[k] == o;
      assert asc[|asc| - 1 - k] == o;
    }
    if o in asc {
      var k :| 0 <= k < |asc| && asc[k] == o;
      assert r[|asc| - 1 - k] == o;
    }
  }

  predicate NewerThan(a: Order, b: Order)
  {
    a.createdAt > b.createdAt
  }

  /** `OrderService.list`: filter, newest first, then skip/limit. */
  function ListOrders(orders: map<nat, Order>, nextId: nat, hospitalId: Option<nat>, vendorId: Option<nat>,
                      status: Option<OrderStatus>, skip: nat, limit: nat)
    : (r: seq<Order>)
    ensures |r| <= limit
    ensures forall o :: o in r ==> OrderFilter(o, hospitalId, vendorId, status) && o in orders.Values
  {
    var rows := Filter(OrdersByIdDesc(orders, nextId), (o: Order) => OrderFilter(o, hospitalId, vendorId, status));
    var r := Page(rows, skip, limit);
    forall o | o in r
      ensures o in orders.Values && OrderFilter(o, hospitalId, vendorId, status)
    {
      assert o in rows;
      OrdersByIdDescMembers(orders, nextId, o);
      RowsByIdValues(orders, nextId, o);
    }
    r
  }

  /** The store keeps each order under its own id, below the next id, and
      stamps orders in id order. */
  predicate OrdersKeyed(orders: map<nat, Order>, nextId: nat, clock: nat)
  {
    (forall id :: id in orders ==> orders[id].id == id && id < nextId && orders[id].createdAt < clock)
    && (forall a, b :: a in orders && b in orders && a < b ==> orders[a].createdAt < orders[b].createdAt)
  }

  /** The list is newest first: `ORDER BY created_at DESC`. */
  lemma ListOrdersNewestFirst(orders: map<nat, Order>, nextId: nat, clock: nat, hospitalId: Option<nat>,
                              vendorId: Option<nat>, status: Option<OrderStatus>, skip: nat, limit: nat)
    requires OrdersKeyed(orders, nextId, clock)
    ensures Ordered(ListOrders(orders, nextId, hospitalId, vendorId, status, skip, limit), NewerThan)
  {
    var ids := IdsBelow(orders.Keys, nextId);
    var asc := RowsById(orders, nextId);
    var all := OrdersByIdDesc(orders, nextId);
    assert Ordered(asc, (a: Order, b: Order) => NewerThan(b, a)) by {
      forall i, j | 0 <= i < j < |asc|
        ensures NewerThan(asc[j], asc[i])
      {
        assert ids[i] < ids[j];
      }
    }
    ReverseOrdered(asc, (a: Order, b: Order) => NewerThan(b, a), NewerThan);
    var p := (o: Order) => OrderFilter(o, hospitalId, vendorId, status);
    FilterOrdered(all, p, NewerThan);
    PageOrdered(Filter(all, p), skip, limit, NewerThan);
  }

  /** Every order the filters admit is on a page starting at 0 that is large
      enough. */
  lemma ListOrdersComplete(orders: map<nat, Order>, nextId: nat, hospitalId: Option<nat>, vendorId: Option<nat>,
                           status: Option<OrderStatus>, id: nat)
    requires id in orders && id < nextId && OrderFilter(orders[id], hospitalId, vendorId, status)
    ensures orders[id] in ListOrders(orders, nextId, hospitalId, vendorId, status, 0, |orders|)
  {
    var all := OrdersByIdDesc(orders, nextId);
    var p := (o: Order) => OrderFilter(o, hospitalId, vendorId, status);
    var rows := Filter(all, p);
    RowsByIdContains(orders, nextId, id);
    OrdersByIdDescMembers(orders, nextId, orders[id]);
    IdsCard(orders.Keys, nextId);
    assert |rows| <= |orders|;
    assert Page(rows, 0, |orders|) == rows;
  }

  /** `onupdate=func.now()`: the row gets a new `updated_at` when a column
      changed; the association table is not a column. */
  function Touch(before: Order, after: Order, now: nat): (r: Order)
    ensures r.(updatedAt := after.updatedAt) == after
    ensures after.(cylinders := before.cylinders) != before ==> r.updatedAt == Some(now)
    ensures after.(cylinders := before.cylinders) == before ==> r == after
  {
    if after.(cylinders := before.cylinders) == before then after else after.(updatedAt := Some(now))
  }

  /** The vendors `find_nearby_vendors` hands to the ranking: users with the
      vendor role and a location whose available stock covers the quantity
      (app/modules/orders/service.py:123-143). */
  predicate EligibleVendor(users: map<nat, User>, cylinders: map<nat, Cylinder>, id: nat, quantity: int)
  {
    id in users && users[id].role == UserRole.Vendor && users[id].location.Some?
    && |AvailableIds(cylinders, id)| >= quantity
  }

  // --------------------------------------------------------------------- logs

  predicate LogBefore(a: OrderLog, b: OrderLog)
  {
    a.createdAt < b.createdAt
  }

  predicate LogAfter(a: OrderLog, b: OrderLog)
  {
    a.createdAt > b.createdAt
  }

  predicate CylinderLogBefore(a: CylinderLog, b: CylinderLog)
  {
    a.createdAt < b.createdAt
  }

  predicate CylinderLogAfter(a: CylinderLog, b: CylinderLog)
  {
    a.createdAt > b.createdAt
  }

  /** The log entries of one order, oldest first (`ORDER BY created_at ASC`
      over entries stamped in commit order). */
  function LogsOfOrder(logs: seq<OrderLog>, orderId: nat): (r: seq<OrderLog>)
    ensures |r| <= |logs|
    ensures forall l :: l in r <==> l in logs && l.orderId == orderId
  {
    Filter(logs, (l: OrderLog) => l.orderId == orderId)
  }

  lemma LogsOfOrderAscending(logs: seq<OrderLog>, orderId: nat)
    requires Ordered(logs, LogBefore)
    ensures Ordered(LogsOfOrder(logs, orderId), LogBefore)
  {
    FilterOrdered(logs, (l: OrderLog) => l.orderId == orderId, LogBefore);
  }

  /** `OrderService.get_logs`: the order's entries, newest first, paged. */
  function OrderLogPage(logs: seq<OrderLog>, orderId: nat, skip: nat, limit: nat): (r: seq<OrderLog>)
    ensures |r| <= limit
    ensures forall l :: l in r ==> l in logs && l.orderId == orderId
  {
    var mine := LogsOfOrder(logs, orderId);
    var desc := Reverse(mine);
    var r := Page(desc, skip, limit);
    assert forall l :: l in r ==> l in desc;
    assert forall l :: l in desc ==> l in mine;
    r
  }

  /** The page is newest first: `ORDER BY created_at DESC`. */
  lemma OrderLogPageNewestFirst(logs: seq<OrderLog>, orderId: nat, skip: nat, limit: nat)
    requires Ordered(logs, LogBefore)
    ensures Ordered(OrderLogPage(logs, orderId, skip, limit), LogAfter)
  {
    var mine := LogsOfOrder(logs, orderId);
    LogsOfOrderAscending(logs, orderId);
    ReverseOrdered(mine, LogBefore, LogAfter);
    PageOrdered(Reverse(mine), skip, limit, LogAfter);
  }

  /** The log entries of one cylinder, oldest first. */
  function LogsOfCylinder(logs: seq<CylinderLog>, cylinderId: nat): (r: seq<CylinderLog>)
    ensures |r| <= |logs|
    ensures forall l :: l in r <==> l in logs && l.cylinderId == cylinderId
  {
    Filter(logs, (l: CylinderLog) => l.cylinderId == cylinderId)
  }

  /** `CylinderService.get_logs`: the cylinder's entries, newest first, paged. */
  function CylinderLogPage(logs: seq<CylinderLog>, cylinderId: nat, skip: nat, limit: nat): (r: seq<CylinderLog>)
    ensures |r| <= limit
    ensures forall l :: l in r ==> l in logs && l.cylinderId == cylinderId
  {
    var mine := LogsOfCylinder(logs, cylinderId);
    var desc := Reverse(mine);
    var r := Page(desc, skip, limit);
    assert forall l :: l in r ==> l in desc;
    assert forall l :: l in desc ==> l in mine;
    r
  }

  /** The page is newest first. */
  lemma CylinderLogPageNewestFirst(logs: seq<CylinderLog>, cylinderId: nat, skip: nat, limit: nat)
    requires Ordered(logs, CylinderLogBefore)
    ensures Ordered(CylinderLogPage(logs, cylinderId, skip, limit), CylinderLogAfter)
  {
    var mine := LogsOfCylinder(logs, cylinderId);
    FilterOrdered(logs, (l: CylinderLog) => l.cylinderId == cylinderId, CylinderLogBefore);
    ReverseOrdered(mine, CylinderLogBefore, CylinderLogAfter);
    PageOrdered(Reverse(mine), skip, limit, CylinderLogAfter);
  }

  /** Log entries are stamped in commit order, all before the clock. */
  predicate OrderLogsStamped(logs: seq<OrderLog>, clock: nat)
  {
    Ordered(logs, LogBefore) && forall k :: 0 <= k < |logs| ==> logs[k].createdAt < clock
  }

  predicate CylinderLogsStamped(logs: seq<CylinderLog>, clock: nat)
  {
    Ordered(logs, CylinderLogBefore) && forall k :: 0 <= k < |logs| ==> logs[k].createdAt < clock
  }

  // ---------------------------------------------------------------- the store

  class Database {
    var users: map<nat, User>
    var orders: map<nat, Order>
    var cylinders: map<nat, Cylinder>
    var orderLogs: seq<OrderLog>
    var cylinderLogs: seq<CylinderLog>
    var nextOrderId: nat
    var nextCylinderId: nat
    var clock: nat

    ghost predicate Valid()
      reads this
    {
      OrdersKeyed(orders, nextOrderId, clock)
      && (forall id :: id in cylinders ==> cylinders[id].id == id && id < nextCylinderId)
      && SerialsUnique(cylinders)
      && OrderLogsStamped(orderLogs, clock)
      && CylinderLogsStamped(cylinderLogs, clock)
    }

    /** A store holding the given users and nothing else. */
    constructor (users: map<nat, User>)
      ensures Valid()
      ensures this.users == users && orders == map[] && cylinders == map[]
      ensures orderLogs == [] && cylinderLogs == [] && nextOrderId == 1 && nextCylinderId == 1
    {
      this.users := users;
      orders := map[];
      cylinders := map[];
      orderLogs := [];
      cylinderLogs := [];
      nextOrderId := 1;
      nextCylinderId := 1;
      clock := 0;
    }

    /** `db.add(OrderLog(**log_in))` and its commit: the entry gets the next
      log id and the commit's timestamp. */
    method AddOrderLog(l: OrderLogCreate) returns (log: OrderLog)
      requires Valid()
      modifies this
      ensures Valid()
      ensures log == OrderModel.StampLog(l, |old(orderLogs)| + 1, old(clock))
      ensures orderLogs == old(orderLogs) + [log] && clock == old(clock) + 1
      ensures users == old(users) && orders == old(orders) && cylinders == old(cylinders)
      ensures cylinderLogs == old(cylinderLogs) && nextOrderId == old(nextOrderId)
      ensures nextCylinderId == old(nextCylinderId)
    {
      log := OrderModel.StampLog(l, |orderLogs| + 1, clock);
      orderLogs := orderLogs + [log];
      clock := clock + 1;
    }

    /** `db.add(Order(...))` and its commit: the row gets the next id and the
      commit's timestamp. */
    method AddOrder(hospitalId: nat, o: OrderCreate) returns (order: Order)
      requires Valid()
      modifies this
      ensures Valid()
      ensures order == NewOrder(old(nextOrderId), hospitalId, o, old(clock))
      ensures orders == old(orders)[order.id := order] && old(nextOrderId) !in old(orders)
      ensures nextOrderId == old(nextOrderId) + 1 && clock == old(clock) + 1
      ensures users == old(users) && cylinders == old(cylinders) && orderLogs == old(orderLogs)
      ensures cylinderLogs == old(cylinderLogs) && nextCylinderId == old(nextCylinderId)
    {
      order := NewOrder(nextOrderId, hospitalId, o, clock);
      orders := orders[order.id := order];
      nextOrderId := nextOrderId + 1;
      clock := clock + 1;
    }

    /** A changed order row flushed back under its own id; the id and the
      creation time are the ones the row already had. */
    method PutOrder(o: Order)
      requires Valid()
      requires o.id in orders && orders[o.id].createdAt == o.createdAt
      modifies this
      ensures Valid()
      ensures orders == old(orders)[o.id := o]
      ensures users == old(users) && cylinders == old(cylinders) && orderLogs == old(orderLogs)
      ensures cylinderLogs == old(cylinderLogs) && nextOrderId == old(nextOrderId)
      ensures nextCylinderId == old(nextCylinderId) && clock == old(clock)
    {
      orders := orders[o.id := o];
    }

    /** `db.add(Cylinder(...))`: a new row under the next cylinder id, whose
      serial number no row carries yet. */
    method AddCylinder(c: Cylinder)
      requires Valid()
      requires c.id == nextCylinderId
      requires forall id :: id in cylinders ==> cylinders[id].serialNumber != c.serialNumber
      modifies this
      ensures Valid()
      ensures cylinders == old(cylinders)[c.id := c] && c.id !in old(cylinders)
      ensures nextCylinderId == old(nextCylinderId) + 1
      ensures users == old(users) && orders == old(orders) && orderLogs == old(orderLogs)
      ensures cylinderLogs == old(cylinderLogs) && nextOrderId == old(nextOrderId) && clock == old(clock)
    {
      cylinders := cylinders[c.id := c];
      nextCylinderId := nextCylinderId + 1;
    }

    /** A changed cylinder row flushed back under its own id; the id and
      the serial number are the ones the row already had. */
    method PutCylinder(c: Cylinder)
      requires Valid()
      requires c.id in cylinders && cylinders[c.id].serialNumber == c.serialNumber
      modifies this
      ensures Valid()
      ensures cylinders == old(cylinders)[c.id := c]
      ensures users == old(users) && orders == old(orders) && orderLogs == old(orderLogs)
      ensures cylinderLogs == old(cylinderLogs) && nextOrderId == old(nextOrderId)
      ensures nextCylinderId == old(nextCylinderId) && clock == old(clock)
    {
      cylinders := cylinders[c.id := c];
    }

    /** Changed cylinder rows flushed back, each under its own id with the
      serial number it already had. */
    method PutCylinders(m: map<nat, Cylinder>)
      requires Valid()
      requires m.Keys == cylinders.Keys
      requires forall id :: id in m ==> m[id].id == id && m[id].serialNumber == cylinders[id].serialNumber
      modifies this
      ensures Valid()
      ensures cylinders == m
      ensures users == old(users) && orders == old(orders) && orderLogs == old(orderLogs)
      ensures cylinderLogs == old(cylinderLogs) && nextOrderId == old(nextOrderId)
      ensures nextCylinderId == old(nextCylinderId) && clock == old(clock)
    {
      cylinders := m;
    }

    /** `db.delete(cylinder)` and its commit. */
    method RemoveCylinder(id: nat)
      requires Valid()
      modifies this
      ensures Valid()
      ensures cylinders == old(cylinders) - {id}
      ensures users == old(users) && orders == old(orders) && orderLogs == old(orderLogs)
      ensures cylinderLogs == old(cylinderLogs) && nextOrderId == old(nextOrderId)
      ensures nextCylinderId == old(nextCylinderId) && clock == old(clock)
    {
      cylinders := cylinders - {id};
    }

    /** `db.add(CylinderLog(**log_in))` and its commit. */
    method AddCylinderLog(l: CylinderLogCreate) returns (log: CylinderLog)
      requires Valid()
      modifies this
      ensures Valid()
      ensures log == CylinderModel.StampLog(l, |old(cylinderLogs)| + 1, old(clock))
      ensures cylinderLogs == old(cylinderLogs) + [log] && clock == old(clock) + 1
      ensures users == old(users) && orders == old(orders) && cylinders == old(cylinders)
      ensures orderLogs == old(orderLogs) && nextOrderId == old(nextOrderId)
      ensures nextCylinderId == old(nextCylinderId)
    {
      log := CylinderModel.StampLog(l, |cylinderLogs| + 1, clock);
      cylinderLogs := cylinderLogs + [log];
      clock := clock + 1;
    }
  }
}
