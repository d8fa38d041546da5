/** `OrderService` (app/modules/orders/service.py): the order engine over
    the store, with the read-through cache in front of single orders. Each
    operation is one sequential step; the order row and the cylinder rows it
    changes are flushed by the commit inside `create_log`, so they carry the
    same timestamp as the log entry. */
module OrderService {
  import opened Common
  import opened Cache
  import opened Seqs
  import opened UserModel
  import opened CylinderModel
  import opened OrderModel
  import opened Store
  import opened Geo

  const CachePrefix := "order"

  /** The key `_cache_order` writes, `"order:<id>"`. */
  function OrderKey(id: int): string
  {
    EntityKey(CachePrefix, id)
  }

  /** The cache after `get` read `id` through it: a miss on an existing order
      stores that order, anything else leaves the cache as it was. */
  function ReadThrough(entries: map<string, Json>, orders: map<nat, Order>, id: nat): map<string, Json>
  {
    if OrderKey(id) !in entries && id in orders then entries[OrderKey(id) := OrderJson(orders[id])] else entries
  }

  /** The ids as a JSON list. */
  function IdsJson(ids: seq<nat>): (j: Json)
    ensures j.JList? && |j.items| == |ids| && forall k :: 0 <= k < |ids| ==> j.items[k] == JInt(ids[k])
  {
    JList(seq(|ids|, k requires 0 <= k < |ids| => JInt(ids[k])))
  }

  /** The `details` of the `vendor_assigned` entry (app/modules/orders/service.py:200-203). */
  function AcceptDetails(ids: seq<nat>, expectedDelivery: Timestamp): map<string, Json>
  {
    map["assigned_cylinders" := IdsJson(ids), "expected_delivery" := TimeJson(expectedDelivery)]
  }

  /** The `details` of the delivery `status_changed` entry
      (app/modules/orders/service.py:239-243). */
  function DeliveryDetails(u: OrderDeliveryUpdate): map<string, Json>
  {
    map["cylinders_sent" := JInt(u.cylindersSent), "empty_cylinders_returned" := JInt(u.emptyCylindersReturned),
        "notes" := OptStr(u.notes)]
  }

  /** The order after the field assignments of `accept_order`, before the
      commit stamps it. */
  function AcceptFields(o: Order, vendorId: nat, expectedDelivery: Timestamp, ids: set<nat>): (r: Order)
    ensures r.vendorId == Some(vendorId) && r.status == OrderStatus.Accepted
    ensures r.expectedDelivery == Some(expectedDelivery) && r.cylinders == o.cylinders + ids
    ensures r == o.(vendorId := r.vendorId, status := r.status, expectedDelivery := r.expectedDelivery, cylinders := r.cylinders)
  {
    o.(vendorId := Some(vendorId), status := OrderStatus.Accepted, expectedDelivery := Some(expectedDelivery),
       cylinders := o.cylinders + ids)
  }

  /** The order after the field assignments of `update_delivery_status`:
      both counters overwritten, `delivered_at` only when one is supplied. */
  function DeliveryFields(o: Order, u: OrderDeliveryUpdate): (r: Order)
    ensures r.status == u.status && r.cylindersSent == u.cylindersSent
    ensures r.emptyCylindersReturned == u.emptyCylindersReturned
    ensures r.deliveredAt == if u.deliveredAt.Some? then u.deliveredAt else o.deliveredAt
    ensures r == o.(status := r.status, cylindersSent := r.cylindersSent,
                    emptyCylindersReturned := r.emptyCylindersReturned, deliveredAt := r.deliveredAt)
  {
    o.(status := u.status, cylindersSent := u.cylindersSent, emptyCylindersReturned := u.emptyCylindersReturned,
       deliveredAt := if u.deliveredAt.Some? then u.deliveredAt else o.deliveredAt)
  }

  /** The statuses `cancel_order` accepts. */
  predicate Cancellable(s: OrderStatus)
  {
    s == Pending || s == OrderStatus.Accepted
  }

  /** The delivery update has no forward-only guard: from any status, to any
      status, the order ends in the requested one. */
  lemma DeliveryUnguarded(o: Order, u: OrderDeliveryUpdate, now: nat)
    ensures Touch(o, DeliveryFields(o, u), now).status == u.status
    ensures Touch(o, DeliveryFields(o, u), now).cylindersSent == u.cylindersSent
  {
  }

  /** A cancelled order cannot be cancelled again, nor accepted. */
  lemma CancelledIsFinal(o: Order, now: nat)
    ensures !Cancellable(Touch(o, o.(status := OrderStatus.Cancelled), now).status)
    ensures Touch(o, o.(status := OrderStatus.Cancelled), now).status != Pending
  {
  }

  /** An acceptance that passes the count check reserves exactly the listed
      cylinders: each becomes assigned to the order and leaves the vendor's
      available stock, and every other cylinder keeps its row. */
  lemma AcceptReservesListed(cylinders: map<nat, Cylinder>, ids: seq<nat>, vendorId: nat, orderId: nat)
    requires |Matching(cylinders, ids, vendorId)| == |ids|
    ensures Matching(cylinders, ids, vendorId) == Elements(ids)
    ensures var r := Reserve(cylinders, Elements(ids), orderId);
      (forall k :: 0 <= k < |ids| ==> ids[k] in r && r[ids[k]].isAssigned == Some(true) && r[ids[k]].currentOrderId == Some(orderId)
                                      && AssignmentConsistent(r[ids[k]]))
      && (forall id :: id in cylinders && id !in ids ==> r[id] == cylinders[id])
      && AvailableIds(r, vendorId) == AvailableIds(cylinders, vendorId) - Elements(ids)
  {
    MatchingCountIff(cylinders, ids, vendorId);
    var m := Matching(cylinders, ids, vendorId);
    var e := Elements(ids);
    ElementsCard(ids);
    SubsetCard(m, e);
    ReserveTakesStock(cylinders, e, orderId, vendorId);
  }

  /** The vendor-eligibility loop of `find_nearby_vendors`
      (app/modules/orders/service.py:123-143): every vendor with a location
      whose available stock covers the quantity, once each, in the order the
      query yields them, which the model leaves open. */
  method VendorData(users: map<nat, User>, cylinders: map<nat, Cylinder>, quantity: int)
    returns (vendorData: seq<(nat, Location)>)
    ensures forall i, j :: 0 <= i < j < |vendorData| ==> vendorData[i].0 != vendorData[j].0
    ensures forall p :: p in vendorData <==>
      EligibleVendor(users, cylinders, p.0, quantity) && p.1 == users[p.0].location.value
  {
    var vendors := set id | id in users && users[id].role == UserRole.Vendor;
    ghost var all := vendors;
    vendorData := [];
    ghost var seen: set<nat> := {};
    while vendors != {}
      invariant vendors !! seen && vendors + seen == all
      invariant forall i, j :: 0 <= i < j < |vendorData| ==> vendorData[i].0 != vendorData[j].0
      invariant forall p :: p in vendorData <==>
        p.0 in seen && EligibleVendor(users, cylinders, p.0, quantity) && p.1 == users[p.0].location.value
      decreases |vendors|
    {
      var id :| id in vendors;
      var vendor := users[id];
      var availableCylinders := |AvailableIds(cylinders, id)|;
      if availableCylinders >= quantity && vendor.location.Some? {
        forall k | 0 <= k < |vendorData|
          ensures vendorData[k].0 != id
        {
          assert vendorData[k] in vendorData;
        }
        vendorData := vendorData + [(id, vendor.location.value)];
      }
      vendors := vendors - {id};
      seen := seen + {id};
    }
  }

  /** The vendor list `VendorData` builds: each eligible vendor once, with
      its location. */
  ghost predicate IsVendorData(users: map<nat, User>, cylinders: map<nat, Cylinder>, quantity: int,
                         vendorData: seq<(nat, Location)>)
  {
    (forall i, j :: 0 <= i < j < |vendorData| ==> vendorData[i].0 != vendorData[j].0)
    && (forall p :: p in vendorData <==>
      EligibleVendor(users, cylinders, p.0, quantity) && p.1 == users[p.0].location.value)
  }

  /** Every ranked pair is an eligible vendor at its own distance. */
  lemma RankedOwnDistance(users: map<nat, User>, cylinders: map<nat, Cylinder>, quantity: int,
                          vendorData: seq<(nat, Location)>, target: Location, maxDistance: Distance,
                          haversine: Haversine, p: (nat, Distance))
    requires IsVendorData(users, cylinders, quantity, vendorData)
    requires p in SortByDistance(Within(target, vendorData, maxDistance, haversine))
    ensures EligibleVendor(users, cylinders, p.0, quantity)
    ensures p.1 == CalculateDistance(target, users[p.0].location.value, haversine)
  {
    var within := Within(target, vendorData, maxDistance, haversine);
    assert p in multiset(SortByDistance(within));
    assert p in within;
    var k :| 0 <= k < |vendorData| && vendorData[k].0 == p.0
             && p.1 == CalculateDistance(target, vendorData[k].1, haversine);
    assert vendorData[k] in vendorData;
  }

  /** No vendor is ranked twice. */
  lemma RankedDistinct(users: map<nat, User>, cylinders: map<nat, Cylinder>, quantity: int,
                       vendorData: seq<(nat, Location)>, target: Location, maxDistance: Distance, haversine: Haversine)
    requires IsVendorData(users, cylinders, quantity, vendorData)
    ensures DistinctIds(SortByDistance(Within(target, vendorData, maxDistance, haversine)))
  {
    WithinDistinct(target, vendorData, maxDistance, haversine);
    SortDistinct(Within(target, vendorData, maxDistance, haversine));
  }

  /** Every eligible vendor in range is ranked, at its own distance. */
  lemma RankedComplete(users: map<nat, User>, cylinders: map<nat, Cylinder>, quantity: int,
                       vendorData: seq<(nat, Location)>, target: Location, maxDistance: Distance,
                       haversine: Haversine, v: nat)
    requires IsVendorData(users, cylinders, quantity, vendorData)
    requires EligibleVendor(users, cylinders, v, quantity)
    requires AtMost(CalculateDistance(target, users[v].location.value, haversine), maxDistance)
    ensures (v, CalculateDistance(target, users[v].location.value, haversine))
            in SortByDistance(Within(target, vendorData, maxDistance, haversine))
  {
    var p := (v, users[v].location.value);
    assert p in vendorData;
    var k :| 0 <= k < |vendorData| && vendorData[k] == p;
    WithinContains(target, vendorData, maxDistance, haversine, k);
    var within := Within(target, vendorData, maxDistance, haversine);
    assert (v, CalculateDistance(target, users[v].location.value, haversine)) in multiset(SortByDistance(within));
  }

  /** The reservation loop of `accept_order`
      (app/modules/orders/service.py:187-190): each matched cylinder is
      assigned to the order. The rows change in the session and reach the
      table at the next commit. */
  method AssignCylinders(cylinders: map<nat, Cylinder>, matched: set<nat>, orderId: nat)
    returns (r: map<nat, Cylinder>)
    requires matched <= cylinders.Keys
    ensures r == Reserve(cylinders, matched, orderId)
  {
    r := cylinders;
    var remaining := matched;
    ghost var done: set<nat> := {};
    while remaining != {}
      invariant remaining !! done && remaining + done == matched
      invariant r == Reserve(cylinders, done, orderId)
      decreases |remaining|
    {
      var id :| id in remaining;
      ReserveStep(cylinders, done, id, orderId);
      var cylinder := r[id];
      r := r[id := cylinder.(isAssigned := Some(true), currentOrderId := Some(orderId))];
      remaining := remaining - {id};
      done := done + {id};
    }
  }

  /** The release loop of `cancel_order`
      (app/modules/orders/service.py:273-275): each of the order's
      cylinders is unassigned. */
  method ReleaseCylinders(cylinders: map<nat, Cylinder>, ids: set<nat>) returns (r: map<nat, Cylinder>)
    ensures r == Release(cylinders, ids)
  {
    r := cylinders;
    var remaining := ids;
    ghost var done: set<nat> := {};
    while remaining != {}
      invariant remaining !! done && remaining + done == ids
      invariant r == Release(cylinders, done)
      decreases |remaining|
    {
      var id :| id in remaining;
      if id in r {
        ReleaseStep(cylinders, done, id);
        var cylinder := r[id];
        r := r[id := cylinder.(isAssigned := Some(false), currentOrderId := None)];
      } else {
        ReleaseMissing(cylinders, done, id);
      }
      remaining := remaining - {id};
      done := done + {id};
    }
  }

  class OrderService {
    const db: Database
    const cache: RedisCache<Json>

    constructor (db: Database, cache: RedisCache<Json>)
      ensures this.db == db && this.cache == cache
    {
      this.db := db;
      this.cache := cache;
    }

    /** `_cache_order`. */
    method CacheOrder(o: Order)
      modifies cache
      ensures cache.entries == old(cache.entries)[OrderKey(o.id) := OrderJson(o)]
    {
      cache.Set([Str(CachePrefix), Int(o.id)], OrderJson(o));
    }

    /** `get`: the row, looked up in the store even on a cache hit; a miss
      that finds the row caches it. */
    method Get(id: nat) returns (r: Option<Order>)
      requires db.Valid()
      modifies cache
      ensures r == if id in db.orders then Some(db.orders[id]) else None
      ensures cache.entries == ReadThrough(old(cache.entries), db.orders, id)
    {
      var cached := cache.Get([Str(CachePrefix), Int(id)]);
      assert GenerateKey([Str(CachePrefix), Int(id)]) == OrderKey(id);
      r := if id in db.orders then Some(db.orders[id]) else None;
      if cached.Some? {
        return;
      }
      if r.Some? {
        CacheOrder(r.value);
      }
    }

    /** `create`: the order is stored pending under the next id, one
      `created` entry is logged, and the row is cached. */
    method Create(orderIn: OrderCreate, hospitalId: nat) returns (order: Order)
      requires db.Valid()
      requires orderIn.quantity > 0
      modifies db, cache
      ensures db.Valid()
      ensures order == NewOrder(old(db.nextOrderId), hospitalId, orderIn, old(db.clock))
      ensures order.status == Pending && order.hospitalId == hospitalId && order.vendorId.None?
      ensures order.quantity == orderIn.quantity && order.cylinders == {}
      ensures order.id !in old(db.orders) && db.orders == old(db.orders)[order.id := order]
      ensures db.orderLogs == old(db.orderLogs) + [OrderModel.StampLog(
                OrderLogCreate(order.id, OrderEventType.Created, None, Some(Pending), None, Some("Order created"), hospitalId),
                |old(db.orderLogs)| + 1, old(db.clock) + 1)]
      ensures db.nextOrderId == old(db.nextOrderId) + 1 && db.clock == old(db.clock) + 2
      ensures db.users == old(db.users) && db.cylinders == old(db.cylinders)
      ensures db.cylinderLogs == old(db.cylinderLogs) && db.nextCylinderId == old(db.nextCylinderId)
      ensures cache.entries == old(cache.entries)[OrderKey(order.id) := OrderJson(order)]
    {
      order := db.AddOrder(hospitalId, orderIn);
      var _ := CreateLog(OrderLogCreate(order.id, OrderEventType.Created, None, Some(order.status), None, Some("Order created"),
                                        hospitalId));
      CacheOrder(order);
    }

    /** `list`. */
    method List(hospitalId: Option<nat>, vendorId: Option<nat>, status: Option<OrderStatus>, skip: nat, limit: nat)
      returns (r: seq<Order>)
      requires db.Valid()
      ensures r == ListOrders(db.orders, db.nextOrderId, hospitalId, vendorId, status, skip, limit)
      ensures |r| <= limit
      ensures forall o :: o in r ==> OrderFilter(o, hospitalId, vendorId, status) && o in db.orders.Values
      ensures Ordered(r, NewerThan)
    {
      r := ListOrders(db.orders, db.nextOrderId, hospitalId, vendorId, status, skip, limit);
      ListOrdersNewestFirst(db.orders, db.nextOrderId, db.clock, hospitalId, vendorId, status, skip, limit);
    }

    /** `find_nearby_vendors`: the eligible vendors ranked by distance, each
      once and with its own distance. */
    method FindNearbyVendors(deliveryLocation: Location, quantity: int, maxDistance: Distance, haversine: Haversine)
      returns (r: seq<(nat, Distance)>)
      ensures forall p :: p in r ==>
        AtMost(p.1, maxDistance) && EligibleVendor(db.users, db.cylinders, p.0, quantity)
        && p.1 == CalculateDistance(deliveryLocation, db.users[p.0].location.value, haversine)
      ensures forall i, j :: 0 <= i < j < |r| ==> r[i].0 != r[j].0
      ensures SortedByDistance(r)
      ensures forall v :: EligibleVendor(db.users, db.cylinders, v, quantity)
                          && AtMost(CalculateDistance(deliveryLocation, db.users[v].location.value, haversine), maxDistance)
                          ==> (v, CalculateDistance(deliveryLocation, db.users[v].location.value, haversine)) in r
    {
      var vendorData := VendorData(db.users, db.cylinders, quantity);
      r := Geo.FindNearbyVendors(deliveryLocation, vendorData, maxDistance, haversine);
      RankedDistinct(db.users, db.cylinders, quantity, vendorData, deliveryLocation, maxDistance, haversine);
      forall p | p in r
        ensures EligibleVendor(db.users, db.cylinders, p.0, quantity)
        ensures p.1 == CalculateDistance(deliveryLocation, db.users[p.0].location.value, haversine)
      {
        RankedOwnDistance(db.users, db.cylinders, quantity, vendorData, deliveryLocation, maxDistance, haversine, p);
      }
      forall v | EligibleVendor(db.users, db.cylinders, v, quantity)
                 && AtMost(CalculateDistance(deliveryLocation, db.users[v].location.value, haversine), maxDistance)
        ensures (v, CalculateDistance(deliveryLocation, db.users[v].location.value, haversine)) in r
      {
        RankedComplete(db.users, db.cylinders, quantity, vendorData, deliveryLocation, maxDistance, haversine, v);
      }
    }

    /** `accept_order`: an unknown order is not found; an order that is not
      pending, or a cylinder list that does not match the vendor's available
      cylinders one to one, is refused with nothing changed; otherwise the
      order is accepted by the vendor, the listed cylinders are reserved
      for it, and one `vendor_assigned` entry is logged. */
    method AcceptOrder(orderId: nat, vendorId: nat, expectedDelivery: Timestamp, assignedCylinderIds: seq<nat>)
      returns (r: Result<Order, HttpError>)
      requires db.Valid()
      modifies db, cache
      ensures db.Valid()
      ensures orderId !in old(db.orders) ==> r == Err(HttpError(404, "Order not found"))
      ensures orderId in old(db.orders) && old(db.orders)[orderId].status != Pending
              ==> r == Err(HttpError(400, "Order cannot be accepted"))
      ensures orderId in old(db.orders) && old(db.orders)[orderId].status == Pending
              && |Matching(old(db.cylinders), assignedCylinderIds, vendorId)| != |assignedCylinderIds|
              ==> r == Err(HttpError(400, "Some cylinders are not available"))
      ensures r.Err? ==> unchanged(db) && cache.entries == ReadThrough(old(cache.entries), old(db.orders), orderId)
      ensures r.Ok? <==>
        orderId in old(db.orders) && old(db.orders)[orderId].status == Pending && Distinct(assignedCylinderIds)
        && forall k :: 0 <= k < |assignedCylinderIds| ==>
             assignedCylinderIds[k] in old(db.cylinders) && Available(old(db.cylinders)[assignedCylinderIds[k]], vendorId)
      ensures r.Ok? ==>
        var before := old(db.orders)[orderId];
        var o := Touch(before, AcceptFields(before, vendorId, expectedDelivery, Elements(assignedCylinderIds)), old(db.clock));
        r.value == o
        && db.orders == old(db.orders)[orderId := o]
        && db.cylinders == Reserve(old(db.cylinders), Elements(assignedCylinderIds), orderId)
        && db.orderLogs == old(db.orderLogs) + [OrderModel.StampLog(
             OrderLogCreate(orderId, VendorAssigned, Some(Pending), Some(OrderStatus.Accepted),
                            Some(AcceptDetails(assignedCylinderIds, expectedDelivery)), None, vendorId),
             |old(db.orderLogs)| + 1, old(db.clock))]
        && db.clock == old(db.clock) + 1
        && cache.entries == old(cache.entries)[OrderKey(orderId) := OrderJson(o)]
      ensures db.users == old(db.users) && db.cylinderLogs == old(db.cylinderLogs)
      ensures db.nextOrderId == old(db.nextOrderId) && db.nextCylinderId == old(db.nextCylinderId)
    {
      var found := Get(orderId);
      if found.None? {
        return Err(HttpError(404, "Order not found"));
      }
      var order := found.value;
      if order.status != Pending {
        return Err(HttpError(400, "Order cannot be accepted"));
      }
      var cylinders := Matching(db.cylinders, assignedCylinderIds, vendorId);
      MatchingCountIff(db.cylinders, assignedCylinderIds, vendorId);
      if |cylinders| != |assignedCylinderIds| {
        return Err(HttpError(400, "Some cylinders are not available"));
      }
      AcceptReservesListed(db.cylinders, assignedCylinderIds, vendorId, orderId);
      var next := AcceptFields(order, vendorId, expectedDelivery, cylinders);
      var reserved := AssignCylinders(db.cylinders, cylinders, orderId);
      db.PutCylinders(reserved);
      var o := Touch(order, next, db.clock);
      db.PutOrder(o);
      var _ := CreateLog(OrderLogCreate(orderId, VendorAssigned, Some(Pending), Some(OrderStatus.Accepted),
                                        Some(AcceptDetails(assignedCylinderIds, expectedDelivery)), None, vendorId));
      CacheOrder(o);
      OverwriteKey(old(cache.entries), OrderKey(orderId), OrderJson(order), OrderJson(o));
      r := Ok(o);
    }

    /** `update_delivery_status`: an unknown order is not found; otherwise
      the status and both counters take the supplied values whatever the
      current status, `delivered_at` only when supplied, and one
      `status_changed` entry records the old and the new status. */
    method UpdateDeliveryStatus(orderId: nat, updateData: OrderDeliveryUpdate, userId: nat)
      returns (r: Result<Order, HttpError>)
      requires db.Valid()
      modifies db, cache
      ensures db.Valid()
      ensures orderId !in old(db.orders) ==>
        r == Err(HttpError(404, "Order not found")) && unchanged(db) && cache.entries == old(cache.entries)
      ensures orderId in old(db.orders) ==>
        var before := old(db.orders)[orderId];
        var o := Touch(before, DeliveryFields(before, updateData), old(db.clock));
        r == Ok(o)
        && db.orders == old(db.orders)[orderId := o]
        && db.orderLogs == old(db.orderLogs) + [OrderModel.StampLog(
             OrderLogCreate(orderId, OrderEventType.StatusChanged, Some(before.status), Some(updateData.status),
                            Some(DeliveryDetails(updateData)), None, userId),
             |old(db.orderLogs)| + 1, old(db.clock))]
        && db.clock == old(db.clock) + 1
        && cache.entries == old(cache.entries)[OrderKey(orderId) := OrderJson(o)]
      ensures db.users == old(db.users) && db.cylinders == old(db.cylinders) && db.cylinderLogs == old(db.cylinderLogs)
      ensures db.nextOrderId == old(db.nextOrderId) && db.nextCylinderId == old(db.nextCylinderId)
    {
      var found := Get(orderId);
      if found.None? {
        return Err(HttpError(404, "Order not found"));
      }
      var order := found.value;
      var oldStatus := order.status;
      var o := Touch(order, DeliveryFields(order, updateData), db.clock);
      db.PutOrder(o);
      var _ := CreateLog(OrderLogCreate(orderId, OrderEventType.StatusChanged, Some(oldStatus), Some(updateData.status),
                                        Some(DeliveryDetails(updateData)), None, userId));
      CacheOrder(o);
      OverwriteKey(old(cache.entries), OrderKey(orderId), OrderJson(order), OrderJson(o));
      r := Ok(o);
    }

    /** `cancel_order`: an unknown order is not found; an order that is
      neither pending nor accepted is refused with nothing changed;
      otherwise the order is cancelled, its cylinders are released, and one
      `cancelled` entry carries the reason. */
    method CancelOrder(orderId: nat, userId: nat, reason: string) returns (r: Result<Order, HttpError>)
      requires db.Valid()
      modifies db, cache
      ensures db.Valid()
      ensures orderId !in old(db.orders) ==> r == Err(HttpError(404, "Order not found"))
      ensures orderId in old(db.orders) && !Cancellable(old(db.orders)[orderId].status)
              ==> r == Err(HttpError(400, "Order cannot be cancelled"))
      ensures r.Err? ==> unchanged(db) && cache.entries == ReadThrough(old(cache.entries), old(db.orders), orderId)
      ensures r.Ok? <==> orderId in old(db.orders) && Cancellable(old(db.orders)[orderId].status)
      ensures r.Ok? ==>
        var before := old(db.orders)[orderId];
        var o := Touch(before, before.(status := OrderStatus.Cancelled), old(db.clock));
        r.value == o
        && db.orders == old(db.orders)[orderId := o]
        && db.cylinders == Release(old(db.cylinders), before.cylinders)
        && db.orderLogs == old(db.orderLogs) + [OrderModel.StampLog(
             OrderLogCreate(orderId, OrderEventType.Cancelled, Some(before.status), Some(OrderStatus.Cancelled), None,
                            Some(reason), userId),
             |old(db.orderLogs)| + 1, old(db.clock))]
        && db.clock == old(db.clock) + 1
        && cache.entries == old(cache.entries)[OrderKey(orderId) := OrderJson(o)]
      ensures db.users == old(db.users) && db.cylinderLogs == old(db.cylinderLogs)
      ensures db.nextOrderId == old(db.nextOrderId) && db.nextCylinderId == old(db.nextCylinderId)
    {
      var found := Get(orderId);
      if found.None? {
        return Err(HttpError(404, "Order not found"));
      }
      var order := found.value;
      if !Cancellable(order.status) {
        return Err(HttpError(400, "Order cannot be cancelled"));
      }
      var oldStatus := order.status;
      var next := order.(status := OrderStatus.Cancelled);
      var released := ReleaseCylinders(db.cylinders, order.cylinders);
      db.PutCylinders(released);
      var o := Touch(order, next, db.clock);
      db.PutOrder(o);
      var _ := CreateLog(OrderLogCreate(orderId, OrderEventType.Cancelled, Some(oldStatus),
                                        Some(OrderStatus.Cancelled), None, Some(reason), userId));
      CacheOrder(o);
      OverwriteKey(old(cache.entries), OrderKey(orderId), OrderJson(order), OrderJson(o));
      r := Ok(o);
    }

    /** `create_log`. */
    method CreateLog(logIn: OrderLogCreate) returns (log: OrderLog)
      requires db.Valid()
      modifies db
      ensures db.Valid()
      ensures log == OrderModel.StampLog(logIn, |old(db.orderLogs)| + 1, old(db.clock))
      ensures db.orderLogs == old(db.orderLogs) + [log] && db.clock == old(db.clock) + 1
      ensures db.users == old(db.users) && db.orders == old(db.orders) && db.cylinders == old(db.cylinders)
      ensures db.cylinderLogs == old(db.cylinderLogs) && db.nextOrderId == old(db.nextOrderId)
      ensures db.nextCylinderId == old(db.nextCylinderId)
    {
      log := db.AddOrderLog(logIn);
    }

    /** `get_logs`: the order's entries, newest first, paged. */
    method GetLogs(orderId: nat, skip: nat, limit: nat) returns (r: seq<OrderLog>)
      requires db.Valid()
      ensures r == OrderLogPage(db.orderLogs, orderId, skip, limit)
      ensures Ordered(r, LogAfter)
      ensures forall l :: l in r ==> l in db.orderLogs && l.orderId == orderId
    {
      r := OrderLogPage(db.orderLogs, orderId, skip, limit);
      OrderLogPageNewestFirst(db.orderLogs, orderId, skip, limit);
    }
  }
}
