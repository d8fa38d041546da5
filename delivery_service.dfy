/** `DeliveryTrackingService` (app/modules/orders/services/delivery.py): read
    projections over an order's log (the timeline, the latest driver, the
    snapshot derived from the latest entry) and the delivery update that
    appends to that log. The snapshot goes through the Redis cache under
    `"delivery:<id>"`; the update never touches that key. */
module DeliveryService {
  import opened Common
  import opened Cache
  import opened Seqs
  import opened OrderModel
  import opened Store
  import opened DeliverySchemas

  const CachePrefix := "delivery"

  /** The key of one snapshot, built from `str(order_id)`. */
  function DeliveryKey(id: int): (key: string)
    ensures key == EntityKey(CachePrefix, id)
  {
    StringPartSameKey(CachePrefix, id);
    GenerateKey([Str(CachePrefix), Str(IntToString(id))])
  }

  // ---------------------------------------------------------------- timeline

  /** `log.details[key]` when the details carry the key; a `null` value
      reads as absent, as Python's `None` does. */
  function Detail(log: OrderLog, key: string): (r: Option<Json>)
    ensures r.Some? <==> log.details.Some? && key in log.details.value && log.details.value[key] != JNull
    ensures r.Some? ==> r.value == log.details.value[key]
  {
    if log.details.Some? then Field(JObject(log.details.value), key) else None
  }

  /** `_create_timeline_event`. The event's `status` is a required string,
      so an entry without a new status fails validation. */
  function TimelineEvent(log: OrderLog): (r: Result<DeliveryTimelineEvent, HttpError>)
  {
    if log.newStatus.None? then Err(InternalError)
    else
      Ok(DeliveryTimelineEvent(
        log.createdAt, log.eventType, Detail(log, "location"),
        if log.notes.Some? then log.notes.value else "",
        log.newStatus.value, Detail(log, "driver"), Detail(log, "cylinders")))
  }

  /** The list comprehension over the order's entries: one event per entry,
      in order, or the failure of the first entry that cannot be converted. */
  function TimelineEvents(logs: seq<OrderLog>): (r: Result<seq<DeliveryTimelineEvent>, HttpError>)
    ensures r.Ok? <==> forall k :: 0 <= k < |logs| ==> logs[k].newStatus.Some?
    ensures r.Err? ==> r.error == InternalError
    ensures r.Ok? ==> |r.value| == |logs|
    ensures r.Ok? ==>
      forall k :: 0 <= k < |logs| ==>
        var e := r.value[k];
        e.timestamp == logs[k].createdAt && e.eventType == logs[k].eventType
        && e.status == logs[k].newStatus.value
        && e.description == (if logs[k].notes.Some? then logs[k].notes.value else "")
        && e.location == Detail(logs[k], "location") && e.driverInfo == Detail(logs[k], "driver")
        && e.cylindersInfo == Detail(logs[k], "cylinders")
    decreases |logs|
  {
    if logs == [] then Ok([])
    else
      var head := TimelineEvent(logs[0]);
      var tail := TimelineEvents(logs[1..]);
      assert forall k :: 1 <= k < |logs| ==> logs[k] == logs[1..][k - 1];
      if head.Err? then Err(head.error)
      else if tail.Err? then Err(tail.error)
      else Ok([head.value] + tail.value)
  }

  /** Events taken from entries stamped in commit order are in strictly
      increasing time order. */
  lemma TimelineAscending(logs: seq<OrderLog>)
    requires Ordered(logs, LogBefore)
    requires TimelineEvents(logs).Ok?
    ensures var es := TimelineEvents(logs).value;
            forall i, j :: 0 <= i < j < |es| ==> es[i].timestamp < es[j].timestamp
  {
    var es := TimelineEvents(logs).value;
    forall i, j | 0 <= i < j < |es|
      ensures es[i].timestamp < es[j].timestamp
    {
      assert LogBefore(logs[i], logs[j]);
    }
  }

  /** `log.details and "driver" in log.details`: the scan stops at the first
      such entry from the end, even when its driver value is `null`. */
  predicate HasDriver(log: OrderLog)
  {
    log.details.Some? && "driver" in log.details.value
  }

  /** The position of the last entry that names a driver. */
  function LastDriverIndex(logs: seq<OrderLog>): (r: Option<nat>)
    ensures r.Some? ==> r.value < |logs| && HasDriver(logs[r.value])
    ensures r.Some? ==> forall k :: r.value < k < |logs| ==> !HasDriver(logs[k])
    ensures r.None? ==> forall k :: 0 <= k < |logs| ==> !HasDriver(logs[k])
    decreases |logs|
  {
    if logs == [] then None
    else if HasDriver(logs[|logs| - 1]) then Some(|logs| - 1)
    else
      var init := logs[..|logs| - 1];
      assert forall k :: 0 <= k < |init| ==> init[k] == logs[k];
      LastDriverIndex(init)
  }

  /** The `latest_driver` the scan leaves: that entry's driver value, or
      `None` when no entry names one. */
  function LatestDriver(logs: seq<OrderLog>): Json
  {
    var i := LastDriverIndex(logs);
    if i.Some? then logs[i.value].details.value["driver"] else JNull
  }

  /** Appending an entry that names a driver makes it the latest; appending
      one that does not leaves the latest driver as it was. */
  lemma LatestDriverSnoc(logs: seq<OrderLog>, log: OrderLog)
    ensures HasDriver(log) ==> LatestDriver(logs + [log]) == log.details.value["driver"]
    ensures !HasDriver(log) ==> LatestDriver(logs + [log]) == LatestDriver(logs)
  {
    var s := logs + [log];
    assert s[|s| - 1] == log;
    if !HasDriver(log) {
      assert s[..|s| - 1] == logs;
    }
  }

  /** The reverse scan with `break` of `get_delivery_timeline`. */
  method FindLatestDriver(logs: seq<OrderLog>) returns (latest: Json)
    ensures latest == LatestDriver(logs)
  {
    latest := JNull;
    var i := |logs|;
    while i > 0
      invariant 0 <= i <= |logs|
      invariant forall k :: i <= k < |logs| ==> !HasDriver(logs[k])
      decreases i
    {
      i := i - 1;
      if HasDriver(logs[i]) {
        latest := logs[i].details.value["driver"];
        return;
      }
    }
    assert LastDriverIndex(logs).None?;
  }

  /** `driver.get(key) if driver else None`, read into an `Optional[str]`
      field: `Some(None)` for an absent driver, `None` (invalid) when the
      driver is not an object or the value is not a string. */
  function DriverField(driver: Json, key: string): (r: Option<Option<string>>)
    ensures !JsonTruthy(driver) ==> r == Some(None)
    ensures r.Some? && r.value.Some? ==>
      driver.JObject? && key in driver.fields && driver.fields[key] == JStr(r.value.value)
  {
    if !JsonTruthy(driver) then Some(None)
    else if driver.JObject? then OptStrField(driver.fields, key)
    else None
  }

  /** The timeline of an existing order, from its entries oldest first. */
  function TimelineOf(order: Order, mine: seq<OrderLog>): (r: Result<DeliveryTimeline, HttpError>)
    ensures r.Ok? <==>
      TimelineEvents(mine).Ok? && DriverField(LatestDriver(mine), "name").Some?
      && DriverField(LatestDriver(mine), "phone").Some?
    ensures r.Err? ==> r.error == InternalError
  {
    var events := TimelineEvents(mine);
    var driver := LatestDriver(mine);
    var name := DriverField(driver, "name");
    var phone := DriverField(driver, "phone");
    if events.Err? || name.None? || phone.None? then Err(InternalError)
    else
      Ok(DeliveryTimeline(order.id, order.status, events.value, order.expectedDelivery, name.value, phone.value,
                          |order.cylinders|, order.cylindersSent))
  }

  // ---------------------------------------------------------------- snapshot

  /** `latest_log.details.get("driver", {}).get(key)`: a missing driver reads
      as an empty object, a driver that is not an object fails. */
  function SnapshotDriverField(details: map<string, Json>, key: string): (r: Option<Option<string>>)
    ensures "driver" !in details ==> r == Some(None)
    ensures r.Some? && r.value.Some? ==>
      "driver" in details && details["driver"].JObject? && key in details["driver"].fields
      && details["driver"].fields[key] == JStr(r.value.value)
    ensures r.None? <==>
      "driver" in details
      && (details["driver"].JObject? ==>
            key in details["driver"].fields && !details["driver"].fields[key].JNull?
            && !details["driver"].fields[key].JStr?)
  {
    var driver := if "driver" in details then details["driver"] else JObject(map[]);
    if driver.JObject? then OptStrField(driver.fields, key) else None
  }

  /** The snapshot `get_delivery_status` derives on a miss, from the order
      and its entries oldest first; the latest entry is the last one. The
      required `eta` and `last_updated` fail validation when they are
      missing. */
  function StatusOf(order: Order, mine: seq<OrderLog>): (r: Result<DeliveryStatus, HttpError>)
    ensures order.expectedDelivery.None? ==> r == Err(InternalError)
    ensures mine == [] ==> (r.Ok? <==> order.expectedDelivery.Some? && order.updatedAt.Some?)
    ensures r.Err? ==> r.error == InternalError
    ensures r.Ok? ==>
      r.value.orderId == order.id && r.value.status == StatusName(order.status)
      && r.value.eta == order.expectedDelivery.value && r.value.cylindersLoaded == |order.cylinders|
    ensures r.Ok? && mine != [] ==>
      r.value.lastUpdated == mine[|mine| - 1].createdAt && r.value.notes == mine[|mine| - 1].notes
    ensures r.Ok? && mine == [] ==>
      r.value.lastUpdated == order.updatedAt.value && r.value.notes.None? && r.value.currentLocation.None?
      && r.value.driverName.None? && r.value.driverPhone.None?
    ensures mine != [] && mine[|mine| - 1].details.None? ==>
      (r.Ok? <==> order.expectedDelivery.Some?)
      && (r.Ok? ==> r.value.driverName.None? && r.value.driverPhone.None? && r.value.currentLocation.None?)
    ensures mine != [] && mine[|mine| - 1].details.Some? ==>
      var d := mine[|mine| - 1].details.value;
      (r.Ok? <==>
         order.expectedDelivery.Some? && SnapshotDriverField(d, "name").Some?
         && SnapshotDriverField(d, "phone").Some? && OptStrField(d, "location").Some?)
      && (r.Ok? ==>
            Some(r.value.driverName) == SnapshotDriverField(d, "name")
            && Some(r.value.driverPhone) == SnapshotDriverField(d, "phone")
            && Some(r.value.currentLocation) == OptStrField(d, "location"))
  {
    var latest: Option<OrderLog> := if mine == [] then None else Some(mine[|mine| - 1]);
    var details := if latest.Some? then latest.value.details else None;
    var name := if details.Some? then SnapshotDriverField(details.value, "name") else Some(None);
    var phone := if details.Some? then SnapshotDriverField(details.value, "phone") else Some(None);
    var location := if details.Some? then OptStrField(details.value, "location") else Some(None);
    var lastUpdated: Option<Timestamp> := if latest.Some? then Some(latest.value.createdAt) else order.updatedAt;
    if order.expectedDelivery.None? || lastUpdated.None? || name.None? || phone.None? || location.None? then
      Err(InternalError)
    else
      Ok(DeliveryStatus(order.id, StatusName(order.status), order.expectedDelivery.value, location.value,
                        lastUpdated.value, name.value, phone.value, |order.cylinders|,
                        if latest.Some? then latest.value.notes else None))
  }

  /** The last of an order's entries is its newest: no entry of that order
      in the log is stamped later (`ORDER BY created_at DESC LIMIT 1`). */
  lemma LastIsNewest(logs: seq<OrderLog>, orderId: nat)
    requires Ordered(logs, LogBefore)
    requires LogsOfOrder(logs, orderId) != []
    ensures var mine := LogsOfOrder(logs, orderId);
            var latest := mine[|mine| - 1];
            latest in logs && latest.orderId == orderId
            && forall l :: l in logs && l.orderId == orderId ==> l.createdAt <= latest.createdAt
  {
    var mine := LogsOfOrder(logs, orderId);
    var latest := mine[|mine| - 1];
    LogsOfOrderAscending(logs, orderId);
    assert latest in mine;
    forall l | l in logs && l.orderId == orderId
      ensures l.createdAt <= latest.createdAt
    {
      assert l in mine;
      var k :| 0 <= k < |mine| && mine[k] == l;
      if k < |mine| - 1 {
        assert LogBefore(mine[k], mine[|mine| - 1]);
      }
    }
  }

  /** One entry appended for an order extends that order's entries by it
      and leaves every other order's entries as they were. */
  lemma LogsOfOrderSnoc(logs: seq<OrderLog>, log: OrderLog, orderId: nat)
    ensures LogsOfOrder(logs + [log], orderId) ==
            LogsOfOrder(logs, orderId) + (if log.orderId == orderId then [log] else [])
  {
    FilterSnoc(logs, log, (l: OrderLog) => l.orderId == orderId);
  }

  // ---------------------------------------------------------------- update

  /** The delivery-phase guard as written: building the list of allowed
      statuses reads `OrderStatus.OUT_FOR_DELIVERY`, a member the enumeration
      does not have, so every update of an existing order raises. */
  function DeliveryGuardAsWritten(status: OrderStatus): (r: Result<(), HttpError>)
    ensures r == Err(InternalError)
  {
    Err(InternalError)
  }

  /** The guard as evidently intended: the order must be accepted or in
      transit (the two listed members that exist). */
  function DeliveryGuard(status: OrderStatus): (r: Result<(), HttpError>)
    ensures r.Ok? <==> status == OrderStatus.Accepted || status == OrderStatus.InTransit
    ensures r.Err? ==> r.error == HttpError(400, "Order is not in delivery phase")
  {
    if status == OrderStatus.Accepted || status == OrderStatus.InTransit then Ok(())
    else Err(HttpError(400, "Order is not in delivery phase"))
  }

  /** An accepted order: the code as written refuses to update it, the
      corrected guard lets it through; both refuse a delivered one. */
  lemma DeliveryGuardAccepted()
    ensures DeliveryGuardAsWritten(OrderStatus.Accepted).Err?
    ensures DeliveryGuard(OrderStatus.Accepted).Ok?
    ensures DeliveryGuard(OrderStatus.Delivered).Err?
  {
  }

  /** What `update_delivery_status` decides before it writes: the order must
      exist and be in its delivery phase, and the new status string must be
      the value or the name of an order status (the enum column refuses any
      other string at the commit). */
  function UpdateCheck(orders: map<nat, Order>, orderId: nat, u: DeliveryUpdate): (r: Result<OrderStatus, HttpError>)
    ensures orderId !in orders ==> r == Err(HttpError(404, "Order not found"))
    ensures orderId in orders && DeliveryGuard(orders[orderId].status).Err? ==>
      r == Err(HttpError(400, "Order is not in delivery phase"))
    ensures r.Ok? <==>
      orderId in orders && DeliveryGuard(orders[orderId].status).Ok? && ColumnStatus(u.status).Some?
    ensures r.Ok? ==> StatusName(r.value) == u.status || StatusMemberName(r.value) == u.status
  {
    if orderId !in orders then Err(HttpError(404, "Order not found"))
    else if DeliveryGuard(orders[orderId].status).Err? then Err(HttpError(400, "Order is not in delivery phase"))
    else if ColumnStatus(u.status).None? then Err(InternalError)
    else Ok(ColumnStatus(u.status).value)
  }

  /** On an order in its delivery phase, a status given by its member name
      is accepted like its value, and a string that is neither is refused. */
  lemma UpdateCheckStatusSpelling(orders: map<nat, Order>, orderId: nat, u: DeliveryUpdate)
    requires orderId in orders && DeliveryGuard(orders[orderId].status).Ok?
    ensures u.status == "IN_TRANSIT" ==> UpdateCheck(orders, orderId, u) == Ok(InTransit)
    ensures u.status == "in_transit" ==> UpdateCheck(orders, orderId, u) == Ok(InTransit)
    ensures u.status == "In_Transit" ==> UpdateCheck(orders, orderId, u) == Err(InternalError)
  {
    ColumnStatusAcceptsBoth(InTransit);
    if u.status == "In_Transit" {
      assert ColumnStatus(u.status).None?;
    }
  }

  /** `if driver_info:`: a driver object that is given and not empty. */
  predicate DriverGiven(driverInfo: Option<map<string, Json>>)
  {
    driverInfo.Some? && driverInfo.value != map[]
  }

  /** The `details` of the delivery entry: the reported location and the
      update itself, plus the driver when one is given. */
  function UpdateDetails(u: DeliveryUpdate, driverInfo: Option<map<string, Json>>): (d: map<string, Json>)
    ensures d.Keys == {"location", "status_update"} + (if DriverGiven(driverInfo) then {"driver"} else {})
    ensures d["location"] == OptStr(u.currentLocation) && d["status_update"] == StatusUpdateJson(u)
    ensures DriverGiven(driverInfo) ==> d["driver"] == JObject(driverInfo.value)
  {
    var base := map["location" := OptStr(u.currentLocation), "status_update" := StatusUpdateJson(u)];
    if DriverGiven(driverInfo) then base["driver" := JObject(driverInfo.value)] else base
  }

  /** The entry `update_delivery_status` appends: a delivery update with no
      old or new status and no notes. */
  function DeliveryLog(orderId: nat, u: DeliveryUpdate, userId: nat, driverInfo: Option<map<string, Json>>): OrderLogCreate
  {
    OrderLogCreate(orderId, DeliveryUpdateEvent, None, None, Some(UpdateDetails(u, driverInfo)), None, userId)
  }

  /** The order after the update: the new status, and the ETA only when one
      is supplied. */
  function UpdatedOrder(before: Order, status: OrderStatus, eta: Option<Timestamp>): (o: Order)
    ensures o.status == status && o.id == before.id && o.createdAt == before.createdAt
    ensures o.expectedDelivery == if eta.Some? then eta else before.expectedDelivery
    ensures o.cylinders == before.cylinders && o.cylindersSent == before.cylindersSent
  {
    before.(status := status, expectedDelivery := if eta.Some? then eta else before.expectedDelivery)
  }

  /** A fresh snapshot after an update reports the new status, the reported
      location, the entry's time and no notes. Its driver is the one this
      update named, and none when the update named no driver, since the
      snapshot reads only the newest entry. */
  lemma SnapshotAfterUpdate(o: Order, mine: seq<OrderLog>, u: DeliveryUpdate, status: OrderStatus,
                            driverInfo: Option<map<string, Json>>, log: OrderLog)
    requires o.status == status && o.expectedDelivery.Some?
    requires log.details == Some(UpdateDetails(u, driverInfo)) && log.notes.None?
    ensures var r := StatusOf(o, mine + [log]);
            var name := if DriverGiven(driverInfo) then OptStrField(driverInfo.value, "name") else Some(None);
            var phone := if DriverGiven(driverInfo) then OptStrField(driverInfo.value, "phone") else Some(None);
            (r.Ok? <==> name.Some? && phone.Some?)
            && (r.Ok? ==>
                  r.value.status == StatusName(status) && r.value.currentLocation == u.currentLocation
                  && r.value.lastUpdated == log.createdAt && r.value.notes.None?
                  && r.value.driverName == name.value && r.value.driverPhone == phone.value)
  {
    var s := mine + [log];
    assert s != [] && s[|s| - 1] == log;
    var d := UpdateDetails(u, driverInfo);
    assert OptStrField(d, "location") == Some(u.currentLocation);
  }

  /** An entry without a new status, such as the one the delivery update
      appends, makes the order's timeline fail validation from then on. */
  lemma StatuslessEntryBreaksTimeline(mine: seq<OrderLog>, log: OrderLog)
    requires log.newStatus.None?
    ensures TimelineEvents(mine + [log]).Err?
  {
    var s := mine + [log];
    assert s[|s| - 1] == log;
  }

  // ---------------------------------------------------------------- service

  class DeliveryTrackingService {
    const db: Database
    const cache: RedisCache<Json>

    constructor (db: Database, cache: RedisCache<Json>)
      ensures this.db == db && this.cache == cache
    {
      this.db := db;
      this.cache := cache;
    }

    /** `_cache_delivery_status`, storing the snapshot's JSON form. */
    method CacheDeliveryStatus(s: DeliveryStatus)
      modifies cache
      ensures cache.entries == old(cache.entries)[DeliveryKey(s.orderId) := StatusJson(s)]
    {
      cache.Set([Str(CachePrefix), Str(IntToString(s.orderId))], StatusJson(s));
    }

    /** `get_delivery_status`: a cached snapshot is read back without the
      store; on a miss an unknown order is not found, and an existing one
      gets the snapshot of its newest entry, which is then cached. */
    method GetDeliveryStatus(orderId: nat) returns (r: Result<DeliveryStatus, HttpError>)
      requires db.Valid()
      modifies cache
      ensures DeliveryKey(orderId) in old(cache.entries) ==>
        r == ParseDeliveryStatus(old(cache.entries)[DeliveryKey(orderId)]) && cache.entries == old(cache.entries)
      ensures DeliveryKey(orderId) !in old(cache.entries) && orderId !in db.orders ==>
        r == Err(HttpError(404, "Order not found")) && cache.entries == old(cache.entries)
      ensures DeliveryKey(orderId) !in old(cache.entries) && orderId in db.orders ==>
        r == StatusOf(db.orders[orderId], LogsOfOrder(db.orderLogs, orderId))
        && cache.entries == if r.Ok? then old(cache.entries)[DeliveryKey(orderId) := StatusJson(r.value)]
                            else old(cache.entries)
    {
      var cached := cache.Get([Str(CachePrefix), Str(IntToString(orderId))]);
      if cached.Some? {
        return ParseDeliveryStatus(cached.value);
      }
      if orderId !in db.orders {
        return Err(HttpError(404, "Order not found"));
      }
      r := StatusOf(db.orders[orderId], LogsOfOrder(db.orderLogs, orderId));
      if r.Ok? {
        CacheDeliveryStatus(r.value);
      }
    }

    /** Reading the snapshot twice: once the first read succeeds, the second
      is answered from the cache with the same snapshot. */
    method GetDeliveryStatusTwice(orderId: nat) returns (first: Result<DeliveryStatus, HttpError>,
                                                         second: Result<DeliveryStatus, HttpError>)
      requires db.Valid()
      requires DeliveryKey(orderId) !in cache.entries
      modifies cache
      ensures first.Ok? ==> second == first
    {
      first := GetDeliveryStatus(orderId);
      if first.Ok? {
        SnapshotRoundTrip(first.value);
      }
      second := GetDeliveryStatus(orderId);
    }

    /** `update_delivery_status` (the reachable part, with the corrected
      guard): an unknown order is not found and an order outside its delivery
      phase is refused, with nothing changed; otherwise the order takes the
      new status and the supplied ETA and one delivery entry is logged. The
      cached snapshot is left as it was. */
    method UpdateDeliveryStatus(orderId: nat, update: DeliveryUpdate, userId: nat,
                                driverInfo: Option<map<string, Json>>) returns (r: Result<(), HttpError>)
      requires db.Valid()
      modifies db
      ensures db.Valid()
      ensures r.Err? ==> UpdateCheck(old(db.orders), orderId, update) == Err(r.error) && unchanged(db)
      ensures r.Ok? <==> UpdateCheck(old(db.orders), orderId, update).Ok?
      ensures r.Ok? ==>
        var before := old(db.orders)[orderId];
        var o := Touch(before, UpdatedOrder(before, UpdateCheck(old(db.orders), orderId, update).value, update.eta),
                       old(db.clock));
        db.orders == old(db.orders)[orderId := o]
        && db.orderLogs == old(db.orderLogs) + [OrderModel.StampLog(DeliveryLog(orderId, update, userId, driverInfo),
                                                                    |old(db.orderLogs)| + 1, old(db.clock))]
        && db.clock == old(db.clock) + 1
      ensures db.users == old(db.users) && db.cylinders == old(db.cylinders) && db.cylinderLogs == old(db.cylinderLogs)
      ensures db.nextOrderId == old(db.nextOrderId) && db.nextCylinderId == old(db.nextCylinderId)
    {
      var check := UpdateCheck(db.orders, orderId, update);
      if check.Err? {
        return Err(check.error);
      }
      var order := db.orders[orderId];
      var o := Touch(order, UpdatedOrder(order, check.value, update.eta), db.clock);
      db.PutOrder(o);
      var _ := db.AddOrderLog(DeliveryLog(orderId, update, userId, driverInfo));
      r := Ok(());
    }

    /** `get_delivery_timeline`: an unknown order is not found; otherwise one
      event per entry of the order, oldest first, with the driver of the
      last entry that names one and the order's own counters. */
    method GetDeliveryTimeline(orderId: nat) returns (r: Result<DeliveryTimeline, HttpError>)
      requires db.Valid()
      ensures orderId !in db.orders ==> r == Err(HttpError(404, "Order not found"))
      ensures orderId in db.orders ==> r == TimelineOf(db.orders[orderId], LogsOfOrder(db.orderLogs, orderId))
      ensures r.Ok? ==>
        var order := db.orders[orderId];
        var mine := LogsOfOrder(db.orderLogs, orderId);
        r.value.orderId == orderId && r.value.currentStatus == order.status
        && r.value.eta == order.expectedDelivery && r.value.cylindersLoaded == |order.cylinders|
        && r.value.cylindersDelivered == order.cylindersSent
        && |r.value.events| == |mine|
        && (forall k :: 0 <= k < |mine| ==> r.value.events[k].timestamp == mine[k].createdAt)
        && (forall i, j :: 0 <= i < j < |mine| ==> r.value.events[i].timestamp < r.value.events[j].timestamp)
        && r.value.driverName == DriverField(LatestDriver(mine), "name").value
        && r.value.driverPhone == DriverField(LatestDriver(mine), "phone").value
    {
      if orderId !in db.orders {
        return Err(HttpError(404, "Order not found"));
      }
      var order := db.orders[orderId];
      assert order.id == orderId;
      var logs := LogsOfOrder(db.orderLogs, orderId);
      var events := TimelineEvents(logs);
      var latest := FindLatestDriver(logs);
      var name := DriverField(latest, "name");
      var phone := DriverField(latest, "phone");
      if events.Err? || name.None? || phone.None? {
        return Err(InternalError);
      }
      LogsOfOrderAscending(db.orderLogs, orderId);
      TimelineAscending(logs);
      r := Ok(DeliveryTimeline(order.id, order.status, events.value, order.expectedDelivery, name.value, phone.value,
                               |order.cylinders|, order.cylindersSent));
    }
  }
}
