/** The delivery-tracking schemas (app/modules/orders/schemas/delivery.py)
    and their JSON forms. */
module DeliverySchemas {
  import opened Common
  import opened OrderModel

  /** `DeliveryStatus`: the snapshot of one delivery. `eta` and
      `last_updated` are required. */
  datatype DeliveryStatus = DeliveryStatus(
    orderId: int,
    status: string,
    eta: Timestamp,
    currentLocation: Option<string>,
    lastUpdated: Timestamp,
    driverName: Option<string>,
    driverPhone: Option<string>,
    cylindersLoaded: int,
    notes: Option<string>)

  /** `DeliveryUpdate`: `status` is a free string. */
  datatype DeliveryUpdate = DeliveryUpdate(
    eta: Option<Timestamp>,
    currentLocation: Option<string>,
    status: string,
    notes: Option<string>)

  /** `DeliveryTimelineEvent`. `status` is required; the three detail fields
      are assigned after construction, which pydantic does not validate, so
      they hold whatever JSON the log carried. */
  datatype DeliveryTimelineEvent = DeliveryTimelineEvent(
    timestamp: nat,
    eventType: OrderEventType,
    location: Option<Json>,
    description: string,
    status: OrderStatus,
    driverInfo: Option<Json>,
    cylindersInfo: Option<Json>)

  /** `DeliveryTimeline`. */
  datatype DeliveryTimeline = DeliveryTimeline(
    orderId: nat,
    currentStatus: OrderStatus,
    events: seq<DeliveryTimelineEvent>,
    eta: Option<Timestamp>,
    driverName: Option<string>,
    driverPhone: Option<string>,
    cylindersLoaded: nat,
    cylindersDelivered: int)

  /** An `Optional[str]` field read from a JSON object: `Some(None)` when the
      key is missing or null, `Some(Some(s))` for a string, `None` (invalid)
      for anything else. */
  function OptStrField(fields: map<string, Json>, key: string): (r: Option<Option<string>>)
    ensures r == Some(None) <==> key !in fields || fields[key] == JNull
    ensures r.Some? && r.value.Some? <==> key in fields && fields[key].JStr?
    ensures r.Some? && r.value.Some? ==> fields[key] == JStr(r.value.value)
  {
    if key !in fields || fields[key] == JNull then Some(None)
    else if fields[key].JStr? then Some(Some(fields[key].s))
    else None
  }

  /** The snapshot in its JSON form, `model_dump(mode="json")`. */
  function StatusJson(s: DeliveryStatus): (j: Json)
    ensures j.JObject? && j.fields.Keys == {"order_id", "status", "eta", "current_location", "last_updated",
                                            "driver_name", "driver_phone", "cylinders_loaded", "notes"}
  {
    JObject(map[
      "order_id" := JInt(s.orderId),
      "status" := JStr(s.status),
      "eta" := TimeJson(s.eta),
      "current_location" := OptStr(s.currentLocation),
      "last_updated" := TimeJson(s.lastUpdated),
      "driver_name" := OptStr(s.driverName),
      "driver_phone" := OptStr(s.driverPhone),
      "cylinders_loaded" := JInt(s.cylindersLoaded),
      "notes" := OptStr(s.notes)])
  }

  /** `DeliveryStatus(**data)`: the required fields must be present with the
      right type, the optional ones may be missing or null. */
  function ParseDeliveryStatus(j: Json): (r: Result<DeliveryStatus, HttpError>)
    ensures !j.JObject? ==> r == Err(InternalError)
    ensures r.Ok? ==> "order_id" in j.fields && j.fields["order_id"] == JInt(r.value.orderId)
    ensures r.Ok? ==> "eta" in j.fields && j.fields["eta"] == TimeJson(r.value.eta)
    ensures r.Ok? ==> "last_updated" in j.fields && j.fields["last_updated"] == TimeJson(r.value.lastUpdated)
  {
    if !j.JObject? then Err(InternalError)
    else
      var f := j.fields;
      var location := OptStrField(f, "current_location");
      var driverName := OptStrField(f, "driver_name");
      var driverPhone := OptStrField(f, "driver_phone");
      var notes := OptStrField(f, "notes");
      if "order_id" in f && f["order_id"].JInt? && "status" in f && f["status"].JStr?
         && "eta" in f && f["eta"].JInt? && "last_updated" in f && f["last_updated"].JInt?
         && "cylinders_loaded" in f && f["cylinders_loaded"].JInt?
         && location.Some? && driverName.Some? && driverPhone.Some? && notes.Some?
      then
        Ok(DeliveryStatus(f["order_id"].i, f["status"].s, f["eta"].i, location.value, f["last_updated"].i,
                          driverName.value, driverPhone.value, f["cylinders_loaded"].i, notes.value))
      else Err(InternalError)
  }

  /** Reading back the JSON form of a snapshot gives the same snapshot, so a
      cache hit returns what the miss computed. */
  lemma {:induction false} SnapshotRoundTrip(s: DeliveryStatus)
    ensures ParseDeliveryStatus(StatusJson(s)) == Ok(s)
  {
    var f := StatusJson(s).fields;
    assert OptStrField(f, "current_location") == Some(s.currentLocation);
    assert OptStrField(f, "driver_name") == Some(s.driverName);
    assert OptStrField(f, "driver_phone") == Some(s.driverPhone);
    assert OptStrField(f, "notes") == Some(s.notes);
  }

  /** The `status_update` detail as the model writes it: `update.model_dump()`
      with the ETA in its JSON form. */
  function StatusUpdateJson(u: DeliveryUpdate): (j: Json)
    ensures j.JObject? && j.fields.Keys == {"eta", "current_location", "status", "notes"}
    ensures j.fields["eta"] == (if u.eta.Some? then TimeJson(u.eta.value) else JNull)
    ensures j.fields["status"] == JStr(u.status)
  {
    JObject(map[
      "eta" := if u.eta.Some? then TimeJson(u.eta.value) else JNull,
      "current_location" := OptStr(u.currentLocation),
      "status" := JStr(u.status),
      "notes" := OptStr(u.notes)])
  }

  /** Distinct updates leave distinct `status_update` details. */
  lemma StatusUpdateJsonInjective(u: DeliveryUpdate, v: DeliveryUpdate)
    requires StatusUpdateJson(u) == StatusUpdateJson(v)
    ensures u == v
  {
    var f, g := StatusUpdateJson(u).fields, StatusUpdateJson(v).fields;
    assert f["current_location"] == g["current_location"] && f["notes"] == g["notes"];
    assert f["eta"] == g["eta"];
  }

  /** The same detail as written: `model_dump()` keeps the ETA a `datetime`,
      which the JSON column's `json.dumps` cannot serialise, so the commit
      fails whenever an ETA is supplied. */
  function StatusUpdateAsWritten(u: DeliveryUpdate): (r: Result<Json, HttpError>)
    ensures r.Err? <==> u.eta.Some?
    ensures r.Ok? ==> r.value == StatusUpdateJson(u)
  {
    if u.eta.Some? then Err(InternalError) else Ok(StatusUpdateJson(u))
  }

  /** An update with an ETA: the code as written fails, the corrected detail
      records the ETA. */
  lemma StatusUpdateWithEta()
    ensures StatusUpdateAsWritten(DeliveryUpdate(Some(7), None, "in_transit", None)).Err?
    ensures StatusUpdateJson(DeliveryUpdate(Some(7), None, "in_transit", None)).fields["eta"] == TimeJson(7)
  {
  }

  /** `_cache_delivery_status` as written: `json.dumps(status.model_dump())`
      meets the `datetime` values of the two required time fields and raises. */
  function CacheSnapshotAsWritten(s: DeliveryStatus): (r: Result<Json, HttpError>)
    ensures r.Err?
  {
    Err(InternalError)
  }

  /** Caching any snapshot fails as written, while its JSON form reads back
      to the same snapshot. */
  lemma CacheSnapshotFails(s: DeliveryStatus)
    ensures CacheSnapshotAsWritten(s).Err?
    ensures ParseDeliveryStatus(StatusJson(s)) == Ok(s)
  {
    SnapshotRoundTrip(s);
  }
}
