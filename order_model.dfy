/** Orders and their log (app/modules/orders/models.py, enums.py and
    schemas.py). */
module OrderModel {
  import opened Common

  datatype OrderStatus = Pending | Accepted | InTransit | Delivered | Cancelled

  datatype OrderUrgency = Low | Medium | High | Critical

  /** The order event kinds of app/modules/orders/enums.py, plus
      `DeliveryUpdateEvent`: the delivery tracker logs
      `OrderEventType.DELIVERY_UPDATE`, a member that enumeration does not
      have, so the model gives that kind a constructor of its own. */
  datatype OrderEventType =
    | Created
    | StatusChanged
    | VendorAssigned
    | CylindersAssigned
    | CylindersUpdated
    | Cancelled
    | Completed
    | DeliveryUpdateEvent

  /** The enumeration's string value, as JSON payloads carry it. */
  function StatusName(s: OrderStatus): string
  {
    match s
    case Pending => "pending"
    case Accepted => "accepted"
    case InTransit => "in_transit"
    case Delivered => "delivered"
    case Cancelled => "cancelled"
  }

  /** The member whose value is `name`, as the enumeration's lookup by value
      (and the database's enum column) resolves a string. */
  function ParseStatus(name: string): (r: Option<OrderStatus>)
    ensures r.Some? ==> StatusName(r.value) == name
  {
    if name == "pending" then Some(Pending)
    else if name == "accepted" then Some(Accepted)
    else if name == "in_transit" then Some(InTransit)
    else if name == "delivered" then Some(Delivered)
    else if name == "cancelled" then Some(OrderStatus.Cancelled)
    else None
  }

  /** Every status is found again from its value, so the values are distinct. */
  lemma ParseStatusName(s: OrderStatus)
    ensures ParseStatus(StatusName(s)) == Some(s)
  {
  }

  /** The Python name of a member (`OrderStatus.IN_TRANSIT`). */
  function StatusMemberName(s: OrderStatus): string
  {
    match s
    case Pending => "PENDING"
    case Accepted => "ACCEPTED"
    case InTransit => "IN_TRANSIT"
    case Delivered => "DELIVERED"
    case Cancelled => "CANCELLED"
  }

  /** The member a string written to the `SQLAlchemyEnum(OrderStatus)` column
      resolves to. The column's lookup holds the members and their names;
      a member of this `str` enumeration equals its value, so both the value
      and the name of a member are accepted, and any other string is not. */
  function ColumnStatus(name: string): (r: Option<OrderStatus>)
    ensures r.Some? ==> StatusName(r.value) == name || StatusMemberName(r.value) == name
    ensures r.None? <==> forall s: OrderStatus :: StatusName(s) != name && StatusMemberName(s) != name
  {
    if ParseStatus(name).Some? then ParseStatus(name)
    else if name == "PENDING" then Some(Pending)
    else if name == "ACCEPTED" then Some(Accepted)
    else if name == "IN_TRANSIT" then Some(InTransit)
    else if name == "DELIVERED" then Some(Delivered)
    else if name == "CANCELLED" then Some(OrderStatus.Cancelled)
    else None
  }

  /** The column resolves both the value and the name of every member to
      that member. */
  lemma ColumnStatusAcceptsBoth(s: OrderStatus)
    ensures ColumnStatus(StatusName(s)) == Some(s)
    ensures ColumnStatus(StatusMemberName(s)) == Some(s)
  {
    ParseStatusName(s);
  }

  /** An order row (the second, effective column block of the model).
      `cylinders` is the order's side of the `order_cylinders` association
      table, whose primary key makes it a set of cylinder ids. */
  datatype Order = Order(
    id: nat,
    hospitalId: nat,
    vendorId: Option<nat>,
    status: OrderStatus,
    urgency: OrderUrgency,
    quantity: int,
    deliveryLocation: Location,
    specialInstructions: Option<string>,
    cylindersSent: int,
    emptyCylindersReturned: int,
    createdAt: nat,
    updatedAt: Option<nat>,
    expectedDelivery: Option<Timestamp>,
    deliveredAt: Option<Timestamp>,
    cylinders: set<nat>)

  /** An `order_logs` row; `details` is the nullable free-form JSON payload. */
  datatype OrderLog = OrderLog(
    id: nat,
    orderId: nat,
    eventType: OrderEventType,
    oldStatus: Option<OrderStatus>,
    newStatus: Option<OrderStatus>,
    details: Option<map<string, Json>>,
    notes: Option<string>,
    createdBy: nat,
    createdAt: nat)

  /** `OrderLogCreate`: a log entry before the store numbers and stamps it. */
  datatype OrderLogCreate = OrderLogCreate(
    orderId: nat,
    eventType: OrderEventType,
    oldStatus: Option<OrderStatus>,
    newStatus: Option<OrderStatus>,
    details: Option<map<string, Json>>,
    notes: Option<string>,
    createdBy: nat)

  /** The row a log request becomes, with the given id and timestamp. */
  function StampLog(l: OrderLogCreate, id: nat, at: nat): (r: OrderLog)
    ensures r.id == id && r.createdAt == at && r.orderId == l.orderId && r.eventType == l.eventType
  {
    OrderLog(id, l.orderId, l.eventType, l.oldStatus, l.newStatus, l.details, l.notes, l.createdBy, at)
  }

  /** `OrderCreate`; its validators demand `quantity > 0`. */
  datatype OrderCreate = OrderCreate(
    quantity: int,
    urgency: OrderUrgency,
    deliveryLocation: Location,
    specialInstructions: Option<string>)

  /** The row `Order(hospital_id=..., **order_in.model_dump())` becomes once
      inserted under `id` at time `at`: pending, with no vendor, zero
      counters, no cylinders, and the column defaults elsewhere. */
  function NewOrder(id: nat, hospitalId: nat, o: OrderCreate, at: nat): Order
  {
    Order(id, hospitalId, None, Pending, o.urgency, o.quantity, o.deliveryLocation, o.specialInstructions, 0, 0,
          at, None, None, None, {})
  }

  /** `OrderDeliveryUpdate`. */
  datatype OrderDeliveryUpdate = OrderDeliveryUpdate(
    status: OrderStatus,
    cylindersSent: int,
    emptyCylindersReturned: int,
    deliveredAt: Option<Timestamp>,
    notes: Option<string>)

  function UrgencyName(u: OrderUrgency): string
  {
    match u
    case Low => "low"
    case Medium => "medium"
    case High => "high"
    case Critical => "critical"
  }

  function OptIdJson(x: Option<nat>): Json
  {
    if x.Some? then JInt(x.value) else JNull
  }

  /** The dictionary `_cache_order` stores (app/modules/orders/service.py:28-44). */
  function OrderJson(o: Order): (j: Json)
    ensures j.JObject? && "id" in j.fields && j.fields["id"] == JInt(o.id)
    ensures "status" in j.fields && j.fields["status"] == JStr(StatusName(o.status))
    ensures j.fields.Keys == {"id", "hospital_id", "vendor_id", "status", "urgency", "quantity", "delivery_location",
                              "cylinders_sent", "empty_cylinders_returned"}
  {
    JObject(map[
      "id" := JInt(o.id),
      "hospital_id" := JInt(o.hospitalId),
      "vendor_id" := OptIdJson(o.vendorId),
      "status" := JStr(StatusName(o.status)),
      "urgency" := JStr(UrgencyName(o.urgency)),
      "quantity" := JInt(o.quantity),
      "delivery_location" := LocationJson(o.deliveryLocation),
      "cylinders_sent" := JInt(o.cylindersSent),
      "empty_cylinders_returned" := JInt(o.emptyCylindersReturned)])
  }
}
