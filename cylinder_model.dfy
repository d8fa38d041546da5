/** Cylinders and their log (app/modules/cylinders/models.py, enums.py and
    schemas.py). */
module CylinderModel {
  import opened Common

  datatype CylinderStatus = Filled | InTransit | Empty | Returned

  datatype CylinderEventType = Created | StatusChanged | Assigned | Unassigned | LocationUpdated | Deleted

  /** A cylinder row. The serial number is unique across the table. The
      `is_assigned` column is nullable: `None` is SQL `NULL`, which no
      comparison with a boolean admits. */
  datatype Cylinder = Cylinder(
    id: nat,
    serialNumber: string,
    status: CylinderStatus,
    vendorId: nat,
    location: Option<Location>,
    isAssigned: Option<bool>,
    currentOrderId: Option<nat>)

  /** A `cylinder_logs` row; `createdAt` is the store's clock at insertion. */
  datatype CylinderLog = CylinderLog(
    id: nat,
    cylinderId: nat,
    eventType: CylinderEventType,
    oldStatus: Option<CylinderStatus>,
    newStatus: Option<CylinderStatus>,
    orderId: Option<nat>,
    location: Option<Location>,
    notes: Option<string>,
    createdBy: nat,
    createdAt: nat)

  /** `CylinderLogCreate`: a log entry before the store numbers and stamps it. */
  datatype CylinderLogCreate = CylinderLogCreate(
    cylinderId: nat,
    eventType: CylinderEventType,
    oldStatus: Option<CylinderStatus>,
    newStatus: Option<CylinderStatus>,
    orderId: Option<nat>,
    location: Option<Location>,
    notes: Option<string>,
    createdBy: nat)

  /** The row a log request becomes, with the given id and timestamp. */
  function StampLog(l: CylinderLogCreate, id: nat, at: nat): (r: CylinderLog)
    ensures r.id == id && r.createdAt == at && r.cylinderId == l.cylinderId && r.eventType == l.eventType
  {
    CylinderLog(id, l.cylinderId, l.eventType, l.oldStatus, l.newStatus, l.orderId, l.location, l.notes,
                l.createdBy, at)
  }

  /** `CylinderCreate`. */
  datatype CylinderCreate = CylinderCreate(serialNumber: string, location: Option<Location>, status: CylinderStatus)

  /** A `CylinderCreate` whose status was left out takes the default. */
  function CylinderCreateDefault(serialNumber: string, location: Option<Location>): (c: CylinderCreate)
    ensures c.status == Filled && c.serialNumber == serialNumber && c.location == location
  {
    CylinderCreate(serialNumber, location, Filled)
  }

  /** `CylinderUpdate`: every field optional. The outer `None` means "not
      supplied"; the inner `Option` is an explicit JSON null, which every
      field of the schema accepts and `model_dump(exclude_unset=True)`
      keeps. */
  datatype CylinderUpdate = CylinderUpdate(
    status: Option<Option<CylinderStatus>>,
    location: Option<Option<Location>>,
    isAssigned: Option<Option<bool>>,
    currentOrderId: Option<Option<nat>>)

  /** An explicit null for `status`, which the `NOT NULL` column refuses at
      the commit. */
  predicate NullStatus(u: CylinderUpdate)
  {
    u.status == Some(None)
  }

  /** The status an update supplies, when it supplies one that is not null. */
  function SuppliedStatus(u: CylinderUpdate): Option<CylinderStatus>
  {
    if u.status.Some? then u.status.value else None
  }

  /** One `(field, value)` item of `model_dump(exclude_unset=True)`. */
  datatype FieldValue =
    | SetStatus(status: CylinderStatus)
    | SetLocation(location: Option<Location>)
    | SetIsAssigned(isAssigned: Option<bool>)
    | SetCurrentOrderId(currentOrderId: Option<nat>)

  /** The supplied fields, in declaration order. A null status has no item:
      such an update never reaches the table (see `ApplyUpdate`). */
  function UpdateData(u: CylinderUpdate): seq<FieldValue>
  {
    (if SuppliedStatus(u).Some? then [SetStatus(SuppliedStatus(u).value)] else [])
    + (if u.location.Some? then [SetLocation(u.location.value)] else [])
    + (if u.isAssigned.Some? then [SetIsAssigned(u.isAssigned.value)] else [])
    + (if u.currentOrderId.Some? then [SetCurrentOrderId(u.currentOrderId.value)] else [])
  }

  /** `setattr(cylinder, field, value)`. */
  function SetAttr(c: Cylinder, f: FieldValue): Cylinder
  {
    match f
    case SetStatus(s) => c.(status := s)
    case SetLocation(l) => c.(location := l)
    case SetIsAssigned(b) => c.(isAssigned := b)
    case SetCurrentOrderId(o) => c.(currentOrderId := o)
  }

  /** The `setattr` loop over a list of items, front to back. */
  function SetAttrs(c: Cylinder, fs: seq<FieldValue>): Cylinder
    decreases |fs|
  {
    if fs == [] then c else SetAttrs(SetAttr(c, fs[0]), fs[1..])
  }

  lemma {:induction false} SetAttrsAppend(c: Cylinder, a: seq<FieldValue>, b: seq<FieldValue>)
    ensures SetAttrs(c, a + b) == SetAttrs(SetAttrs(c, a), b)
    decreases |a|
  {
    if a == [] {
      assert a + b == b;
    } else {
      assert (a + b)[1..] == a[1..] + b;
      SetAttrsAppend(SetAttr(c, a[0]), a[1..], b);
    }
  }

  /** The partial update as it reaches the table: a null status makes the
      commit fail with nothing stored; otherwise the supplied fields take the
      supplied values, an explicit null included, and every other field
      keeps its value. */
  function ApplyUpdate(c: Cylinder, u: CylinderUpdate): (r: Result<Cylinder, HttpError>)
    ensures r.Err? <==> NullStatus(u)
    ensures r.Err? ==> r.error == InternalError
    ensures r.Ok? ==> r.value.id == c.id && r.value.serialNumber == c.serialNumber && r.value.vendorId == c.vendorId
    ensures r.Ok? ==> r.value.status == if u.status.Some? then u.status.value.value else c.status
    ensures r.Ok? ==> r.value.location == if u.location.Some? then u.location.value else c.location
    ensures r.Ok? ==> r.value.isAssigned == if u.isAssigned.Some? then u.isAssigned.value else c.isAssigned
    ensures r.Ok? ==>
      r.value.currentOrderId == if u.currentOrderId.Some? then u.currentOrderId.value else c.currentOrderId
  {
    var s := if SuppliedStatus(u).Some? then [SetStatus(SuppliedStatus(u).value)] else [];
    var l := if u.location.Some? then [SetLocation(u.location.value)] else [];
    var a := if u.isAssigned.Some? then [SetIsAssigned(u.isAssigned.value)] else [];
    var o := if u.currentOrderId.Some? then [SetCurrentOrderId(u.currentOrderId.value)] else [];
    assert UpdateData(u) == s + l + a + o;
    SetAttrsAppend(c, s + l + a, o);
    SetAttrsAppend(c, s + l, a);
    SetAttrsAppend(c, s, l);
    assert o != [] ==> o[1..] == [];
    assert a != [] ==> a[1..] == [];
    assert l != [] ==> l[1..] == [];
    assert s != [] ==> s[1..] == [];
    if NullStatus(u) then Err(InternalError) else Ok(SetAttrs(c, UpdateData(u)))
  }

  /** An update that supplies nothing changes nothing. */
  lemma EmptyUpdateIsIdentity(c: Cylinder)
    ensures ApplyUpdate(c, CylinderUpdate(None, None, None, None)) == Ok(c)
  {
  }

  /** Applying the same update twice is the same as applying it once. */
  lemma UpdateIdempotent(c: Cylinder, u: CylinderUpdate)
    requires ApplyUpdate(c, u).Ok?
    ensures ApplyUpdate(ApplyUpdate(c, u).value, u) == ApplyUpdate(c, u)
  {
  }

  /** `is_assigned` is set exactly when `current_order_id` is (the data model's
      assignment invariant). */
  predicate AssignmentConsistent(c: Cylinder)
  {
    c.isAssigned == Some(c.currentOrderId.Some?)
  }

  function CylinderStatusName(s: CylinderStatus): string
  {
    match s
    case Filled => "filled"
    case InTransit => "in_transit"
    case Empty => "empty"
    case Returned => "returned"
  }

  /** The dictionary `_cache_cylinder` stores (app/modules/cylinders/service.py:21-35). */
  function CylinderJson(c: Cylinder): (j: Json)
    ensures j.JObject? && "id" in j.fields && j.fields["id"] == JInt(c.id)
    ensures "serial_number" in j.fields && j.fields["serial_number"] == JStr(c.serialNumber)
    ensures j.fields.Keys == {"id", "serial_number", "status", "vendor_id", "location", "is_assigned",
                              "current_order_id"}
  {
    JObject(map[
      "id" := JInt(c.id),
      "serial_number" := JStr(c.serialNumber),
      "status" := JStr(CylinderStatusName(c.status)),
      "vendor_id" := JInt(c.vendorId),
      "location" := OptLocationJson(c.location),
      "is_assigned" := if c.isAssigned.Some? then JBool(c.isAssigned.value) else JNull,
      "current_order_id" := if c.currentOrderId.Some? then JInt(c.currentOrderId.value) else JNull])
  }
}
