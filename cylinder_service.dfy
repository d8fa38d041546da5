/** `CylinderService` (app/modules/cylinders/service.py): the cylinder
    registry over the store, with the read-through cache in front of single
    rows. */
module CylinderService {
  import opened Common
  import opened Cache
  import opened Seqs
  import opened CylinderModel
  import opened Store

  const CachePrefix := "cylinder"

  /** The key `_cache_cylinder` writes, `"cylinder:<id>"`. */
  function CylinderKey(id: int): string
  {
    EntityKey(CachePrefix, id)
  }

  /** The cache after `_cache_cylinder` ran for each cylinder in turn. */
  function CacheAll(entries: map<string, Json>, cs: seq<Cylinder>): (r: map<string, Json>)
    ensures forall c :: c in cs ==> CylinderKey(c.id) in r
    decreases |cs|
  {
    if cs == [] then entries
    else
      var last := cs[|cs| - 1];
      CacheAll(entries, cs[..|cs| - 1])[CylinderKey(last.id) := CylinderJson(last)]
  }

  lemma CacheAllSnoc(entries: map<string, Json>, cs: seq<Cylinder>, c: Cylinder)
    ensures CacheAll(entries, cs + [c]) == CacheAll(entries, cs)[CylinderKey(c.id) := CylinderJson(c)]
  {
    assert (cs + [c])[..|cs|] == cs;
  }

  /** The arguments of `update_status_bulk` besides the ids. */
  datatype BulkArgs = BulkArgs(newStatus: CylinderStatus, location: Option<Location>, notes: Option<string>,
                               userId: nat, orderId: Option<nat>)

  /** The part of the state the bulk loop reads and writes: the cylinder
      table, the cylinder log, the commit clock and the cache. */
  datatype Snapshot = Snapshot(cylinders: map<nat, Cylinder>, logs: seq<CylinderLog>, clock: nat,
                               entries: map<string, Json>)

  /** The change the bulk loop makes to one cylinder
      (app/modules/cylinders/service.py:176-179): the new status, and the
      location only when one is given. */
  function BulkSet(c: Cylinder, a: BulkArgs): (r: Cylinder)
    ensures r.status == a.newStatus && r.location == (if a.location.Some? then a.location else c.location)
    ensures r == c.(status := r.status, location := r.location)
  {
    c.(status := a.newStatus, location := if a.location.Some? then a.location else c.location)
  }

  /** The log entry the bulk loop requests for one cylinder
      (app/modules/cylinders/service.py:182-193). */
  function BulkRequest(id: nat, oldStatus: CylinderStatus, a: BulkArgs): CylinderLogCreate
  {
    CylinderLogCreate(id, StatusChanged, Some(oldStatus), Some(a.newStatus), a.orderId, a.location, a.notes, a.userId)
  }

  /** One pass of the bulk loop (app/modules/cylinders/service.py:174-196):
      an id that resolves is updated, logged with the status it had, and
      cached; an id that does not resolve changes nothing. */
  function BulkPass(s: Snapshot, id: nat, a: BulkArgs): (Snapshot, Option<Cylinder>)
  {
    if id in s.cylinders then
      var c := BulkSet(s.cylinders[id], a);
      var log := CylinderModel.StampLog(BulkRequest(id, s.cylinders[id].status, a), |s.logs| + 1, s.clock);
      (Snapshot(s.cylinders[id := c], s.logs + [log], s.clock + 1, s.entries[CylinderKey(id) := CylinderJson(c)]),
       Some(c))
    else (s, None)
  }

  /** The whole bulk loop over `ids`, front to back: the state after it and
      the updated cylinders in order. */
  function BulkRun(s: Snapshot, ids: seq<nat>, a: BulkArgs): (r: (Snapshot, seq<Cylinder>))
    ensures r.0.cylinders.Keys == s.cylinders.Keys
    decreases |ids|
  {
    if ids == [] then (s, [])
    else
      var prev := BulkRun(s, ids[..|ids| - 1], a);
      var pass := BulkPass(prev.0, ids[|ids| - 1], a);
      (pass.0, prev.1 + if pass.1.Some? then [pass.1.value] else [])
  }

  /** The loop one id further. */
  lemma BulkRunSnoc(s: Snapshot, ids: seq<nat>, i: nat, a: BulkArgs)
    requires i < |ids|
    ensures var prev := BulkRun(s, ids[..i], a);
      var pass := BulkPass(prev.0, ids[i], a);
      BulkRun(s, ids[..i + 1], a) == (pass.0, prev.1 + if pass.1.Some? then [pass.1.value] else [])
  {
    assert ids[..i + 1][..i] == ids[..i];
  }

  /** The last pass of a run whose last id resolves: it adds the updated
      cylinder, its log row, a tick and its cache entry. */
  lemma BulkRunHit(s: Snapshot, ids: seq<nat>, a: BulkArgs)
    requires ids != [] && ids[|ids| - 1] in s.cylinders
    ensures var prev := BulkRun(s, ids[..|ids| - 1], a);
      var id := ids[|ids| - 1];
      var r := BulkRun(s, ids, a);
      var c := BulkSet(prev.0.cylinders[id], a);
      r.1 == prev.1 + [c] && r.0.cylinders == prev.0.cylinders[id := c] && r.0.clock == prev.0.clock + 1
      && r.0.logs == prev.0.logs + [CylinderModel.StampLog(BulkRequest(id, prev.0.cylinders[id].status, a),
                                                           |prev.0.logs| + 1, prev.0.clock)]
      && r.0.entries == prev.0.entries[CylinderKey(id) := CylinderJson(c)]
  {
    var prev := BulkRun(s, ids[..|ids| - 1], a);
    var pass := BulkPass(prev.0, ids[|ids| - 1], a);
    assert pass.1.Some?;
    assert BulkRun(s, ids, a) == (pass.0, prev.1 + [pass.1.value]);
  }

  /** A run whose last id does not resolve ends where the shorter run did. */
  lemma BulkRunMiss(s: Snapshot, ids: seq<nat>, a: BulkArgs)
    requires ids != [] && ids[|ids| - 1] !in s.cylinders
    ensures BulkRun(s, ids, a) == BulkRun(s, ids[..|ids| - 1], a)
  {
    var prev := BulkRun(s, ids[..|ids| - 1], a);
    assert prev.1 + [] == prev.1;
  }

  /** The ids of `ids` that resolve to a cylinder, in input order,
      repetitions kept. */
  function Resolved(cylinders: map<nat, Cylinder>, ids: seq<nat>): (r: seq<nat>)
    ensures |r| <= |ids|
    ensures forall id :: id in r <==> id in ids && id in cylinders
    decreases |ids|
  {
    if ids == [] then []
    else
      var last := ids[|ids| - 1];
      Resolved(cylinders, ids[..|ids| - 1]) + if last in cylinders then [last] else []
  }

  /** The table after the bulk update: every listed cylinder takes the new
      status (and the location, when one is given), and no other row
      changes. */
  lemma {:induction false} BulkTable(s: Snapshot, ids: seq<nat>, a: BulkArgs)
    ensures var t := BulkRun(s, ids, a).0.cylinders;
      forall id :: id in s.cylinders ==> t[id] == if id in ids then BulkSet(s.cylinders[id], a) else s.cylinders[id]
    decreases |ids|
  {
    if ids != [] {
      var init := ids[..|ids| - 1];
      BulkTable(s, init, a);
      assert forall x :: x in ids <==> x in init || x == ids[|ids| - 1];
    }
  }

  /** Every row is stored under its own id. */
  predicate KeyedById(cylinders: map<nat, Cylinder>)
  {
    forall id :: id in cylinders ==> cylinders[id].id == id
  }

  /** One reported cylinder, one log row and one clock tick per resolved
      id; the earlier log rows stay. */
  lemma {:induction false} BulkSizes(s: Snapshot, ids: seq<nat>, a: BulkArgs)
    ensures var r := BulkRun(s, ids, a);
      |r.1| == |Resolved(s.cylinders, ids)| && |r.0.logs| == |s.logs| + |r.1| && r.0.clock == s.clock + |r.1|
      && r.0.logs[..|s.logs|] == s.logs
    decreases |ids|
  {
    if ids != [] {
      var init := ids[..|ids| - 1];
      var id := ids[|ids| - 1];
      BulkSizes(s, init, a);
      var prev := BulkRun(s, init, a);
      var r := BulkRun(s, ids, a);
      if id in s.cylinders {
        BulkRunHit(s, ids, a);
        assert Resolved(s.cylinders, ids) == Resolved(s.cylinders, init) + [id];
        assert r.0.logs[..|s.logs|] == prev.0.logs[..|s.logs|];
      } else {
        BulkRunMiss(s, ids, a);
        assert Resolved(s.cylinders, ids) == Resolved(s.cylinders, init) + [];
      }
    }
  }

  /** The cache holds each reported cylinder under its key, a later report
      of the same id winning, and nothing else changes in it. */
  lemma {:induction false} BulkCache(s: Snapshot, ids: seq<nat>, a: BulkArgs)
    requires KeyedById(s.cylinders)
    ensures var r := BulkRun(s, ids, a);
      r.0.entries == CacheAll(s.entries, r.1)
    decreases |ids|
  {
    if ids != [] {
      var init := ids[..|ids| - 1];
      var id := ids[|ids| - 1];
      BulkCache(s, init, a);
      var prev := BulkRun(s, init, a);
      if id in s.cylinders {
        BulkRunHit(s, ids, a);
        BulkTable(s, init, a);
        var c := BulkSet(prev.0.cylinders[id], a);
        assert c.id == id;
        CacheAllSnoc(s.entries, prev.1, c);
      } else {
        BulkRunMiss(s, ids, a);
      }
    }
  }

  /** The `k`-th reported cylinder is the `k`-th resolved id's row with the
      new status (and location), even when the status was already the new
      one. */
  lemma {:induction false} BulkReported(s: Snapshot, ids: seq<nat>, a: BulkArgs, k: nat)
    requires k < |Resolved(s.cylinders, ids)|
    ensures var r := BulkRun(s, ids, a);
      var res := Resolved(s.cylinders, ids);
      k < |r.1| && r.1[k] == BulkSet(s.cylinders[res[k]], a)
    decreases |ids|
  {
    var init := ids[..|ids| - 1];
    var id := ids[|ids| - 1];
    var prev := BulkRun(s, init, a);
    var pres := Resolved(s.cylinders, init);
    BulkSizes(s, init, a);
    if id in s.cylinders {
      BulkRunHit(s, ids, a);
      assert Resolved(s.cylinders, ids) == pres + [id];
      if k < |pres| {
        BulkReported(s, init, a, k);
      } else {
        BulkTable(s, init, a);
      }
    } else {
      BulkRunMiss(s, ids, a);
      assert Resolved(s.cylinders, ids) == pres + [];
      BulkReported(s, init, a, k);
    }
  }

  /** The `k`-th log row a run over `ids` adds: a `status_changed` entry for
      the `k`-th resolved id, numbered and stamped in turn, recording the
      status the row had when the loop reached it. */
  predicate LogAt(s: Snapshot, ids: seq<nat>, a: BulkArgs, k: nat)
    requires k < |Resolved(s.cylinders, ids)|
  {
    var r := BulkRun(s, ids, a);
    var res := Resolved(s.cylinders, ids);
    |s.logs| + k < |r.0.logs|
    && r.0.logs[|s.logs| + k] == CylinderModel.StampLog(
         BulkRequest(res[k], if res[k] in res[..k] then a.newStatus else s.cylinders[res[k]].status, a),
         |s.logs| + 1 + k, s.clock + k)
  }

  /** The row a last pass that resolves adds. */
  lemma BulkLogAtLast(s: Snapshot, ids: seq<nat>, a: BulkArgs)
    requires ids != [] && ids[|ids| - 1] in s.cylinders
    ensures |Resolved(s.cylinders, ids[..|ids| - 1])| < |Resolved(s.cylinders, ids)|
    ensures LogAt(s, ids, a, |Resolved(s.cylinders, ids[..|ids| - 1])|)
  {
    var init := ids[..|ids| - 1];
    var id := ids[|ids| - 1];
    var pres := Resolved(s.cylinders, init);
    var res := Resolved(s.cylinders, ids);
    var prev := BulkRun(s, init, a);
    BulkSizes(s, init, a);
    BulkRunHit(s, ids, a);
    assert res == pres + [id];
    assert res[|pres|] == id && res[..|pres|] == pres;
    BulkStatusAt(s, init, a, id);
    assert (id in pres) == (id in init);
    assert BulkRun(s, ids, a).0.logs[|s.logs| + |pres|]
        == CylinderModel.StampLog(BulkRequest(id, prev.0.cylinders[id].status, a), |prev.0.logs| + 1, prev.0.clock);
  }

  /** The status a row has once the loop has passed over `ids`. */
  lemma BulkStatusAt(s: Snapshot, ids: seq<nat>, a: BulkArgs, id: nat)
    requires id in s.cylinders
    ensures BulkRun(s, ids, a).0.cylinders[id].status == if id in ids then a.newStatus else s.cylinders[id].status
  {
    BulkTable(s, ids, a);
  }

  /** The `k`-th new log row is a `status_changed` entry for the `k`-th
      resolved id, numbered and stamped in turn; the old status it records
      is the one the row had when the loop reached it, which is the new
      status for an id listed twice. */
  lemma {:induction false} BulkLogAt(s: Snapshot, ids: seq<nat>, a: BulkArgs, k: nat)
    requires k < |Resolved(s.cylinders, ids)|
    ensures LogAt(s, ids, a, k)
    decreases |ids|
  {
    var init := ids[..|ids| - 1];
    var id := ids[|ids| - 1];
    var pres := Resolved(s.cylinders, init);
    var res := Resolved(s.cylinders, ids);
    if id in s.cylinders {
      assert res == pres + [id];
      if k < |pres| {
        BulkLogAt(s, init, a, k);
        BulkSizes(s, init, a);
        BulkRunHit(s, ids, a);
        assert res[k] == pres[k] && res[..k] == pres[..k];
      } else {
        BulkLogAtLast(s, ids, a);
      }
    } else {
      BulkRunMiss(s, ids, a);
      assert res == pres + [] == pres;
      BulkLogAt(s, init, a, k);
    }
  }

  /** A bulk update never reports a cylinder whose status is not the new
      one, and every reported cylinder was listed. */
  lemma BulkReportsNewStatus(s: Snapshot, ids: seq<nat>, a: BulkArgs, k: nat)
    requires KeyedById(s.cylinders)
    requires k < |BulkRun(s, ids, a).1|
    ensures var c := BulkRun(s, ids, a).1[k];
      c.status == a.newStatus && c.id in ids
  {
    BulkSizes(s, ids, a);
    BulkReported(s, ids, a, k);
    var res := Resolved(s.cylinders, ids);
    assert res[k] in res;
  }


  class CylinderService {
    const db: Database
    const cache: RedisCache<Json>

    constructor (db: Database, cache: RedisCache<Json>)
      ensures this.db == db && this.cache == cache
    {
      this.db := db;
      this.cache := cache;
    }

    /** `_cache_cylinder`. */
    method CacheCylinder(c: Cylinder)
      modifies cache
      ensures cache.entries == old(cache.entries)[CylinderKey(c.id) := CylinderJson(c)]
    {
      cache.Set([Str(CachePrefix), Int(c.id)], CylinderJson(c));
    }

    /** `get`: the row, looked up in the store even on a cache hit; a miss
      that finds the row caches it. */
    method Get(id: nat) returns (r: Option<Cylinder>)
      requires db.Valid()
      modifies cache
      ensures r == if id in db.cylinders then Some(db.cylinders[id]) else None
      ensures cache.entries ==
        if CylinderKey(id) !in old(cache.entries) && id in db.cylinders
        then old(cache.entries)[CylinderKey(id) := CylinderJson(db.cylinders[id])]
        else old(cache.entries)
    {
      var cached := cache.Get([Str(CachePrefix), Int(id)]);
      assert GenerateKey([Str(CachePrefix), Int(id)]) == CylinderKey(id);
      if cached.Some? {
        r := if id in db.cylinders then Some(db.cylinders[id]) else None;
        return;
      }
      r := if id in db.cylinders then Some(db.cylinders[id]) else None;
      if r.Some? {
        CacheCylinder(r.value);
      }
    }

    /** `get_by_serial_number`: the one row with that serial, if any. */
    method GetBySerialNumber(serialNumber: string) returns (r: Option<Cylinder>)
      requires db.Valid()
      ensures r.None? <==> forall id :: id in db.cylinders ==> db.cylinders[id].serialNumber != serialNumber
      ensures r.Some? ==> r.value.id in db.cylinders && db.cylinders[r.value.id] == r.value
                          && r.value.serialNumber == serialNumber
    {
      if id :| id in db.cylinders && db.cylinders[id].serialNumber == serialNumber {
        r := Some(db.cylinders[id]);
      } else {
        r := None;
      }
    }

    /** `create`: a serial already registered is refused with nothing
      changed; otherwise the cylinder is stored under the next id with the
      caller as vendor, one `created` entry is logged and the row cached. */
    method Create(cylinderIn: CylinderCreate, vendorId: nat) returns (r: Result<Cylinder, HttpError>)
      requires db.Valid()
      modifies db, cache
      ensures db.Valid()
      ensures (exists id :: id in old(db.cylinders) && old(db.cylinders)[id].serialNumber == cylinderIn.serialNumber)
              ==> r == Err(HttpError(400, "Serial number already registered")) && unchanged(db) && cache.entries == old(cache.entries)
      ensures r.Ok? ==>
        var c := r.value;
        c == Cylinder(old(db.nextCylinderId), cylinderIn.serialNumber, cylinderIn.status, vendorId,
                      cylinderIn.location, Some(false), None)
        && db.cylinders == old(db.cylinders)[c.id := c]
        && db.nextCylinderId == old(db.nextCylinderId) + 1
        && db.cylinderLogs == old(db.cylinderLogs) + [CylinderModel.StampLog(
             CylinderLogCreate(c.id, CylinderEventType.Created, None, Some(c.status), None, cylinderIn.location,
                               Some("Cylinder created"), vendorId),
             |old(db.cylinderLogs)| + 1, old(db.clock))]
        && db.clock == old(db.clock) + 1
        && db.users == old(db.users) && db.orders == old(db.orders) && db.orderLogs == old(db.orderLogs)
        && db.nextOrderId == old(db.nextOrderId)
        && cache.entries == old(cache.entries)[CylinderKey(c.id) := CylinderJson(c)]
      ensures r.Ok? <==> forall id :: id in old(db.cylinders) ==> old(db.cylinders)[id].serialNumber != cylinderIn.serialNumber
    {
      var existing := GetBySerialNumber(cylinderIn.serialNumber);
      if existing.Some? {
        return Err(HttpError(400, "Serial number already registered"));
      }
      var c := Cylinder(db.nextCylinderId, cylinderIn.serialNumber, cylinderIn.status, vendorId,
                        cylinderIn.location, Some(false), None);
      db.AddCylinder(c);
      var _ := CreateLog(CylinderLogCreate(c.id, CylinderEventType.Created, None, Some(c.status), None,
                                           cylinderIn.location, Some("Cylinder created"), vendorId));
      CacheCylinder(c);
      r := Ok(c);
    }

    /** `list`. */
    method List(vendorId: Option<nat>, status: Option<CylinderStatus>, isAssigned: Option<bool>, skip: nat,
                limit: nat)
      returns (r: seq<Cylinder>)
      ensures r == ListCylinders(db.cylinders, db.nextCylinderId, vendorId, status, isAssigned, skip, limit)
      ensures forall c :: c in r ==> CylinderFilter(c, vendorId, status, isAssigned) && c in db.cylinders.Values
    {
      r := ListCylinders(db.cylinders, db.nextCylinderId, vendorId, status, isAssigned, skip, limit);
    }

    /** `update`: a missing id is not found; an explicit null status makes
      the final commit fail on the `NOT NULL` column, so nothing is stored
      and no entry is logged; otherwise the supplied fields are set one by
      one, a `status_changed` entry is logged exactly when a status is
      supplied and differs from the old one, and the row is cached. */
    method Update(id: nat, cylinderIn: CylinderUpdate, userId: nat) returns (r: Result<Cylinder, HttpError>)
      requires db.Valid()
      modifies db, cache
      ensures db.Valid()
      ensures id !in old(db.cylinders) ==> r == Err(HttpError(404, "Cylinder not found")) && unchanged(db)
                                           && cache.entries == old(cache.entries)
      ensures id in old(db.cylinders) && NullStatus(cylinderIn) ==>
        r == Err(InternalError) && unchanged(db)
        && cache.entries == if CylinderKey(id) in old(cache.entries) then old(cache.entries)
                            else old(cache.entries)[CylinderKey(id) := CylinderJson(old(db.cylinders)[id])]
      ensures id in old(db.cylinders) && !NullStatus(cylinderIn) ==>
        var before := old(db.cylinders)[id];
        var c := ApplyUpdate(before, cylinderIn).value;
        var logged := SuppliedStatus(cylinderIn).Some? && SuppliedStatus(cylinderIn).value != before.status;
        r == Ok(c)
        && db.cylinders == old(db.cylinders)[id := c]
        && db.cylinderLogs == old(db.cylinderLogs) + (if logged then [CylinderModel.StampLog(
             CylinderLogCreate(id, StatusChanged, Some(before.status), SuppliedStatus(cylinderIn), c.currentOrderId,
                               if cylinderIn.location.Some? then cylinderIn.location.value else None, None, userId),
             |old(db.cylinderLogs)| + 1, old(db.clock))] else [])
        && db.clock == old(db.clock) + (if logged then 1 else 0)
        && cache.entries == old(cache.entries)[CylinderKey(id) := CylinderJson(c)]
      ensures db.users == old(db.users) && db.orders == old(db.orders) && db.orderLogs == old(db.orderLogs)
      ensures db.nextOrderId == old(db.nextOrderId) && db.nextCylinderId == old(db.nextCylinderId)
    {
      var found := Get(id);
      if found.None? {
        assert cache.entries == old(cache.entries);
        return Err(HttpError(404, "Cylinder not found"));
      }
      var original := found.value;
      if NullStatus(cylinderIn) {
        return Err(InternalError);
      }
      var oldStatus := original.status;
      SetFields(id, UpdateData(cylinderIn));
      var c := db.cylinders[id];
      assert Ok(c) == ApplyUpdate(original, cylinderIn);
      LogStatusChange(id, oldStatus, cylinderIn, c.currentOrderId, userId);
      CacheCylinder(c);
      OverwriteKey(old(cache.entries), CylinderKey(id), CylinderJson(original), CylinderJson(c));
      r := Ok(c);
    }

    /** The `status_changed` entry of `update`, logged only when a status is
      supplied and differs from the old one. */
    method LogStatusChange(id: nat, oldStatus: CylinderStatus, cylinderIn: CylinderUpdate, orderId: Option<nat>,
                           userId: nat)
      requires db.Valid()
      modifies db
      ensures db.Valid()
      ensures var logged := SuppliedStatus(cylinderIn).Some? && SuppliedStatus(cylinderIn).value != oldStatus;
        db.cylinderLogs == old(db.cylinderLogs) + (if logged then [CylinderModel.StampLog(
             CylinderLogCreate(id, StatusChanged, Some(oldStatus), SuppliedStatus(cylinderIn), orderId,
                               if cylinderIn.location.Some? then cylinderIn.location.value else None, None, userId),
             |old(db.cylinderLogs)| + 1, old(db.clock))] else [])
        && db.clock == old(db.clock) + (if logged then 1 else 0)
      ensures db.users == old(db.users) && db.orders == old(db.orders) && db.orderLogs == old(db.orderLogs)
      ensures db.cylinders == old(db.cylinders)
      ensures db.nextOrderId == old(db.nextOrderId) && db.nextCylinderId == old(db.nextCylinderId)
    {
      if SuppliedStatus(cylinderIn).Some? && SuppliedStatus(cylinderIn).value != oldStatus {
        var _ := CreateLog(CylinderLogCreate(id, StatusChanged, Some(oldStatus), SuppliedStatus(cylinderIn), orderId,
                                             if cylinderIn.location.Some? then cylinderIn.location.value else None,
                                             None, userId));
      }
    }

    /** The `setattr` loop of `update`: the supplied fields are set on the
      row one by one, and the row is flushed back. */
    method SetFields(id: nat, fields: seq<FieldValue>)
      requires db.Valid() && id in db.cylinders
      modifies db
      ensures db.Valid()
      ensures db.cylinders == old(db.cylinders)[id := SetAttrs(old(db.cylinders)[id], fields)]
      ensures db.users == old(db.users) && db.orders == old(db.orders) && db.orderLogs == old(db.orderLogs)
      ensures db.cylinderLogs == old(db.cylinderLogs) && db.clock == old(db.clock)
      ensures db.nextOrderId == old(db.nextOrderId) && db.nextCylinderId == old(db.nextCylinderId)
    {
      for i := 0 to |fields|
        invariant id in db.cylinders
        invariant SetAttrs(db.cylinders[id], fields[i..]) == SetAttrs(old(db.cylinders)[id], fields)
        invariant db.cylinders == old(db.cylinders)[id := db.cylinders[id]]
        invariant db.cylinders[id].id == id && db.cylinders[id].serialNumber == old(db.cylinders)[id].serialNumber
        invariant db.Valid()
        invariant db.users == old(db.users) && db.orders == old(db.orders) && db.orderLogs == old(db.orderLogs)
        invariant db.cylinderLogs == old(db.cylinderLogs) && db.clock == old(db.clock)
        invariant db.nextOrderId == old(db.nextOrderId) && db.nextCylinderId == old(db.nextCylinderId)
      {
        assert fields[i..][1..] == fields[i + 1..];
        db.PutCylinder(SetAttr(db.cylinders[id], fields[i]));
      }
      assert fields[|fields|..] == [];
    }

    /** The part of the state the bulk loop reads and writes. */
    ghost function Snap(): Snapshot
      reads db, cache
    {
      Snapshot(db.cylinders, db.cylinderLogs, db.clock, cache.entries)
    }

    /** One pass of the `update_status_bulk` loop. */
    method BulkOne(id: nat, a: BulkArgs) returns (r: Option<Cylinder>)
      requires db.Valid()
      modifies db, cache
      ensures db.Valid()
      ensures (Snap(), r) == BulkPass(old(Snap()), id, a)
      ensures db.users == old(db.users) && db.orders == old(db.orders) && db.orderLogs == old(db.orderLogs)
      ensures db.nextOrderId == old(db.nextOrderId) && db.nextCylinderId == old(db.nextCylinderId)
    {
      ghost var s0 := Snap();
      var cylinder := Get(id);
      if cylinder.None? {
        return None;
      }
      var c := cylinder.value;
      var oldStatus := c.status;
      var next := BulkSet(c, a);
      db.PutCylinder(next);
      var log := CreateLog(BulkRequest(c.id, oldStatus, a));
      CacheCylinder(next);
      OverwriteKey(s0.entries, CylinderKey(id), CylinderJson(c), CylinderJson(next));
      r := Some(next);
      assert BulkPass(s0, id, a) == (Snapshot(s0.cylinders[id := next], s0.logs + [log], s0.clock + 1,
                                              s0.entries[CylinderKey(id) := CylinderJson(next)]), r);
    }

    /** `update_status_bulk`: the bulk loop, each resolved cylinder logged
      and cached as it is reached. */
    method UpdateStatusBulk(ids: seq<nat>, newStatus: CylinderStatus, location: Option<Location>,
                            notes: Option<string>, userId: nat, orderId: Option<nat>)
      returns (updated: seq<Cylinder>)
      requires db.Valid()
      modifies db, cache
      ensures db.Valid()
      ensures (Snap(), updated) == BulkRun(old(Snap()), ids, BulkArgs(newStatus, location, notes, userId, orderId))
      ensures db.users == old(db.users) && db.orders == old(db.orders) && db.orderLogs == old(db.orderLogs)
      ensures db.nextOrderId == old(db.nextOrderId) && db.nextCylinderId == old(db.nextCylinderId)
    {
      var a := BulkArgs(newStatus, location, notes, userId, orderId);
      updated := [];
      for i := 0 to |ids|
        invariant (Snap(), updated) == BulkRun(old(Snap()), ids[..i], a)
        invariant db.Valid()
        invariant db.users == old(db.users) && db.orders == old(db.orders) && db.orderLogs == old(db.orderLogs)
        invariant db.nextOrderId == old(db.nextOrderId) && db.nextCylinderId == old(db.nextCylinderId)
      {
        BulkRunSnoc(old(Snap()), ids, i, a);
        ghost var before := updated;
        var cylinder := BulkOne(ids[i], a);
        if cylinder.Some? {
          updated := updated + [cylinder.value];
        } else {
          assert before + [] == before;
        }
      }
      assert ids[..|ids|] == ids;
    }

    /** `create_log`. */
    method CreateLog(logIn: CylinderLogCreate) returns (log: CylinderLog)
      requires db.Valid()
      modifies db
      ensures db.Valid()
      ensures log == CylinderModel.StampLog(logIn, |old(db.cylinderLogs)| + 1, old(db.clock))
      ensures db.cylinderLogs == old(db.cylinderLogs) + [log] && db.clock == old(db.clock) + 1
      ensures db.users == old(db.users) && db.orders == old(db.orders) && db.cylinders == old(db.cylinders)
      ensures db.orderLogs == old(db.orderLogs) && db.nextOrderId == old(db.nextOrderId)
      ensures db.nextCylinderId == old(db.nextCylinderId)
    {
      log := db.AddCylinderLog(logIn);
    }

    /** `get_logs`: the cylinder's entries, newest first, paged. */
    method GetLogs(cylinderId: nat, skip: nat, limit: nat) returns (r: seq<CylinderLog>)
      requires db.Valid()
      ensures r == CylinderLogPage(db.cylinderLogs, cylinderId, skip, limit)
      ensures Ordered(r, CylinderLogAfter)
      ensures forall l :: l in r ==> l in db.cylinderLogs && l.cylinderId == cylinderId
    {
      r := CylinderLogPage(db.cylinderLogs, cylinderId, skip, limit);
      CylinderLogPageNewestFirst(db.cylinderLogs, cylinderId, skip, limit);
    }

    /** `delete`: a missing id changes nothing and yields false; otherwise a
      `deleted` entry holding the old status is logged, the row's cache key
      and the list keys are invalidated, and the row is removed. The earlier
      log entries stay. */
    method Delete(id: nat, userId: nat) returns (deleted: bool)
      requires db.Valid()
      modifies db, cache
      ensures db.Valid()
      ensures deleted <==> id in old(db.cylinders)
      ensures !deleted ==> unchanged(db) && cache.entries == old(cache.entries)
      ensures deleted ==>
        db.cylinders == old(db.cylinders) - {id}
        && db.cylinderLogs == old(db.cylinderLogs) + [CylinderModel.StampLog(
             CylinderLogCreate(id, CylinderEventType.Deleted, Some(old(db.cylinders)[id].status), None, None, None,
                               Some("Cylinder deleted"), userId),
             |old(db.cylinderLogs)| + 1, old(db.clock))]
        && db.clock == old(db.clock) + 1
        && cache.entries == RemoveMatching(old(cache.entries) - {CylinderKey(id)}, "cylinder:list:*")
      ensures db.users == old(db.users) && db.orders == old(db.orders) && db.orderLogs == old(db.orderLogs)
      ensures db.nextOrderId == old(db.nextOrderId) && db.nextCylinderId == old(db.nextCylinderId)
    {
      var cylinder := Get(id);
      if cylinder.None? {
        return false;
      }
      assert cache.entries - {CylinderKey(id)} == old(cache.entries) - {CylinderKey(id)};
      var c := cylinder.value;
      var _ := CreateLog(CylinderLogCreate(c.id, CylinderEventType.Deleted, Some(c.status), None, None, None,
                                           Some("Cylinder deleted"), userId));
      assert GenerateKey([Str(CachePrefix), Int(id)]) == CylinderKey(id);
      cache.Delete([Str(CachePrefix), Int(id)]);
      assert cache.entries == old(cache.entries) - {CylinderKey(id)};
      cache.InvalidatePattern("cylinder:list:*");
      db.RemoveCylinder(id);
      deleted := true;
    }
  }
}
