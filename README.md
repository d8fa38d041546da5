# OxygenPlatform order and cylinder core, in Dafny

OxygenPlatform is a backend that lets hospitals order medical oxygen cylinders from vendors. This project models its core and proves properties of that model:

- **Order engine** (`OrderService`). It creates an order, lists orders, and ranks the vendors that can fill one. A pending order can be accepted; acceptance reserves the named cylinders all or nothing. Delivery progress is recorded with no guard at all. An order can be cancelled while it is pending or accepted, which releases its cylinders.
- **Cylinder registry** (`CylinderService`). It covers:
  - creating a cylinder under a unique serial number;
  - a partial update, which logs a status change only when the status really changes;
  - a bulk status update, which skips unknown ids;
  - a delete, which logs the removal and keeps the earlier log entries.
- **Delivery tracker** (`DeliveryTrackingService`). These are read projections over the order log:
  - the timeline of an order;
  - the latest driver;
  - the snapshot taken from the newest entry.
  
  The tracker also has a guarded delivery update.
- **Geo ranking**. Distances carry an "infinite" sentinel for missing coordinates. The vendors are filtered by radius and then stable-sorted by distance.
- **Read-through cache** (`RedisCache`). Keys are composed with `":".join`. It supports get, set and delete, plus invalidation by KEYS pattern.
- **WebSocket connection registry** (`ConnectionManager`). It tracks the open connections of each hospital and each vendor.
- **Password validator**. This is the password rule of `UserCreate` and `UserUpdate`.

The database is one `Store.Database` object:

- the `users`, `orders` and `cylinders` tables are maps from id to row;
- the two log tables are sequences in commit order;
- the next ids are counters;
- `func.now()` is a logical clock. The clock ticks at every commit that stamps a row, so `created_at` orders the log entries totally.

Each service operation is one atomic step over the store and the cache. The services are classes that hold the store and the cache.

- **Imperative operations.** These are methods with `modifies` clauses whose `ensures` state the whole new state:
  - every order and cylinder operation;
  - the cache operations;
  - the registry operations;
  - the delivery update.
- **Pure code.** These are functions with lemmas about them:
  - key composition and glob matching;
  - distance, filtering and sorting;
  - the timeline and snapshot projections;
  - the password rule.

The loops in the source are `while`/`for` loops with invariants:

- the vendor-eligibility loop;
- the reservation and release loops;
- the `setattr` loop;
- the bulk loop;
- the distance loop;
- the reverse driver scan.

In these places the model keeps the code as written:

- The delivery update never invalidates the `delivery:<id>` entry.
- The cylinder and order updates overwrite the entity key but do not invalidate list keys.
- The bulk status update logs every resolved cylinder, even one whose status did not change.

In three places the code as written fails, and the service methods use a corrected definition instead. The code as written is modelled beside it, and "## Findings" gives the details:

- The delivery guard lists `OrderStatus.OUT_FOR_DELIVERY`, which the enumeration does not define. `DeliveryService.DeliveryGuardAsWritten` models that. `DeliveryService.UpdateCheck` uses the corrected `DeliveryService.DeliveryGuard`, which lets accepted and in-transit orders through.
- Caching the delivery snapshot runs `json.dumps` on `datetime` values, which fails the request. `DeliverySchemas.CacheSnapshotAsWritten` models that. `DeliveryService.DeliveryTrackingService.CacheDeliveryStatus` writes the snapshot's JSON form, `DeliverySchemas.StatusJson`.
- The `status_update` detail holds a `datetime` ETA, which the JSON column cannot store. `DeliverySchemas.StatusUpdateAsWritten` models that. `DeliveryService.UpdateDetails` uses the corrected `DeliverySchemas.StatusUpdateJson`.

The modules:

- `Common`: shared values;
- `Seqs`: ordered filtering and distinctness;
- `Cache`;
- `UserModel`, `CylinderModel`, `OrderModel`;
- `Store`;
- `Geo`;
- `Passwords`;
- `DeliverySchemas`;
- `CylinderService`, `OrderService`, `DeliveryService`;
- `WebSocket`.

## Model

| member | source | states |
|---|---|---|
| Cache.NatToString | app/core/cache.py:19 | `str(n)` of a natural is a non-empty run of decimal digits, a single digit exactly when `n < 10` |
| Cache.IntToString | app/core/cache.py:19 | `str(i)` is non-empty and starts with a digit or a minus sign |
| Cache.ParseNatToString | app/core/cache.py:19 | reading back the digits of `str(n)` gives `n` (round trip) |
| Cache.NatToStringInjective | app/core/cache.py:19 | distinct naturals have distinct decimal forms |
| Cache.IntToStringInjective | app/core/cache.py:19 | distinct integers, of either sign, have distinct `str` forms |
| Cache.GenerateKey | app/core/cache.py:17-19 | a two-part key is the first part, a colon, and the second part |
| Cache.EntityKey | app/core/cache.py:17-19 | an entity key is `"<prefix>:" + str(id)` |
| Cache.GenerateKeyExample | app/core/cache.py:17-19 | `["order", 5]` becomes `"order:5"` |
| Cache.StringPartSameKey | app/modules/orders/services/delivery.py:27 | a key built from `str(order_id)` equals the key built from the integer |
| Cache.EntityKeyInjective | app/core/cache.py:17-19 | two entity keys with one prefix collide only for the same id |
| Cache.StarMatchesAll | app/core/cache.py:45-49 | the pattern `*` matches every key |
| Cache.PrefixPattern | app/core/cache.py:45-49 | `P*`, for a literal `P`, matches exactly the keys starting with `P` |
| Cache.RemoveMatching | app/core/cache.py:45-49 | invalidation only removes keys and never changes a surviving value |
| Cache.InvalidatePrefix | app/core/cache.py:45-49 | invalidating `P*` removes every key with prefix `P` and no other key |
| Cache.InvalidateNoMatch | app/core/cache.py:47-49 | invalidating a prefix that no key carries leaves the cache as it was |
| Cache.EntityKeySurvivesListPattern | app/modules/cylinders/service.py:37-40 | an entity key `"<prefix>:<id>"` is never matched by `"<prefix>:list:*"` |
| Cache.OverwriteKey | app/core/cache.py:26-38 | a second `set` of a key overwrites the first |
| Cache.RedisCache.constructor | app/core/cache.py:7-15 | a new cache is empty |
| Cache.RedisCache.Get | app/core/cache.py:21-24 | the stored value for a key that was set, `None` for a key never set or since deleted |
| Cache.RedisCache.Set | app/core/cache.py:26-38 | stores or overwrites exactly one key |
| Cache.RedisCache.Delete | app/core/cache.py:40-43 | removes exactly that key and leaves every other key unchanged |
| Cache.RedisCache.InvalidatePattern | app/core/cache.py:45-49 | removes exactly the keys the pattern matches |
| Cache.SetGetDelete | app/core/cache.py:21-43 | set then get returns the value set, a second set overwrites it, a delete makes the key miss, and afterwards the cache is the old one without that key, so every other key keeps its presence and its value |
| Common.Field | app/modules/orders/services/delivery.py:90-92 | `d.get(key)` is present exactly when the object has the key with a non-null value, and is that value |
| Common.Page | app/modules/orders/service.py:112 | `offset(skip).limit(limit)`: the length is bounded by `limit`, and the k-th row is the `(skip+k)`-th row of the input |
| Common.LocationJson | app/modules/cylinders/schemas.py:7-11 | a location's dictionary has exactly the four schema keys, with its latitude and longitude |
| Seqs.Filter | app/modules/orders/service.py:105-110 | a WHERE clause keeps exactly the rows that pass, never more than the input |
| Seqs.FilterSnoc | app/modules/orders/services/delivery.py:193-198 | a filtered log extended by one entry grows by that entry exactly when it passes |
| Seqs.FilterOrdered | app/modules/orders/service.py:309-312 | filtering keeps the order of an ordered result |
| Seqs.ReverseOrdered | app/modules/orders/service.py:312 | reversing an ascending result gives a descending one |
| Seqs.PageOrdered | app/modules/orders/service.py:312-314 | a page of an ordered result is ordered the same way |
| Seqs.ElementsCard | app/modules/orders/service.py:175 | a list has at least as many entries as distinct ids, and exactly as many when no id repeats |
| CylinderModel.StampLog | app/modules/cylinders/models.py:27-39 | a logged entry keeps the requested cylinder and event kind and gets the given id and timestamp |
| CylinderModel.CylinderCreateDefault | app/modules/cylinders/schemas.py:16-17 | a new cylinder whose status is left out is filled |
| CylinderModel.SetAttrsAppend | app/modules/cylinders/service.py:139-140 | running the `setattr` loop over two lists in turn is running it over their concatenation |
| CylinderModel.ApplyUpdate | app/modules/cylinders/service.py:135-156 | an explicit null status fails with a 500, because the `NOT NULL` column refuses it at the commit; otherwise the supplied fields take the supplied values, an explicit null included (a `NULL` `is_assigned` too), and every other field keeps its value |
| CylinderModel.EmptyUpdateIsIdentity | app/modules/cylinders/service.py:135-140 | an update that supplies nothing changes nothing |
| CylinderModel.UpdateIdempotent | app/modules/cylinders/service.py:135-140 | an update that succeeds, applied twice, equals applying it once |
| CylinderModel.CylinderJson | app/modules/cylinders/service.py:24-35 | the cached dictionary has exactly the seven keys of `_cache_cylinder`, with the cylinder's id and serial number |
| OrderModel.ParseStatus | app/modules/orders/enums.py:3-8 | the enumeration's lookup by value finds only a member with that value |
| OrderModel.ParseStatusName | app/modules/orders/enums.py:3-8 | every status is found again from its value, so the values are distinct |
| OrderModel.ColumnStatus | app/modules/orders/models.py:34 | the `SQLAlchemyEnum(OrderStatus)` column accepts exactly the strings that are a member's value or name, and resolves them to that member |
| OrderModel.ColumnStatusAcceptsBoth | app/modules/orders/models.py:34 | both the value and the name of every member resolve to that member |
| OrderModel.StampLog | app/modules/orders/models.py:57-68 | a logged entry keeps the requested order and event kind and gets the given id and timestamp |
| OrderModel.OrderJson | app/modules/orders/service.py:31-44 | the cached dictionary has exactly the nine keys of `_cache_order`, with the order's id and the value of its status |
| Store.AvailableIds | app/modules/orders/service.py:130-140 | the count covers exactly the vendor's filled, unassigned cylinders (`is_assigned` false, not `NULL`) |
| Store.NullFlagNeverMatches | app/modules/orders/service.py:130-140 | a cylinder whose `is_assigned` is `NULL` is never available and passes no `is_assigned` filter |
| Store.Matching | app/modules/orders/service.py:164-173 | the acceptance query returns exactly the listed ids that are the vendor's, filled and unassigned |
| Store.MatchingCountIff | app/modules/orders/service.py:164-179 | the count check passes exactly when the list has no repeated id and every listed id is an available cylinder of the vendor |
| Store.DuplicateIdFails | app/modules/orders/service.py:175-179 | a repeated id makes acceptance fail, whatever the cylinders are |
| Store.Reserve | app/modules/orders/service.py:187-190 | reserving keeps every id of the table |
| Store.Release | app/modules/orders/service.py:273-275 | releasing keeps every id of the table |
| Store.ReserveTakesStock | app/modules/orders/service.py:187-190 | reserving takes exactly the reserved cylinders out of the vendor's available stock |
| Store.ReleaseIdempotent | app/modules/orders/service.py:273-275 | releasing twice is releasing once |
| Store.ReleaseUndoesReserve | app/modules/orders/service.py:273-275 | releasing what a reservation took restores cylinders that carried no order before |
| Store.ReleaseConsistent | app/modules/orders/service.py:273-275 | a released cylinder is unassigned and has no order, so its assignment flag and order link agree |
| Store.RowsById | app/modules/cylinders/service.py:109 | the table's rows listed once each in ascending id order |
| Store.ListCylinders | app/modules/cylinders/service.py:100-119 | at most `limit` rows, each a stored cylinder that passes every applicable filter |
| Store.ListCylindersComplete | app/modules/cylinders/service.py:109-119 | every stored cylinder that passes the filters is on a large enough first page |
| Store.ListOrders | app/modules/orders/service.py:94-113 | at most `limit` rows, each a stored order that passes every applicable filter |
| Store.ListOrdersNewestFirst | app/modules/orders/service.py:112 | the list is ordered newest first by creation time |
| Store.ListOrdersComplete | app/modules/orders/service.py:103-113 | every stored order that passes the filters is on a large enough first page |
| Store.Touch | app/modules/orders/models.py:45 | a flushed row gets a new `updated_at` when a column changed, and is otherwise the row as assigned |
| Store.LogsOfOrder | app/modules/orders/services/delivery.py:193-198 | exactly the log entries of that order |
| Store.LogsOfOrderAscending | app/modules/orders/services/delivery.py:196 | an order's entries come oldest first |
| Store.OrderLogPage | app/modules/orders/service.py:302-316 | at most `limit` entries, each one of that order's entries |
| Store.OrderLogPageNewestFirst | app/modules/orders/service.py:312 | the page is newest first |
| Store.LogsOfCylinder | app/modules/cylinders/service.py:216-218 | exactly the log entries of that cylinder |
| Store.CylinderLogPage | app/modules/cylinders/service.py:209-223 | at most `limit` entries, each one of that cylinder's entries |
| Store.CylinderLogPageNewestFirst | app/modules/cylinders/service.py:219 | the page is newest first |
| Store.Database.constructor | app/modules/orders/models.py:29-72 | a store with the given users and no orders, cylinders or log entries |
| Store.Database.AddOrderLog | app/modules/orders/service.py:294-300 | appends one entry with the next log id and the current time, advances the clock, and changes nothing else |
| Store.Database.AddOrder | app/modules/orders/service.py:57-63 | stores a new pending order under a fresh id, stamped now, and changes nothing else |
| Store.Database.PutOrder | app/modules/orders/service.py:247 | flushes one changed order under its id and changes nothing else |
| Store.Database.AddCylinder | app/modules/cylinders/service.py:57-63 | stores a new cylinder under a fresh id and changes nothing else |
| Store.Database.PutCylinder | app/modules/cylinders/service.py:156 | flushes one changed cylinder under its id and changes nothing else |
| Store.Database.PutCylinders | app/modules/orders/service.py:207 | flushes the changed cylinder table and changes nothing else |
| Store.Database.RemoveCylinder | app/modules/cylinders/service.py:241-242 | removes one cylinder row and keeps every log entry |
| Store.Database.AddCylinderLog | app/modules/cylinders/service.py:201-207 | appends one entry with the next log id and the current time, advances the clock, and changes nothing else |
| Geo.CalculateDistance | app/modules/orders/utils.py:5-25 | the distance is infinite exactly when a coordinate of either point is missing or 0.0; otherwise it is the formula's value |
| Geo.DistanceSymmetric | app/modules/orders/utils.py:10-25 | the distance is symmetric whenever the formula is |
| Geo.Within | app/modules/orders/utils.py:36-40 | every collected pair is within range and is a listed vendor with its own distance |
| Geo.WithinContains | app/modules/orders/utils.py:37-40 | every vendor within range is collected |
| Geo.FiniteRadiusExcludesMissing | app/modules/orders/utils.py:10-11 | with a finite radius, neither the target nor a collected vendor lacks a coordinate |
| Geo.Insert | app/modules/orders/utils.py:43 | an insertion adds exactly the one element |
| Geo.InsertSorted | app/modules/orders/utils.py:43 | inserting into a sorted list keeps it sorted |
| Geo.InsertStable | app/modules/orders/utils.py:43 | an inserted element goes in front of the later entries with its own distance |
| Geo.SortByDistance | app/modules/orders/utils.py:42-43 | the sorted list is a permutation of its input, in non-decreasing distance |
| Geo.SortStable | app/modules/orders/utils.py:43 | entries with equal distance keep their input order |
| Geo.WithinDistinct | app/modules/orders/utils.py:36-40 | the collected pairs have distinct vendor ids when the vendor list does |
| Geo.InsertDistinct | app/modules/orders/utils.py:43 | inserting a pair with a new id keeps the ids distinct |
| Geo.SortDistinct | app/modules/orders/utils.py:43 | sorting keeps the ids distinct |
| Geo.FindNearbyVendors | app/modules/orders/utils.py:27-43 | a permutation of the vendors within range, each within the maximum distance, sorted non-decreasing, ties in input order |
| Passwords.Any | app/modules/users/schemas.py:24-29 | `any(p(c) for c in v)` holds exactly when some character satisfies `p` |
| Passwords.ValidatePassword | app/modules/users/schemas.py:20-30 | accepts, unchanged, exactly the passwords with 8 or more characters and an uppercase letter, a lowercase letter and a digit; otherwise reports the first failing check in order |
| Passwords.ValidateOptionalPassword | app/modules/users/schemas.py:39-50 | `None` passes; a given password passes or fails exactly as at creation, with the same error |
| Passwords.AcceptsMixedPassword | app/modules/users/schemas.py:20-30 | `"Secret12"` is accepted as is |
| Passwords.RejectsLengthFirst | app/modules/users/schemas.py:22-23 | `"short"` is rejected for its length before any other check |
| WebSocket.Connect | app/core/websocket.py:14-16 | the id's set gains the socket and every other id keeps its set; no empty set is created |
| WebSocket.Disconnect | app/core/websocket.py:27-30 | the id's set loses the socket, every other id keeps its set, and an emptied id is dropped |
| WebSocket.ConnectIdempotent | app/core/websocket.py:16 | connecting the same socket twice is connecting it once |
| WebSocket.DisconnectAbsent | app/core/websocket.py:27-28 | disconnecting an unregistered id or an absent socket changes nothing |
| WebSocket.DisconnectUndoesConnect | app/core/websocket.py:11-37 | disconnecting a socket that was just connected for the first time restores the registry |
| WebSocket.ReplayKeepsSetsNonEmpty | app/core/websocket.py:11-37 | after any sequence of connects and disconnects, no id maps to an empty set |
| WebSocket.ConnectionManager.constructor | app/core/websocket.py:6-9 | both registries start empty |
| WebSocket.ConnectionManager.ConnectHospital | app/core/websocket.py:11-16 | the hospital registry changes as `Connect`, and the vendor registry is unchanged |
| WebSocket.ConnectionManager.ConnectVendor | app/core/websocket.py:18-23 | the vendor registry changes as `Connect`, and the hospital registry is unchanged |
| WebSocket.ConnectionManager.DisconnectHospital | app/core/websocket.py:25-30 | the hospital registry changes as `Disconnect`, and the vendor registry is unchanged |
| WebSocket.ConnectionManager.DisconnectVendor | app/core/websocket.py:32-37 | the vendor registry changes as `Disconnect`, and the hospital registry is unchanged |
| DeliverySchemas.OptStrField | app/modules/orders/schemas/delivery.py:10-15 | an `Optional[str]` field is `None` when missing or null, the string when it is one, and invalid otherwise |
| DeliverySchemas.StatusJson | app/modules/orders/services/delivery.py:26-29 | the snapshot's JSON form has exactly the nine snapshot fields |
| DeliverySchemas.ParseDeliveryStatus | app/modules/orders/services/delivery.py:66-67 | a non-object fails validation; a parsed snapshot carries the order id and the two times it was read from |
| DeliverySchemas.SnapshotRoundTrip | app/modules/orders/services/delivery.py:62-97 | reading back a snapshot's JSON form gives the same snapshot |
| DeliverySchemas.StatusUpdateJson | app/modules/orders/services/delivery.py:124-127 | the `status_update` detail has the four update fields, with the ETA as JSON and the status as given |
| DeliverySchemas.StatusUpdateJsonInjective | app/modules/orders/services/delivery.py:126 | distinct updates leave distinct details |
| DeliverySchemas.StatusUpdateAsWritten | app/modules/orders/services/delivery.py:126 | as written, the detail fails to serialise exactly when an ETA is supplied |
| DeliverySchemas.StatusUpdateWithEta | app/modules/orders/services/delivery.py:126 | an update with an ETA fails as written, while the corrected detail records the ETA |
| DeliverySchemas.CacheSnapshotAsWritten | app/modules/orders/services/delivery.py:23-29 | as written, caching a snapshot always fails |
| DeliverySchemas.CacheSnapshotFails | app/modules/orders/services/delivery.py:23-29 | caching fails as written, whereas the snapshot's JSON form reads back to itself |
| DeliveryService.DeliveryKey | app/modules/orders/services/delivery.py:27 | the snapshot key is the entity key `"delivery:<order_id>"` |
| DeliveryService.Detail | app/modules/orders/services/delivery.py:52-58 | a detail is present exactly when the details carry the key with a non-null value, and is that value |
| DeliveryService.TimelineEvents | app/modules/orders/services/delivery.py:35-60 | the events succeed exactly when every entry has a new status; they are one per entry, in order, each with that entry's time, kind, status, notes-or-empty description and the three details |
| DeliveryService.TimelineAscending | app/modules/orders/services/delivery.py:193-201 | the timeline's timestamps strictly increase |
| DeliveryService.LastDriverIndex | app/modules/orders/services/delivery.py:204-208 | the last entry that names a driver, with no later entry naming one, or none at all |
| DeliveryService.LatestDriverSnoc | app/modules/orders/services/delivery.py:204-208 | a newer entry naming a driver becomes the latest driver, and one that does not leaves it as it was |
| DeliveryService.FindLatestDriver | app/modules/orders/services/delivery.py:204-208 | the reverse scan with `break` finds the driver of the newest entry that names one |
| DeliveryService.DriverField | app/modules/orders/services/delivery.py:215-216 | a missing or empty driver reads as `None`; a name read is the driver object's string under that key |
| DeliveryService.TimelineOf | app/modules/orders/services/delivery.py:200-219 | the timeline succeeds exactly when its events succeed and the driver's name and phone are readable |
| DeliveryService.SnapshotDriverField | app/modules/orders/services/delivery.py:90-91 | details without a driver read as no driver name or phone; a name read is the driver object's string under that key; the read fails exactly when the driver is present but not an object, or holds a value under the key that is neither null nor a string |
| DeliveryService.StatusOf | app/modules/orders/services/delivery.py:75-94 | no ETA fails validation; otherwise the snapshot holds the order's id, status value, ETA and cylinder count; with entries, the newest entry's time and notes, and the driver name, phone and location read from the newest entry's details (none of them when it has no details), Ok exactly when those reads validate; with none, `updated_at` and no driver, location or notes |
| DeliveryService.LastIsNewest | app/modules/orders/services/delivery.py:76-82 | the last of an order's entries is the newest of that order's entries |
| DeliveryService.LogsOfOrderSnoc | app/modules/orders/services/delivery.py:193-198 | appending an entry for an order adds it to that order's entries only |
| DeliveryService.DeliveryGuardAsWritten | app/modules/orders/services/delivery.py:112-113 | as written, the guard fails for every existing order |
| DeliveryService.DeliveryGuard | app/modules/orders/services/delivery.py:112-113 | passes exactly for accepted and in-transit orders, and otherwise fails with 400 "Order is not in delivery phase" |
| DeliveryService.DeliveryGuardAccepted | app/modules/orders/services/delivery.py:112 | an accepted order fails as written, passes the corrected guard, and a delivered order fails both |
| DeliveryService.UpdateCheck | app/modules/orders/services/delivery.py:107-117 | returns 404 for an unknown order, then 400 outside the delivery phase; passes exactly when the guard passes and the status string is the value or the member name of a status, which the enum column accepts |
| DeliveryService.UpdateCheckStatusSpelling | app/modules/orders/services/delivery.py:116-139 | on an order in its delivery phase, `"IN_TRANSIT"` and `"in_transit"` both give in transit, and `"In_Transit"` fails with a 500 |
| DeliveryService.UpdateDetails | app/modules/orders/services/delivery.py:124-129 | the details hold the location and the status update, plus the driver exactly when one is given |
| DeliveryService.UpdatedOrder | app/modules/orders/services/delivery.py:116-121 | the order takes the new status, and takes the ETA only when one is supplied; its cylinders and counters are kept |
| DeliveryService.SnapshotAfterUpdate | app/modules/orders/services/delivery.py:132-152 | after an update, a fresh snapshot reports the new status, the reported location and the entry's time, with no notes; the driver is this update's, or none |
| DeliveryService.StatuslessEntryBreaksTimeline | app/modules/orders/services/delivery.py:132-137 | an entry without a new status makes the whole timeline fail validation |
| DeliveryService.DeliveryTrackingService.constructor | app/modules/orders/services/delivery.py:20-21 | the service works on the given store and cache |
| DeliveryService.DeliveryTrackingService.CacheDeliveryStatus | app/modules/orders/services/delivery.py:23-29 | writes one key, the snapshot's JSON form under `"delivery:<order_id>"` |
| DeliveryService.DeliveryTrackingService.GetDeliveryStatus | app/modules/orders/services/delivery.py:62-97 | a hit is read back without the store and leaves the cache alone; a miss for an unknown order is 404; otherwise the snapshot comes from the order's newest entry and is cached only when it validated |
| DeliveryService.DeliveryTrackingService.GetDeliveryStatusTwice | app/modules/orders/services/delivery.py:62-97 | once a read succeeds, a second read returns the same snapshot |
| DeliveryService.DeliveryTrackingService.UpdateDeliveryStatus | app/modules/orders/services/delivery.py:107-139 | a failed check changes nothing; otherwise exactly that order is updated and exactly one delivery entry, with no new status, is appended at the commit time |
| DeliveryService.DeliveryTrackingService.GetDeliveryTimeline | app/modules/orders/services/delivery.py:185-219 | 404 for an unknown order; otherwise the order's id, status, ETA and counts, with one event per entry, in strictly ascending time, and the latest driver's name and phone |
| OrderService.IdsJson | app/modules/orders/service.py:201 | the JSON list holds the ids in order |
| OrderService.AcceptFields | app/modules/orders/service.py:182-190 | the order gets the vendor, the accepted status, the expected delivery and the cylinders, and nothing else changes |
| OrderService.DeliveryFields | app/modules/orders/service.py:223-229 | the status and both counters are overwritten, `delivered_at` changes only when given, and nothing else changes |
| OrderService.DeliveryUnguarded | app/modules/orders/service.py:219-229 | the delivery update reaches any target status from any status |
| OrderService.CancelledIsFinal | app/modules/orders/service.py:263-270 | a cancelled order can be neither cancelled again nor accepted |
| OrderService.AcceptReservesListed | app/modules/orders/service.py:164-190 | an acceptance that passes the count check assigns exactly the listed cylinders to the order, leaves the others alone, and takes them out of stock |
| OrderService.VendorData | app/modules/orders/service.py:127-143 | exactly the vendors with a location, each once, whose available stock covers the quantity |
| OrderService.AssignCylinders | app/modules/orders/service.py:187-190 | the loop assigns each matched cylinder to the order |
| OrderService.ReleaseCylinders | app/modules/orders/service.py:273-275 | the loop releases each of the order's cylinders |
| OrderService.OrderService.constructor | app/modules/orders/service.py:25-26 | the service works on the given store and cache |
| OrderService.OrderService.CacheOrder | app/modules/orders/service.py:28-44 | writes one key, the order's dictionary under `"order:<id>"` |
| OrderService.OrderService.Get | app/modules/orders/service.py:79-92 | returns the stored row whether the cache hits or not; a miss that finds the row caches it |
| OrderService.OrderService.Create | app/modules/orders/service.py:51-77 | a pending order with no vendor and no cylinders under a fresh id, one `created` entry by the hospital with "Order created", and the order cached |
| OrderService.OrderService.List | app/modules/orders/service.py:94-113 | the filtered orders, newest first, paged |
| OrderService.RankedOwnDistance | app/modules/orders/service.py:123-146 | every ranked pair is an eligible vendor at the distance from the delivery location to its own location |
| OrderService.RankedDistinct | app/modules/orders/service.py:123-146 | no vendor is ranked twice |
| OrderService.RankedComplete | app/modules/orders/service.py:123-146 | every eligible vendor within range is ranked, at its own distance |
| OrderService.OrderService.FindNearbyVendors | app/modules/orders/service.py:115-146 | exactly the eligible vendors within range, each once and at its own distance, sorted by distance |
| OrderService.OrderService.AcceptOrder | app/modules/orders/service.py:148-210 | 404, then 400 unless pending, then 400 unless the count matches; every failure leaves the store unchanged; success happens exactly for distinct available ids, sets the vendor, the status and the ETA, reserves the cylinders, and writes one `vendor_assigned` entry |
| OrderService.OrderService.UpdateDeliveryStatus | app/modules/orders/service.py:212-250 | 404 for an unknown order; otherwise the status and counters are overwritten from any status, and one `status_changed` entry with the old and new status is written |
| OrderService.OrderService.CancelOrder | app/modules/orders/service.py:252-292 | 404, then 400 unless pending or accepted, with nothing changed; success cancels the order, releases its cylinders, and writes one `cancelled` entry with the reason |
| OrderService.OrderService.CreateLog | app/modules/orders/service.py:294-300 | appends exactly one stamped entry |
| OrderService.OrderService.GetLogs | app/modules/orders/service.py:302-316 | the order's entries, newest first, paged |
| CylinderService.CacheAll | app/modules/cylinders/service.py:196 | every cylinder that was cached has its key in the cache |
| CylinderService.CacheAllSnoc | app/modules/cylinders/service.py:196 | caching one more cylinder writes its key last |
| CylinderService.BulkSet | app/modules/cylinders/service.py:176-179 | the new status always, the location only when one is given, and no other field |
| CylinderService.BulkRun | app/modules/cylinders/service.py:171-199 | the bulk loop neither adds nor removes a cylinder |
| CylinderService.BulkRunSnoc | app/modules/cylinders/service.py:173-196 | the loop over one more id is one more pass |
| CylinderService.BulkRunHit | app/modules/cylinders/service.py:175-196 | a pass over an id that resolves updates, logs, ticks and caches that one cylinder |
| CylinderService.BulkRunMiss | app/modules/cylinders/service.py:174-175 | an id that does not resolve changes nothing |
| CylinderService.Resolved | app/modules/cylinders/service.py:173-175 | exactly the listed ids that resolve, in input order |
| CylinderService.BulkTable | app/modules/cylinders/service.py:173-199 | every listed cylinder takes the new status (and location) and no other row changes |
| CylinderService.BulkSizes | app/modules/cylinders/service.py:173-199 | one reported cylinder, one log entry and one tick per resolved id, with the earlier entries kept |
| CylinderService.BulkCache | app/modules/cylinders/service.py:196 | the cache ends holding each reported cylinder, a later report of the same id winning |
| CylinderService.BulkReported | app/modules/cylinders/service.py:195 | the k-th reported cylinder is the k-th resolved id's row, updated, even when its status was already the new one |
| CylinderService.BulkLogAtLast | app/modules/cylinders/service.py:182-193 | the last pass over a resolving id adds its `status_changed` entry |
| CylinderService.BulkStatusAt | app/modules/cylinders/service.py:177 | after the loop a row has the new status exactly when its id was listed |
| CylinderService.BulkLogAt | app/modules/cylinders/service.py:181-193 | the k-th new log entry is a `status_changed` entry for the k-th resolved id, holding the status the row had when the loop reached it |
| CylinderService.BulkReportsNewStatus | app/modules/cylinders/service.py:171-199 | every reported cylinder was listed and has the new status |
| CylinderService.CylinderService.constructor | app/modules/cylinders/service.py:18-19 | the service works on the given store and cache |
| CylinderService.CylinderService.CacheCylinder | app/modules/cylinders/service.py:21-35 | writes one key, the cylinder's dictionary under `"cylinder:<id>"` |
| CylinderService.CylinderService.Get | app/modules/cylinders/service.py:80-93 | returns the stored row whether the cache hits or not; a miss that finds the row caches it |
| CylinderService.CylinderService.GetBySerialNumber | app/modules/cylinders/service.py:95-98 | the row with that serial number, or none exactly when no row carries it |
| CylinderService.CylinderService.Create | app/modules/cylinders/service.py:42-78 | a registered serial is refused with nothing changed; success happens exactly for a new serial, stores the cylinder under a fresh id with the caller as vendor and the input status, unassigned, writes one `created` entry, and caches the row |
| CylinderService.CylinderService.List | app/modules/cylinders/service.py:100-119 | the filtered cylinders, paged, each passing every applicable filter |
| CylinderService.CylinderService.Update | app/modules/cylinders/service.py:121-159 | 404 with nothing changed for a missing id; a 500 with nothing stored for an explicit null status; otherwise only the supplied fields change, a `status_changed` entry is written exactly when a different status is supplied, and the row is cached |
| CylinderService.CylinderService.LogStatusChange | app/modules/cylinders/service.py:143-154 | logs one entry with the old and new status exactly when a different status is supplied |
| CylinderService.CylinderService.SetFields | app/modules/cylinders/service.py:139-140 | the `setattr` loop changes only that row, as the supplied fields say |
| CylinderService.CylinderService.BulkOne | app/modules/cylinders/service.py:174-196 | one pass of the bulk loop |
| CylinderService.CylinderService.UpdateStatusBulk | app/modules/cylinders/service.py:161-199 | the state and the result are the whole bulk loop's, whose properties the `Bulk` lemmas state |
| CylinderService.CylinderService.CreateLog | app/modules/cylinders/service.py:201-207 | appends exactly one stamped entry |
| CylinderService.CylinderService.GetLogs | app/modules/cylinders/service.py:209-223 | the cylinder's entries, newest first, paged |
| CylinderService.CylinderService.Delete | app/modules/cylinders/service.py:225-244 | false with nothing changed for a missing id; otherwise one `deleted` entry with the old status, the row's key and the list keys invalidated, the row removed, and the earlier entries kept |

Some definitions that model source code have no contract of their own, so they have no row. The rows above state their behaviour, through the members that use them:

- `DeliveryService.TimelineEvent` (`_create_timeline_event`, app/modules/orders/services/delivery.py:35-60), through `DeliveryService.TimelineEvents`;
- `Store.EligibleVendor` (app/modules/orders/service.py:123-143), through `OrderService.VendorData` and the `OrderService.Ranked` lemmas;
- `Store.OrderFilter` (app/modules/orders/service.py:105-110), through `Store.ListOrders`;
- `Store.CylinderFilter` (app/modules/cylinders/service.py:109-116), through `Store.ListCylinders` and `Store.NullFlagNeverMatches`;
- `OrderModel.NewOrder` (app/modules/orders/service.py:55-60), through `OrderService.OrderService.Create` and `Store.Database.AddOrder`.

## Left out

- HTTP routing, role checks, authentication, payments and notification sending are not modelled. This includes the notification call in `update_delivery_status` (app/modules/orders/services/delivery.py:141-149) and `notify_*`/`broadcast_*` (app/core/websocket.py:39-67), which are network I/O.
- `websocket.accept()` is I/O and is not modelled (app/core/websocket.py:13,20). A socket is known only by its identity.
- Geo.CalculateDistance: the haversine formula is floating-point trigonometry, so it is a parameter of the model. Symmetry is a hypothesis of `Geo.DistanceSymmetric`, not a proved fact.
- Coordinates, radii and distances are Dafny reals. Floating-point rounding and NaN are not modelled.
- Cache values are the JSON values they encode, not JSON text. `json.dumps`/`json.loads`, the Redis connection and the key expiry (app/core/cache.py:15,37) are not modelled.
- Redis KEYS glob matching is modelled for `*` and `?` only. Character classes `[...]` and escapes are not modelled, and no service uses them.
- Database transactions, the separate commit inside `create_log`, `refresh`, and concurrency are not modelled. Each service operation is one atomic step.
- Timestamps are a logical clock. The wall-clock times, their ISO-8601 text and timezones are not modelled.
- The cylinder `created_at`/`updated_at` columns are not modelled. No core operation reads them.
- Store.CylindersById: the cylinder list query has no `ORDER BY`, so the database may return rows in any order. The model fixes ascending id.
- Store.ListOrders: `ORDER BY created_at DESC` is modelled as descending id. This is the same order, because ids and creation stamps are both assigned in commit order (`Store.OrdersKeyed`).
- OrderService.VendorData: the vendor query has no `ORDER BY`. The loop takes the vendors in an unspecified order, so the contract states the collected set and not its order.
- OrderService.OrderService.FindNearbyVendors: the order of vendors at equal distance depends on that unspecified order. The contract states membership, each vendor's own distance, no repeats and sortedness, not tie order. Geo.FindNearbyVendors does state stability.
- OrderService.OrderService.Create requires `quantity > 0`. This mirrors the validation of `OrderCreate` (app/modules/orders/schemas.py:8,13-17), which runs before the service is called.
- The unreachable code after the `return` in the delivery update (app/modules/orders/services/delivery.py:154-183) is left out, as is the un-awaited `get_delivery_status` coroutine returned at line 152. DeliveryService.DeliveryTrackingService.UpdateDeliveryStatus returns `()`.
- The delivery update neither invalidates nor rewrites the `delivery:<id>` entry, so a snapshot cached earlier stays stale. The model keeps this as written.
- DeliveryService.DeliveryTrackingService.UpdateDeliveryStatus relies on the SQLAlchemy enum column to turn the status string into a member. This is modelled as `OrderModel.ColumnStatus`, which accepts a member's value or its name. Any other string fails with a 500 at the commit. The column stores the member's name, which the model does not represent: rows hold members.
- Pydantic validation errors, attribute errors and serialisation errors that the handlers leave uncaught are modelled as one generic `HttpError(500, "Internal Server Error")`.
- Passwords.ValidatePassword: `str.isupper`, `str.islower` and `str.isdigit` are modelled on ASCII only. Python also accepts other Unicode letters and digits.
- The `app/modules/orders/schemas.py` module and the `app/modules/orders/schemas/` package have the same import name. Which one the services import is a packaging question that is not modelled: the model uses `DeliveryStatus`, `DeliveryUpdate`, `DeliveryTimelineEvent` and `DeliveryTimeline` as app/modules/orders/schemas/delivery.py defines them.
- The first column block of `Order` (app/modules/orders/models.py:15-27) is overridden only where the second block repeats a column. Its `payment_status` and `total_amount` columns (lines 22-23) stay mapped and are used by the payments module, which is not part of this model. Neither is modelled.
- OrderService.OrderService.Create: models a successful insert. `total_amount` is `NOT NULL` without a default, and `create` never sets it (app/modules/orders/service.py:57-60). An INSERT into a table created from this mapping would therefore fail, and the model does not capture that failure.
- `OrderService._invalidate_order_cache` (app/modules/orders/service.py:46-49) and `DeliveryTrackingService._invalidate_delivery_cache` (app/modules/orders/services/delivery.py:31-33) are never called, so they are not modelled.
- The ORM relationship mapping is taken as given. `Order.cylinders` (app/modules/orders/models.py:52) names a `Cylinder.orders` back-reference that does not exist. `Cylinder.current_order` (app/modules/cylinders/models.py:22) pairs with that same `Order.cylinders`, which goes through the association table instead. Whether this mapping configures is not modelled. Store.Database.RemoveCylinder keeps every log entry. It does not model what the database does with the `NOT NULL` `cylinder_logs.cylinder_id` rows of a deleted cylinder.
- Users are stored rows only. User service operations are not part of this model.

## Findings

| source | as written | input that shows it | evidently intended | confidence | as-written member | corrected member |
|---|---|---|---|---|---|---|
| app/modules/orders/services/delivery.py:112 | the delivery guard lists `OrderStatus.OUT_FOR_DELIVERY`, and the log uses `OrderEventType.DELIVERY_UPDATE` (line 134). Neither member exists in app/modules/orders/enums.py:3-23, so building the list raises `AttributeError` (a 500) for every existing order | any existing order, e.g. one in status `accepted` | orders that are accepted or in transit pass, others get 400 "Order is not in delivery phase", and the entry is logged under a delivery-update kind | high (not executed) | DeliveryService.DeliveryGuardAsWritten | DeliveryService.DeliveryGuard |
| app/modules/orders/services/delivery.py:28 | `cache.set` runs `json.dumps` on `status.model_dump()`, which keeps `eta` and `last_updated` as `datetime` values, so caching raises `TypeError` and `get_delivery_status` fails after building the snapshot (line 96). A hit (line 67) would also pass the raw string from `cache.get` (app/core/cache.py:21-24) to `DeliveryStatus(**cached)` | any order with an expected delivery, read once | the snapshot is cached in its JSON form and a later hit reads it back as the same snapshot (`DeliverySchemas.SnapshotRoundTrip`) | high (not executed) | DeliverySchemas.CacheSnapshotAsWritten | DeliverySchemas.StatusJson |
| app/modules/orders/services/delivery.py:126 | the `status_update` detail is `update.model_dump()`, whose `eta` is a `datetime`, which the JSON column cannot serialise, so the commit fails whenever an ETA is supplied | a delivery update with `eta` set | the detail records the update with the ETA in its JSON form | high (not executed) | DeliverySchemas.StatusUpdateAsWritten | DeliverySchemas.StatusUpdateJson |
