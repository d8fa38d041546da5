/** Shared value types: optional values, results, HTTP errors, JSON payloads,
    locations and the offset/limit paging used by every list query. */
module Common {

  datatype Option<+T> = None | Some(value: T)

  datatype Result<+T, +E> = Ok(value: T) | Err(error: E)

  /** An HTTPException as raised by the services: status code and detail. */
  datatype HttpError = HttpError(status: int, detail: string)

  /** Any exception the handlers leave uncaught (a pydantic `ValidationError`,
      an `AttributeError`, a serialisation `TypeError`, a
      database `IntegrityError`) reaches the client as
      the framework's generic 500 response. */
  const InternalError := HttpError(500, "Internal Server Error")

  /** A `datetime` value; only its order matters to the model. */
  type Timestamp = int

  /** A JSON value as stored in the JSON columns (`details`, `location`).
      Python's `None` and JSON `null` are the same value, `JNull`. */
  datatype Json =
    | JNull
    | JBool(b: bool)
    | JInt(i: int)
    | JNum(r: real)
    | JStr(s: string)
    | JList(items: seq<Json>)
    | JObject(fields: map<string, Json>)

  /** Python truthiness of a JSON value. */
  predicate JsonTruthy(j: Json)
  {
    match j
    case JNull => false
    case JBool(b) => b
    case JInt(i) => i != 0
    case JNum(r) => r != 0.0
    case JStr(s) => s != ""
    case JList(items) => items != []
    case JObject(fields) => fields != map[]
  }

  /** `d.get(key)` on a JSON object; `None` for a missing key, a `null`
      value, or a value that is not an object. */
  function Field(j: Json, key: string): (r: Option<Json>)
    ensures r.Some? <==> j.JObject? && key in j.fields && j.fields[key] != JNull
    ensures r.Some? ==> r.value == j.fields[key]
  {
    if j.JObject? && key in j.fields && j.fields[key] != JNull then Some(j.fields[key]) else None
  }

  /** An optional string rendered as JSON. */
  function OptStr(s: Option<string>): Json
  {
    if s.Some? then JStr(s.value) else JNull
  }

  /** An optional float rendered as JSON. */
  function OptNum(x: Option<real>): Json
  {
    if x.Some? then JNum(x.value) else JNull
  }

  /** A timestamp rendered as JSON. The model writes the instant itself where
      the program writes its ISO-8601 text; only equality and order matter. */
  function TimeJson(t: Timestamp): Json
  {
    JInt(t)
  }

  /** The `Location` schema (app/modules/cylinders/schemas.py), shared by
      orders, cylinders and users. Coordinates are reals; floating point
      rounding is not modelled. */
  datatype Location = Location(
    address: Option<string>,
    latitude: Option<real>,
    longitude: Option<real>,
    notes: Option<string>)

  /** `.offset(skip).limit(limit)` on a query result. */
  function Page<T>(s: seq<T>, skip: nat, limit: nat): (r: seq<T>)
    ensures |r| == if skip >= |s| then 0 else if |s| - skip < limit then |s| - skip else limit
    ensures forall k :: 0 <= k < |r| ==> skip + k < |s| && r[k] == s[skip + k]
  {
    if skip >= |s| then []
    else if |s| - skip < limit then s[skip..]
    else s[skip..skip + limit]
  }

  /** The sequence in reverse order. */
  function Reverse<T>(s: seq<T>): (r: seq<T>)
    ensures |r| == |s|
    ensures forall k :: 0 <= k < |s| ==> r[k] == s[|s| - 1 - k]
  {
    if s == [] then [] else Reverse(s[1..]) + [s[0]]
  }

  /** A location as its `model_dump()` dictionary. */
  function LocationJson(l: Location): (j: Json)
    ensures j.JObject? && j.fields.Keys == {"address", "latitude", "longitude", "notes"}
    ensures j.fields["latitude"] == OptNum(l.latitude) && j.fields["longitude"] == OptNum(l.longitude)
  {
    JObject(map["address" := OptStr(l.address), "latitude" := OptNum(l.latitude),
                "longitude" := OptNum(l.longitude), "notes" := OptStr(l.notes)])
  }

  function OptLocationJson(l: Option<Location>): Json
  {
    if l.Some? then LocationJson(l.value) else JNull
  }
}
