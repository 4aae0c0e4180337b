/**
 The values every handler works on: JSON values as request bodies carry them,
 entity records (an object's attributes keyed by name), requests and responses.
 */
module Model {

  datatype Option<T> = None | Some(value: T)

  /** A JSON value. Numbers are integers; floating point is not modelled. */
  datatype Value =
    | Null
    | Bool(b: bool)
    | Num(n: int)
    | Str(s: string)
    | Arr(items: seq<Value>)
    | Obj(fields: map<string, Value>)

  type Id = string

  /** The attributes of one stored object, keyed by attribute name. */
  type Record = map<string, Value>

  /** The attributes every object gets from the base model, never from a payload. */
  const Meta: set<string> := {"id", "created_at", "updated_at"}

  /** Python truthiness of a JSON value, as `if states:` tests it. */
  predicate Truthy(v: Value)
    ensures !Truthy(v) <==> v in {Null, Bool(false), Num(0), Str(""), Arr([]), Obj(map[])}
  {
    match v
    case Null => false
    case Bool(b) => b
    case Num(n) => n != 0
    case Str(s) => s != ""
    case Arr(xs) => xs != []
    case Obj(m) => m != map[]
  }

  /**
   An HTTP request as a handler sees it: whether `request.is_json` holds, and
   what `request.get_json()` gives back (None when there is no JSON object).
   */
  datatype Request = Request(isJson: bool, body: Option<Record>)

  /** The parsed body, with "no body" read as the empty object. */
  function Payload(req: Request): Record
  {
    if req.body.Some? then req.body.value else map[]
  }

  /** `if not data` fails: there is a body and it is a non-empty object. */
  predicate HasData(req: Request)
    ensures HasData(req) <==> req.body.Some? && |req.body.value| > 0
  {
    Payload(req) != map[]
  }

  /** Both guards of a POST or PUT pass: `request.is_json` holds and `data` is not empty. */
  predicate JsonObject(req: Request)
    ensures JsonObject(req) <==> req.isJson && req.body.Some? && |req.body.value| > 0
  {
    req.isJson && HasData(req)
  }

  /** What a handler answers with, before `jsonify`. */
  datatype Body =
    | One(rec: Record)
    | Many(recs: set<Record>)
    | Links(ids: seq<Id>)
    | EmptyObject

  /**
   A handler's answer: a success with its body (`Ok` is status 200, `Created`
   201), or the `abort` it raises (`BadRequest` 400 with its description,
   `NotFound` 404).
   */
  datatype Response =
    | Ok(body: Body)
    | Created(body: Body)
    | BadRequest(reason: string)
    | NotFound

  /** The record holds `id` as the string value of attribute `field`. */
  predicate RefersTo(rec: Record, field: string, id: Id)
  {
    field in rec && rec[field] == Str(id)
  }

  /** A payload value names an object of `table` (`storage.get(User, user_id)` finds it). */
  predicate Resolves(table: map<Id, Record>, v: Value)
    ensures Resolves(table, v) <==> exists id :: id in table && v == Str(id)
  {
    v.Str? && v.s in table
  }

  /**
   The object `Cls(**data)` followed by `save()` stores: every payload key
   becomes an attribute, and the base model assigns the fresh id and both
   timestamps over whatever the payload said for them.
   */
  function NewRecord(data: Record, id: Id, now: Value): (r: Record)
    ensures r.Keys == data.Keys + Meta
    ensures RefersTo(r, "id", id) && r["created_at"] == now && r["updated_at"] == now
    ensures forall k :: k in data && k !in Meta ==> r[k] == data[k]
  {
    data["id" := Str(id)]["created_at" := now]["updated_at" := now]
  }

  /**
   The object a nested POST (`/<parents>/<parent_id>/<children>`) stores:
   `NewRecord` of the payload with the foreign key `fk` set to the parent of
   the path, whatever the payload said for it.
   */
  function NewChild(data: Record, fk: string, parent: Id, id: Id, now: Value): (r: Record)
    requires fk !in Meta
    ensures r.Keys == data.Keys + Meta + {fk}
    ensures RefersTo(r, "id", id) && RefersTo(r, fk, parent)
    ensures r["created_at"] == now && r["updated_at"] == now
    ensures forall k :: k in data && k !in Meta && k != fk ==> r[k] == data[k]
  {
    NewRecord(data, id, now)[fk := Str(parent)]
  }

  /**
   The objects of `table` whose foreign key `fk` names `parent`: what an
   ORM relationship such as `state.cities` yields.
   */
  function Children(table: map<Id, Record>, fk: string, parent: Id): (r: set<Record>)
    ensures forall rec :: rec in r <==> rec in table.Values && RefersTo(rec, fk, parent)
  {
    set id | id in table && RefersTo(table[id], fk, parent) :: table[id]
  }
}
