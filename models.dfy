/**
 * Record shapes shared by the gateway: primary keys, column values, stored rows,
 * request payloads (pydantic models) and the audit-log row of api/src/models/database.py.
 */
module Models {
  import opened Wrappers

  /** A UUID, in its canonical text form (so that it can be embedded in messages). */
  type Uuid = string

  /** A column value, as the gateway sees it. `VNone` is Python's `None`. */
  datatype Value =
    | VNone
    | VStr(s: string)
    | VInt(i: int)
    | VBool(b: bool)
    | VId(id: Uuid)

  /** Python truthiness of a value: `None`, `""`, `0` and `False` are falsy; a UUID object is always truthy. */
  predicate Truthy(v: Value)
  {
    match v
    case VNone => false
    case VStr(s) => s != ""
    case VInt(i) => i != 0
    case VBool(b) => b
    case VId(_) => true
  }

  /** The non-key columns of a row, by column name. */
  type Record = map<string, Value>

  /** A mapped object: its primary key and its other columns. */
  datatype Entity = Entity(key: Uuid, fields: Record)

  /**
   * A pydantic request model: every declared field has a value (possibly its default),
   * and `explicitlySet` names the fields the caller actually supplied.
   */
  datatype Payload = Payload(values: map<string, Value>, explicitlySet: set<string>)

  /** `model_dump(exclude_unset=True)`: the fields the caller set, with their values. */
  function SetFields(p: Payload): (d: map<string, Value>)
    ensures d.Keys == p.values.Keys * p.explicitlySet
    ensures forall f :: f in d ==> d[f] == p.values[f]
  {
    map f | f in p.values && f in p.explicitlySet :: p.values[f]
  }

  /** One row of the `ActivityLog` table (api/src/models/database.py:30-58, relationships left out). */
  datatype ActivityLog = ActivityLog(
    activityId: Uuid,
    userId: Option<Uuid>,
    projectId: Option<Uuid>,
    statusCode: int,
    actionType: string,
    actionDesc: string,
    details: Option<string>,
    timestamp: int)
}
