/**
 * The generic persistence gateway (api/src/utils/helper.py): create, read, update and
 * delete over one entity table, and the filtered-list query `db_filter`.
 */
module Helper {
  import opened Wrappers
  import opened Models
  import opened Exceptions
  import opened Strings

  /** The 404 detail `read` gives for a missing key. */
  function NotFoundDetail(typeName: string, key: Uuid): string
  {
    typeName + " with id " + key + " not found"
  }

  /** The prefix of the 500 detail `read` gives when the store lookup itself fails. */
  const ReadErrorPrefix := "Database read error: "

  /** The columns of `fields` overwritten by exactly the entries of `patch`. */
  function Merge(fields: Record, patch: map<string, Value>): (merged: Record)
    ensures merged.Keys == fields.Keys + patch.Keys
    ensures forall f :: f in patch ==> merged[f] == patch[f]
    ensures forall f :: f in fields && f !in patch ==> merged[f] == fields[f]
  {
    fields + patch
  }

  /** An empty patch changes nothing. */
  lemma MergeEmptyIsIdentity(fields: Record)
    ensures Merge(fields, map[]) == fields
  {
  }

  /** The `ValueError` pydantic raises for `setattr` of a name the entity class does not declare. */
  function NoFieldMessage(typeName: string, field: string): string
  {
    "\"" + typeName + "\" object has no field \"" + field + "\""
  }

  /**
   * The `setattr` loop of `update`: apply the dumped patch to an object's columns one
   * entry at a time. A patch entry that names no declared attribute of the entity class
   * raises a `ValueError`, which stops the loop.
   */
  method ApplyPatch(typeName: string, declared: set<string>, fields: Record, patch: map<string, Value>)
    returns (r: Result<Record, Exception>)
    ensures patch.Keys <= declared ==> r == Success(Merge(fields, patch))
    ensures !(patch.Keys <= declared) ==>
      exists f :: f in patch && f !in declared && r == Failure(ValueError(NoFieldMessage(typeName, f)))
  {
    var merged := fields;
    var pending := patch.Keys;
    while pending != {}
      invariant pending <= patch.Keys
      invariant patch.Keys - pending <= declared
      invariant merged.Keys == fields.Keys + (patch.Keys - pending)
      invariant forall f :: f in patch && f !in pending ==> merged[f] == patch[f]
      invariant forall f :: f in fields && (f !in patch || f in pending) ==> merged[f] == fields[f]
      decreases pending
    {
      var key :| key in pending;
      if key !in declared {
        assert !(patch.Keys <= declared) by { assert key in patch.Keys; }
        return Failure(ValueError(NoFieldMessage(typeName, key)));
      }
      merged := merged[key := patch[key]];
      pending := pending - {key};
    }
    assert merged.Keys == Merge(fields, patch).Keys;
    assert merged == Merge(fields, patch);
    r := Success(merged);
  }

  /**
   * One entity table, reached through the session. `typeName` is the mapped class name
   * (`db.__name__`) and `columns` the attributes that class declares besides its key;
   * `tableName`, `pkName` and `uniqueColumns` describe the table's constraints, which
   * the store checks at commit time.
   */
  class Table {
    const typeName: string
    const tableName: string
    const pkName: string
    const columns: set<string>
    const uniqueColumns: seq<string>
    var rows: map<Uuid, Record>

    constructor (typeName: string, tableName: string, pkName: string, columns: set<string>, uniqueColumns: seq<string>)
      ensures this.typeName == typeName && this.tableName == tableName && this.columns == columns
      ensures this.pkName == pkName && this.uniqueColumns == uniqueColumns
      ensures rows == map[] && Valid()
    {
      this.typeName := typeName;
      this.tableName := tableName;
      this.pkName := pkName;
      this.columns := columns;
      this.uniqueColumns := uniqueColumns;
      rows := map[];
    }

    /**
     * The store's uniqueness guarantee: no two stored rows hold the same non-`None`
     * value in a unique column.
     */
    predicate Valid()
      reads this
    {
      forall col, k1, k2 ::
        (col in uniqueColumns && k1 in rows && k2 in rows && k1 != k2 &&
         col in rows[k1] && col in rows[k2] && rows[k1][col] != VNone) ==> rows[k1][col] != rows[k2][col]
    }

    /**
     * `scan` lists exactly the stored rows, each once, with their keys (in some order:
     * the store's natural one).
     */
    predicate IsScan(scan: seq<Entity>)
      reads this
    {
      && (forall i, j :: 0 <= i < j < |scan| ==> scan[i].key != scan[j].key)
      && (forall i :: 0 <= i < |scan| ==> scan[i].key in rows && rows[scan[i].key] == scan[i].fields)
      && (forall k :: k in rows ==> exists i :: 0 <= i < |scan| && scan[i].key == k)
    }

    /**
     * Over a scan of this table, every row `db_filter` returns, in any mode, is a stored
     * row: its key is stored and its columns are the stored ones.
     */
    lemma FilterReturnsStoredRows(scan: seq<Entity>, matchValue: Value, matchField: Option<string>,
                                  orderKey: Entity -> int, mode: FilterMode, limit: int, offset: int)
      requires IsScan(scan)
      ensures var r := DbFilter(scan, matchValue, matchField, orderKey, mode, limit, offset);
        && (r.Success? && r.value.Many? ==>
              forall e :: e in r.value.items ==> e.key in rows && rows[e.key] == e.fields)
        && (r.Success? && r.value.One? && r.value.item.Some? ==>
              r.value.item.value.key in rows && rows[r.value.item.value.key] == r.value.item.value.fields)
    {
      forall e | e in scan
        ensures e.key in rows && rows[e.key] == e.fields
      {
        var i :| 0 <= i < |scan| && scan[i] == e;
      }
      if QueryArguments(matchValue, matchField, limit, offset) {
        var cands := Candidates(scan, matchValue, matchField);
        assert forall e :: e in cands ==> e in scan;
        if mode == All {
          FilterAllIsWindow(scan, matchValue, matchField, orderKey, limit, offset);
        }
      }
    }

    /** Some other row already holds `obj`'s non-`None` value of the unique column `col`. */
    predicate TakenByOther(obj: Entity, col: string)
      reads this
    {
      col in obj.fields && obj.fields[col] != VNone &&
      exists k :: k in rows && k != obj.key && col in rows[k] && rows[k][col] == obj.fields[col]
    }

    /** The first of `cols`, in declaration order, whose value `obj` would duplicate. */
    function FirstTaken(obj: Entity, cols: seq<string>): (c: Option<string>)
      reads this
      ensures c.Some? ==> c.value in cols && TakenByOther(obj, c.value)
      ensures c.None? ==> forall col :: col in cols ==> !TakenByOther(obj, col)
    {
      if cols == [] then None
      else if TakenByOther(obj, cols[0]) then Some(cols[0])
      else FirstTaken(obj, cols[1..])
    }

    /**
     * The constraint a commit of `obj` would violate, if any. A new (not `attached`)
     * object whose key is already stored violates the primary key; any object violates
     * a unique column that another row already holds.
     */
    function Clash(obj: Entity, attached: bool): (c: Option<string>)
      reads this
      ensures c.None? <==>
        (attached || obj.key !in rows) && forall col :: col in uniqueColumns ==> !TakenByOther(obj, col)
      ensures !attached && obj.key in rows ==> c == Some(pkName)
    {
      if !attached && obj.key in rows then Some(pkName) else FirstTaken(obj, uniqueColumns)
    }

    /** The store's message for a violated uniqueness constraint. */
    function ConflictMessage(col: string): string
      reads this
    {
      "UNIQUE constraint failed: " + tableName + "." + col
    }

    /**
     * What `create` returns for `obj` given what the commit reports: the object itself,
     * or the commit failure sorted into 409, 422 or 500. A detected constraint
     * violation overrides the reported outcome.
     */
    function CreateOutcome(obj: Entity, attached: bool, outcome: CommitOutcome): (r: Result<Entity, Exception>)
      reads this
      ensures r.Success? <==> Clash(obj, attached).None? && outcome.Committed?
      ensures r.Success? ==> r.value == obj
      ensures r.Failure? ==> r.error.HTTPException? && r.error.statusCode in {409, 422, 500}
      ensures !attached && obj.key in rows ==>
        r == Failure(HTTPException(409, ConflictMessage(pkName)))
      ensures Clash(obj, attached).Some? ==>
        r == Failure(HTTPException(409, ConflictMessage(Clash(obj, attached).value)))
      ensures Clash(obj, attached).None? && outcome.IntegrityError? ==>
        r == Failure(HTTPException(409, outcome.orig))
      ensures Clash(obj, attached).None? && outcome.ValidationError? ==>
        r == Failure(HTTPException(422, outcome.text))
      ensures Clash(obj, attached).None? && outcome.OtherError? ==>
        r == Failure(HTTPException(500, outcome.text))
    {
      match Clash(obj, attached)
      case Some(col) => Failure(HTTPException(409, ConflictMessage(col)))
      case None =>
        match outcome
        case Committed => Success(obj)
        case IntegrityError(orig, _) => Failure(HTTPException(409, orig))
        case ValidationError(text) => Failure(HTTPException(422, text))
        case OtherError(text) => Failure(HTTPException(500, text))
    }

    /**
     * `read`: look a key up. `lookupError` is what the store raised, if it raised. A
     * missing key gives 404 when `raiseEmpty`, and otherwise trips the source's
     * `assert obj is not None`: an absent value is never returned.
     */
    function Read(key: Uuid, raiseEmpty: bool := true, lookupError: Option<string> := None): (r: Result<Entity, Exception>)
      reads this
      ensures r.Success? <==> lookupError.None? && key in rows
      ensures r.Success? ==> r.value == Entity(key, rows[key])
      ensures lookupError.Some? ==> r == Failure(HTTPException(500, ReadErrorPrefix + lookupError.value))
      ensures lookupError.None? && key !in rows && raiseEmpty ==>
        r == Failure(HTTPException(404, NotFoundDetail(typeName, key)))
      ensures lookupError.None? && key !in rows && !raiseEmpty ==>
        r == Failure(OtherException("AssertionError", ""))
    {
      if lookupError.Some? then Failure(HTTPException(500, ReadErrorPrefix + lookupError.value))
      else if key !in rows && raiseEmpty then Failure(HTTPException(404, NotFoundDetail(typeName, key)))
      else if key !in rows then Failure(OtherException("AssertionError", ""))
      else Success(Entity(key, rows[key]))
    }

    /**
     * `create`: add `obj` and commit. On success the object is stored under its key and
     * returned; on any failure the session is rolled back and nothing changes.
     * `attached` says the object was loaded from this session (the `update` path).
     */
    method Create(obj: Entity, attached: bool, outcome: CommitOutcome) returns (r: Result<Entity, Exception>)
      requires Valid()
      modifies this
      ensures Valid()
      ensures r == old(CreateOutcome(obj, attached, outcome))
      ensures r.Success? ==> rows == old(rows)[obj.key := obj.fields]
      ensures r.Failure? ==> rows == old(rows)
      ensures r.Success? ==> Read(obj.key) == Success(obj)
    {
      var clash := Clash(obj, attached);
      if clash.Some? {
        return Failure(HTTPException(409, ConflictMessage(clash.value)));
      }
      match outcome {
        case Committed =>
          rows := rows[obj.key := obj.fields];
          r := Success(obj);
        case IntegrityError(orig, _) =>
          r := Failure(HTTPException(409, orig));
        case ValidationError(text) =>
          r := Failure(HTTPException(422, text));
        case OtherError(text) =>
          r := Failure(HTTPException(500, text));
      }
    }

    /**
     * `update`: read the object (a failure propagates unchanged), overwrite the fields
     * the caller set, then persist through `create`. A set field the entity class does
     * not declare raises a `ValueError` before anything is committed.
     */
    method Update(key: Uuid, content: Payload, lookupError: Option<string>, outcome: CommitOutcome)
      returns (r: Result<Entity, Exception>)
      requires Valid()
      modifies this
      ensures Valid()
      ensures old(Read(key, true, lookupError)).Failure? ==>
        r == old(Read(key, true, lookupError)) && rows == old(rows)
      ensures old(Read(key, true, lookupError)).Success? && SetFields(content).Keys <= columns ==>
        r == old(CreateOutcome(Entity(key, Merge(rows[key], SetFields(content))), true, outcome))
      ensures old(Read(key, true, lookupError)).Success? && !(SetFields(content).Keys <= columns) ==>
        && rows == old(rows)
        && exists f :: f in SetFields(content) && f !in columns && r == Failure(ValueError(NoFieldMessage(typeName, f)))
      ensures r.Success? ==> key in old(rows) && rows == old(rows)[key := Merge(old(rows)[key], SetFields(content))]
      ensures r.Failure? ==> rows == old(rows)
    {
      var found := Read(key, true, lookupError);
      if found.Failure? {
        return found;
      }
      var obj := found.value;
      var patched := ApplyPatch(typeName, columns, obj.fields, SetFields(content));
      if patched.Failure? {
        return Failure(patched.error);
      }
      r := Create(Entity(obj.key, patched.value), true, outcome);
    }

    /**
     * An update that sets no field commits the stored row as it is: since the table keeps
     * its uniqueness invariant, the row clashes with no other.
     */
    lemma EmptyPatchUpdateSucceeds(key: Uuid)
      requires Valid() && key in rows
      ensures CreateOutcome(Entity(key, Merge(rows[key], map[])), true, Committed) == Success(Entity(key, rows[key]))
    {
      assert Merge(rows[key], map[]) == rows[key];
    }

    /**
     * `delete`: read the object (a failure propagates unchanged), remove it and commit;
     * a failed commit is rolled back and gives 500.
     */
    method Delete(key: Uuid, lookupError: Option<string>, outcome: CommitOutcome) returns (r: Result<bool, Exception>)
      requires Valid()
      modifies this
      ensures Valid()
      ensures old(Read(key, true, lookupError)).Failure? ==>
        r == Failure(old(Read(key, true, lookupError)).error) && rows == old(rows)
      ensures old(Read(key, true, lookupError)).Success? && outcome.Committed? ==>
        r == Success(true) && rows == old(rows) - {key}
      ensures old(Read(key, true, lookupError)).Success? && !outcome.Committed? ==>
        r == Failure(HTTPException(500, outcome.Text())) && rows == old(rows)
      ensures r.Success? ==> Read(key) == Failure(HTTPException(404, NotFoundDetail(typeName, key)))
    {
      var found := Read(key, true, lookupError);
      if found.Failure? {
        return Failure(found.error);
      }
      if outcome.Committed? {
        rows := rows - {key};
        r := Success(true);
      } else {
        r := Failure(HTTPException(500, outcome.Text()));
      }
    }
  }

  /** `FilterMode`: which of the matching rows `db_filter` returns. */
  datatype FilterMode = First | Last | All

  /** What `db_filter` returns: a list (mode ALL, or `limit == 0`) or at most one row. */
  datatype Selection = Many(items: seq<Entity>) | One(item: Option<Entity>)

  /** Largest `limit` one call may ask for. */
  const MaxLimit := 100

  const LimitNegative := "Limit cannot be less than 0"
  const OffsetNegative := "Offset cannot be less than 0"
  const LimitTooLarge := "Limit must not exceed by 100 per transaction"
  const NotPaired := "obj_id and field_comp must both be provided together."

  /** The row's `field` column equals `value` (the `where(field_comp == obj_id)` test). */
  predicate Matches(row: Entity, field: string, value: Value)
  {
    field in row.fields && row.fields[field] == value
  }

  /** The rows of `scan` whose `field` equals `value`, in scan order. */
  function Filtered(scan: seq<Entity>, field: string, value: Value): (s: seq<Entity>)
    ensures |s| <= |scan|
    ensures forall row :: row in s <==> row in scan && Matches(row, field, value)
  {
    if scan == [] then []
    else if Matches(scan[0], field, value) then [scan[0]] + Filtered(scan[1..], field, value)
    else Filtered(scan[1..], field, value)
  }

  /**
   * Filtering keeps the scan's order and its repeats: filtering a scan extended by one
   * row extends the filtered scan by that row exactly when it matches.
   */
  lemma {:induction false} FilteredAppend(scan: seq<Entity>, row: Entity, field: string, value: Value)
    ensures Filtered(scan + [row], field, value) ==
      Filtered(scan, field, value) + (if Matches(row, field, value) then [row] else [])
    decreases |scan|
  {
    if scan != [] {
      assert (scan + [row])[1..] == scan[1..] + [row];
      FilteredAppend(scan[1..], row, field, value);
    }
  }

  /** The first filtered row is the earliest matching row of the scan. */
  lemma {:induction false} FilteredHeadIsEarliest(scan: seq<Entity>, field: string, value: Value)
    requires Filtered(scan, field, value) != []
    ensures exists j ::
      && 0 <= j < |scan|
      && Filtered(scan, field, value)[0] == scan[j]
      && Matches(scan[j], field, value)
      && forall i :: 0 <= i < j ==> !Matches(scan[i], field, value)
    decreases |scan|
  {
    if !Matches(scan[0], field, value) {
      FilteredHeadIsEarliest(scan[1..], field, value);
      var j :| 0 <= j < |scan[1..]| && Filtered(scan[1..], field, value)[0] == scan[1..][j]
        && Matches(scan[1..][j], field, value)
        && forall i :: 0 <= i < j ==> !Matches(scan[1..][i], field, value);
      assert forall i :: 0 <= i < j + 1 ==> !Matches(scan[i], field, value) by {
        forall i | 0 <= i < j + 1
          ensures !Matches(scan[i], field, value)
        {
          if i > 0 { assert scan[i] == scan[1..][i - 1]; }
        }
      }
      assert Filtered(scan, field, value)[0] == scan[j + 1];
    } else {
      assert Filtered(scan, field, value)[0] == scan[0];
    }
  }

  /** The rows the query ranges over: all of them, or only the matches when both filter parts are given. */
  function Candidates(scan: seq<Entity>, matchValue: Value, matchField: Option<string>): seq<Entity>
  {
    if Truthy(matchValue) && matchField.Some? then Filtered(scan, matchField.value, matchValue) else scan
  }

  /** `LIMIT limit OFFSET offset`: positions `[offset, offset + limit)` of `s`, cut at its end. */
  function Window(s: seq<Entity>, offset: nat, limit: nat): (w: seq<Entity>)
    ensures |w| <= limit
    ensures offset >= |s| ==> w == []
    ensures offset < |s| ==> w == s[offset..if offset + limit < |s| then offset + limit else |s|]
  {
    if offset >= |s| then []
    else if offset + limit < |s| then s[offset..offset + limit]
    else s[offset..]
  }

  /** `ORDER BY indexer DESC LIMIT 1`: a row of greatest `orderKey`, the earliest such on ties. */
  function Greatest(s: seq<Entity>, orderKey: Entity -> int): (m: Option<Entity>)
    ensures m.None? <==> s == []
    ensures m.Some? ==> m.value in s && forall row :: row in s ==> orderKey(row) <= orderKey(m.value)
  {
    if s == [] then None
    else match Greatest(s[1..], orderKey)
      case None => Some(s[0])
      case Some(best) => if orderKey(best) > orderKey(s[0]) then Some(best) else Some(s[0])
  }

  /** The argument checks that fail, in the order the source appends them. */
  function BoundsViolations(limit: int, offset: int): (errors: seq<string>)
    ensures |errors| <= 2
    ensures errors == [] <==> limit >= 0 && offset >= 0
  {
    (if limit < 0 then [LimitNegative] else []) + (if offset < 0 then [OffsetNegative] else [])
  }

  /**
   * `db_filter` over a scan of the table: its rows, with their keys, in the store's
   * natural order (`Table.IsScan` ties a scan to a table). `matchValue`/`matchField` are
   * `obj_id`/`field_comp` (a column is given or not); `orderKey` ranks rows by the
   * `indexer` column.
   */
  function DbFilter(scan: seq<Entity>, matchValue: Value, matchField: Option<string>,
                    orderKey: Entity -> int, mode: FilterMode := First,
                    limit: int := 5, offset: int := 0): (r: Result<Selection, Exception>)
    ensures limit < 0 && offset < 0 ==>
      r == Failure(ValueError(LimitNegative + " | " + OffsetNegative))
    ensures limit < 0 && offset >= 0 ==> r == Failure(ValueError(LimitNegative))
    ensures limit >= 0 && offset < 0 ==> r == Failure(ValueError(OffsetNegative))
    ensures offset >= 0 && limit > MaxLimit ==> r == Failure(ValueError(LimitTooLarge))
    ensures offset >= 0 && limit == 0 ==> r == Success(Many([]))
    ensures offset >= 0 && 0 < limit <= MaxLimit && Truthy(matchValue) != matchField.Some? ==>
      r == Failure(ValueError(NotPaired))
    ensures r.Success? ==> 0 <= limit <= MaxLimit && offset >= 0
    ensures r.Failure? ==> r.error.ValueError?
  {
    var errors := BoundsViolations(limit, offset);
    if errors != [] then
      JoinPair(LimitNegative, OffsetNegative, " | ");
      Failure(ValueError(Join(errors, " | ")))
    else if limit > MaxLimit then Failure(ValueError(LimitTooLarge))
    else if limit == 0 then Success(Many([]))
    else if Truthy(matchValue) != matchField.Some? then Failure(ValueError(NotPaired))
    else
      var rows := Candidates(scan, matchValue, matchField);
      match mode
      case All => Success(Many(Window(rows, offset, limit)))
      case First => Success(One(if rows == [] then None else Some(rows[0])))
      case Last => Success(One(Greatest(rows, orderKey)))
  }

  /** The arguments `db_filter` accepts without raising and without short-circuiting. */
  predicate QueryArguments(matchValue: Value, matchField: Option<string>, limit: int, offset: int)
  {
    0 < limit <= MaxLimit && offset >= 0 && Truthy(matchValue) == matchField.Some?
  }

  /** The row is one the query asks for: any row without a filter, a matching one with it. */
  predicate Wanted(row: Entity, matchValue: Value, matchField: Option<string>)
  {
    matchField.None? || Matches(row, matchField.value, matchValue)
  }

  /**
   * Mode ALL returns the candidate rows at positions `[offset, offset + limit)`: at most
   * `limit` of them, each a row of the scan that matches the filter when one is given,
   * and none at all once `offset` is past the last candidate.
   */
  lemma FilterAllIsWindow(scan: seq<Entity>, matchValue: Value, matchField: Option<string>,
                          orderKey: Entity -> int, limit: int, offset: int)
    requires QueryArguments(matchValue, matchField, limit, offset)
    ensures var r := DbFilter(scan, matchValue, matchField, orderKey, All, limit, offset);
      && r.Success? && r.value.Many?
      && r.value.items == Window(Candidates(scan, matchValue, matchField), offset, limit)
      && |r.value.items| <= limit
      && (offset >= |Candidates(scan, matchValue, matchField)| ==> r.value.items == [])
      && forall row :: row in r.value.items ==> row in scan && Wanted(row, matchValue, matchField)
  {
  }

  /**
   * Mode FIRST returns the earliest row of the scan that the query asks for, or none
   * when no row of the scan is asked for.
   */
  lemma FilterFirstIsFirstMatch(scan: seq<Entity>, matchValue: Value, matchField: Option<string>,
                                orderKey: Entity -> int, limit: int, offset: int)
    requires QueryArguments(matchValue, matchField, limit, offset)
    ensures var r := DbFilter(scan, matchValue, matchField, orderKey, First, limit, offset);
      && r.Success? && r.value.One?
      && (r.value.item.None? <==> forall i :: 0 <= i < |scan| ==> !Wanted(scan[i], matchValue, matchField))
      && (r.value.item.Some? ==>
            exists j ::
              && 0 <= j < |scan|
              && r.value.item.value == scan[j]
              && Wanted(scan[j], matchValue, matchField)
              && forall i :: 0 <= i < j ==> !Wanted(scan[i], matchValue, matchField))
  {
    var rows := Candidates(scan, matchValue, matchField);
    if matchField.Some? {
      if rows != [] {
        FilteredHeadIsEarliest(scan, matchField.value, matchValue);
      } else {
        forall i | 0 <= i < |scan|
          ensures !Wanted(scan[i], matchValue, matchField)
        {
          assert scan[i] in scan;
        }
      }
    } else if scan != [] {
      assert Wanted(scan[0], matchValue, matchField);
    }
  }

  /**
   * Mode LAST returns a row of the scan that the query asks for whose `orderKey` is at
   * least that of every row asked for, or none when no row of the scan is asked for.
   */
  lemma FilterLastIsGreatest(scan: seq<Entity>, matchValue: Value, matchField: Option<string>,
                             orderKey: Entity -> int, limit: int, offset: int)
    requires QueryArguments(matchValue, matchField, limit, offset)
    ensures var r := DbFilter(scan, matchValue, matchField, orderKey, Last, limit, offset);
      && r.Success? && r.value.One?
      && (r.value.item.None? <==> forall i :: 0 <= i < |scan| ==> !Wanted(scan[i], matchValue, matchField))
      && (r.value.item.Some? ==>
            && r.value.item.value in scan
            && Wanted(r.value.item.value, matchValue, matchField)
            && forall i :: 0 <= i < |scan| && Wanted(scan[i], matchValue, matchField) ==>
                 orderKey(scan[i]) <= orderKey(r.value.item.value))
  {
    var rows := Candidates(scan, matchValue, matchField);
    forall i | 0 <= i < |scan| && Wanted(scan[i], matchValue, matchField)
      ensures scan[i] in rows
    {
      assert scan[i] in scan;
    }
  }

  /** `limit == 100` is accepted and `limit == 101` is refused, whatever else is passed. */
  lemma LimitBoundary(scan: seq<Entity>, matchValue: Value, matchField: Option<string>,
                      orderKey: Entity -> int, mode: FilterMode, offset: int)
    requires offset >= 0
    ensures DbFilter(scan, matchValue, matchField, orderKey, mode, 101, offset) == Failure(ValueError(LimitTooLarge))
    ensures DbFilter(scan, matchValue, matchField, orderKey, mode, 100, offset) != Failure(ValueError(LimitTooLarge))
  {
  }

  /**
   * A client of the gateway: creating a second object under a stored key is refused
   * with 409 and changes nothing; after a delete, reading the key gives 404.
   */
  method DuplicateThenDeleteScenario(first: Record, second: Record)
  {
    var tasks := new Table("Tasks", "tasks", "task_id", {"project_id", "name", "description", "due_date", "status"}, []);
    var key := "0f6c1b2e-8a4d-4c57-9e43-3b1f0d2a7c90";
    var created := tasks.Create(Entity(key, first), false, Committed);
    assert created == Success(Entity(key, first));
    var again := tasks.Create(Entity(key, second), false, Committed);
    assert again == Failure(HTTPException(409, tasks.ConflictMessage("task_id")));
    assert tasks.rows == map[key := first];
    var deleted := tasks.Delete(key, None, Committed);
    assert deleted == Success(true);
    assert tasks.Read(key) == Failure(HTTPException(404, NotFoundDetail("Tasks", key)));
  }

  /** A second user with a taken email is refused with 409 and the table stays as it was. */
  method TakenEmailScenario(alice: Uuid, bob: Uuid)
    requires alice != bob
  {
    var users := new Table("User", "user", "user_id", {"name", "email"}, ["email"]);
    var john := map["name" := VStr("John"), "email" := VStr("john@x.com")];
    var aliceCreated := users.Create(Entity(alice, john), false, Committed);
    assert users.rows == map[alice := john];
    var bobCreated := users.Create(Entity(bob, john), false, Committed);
    assert users.TakenByOther(Entity(bob, john), "email");
    assert bobCreated == Failure(HTTPException(409, users.ConflictMessage("email")));
    assert users.rows == map[alice := john] && users.Valid();
  }

  /**
   * Patching a project with a field its class does not declare (`total_budget`, which
   * the update payload allows) raises a `ValueError` and stores nothing.
   */
  method UndeclaredFieldScenario(house: Uuid, plan: Record)
  {
    var projects := new Table("Project", "project", "project_id",
                              {"user_id", "name", "description", "start_date", "end_date", "status"}, []);
    var planned := projects.Create(Entity(house, plan), false, Committed);
    assert projects.rows == map[house := plan];
    var budget := Payload(map["name" := VNone, "total_budget" := VInt(5000)], {"total_budget"});
    assert SetFields(budget).Keys == {"total_budget"};
    var patched := projects.Update(house, budget, None, Committed);
    assert patched == Failure(ValueError(NoFieldMessage("Project", "total_budget")));
    assert projects.rows == map[house := plan];
  }
}
