/** The public operations of the SQLite DAO. A backend `db` stands for the connection pool:
    it answers a statement with its result rows or with a failure. Write statements are
    returned as issued; their execution errors are caught and printed by the DAO and never
    reach the caller, so their outcome does not appear here. */
module DaoSqlite {
  import opened Wrappers
  import opened DaoTypes
  import opened DaoFields
  import opened DaoStatements
  import opened DaoMaterialize

  const NullInsert := "Cannot insert null object."
  const NullUpsert := "Cannot insert or update null object."
  const MissingKey := "Cannot insert or update object without primary key value."
  const NullRead := "Cannot read null object."
  const ReadAllFailed := "Failed to read all records."
  const NullUpdate := "Cannot update with null id or object."
  const NullDelete := "Cannot delete with null id."
  const NullQuery := "Cannot read with null column or value."

  /** What the backend answers to a select. */
  type Backend = Statement -> Answer

  /** The position of the first primary-key field, if any. */
  function FirstKey(ps: seq<PersistedField>): (r: Option<nat>)
    ensures r.Some? ==> r.value < |ps| && ps[r.value].column.primaryKey
    ensures r.Some? ==> forall j :: 0 <= j < r.value ==> !ps[j].column.primaryKey
    ensures r.None? ==> forall j :: 0 <= j < |ps| ==> !ps[j].column.primaryKey
  {
    if ps == [] then None
    else if ps[0].column.primaryKey then Some(0)
    else match FirstKey(ps[1..])
      case None => None
      case Some(k) => Some(k + 1)
  }

  /** The value insertOrUpdate takes as primary key: the first primary-key field's value,
      null when there is no such field. */
  function KeyValue(ps: seq<PersistedField>, inst: Instance): Value
  {
    match FirstKey(ps)
    case None => Null
    case Some(k) => FieldValue(inst, ps[k].id)
  }

  /** What read returns for a non-null id of a class with a table: the first row of the
      result as an instance, or null when the select fails, finds nothing or cannot be
      materialised. */
  function ReadResult(c: ClassDesc, id: Value, db: Backend): Option<Instance>
    requires c.table.Some?
  {
    match db(ReadStatement(c.table.value, id))
    case SqlFailure => None
    case Rows(rows) => if rows == [] then None else Materialize(c, rows[0])
  }

  /** insert: rejects a null object; a class without @DaoTable fails on its table name;
      otherwise the insert statement of all persisted fields. */
  method Insert(c: ClassDesc, t: Option<Instance>) returns (r: Result<Statement>)
    ensures t.None? ==> r == Failure(IllegalArgument(NullInsert))
    ensures t.Some? && c.table.None? ==> r == Failure(NullPointer)
    ensures t.Some? && c.table.Some? ==> r == Success(InsertStatement(c.table.value, Persisted(c.chain), t.value))
  {
    if t.None? {
      return Failure(IllegalArgument(NullInsert));
    }
    if c.table.None? {
      return Failure(NullPointer);
    }
    var fields := GetAllFields(c);
    var st := BuildInsert(c.table.value, fields, t.value);
    r := Success(st);
  }

  /** insertBatch: inserts the elements in array order; the first element insert rejects
      ends the batch with its error, after the statements of the elements before it. A null
      array fails at once. */
  method InsertBatch(c: ClassDesc, items: Option<seq<Option<Instance>>>) returns (issued: seq<Statement>, error: Option<Error>)
    ensures items.None? ==> issued == [] && error == Some(NullPointer)
    ensures items.Some? ==> |issued| <= |items.value|
    ensures items.Some? && |issued| > 0 ==> c.table.Some? && forall i :: 0 <= i < |issued| ==>
      items.value[i].Some? && issued[i] == InsertStatement(c.table.value, Persisted(c.chain), items.value[i].value)
    ensures items.Some? && error.None? ==> |issued| == |items.value|
    ensures items.Some? && error.Some? ==>
      |issued| < |items.value|
      && (items.value[|issued|].None? || c.table.None?)
      && error.value == (if items.value[|issued|].None? then IllegalArgument(NullInsert) else NullPointer)
    ensures items.Some? ==>
      (error.None? <==> forall i :: 0 <= i < |items.value| ==> items.value[i].Some? && c.table.Some?)
  {
    if items.None? {
      return [], Some(NullPointer);
    }
    var xs := items.value;
    issued := [];
    for i := 0 to |xs|
      invariant |issued| == i
      invariant i > 0 ==> c.table.Some? && forall k :: 0 <= k < i ==>
        xs[k].Some? && issued[k] == InsertStatement(c.table.value, Persisted(c.chain), xs[k].value)
    {
      var r := Insert(c, xs[i]);
      if r.Failure? {
        error := Some(r.error);
        return;
      }
      issued := issued + [r.value];
    }
    error := None;
  }

  /** insertOrUpdate: rejects a null object and an object whose first primary-key field is
      null (or that has none); otherwise reads by that value and updates the row it finds,
      or inserts the object when read returns null. */
  method InsertOrUpdate(c: ClassDesc, t: Option<Instance>, db: Backend) returns (r: Result<Statement>)
    ensures t.None? ==> r == Failure(IllegalArgument(NullUpsert))
    ensures t.Some? && KeyValue(Persisted(c.chain), t.value) == Null ==> r == Failure(IllegalArgument(MissingKey))
    ensures t.Some? && KeyValue(Persisted(c.chain), t.value) != Null && c.table.None? ==> r == Failure(NullPointer)
    ensures t.Some? && KeyValue(Persisted(c.chain), t.value) != Null && c.table.Some? ==>
      var ps := Persisted(c.chain);
      var key := KeyValue(ps, t.value);
      r == Success(
        if ReadResult(c, key, db).Some? then UpdateStatement(c.table.value, ps, t.value, key)
        else InsertStatement(c.table.value, ps, t.value))
  {
    if t.None? {
      return Failure(IllegalArgument(NullUpsert));
    }
    var fields := GetAllFields(c);
    var key := FindKeyValue(fields, t.value);
    if key == Null {
      return Failure(IllegalArgument(MissingKey));
    }
    var existing := Read(c, key, db);
    if existing.Failure? {
      return Failure(existing.error);
    }
    if existing.value.None? {
      r := Insert(c, t);
    } else {
      r := Update(c, key, t);
    }
  }

  /** The search loop of insertOrUpdate: the value of the first primary-key field. */
  method FindKeyValue(fields: seq<PersistedField>, inst: Instance) returns (key: Value)
    ensures key == KeyValue(fields, inst)
  {
    key := Null;
    var i := 0;
    while i < |fields|
      invariant 0 <= i <= |fields|
      invariant forall j :: 0 <= j < i ==> !fields[j].column.primaryKey
      invariant key == Null
    {
      if fields[i].column.primaryKey {
        key := FieldValue(inst, fields[i].id);
        break;
      }
      i := i + 1;
    }
    FirstKeyAt(fields, i);
  }

  /** The first primary key is at i when no field before i is one and field i is one; there
      is none when no field is one. */
  lemma {:induction false} FirstKeyAt(ps: seq<PersistedField>, i: nat)
    requires i <= |ps|
    requires forall j :: 0 <= j < i ==> !ps[j].column.primaryKey
    requires i < |ps| ==> ps[i].column.primaryKey
    ensures FirstKey(ps) == if i < |ps| then Some(i) else None
  {
    if ps != [] && i > 0 {
      FirstKeyAt(ps[1..], i - 1);
    }
  }

  /** read: rejects a null id; a class without @DaoTable fails on its table name; otherwise
      the first row the select returns, as an instance, or null. */
  method Read(c: ClassDesc, id: Value, db: Backend) returns (r: Result<Option<Instance>>)
    ensures id == Null ==> r == Failure(IllegalArgument(NullRead))
    ensures id != Null && c.table.None? ==> r == Failure(NullPointer)
    ensures id != Null && c.table.Some? ==> r == Success(ReadResult(c, id, db))
  {
    if id == Null {
      return Failure(IllegalArgument(NullRead));
    }
    if c.table.None? {
      return Failure(NullPointer);
    }
    var answer := db(ReadStatement(c.table.value, id));
    if answer.SqlFailure? || answer.rows == [] {
      return Success(None);
    }
    var inst := MaterializeRow(c, answer.rows[0]);
    r := Success(inst);
  }

  /** readAll: one instance per row in result-set order; a failing select or row becomes a
      RuntimeException. */
  method ReadAll(c: ClassDesc, db: Backend) returns (r: Result<seq<Instance>>)
    ensures c.table.None? ==> r == Failure(NullPointer)
    ensures c.table.Some? ==>
      match db(ReadAllStatement(c.table.value))
      case SqlFailure => r == Failure(Runtime(ReadAllFailed))
      case Rows(rows) =>
        match MaterializeAll(c, rows)
        case None => r == Failure(Runtime(ReadAllFailed))
        case Some(xs) => r == Success(xs)
  {
    if c.table.None? {
      return Failure(NullPointer);
    }
    var answer := db(ReadAllStatement(c.table.value));
    if answer.SqlFailure? {
      return Failure(Runtime(ReadAllFailed));
    }
    var xs := MaterializeRows(c, answer.rows);
    if xs.None? {
      return Failure(Runtime(ReadAllFailed));
    }
    r := Success(xs.value);
  }

  /** update: rejects a null id or object; otherwise the update statement. */
  method Update(c: ClassDesc, id: Value, t: Option<Instance>) returns (r: Result<Statement>)
    ensures (id == Null || t.None?) ==> r == Failure(IllegalArgument(NullUpdate))
    ensures id != Null && t.Some? && c.table.None? ==> r == Failure(NullPointer)
    ensures id != Null && t.Some? && c.table.Some? ==>
      r == Success(UpdateStatement(c.table.value, Persisted(c.chain), t.value, id))
  {
    if id == Null || t.None? {
      return Failure(IllegalArgument(NullUpdate));
    }
    if c.table.None? {
      return Failure(NullPointer);
    }
    var fields := GetAllFields(c);
    var st := BuildUpdate(c.table.value, fields, t.value, id);
    r := Success(st);
  }

  /** delete: rejects a null id; otherwise the delete statement. */
  method Delete(c: ClassDesc, id: Value) returns (r: Result<Statement>)
    ensures id == Null ==> r == Failure(IllegalArgument(NullDelete))
    ensures id != Null && c.table.None? ==> r == Failure(NullPointer)
    ensures id != Null && c.table.Some? ==> r == Success(DeleteStatement(c.table.value, id))
  {
    if id == Null {
      return Failure(IllegalArgument(NullDelete));
    }
    if c.table.None? {
      return Failure(NullPointer);
    }
    r := Success(DeleteStatement(c.table.value, id));
  }

  /** The column query: rejects null arrays; otherwise the instances of the rows in
      result-set order, or none at all when the select or a row fails. */
  method Query(c: ClassDesc, columns: Option<seq<Option<string>>>, values: Option<seq<Option<string>>>, db: Backend)
    returns (r: Result<seq<Instance>>)
    ensures (columns.None? || values.None?) ==> r == Failure(IllegalArgument(NullQuery))
    ensures columns.Some? && values.Some? && c.table.None? ==> r == Failure(NullPointer)
    ensures columns.Some? && values.Some? && c.table.Some? ==>
      match db(QueryStatement(c.table.value, columns.value, values.value))
      case SqlFailure => r == Success([])
      case Rows(rows) =>
        match MaterializeAll(c, rows)
        case None => r == Success([])
        case Some(xs) => r == Success(xs)
  {
    if columns.None? || values.None? {
      return Failure(IllegalArgument(NullQuery));
    }
    if c.table.None? {
      return Failure(NullPointer);
    }
    var st := BuildQuery(c.table.value, columns.value, values.value);
    var answer := db(st);
    if answer.SqlFailure? {
      return Success([]);
    }
    var xs := MaterializeRows(c, answer.rows);
    if xs.None? {
      return Success([]);
    }
    r := Success(xs.value);
  }

  /** query(Class, String): the raw SQL is run as is; the result loop returns from inside its
      first iteration, so it amounts to a test for a first row, and only that row becomes an
      instance. */
  method QueryBySql(c: ClassDesc, sql: string, db: Backend) returns (r: seq<Instance>)
    ensures |r| <= 1
    ensures match db(Statement(sql, []))
      case SqlFailure => r == []
      case Rows(rows) =>
        if rows == [] then r == []
        else match Materialize(c, rows[0])
          case None => r == []
          case Some(x) => r == [x]
  {
    var answer := db(Statement(sql, []));
    if answer.SqlFailure? {
      return [];
    }
    if answer.rows == [] {
      return [];
    }
    var inst := MaterializeRow(c, answer.rows[0]);
    if inst.None? {
      return [];
    }
    r := [inst.value];
  }

  /** queryRaw: one map per row in result-set order, holding every reported column; none
      at all when the select fails. */
  method QueryRaw(sql: string, db: Backend) returns (r: seq<map<string, Value>>)
    ensures match db(Statement(sql, []))
      case SqlFailure => r == []
      case Rows(rows) => r == RawRows(rows)
  {
    var answer := db(Statement(sql, []));
    if answer.SqlFailure? {
      return [];
    }
    var rows := answer.rows;
    r := [];
    for i := 0 to |rows|
      invariant r == RawRows(rows[..i])
    {
      assert rows[..i + 1][..i] == rows[..i];
      var m := BuildRawRow(rows[i]);
      r := r + [m];
    }
    assert rows[..|rows|] == rows;
  }
}
