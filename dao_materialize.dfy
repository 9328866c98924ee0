/** Materialisation: copying result rows into fresh instances of a mapped class, and the
    column maps queryRaw returns. */
module DaoMaterialize {
  import opened Wrappers
  import opened DaoTypes
  import opened DaoFields
  import opened DaoStatements

  /** ResultSet.getObject(label): the value of the first column reported under that name;
      None stands for the SQLException of a label the row does not have. */
  function ColumnLookup(row: Row, name: string): Option<Value>
  {
    if row == [] then None
    else if row[0].0 == name then Some(row[0].1)
    else ColumnLookup(row[1..], name)
  }

  /** The instance built from the new object base by setting each field of ps, in order, to
      the value of its column; None as soon as a column is missing. */
  function Materialized(ps: seq<PersistedField>, row: Row, base: Instance): Option<Instance>
  {
    if ps == [] then Some(base)
    else
      match Materialized(ps[..|ps| - 1], row, base)
      case None => None
      case Some(m) =>
        match ColumnLookup(row, ColumnName(ps[|ps| - 1]))
        case None => None
        case Some(v) => Some(m[ps[|ps| - 1].id := v])
  }

  /** A fresh instance of c holding the row; None when c has no usable no-argument
      constructor or when the row lacks one of its columns. */
  function Materialize(c: ClassDesc, row: Row): Option<Instance>
  {
    if !c.instantiable then None else Materialized(Persisted(c.chain), row, c.initial)
  }

  /** One instance per row, in row order; None if any row fails. */
  function MaterializeAll(c: ClassDesc, rows: seq<Row>): Option<seq<Instance>>
  {
    if rows == [] then Some([])
    else
      match MaterializeAll(c, rows[..|rows| - 1])
      case None => None
      case Some(xs) =>
        match Materialize(c, rows[|rows| - 1])
        case None => None
        case Some(x) => Some(xs + [x])
  }

  /** The map queryRaw builds from one row: row.put(name, value) for every reported column
      in turn, so a later column of the same name overwrites an earlier one. */
  function RawRow(row: Row): map<string, Value>
  {
    if row == [] then map[] else RawRow(row[..|row| - 1])[row[|row| - 1].0 := row[|row| - 1].1]
  }

  function RawRows(rows: seq<Row>): (r: seq<map<string, Value>>)
    ensures |r| == |rows|
    ensures forall i :: 0 <= i < |rows| ==> r[i] == RawRow(rows[i])
  {
    if rows == [] then [] else RawRows(rows[..|rows| - 1]) + [RawRow(rows[|rows| - 1])]
  }

  function Ids(ps: seq<PersistedField>): set<FieldId>
  {
    set p | p in ps :: p.id
  }

  ghost predicate DistinctIds(ps: seq<PersistedField>)
  {
    forall i, j :: 0 <= i < j < |ps| ==> ps[i].id != ps[j].id
  }

  ghost predicate DistinctNames(row: Row)
  {
    forall i, j :: 0 <= i < j < |row| ==> row[i].0 != row[j].0
  }

  // ---------------------------------------------------------------------------
  // The loops of read, readAll / query and queryRaw.

  /** The body of `if (resultSet.next())` / `while (resultSet.next())`: a new instance, then
      field.set(instance, resultSet.getObject(column)) for every persisted field. */
  method MaterializeRow(c: ClassDesc, row: Row) returns (r: Option<Instance>)
    ensures r == Materialize(c, row)
  {
    if !c.instantiable {
      return None;
    }
    var fields := GetAllFields(c);
    var inst := c.initial;
    for i := 0 to |fields|
      invariant Materialized(fields[..i], row, c.initial) == Some(inst)
    {
      assert fields[..i + 1][..i] == fields[..i];
      var name := if fields[i].column.name == "" then fields[i].name else fields[i].column.name;
      var v := ColumnLookup(row, name);
      if v.None? {
        MaterializedFails(fields, row, c.initial, i + 1);
        return None;
      }
      inst := inst[fields[i].id := v.value];
    }
    assert fields[..|fields|] == fields;
    r := Some(inst);
  }

  /** The result loop of readAll and the column query: results.add for every row, in order;
      None when a row cannot be materialised. */
  method MaterializeRows(c: ClassDesc, rows: seq<Row>) returns (r: Option<seq<Instance>>)
    ensures r == MaterializeAll(c, rows)
  {
    var results: seq<Instance> := [];
    for i := 0 to |rows|
      invariant MaterializeAll(c, rows[..i]) == Some(results)
    {
      assert rows[..i + 1][..i] == rows[..i];
      var inst := MaterializeRow(c, rows[i]);
      if inst.None? {
        MaterializeAllFails(c, rows, i + 1);
        return None;
      }
      results := results + [inst.value];
    }
    assert rows[..|rows|] == rows;
    r := Some(results);
  }

  /** The column loop of queryRaw: row.put(columnName, value) for columns 1..columnCount. */
  method BuildRawRow(row: Row) returns (m: map<string, Value>)
    ensures m == RawRow(row)
  {
    m := map[];
    for i := 0 to |row|
      invariant m == RawRow(row[..i])
    {
      assert row[..i + 1][..i] == row[..i];
      m := m[row[i].0 := row[i].1];
    }
    assert row[..|row|] == row;
  }

  // ---------------------------------------------------------------------------
  // Properties.

  /** getObject finds a label exactly when the row reports it, and then yields the value of
      its first column of that name. */
  lemma {:induction false} LookupFirst(row: Row, name: string)
    ensures ColumnLookup(row, name).Some? <==> exists j :: 0 <= j < |row| && row[j].0 == name
    ensures ColumnLookup(row, name).Some? ==>
      exists j :: 0 <= j < |row| && row[j] == (name, ColumnLookup(row, name).value)
        && forall k :: 0 <= k < j ==> row[k].0 != name
  {
    if row != [] && row[0].0 != name {
      var rest := row[1..];
      LookupFirst(rest, name);
      if exists j :: 0 <= j < |row| && row[j].0 == name {
        var j :| 0 <= j < |row| && row[j].0 == name;
        assert rest[j - 1].0 == name;
      }
      if ColumnLookup(rest, name).Some? {
        var j :| 0 <= j < |rest| && rest[j] == (name, ColumnLookup(rest, name).value)
          && forall k :: 0 <= k < j ==> rest[k].0 != name;
        assert row[j + 1] == rest[j];
        assert forall k :: 0 < k < j + 1 ==> row[k] == rest[k - 1];
      }
    }
  }

  /** In a row whose column names differ, every column is found with its own value. */
  lemma {:induction false} LookupDistinct(row: Row, j: nat)
    requires DistinctNames(row) && j < |row|
    ensures ColumnLookup(row, row[j].0) == Some(row[j].1)
  {
    if j > 0 {
      var rest := row[1..];
      assert row[0].0 != row[j].0;
      assert rest[j - 1] == row[j];
      LookupDistinct(rest, j - 1);
    }
  }

  /** Once a prefix of the fields fails, the whole materialisation fails. */
  lemma {:induction false} MaterializedFails(ps: seq<PersistedField>, row: Row, base: Instance, k: nat)
    requires k <= |ps| && Materialized(ps[..k], row, base).None?
    ensures Materialized(ps, row, base).None?
    decreases |ps| - k
  {
    if k < |ps| {
      assert ps[..k + 1][..k] == ps[..k];
      MaterializedFails(ps, row, base, k + 1);
    } else {
      assert ps[..k] == ps;
    }
  }

  lemma {:induction false} MaterializeAllFails(c: ClassDesc, rows: seq<Row>, k: nat)
    requires k <= |rows| && MaterializeAll(c, rows[..k]).None?
    ensures MaterializeAll(c, rows).None?
    decreases |rows| - k
  {
    if k < |rows| {
      assert rows[..k + 1][..k] == rows[..k];
      MaterializeAllFails(c, rows, k + 1);
    } else {
      assert rows[..k] == rows;
    }
  }

  /** Materialisation succeeds exactly when the row reports the column of every field. */
  lemma {:induction false} MaterializedDefined(ps: seq<PersistedField>, row: Row, base: Instance)
    ensures Materialized(ps, row, base).Some? <==>
      forall i :: 0 <= i < |ps| ==> ColumnLookup(row, ColumnName(ps[i])).Some?
  {
    if ps != [] {
      var ps' := ps[..|ps| - 1];
      MaterializedDefined(ps', row, base);
      assert forall i :: 0 <= i < |ps'| ==> ps'[i] == ps[i];
    }
  }

  /** A materialised instance holds the fields of the new object and the fields ps. */
  lemma {:induction false} MaterializedKeys(ps: seq<PersistedField>, row: Row, base: Instance)
    requires Materialized(ps, row, base).Some?
    ensures Materialized(ps, row, base).value.Keys == base.Keys + Ids(ps)
  {
    if ps != [] {
      var ps' := ps[..|ps| - 1];
      MaterializedKeys(ps', row, base);
      assert ps == ps' + [ps[|ps| - 1]];
      assert Ids(ps) == Ids(ps') + {ps[|ps| - 1].id};
    }
  }

  /** A field that is not among ps keeps the value the new object gave it. */
  lemma {:induction false} MaterializedKeeps(ps: seq<PersistedField>, row: Row, base: Instance, id: FieldId)
    requires Materialized(ps, row, base).Some? && id !in Ids(ps)
    ensures FieldValue(Materialized(ps, row, base).value, id) == FieldValue(base, id)
  {
    if ps != [] {
      var ps' := ps[..|ps| - 1];
      assert ps == ps' + [ps[|ps| - 1]];
      assert Ids(ps) == Ids(ps') + {ps[|ps| - 1].id};
      MaterializedKeeps(ps', row, base, id);
    }
  }

  /** Each field of a materialised instance holds the value of its column. */
  lemma {:induction false} MaterializedValues(ps: seq<PersistedField>, row: Row, base: Instance)
    requires DistinctIds(ps)
    requires Materialized(ps, row, base).Some?
    ensures forall i :: 0 <= i < |ps| ==>
      ps[i].id in Materialized(ps, row, base).value
      && Some(Materialized(ps, row, base).value[ps[i].id]) == ColumnLookup(row, ColumnName(ps[i]))
  {
    if ps != [] {
      var ps' := ps[..|ps| - 1];
      var last := ps[|ps| - 1];
      assert DistinctIds(ps') by {
        assert forall i :: 0 <= i < |ps'| ==> ps'[i] == ps[i];
      }
      MaterializedValues(ps', row, base);
      var m' := Materialized(ps', row, base).value;
      var m := Materialized(ps, row, base).value;
      forall i | 0 <= i < |ps|
        ensures ps[i].id in m && Some(m[ps[i].id]) == ColumnLookup(row, ColumnName(ps[i]))
      {
        if i < |ps'| {
          assert ps'[i] == ps[i];
          assert ps[i].id != last.id;
        }
      }
    }
  }

  /** Materialising a row for class c succeeds exactly when c can be instantiated and the row
      reports every persisted column; the instance then holds, for every persisted field, the
      value of its column, and every other field keeps the value of the new object. */
  lemma MaterializeFields(c: ClassDesc, row: Row)
    ensures Materialize(c, row).Some? <==>
      c.instantiable && forall p :: p in Persisted(c.chain) ==> ColumnLookup(row, ColumnName(p)).Some?
    ensures Materialize(c, row).Some? ==>
      && (forall p :: p in Persisted(c.chain) ==>
            FieldValue(Materialize(c, row).value, p.id) == ColumnLookup(row, ColumnName(p)).value)
      && (forall id :: id !in Ids(Persisted(c.chain)) ==>
            FieldValue(Materialize(c, row).value, id) == FieldValue(c.initial, id))
  {
    var ps := Persisted(c.chain);
    MaterializedDefined(ps, row, c.initial);
    if c.instantiable && Materialized(ps, row, c.initial).Some? {
      PersistedOrdered(c.chain);
      assert DistinctIds(ps) by {
        forall i, j | 0 <= i < j < |ps|
          ensures ps[i].id != ps[j].id
        {
          assert Before(ps[i].id, ps[j].id);
        }
      }
      MaterializedValues(ps, row, c.initial);
      forall p | p in ps
        ensures FieldValue(Materialize(c, row).value, p.id) == ColumnLookup(row, ColumnName(p)).value
      {
        var i :| 0 <= i < |ps| && ps[i] == p;
      }
      forall id | id !in Ids(ps)
        ensures FieldValue(Materialize(c, row).value, id) == FieldValue(c.initial, id)
      {
        MaterializedKeeps(ps, row, c.initial, id);
      }
    }
    if !(forall p :: p in ps ==> ColumnLookup(row, ColumnName(p)).Some?) {
      var p :| p in ps && ColumnLookup(row, ColumnName(p)).None?;
      var i :| 0 <= i < |ps| && ps[i] == p;
    }
  }

  /** readAll and the column query keep the result-set order: they succeed exactly when every
      row materialises, with instance i built from row i. */
  lemma {:induction false} MaterializeAllOrder(c: ClassDesc, rows: seq<Row>)
    ensures MaterializeAll(c, rows).Some? <==> forall i :: 0 <= i < |rows| ==> Materialize(c, rows[i]).Some?
    ensures MaterializeAll(c, rows).Some? ==>
      |MaterializeAll(c, rows).value| == |rows|
      && forall i :: 0 <= i < |rows| ==> Some(MaterializeAll(c, rows).value[i]) == Materialize(c, rows[i])
  {
    if rows != [] {
      var rows' := rows[..|rows| - 1];
      var last := rows[|rows| - 1];
      MaterializeAllOrder(c, rows');
      assert forall i :: 0 <= i < |rows'| ==> rows'[i] == rows[i];
      match MaterializeAll(c, rows')
      case None =>
        var i :| 0 <= i < |rows'| && Materialize(c, rows'[i]).None?;
        assert Materialize(c, rows[i]).None?;
      case Some(xs) =>
        match Materialize(c, last)
        case None =>
          assert Materialize(c, rows[|rows| - 1]).None?;
        case Some(x) =>
          assert MaterializeAll(c, rows) == Some(xs + [x]);
    }
  }

  /** queryRaw keeps every reported column: the map's keys are the row's column names. */
  lemma {:induction false} RawRowKeys(row: Row)
    ensures forall name :: name in RawRow(row) <==> exists j :: 0 <= j < |row| && row[j].0 == name
  {
    if row != [] {
      var row' := row[..|row| - 1];
      RawRowKeys(row');
      assert forall j :: 0 <= j < |row'| ==> row'[j] == row[j];
    }
  }

  /** A name maps to the value of the last column reported under it. */
  lemma {:induction false} RawRowValues(row: Row)
    ensures forall j :: 0 <= j < |row| && (forall k :: j < k < |row| ==> row[k].0 != row[j].0) ==>
      row[j].0 in RawRow(row) && RawRow(row)[row[j].0] == row[j].1
  {
    if row != [] {
      var row' := row[..|row| - 1];
      RawRowValues(row');
      forall j | 0 <= j < |row| && (forall k :: j < k < |row| ==> row[k].0 != row[j].0)
        ensures row[j].0 in RawRow(row) && RawRow(row)[row[j].0] == row[j].1
      {
        if j < |row'| {
          assert row'[j] == row[j];
          assert forall k :: j < k < |row'| ==> row'[k] == row[k];
        }
      }
    }
  }

  // ---------------------------------------------------------------------------
  // Insert, then read back.

  /** The row a table holds after an insert statement ran: column i holds the value bound at
      placeholder i + 1. */
  function StoredRow(names: seq<string>, params: seq<Value>): (r: Row)
    requires |names| == |params|
    ensures |r| == |names|
    ensures forall i :: 0 <= i < |names| ==> r[i] == (names[i], params[i])
  {
    if names == [] then []
    else StoredRow(names[..|names| - 1], params[..|params| - 1]) + [(names[|names| - 1], params[|params| - 1])]
  }

  /** Reading back a row that holds the bound values of an insert unchanged gives an instance
      whose persisted fields hold the values of the inserted object, provided its column names
      are all different. SQLite returns a boolean as an Integer, which this row does not model. */
  lemma InsertRoundTrip(c: ClassDesc, table: string, inst: Instance)
    requires c.instantiable
    requires forall i, j :: 0 <= i < j < |Persisted(c.chain)| ==>
      ColumnName(Persisted(c.chain)[i]) != ColumnName(Persisted(c.chain)[j])
    ensures var ps := Persisted(c.chain);
      var row := StoredRow(ColumnNames(ps), InsertStatement(table, ps, inst).params);
      && Materialize(c, row).Some?
      && forall p :: p in ps ==> FieldValue(Materialize(c, row).value, p.id) == FieldValue(inst, p.id)
  {
    var ps := Persisted(c.chain);
    var names := ColumnNames(ps);
    var row := StoredRow(names, InsertStatement(table, ps, inst).params);
    assert DistinctNames(row) by {
      forall i, j | 0 <= i < j < |row|
        ensures row[i].0 != row[j].0
      {
        assert row[i].0 == ColumnName(ps[i]) && row[j].0 == ColumnName(ps[j]);
      }
    }
    forall p | p in ps
      ensures ColumnLookup(row, ColumnName(p)) == Some(FieldValue(inst, p.id))
    {
      var i :| 0 <= i < |ps| && ps[i] == p;
      LookupDistinct(row, i);
    }
    MaterializeFields(c, row);
  }
}
