/** The prepared statements of insert, update, read, delete, readAll and the column query:
    the SQL text and the values bound to its placeholders, in placeholder order. */
module DaoStatements {
  import opened Wrappers
  import opened DaoTypes
  import opened SqlText

  // The keywords of the statement texts.
  const InsertInto := "INSERT INTO "
  const ValuesClause := ") VALUES ("
  const Placeholder := "?"
  const UpdateTable := "UPDATE "
  const SetClause := " SET "
  const Assign := " = ?"
  const AssignNext := " = ?, "
  const WhereId := " WHERE id = ?;"
  const SelectFrom := "SELECT * FROM "
  const DeleteFrom := "DELETE FROM "
  const Where := " WHERE "
  const And := " AND "
  const Terminator := ";"
  const NullText := "null"

  /** The placeholder insert writes for one column. */
  function PlaceholderFor(p: PersistedField): string { Placeholder }

  function ColumnNames(ps: seq<PersistedField>): seq<string> { MapText(ColumnName, ps) }

  function Placeholders(ps: seq<PersistedField>): seq<string> { MapText(PlaceholderFor, ps) }

  /** The values of the fields ps of inst, in the order of ps. */
  function FieldValues(inst: Instance, ps: seq<PersistedField>): (r: seq<Value>)
    ensures |r| == |ps|
    ensures forall i :: 0 <= i < |ps| ==> r[i] == FieldValue(inst, ps[i].id)
  {
    if ps == [] then [] else FieldValues(inst, ps[..|ps| - 1]) + [FieldValue(inst, ps[|ps| - 1].id)]
  }

  /** The fields that are not primary keys, in their order. */
  function NonKey(ps: seq<PersistedField>): seq<PersistedField>
  {
    if ps == [] then []
    else NonKey(ps[..|ps| - 1]) + (if ps[|ps| - 1].column.primaryKey then [] else [ps[|ps| - 1]])
  }

  /** The SET item of one column. */
  function Assignment(p: PersistedField): string { ColumnName(p) + Assign }

  /** The column text that StringBuilder.append writes: a null column name reads "null". */
  function ColumnText(c: Option<string>): string
  {
    match c
    case None => NullText
    case Some(s) => s
  }

  /** The WHERE item of one queried column. */
  function Condition(c: Option<string>): string { ColumnText(c) + Assign }

  /** The value setObject binds for one queried value: a null string binds null. */
  function BindText(v: Option<string>): Value
  {
    match v
    case None => Null
    case Some(s) => Text(s)
  }

  function TextValues(vs: seq<Option<string>>): (r: seq<Value>)
    ensures |r| == |vs|
    ensures forall i :: 0 <= i < |vs| ==> r[i] == BindText(vs[i])
  {
    if vs == [] then [] else TextValues(vs[..|vs| - 1]) + [BindText(vs[|vs| - 1])]
  }

  /** insert: every persisted column, then as many placeholders, bound to the field values. */
  function InsertStatement(table: string, ps: seq<PersistedField>, inst: Instance): Statement
  {
    Statement(
      InsertInto + table + OpenColumns + Join(Separator, ColumnNames(ps))
      + ValuesClause + Join(Separator, Placeholders(ps)) + CloseStatement,
      FieldValues(inst, ps))
  }

  /** update: "col = ?" for every column that is not a primary key, bound to the field values,
      and the id bound last. */
  function UpdateStatement(table: string, ps: seq<PersistedField>, inst: Instance, id: Value): Statement
  {
    Statement(
      UpdateTable + table + SetClause + Join(Separator, MapText(Assignment, NonKey(ps))) + WhereId,
      FieldValues(inst, NonKey(ps)) + [id])
  }

  function ReadStatement(table: string, id: Value): Statement
  {
    Statement(SelectFrom + table + WhereId, [id])
  }

  function DeleteStatement(table: string, id: Value): Statement
  {
    Statement(DeleteFrom + table + WhereId, [id])
  }

  function ReadAllStatement(table: string): Statement
  {
    Statement(SelectFrom + table + Terminator, [])
  }

  /** The column query: "column = ?" for each column joined by " AND ", each value bound in turn.
      Nothing relates the number of columns to the number of values. */
  function QueryStatement(table: string, columns: seq<Option<string>>, values: seq<Option<string>>): Statement
  {
    Statement(SelectFrom + table + Where + Join(And, MapText(Condition, columns)) + Terminator, TextValues(values))
  }

  // ---------------------------------------------------------------------------
  // The builders, as the DAO methods build the text and bind the values.

  /** insert: appends "column, " and "?, " for every field, trims both builders when the
      column list is not empty, and binds the field values at 1, 2, ... in field order. */
  method BuildInsert(table: string, fields: seq<PersistedField>, inst: Instance) returns (st: Statement)
    ensures st == InsertStatement(table, fields, inst)
  {
    var query := InsertInto + table + OpenColumns;
    var columns := "";
    var placeholders := "";
    ghost var names := ColumnNames(fields);
    ghost var marks := Placeholders(fields);
    for i := 0 to |fields|
      invariant columns == Terminated(Separator, names[..i])
      invariant placeholders == Terminated(Separator, marks[..i])
    {
      var name := if fields[i].column.name == "" then fields[i].name else fields[i].column.name;
      AppendTerminated(columns, "", Separator, names, i, name);
      AppendTerminated(placeholders, "", Separator, marks, i, Placeholder);
      columns := columns + name + Separator;
      placeholders := placeholders + Placeholder + Separator;
    }
    assert names[..|fields|] == names && marks[..|fields|] == marks;
    TrimBuilder(Separator, names);
    TrimBuilder(Separator, marks);
    if |columns| > 0 {
      columns := columns[..|columns| - 2];
      placeholders := placeholders[..|placeholders| - 2];
    }
    ghost var head := query;
    query := query + (columns + ValuesClause + placeholders + CloseStatement);
    AppendFour(head, columns, ValuesClause, placeholders, CloseStatement);
    var params := BindFields(fields, inst);
    st := Statement(query, params);
  }

  /** The binding loop of insert: setObject(index++, value) for every field. */
  method BindFields(fields: seq<PersistedField>, inst: Instance) returns (params: seq<Value>)
    ensures params == FieldValues(inst, fields)
  {
    params := [];
    var index := 1;
    for i := 0 to |fields|
      invariant index == |params| + 1
      invariant params == FieldValues(inst, fields[..i])
    {
      assert fields[..i + 1][..i] == fields[..i];
      params := params + [FieldValue(inst, fields[i].id)];
      index := index + 1;
    }
    assert fields[..|fields|] == fields;
  }

  /** update: the SET clause, then the values of the fields that are not primary keys
      bound at 1, 2, ... and the id bound last. */
  method BuildUpdate(table: string, fields: seq<PersistedField>, inst: Instance, id: Value) returns (st: Statement)
    ensures st == UpdateStatement(table, fields, inst, id)
  {
    var query := UpdateTable + table + SetClause;
    var setClause := BuildSetClause(fields);
    AppendAssoc(query, setClause, WhereId);
    query := query + (setClause + WhereId);
    var params := BindNonKey(fields, inst);
    params := params + [id];
    st := Statement(query, params);
  }

  /** The SET clause of update: appends "column = ?, " for every field that is not a primary
      key and trims the builder when it is not empty. */
  method BuildSetClause(fields: seq<PersistedField>) returns (setClause: string)
    ensures setClause == Join(Separator, MapText(Assignment, NonKey(fields)))
  {
    setClause := "";
    for i := 0 to |fields|
      invariant setClause == Terminated(Separator, MapText(Assignment, NonKey(fields[..i])))
    {
      NonKeyStep(fields, i);
      ghost var before := NonKey(fields[..i]);
      if !fields[i].column.primaryKey {
        var name := if fields[i].column.name == "" then fields[i].name else fields[i].column.name;
        assert name + Assign == Assignment(fields[i]);
        MapTextSnoc(Assignment, NonKey(fields[..i]), fields[i]);
        AppendAssign(setClause, name);
        TerminatedSnoc(Separator, setClause, MapText(Assignment, NonKey(fields[..i])), name + Assign);
        setClause := setClause + name + AssignNext;
      } else {
        assert NonKey(fields[..i + 1]) == before + [];
        assert before + [] == before;
      }
    }
    assert fields[..|fields|] == fields;
    TrimBuilder(Separator, MapText(Assignment, NonKey(fields)));
    if |setClause| > 0 {
      setClause := setClause[..|setClause| - 2];
    }
  }

  /** The binding loop of update: setObject(index++, value) for every field that is not a
      primary key. */
  method BindNonKey(fields: seq<PersistedField>, inst: Instance) returns (params: seq<Value>)
    ensures params == FieldValues(inst, NonKey(fields))
  {
    params := [];
    var index := 1;
    for i := 0 to |fields|
      invariant index == |params| + 1
      invariant params == FieldValues(inst, NonKey(fields[..i]))
    {
      NonKeyStep(fields, i);
      ghost var before := NonKey(fields[..i]);
      if !fields[i].column.primaryKey {
        assert FieldValues(inst, before + [fields[i]]) == FieldValues(inst, before) + [FieldValue(inst, fields[i].id)] by {
          assert (before + [fields[i]])[..|before|] == before;
        }
        params := params + [FieldValue(inst, fields[i].id)];
        index := index + 1;
      } else {
        assert NonKey(fields[..i + 1]) == before by {
          assert before + [] == before;
        }
      }
    }
    assert fields[..|fields|] == fields;
  }

  /** The column query: the WHERE clause, then value i bound at i + 1 for every value. */
  method BuildQuery(table: string, columns: seq<Option<string>>, values: seq<Option<string>>) returns (st: Statement)
    ensures st == QueryStatement(table, columns, values)
  {
    var query := SelectFrom + table + Where;
    var whereClause := BuildWhereClause(columns);
    AppendAssoc(query, whereClause, Terminator);
    query := query + (whereClause + Terminator);
    var params := BindValues(values);
    st := Statement(query, params);
  }

  /** The WHERE clause of the column query: each column and " = ?", with " AND " after every
      column but the last. */
  method BuildWhereClause(columns: seq<Option<string>>) returns (whereClause: string)
    ensures whereClause == Join(And, MapText(Condition, columns))
  {
    whereClause := "";
    ghost var conds := MapText(Condition, columns);
    for i := 0 to |columns|
      invariant whereClause == Join(And, conds[..i]) + (if 0 < i < |columns| then And else "")
    {
      var c := if columns[i].None? then NullText else columns[i].value;
      WhereStep(whereClause, conds, i, c);
      whereClause := whereClause + c + Assign;
      if i < |columns| - 1 {
        whereClause := whereClause + And;
      }
    }
    assert conds[..|columns|] == conds;
  }

  /** One iteration of the WHERE loop keeps its invariant. */
  lemma WhereStep(w: string, conds: seq<string>, i: nat, c: string)
    requires i < |conds| && conds[i] == c + Assign
    requires w == Join(And, conds[..i]) + (if 0 < i < |conds| then And else "")
    ensures w + c + Assign + (if i < |conds| - 1 then And else "")
      == Join(And, conds[..i + 1]) + (if 0 < i + 1 < |conds| then And else "")
  {
    JoinStep(And, conds, i);
    if i > 0 {
      AppendAssoc(Join(And, conds[..i]) + And, c, Assign);
    }
  }

  /** The binding loop of the column query: setObject(i + 1, value[i]) for every value. */
  method BindValues(values: seq<Option<string>>) returns (params: seq<Value>)
    ensures params == TextValues(values)
  {
    params := [];
    for i := 0 to |values|
      invariant params == TextValues(values[..i])
    {
      assert values[..i + 1][..i] == values[..i];
      params := params + [if values[i].None? then Null else Text(values[i].value)];
    }
    assert values[..|values|] == values;
  }

  // ---------------------------------------------------------------------------
  // Helpers of the builders.

  /** Regrouping the tail of insert's text; kept apart from BuildInsert's own obligations. */
  lemma AppendFour(a: string, b: string, c: string, d: string, e: string)
    ensures a + (b + c + d + e) == a + b + c + d + e
  {
  }

  /** Appending a name and " = ?, " appends the SET item and the separator. */
  lemma AppendAssign(s: string, name: string)
    ensures s + name + AssignNext == s + (name + Assign) + Separator
  {
    assert AssignNext == Assign + Separator;
  }

  /** One more field extends the non-key fields by itself, or by nothing for a primary key. */
  lemma NonKeyStep(fields: seq<PersistedField>, i: nat)
    requires i < |fields|
    ensures NonKey(fields[..i + 1]) ==
      NonKey(fields[..i]) + (if fields[i].column.primaryKey then [] else [fields[i]])
  {
    assert fields[..i + 1][..i] == fields[..i];
  }

  /** The joined prefix grows by the separator and the next item, except the first. */
  lemma JoinStep(sep: string, xs: seq<string>, i: nat)
    requires i < |xs|
    ensures Join(sep, xs[..i + 1]) == if i == 0 then xs[0] else Join(sep, xs[..i]) + sep + xs[i]
  {
    assert xs[..i + 1][..i] == xs[..i];
  }

  // ---------------------------------------------------------------------------
  // Placeholders and bound values line up.

  /** Which keywords hold a '?' placeholder, and how many. */
  lemma KeywordMarks()
    ensures '?' !in InsertInto && '?' !in OpenColumns && '?' !in Separator && '?' !in ValuesClause
    ensures '?' !in CloseStatement && '?' !in UpdateTable && '?' !in SetClause && '?' !in SelectFrom
    ensures '?' !in DeleteFrom && '?' !in Where && '?' !in And && '?' !in Terminator && '?' !in NullText
    ensures Count('?', Separator) == 0 && Count('?', And) == 0
    ensures Count('?', Placeholder) == 1 && Count('?', Assign) == 1 && Count('?', WhereId) == 1
  {
    CountAbsent('?', Separator);
    CountAbsent('?', And);
    assert Placeholder[..0] == [];
    assert Assign[..3] == " = ";
    CountAbsent('?', Assign[..3]);
    assert WhereId[..13][..12] == WhereId[..12];
    CountAbsent('?', WhereId[..12]);
  }

  /** The '?' count of items that hold exactly k each, joined by a separator without one. */
  lemma CountJoined(sep: string, xs: seq<string>, k: nat)
    requires Count('?', sep) == 0
    requires forall i :: 0 <= i < |xs| ==> Count('?', xs[i]) == k
    ensures Count('?', Join(sep, xs)) == |xs| * k
  {
    CountAllUniform('?', xs, k);
    CountJoin('?', sep, xs);
  }

  /** insert binds the value of field i at placeholder i + 1, next to column i, and when no
      name holds a '?', the text has exactly one placeholder per bound value. */
  lemma InsertPlaceholders(table: string, ps: seq<PersistedField>, inst: Instance)
    requires '?' !in table
    requires forall p :: p in ps ==> '?' !in ColumnName(p)
    ensures var st := InsertStatement(table, ps, inst);
      && Count('?', st.sql) == |st.params| == |ps| == |ColumnNames(ps)|
      && forall i :: 0 <= i < |ps| ==> ColumnNames(ps)[i] == ColumnName(ps[i]) && st.params[i] == FieldValue(inst, ps[i].id)
  {
    KeywordMarks();
    var names := ColumnNames(ps);
    var marks := Placeholders(ps);
    forall i | 0 <= i < |names|
      ensures Count('?', names[i]) == 0
    {
      assert ps[i] in ps;
      CountAbsent('?', names[i]);
    }
    CountJoined(Separator, names, 0);
    CountJoined(Separator, marks, 1);
    CountAbsent('?', table);
    var a := InsertInto + table + OpenColumns;
    CountConcat('?', InsertInto, table);
    CountConcat('?', InsertInto + table, OpenColumns);
    CountAbsent('?', InsertInto);
    CountAbsent('?', OpenColumns);
    CountConcat('?', a, Join(Separator, names));
    CountConcat('?', a + Join(Separator, names), ValuesClause);
    CountAbsent('?', ValuesClause);
    CountConcat('?', a + Join(Separator, names) + ValuesClause, Join(Separator, marks));
    CountConcat('?', a + Join(Separator, names) + ValuesClause + Join(Separator, marks), CloseStatement);
    CountAbsent('?', CloseStatement);
  }

  /** Every item of the SET clause holds one placeholder when the column name holds none. */
  lemma AssignmentMarks(p: PersistedField)
    requires '?' !in ColumnName(p)
    ensures Count('?', Assignment(p)) == 1
  {
    KeywordMarks();
    CountAbsent('?', ColumnName(p));
    CountConcat('?', ColumnName(p), Assign);
  }

  /** update binds the non-key field values at 1..n and the id at n + 1, and when no name
      holds a '?', the text has exactly one placeholder per bound value. */
  lemma UpdatePlaceholders(table: string, ps: seq<PersistedField>, inst: Instance, id: Value)
    requires '?' !in table
    requires forall p :: p in ps ==> '?' !in ColumnName(p)
    ensures var st := UpdateStatement(table, ps, inst, id);
      && Count('?', st.sql) == |st.params| == |NonKey(ps)| + 1
      && st.params[|st.params| - 1] == id
      && forall i :: 0 <= i < |NonKey(ps)| ==> st.params[i] == FieldValue(inst, NonKey(ps)[i].id)
  {
    KeywordMarks();
    var keys := NonKey(ps);
    var items := MapText(Assignment, keys);
    forall i | 0 <= i < |items|
      ensures Count('?', items[i]) == 1
    {
      NonKeyMember(ps, keys[i]);
      AssignmentMarks(keys[i]);
    }
    CountJoined(Separator, items, 1);
    CountAbsent('?', table);
    CountConcat('?', UpdateTable, table);
    CountConcat('?', UpdateTable + table, SetClause);
    CountAbsent('?', UpdateTable);
    CountAbsent('?', SetClause);
    var a := UpdateTable + table + SetClause;
    CountConcat('?', a, Join(Separator, items));
    CountConcat('?', a + Join(Separator, items), WhereId);
  }

  /** The non-key fields are exactly the fields that are not primary keys. */
  lemma {:induction false} NonKeyMember(ps: seq<PersistedField>, p: PersistedField)
    ensures p in NonKey(ps) <==> p in ps && !p.column.primaryKey
  {
    if ps != [] {
      var ps' := ps[..|ps| - 1];
      NonKeyMember(ps', p);
      assert ps == ps' + [ps[|ps| - 1]];
    }
  }

  /** With no primary key among the fields, update sets every column. */
  lemma {:induction false} NonKeyAll(ps: seq<PersistedField>)
    requires forall i :: 0 <= i < |ps| ==> !ps[i].column.primaryKey
    ensures NonKey(ps) == ps
  {
    if ps != [] {
      var ps' := ps[..|ps| - 1];
      NonKeyAll(ps');
      assert ps == ps' + [ps[|ps| - 1]];
    }
  }

  /** read, update and delete filter on the literal "id" column, whatever the primary key is
      called, with the id bound to the last placeholder; read and delete bind nothing else. */
  lemma FilterById(table: string, ps: seq<PersistedField>, inst: Instance, id: Value)
    requires '?' !in table
    ensures EndsWith(ReadStatement(table, id).sql, WhereId) && ReadStatement(table, id).params == [id]
    ensures EndsWith(DeleteStatement(table, id).sql, WhereId) && DeleteStatement(table, id).params == [id]
    ensures EndsWith(UpdateStatement(table, ps, inst, id).sql, WhereId)
    ensures Count('?', ReadStatement(table, id).sql) == 1 && Count('?', DeleteStatement(table, id).sql) == 1
  {
    KeywordMarks();
    CountAbsent('?', table);
    CountConcat('?', SelectFrom, table);
    CountAbsent('?', SelectFrom);
    CountConcat('?', SelectFrom + table, WhereId);
    CountConcat('?', DeleteFrom, table);
    CountAbsent('?', DeleteFrom);
    CountConcat('?', DeleteFrom + table, WhereId);
    SuffixEndsWith(SelectFrom + table, WhereId);
    SuffixEndsWith(DeleteFrom + table, WhereId);
    var u := UpdateTable + table + SetClause + Join(Separator, MapText(Assignment, NonKey(ps)));
    SuffixEndsWith(u, WhereId);
  }

  lemma SuffixEndsWith(s: string, suffix: string)
    ensures EndsWith(s + suffix, suffix)
  {
    assert (s + suffix)[|s|..] == suffix;
  }

  /** The column query with no columns is not rejected: its WHERE clause is empty and it binds
      nothing. */
  lemma EmptyColumnQuery(table: string)
    ensures QueryStatement(table, [], []) == Statement(SelectFrom + table + " WHERE ;", [])
  {
    assert MapText(Condition, []) == [];
    assert Where + Terminator == " WHERE ;";
  }

  /** The column query has one placeholder per column and binds one value per value given;
      the two line up exactly when as many values as columns are passed. */
  lemma QueryPlaceholders(table: string, columns: seq<Option<string>>, values: seq<Option<string>>)
    requires '?' !in table
    requires forall c :: c in columns ==> '?' !in ColumnText(c)
    ensures var st := QueryStatement(table, columns, values);
      && Count('?', st.sql) == |columns|
      && |st.params| == |values|
      && (Count('?', st.sql) == |st.params| <==> |columns| == |values|)
      && forall i :: 0 <= i < |values| ==> st.params[i] == BindText(values[i])
  {
    KeywordMarks();
    var conds := MapText(Condition, columns);
    forall i | 0 <= i < |conds|
      ensures Count('?', conds[i]) == 1
    {
      assert columns[i] in columns;
      CountAbsent('?', ColumnText(columns[i]));
      CountConcat('?', ColumnText(columns[i]), Assign);
    }
    CountJoined(And, conds, 1);
    CountAbsent('?', table);
    CountConcat('?', SelectFrom, table);
    CountAbsent('?', SelectFrom);
    CountConcat('?', SelectFrom + table, Where);
    CountAbsent('?', Where);
    var a := SelectFrom + table + Where;
    CountConcat('?', a, Join(And, conds));
    CountConcat('?', a + Join(And, conds), Terminator);
    CountAbsent('?', Terminator);
  }
}
