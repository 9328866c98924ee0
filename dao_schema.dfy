/** initDao: the CREATE TABLE IF NOT EXISTS statement built for each mapped class. */
module DaoSchema {
  import opened Wrappers
  import opened DaoTypes
  import opened SqlText
  import opened DaoFields

  /** The table initDao creates: the @DaoTable name, or else the class's simple name. */
  function DdlTableName(c: ClassDesc): string
  {
    match c.table
    case Some(name) => name
    case None => c.simpleName
  }

  // The keywords of the schema text.
  const KwText := "TEXT"
  const KwInteger := "INTEGER"
  const KwReal := "REAL"
  const KwBlob := "BLOB"
  const KwPrimaryKey := " PRIMARY KEY"
  const KwNotNull := " NOT NULL"
  const KwUnique := " UNIQUE"
  const KwAutoIncrement := " AUTOINCREMENT"
  const KwDefault := "DEFAULT "
  const KwSpace := " "

  /** The column type of a Java field type: String is TEXT, int and boolean (primitive or
      boxed) are INTEGER, double (primitive or boxed) is REAL, everything else is BLOB. */
  function SqlType(t: JavaType): string
  {
    match t
    case StringType => KwText
    case IntPrimitive | IntegerBoxed => KwInteger
    case BooleanPrimitive | BooleanBoxed => KwInteger
    case DoublePrimitive | DoubleBoxed => KwReal
    case OtherType(_) => KwBlob
  }

  /** The constraint texts of a column, appended always in the order PRIMARY KEY, NOT NULL,
      UNIQUE, AUTOINCREMENT, DEFAULT. The default clause has no leading space and a trailing one. */
  function PrimaryKeyText(col: DaoColumn): string { if col.primaryKey then KwPrimaryKey else "" }
  function NotNullText(col: DaoColumn): string { if !col.nullable then KwNotNull else "" }
  function UniqueText(col: DaoColumn): string { if col.unique then KwUnique else "" }
  function AutoIncrementText(col: DaoColumn): string { if col.autoIncrement then KwAutoIncrement else "" }
  function DefaultText(col: DaoColumn): string
  {
    if col.defaultValue != "" then KwDefault + col.defaultValue + KwSpace else ""
  }

  /** One column definition: name, type, constraints. */
  function ColumnDefinition(p: PersistedField): string
  {
    ColumnName(p) + KwSpace + SqlType(p.javaType)
    + PrimaryKeyText(p.column) + NotNullText(p.column) + UniqueText(p.column)
    + AutoIncrementText(p.column) + DefaultText(p.column)
  }

  /** The column definitions of the fields, in field order. */
  function ColumnDefinitions(ps: seq<PersistedField>): seq<string>
  {
    MapText(ColumnDefinition, ps)
  }

  const CreatePrefix := "CREATE TABLE IF NOT EXISTS "

  /** The whole statement: every persisted column definition, in field order, separated by ", ". */
  function CreateTableSql(c: ClassDesc): string
  {
    CreatePrefix + DdlTableName(c) + OpenColumns + Join(Separator, ColumnDefinitions(Persisted(c.chain))) + CloseStatement
  }

  /** Builds the statement as initDao does: the table name, then each column definition
      followed by ", ", the trailing ", " stripped, and ");" to close. */
  method BuildCreateTable(c: ClassDesc) returns (query: string)
    ensures query == CreateTableSql(c)
  {
    query := CreatePrefix;
    if c.table.Some? {
      query := query + c.table.value;
    } else {
      query := query + c.simpleName;
    }
    query := query + OpenColumns;
    assert !EndsWith(query, Separator) by {
      assert query[|query| - 1] == '(';
    }
    var fields := GetAllFields(c);
    query := AppendColumnDefinitions(query, fields);
    query := query + CloseStatement;
  }

  /** The loop of initDao over the persisted fields: appends each definition and ", ", then
      removes the last ", " if the text ends with one. */
  method AppendColumnDefinitions(prefix: string, fields: seq<PersistedField>) returns (query: string)
    requires !EndsWith(prefix, Separator)
    ensures query == prefix + Join(Separator, ColumnDefinitions(fields))
  {
    query := prefix;
    ghost var defs := ColumnDefinitions(fields);
    for i := 0 to |fields|
      invariant query == prefix + Terminated(Separator, defs[..i])
    {
      var def := ColumnDefinitionText(fields[i]);
      AppendTerminated(query, prefix, Separator, defs, i, def);
      query := query + def;
      query := query + Separator;
    }
    assert query == prefix + Terminated(Separator, defs) by {
      assert defs[..|fields|] == defs;
    }
    query := TrimTrailingSeparator(query, prefix, defs);
  }

  /** The end of the loop of initDao: a text ending with ", " loses those two characters, so
      the terminated definitions become the joined ones. */
  method TrimTrailingSeparator(query: string, ghost prefix: string, ghost defs: seq<string>) returns (r: string)
    requires !EndsWith(prefix, Separator) && query == prefix + Terminated(Separator, defs)
    ensures r == prefix + Join(Separator, defs)
  {
    TrimSeparator(prefix, defs);
    r := query;
    if EndsWith(r, Separator) {
      r := r[..|r| - 2];
    }
  }

  /** The definition of one column as the loop body of initDao appends it, piece by piece. */
  method ColumnDefinitionText(p: PersistedField) returns (def: string)
    ensures def == ColumnDefinition(p)
  {
    var col := p.column;
    if col.name == "" {
      def := p.name + KwSpace;
    } else {
      def := col.name + KwSpace;
    }
    assert def == ColumnName(p) + KwSpace;
    if p.javaType == StringType {
      def := def + KwText;
    } else if p.javaType == IntPrimitive || p.javaType == IntegerBoxed {
      def := def + KwInteger;
    } else if p.javaType == BooleanPrimitive || p.javaType == BooleanBoxed {
      def := def + KwInteger;
    } else if p.javaType == DoublePrimitive || p.javaType == DoubleBoxed {
      def := def + KwReal;
    } else {
      def := def + KwBlob;
    }
    assert def == ColumnName(p) + KwSpace + SqlType(p.javaType);
    if col.primaryKey {
      def := def + KwPrimaryKey;
    }
    assert def == ColumnName(p) + KwSpace + SqlType(p.javaType) + PrimaryKeyText(col);
    if !col.nullable {
      def := def + KwNotNull;
    }
    assert def == ColumnName(p) + KwSpace + SqlType(p.javaType) + PrimaryKeyText(col) + NotNullText(col);
    if col.unique {
      def := def + KwUnique;
    }
    assert def == ColumnName(p) + KwSpace + SqlType(p.javaType) + PrimaryKeyText(col) + NotNullText(col)
      + UniqueText(col);
    if col.autoIncrement {
      def := def + KwAutoIncrement;
    }
    assert def == ColumnName(p) + KwSpace + SqlType(p.javaType) + PrimaryKeyText(col) + NotNullText(col)
      + UniqueText(col) + AutoIncrementText(col);
    if col.defaultValue != "" {
      def := def + (KwDefault + col.defaultValue + KwSpace);
    }
  }

  /** initDao: one CREATE TABLE statement per class, in the order given. Executing each is
      left to the backend; a failure is printed and does not stop the loop. */
  method InitDao(classes: seq<ClassDesc>) returns (executed: seq<string>)
    ensures |executed| == |classes|
    ensures forall i :: 0 <= i < |classes| ==> executed[i] == CreateTableSql(classes[i])
  {
    executed := [];
    for i := 0 to |classes|
      invariant |executed| == i
      invariant forall k :: 0 <= k < i ==> executed[k] == CreateTableSql(classes[k])
    {
      var query := BuildCreateTable(classes[i]);
      ghost var before := executed;
      executed := executed + [query];
      assert forall k :: 0 <= k < i ==> executed[k] == before[k];
    }
  }

  /** No keyword of the schema text holds a comma; the separator holds exactly one. */
  lemma KeywordCommas()
    ensures ',' !in KwText && ',' !in KwInteger && ',' !in KwReal && ',' !in KwBlob
    ensures ',' !in KwPrimaryKey && ',' !in KwNotNull && ',' !in KwUnique
    ensures ',' !in KwAutoIncrement && ',' !in KwDefault && ',' !in KwSpace
    ensures ',' !in CreatePrefix && ',' !in OpenColumns && ',' !in CloseStatement
    ensures Count(',', Separator) == 1
  {
    assert Separator[..1] == [','];
    assert [','][..0] == [];
  }

  /** A column definition holds a comma only if its column name or its default does. */
  lemma DefinitionCommas(p: PersistedField)
    requires ',' !in ColumnName(p) && ',' !in p.column.defaultValue
    ensures Count(',', ColumnDefinition(p)) == 0
  {
    KeywordCommas();
    assert ',' !in SqlType(p.javaType);
    CountAbsent(',', ColumnDefinition(p));
  }

  /** When no name, default or table name contains a comma, the statement holds exactly one
      comma between each two neighbouring column definitions, and none otherwise. */
  lemma CreateTableCommas(c: ClassDesc)
    requires ',' !in DdlTableName(c)
    requires forall p :: p in Persisted(c.chain) ==> ',' !in ColumnName(p) && ',' !in p.column.defaultValue
    ensures |Persisted(c.chain)| > 0 ==> Count(',', CreateTableSql(c)) == |Persisted(c.chain)| - 1
    ensures |Persisted(c.chain)| == 0 ==> Count(',', CreateTableSql(c)) == 0
  {
    var ps := Persisted(c.chain);
    var defs := ColumnDefinitions(ps);
    forall i | 0 <= i < |defs|
      ensures Count(',', defs[i]) == 0
    {
      assert ps[i] in ps;
      DefinitionCommas(ps[i]);
    }
    CountAllUniform(',', defs, 0);
    CountJoin(',', Separator, defs);
    KeywordCommas();
    var head := CreatePrefix + DdlTableName(c) + OpenColumns;
    var j := Join(Separator, defs);
    CountAbsent(',', head);
    CountAbsent(',', CloseStatement);
    CountConcat(',', head, j);
    CountConcat(',', head + j, CloseStatement);
  }

  /** The class User with id (int, primary key, autoincrement), name (String, not null)
      and active (boolean), and no @DaoTable annotation. */
  function UserClass(): ClassDesc
  {
    ClassDesc("User", None, [[
      FieldDecl("id", IntPrimitive, Some(DaoColumn("", true, true, false, true, ""))),
      FieldDecl("name", StringType, Some(DaoColumn("", false, false, false, false, ""))),
      FieldDecl("active", BooleanPrimitive, Some(DaoColumn("", false, true, false, false, "")))
    ], []], true, map[])
  }

  /** The reference schema for User. */
  lemma UserSchema()
    ensures CreateTableSql(UserClass()) ==
      "CREATE TABLE IF NOT EXISTS User (" + "id INTEGER PRIMARY KEY AUTOINCREMENT, name TEXT NOT NULL, active INTEGER" + ");"
  {
    UserColumns();
    UserHeader();
  }

  /** User annotated @DaoTable("users"): the same columns, in the table users. */
  lemma AnnotatedUserSchema()
    ensures CreateTableSql(UserClass().(table := Some("users"))) ==
      "CREATE TABLE IF NOT EXISTS users (" + "id INTEGER PRIMARY KEY AUTOINCREMENT, name TEXT NOT NULL, active INTEGER" + ");"
  {
    var c := UserClass().(table := Some("users"));
    assert c.chain == UserClass().chain;
    UserColumns();
    UsersHeader();
  }

  lemma UserHeader()
    ensures CreatePrefix + "User" + OpenColumns == "CREATE TABLE IF NOT EXISTS User ("
  {
  }

  lemma UsersHeader()
    ensures CreatePrefix + "users" + OpenColumns == "CREATE TABLE IF NOT EXISTS users ("
  {
  }

  /** A @DaoTable name takes the place of the simple name and changes nothing else: the
      annotated and the unannotated statement agree after the table name. */
  lemma AnnotationRenamesOnly(c: ClassDesc, name: string)
    ensures var plain := CreateTableSql(c.(table := None));
      var named := CreateTableSql(c.(table := Some(name)));
      var p := |CreatePrefix + c.simpleName|;
      var q := |CreatePrefix + name|;
      p <= |plain| && q <= |named| && plain[..p] == CreatePrefix + c.simpleName
      && named[..q] == CreatePrefix + name && named[q..] == plain[p..]
  {
    var columns := Join(Separator, ColumnDefinitions(Persisted(c.chain)));
    SplitAfter(CreatePrefix, c.simpleName, OpenColumns, columns, CloseStatement);
    SplitAfter(CreatePrefix, name, OpenColumns, columns, CloseStatement);
  }

  /** The statement text split after the table name. */
  lemma SplitAfter(prefix: string, table: string, open: string, columns: string, close: string)
    ensures var s := prefix + table + open + columns + close;
      |prefix + table| <= |s| && s[..|prefix + table|] == prefix + table
      && s[|prefix + table|..] == open + columns + close
  {
    var s := prefix + table + open + columns + close;
    assert s == (prefix + table) + (open + columns + close);
  }

  /** The column list of User's fields. */
  lemma UserColumns()
    ensures Join(Separator, ColumnDefinitions(Persisted(UserClass().chain))) ==
      "id INTEGER PRIMARY KEY AUTOINCREMENT, name TEXT NOT NULL, active INTEGER"
  {
    UserFields();
    UserDefinitions();
    var d0 := "id INTEGER PRIMARY KEY AUTOINCREMENT";
    var d1 := "name TEXT NOT NULL";
    var d2 := "active INTEGER";
    JoinThree(Separator, d0, d1, d2);
    UserColumnList(d0, d1, d2);
  }

  lemma UserColumnList(d0: string, d1: string, d2: string)
    requires d0 == "id INTEGER PRIMARY KEY AUTOINCREMENT" && d1 == "name TEXT NOT NULL" && d2 == "active INTEGER"
    ensures d0 + Separator + d1 + Separator + d2 == "id INTEGER PRIMARY KEY AUTOINCREMENT, name TEXT NOT NULL, active INTEGER"
  {
  }

  /** The column definitions of User's fields. */
  lemma UserDefinitions()
    ensures ColumnDefinitions(Persisted(UserClass().chain)) ==
      ["id INTEGER PRIMARY KEY AUTOINCREMENT", "name TEXT NOT NULL", "active INTEGER"]
  {
    var id := PersistedField(FieldId(0, 0), "id", IntPrimitive, DaoColumn("", true, true, false, true, ""));
    var name := PersistedField(FieldId(0, 1), "name", StringType, DaoColumn("", false, false, false, false, ""));
    var active := PersistedField(FieldId(0, 2), "active", BooleanPrimitive, DaoColumn("", false, true, false, false, ""));
    UserFields();
    IdDefinition(id);
    NameDefinition(name);
    ActiveDefinition(active);
  }

  lemma IdDefinition(p: PersistedField)
    requires p == PersistedField(FieldId(0, 0), "id", IntPrimitive, DaoColumn("", true, true, false, true, ""))
    ensures ColumnDefinition(p) == "id INTEGER PRIMARY KEY AUTOINCREMENT"
  {
    assert ColumnName(p) + KwSpace + SqlType(p.javaType) == "id INTEGER";
    assert PrimaryKeyText(p.column) + NotNullText(p.column) + UniqueText(p.column) == " PRIMARY KEY";
  }

  lemma NameDefinition(p: PersistedField)
    requires p == PersistedField(FieldId(0, 1), "name", StringType, DaoColumn("", false, false, false, false, ""))
    ensures ColumnDefinition(p) == "name TEXT NOT NULL"
  {
  }

  lemma ActiveDefinition(p: PersistedField)
    requires p == PersistedField(FieldId(0, 2), "active", BooleanPrimitive, DaoColumn("", false, true, false, false, ""))
    ensures ColumnDefinition(p) == "active INTEGER"
  {
  }

  /** The persisted fields of User: all three of its fields, in declaration order. */
  lemma UserFields()
    ensures Persisted(UserClass().chain) == [
      PersistedField(FieldId(0, 0), "id", IntPrimitive, DaoColumn("", true, true, false, true, "")),
      PersistedField(FieldId(0, 1), "name", StringType, DaoColumn("", false, false, false, false, "")),
      PersistedField(FieldId(0, 2), "active", BooleanPrimitive, DaoColumn("", false, true, false, false, ""))]
  {
    var chain := UserClass().chain;
    var l0 := Level(chain, 0);
    assert DeclaredUpTo(chain, 2) == l0 by {
      assert Level(chain, 1) == [];
      assert DeclaredUpTo(chain, 1) == [] + l0;
    }
    assert l0 == [l0[0], l0[1], l0[2]];
    AnnotatedConcat([l0[0], l0[1]], [l0[2]]);
    AnnotatedConcat([l0[0]], [l0[1]]);
    assert [l0[0], l0[1], l0[2]] == [l0[0], l0[1]] + [l0[2]];
    assert [l0[0], l0[1]] == [l0[0]] + [l0[1]];
    assert [l0[0]][..0] == [];
    assert [l0[1]][..0] == [];
    assert [l0[2]][..0] == [];
  }

  /** A default value is appended directly after the preceding text, with no space. */
  lemma DefaultHasNoLeadingSpace(p: PersistedField)
    requires p.column.defaultValue != "" && !p.column.primaryKey && p.column.nullable
    requires !p.column.unique && !p.column.autoIncrement
    ensures ColumnDefinition(p) == ColumnName(p) + KwSpace + SqlType(p.javaType) + KwDefault + p.column.defaultValue + KwSpace
  {
  }

  /** Whatever constraints precede it, a default is glued to them: the definition is the one
      without the default followed directly by `DEFAULT <value> `. */
  lemma DefaultGlued(p: PersistedField)
    requires p.column.defaultValue != ""
    ensures var bare := ColumnDefinition(p.(column := p.column.(defaultValue := "")));
      ColumnDefinition(p) == bare + KwDefault + p.column.defaultValue + KwSpace
  {
    var q := p.(column := p.column.(defaultValue := ""));
    var head := ColumnName(p) + KwSpace + SqlType(p.javaType)
      + PrimaryKeyText(p.column) + NotNullText(p.column) + UniqueText(p.column)
      + AutoIncrementText(p.column);
    assert ColumnDefinition(q) == head + "";
    assert ColumnDefinition(p) == head + (KwDefault + p.column.defaultValue + KwSpace);
    AppendThree(head, KwDefault, p.column.defaultValue, KwSpace);
  }

  lemma AppendThree(x: string, a: string, b: string, c: string)
    ensures x + (a + b + c) == x + "" + a + b + c
  {
    assert x + "" == x;
  }

  /** A not-null String column with default x: `NOT NULL` and `DEFAULT` run together. */
  lemma NotNullDefaultGlued(p: PersistedField)
    requires p.name == "name" && p.javaType == StringType && p.column == DaoColumn("", false, false, false, false, "x")
    ensures ColumnDefinition(p) == "name TEXT NOT NULLDEFAULT x "
  {
  }
}
