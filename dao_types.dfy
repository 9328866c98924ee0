/** Data model of the SQLite data-access object: the metadata that reflection
    reads off an annotated class, the values it moves, the statements it
    prepares and the rows the backend reports. */
module DaoTypes {
  import opened Wrappers

  /** An exception the DAO lets escape to its caller. */
  datatype Error =
    | IllegalArgument(message: string)   // IllegalArgumentException
    | NullPointer                        // dereferencing a missing @DaoTable annotation
    | Runtime(message: string)           // RuntimeException thrown by readAll

  datatype Result<+T> = Success(value: T) | Failure(error: Error)

  /** A loosely typed value as JDBC's setObject/getObject moves it. */
  datatype Value =
    | Null
    | Text(s: string)
    | Integer(i: int)
    | Bool(b: bool)
    | Real(r: real)
    | Blob(bytes: seq<int>)

  /** The declared Java type of a field, as far as the column type mapping looks at it. */
  datatype JavaType =
    | StringType
    | IntPrimitive | IntegerBoxed
    | BooleanPrimitive | BooleanBoxed
    | DoublePrimitive | DoubleBoxed
    | OtherType(className: string)

  /** The attributes of a @DaoColumn annotation. An empty name or default means "not given". */
  datatype DaoColumn = DaoColumn(
    name: string,
    primaryKey: bool,
    nullable: bool,
    unique: bool,
    autoIncrement: bool,
    defaultValue: string)

  /** One declared field of one class: its name, its type and its @DaoColumn annotation if any. */
  datatype FieldDecl = FieldDecl(name: string, javaType: JavaType, column: Option<DaoColumn>)

  /** A mapped class: its simple name, its @DaoTable name if annotated, the declared fields
      of the class and of each superclass (chain[0] is the class itself, chain[1] its
      superclass, and so on), whether it has a usable no-argument constructor, and the
      object that constructor produces (field initialisers, primitive zeros and whatever
      its body sets). */
  datatype ClassDesc = ClassDesc(
    simpleName: string,
    table: Option<string>,
    chain: seq<seq<FieldDecl>>,
    instantiable: bool,
    initial: Instance)

  /** Identity of a Java field: depth of its declaring class in the chain and its slot there. */
  datatype FieldId = FieldId(level: nat, position: nat)

  /** A field that carries @DaoColumn, as getAllFields returns it. */
  datatype PersistedField = PersistedField(id: FieldId, name: string, javaType: JavaType, column: DaoColumn)

  /** An object of a mapped class: the value of each of its fields; a field that is
      not in the map holds null. */
  type Instance = map<FieldId, Value>

  /** A result row: the columns in the order the backend reports them. */
  type Row = seq<(string, Value)>

  /** A prepared statement: SQL text and the value bound to placeholder i + 1 at index i. */
  datatype Statement = Statement(sql: string, params: seq<Value>)

  /** What the backend answers to a query: its result set, or a failure (SQLException,
      no connection from the pool). */
  datatype Answer = Rows(rows: seq<Row>) | SqlFailure

  /** The value of a field of an instance, null when the instance does not hold it. */
  function FieldValue(inst: Instance, id: FieldId): Value
  {
    if id in inst then inst[id] else Null
  }

  /** The column a persisted field maps to: the annotation's name, or else the field name. */
  function ColumnName(p: PersistedField): string
  {
    if p.column.name == "" then p.name else p.column.name
  }
}
