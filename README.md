# thingai base: SQLite DAO and LRU cache, modelled in Dafny

This project models two parts of the thingai `base` library and proves properties of them.

**The reflective SQLite data-access object (`DaoSqlite`).**
- Java reflection is replaced by an explicit class descriptor, `ClassDesc`. It holds the simple name, the optional `@DaoTable` name, the declared fields of the class and of each superclass, whether there is a usable no-argument constructor, and the object that constructor produces.
- An object is a map from field identity to value. A prepared statement is its SQL text plus the values bound to its placeholders, in placeholder order.
- The backend (the Hikari pool, the JDBC driver and SQLite) is a parameter `db`. It answers a statement with result rows or with a failure.
- Every builder loop of the source appears as a `method` with a loop and its invariants. Each is proved equal to a pure function, and the properties are proved about those functions:
  - `getAllFields` keeps exactly the annotated fields, most-derived class first.
  - `initDao` produces the exact DDL text: type mapping, constraint order, and the trimmed separator.
  - The insert, update and column-query statements have aligned placeholders and bound values.
  - read, update and delete filter on the literal `id` column.
  - `insertOrUpdate` chooses between update and insert from the result of read.
  - Materialisation keeps result-set order and field values.
  - Over a backend that stores each bound value unchanged, reading back the row an insert stored gives the inserted values. SQLite does not store every Java type unchanged: see "Left out" for booleans.

**The bounded LRU cache (`LRUCache`).**
- It is a class with real `CacheNode` objects in a doubly linked list between a dummy head and a dummy tail, plus a map from key to node.
- `get`, `put`, `addToHead` and `removeNode` rewire `prev`/`next` in place.
- A ghost `chain` (the list of nodes from head to tail) and `keys` (the keys of the entries, most recently used first) let the class invariant `Valid()` state four things: the links are mutually consistent, each node occurs once, the map sends each listed key to its node, and the listed keys are exactly the mapped keys and at most `maxCacheSize` of them.
- Every public method is proved to do exactly what a pure value model (`LruSpec.Lru`) says.
- `get` and `put` also promise that every node of the new list is an old node or a newly allocated one. A client can therefore make one call after another on the same cache (`LruCache.PutThenGet`).
- The promised properties are lemmas about that model: get/put behaviour, eviction of `tail.prev`, the size bound over any run of calls, and put-then-get.

Modules: `Wrappers` (Option), `SqlText` (join, the append-then-trim idiom, character counts), `DaoTypes`, `DaoFields`, `DaoSchema`, `DaoStatements`, `DaoMaterialize`, `DaoSqlite`, `LruSpec`, `LruCache`.

Behaviour of the code worth knowing:
- Fields that share a column name are all kept; nothing detects the duplicate. See `DaoFields.NoDeduplication`.
- Backend failures of write statements are printed and swallowed.
- read returns null on failure. The column query returns an empty array on failure. readAll throws `RuntimeException`.
- The DDL default clause is `"DEFAULT " + value + " "`, appended with no leading space, so it runs into whatever precedes it (`name TEXT NOT NULLDEFAULT x `). See `DaoSchema.DefaultGlued`.
- `insertBatch` calls `insert` only, never an upsert.
- The column query with no columns is not rejected. It issues `SELECT * FROM <table> WHERE ;`. See `DaoStatements.EmptyColumnQuery`.

## Model

| member | source | states |
|---|---|---|
| DaoFields.GetAllFields | src/main/java/org/thingai/base/dao/DaoSqlite.java:37-48 | the fields returned are `Persisted(chain)`: the declared fields of every class of the chain, most-derived first, filtered to those carrying @DaoColumn |
| DaoFields.PersistedExactly | src/main/java/org/thingai/base/dao/DaoSqlite.java:39-45 | a field is returned if and only if the chain declares it with a @DaoColumn annotation, at the identity it carries |
| DaoFields.PersistedSound | src/main/java/org/thingai/base/dao/DaoSqlite.java:45 | every returned field is an annotated declared field |
| DaoFields.PersistedComplete | src/main/java/org/thingai/base/dao/DaoSqlite.java:39-45 | every annotated declared field is returned |
| DaoFields.PersistedOrdered | src/main/java/org/thingai/base/dao/DaoSqlite.java:39-42 | the result is strictly ordered: most-derived class first, then each superclass, each class in declaration order, so no field appears twice |
| DaoFields.PersistedExtend | src/main/java/org/thingai/base/dao/DaoSqlite.java:39-42 | adding a superclass appends its annotated fields after the ones already gathered and changes nothing before them |
| DaoFields.NoDeduplication | src/main/java/org/thingai/base/dao/DaoSqlite.java:45 | two annotated fields with the same column name are both returned, so the result can hold a column name twice |
| DaoFields.AnnotatedMember | src/main/java/org/thingai/base/dao/DaoSqlite.java:45 | a field is in the filtered list if and only if some listed field carries @DaoColumn and describes it |
| DaoFields.AnnotatedOrdered | src/main/java/org/thingai/base/dao/DaoSqlite.java:45 | filtering a strictly ordered field list leaves it strictly ordered |
| DaoFields.DeclaredUpToMember | src/main/java/org/thingai/base/dao/DaoSqlite.java:39-42 | the walk up the class chain collects exactly the fields those classes declare |
| DaoFields.DeclaredUpToOrdered | src/main/java/org/thingai/base/dao/DaoSqlite.java:39-42 | the walk collects the fields in strictly increasing (class depth, slot) order |
| DaoSchema.AnnotationRenamesOnly | src/main/java/org/thingai/base/dao/DaoSqlite.java:54-61 | a @DaoTable name takes the place of the simple name after `CREATE TABLE IF NOT EXISTS `, and the rest of the statement is the same as for the unannotated class |
| DaoSchema.AnnotatedUserSchema | src/main/java/org/thingai/base/dao/DaoSqlite.java:54-110 | User annotated @DaoTable("users") yields `CREATE TABLE IF NOT EXISTS users (id INTEGER PRIMARY KEY AUTOINCREMENT, name TEXT NOT NULL, active INTEGER);` |
| DaoSchema.BuildCreateTable | src/main/java/org/thingai/base/dao/DaoSqlite.java:54-110 | the statement is `CREATE TABLE IF NOT EXISTS <table> (` + the column definitions of the persisted fields joined by ", " + `);` |
| DaoSchema.AppendColumnDefinitions | src/main/java/org/thingai/base/dao/DaoSqlite.java:63-109 | appending each definition plus ", " and then cutting a trailing ", " yields the definitions joined by ", " (nothing cut when there is no field) |
| DaoSchema.TrimTrailingSeparator | src/main/java/org/thingai/base/dao/DaoSqlite.java:107-109 | cutting a trailing ", " from the prefix followed by the definitions each terminated by ", " leaves the prefix followed by the definitions joined by ", " |
| DaoSchema.ColumnDefinitionText | src/main/java/org/thingai/base/dao/DaoSqlite.java:65-101 | one definition is the column name or field name, a space, the mapped SQL type, then PRIMARY KEY, NOT NULL, UNIQUE, AUTOINCREMENT and the default, in that order |
| DaoSchema.InitDao | src/main/java/org/thingai/base/dao/DaoSqlite.java:51-126 | one CREATE TABLE statement per class, in the order of the classes, statement i built from class i |
| DaoSchema.CreateTableCommas | src/main/java/org/thingai/base/dao/DaoSqlite.java:103-110 | with no comma in the names or defaults, the statement holds exactly one comma between neighbouring definitions and none when there are no fields |
| DaoSchema.DefinitionCommas | src/main/java/org/thingai/base/dao/DaoSqlite.java:67-101 | a definition holds a comma only through its column name or its default |
| DaoSchema.KeywordCommas | src/main/java/org/thingai/base/dao/DaoSqlite.java:55-110 | no keyword of the DDL text holds a comma; the separator ", " holds exactly one |
| DaoSchema.UserSchema | src/main/java/org/thingai/base/dao/DaoSqlite.java:55-110 | the class User (id int primary key autoincrement, name String not null, active boolean) yields `CREATE TABLE IF NOT EXISTS User (id INTEGER PRIMARY KEY AUTOINCREMENT, name TEXT NOT NULL, active INTEGER);` |
| DaoSchema.UserDefinitions | src/main/java/org/thingai/base/dao/DaoSqlite.java:65-101 | the three column definitions of User, in declaration order |
| DaoSchema.UserFields | src/main/java/org/thingai/base/dao/DaoSqlite.java:37-48 | the persisted fields of User are its three fields in declaration order |
| DaoSchema.IdDefinition | src/main/java/org/thingai/base/dao/DaoSqlite.java:67-98 | an int primary-key autoincrement column `id` is defined as `id INTEGER PRIMARY KEY AUTOINCREMENT` |
| DaoSchema.NameDefinition | src/main/java/org/thingai/base/dao/DaoSqlite.java:67-92 | a non-nullable String column `name` is defined as `name TEXT NOT NULL` |
| DaoSchema.ActiveDefinition | src/main/java/org/thingai/base/dao/DaoSqlite.java:67-79 | a nullable boolean column `active` is defined as `active INTEGER` |
| DaoSchema.DefaultHasNoLeadingSpace | src/main/java/org/thingai/base/dao/DaoSqlite.java:99-101 | a default follows the type directly: `<name> <TYPE>DEFAULT <value> ` |
| DaoSchema.DefaultGlued | src/main/java/org/thingai/base/dao/DaoSqlite.java:67-101 | whatever constraints precede it, a default is glued to them: the definition is the one without the default followed directly by `DEFAULT <value> ` |
| DaoSchema.NotNullDefaultGlued | src/main/java/org/thingai/base/dao/DaoSqlite.java:67-101 | a not-null String column `name` with default `x` is defined as `name TEXT NOT NULLDEFAULT x ` |
| SqlText.TrimTerminated | src/main/java/org/thingai/base/dao/DaoSqlite.java:106-109 | after a text that does not end with the separator, each item plus the separator, trimmed of a final separator, is the items joined |
| SqlText.TrimSeparator | src/main/java/org/thingai/base/dao/DaoSqlite.java:106-109 | the same trim with the length 2 of ", " written out as `length() - 2` |
| SqlText.TrimBuilder | src/main/java/org/thingai/base/dao/DaoSqlite.java:146-150 | a StringBuilder of terminated items is non-empty exactly when there is an item, and `setLength(length() - 2)` leaves the items joined |
| SqlText.TerminatedEndsWith | src/main/java/org/thingai/base/dao/DaoSqlite.java:107 | the built text ends with ", " exactly when at least one field was appended |
| SqlText.TerminatedJoin | src/main/java/org/thingai/base/dao/DaoSqlite.java:103-109 | a non-empty list of terminated items is the joined items followed by one separator |
| SqlText.MapText | src/main/java/org/thingai/base/dao/DaoSqlite.java:138-144 | the per-field texts have one entry per field, entry i built from field i |
| SqlText.CountJoin | src/main/java/org/thingai/base/dao/DaoSqlite.java:141-142 | joining adds the separator's occurrences of a character once between each two neighbouring items |
| DaoStatements.BuildInsert | src/main/java/org/thingai/base/dao/DaoSqlite.java:133-164 | insert's statement is `INSERT INTO <table> (` + the column names joined by ", " + `) VALUES (` + as many "?" joined by ", " + `);`, with the field values bound in field order |
| DaoStatements.BindFields | src/main/java/org/thingai/base/dao/DaoSqlite.java:156-164 | `setObject(index++, value)` over the fields binds the value of field i at placeholder i + 1 |
| DaoStatements.InsertPlaceholders | src/main/java/org/thingai/base/dao/DaoSqlite.java:138-164 | column list, placeholders and bound values have the same length; column i and bound value i belong to field i; with no '?' in names the text has one '?' per bound value |
| DaoStatements.BuildUpdate | src/main/java/org/thingai/base/dao/DaoSqlite.java:279-308 | update's statement is `UPDATE <table> SET ` + the SET clause + ` WHERE id = ?;`, binding the non-key values and then the id |
| DaoStatements.BuildSetClause | src/main/java/org/thingai/base/dao/DaoSqlite.java:280-295 | the SET clause is "column = ?" for exactly the non-primary-key fields, in order, joined by ", " |
| DaoStatements.BindNonKey | src/main/java/org/thingai/base/dao/DaoSqlite.java:299-307 | the values of the non-primary-key fields are bound at 1..n, in field order |
| DaoStatements.UpdatePlaceholders | src/main/java/org/thingai/base/dao/DaoSqlite.java:283-308 | update binds n non-key values and the id last at n + 1, matching the number of '?' in its text |
| DaoStatements.NonKeyMember | src/main/java/org/thingai/base/dao/DaoSqlite.java:285 | a field is set by update if and only if it is persisted and not a primary key |
| DaoStatements.NonKeyAll | src/main/java/org/thingai/base/dao/DaoSqlite.java:285 | with no primary key among the fields, update sets every column |
| DaoStatements.FilterById | src/main/java/org/thingai/base/dao/DaoSqlite.java:221 | read, update and delete all end with the literal ` WHERE id = ?;`; read and delete bind only the id, at their one placeholder |
| DaoStatements.BuildQuery | src/main/java/org/thingai/base/dao/DaoSqlite.java:340-355 | the column query is `SELECT * FROM <table> WHERE ` + the conditions + `;`, with value i bound at i + 1 |
| DaoStatements.BuildWhereClause | src/main/java/org/thingai/base/dao/DaoSqlite.java:341-347 | the WHERE clause is each column followed by " = ?", joined by " AND " (a null column reads "null") |
| DaoStatements.WhereStep | src/main/java/org/thingai/base/dao/DaoSqlite.java:343-346 | one pass of the WHERE loop extends the joined prefix, with " AND " after every column but the last |
| DaoStatements.BindValues | src/main/java/org/thingai/base/dao/DaoSqlite.java:353-355 | value i is bound at placeholder i + 1 for every value given, a null string as null |
| DaoStatements.EmptyColumnQuery | src/main/java/org/thingai/base/dao/DaoSqlite.java:336-348 | with no columns and no values the query is `SELECT * FROM <table> WHERE ;` with nothing bound: no check rejects it |
| DaoStatements.QueryPlaceholders | src/main/java/org/thingai/base/dao/DaoSqlite.java:340-355 | the text has one placeholder per column and one bound value per value; the two agree if and only if as many values as columns are passed, which nothing checks |
| DaoStatements.FieldValues | src/main/java/org/thingai/base/dao/DaoSqlite.java:161-162 | one bound value per field, value i read from field i (null when the object lacks it) |
| DaoStatements.TextValues | src/main/java/org/thingai/base/dao/DaoSqlite.java:353-355 | one bound value per string value, value i from string i |
| DaoMaterialize.MaterializeRow | src/main/java/org/thingai/base/dao/DaoSqlite.java:227-235 | a fresh instance with each persisted field set from `getObject(column)`, or a failure when the class has no usable constructor or the row lacks a column |
| DaoMaterialize.MaterializeFields | src/main/java/org/thingai/base/dao/DaoSqlite.java:227-235 | among the failures modelled (no usable constructor, a missing column), materialising succeeds if and only if the class can be instantiated and the row reports every persisted column; every persisted field then holds its column's value, and every other field keeps the value the no-argument constructor gave it |
| DaoMaterialize.LookupFirst | src/main/java/org/thingai/base/dao/DaoSqlite.java:233 | getObject(label) finds a label exactly when the row reports it, and yields the first column of that name |
| DaoMaterialize.LookupDistinct | src/main/java/org/thingai/base/dao/DaoSqlite.java:233 | in a row with distinct column names, each column is found with its own value |
| DaoMaterialize.MaterializedDefined | src/main/java/org/thingai/base/dao/DaoSqlite.java:229-235 | setting the fields succeeds if and only if every field's column is present |
| DaoMaterialize.MaterializedKeys | src/main/java/org/thingai/base/dao/DaoSqlite.java:227-235 | a materialised instance holds exactly the fields of the new object and the persisted fields |
| DaoMaterialize.MaterializedKeeps | src/main/java/org/thingai/base/dao/DaoSqlite.java:227-235 | a field that is not persisted keeps the value the new object gave it |
| DaoMaterialize.MaterializedValues | src/main/java/org/thingai/base/dao/DaoSqlite.java:229-235 | each field of a materialised instance holds its column's value |
| DaoMaterialize.MaterializedFails | src/main/java/org/thingai/base/dao/DaoSqlite.java:233 | once one field's column is missing the whole row fails (the exception leaves the loop) |
| DaoMaterialize.MaterializeRows | src/main/java/org/thingai/base/dao/DaoSqlite.java:252-263 | the `while (resultSet.next())` loop builds one instance per row, in row order, or fails as a whole when any row fails |
| DaoMaterialize.MaterializeAllOrder | src/main/java/org/thingai/base/dao/DaoSqlite.java:252-266 | the rows materialise if and only if each row does; instance i is then built from row i, one per row |
| DaoMaterialize.MaterializeAllFails | src/main/java/org/thingai/base/dao/DaoSqlite.java:252-263 | once a row fails the whole result fails |
| DaoMaterialize.BuildRawRow | src/main/java/org/thingai/base/dao/DaoSqlite.java:415-420 | queryRaw's map is built by `put(columnName, value)` for every reported column in turn |
| DaoMaterialize.RawRows | src/main/java/org/thingai/base/dao/DaoSqlite.java:414-422 | one map per row, map i built from row i |
| DaoMaterialize.RawRowKeys | src/main/java/org/thingai/base/dao/DaoSqlite.java:416-419 | the map's keys are exactly the row's column names |
| DaoMaterialize.RawRowValues | src/main/java/org/thingai/base/dao/DaoSqlite.java:416-419 | a name maps to the value of the last column reported under it |
| DaoMaterialize.StoredRow | src/main/java/org/thingai/base/dao/DaoSqlite.java:152-167 | the row an insert stores holds column i with the value bound at placeholder i + 1 |
| DaoMaterialize.InsertRoundTrip | src/main/java/org/thingai/base/dao/DaoSqlite.java:128-171 | over a row holding the bound values unchanged, reading back gives an instance whose persisted fields hold the inserted object's values, when the column names are distinct |
| DaoSqlite.Insert | src/main/java/org/thingai/base/dao/DaoSqlite.java:129-171 | a null object fails with IllegalArgumentException; a class without @DaoTable fails on the missing annotation; otherwise the insert statement of all persisted fields |
| DaoSqlite.InsertBatch | src/main/java/org/thingai/base/dao/DaoSqlite.java:174-178 | the elements are inserted in array order; the first rejected element stops the batch with its error after the statements before it; a null array fails at once |
| DaoSqlite.InsertOrUpdate | src/main/java/org/thingai/base/dao/DaoSqlite.java:181-213 | a null object fails; a null or missing first primary-key value fails with IllegalArgumentException; otherwise update by that key when read finds the row, insert when read returns null |
| DaoSqlite.FindKeyValue | src/main/java/org/thingai/base/dao/DaoSqlite.java:187-201 | the search stops at the first primary-key field and yields its value, null when there is none |
| DaoSqlite.FirstKey | src/main/java/org/thingai/base/dao/DaoSqlite.java:189-201 | the first primary-key position: a primary key, with none before it; none when no field is one |
| DaoSqlite.FirstKeyAt | src/main/java/org/thingai/base/dao/DaoSqlite.java:189-201 | the index where the search loop stops is the first primary-key position |
| DaoSqlite.Read | src/main/java/org/thingai/base/dao/DaoSqlite.java:216-242 | a null id fails; without @DaoTable it fails on the annotation; otherwise the first result row as an instance, or null when the select fails, finds nothing or cannot be materialised |
| DaoSqlite.ReadAll | src/main/java/org/thingai/base/dao/DaoSqlite.java:245-271 | one instance per row in result-set order; a failing select or row becomes RuntimeException("Failed to read all records.") |
| DaoSqlite.Update | src/main/java/org/thingai/base/dao/DaoSqlite.java:274-316 | a null id or object fails with IllegalArgumentException; otherwise the update statement with the id bound last |
| DaoSqlite.Delete | src/main/java/org/thingai/base/dao/DaoSqlite.java:319-332 | a null id fails; otherwise `DELETE FROM <table> WHERE id = ?;` with the id bound |
| DaoSqlite.Query | src/main/java/org/thingai/base/dao/DaoSqlite.java:335-376 | null arrays fail with IllegalArgumentException; otherwise the instances of the result rows in order, and an empty array when the select or a row fails |
| DaoSqlite.QueryBySql | src/main/java/org/thingai/base/dao/DaoSqlite.java:379-403 | the raw SQL runs unchanged; at most one instance, built from the first row, because the loop returns inside its first pass |
| DaoSqlite.QueryRaw | src/main/java/org/thingai/base/dao/DaoSqlite.java:406-428 | one map per result row in order, holding every reported column; an empty array when the select fails |
| LruCache.CacheNode.constructor | src/main/java/org/thingai/base/cache/LRUCache.java:6-11 | a new node is linked to nothing |
| LruCache.CacheNode.Entry | src/main/java/org/thingai/base/cache/LRUCache.java:52-54 | a new entry node holds the given key and value and is linked to nothing |
| LruCache.LRUCache.constructor | src/main/java/org/thingai/base/cache/LRUCache.java:18-27 | the cache starts empty, head and tail linked to each other, with the invariant established |
| LruCache.LRUCache.Get | src/main/java/org/thingai/base/cache/LRUCache.java:29-37 | returns the stored value, or null for an absent key; the new state is the model after get, the invariant is kept, and every node of the new list is an old node or a new one, so a later call is framed |
| LruCache.LRUCache.Put | src/main/java/org/thingai/base/cache/LRUCache.java:39-58 | the new state is the model after put: overwrite and move to front, or evict when full and insert in front; the invariant is kept, and every node of the new list is an old node or a new one |
| LruCache.LRUCache.Update | src/main/java/org/thingai/base/cache/LRUCache.java:40-44 | an existing key's node gets the new value and moves to the front; the invariant is kept and the list holds only old nodes |
| LruCache.LRUCache.RemoveLeastUsed | src/main/java/org/thingai/base/cache/LRUCache.java:46-51 | `tail.prev` is unlinked and its key unmapped: the model loses exactly its least recently used key, and the list holds only old nodes |
| LruCache.LRUCache.AddEntry | src/main/java/org/thingai/base/cache/LRUCache.java:52-56 | a new node holding key and value is mapped and linked in after head: the model admits the key in front, and every node of the list is an old one or the new one |
| LruCache.LRUCache.MoveToHead | src/main/java/org/thingai/base/cache/LRUCache.java:34-35 | removeNode then addToHead on a listed node moves its key to the front and keeps the invariant; the list holds only old nodes |
| LruCache.LRUCache.MovedToFront | src/main/java/org/thingai/base/cache/LRUCache.java:34-35 | after a listed key's node is relinked after head, the cache is valid and equals the model after get |
| LruCache.LRUCache.Admitted | src/main/java/org/thingai/base/cache/LRUCache.java:52-56 | after a new key is mapped to a node holding its value and linked in front, the cache is valid and equals the model with the key admitted |
| LruCache.LRUCache.Dropped | src/main/java/org/thingai/base/cache/LRUCache.java:48-50 | after the last entry is unlinked and its key unmapped, the cache is valid and equals the model with that key evicted |
| LruCache.LRUCache.AddToHead | src/main/java/org/thingai/base/cache/LRUCache.java:60-65 | the node is linked in right after head: the list gains it in second place, the keys gain its key in front, links stay consistent, no stored value changes, and the list holds only its old nodes and this one |
| LruCache.LRUCache.RemoveNode | src/main/java/org/thingai/base/cache/LRUCache.java:67-70 | joining the node's neighbours removes it from the list and its key from the keys, the other links staying consistent; no stored value changes and the list holds only old nodes |
| LruCache.LinkIn | src/main/java/org/thingai/base/cache/LRUCache.java:61-64 | the four pointer writes of addToHead leave the list with the node in second place consistently linked |
| LruCache.Unlink | src/main/java/org/thingai/base/cache/LRUCache.java:68-69 | the two pointer writes of removeNode leave the list without the node consistently linked |
| LruCache.CarriesInsert | src/main/java/org/thingai/base/cache/LRUCache.java:60-65 | a new first entry puts its key in front of the listed keys |
| LruCache.CarriesRemove | src/main/java/org/thingai/base/cache/LRUCache.java:67-70 | unlinking entry i removes key i from the listed keys |
| LruCache.EntriesInsert | src/main/java/org/thingai/base/cache/LRUCache.java:55-56 | a new first entry mapped from its key keeps list and map in agreement |
| LruCache.EntriesRemove | src/main/java/org/thingai/base/cache/LRUCache.java:67-70 | unlinking an entry keeps the others mapped |
| LruCache.EntriesDrop | src/main/java/org/thingai/base/cache/LRUCache.java:50 | removing a key no listed entry carries keeps list and map in agreement |
| LruCache.EntriesPut | src/main/java/org/thingai/base/cache/LRUCache.java:55 | mapping a key no listed entry carries keeps list and map in agreement |
| LruCache.Apart | src/main/java/org/thingai/base/cache/LRUCache.java:60-70 | a node occurring once in the list is none of the other nodes, so writes to its neighbours do not touch it |
| LruCache.PutThenGet | src/main/java/org/thingai/base/cache/LRUCache.java:29-58 | put followed by get on the same cache, the second call framed by the first's guarantee on nodes, answers the value just stored |
| LruSpec.Empty | src/main/java/org/thingai/base/cache/LRUCache.java:18-27 | the new cache keeps the invariant if and only if maxCacheSize is at least 1, and holds nothing |
| LruSpec.GetSpec | src/main/java/org/thingai/base/cache/LRUCache.java:29-37 | get on an absent key returns null and leaves the cache unchanged; on a present key it returns the stored value, keeps every entry, puts the key first and leaves the other keys in their relative order |
| LruSpec.PutExisting | src/main/java/org/thingai/base/cache/LRUCache.java:40-44 | put on an existing key stores the new value, puts it first, keeps size and every other entry, and keeps the other keys' relative order |
| LruSpec.OverwriteThenGet | src/main/java/org/thingai/base/cache/LRUCache.java:41-44 | put on an existing key is a value overwrite followed by the reordering of get |
| LruSpec.PutEvicts | src/main/java/org/thingai/base/cache/LRUCache.java:46-56 | put of a new key into a full cache removes exactly the least recently used key, keeps every other entry and the size, and puts the new key in front |
| LruSpec.PutFresh | src/main/java/org/thingai/base/cache/LRUCache.java:52-56 | put of a new key into a cache with room evicts nothing, grows the size by one and puts the key in front |
| LruSpec.PutGet | src/main/java/org/thingai/base/cache/LRUCache.java:39-58 | after put(k, v), get(k) returns v |
| LruSpec.Run | src/main/java/org/thingai/base/cache/LRUCache.java:46-56 | after any sequence of get and put calls from a valid cache, the invariant holds and the size never exceeds maxCacheSize |
| LruSpec.Step | src/main/java/org/thingai/base/cache/LRUCache.java:29-58 | each get or put keeps the invariant and the bound |
| LruSpec.AfterGetInv | src/main/java/org/thingai/base/cache/LRUCache.java:33-36 | get keeps the invariant |
| LruSpec.AfterPutInv | src/main/java/org/thingai/base/cache/LRUCache.java:39-58 | put keeps the invariant in all three branches |
| LruSpec.EvictInv | src/main/java/org/thingai/base/cache/LRUCache.java:46-51 | eviction keeps the invariant and frees exactly one place |
| LruSpec.AdmitInv | src/main/java/org/thingai/base/cache/LRUCache.java:52-56 | admitting a new key while there is room keeps the invariant |
| LruSpec.FrontInv | src/main/java/org/thingai/base/cache/LRUCache.java:34-35 | moving a listed key to the front keeps the invariant |
| LruSpec.Without | src/main/java/org/thingai/base/cache/LRUCache.java:67-70 | removing a key from the key order keeps every other key and nothing else |
| LruSpec.WithoutAt | src/main/java/org/thingai/base/cache/LRUCache.java:67-70 | removing a key listed once at position i splices out exactly position i |
| LruSpec.WithoutTwice | src/main/java/org/thingai/base/cache/LRUCache.java:34-35 | moving a key to the front twice is moving it once: the order of the others is unchanged |
| LruSpec.WithoutLength | src/main/java/org/thingai/base/cache/LRUCache.java:34-35 | a key listed once takes exactly one place |
| LruSpec.WithoutDistinct | src/main/java/org/thingai/base/cache/LRUCache.java:67-70 | removing a key keeps the keys distinct |
| LruSpec.DistinctPairwise | src/main/java/org/thingai/base/cache/LRUCache.java:14 | each key appears once if and only if any two positions hold different keys |
| LruSpec.DropLast | src/main/java/org/thingai/base/cache/LRUCache.java:48-50 | dropping the last of distinct keys removes exactly that key |
| LruSpec.DistinctRemove | src/main/java/org/thingai/base/cache/LRUCache.java:67-70 | taking out the item at i leaves distinct items, without it, keeping all others |
| LruSpec.DistinctInsert | src/main/java/org/thingai/base/cache/LRUCache.java:60-65 | inserting a new node into the list keeps the nodes distinct |
| LruSpec.DistinctCons | src/main/java/org/thingai/base/cache/LRUCache.java:60-65 | a new key in front of distinct keys keeps them distinct |

## Left out

- JDBC and HikariCP: the pool configuration, connections, `executeUpdate` and `close()` are left out. Selects are answered by the backend parameter `db`. Write statements are returned as issued, because the source prints and swallows their failures.
- Logging and tracing (`ILog.d`, `System.out.println`, `printStackTrace`) are left out because they are diagnostics only.
- Reflection is replaced by the explicit `ClassDesc` descriptor. The declaration order that `getDeclaredFields` reports is taken as given.
- `field.set` coercion between JDBC and Java types is left out. A value is stored as the backend reports it, and a type mismatch is not modelled.
- `DaoMaterialize.MaterializeFields`: its "if and only if" covers only the failures the model has, a class without a usable constructor and a missing column. In the source, `field.set` also throws for a value of the wrong type and for null into a primitive field. Such a row makes read return null, readAll throw and the column query return an empty array; the model lets it through.
- `DaoSchema.InitDao`: a null `classes` array and a null element in it are not modelled. Either throws a NullPointerException from the loop, after the statements of the classes before it; the model takes every class as present.
- `getObject(label)` is case-sensitive in the model, and its label lookup takes the first matching column. SQLite's case-insensitive label matching is not modelled.
- Double values are kept as `real`, without floating-point rounding.
- What SQLite does with the text (parsing, constraints, `IF NOT EXISTS`, row storage) is left out. `DaoMaterialize.StoredRow` is the assumed stored row for the round trip.
- `DaoMaterialize.InsertRoundTrip`: the stored row holds the bound values unchanged. SQLite does not keep a Java boolean that way. `setObject` binds it into an INTEGER column (DaoSqlite.java:161-162, 74-84) and `getObject` then returns an Integer 0 or 1. `field.set` at DaoSqlite.java:233 rejects an Integer for a boolean field, so read returns null for every class with a boolean column, User among them. The model's round trip does not capture that conversion and holds only for classes without boolean columns.
- A null SQL string passed to `query(Class, String)` or `queryRaw` is not modelled: the SQL text is a plain string.
- `InitDao`: the statements are returned. Their execution and its swallowed failures are left out.
- `ReadAll`, `Query` and `QueryBySql`: a failure to instantiate the class and a missing column both count as a failing row. They are not told apart.
- `LruCache.LRUCache.constructor`: the map passed in is required to be empty and `maxCacheSize` at least 1. Callers sharing or later mutating that map (aliasing) are not modelled.
- `LruCache.LRUCache.Get`: Java's null result is modelled as `Option.None`. Null keys and null values are not modelled.
- `LruCache.LRUCache.Put`: it is split into the helpers `Update`, `RemoveLeastUsed` and `AddEntry`, with `MoveToHead` shared with get. These keep the source's statements in the source's order, but the source has no such separate methods.
- `LruCache.CacheNode.Entry` stands for `new CacheNode<>()` followed by the two field assignments of put.
- `LruCache.LRUCache.RemoveNode` does not clear the removed node's own `prev`/`next`, just as in the source.
- Thread safety: the cache is not synchronised in the source, and concurrent use is not modelled.
- The other files of the repository are not part of this model: `EventBus.java` (asynchronous dispatch), `Service.java` (files and threads), `ILog.java` (console), `DaoFile.java` (whole-file I/O), the `Dao` interface, and the build files.
