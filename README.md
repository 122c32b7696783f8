# Free.Database.Access in Dafny

This project models the core of `Access.cs`, the class through which the library reaches a Microsoft Access database file over ODBC. That core has five parts:

- **Drivers**:
  - which installed ODBC drivers can open an Access file;
  - the ordered list of connection strings built from them and from the per-user driver settings.
- **AccessDatabase.Access**: the connection state machine.
  - OpenDatabase tries the candidates in order, and the first one that opens is kept.
  - CloseDatabase drops the connection.
  - `Connected` is set exactly while the held connection is open.
- **TypeMapping**: the two fixed tables that map a CLR type name to an SQL column keyword and to a parameter DbType.
- **Statements**: the text and bound parameters that each command sends to the database:
  - CreateTable, RemoveTable, RemoveTables and RemoveEntry;
  - InsertData, which sends one INSERT per row;
  - UpdateData, which sends one UPDATE per row.
- **TableListing**: the names GetTables reports, taken from the driver's "Tables" schema collection, and ExistsTable's lookup among them.

The ODBC layer is abstract:

- Whether a connection string opens is a parameter: the set of strings that open.
- Running a command appends a `Plan` (text plus parameters) to the class's `log`.
- Running a command succeeds exactly when a connection is open.

The loops of the source are methods with loop invariants. Each is proved equal to a specification function. The properties the source promises are proved as lemmas about those functions.

Behaviour of the code worth noting, which the model keeps:

- **NOT NULL.** `CreateTable` appends ` NOT NULL` to every non-nullable column (Access.cs:251), after either branch of the keyword choice (Access.cs:248-249). An AUTOINCREMENT column that disallows nulls keeps it. For example, the People table built in `Scenarios.PeopleCreateTable` gives `CREATE TABLE "People" ( id AUTOINCREMENT NOT NULL, name TEXT);`.
- **CloseDatabase without a connection.** It dereferences the null connection (Access.cs:209). It is modelled as the error `NullConnection`.
- **A failed OpenDatabase.** Each attempt replaces the held connection object before opening it (Access.cs:189), so a call that fails leaves the last candidate's unopened object behind. "Connected" therefore means "a connection is held and is open".
- **Image rebinding.** Only `InsertData` rebinds byte-array parameters to `OdbcType.Image` (Access.cs:334-335). `UpdateData` binds them with `DbType.Binary` (`Statements.BinaryBindingDiffers`).
- **No columns.** An INSERT with no column left after the exclusion is built as `INSERT INTO "t" () VALUES ();` (Access.cs:298-313, 342-348). Nothing rejects it.

## Model

| member | source | states |
|---|---|---|
| Drivers.FilterDriversForAccess | Access.cs:597-609 | A null list gives the empty list; otherwise the result is the Access drivers of the input, in their order |
| Drivers.AccessDriversPicksOut | Access.cs:602-606 | The filter's result is picked out of the input at strictly increasing positions, each picked name being an Access driver |
| Drivers.AccessDriversSubsequence | Access.cs:602-606 | The filter's result is an order-preserving subsequence of its input |
| Drivers.AccessDriversKeeps | Access.cs:604-605 | A name is kept iff it is in the input and, lower-cased, contains "microsoft", "access" and "*.mdb"; it is kept as many times as it occurs |
| Drivers.ConnectionStringsForAt | Access.cs:86-103 | The k-th connection string is `Driver={d};DBQ=file` for the k-th driver d |
| Drivers.ConnectionStringsForAppend | Access.cs:90-103 | The strings of two driver lists in sequence are the strings of the first followed by those of the second |
| Drivers.AddConnectionStrings | Access.cs:102-103 | The last loop appends one connection string per driver, in driver order |
| Drivers.GetConnectionStrings | Access.cs:84-106 | The method's list equals the connection strings of the candidate drivers (configured driver, then the filtered catalog with the family drivers inserted) |
| Drivers.ForcedDriverOnly | Access.cs:90-92 | With the force flag equal to 1, the list is exactly the configured driver's string (none if no driver is named); the catalog is ignored |
| Drivers.CandidateOrder | Access.cs:90-103 | Without force, the order is: the configured driver; then the 2010 driver if it was requested and is missing from the catalog; then the 2000 driver on the same terms; then the filtered catalog in its order |
| Drivers.CandidateCount | Access.cs:88-105 | Without force, the length is (driver named ? 1 : 0) + the filtered count + one per family driver inserted |
| Drivers.FamilyDriverPresence | Access.cs:96-100 | A family driver is inserted once, only when requested and absent; its occurrence count is its catalog count plus the configured and inserted occurrences |
| Drivers.FrontCount | Access.cs:96-100 | Insert-at-front-if-absent adds one occurrence of the name, only when wanted and missing, and changes no other count or membership |
| Drivers.CandidateOrigins | Access.cs:86-103 | Every string names the file and a driver that is the configured one, an installed Access driver, or a requested family driver |
| Drivers.NoCandidates | Access.cs:90-103 | The list is empty iff no driver is named and either force is on or the catalog has no Access driver and no family driver is requested |
| TypeMapping.GetAccessDatatype | Access.cs:127-143 | Defined exactly on the ten schema type names, with a value among INTEGER, DOUBLE, TEXT and IMAGE; every other name (System.Boolean included) fails with TypeNotSupported |
| TypeMapping.GetDBType | Access.cs:150-167 | Defined exactly on the ten schema type names plus System.Boolean; every other name fails with TypeNotSupported |
| TypeMapping.DbTypeRoundTrip | Access.cs:150-167 | GetDBType is a bijection from its eleven names to DbType, and ClrTypeName is its inverse |
| TypeMapping.MappingsAgree | Access.cs:127-167 | The column keyword of a name is the keyword family of its DbType: the six integer types give INTEGER, Decimal and Double give DOUBLE, String gives TEXT and Binary gives IMAGE |
| TypeMapping.BooleanAsymmetry | Access.cs:131-154 | System.Boolean has a DbType but no column keyword, and it is the only name with that property |
| Statements.ColumnDefinition | Access.cs:245-252 | A column has a definition iff its type has a column keyword; otherwise TypeNotSupported |
| Statements.ColumnDefinitionShape | Access.cs:245-252 | A definition starts with the column name. The name is followed by " AUTOINCREMENT" iff the keyword is INTEGER and the column auto-increments, and otherwise by a space and the keyword. It ends in " NOT NULL" iff the column disallows nulls, in both branches |
| Statements.DefinitionTextShape | Access.cs:248-251 | The same shape for any keyword of the table |
| Statements.DefinitionTextAvoids | Access.cs:245-252 | A definition holds no character that is absent from the column name and is neither a capital letter nor a space |
| Statements.ColumnDefinitions | Access.cs:243-254 | All columns have definitions iff every type has a keyword; then there is one definition per column |
| Statements.ColumnDefinitionsAt | Access.cs:243-254 | The k-th definition is that of the k-th column |
| Statements.BuildColumnDefinitions | Access.cs:243-254 | The column loop computes exactly the definitions, failing at an unsupported type |
| Statements.BuildCreateTableText | Access.cs:257-264 | The text loop writes each definition after a space, with a comma after all but the last, between `CREATE TABLE "name" (` and `);` |
| Statements.CreateTableStatement | Access.cs:238-264 | An empty table name fails with EmptyTableName; the statement exists iff the name is non-empty and every column type has a keyword |
| Statements.BuildCreateTable | Access.cs:238-264 | The method's result equals CreateTableStatement |
| Statements.CreateTableTarget | Access.cs:257 | The statement's first quoted identifier is the table name |
| Statements.CreateTextTarget | Access.cs:257-264 | Any CREATE TABLE text names its table as its first quoted identifier |
| Statements.CreateTableCommas | Access.cs:257-264 | With no comma in the names, the statement holds exactly n-1 commas for n columns |
| Statements.DropTableTarget | Access.cs:275 | A DROP TABLE statement names its table as its first quoted identifier |
| Statements.DeleteTarget | Access.cs:289 | A DELETE statement names its table and ends with ` WHERE key=value;` with both inlined unquoted |
| Statements.KeptColumns | Access.cs:303-311 | The kept column indices are at most as many as the columns, and each is a column index |
| Statements.KeptColumnsKept | Access.cs:305 | No kept column is named like the excluded one |
| Statements.KeptColumnsIncreasing | Access.cs:303-311 | Kept columns stay in column order |
| Statements.KeptColumnsComplete | Access.cs:305-310 | Every column not named like the excluded one is kept |
| Statements.KeptColumnsCount | Access.cs:305 | The kept count plus the number of columns with the excluded name is the column count |
| Statements.KeptNamesAt | Access.cs:303-311 | The header lists the kept columns' names, in order |
| Statements.BuildInsertHeader | Access.cs:298-313 | The column loop with its `first` flag yields `INSERT INTO "t" (` + the kept names joined by ", " + `) VALUES` |
| Statements.InsertBinding | Access.cs:334-335 | A parameter is rebound to long binary iff its DbType is Binary; otherwise it keeps its DbType |
| Statements.InsertParameters | Access.cs:328-346 | An INSERT row binds one parameter per kept column |
| Statements.InsertParameterAt | Access.cs:330-339 | The k-th parameter carries the k-th kept column's name, its binding and that column's value in the row |
| Statements.InsertPlans | Access.cs:296-357 | No rows give no commands. An unsupported type in any column, the excluded one included, fails the call before anything runs. Otherwise there is one command per row |
| Statements.BuildInsertRow | Access.cs:321-349 | The row body fails iff some column has no DbType; otherwise it yields the row's plan |
| Statements.InsertExcludesOne | Access.cs:337 | Excluding a name that exactly one column has drops exactly one parameter |
| Statements.InsertLongBinary | Access.cs:334-335 | An INSERT parameter is long binary iff its column holds System.Byte[] |
| Statements.PlaceholderCount | Access.cs:342-343 | The placeholder group of n parameters has n question marks |
| Statements.InsertRowPlaceholders | Access.cs:323-348 | With no `?` in the names, each INSERT has exactly one placeholder per bound parameter |
| Statements.InsertRowsShareText | Access.cs:315-323 | All rows' INSERT commands share one text and one parameter count |
| Statements.InsertTarget | Access.cs:298 | Each INSERT names its table as its first quoted identifier |
| Statements.InsertTextTarget | Access.cs:298-348 | Any INSERT row text names its table as its first quoted identifier |
| Statements.ColumnIndex | Access.cs:390 | The key lookup finds the first column with the name, or -1 iff there is none |
| Statements.SetItems | Access.cs:385-387 | One `name=?` assignment per column |
| Statements.UpdateParameters | Access.cs:379-383 | An UPDATE binds one parameter per column |
| Statements.UpdateRow | Access.cs:372-390 | A row's UPDATE exists iff every type has a DbType and the key names a column; a type failure comes first |
| Statements.UpdatePlans | Access.cs:363-399 | No rows give no commands. Otherwise the call either fails with row 0's error, or yields one command per row, in row order, each the row's UPDATE |
| Statements.BuildUpdateRow | Access.cs:372-394 | The row body's result equals UpdateRow |
| Statements.BuildAssignments | Access.cs:377-387 | The column loop yields the assignments joined by "," and every column's parameter, or reports an unsupported type |
| Statements.UpdateRowPlaceholders | Access.cs:377-390 | With no `?` in the inputs, an UPDATE has one placeholder per column and as many parameters |
| Statements.UpdateRowShape | Access.cs:365-390 | An UPDATE names its target table first and ends with ` WHERE pk = '<key value>';` |
| Statements.UpdateBindsEveryColumn | Access.cs:379-390 | Every column, the key included, is bound in column order; the key's value is both bound as a parameter and inlined in the closing ` WHERE pk = '<value>';` |
| Statements.BinaryBindingDiffers | Access.cs:331-335 | A byte-array column is bound as long binary by INSERT and as DbType Binary by UPDATE |
| Scenarios.PeopleCreateTable | Access.cs:236-266 | People(id Int32 auto-increment non-null, name String nullable) gives `CREATE TABLE "People" ( id AUTOINCREMENT NOT NULL, name TEXT);` |
| Scenarios.PeopleUpdate | Access.cs:363-394 | The People row (7, Ann) keyed on id gives `UPDATE "People" SET id=?,name=? WHERE id = '7';` with both values bound |
| TableListing.TableNamesExact | Access.cs:465-468 | A name is listed iff some schema row has it with type "TABLE" |
| TableListing.TableNamesAppend | Access.cs:465-468 | Listing keeps schema order: the names of two runs of rows are those of the first run followed by those of the second |
| TableListing.ListTables | Access.cs:459-471 | The loop collects exactly the names of the "TABLE" rows, in order |
| AccessDatabase.FirstOpening | Access.cs:185-199 | The first candidate that opens, or -1 iff none does |
| AccessDatabase.ConfiguredDriverWins | Access.cs:90-91 | A configured driver that opens is the candidate kept, whatever is installed |
| AccessDatabase.Outcome | Access.cs:407-424 | A planning failure wins. An empty plan succeeds. Without an open connection the first command fails with ConnectionNotOpen. Otherwise every command runs |
| AccessDatabase.Access.constructor | Access.cs:170-171 | A new handle holds no connection and is not connected |
| AccessDatabase.Access.ExecuteNonQuery | Access.cs:420-424 | A command succeeds and is logged iff the connection is open; the connection state is unchanged |
| AccessDatabase.Access.OpenDatabase | Access.cs:178-201 | Closes first if connected. Returns true iff some candidate opens, and Connected equals the result. The first opening candidate is kept. After a failure the last candidate is held unopened; with no candidates nothing is held if it was connected. Nothing runs |
| AccessDatabase.Access.CloseDatabase | Access.cs:207-213 | Drops the connection and clears Connected; without a connection it fails with NullConnection |
| AccessDatabase.Access.CreateTable | Access.cs:236-267 | Runs the CREATE TABLE statement, failing first on a planning error, then on a closed connection |
| AccessDatabase.Access.RemoveTable | Access.cs:273-276 | Runs `DROP TABLE "name";` |
| AccessDatabase.Access.RemoveTables | Access.cs:282-285 | Runs one DROP per table in order; the first failure ends the call |
| AccessDatabase.Access.RemoveEntry | Access.cs:287-290 | Runs the DELETE statement |
| AccessDatabase.Access.InsertData | Access.cs:296-357 | Runs exactly InsertPlans, in row order, or fails as Outcome says |
| AccessDatabase.Access.UpdateData | Access.cs:363-399 | Runs exactly UpdatePlans, in row order, or fails as Outcome says |
| AccessDatabase.Access.GetTables | Access.cs:459-471 | No connection gives NullConnection and a closed one ConnectionNotOpen; otherwise the result is the "TABLE" rows' names |
| AccessDatabase.Access.ExistsTable | Access.cs:448-453 | True iff the name is among GetTables' names, with the same failures |

## Left out

- Statements.InsertPlans and Statements.UpdatePlans: **parameter binding** is assumed to accept every DbType that GetDBType returns. The .NET ODBC provider, which is not part of this model, rejects DbType UInt16, UInt32 and UInt64 when `parameter.DbType` is set (Access.cs:331, 380). So for a System.UInt16, UInt32 or UInt64 column the source throws on the first row before any command runs, even when InsertData excludes that column; the model builds and runs the commands instead.
- **Registry and bitness.** The registry reads (Access.cs:20-77) and the driver catalog read (Access.cs:583-595) are the parameters `DriverSettings` and `installed`. The caller chooses the 32-bit or 64-bit value names.
- **P/Invoke enumeration.** The `#if ODBC` code (Access.cs:501-581) is foreign code compiled out of the build.
- **CreateDatabase.** It copies an embedded resource to a file (Access.cs:109-120): file I/O.
- **The ODBC driver.** Opening a connection is the `accepts` set. Statement execution is the log.
  - The only executor fault modelled is a missing or closed connection.
  - SQL errors, the affected-row count and a throwing `OdbcConnection` constructor are not modelled.
- **ExecuteQuery, GetTableStructure and GetTable.** ExecuteQuery (Access.cs:431-441) and the two `SELECT *` wrappers over it (Access.cs:478-498) need a result-set model.
- **Transactions.** StartTransaction and CommitTransaction are empty in the source and carry no contract.
- **Column names.** A column has one name. The source's `ToString()`, `Caption` and `ColumnName` are not told apart.
- **Row values.** A row value is its text.
- **Key lookup case.** `DataRow`'s case-insensitive column lookup is modelled as an exact match.
- **Lower-casing.** The driver filter lower-cases by the ASCII rule, not culture rules.
- **Table shape.** A table whose rows have one value per column (`WellFormed`) is a precondition of InsertData and UpdateData, as a `DataTable` guarantees it.
- **SQL meaning.** The statements are reproduced as text. Their meaning is not modelled: quoting, injection at Access.cs:289 and 390, and validity.
