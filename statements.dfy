/** The statement builder (Access.cs, CreateTable, RemoveTable, RemoveEntry,
    InsertData, UpdateData): the SQL text and bound parameters each
    operation hands to the ODBC command, built from a table's metadata and
    rows. Executing them is the Access class's business. */
module Statements {
  import opened Failures
  import opened Text
  import opened TypeMapping

  /** A DataTable column: its name (the column name and caption are one
      here), the full name of its CLR data type, AllowDBNull and AutoIncrement. */
  datatype Column = Column(name: string, typeName: string, allowDBNull: bool, autoIncrement: bool)

  /** A DataTable: its name, its columns and its rows, each row the text of
      its values, one per column. */
  datatype Table = Table(name: string, columns: seq<Column>, rows: seq<seq<string>>)

  /** Every row has one value per column, as a DataTable guarantees. */
  predicate WellFormed(t: Table)
  {
    forall i :: 0 <= i < |t.rows| ==> |t.rows[i]| == |t.columns|
  }

  /** How a parameter travels to the driver: with the ODBC type its DbType
      implies, or forced to OdbcType.Image (long binary). */
  datatype Binding = Bound(dbType: DbType) | LongBinary

  datatype Parameter = Parameter(name: string, binding: Binding, value: string)

  /** A command as handed to ExecuteNonQuery: text with `?` placeholders and
      the parameters bound to them, in order. */
  datatype Plan = Plan(text: string, parameters: seq<Parameter>)

  /** The names of the columns, in order. */
  function ColumnNames(cols: seq<Column>): (r: seq<string>)
    ensures |r| == |cols|
  {
    seq(|cols|, k requires 0 <= k < |cols| => cols[k].name)
  }

  /** Every column's type has a DbType. */
  predicate Bindable(cols: seq<Column>)
  {
    forall k :: 0 <= k < |cols| ==> cols[k].typeName in ParameterTypeNames
  }

  // ---------------------------------------------------------------- CREATE TABLE

  /** The fixed text around the table name of a CREATE TABLE statement. */
  const CreateOpen := "CREATE TABLE \""
  const CreateClose := "\" ("

  /** Every column's type has a column keyword. */
  predicate Declarable(cols: seq<Column>)
  {
    forall k :: 0 <= k < |cols| ==> cols[k].typeName in SchemaTypeNames
  }

  /** One column of a CREATE TABLE statement. */
  function ColumnDefinition(c: Column): (r: Result<string>)
    ensures r.Ok? <==> c.typeName in SchemaTypeNames
    ensures r.Err? ==> r.error == TypeNotSupported
  {
    match GetAccessDatatype(c.typeName)
    case Err(e) => Err(e)
    case Ok(keyword) => Ok(DefinitionText(c, keyword))
  }

  /** The definition of a column whose type has the given keyword. */
  function DefinitionText(c: Column, keyword: string): string
  {
    var typed := if keyword == "INTEGER" && c.autoIncrement then c.name + " AUTOINCREMENT" else c.name + " " + keyword;
    if !c.allowDBNull then typed + " NOT NULL" else typed
  }

  /** A column definition starts with the column name; " NOT NULL" ends it
      exactly when the column disallows nulls, whichever keyword branch was
      taken; the name is followed by " AUTOINCREMENT" exactly for an
      auto-increment INTEGER column, and otherwise by a space and the type's
      keyword. */
  lemma ColumnDefinitionShape(c: Column)
    requires ColumnDefinition(c).Ok?
    ensures var def := ColumnDefinition(c).value;
      && c.name <= def
      && (EndsWith(def, " NOT NULL") <==> !c.allowDBNull)
      && (" AUTOINCREMENT" <= def[|c.name|..] <==>
            GetAccessDatatype(c.typeName) == Ok("INTEGER") && c.autoIncrement)
      && (!(GetAccessDatatype(c.typeName) == Ok("INTEGER") && c.autoIncrement) ==>
            " " + GetAccessDatatype(c.typeName).value <= def[|c.name|..])
  {
    var keyword := GetAccessDatatype(c.typeName).value;
    DefinitionTextShape(c, keyword);
  }

  /** The shape of a definition, for any keyword in the table. */
  lemma DefinitionTextShape(c: Column, keyword: string)
    requires keyword in SqlKeywords
    ensures var def := DefinitionText(c, keyword);
      && c.name <= def
      && (EndsWith(def, " NOT NULL") <==> !c.allowDBNull)
      && (" AUTOINCREMENT" <= def[|c.name|..] <==> keyword == "INTEGER" && c.autoIncrement)
      && (!(keyword == "INTEGER" && c.autoIncrement) ==> " " + keyword <= def[|c.name|..])
  {
    var auto := keyword == "INTEGER" && c.autoIncrement;
    var clause := if auto then " AUTOINCREMENT" else " " + keyword;
    KeywordEnds(keyword);
    AutoIncrementLetters();
    assert clause[1] == 'A' <==> auto;
    assert clause[|clause| - 1] != 'L';
    var def := DefinitionText(c, keyword);
    assert def == c.name + clause + (if !c.allowDBNull then " NOT NULL" else "");
    DefinitionPieces(c.name, clause, !c.allowDBNull);
    var tail := def[|c.name|..];
    if !auto {
      NotPrefixAt(" AUTOINCREMENT", tail, 1);
    }
  }

  /** A definition holds no character that is neither in the column name nor
      a capital letter or a space. */
  lemma DefinitionTextAvoids(c: Column, keyword: string, ch: char)
    requires keyword in SqlKeywords
    requires ch !in c.name && ch != ' ' && !('A' <= ch <= 'Z')
    ensures ch !in DefinitionText(c, keyword)
  {
    KeywordWords(keyword);
    FixedClausesWords();
    UpperWordsAvoid(keyword, ch);
    UpperWordsAvoid(" AUTOINCREMENT", ch);
    UpperWordsAvoid(" NOT NULL", ch);
    assert ch !in " ";
  }

  /** A definition made of a name, a type clause that does not end in 'L'
      and an optional " NOT NULL": the name and the clause lead it, and it
      ends in " NOT NULL" exactly when that was added. */
  lemma DefinitionPieces(name: string, clause: string, notNull: bool)
    requires 2 <= |clause| && clause[|clause| - 1] != 'L'
    ensures var def := name + clause + (if notNull then " NOT NULL" else "");
      && name <= def
      && clause <= def[|name|..]
      && def[|name|..][1] == clause[1]
      && (EndsWith(def, " NOT NULL") <==> notNull)
  {
    var def := name + clause + (if notNull then " NOT NULL" else "");
    assert def[|name|..] == clause + (if notNull then " NOT NULL" else "");
    if notNull {
      assert def[|def| - 9..] == " NOT NULL";
    } else {
      assert def[|def| - 1] == clause[|clause| - 1];
    }
  }

  /** The definitions of all columns, in order; the first unsupported type fails. */
  function ColumnDefinitions(cols: seq<Column>): (r: Result<seq<string>>)
    ensures r.Ok? <==> Declarable(cols)
    ensures r.Err? ==> r.error == TypeNotSupported
    ensures r.Ok? ==> |r.value| == |cols|
    decreases |cols|
  {
    if |cols| == 0 then Ok([])
    else
      var n := |cols| - 1;
      match ColumnDefinitions(cols[..n])
      case Err(e) => Err(e)
      case Ok(defs) =>
        match ColumnDefinition(cols[n])
        case Err(e) => Err(e)
        case Ok(def) => Ok(defs + [def])
  }

  /** The k-th definition is that of the k-th column. */
  lemma {:induction false} ColumnDefinitionsAt(cols: seq<Column>, k: nat)
    requires ColumnDefinitions(cols).Ok? && k < |cols|
    ensures ColumnDefinition(cols[k]) == Ok(ColumnDefinitions(cols).value[k])
    decreases |cols|
  {
    var n := |cols| - 1;
    if k < n {
      assert cols[..n][k] == cols[k];
      ColumnDefinitionsAt(cols[..n], k);
    }
  }

  /** The column definitions each preceded by a space, as the statement lists them. */
  function Spaced(defs: seq<string>): (r: seq<string>)
    ensures |r| == |defs|
  {
    seq(|defs|, k requires 0 <= k < |defs| => " " + defs[k])
  }

  function CreateTableText(tableName: string, defs: seq<string>): string
  {
    CreateOpen + tableName + CreateClose + Join(Spaced(defs), ",") + ");"
  }

  function CreateTableStatement(t: Table): (r: Result<string>)
    ensures t.name == "" ==> r == Err(EmptyTableName)
    ensures r.Ok? <==> t.name != "" && Declarable(t.columns)
  {
    if t.name == "" then Err(EmptyTableName)
    else
      match ColumnDefinitions(t.columns)
      case Err(e) => Err(e)
      case Ok(defs) => Ok(CreateTableText(t.name, defs))
  }

  /** What CreateTable's text loop has written after the j-th of n
      definitions, beyond the definitions themselves: a comma unless it was
      the last one. */
  function Glue(j: nat, n: nat): string
  {
    if 0 < j < n then "," else ""
  }

  /** The step a loop takes that ends every part but the last with `sep`. */
  lemma JoinStep(parts: seq<string>, sep: string, j: nat)
    requires j < |parts|
    ensures Join(parts[..j], sep) + (if 0 < j then sep else "") + parts[j]
         == Join(parts[..j + 1], sep)
    ensures sep == "," ==> Join(parts[..j], sep) + (Glue(j, |parts|) + parts[j]) == Join(parts[..j + 1], sep)
  {
    assert parts[..j + 1][..j] == parts[..j];
  }

  /** The first loop of CreateTable: one definition per column, in order. */
  method BuildColumnDefinitions(cols: seq<Column>) returns (r: Result<seq<string>>)
    ensures r == ColumnDefinitions(cols)
  {
    var columns: seq<string> := [];
    var i := 0;
    while i < |cols|
      invariant 0 <= i <= |cols|
      invariant ColumnDefinitions(cols[..i]) == Ok(columns)
    {
      var c := cols[i];
      var keyword := GetAccessDatatype(c.typeName);
      if keyword.Err? {
        return Err(keyword.error);
      }
      var column := c.name;
      if keyword.value == "INTEGER" && c.autoIncrement {
        column := column + " AUTOINCREMENT";
      } else {
        column := column + " " + keyword.value;
      }
      if !c.allowDBNull {
        column := column + " NOT NULL";
      }
      assert DefinitionText(c, keyword.value) == column;
      assert cols[..i + 1][..i] == cols[..i];
      columns := columns + [column];
      i := i + 1;
    }
    assert cols[..i] == cols;
    r := Ok(columns);
  }

  /** The second loop of CreateTable: the definitions, each after a space,
      separated by commas, between the statement's head and its closing. */
  method BuildCreateTableText(tableName: string, columns: seq<string>) returns (sqlCommand: string)
    ensures sqlCommand == CreateTableText(tableName, columns)
  {
    ghost var parts := Spaced(columns);
    var head := CreateOpen + tableName + CreateClose;
    sqlCommand := head;
    var j := 0;
    while j < |columns|
      invariant 0 <= j <= |columns|
      invariant sqlCommand == head + Join(parts[..j], ",") + Glue(j, |columns|)
    {
      ghost var before := sqlCommand;
      JoinStep(parts, ",", j);
      AppendRegroups(head, Join(parts[..j], ","), Glue(j, |columns|), parts[j]);
      assert before + parts[j] == head + Join(parts[..j + 1], ",");
      if j == |columns| - 1 {
        sqlCommand := sqlCommand + " " + columns[j];
        assert sqlCommand == before + parts[j];
      } else {
        sqlCommand := sqlCommand + " " + columns[j] + ",";
        assert sqlCommand == before + parts[j] + ",";
      }
      j := j + 1;
    }
    assert parts[..j] == parts;
    sqlCommand := sqlCommand + ");";
  }

  method BuildCreateTable(t: Table) returns (r: Result<string>)
    ensures r == CreateTableStatement(t)
  {
    var tableName := t.name;
    if tableName == "" {
      return Err(EmptyTableName);
    }
    var definitions := BuildColumnDefinitions(t.columns);
    if definitions.Err? {
      return Err(definitions.error);
    }
    var sqlCommand := BuildCreateTableText(tableName, definitions.value);
    r := Ok(sqlCommand);
  }

  /** A CREATE TABLE statement names its table as its first quoted identifier. */
  lemma CreateTableTarget(t: Table)
    requires CreateTableStatement(t).Ok? && '"' !in t.name
    ensures FirstQuoted(CreateTableStatement(t).value) == t.name
  {
    CreateTextTarget(t.name, ColumnDefinitions(t.columns).value);
  }

  lemma CreateTextTarget(tableName: string, defs: seq<string>)
    requires '"' !in tableName
    ensures FirstQuoted(CreateTableText(tableName, defs)) == tableName
  {
    CreateFixedText();
    var rest := Join(Spaced(defs), ",") + ");";
    assert CreateTableText(tableName, defs) == CreateOpen + tableName + CreateClose + rest;
    FirstQuotedBetween("CREATE TABLE ", tableName, " (", rest);
  }

  /** With no comma in the table or column names, the statement holds exactly
      one comma between each pair of neighbouring columns. */
  lemma CreateTableCommas(t: Table)
    requires CreateTableStatement(t).Ok?
    requires ',' !in t.name
    requires forall k :: 0 <= k < |t.columns| ==> ',' !in t.columns[k].name
    ensures Count(CreateTableStatement(t).value, ',') ==
            if |t.columns| == 0 then 0 else |t.columns| - 1
  {
    var defs := ColumnDefinitions(t.columns).value;
    var parts := Spaced(defs);
    forall k | 0 <= k < |parts|
      ensures ',' !in parts[k]
    {
      var c := t.columns[k];
      ColumnDefinitionsAt(t.columns, k);
      DefinitionTextAvoids(c, GetAccessDatatype(c.typeName).value, ',');
      assert parts[k] == " " + defs[k];
    }
    CountJoinSeparators(parts, ',');
    CreateFixedTextNoComma();
    var head := CreateOpen + t.name + CreateClose;
    CountAbsent(head, ',');
    CountAbsent(");", ',');
    CountAppend(head, Join(parts, ","), ',');
    CountAppend(head + Join(parts, ","), ");", ',');
  }

  // ---------------------------------------------------------------- DROP TABLE, DELETE

  function DropTableStatement(tableName: string): string
  {
    "DROP TABLE \"" + tableName + "\";"
  }

  /** A DROP TABLE statement names its table as its first quoted identifier. */
  lemma DropTableTarget(tableName: string)
    requires '"' !in tableName
    ensures FirstQuoted(DropTableStatement(tableName)) == tableName
  {
    assert DropTableStatement(tableName) == "DROP TABLE " + "\"" + tableName + "\"" + ";";
    FirstQuotedOf("DROP TABLE ", tableName, ";");
  }

  function DeleteStatement(table: string, key: string, value: string): string
  {
    "DELETE FROM \"" + table + "\" WHERE " + key + "=" + value + ";"
  }

  /** A DELETE statement names its table as its first quoted identifier and
      carries the key and the value as raw text at its end, not as a parameter. */
  lemma DeleteTarget(table: string, key: string, value: string)
    requires '"' !in table
    ensures FirstQuoted(DeleteStatement(table, key, value)) == table
    ensures EndsWith(DeleteStatement(table, key, value), " WHERE " + key + "=" + value + ";")
  {
    var s := DeleteStatement(table, key, value);
    var tail := " WHERE " + key + "=" + value + ";";
    assert s == "DELETE FROM " + "\"" + table + "\"" + tail;
    FirstQuotedOf("DELETE FROM ", table, tail);
    assert s[|s| - |tail|..] == tail;
  }

  // ---------------------------------------------------------------- INSERT

  /** The fixed text of an INSERT statement's head. */
  const InsertOpen := "INSERT INTO \""
  const InsertClose := "\" ("
  const InsertValues := ") VALUES"

  /** The indices of the columns an INSERT lists: those not named `exclude`. */
  function KeptColumns(cols: seq<Column>, exclude: string): (r: seq<nat>)
    ensures |r| <= |cols|
    ensures forall k :: 0 <= k < |r| ==> r[k] < |cols|
    decreases |cols|
  {
    if |cols| == 0 then []
    else
      var n := |cols| - 1;
      KeptColumns(cols[..n], exclude) + (if cols[n].name == exclude then [] else [n])
  }

  /** Every column KeptColumns lists is one not named `exclude`. */
  lemma {:induction false} KeptColumnsKept(cols: seq<Column>, exclude: string)
    ensures forall k :: 0 <= k < |KeptColumns(cols, exclude)| ==>
              cols[KeptColumns(cols, exclude)[k]].name != exclude
    decreases |cols|
  {
    if |cols| > 0 {
      var n := |cols| - 1;
      KeptColumnsKept(cols[..n], exclude);
      var init := KeptColumns(cols[..n], exclude);
      assert forall k :: 0 <= k < |init| ==> cols[..n][init[k]] == cols[init[k]];
    }
  }

  /** KeptColumns lists the columns in increasing order. */
  lemma {:induction false} KeptColumnsIncreasing(cols: seq<Column>, exclude: string)
    ensures forall k, l :: 0 <= k < l < |KeptColumns(cols, exclude)| ==>
              KeptColumns(cols, exclude)[k] < KeptColumns(cols, exclude)[l]
    decreases |cols|
  {
    if |cols| > 0 {
      KeptColumnsIncreasing(cols[..|cols| - 1], exclude);
    }
  }

  /** Every column not named `exclude` is listed. */
  lemma {:induction false} KeptColumnsComplete(cols: seq<Column>, exclude: string, i: nat)
    requires i < |cols| && cols[i].name != exclude
    ensures i in KeptColumns(cols, exclude)
    decreases |cols|
  {
    var n := |cols| - 1;
    if i < n {
      assert cols[..n][i] == cols[i];
      KeptColumnsComplete(cols[..n], exclude, i);
    }
  }

  /** The names of the columns an INSERT lists, in order. */
  function KeptNames(cols: seq<Column>, exclude: string): seq<string>
    decreases |cols|
  {
    if |cols| == 0 then []
    else
      var n := |cols| - 1;
      KeptNames(cols[..n], exclude) + (if cols[n].name == exclude then [] else [cols[n].name])
  }

  /** KeptNames are the names of the KeptColumns. */
  lemma {:induction false} KeptNamesAt(cols: seq<Column>, exclude: string)
    ensures |KeptNames(cols, exclude)| == |KeptColumns(cols, exclude)|
    ensures forall k :: 0 <= k < |KeptColumns(cols, exclude)| ==>
              KeptNames(cols, exclude)[k] == cols[KeptColumns(cols, exclude)[k]].name
    decreases |cols|
  {
    if |cols| > 0 {
      var n := |cols| - 1;
      KeptNamesAt(cols[..n], exclude);
      var init := KeptColumns(cols[..n], exclude);
      assert forall k :: 0 <= k < |init| ==> cols[..n][init[k]] == cols[init[k]];
    }
  }

  function InsertHeader(tableName: string, cols: seq<Column>, exclude: string): string
  {
    InsertOpen + tableName + InsertClose + Join(KeptNames(cols, exclude), ", ") + InsertValues
  }

  /** Binary parameters travel as long binary (OdbcType.Image); every other
      one with the ODBC type of its DbType. */
  function InsertBinding(d: DbType): (b: Binding)
    ensures b == LongBinary <==> d == Binary
    ensures b.Bound? ==> b.dbType == d
  {
    if d == Binary then LongBinary else Bound(d)
  }

  /** The parameters of one INSERT row: one per kept column, in column order. */
  function InsertParameters(cols: seq<Column>, row: seq<string>, exclude: string): (r: seq<Parameter>)
    requires |row| == |cols| && Bindable(cols)
    ensures |r| == |KeptColumns(cols, exclude)|
    decreases |cols|
  {
    if |cols| == 0 then []
    else
      var n := |cols| - 1;
      var c := cols[n];
      InsertParameters(cols[..n], row[..n], exclude)
      + (if c.name == exclude then []
         else [Parameter(c.name, InsertBinding(GetDBType(c.typeName).value), row[n])])
  }

  /** The k-th parameter belongs to the k-th kept column: its name, its
      binding and that column's value in the row. */
  lemma {:induction false} InsertParameterAt(cols: seq<Column>, row: seq<string>, exclude: string, k: nat)
    requires |row| == |cols| && Bindable(cols)
    requires k < |KeptColumns(cols, exclude)|
    ensures var i := KeptColumns(cols, exclude)[k];
      InsertParameters(cols, row, exclude)[k] ==
        Parameter(cols[i].name, InsertBinding(GetDBType(cols[i].typeName).value), row[i])
    decreases |cols|
  {
    var n := |cols| - 1;
    var init := KeptColumns(cols[..n], exclude);
    InsertParametersStep(cols, row, exclude, n);
    if k < |init| {
      InsertParameterAt(cols[..n], row[..n], exclude, k);
      assert cols[..n][init[k]] == cols[init[k]] && row[..n][init[k]] == row[init[k]];
    } else {
      assert cols[..n + 1] == cols && row[..n + 1] == row;
    }
  }

  /** `n` question marks separated by commas. */
  function Placeholders(n: nat): string
  {
    Join(seq(n, _ => "?"), ",")
  }

  function InsertRowText(header: string, n: nat): string
  {
    header + " (" + Placeholders(n) + ");"
  }

  function InsertRowPlan(header: string, cols: seq<Column>, row: seq<string>, exclude: string): Plan
    requires |row| == |cols| && Bindable(cols)
  {
    var ps := InsertParameters(cols, row, exclude);
    Plan(InsertRowText(header, |ps|), ps)
  }

  /** The commands InsertData runs: none for a table without rows; otherwise
      the first column type without a DbType fails the whole call before
      anything runs, and else one command per row. */
  function InsertPlans(t: Table, exclude: string): (r: Result<seq<Plan>>)
    requires WellFormed(t)
    ensures r.Err? <==> |t.rows| > 0 && !Bindable(t.columns)
    ensures r.Err? ==> r.error == TypeNotSupported
    ensures r.Ok? ==> |r.value| == |t.rows|
  {
    if |t.rows| == 0 then Ok([])
    else if !Bindable(t.columns) then Err(TypeNotSupported)
    else
      var header := InsertHeader(t.name, t.columns, exclude);
      Ok(seq(|t.rows|, i requires 0 <= i < |t.rows| => InsertRowPlan(header, t.columns, t.rows[i], exclude)))
  }

  /** The column loop of InsertData: the statement's head with the kept
      column names separated by ", ". */
  method BuildInsertHeader(tableName: string, cols: seq<Column>, exclude: string) returns (sqlCommand: string)
    ensures sqlCommand == InsertHeader(tableName, cols, exclude)
  {
    var head := InsertOpen + tableName + InsertClose;
    sqlCommand := head;
    var first := true;
    var i := 0;
    while i < |cols|
      invariant 0 <= i <= |cols|
      invariant sqlCommand == head + Join(KeptNames(cols[..i], exclude), ", ")
      invariant first <==> |KeptNames(cols[..i], exclude)| == 0
    {
      KeptNamesStep(cols, exclude, i);
      if cols[i].name != exclude {
        HeaderStep(head, KeptNames(cols[..i], exclude), cols[i].name);
        if first {
          sqlCommand := sqlCommand + cols[i].name;
        } else {
          sqlCommand := sqlCommand + ", " + cols[i].name;
        }
        first := false;
      } else {
        assert KeptNames(cols[..i + 1], exclude) == KeptNames(cols[..i], exclude);
      }
      i := i + 1;
    }
    assert cols[..i] == cols;
    sqlCommand := sqlCommand + InsertValues;
  }

  lemma KeptNamesStep(cols: seq<Column>, exclude: string, i: nat)
    requires i < |cols|
    ensures KeptNames(cols[..i + 1], exclude) ==
            KeptNames(cols[..i], exclude) + (if cols[i].name == exclude then [] else [cols[i].name])
  {
    assert cols[..i + 1][..i] == cols[..i];
  }

  /** The text after one more listed name. */
  lemma HeaderStep(head: string, names: seq<string>, name: string)
    ensures |names| == 0 ==> (head + Join(names, ", ")) + name == head + Join(names + [name], ", ")
    ensures |names| > 0 ==> (head + Join(names, ", ")) + ", " + name == head + Join(names + [name], ", ")
  {
    JoinAppend(names, ", ", name);
    if |names| == 0 {
      assert head + Join(names, ", ") == head;
    } else {
      AppendRegroups(head, Join(names, ", "), ", ", name);
    }
  }

  /** The row loop's body of InsertData: one parameter per kept column, and
      one placeholder per parameter; a column type without a DbType fails
      the row. */
  method BuildInsertRow(header: string, cols: seq<Column>, row: seq<string>, exclude: string)
    returns (r: Result<Plan>)
    requires |row| == |cols|
    ensures r.Err? <==> !Bindable(cols)
    ensures r.Err? ==> r.error == TypeNotSupported
    ensures r.Ok? ==> r.value == InsertRowPlan(header, cols, row, exclude)
  {
    var head := header + " (";
    var sqlCommand := head;
    var parameters: seq<Parameter> := [];
    var first := true;
    var j := 0;
    while j < |cols|
      invariant 0 <= j <= |cols|
      invariant Bindable(cols[..j])
      invariant parameters == InsertParameters(cols[..j], row[..j], exclude)
      invariant sqlCommand == head + Placeholders(|parameters|)
      invariant first <==> |parameters| == 0
    {
      var dbType := GetDBType(cols[j].typeName);
      if dbType.Err? {
        assert cols[j] == cols[..j + 1][j];
        return Err(dbType.error);
      }
      BindableStep(cols, j);
      InsertParametersStep(cols, row, exclude, j);
      var binding := InsertBinding(dbType.value);
      if cols[j].name != exclude {
        PlaceholdersStep(head, |parameters|);
        parameters := parameters + [Parameter(cols[j].name, binding, row[j])];
        if first {
          sqlCommand := sqlCommand + "?";
        } else {
          sqlCommand := sqlCommand + ",?";
        }
        first := false;
      }
      j := j + 1;
    }
    assert cols[..j] == cols && row[..j] == row;
    sqlCommand := sqlCommand + ");";
    r := Ok(Plan(sqlCommand, parameters));
  }

  lemma BindableStep(cols: seq<Column>, j: nat)
    requires j < |cols| && Bindable(cols[..j]) && cols[j].typeName in ParameterTypeNames
    ensures Bindable(cols[..j + 1])
  {
    assert forall k :: 0 <= k < j + 1 ==> cols[..j + 1][k] == cols[k];
  }

  lemma InsertParametersStep(cols: seq<Column>, row: seq<string>, exclude: string, j: nat)
    requires j < |cols| == |row| && Bindable(cols[..j + 1])
    ensures Bindable(cols[..j])
    ensures InsertParameters(cols[..j + 1], row[..j + 1], exclude) ==
            InsertParameters(cols[..j], row[..j], exclude)
            + (if cols[j].name == exclude then []
               else [Parameter(cols[j].name, InsertBinding(GetDBType(cols[j].typeName).value), row[j])])
  {
    assert cols[..j + 1][..j] == cols[..j] && row[..j + 1][..j] == row[..j];
  }

  /** The text after one more placeholder. */
  lemma PlaceholdersStep(head: string, n: nat)
    ensures n == 0 ==> (head + Placeholders(n)) + "?" == head + Placeholders(n + 1)
    ensures n > 0 ==> (head + Placeholders(n)) + ",?" == head + Placeholders(n + 1)
  {
    assert seq(n + 1, _ => "?") == seq(n, _ => "?") + ["?"];
    JoinAppend(seq(n, _ => "?"), ",", "?");
    if n == 0 {
      assert head + Placeholders(n) == head;
    } else {
      AppendRegroups(head, Placeholders(n), ",", "?");
    }
  }

  /** An INSERT lists every column but those named `exclude`: as many fewer
      as there are columns of that name. */
  lemma {:induction false} KeptColumnsCount(cols: seq<Column>, exclude: string)
    ensures |KeptColumns(cols, exclude)| + multiset(ColumnNames(cols))[exclude] == |cols|
    decreases |cols|
  {
    if |cols| > 0 {
      var n := |cols| - 1;
      KeptColumnsCount(cols[..n], exclude);
      assert ColumnNames(cols) == ColumnNames(cols[..n]) + [cols[n].name];
    }
  }

  /** Excluding the name of exactly one column drops that column and no other. */
  lemma InsertExcludesOne(cols: seq<Column>, row: seq<string>, exclude: string)
    requires |row| == |cols| && Bindable(cols)
    requires multiset(ColumnNames(cols))[exclude] == 1
    ensures |InsertParameters(cols, row, exclude)| == |cols| - 1
  {
    KeptColumnsCount(cols, exclude);
  }

  /** A parameter of an INSERT travels as long binary exactly when its
      column holds byte arrays. */
  lemma InsertLongBinary(cols: seq<Column>, row: seq<string>, exclude: string, k: nat)
    requires |row| == |cols| && Bindable(cols)
    requires k < |InsertParameters(cols, row, exclude)|
    ensures var c := cols[KeptColumns(cols, exclude)[k]];
      InsertParameters(cols, row, exclude)[k].binding == LongBinary <==> c.typeName == "System.Byte[]"
  {
    InsertParameterAt(cols, row, exclude, k);
    var c := cols[KeptColumns(cols, exclude)[k]];
    DbTypeRoundTrip(Binary, c.typeName);
  }

  /** Each placeholder is one question mark. */
  lemma PlaceholderCount(n: nat)
    ensures Count(Placeholders(n), '?') == n
  {
    InsertFixedText();
    CountJoinParts(seq(n, _ => "?"), ",", '?');
  }

  /** With no question mark in the table and column names, an INSERT row
      command has exactly one placeholder per bound parameter. */
  lemma InsertRowPlaceholders(t: Table, exclude: string, i: nat)
    requires WellFormed(t) && InsertPlans(t, exclude).Ok? && i < |t.rows|
    requires '?' !in t.name
    requires forall k :: 0 <= k < |t.columns| ==> '?' !in t.columns[k].name
    ensures var plan := InsertPlans(t, exclude).value[i];
      Count(plan.text, '?') == |plan.parameters|
  {
    var names := KeptNames(t.columns, exclude);
    KeptNamesAt(t.columns, exclude);
    InsertFixedText();
    JoinAbsent(names, ", ", '?');
    var header := InsertHeader(t.name, t.columns, exclude);
    var n := |InsertParameters(t.columns, t.rows[i], exclude)|;
    CountAbsent(header, '?');
    CountAbsent(" (", '?');
    CountAbsent(");", '?');
    PlaceholderCount(n);
    CountAppend(header, " (", '?');
    CountAppend(header + " (", Placeholders(n), '?');
    CountAppend(header + " (" + Placeholders(n), ");", '?');
  }

  /** All rows share one statement text; only the bound values differ. */
  lemma InsertRowsShareText(t: Table, exclude: string, i: nat, j: nat)
    requires WellFormed(t) && InsertPlans(t, exclude).Ok? && i < |t.rows| && j < |t.rows|
    ensures InsertPlans(t, exclude).value[i].text == InsertPlans(t, exclude).value[j].text
    ensures |InsertPlans(t, exclude).value[i].parameters| == |InsertPlans(t, exclude).value[j].parameters|
  {
    var header := InsertHeader(t.name, t.columns, exclude);
    assert InsertPlans(t, exclude).value[i] == InsertRowPlan(header, t.columns, t.rows[i], exclude);
    assert InsertPlans(t, exclude).value[j] == InsertRowPlan(header, t.columns, t.rows[j], exclude);
  }

  /** An INSERT command names its table as its first quoted identifier. */
  lemma InsertTarget(t: Table, exclude: string, i: nat)
    requires WellFormed(t) && InsertPlans(t, exclude).Ok? && i < |t.rows|
    requires '"' !in t.name
    ensures FirstQuoted(InsertPlans(t, exclude).value[i].text) == t.name
  {
    var header := InsertHeader(t.name, t.columns, exclude);
    assert InsertPlans(t, exclude).value[i] == InsertRowPlan(header, t.columns, t.rows[i], exclude);
    InsertTextTarget(t.name, t.columns, exclude, |InsertParameters(t.columns, t.rows[i], exclude)|);
  }

  lemma InsertTextTarget(tableName: string, cols: seq<Column>, exclude: string, n: nat)
    requires '"' !in tableName
    ensures FirstQuoted(InsertRowText(InsertHeader(tableName, cols, exclude), n)) == tableName
  {
    InsertFixedText();
    var rest := Join(KeptNames(cols, exclude), ", ") + InsertValues + " (" + Placeholders(n) + ");";
    assert InsertRowText(InsertHeader(tableName, cols, exclude), n) == InsertOpen + tableName + InsertClose + rest;
    FirstQuotedBetween("INSERT INTO ", tableName, " (", rest);
  }

  // ---------------------------------------------------------------- UPDATE

  /** The fixed text of an UPDATE statement. */
  const UpdateOpen := "UPDATE \""
  const UpdateSet := "\" SET "

  /** Index of the first column named `name`, -1 if there is none: the
      lookup a DataRow does when indexed by a column name. */
  function ColumnIndex(cols: seq<Column>, name: string): (r: int)
    ensures -1 <= r < |cols|
    ensures r == -1 <==> forall k :: 0 <= k < |cols| ==> cols[k].name != name
    ensures r >= 0 ==> cols[r].name == name && forall k :: 0 <= k < r ==> cols[k].name != name
  {
    var names := ColumnNames(cols);
    var r := IndexOf(names, name);
    assert forall k :: 0 <= k < |cols| ==> names[k] == cols[k].name;
    assert r == -1 ==> forall k :: 0 <= k < |cols| ==> names[k] != name;
    assert r >= 0 ==> forall k :: 0 <= k < r ==> names[..r][k] == cols[k].name;
    r
  }

  /** One `name=?` assignment per column. */
  function SetItems(cols: seq<Column>): (r: seq<string>)
    ensures |r| == |cols|
  {
    seq(|cols|, k requires 0 <= k < |cols| => cols[k].name + "=?")
  }

  function WhereClause(primaryKey: string, keyValue: string): string
  {
    " WHERE " + primaryKey + " = '" + keyValue + "';"
  }

  function UpdateText(target: string, cols: seq<Column>, primaryKey: string, keyValue: string): string
  {
    UpdateOpen + target + UpdateSet + Join(SetItems(cols), ",") + WhereClause(primaryKey, keyValue)
  }

  /** The parameters of one UPDATE row: every column, bound with its DbType. */
  function UpdateParameters(cols: seq<Column>, row: seq<string>): (r: seq<Parameter>)
    requires |row| == |cols| && Bindable(cols)
    ensures |r| == |cols|
  {
    seq(|cols|, k requires 0 <= k < |cols| =>
      Parameter(cols[k].name, Bound(GetDBType(cols[k].typeName).value), row[k]))
  }

  /** The command UpdateData builds for one row, or why it fails: a column
      type without a DbType, then a key that names no column. */
  function UpdateRow(target: string, cols: seq<Column>, row: seq<string>, primaryKey: string): (r: Result<Plan>)
    requires |row| == |cols|
    ensures r.Ok? <==> Bindable(cols) && ColumnIndex(cols, primaryKey) >= 0
    ensures !Bindable(cols) ==> r == Err(TypeNotSupported)
  {
    if !Bindable(cols) then Err(TypeNotSupported)
    else
      var key := ColumnIndex(cols, primaryKey);
      if key < 0 then Err(ColumnNotFound)
      else Ok(Plan(UpdateText(target, cols, primaryKey, row[key]), UpdateParameters(cols, row)))
  }

  /** The commands UpdateData runs: none for a table without rows; otherwise
      the failure every row shares, or one command per row. */
  function UpdatePlans(t: Table, primaryKey: string, target: string): (r: Result<seq<Plan>>)
    requires WellFormed(t)
    ensures |t.rows| == 0 ==> r == Ok([])
    ensures |t.rows| > 0 ==> (r.Ok? <==> UpdateRow(target, t.columns, t.rows[0], primaryKey).Ok?)
    ensures r.Ok? ==> |r.value| == |t.rows|
    ensures r.Ok? ==> forall i :: 0 <= i < |t.rows| ==>
              Ok(r.value[i]) == UpdateRow(target, t.columns, t.rows[i], primaryKey)
    ensures r.Err? ==> r == Err(UpdateRow(target, t.columns, t.rows[0], primaryKey).error)
  {
    if |t.rows| == 0 then Ok([])
    else if !Bindable(t.columns) then Err(TypeNotSupported)
    else if ColumnIndex(t.columns, primaryKey) < 0 then Err(ColumnNotFound)
    else
      Ok(seq(|t.rows|, i requires 0 <= i < |t.rows| =>
        UpdateRow(target, t.columns, t.rows[i], primaryKey).value))
  }

  /** The row loop's body of UpdateData: every column is assigned a
      placeholder and bound as a parameter, then the key column's value of
      the row is looked up and inlined into the WHERE clause. */
  method BuildUpdateRow(target: string, cols: seq<Column>, row: seq<string>, primaryKey: string)
    returns (r: Result<Plan>)
    requires |row| == |cols|
    ensures r == UpdateRow(target, cols, row, primaryKey)
  {
    var head := UpdateOpen + target + UpdateSet;
    var bindable, sqlCommand, parameters := BuildAssignments(head, cols, row);
    if !bindable {
      return Err(TypeNotSupported);
    }
    var key := ColumnIndex(cols, primaryKey);
    if key < 0 {
      return Err(ColumnNotFound);
    }
    ghost var assignments := sqlCommand;
    sqlCommand := sqlCommand + " WHERE " + primaryKey + " = '" + row[key] + "';";
    WhereAppends(assignments, primaryKey, row[key]);
    r := Ok(Plan(sqlCommand, parameters));
  }

  /** The column loop of UpdateData: `name=?` per column, separated by
      commas, and one parameter per column; false at the first column type
      without a DbType. */
  method BuildAssignments(head: string, cols: seq<Column>, row: seq<string>)
    returns (bindable: bool, sqlCommand: string, parameters: seq<Parameter>)
    requires |row| == |cols|
    ensures bindable <==> Bindable(cols)
    ensures bindable ==> sqlCommand == head + Join(SetItems(cols), ",")
    ensures bindable ==> parameters == UpdateParameters(cols, row)
  {
    sqlCommand := head;
    parameters := [];
    ghost var items := SetItems(cols);
    var j := 0;
    while j < |cols|
      invariant 0 <= j <= |cols|
      invariant Bindable(cols[..j])
      invariant parameters == UpdateParameters(cols[..j], row[..j])
      invariant sqlCommand == head + Join(items[..j], ",") + Glue(j, |cols|)
    {
      var dbType := GetDBType(cols[j].typeName);
      if dbType.Err? {
        assert cols[j] == cols[..j + 1][j];
        return false, sqlCommand, parameters;
      }
      BindableStep(cols, j);
      UpdateParametersStep(cols, row, j);
      parameters := parameters + [Parameter(cols[j].name, Bound(dbType.value), row[j])];
      ghost var before := sqlCommand;
      JoinStep(items, ",", j);
      AppendRegroups(head, Join(items[..j], ","), Glue(j, |cols|), items[j]);
      if j == |cols| - 1 {
        sqlCommand := sqlCommand + (cols[j].name + "=?");
        assert sqlCommand == before + items[j];
      } else {
        sqlCommand := sqlCommand + (cols[j].name + "=?,");
        assert sqlCommand == before + items[j] + ",";
      }
      j := j + 1;
    }
    assert items[..j] == items && cols[..j] == cols && row[..j] == row;
    bindable := true;
  }

  lemma UpdateParametersStep(cols: seq<Column>, row: seq<string>, j: nat)
    requires j < |cols| == |row| && Bindable(cols[..j + 1])
    ensures Bindable(cols[..j])
    ensures UpdateParameters(cols[..j + 1], row[..j + 1]) ==
            UpdateParameters(cols[..j], row[..j])
            + [Parameter(cols[j].name, Bound(GetDBType(cols[j].typeName).value), row[j])]
  {
    assert forall k :: 0 <= k < j ==> cols[..j + 1][k] == cols[..j][k] && row[..j + 1][k] == row[..j][k];
  }

  /** With no question mark in the names, the primary key or its value, an
      UPDATE command has exactly one placeholder per column, and as many
      parameters. */
  lemma UpdateRowPlaceholders(target: string, cols: seq<Column>, row: seq<string>, primaryKey: string)
    requires |row| == |cols| && UpdateRow(target, cols, row, primaryKey).Ok?
    requires '?' !in target && '?' !in primaryKey && '?' !in row[ColumnIndex(cols, primaryKey)]
    requires forall k :: 0 <= k < |cols| ==> '?' !in cols[k].name
    ensures var plan := UpdateRow(target, cols, row, primaryKey).value;
      Count(plan.text, '?') == |plan.parameters| == |cols|
  {
    UpdateFixedText();
    var items := SetItems(cols);
    forall k | 0 <= k < |items|
      ensures Count(items[k], '?') == 1
    {
      CountAbsent(cols[k].name, '?');
      CountAppend(cols[k].name, "=?", '?');
    }
    CountJoinParts(items, ",", '?');
    var value := row[ColumnIndex(cols, primaryKey)];
    var head := UpdateOpen + target + UpdateSet;
    var where := WhereClause(primaryKey, value);
    CountAbsent(head, '?');
    CountAbsent(where, '?');
    CountAppend(head, Join(items, ","), '?');
    CountAppend(head + Join(items, ","), where, '?');
  }

  /** An UPDATE command names its target table as its first quoted
      identifier, and ends with the WHERE clause that inlines the row's key
      value as a quoted literal. */
  lemma UpdateRowShape(target: string, cols: seq<Column>, row: seq<string>, primaryKey: string)
    requires |row| == |cols| && UpdateRow(target, cols, row, primaryKey).Ok?
    requires '"' !in target
    ensures var text := UpdateRow(target, cols, row, primaryKey).value.text;
      && FirstQuoted(text) == target
      && EndsWith(text, " WHERE " + primaryKey + " = '" + row[ColumnIndex(cols, primaryKey)] + "';")
  {
    UpdateFixedText();
    var where := WhereClause(primaryKey, row[ColumnIndex(cols, primaryKey)]);
    var rest := Join(SetItems(cols), ",") + where;
    assert UpdateRow(target, cols, row, primaryKey).value.text == UpdateOpen + target + UpdateSet + rest;
    FirstQuotedBetween("UPDATE ", target, " SET ", rest);
    EndsWithAppend(UpdateOpen + target + UpdateSet + Join(SetItems(cols), ","), where);
  }

  /** Every column, the key included, is bound as a parameter in column
      order; the key's value is both bound and inlined in the WHERE clause. */
  lemma UpdateBindsEveryColumn(target: string, cols: seq<Column>, row: seq<string>, primaryKey: string, k: nat)
    requires |row| == |cols| && UpdateRow(target, cols, row, primaryKey).Ok? && k < |cols|
    ensures var plan := UpdateRow(target, cols, row, primaryKey).value;
      && |plan.parameters| == |cols|
      && plan.parameters[k] == Parameter(cols[k].name, Bound(GetDBType(cols[k].typeName).value), row[k])
      && plan.parameters[ColumnIndex(cols, primaryKey)].name == primaryKey
      && plan.parameters[ColumnIndex(cols, primaryKey)].value == row[ColumnIndex(cols, primaryKey)]
      && EndsWith(plan.text, WhereClause(primaryKey, row[ColumnIndex(cols, primaryKey)]))
  {
    var key := ColumnIndex(cols, primaryKey);
    assert UpdateRow(target, cols, row, primaryKey).value.parameters == UpdateParameters(cols, row);
    assert UpdateParameters(cols, row)[key].name == cols[key].name;
    EndsWithAppend(UpdateOpen + target + UpdateSet + Join(SetItems(cols), ","), WhereClause(primaryKey, row[key]));
  }

  /** The two statements bind a byte-array column differently: an INSERT
      sends it as long binary, an UPDATE with the DbType Binary. */
  lemma BinaryBindingDiffers(cols: seq<Column>, row: seq<string>, exclude: string, k: nat)
    requires |row| == |cols| && Bindable(cols) && k < |cols|
    requires cols[k].typeName == "System.Byte[]" && cols[k].name != exclude
    ensures exists m :: 0 <= m < |InsertParameters(cols, row, exclude)| &&
              InsertParameters(cols, row, exclude)[m] == Parameter(cols[k].name, LongBinary, row[k])
    ensures UpdateParameters(cols, row)[k] == Parameter(cols[k].name, Bound(Binary), row[k])
  {
    KeptColumnsComplete(cols, exclude, k);
    var kept := KeptColumns(cols, exclude);
    var m :| 0 <= m < |kept| && kept[m] == k;
    InsertParameterAt(cols, row, exclude, m);
    DbTypeRoundTrip(Binary, cols[k].typeName);
  }

  // ---------------------------------------------------------------- FIXED TEXT

  /* Facts about the literal pieces of the statements: how they split around
     the quote, and which characters they avoid. They model nothing of their
     own; the proofs above call them so that the solver meets each literal
     once, in a small context. */

  lemma AutoIncrementLetters()
    ensures |" AUTOINCREMENT"| == 14
    ensures " AUTOINCREMENT"[1] == 'A' && " AUTOINCREMENT"[13] == 'T'
  {
  }

  lemma FixedClausesWords()
    ensures UpperWords(" AUTOINCREMENT") && UpperWords(" NOT NULL")
  {
  }

  lemma CreateFixedText()
    ensures CreateOpen == "CREATE TABLE " + "\"" && CreateClose == "\"" + " ("
    ensures '"' !in "CREATE TABLE "
  {
  }

  lemma CreateFixedTextNoComma()
    ensures ',' !in CreateOpen && ',' !in CreateClose && ',' !in ");"
  {
  }

  lemma InsertFixedText()
    ensures InsertOpen == "INSERT INTO " + "\"" && InsertClose == "\"" + " ("
    ensures '?' !in InsertOpen && '?' !in InsertClose && '?' !in InsertValues
    ensures '?' !in " (" && '?' !in ");" && '?' !in ", " && '?' !in ","
    ensures Count("?", '?') == 1
    ensures '"' !in "INSERT INTO "
  {
  }

  lemma UpdateFixedText()
    ensures UpdateOpen == "UPDATE " + "\"" && UpdateSet == "\"" + " SET "
    ensures '?' !in UpdateOpen && '?' !in UpdateSet && '?' !in " WHERE " && '?' !in " = '"
    ensures '?' !in "';" && '?' !in ","
    ensures Count("=?", '?') == 1
  {
  }

  lemma WhereAppends(s: string, primaryKey: string, keyValue: string)
    ensures s + " WHERE " + primaryKey + " = '" + keyValue + "';" == s + WhereClause(primaryKey, keyValue)
  {
  }
}
