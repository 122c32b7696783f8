/** The Access class (Access.cs): an ODBC connection to one database file,
    opened by trying candidate drivers in turn, and the commands it runs. The
    ODBC layer is abstract: whether a connection string opens is given by the
    caller as the set of strings that open, and running a command appends its
    plan to `log`. */
module AccessDatabase {
  import opened Failures
  import opened Text
  import opened Drivers
  import opened Statements
  import opened TableListing

  /** The OdbcConnection object the class holds: the connection string it
      was created with, and whether Open succeeded on it. */
  datatype Connection = Connection(connectionString: string, isOpen: bool)

  /** Index of the first candidate that opens, -1 when none does. */
  function FirstOpening(candidates: seq<string>, accepts: set<string>): (r: int)
    ensures -1 <= r < |candidates|
    ensures r == -1 <==> forall i :: 0 <= i < |candidates| ==> candidates[i] !in accepts
    ensures r >= 0 ==> candidates[r] in accepts && forall i :: 0 <= i < r ==> candidates[i] !in accepts
    decreases |candidates|
  {
    if |candidates| == 0 then -1
    else if candidates[0] in accepts then 0
    else
      var k := FirstOpening(candidates[1..], accepts);
      assert forall i :: 1 <= i < |candidates| ==> candidates[i] == candidates[1..][i - 1];
      if k == -1 then -1 else k + 1
  }

  /** A configured driver that opens is the one OpenDatabase keeps,
      whatever else is installed or requested. */
  lemma ConfiguredDriverWins(filename: string, settings: DriverSettings, installed: seq<string>, accepts: set<string>)
    requires settings.driverName != ""
    requires ConnectionString(filename, settings.driverName) in accepts
    ensures var candidates := ConnectionStrings(filename, settings, installed);
      FirstOpening(candidates, accepts) == 0 &&
      candidates[0] == ConnectionString(filename, settings.driverName)
  {
    var drivers := CandidateDrivers(settings, installed);
    assert drivers[0] == settings.driverName;
    ConnectionStringsForAt(filename, drivers, 0);
  }

  /** What a call that runs `planned` in order does: the planning failure
      if there is one; nothing when there is nothing to run; the executor's
      failure on the first command when the connection is not open; and
      otherwise every command. */
  function Outcome(planned: Result<seq<Plan>>, connected: bool): (r: Result<seq<Plan>>)
    ensures planned.Err? ==> r == planned
    ensures planned.Ok? && planned.value == [] ==> r == Ok([])
    ensures planned.Ok? && planned.value != [] ==> r == if connected then planned else Err(ConnectionNotOpen)
  {
    match planned
    case Err(e) => Err(e)
    case Ok(plans) => if plans == [] || connected then Ok(plans) else Err(ConnectionNotOpen)
  }

  /** The commands `Outcome` runs. */
  function Ran(outcome: Result<seq<Plan>>): seq<Plan>
  {
    if outcome.Ok? then outcome.value else []
  }

  /** A statement without parameters, run alone. */
  function Single(statement: Result<string>): Result<seq<Plan>>
  {
    match statement
    case Err(e) => Err(e)
    case Ok(text) => Ok([Plan(text, [])])
  }

  class Access {
    var connected: bool
    var connection: Option<Connection>
    /** The commands run so far, oldest first. */
    var log: seq<Plan>

    /** Connected is set exactly while the held connection is open. */
    ghost predicate Valid()
      reads this
    {
      connected <==> connection.Some? && connection.value.isOpen
    }

    constructor()
      ensures Valid()
      ensures !connected && connection == None && log == []
    {
      connected := false;
      connection := None;
      log := [];
    }

    /** Runs one command: it succeeds and is logged exactly when the
        connection is open. */
    method ExecuteNonQuery(plan: Plan) returns (r: Result<()>)
      requires Valid()
      modifies this
      ensures Valid()
      ensures connected == old(connected) && connection == old(connection)
      ensures r.Ok? <==> connected
      ensures r.Err? ==> r.error == ConnectionNotOpen
      ensures log == old(log) + (if connected then [plan] else [])
    {
      if !connected {
        return Err(ConnectionNotOpen);
      }
      log := log + [plan];
      r := Ok(());
    }

    /** Closes first if connected, then tries the candidate connection
        strings in order; the first that opens is kept. A failed attempt
        still leaves its unopened connection object behind. */
    method OpenDatabase(filename: string, settings: DriverSettings, installed: seq<string>, accepts: set<string>)
      returns (ok: bool)
      requires Valid()
      modifies this
      ensures Valid()
      ensures var candidates := ConnectionStrings(filename, settings, installed);
        var first := FirstOpening(candidates, accepts);
        && (ok <==> exists i :: 0 <= i < |candidates| && candidates[i] in accepts)
        && connected == ok
        && (ok ==> connection == Some(Connection(candidates[first], true)))
        && (!ok && |candidates| > 0 ==> connection == Some(Connection(candidates[|candidates| - 1], false)))
        && (!ok && |candidates| == 0 ==> connection == if old(connected) then None else old(connection))
      ensures log == old(log)
    {
      if connected {
        var _ := CloseDatabase();
      }
      connected := false;
      var connectionStrings := GetConnectionStrings(filename, settings, installed);
      ghost var previous := connection;
      var i := 0;
      while i < |connectionStrings|
        invariant 0 <= i <= |connectionStrings|
        invariant !connected && Valid() && log == old(log)
        invariant forall k :: 0 <= k < i ==> connectionStrings[k] !in accepts
        invariant i == 0 ==> connection == previous
        invariant i > 0 ==> connection == Some(Connection(connectionStrings[i - 1], false))
        invariant previous == if old(connected) then None else old(connection)
      {
        var cs := connectionStrings[i];
        connection := Some(Connection(cs, false));
        if cs in accepts {
          connection := Some(Connection(cs, true));
          connected := true;
          return true;
        }
        connected := false;
        i := i + 1;
      }
      ok := false;
    }

    /** Drops the connection; on a class that never held one, this is the
        null dereference the source runs into. */
    method CloseDatabase() returns (r: Result<()>)
      requires Valid()
      modifies this
      ensures Valid()
      ensures old(connection).None? ==> r == Err(NullConnection) && connection == None && connected == old(connected)
      ensures old(connection).Some? ==> r == Ok(()) && connection == None && !connected
      ensures log == old(log)
    {
      if connection.None? {
        return Err(NullConnection);
      }
      connection := None;
      connected := false;
      r := Ok(());
    }

    /** Transactions are not implemented: both calls do nothing. */
    method StartTransaction()
    {
    }

    method CommitTransaction()
    {
    }

    /** Runs CREATE TABLE for the table's name and columns. */
    method CreateTable(t: Table) returns (r: Result<()>)
      requires Valid()
      modifies this
      ensures Valid() && connected == old(connected) && connection == old(connection)
      ensures var outcome := Outcome(Single(CreateTableStatement(t)), old(connected));
        && (r.Ok? <==> outcome.Ok?)
        && (r.Err? ==> r.error == outcome.error)
        && log == old(log) + Ran(outcome)
    {
      var statement := BuildCreateTable(t);
      if statement.Err? {
        return Err(statement.error);
      }
      r := ExecuteNonQuery(Plan(statement.value, []));
    }

    method RemoveTable(tableName: string) returns (r: Result<()>)
      requires Valid()
      modifies this
      ensures Valid() && connected == old(connected) && connection == old(connection)
      ensures var outcome := Outcome(Ok([Plan(DropTableStatement(tableName), [])]), old(connected));
        && (r.Ok? <==> outcome.Ok?)
        && (r.Err? ==> r.error == outcome.error)
        && log == old(log) + Ran(outcome)
    {
      r := ExecuteNonQuery(Plan(DropTableStatement(tableName), []));
    }

    /** Drops the tables in order; the first failure ends the call. */
    method RemoveTables(tables: seq<string>) returns (r: Result<()>)
      requires Valid()
      modifies this
      ensures Valid() && connected == old(connected) && connection == old(connection)
      ensures var outcome := Outcome(Ok(DropPlans(tables)), old(connected));
        && (r.Ok? <==> outcome.Ok?)
        && (r.Err? ==> r.error == outcome.error)
        && log == old(log) + Ran(outcome)
    {
      var i := 0;
      while i < |tables|
        invariant 0 <= i <= |tables|
        invariant Valid() && connected == old(connected) && connection == old(connection)
        invariant i > 0 ==> connected
        invariant log == old(log) + DropPlans(tables)[..i]
      {
        r := RemoveTable(tables[i]);
        if r.Err? {
          return;
        }
        i := i + 1;
      }
      assert DropPlans(tables)[..i] == DropPlans(tables);
      r := Ok(());
    }

    method RemoveEntry(table: string, key: string, value: string) returns (r: Result<()>)
      requires Valid()
      modifies this
      ensures Valid() && connected == old(connected) && connection == old(connection)
      ensures var outcome := Outcome(Ok([Plan(DeleteStatement(table, key, value), [])]), old(connected));
        && (r.Ok? <==> outcome.Ok?)
        && (r.Err? ==> r.error == outcome.error)
        && log == old(log) + Ran(outcome)
    {
      r := ExecuteNonQuery(Plan(DeleteStatement(table, key, value), []));
    }

    /** One INSERT per row, all sharing the header built once. The source's
        default for the excluded column name is ""; callers relying on that
        default pass "" here. */
    method InsertData(t: Table, exclude: string) returns (r: Result<()>)
      requires Valid() && WellFormed(t)
      modifies this
      ensures Valid() && connected == old(connected) && connection == old(connection)
      ensures var outcome := Outcome(InsertPlans(t, exclude), old(connected));
        && (r.Ok? <==> outcome.Ok?)
        && (r.Err? ==> r.error == outcome.error)
        && log == old(log) + Ran(outcome)
    {
      var header := BuildInsertHeader(t.name, t.columns, exclude);
      StartTransaction();
      var i := 0;
      while i < |t.rows|
        invariant 0 <= i <= |t.rows|
        invariant Valid() && connected == old(connected) && connection == old(connection)
        invariant i > 0 ==> connected && InsertPlans(t, exclude).Ok?
        invariant i == 0 ==> log == old(log)
        invariant i > 0 ==> log == old(log) + InsertPlans(t, exclude).value[..i]
      {
        var plan := BuildInsertRow(header, t.columns, t.rows[i], exclude);
        if plan.Err? {
          return Err(plan.error);
        }
        r := ExecuteNonQuery(plan.value);
        if r.Err? {
          return;
        }
        assert InsertPlans(t, exclude).value[..i + 1] == InsertPlans(t, exclude).value[..i] + [plan.value];
        i := i + 1;
      }
      CommitTransaction();
      if i > 0 {
        assert InsertPlans(t, exclude).value[..i] == InsertPlans(t, exclude).value;
      }
      r := Ok(());
    }

    /** One UPDATE per row, keyed by the row's value in the key column. */
    method UpdateData(t: Table, primaryKey: string, target: string) returns (r: Result<()>)
      requires Valid() && WellFormed(t)
      modifies this
      ensures Valid() && connected == old(connected) && connection == old(connection)
      ensures var outcome := Outcome(UpdatePlans(t, primaryKey, target), old(connected));
        && (r.Ok? <==> outcome.Ok?)
        && (r.Err? ==> r.error == outcome.error)
        && log == old(log) + Ran(outcome)
    {
      StartTransaction();
      var i := 0;
      while i < |t.rows|
        invariant 0 <= i <= |t.rows|
        invariant Valid() && connected == old(connected) && connection == old(connection)
        invariant i > 0 ==> connected && UpdatePlans(t, primaryKey, target).Ok?
        invariant i == 0 ==> log == old(log)
        invariant i > 0 ==> log == old(log) + UpdatePlans(t, primaryKey, target).value[..i]
      {
        var plan := BuildUpdateRow(target, t.columns, t.rows[i], primaryKey);
        if plan.Err? {
          return Err(plan.error);
        }
        r := ExecuteNonQuery(plan.value);
        if r.Err? {
          return;
        }
        assert UpdatePlans(t, primaryKey, target).value[..i + 1]
            == UpdatePlans(t, primaryKey, target).value[..i] + [plan.value];
        i := i + 1;
      }
      CommitTransaction();
      if i > 0 {
        assert UpdatePlans(t, primaryKey, target).value[..i] == UpdatePlans(t, primaryKey, target).value;
      }
      r := Ok(());
    }

    /** The names of the tables in the open database, given the rows its
        "Tables" schema collection holds. */
    method GetTables(schema: seq<SchemaRow>) returns (r: Result<seq<string>>)
      requires Valid()
      ensures connection.None? ==> r == Err(NullConnection)
      ensures connection.Some? && !connected ==> r == Err(ConnectionNotOpen)
      ensures connected ==> r == Ok(TableNames(schema))
    {
      if connection.None? {
        return Err(NullConnection);
      }
      if !connected {
        return Err(ConnectionNotOpen);
      }
      var tables := ListTables(schema);
      r := Ok(tables);
    }

    method ExistsTable(schema: seq<SchemaRow>, tableName: string) returns (r: Result<bool>)
      requires Valid()
      ensures connection.None? ==> r == Err(NullConnection)
      ensures connection.Some? && !connected ==> r == Err(ConnectionNotOpen)
      ensures connected ==> r == Ok(tableName in TableNames(schema))
    {
      var tables := GetTables(schema);
      if tables.Err? {
        return Err(tables.error);
      }
      if IndexOf(tables.value, tableName) == -1 {
        return Ok(false);
      }
      r := Ok(true);
    }
  }

  /** The DROP TABLE commands for the tables, in order. */
  function DropPlans(tables: seq<string>): (r: seq<Plan>)
    ensures |r| == |tables|
  {
    seq(|tables|, i requires 0 <= i < |tables| => Plan(DropTableStatement(tables[i]), []))
  }
}
