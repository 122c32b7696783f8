/** The table catalogue (Access.cs, GetTables and ExistsTable): the rows of
    the driver's "Tables" schema collection, filtered to real tables. */
module TableListing {

  /** One row of the "Tables" schema collection: TABLE_NAME and TABLE_TYPE
      as text. Views, system tables and the like carry other types. */
  datatype SchemaRow = SchemaRow(tableName: string, tableType: string)

  /** The names of the rows whose type is exactly "TABLE", in schema order. */
  function TableNames(rows: seq<SchemaRow>): seq<string>
    decreases |rows|
  {
    if |rows| == 0 then []
    else
      var n := |rows| - 1;
      TableNames(rows[..n]) + (if rows[n].tableType == "TABLE" then [rows[n].tableName] else [])
  }

  /** A name is listed exactly when some row of type "TABLE" carries it. */
  lemma {:induction false} TableNamesExact(rows: seq<SchemaRow>, name: string)
    ensures name in TableNames(rows) <==>
            exists i :: 0 <= i < |rows| && rows[i].tableType == "TABLE" && rows[i].tableName == name
    decreases |rows|
  {
    if |rows| > 0 {
      var n := |rows| - 1;
      TableNamesExact(rows[..n], name);
      if name in TableNames(rows[..n]) {
        var i :| 0 <= i < n && rows[..n][i].tableType == "TABLE" && rows[..n][i].tableName == name;
        assert rows[i] == rows[..n][i];
      }
      if exists i :: 0 <= i < |rows| && rows[i].tableType == "TABLE" && rows[i].tableName == name {
        var i :| 0 <= i < |rows| && rows[i].tableType == "TABLE" && rows[i].tableName == name;
        if i < n {
          assert rows[..n][i] == rows[i];
        }
      }
    }
  }

  /** Listing keeps the schema's order: the listing of two runs of rows is
      the listing of the first followed by that of the second. */
  lemma {:induction false} TableNamesAppend(a: seq<SchemaRow>, b: seq<SchemaRow>)
    ensures TableNames(a + b) == TableNames(a) + TableNames(b)
    decreases |b|
  {
    if |b| == 0 {
      assert a + b == a;
    } else {
      var n := |b| - 1;
      assert (a + b)[..|a + b| - 1] == a + b[..n];
      TableNamesAppend(a, b[..n]);
      var last := if b[n].tableType == "TABLE" then [b[n].tableName] else [];
      assert TableNames(a) + (TableNames(b[..n]) + last) == (TableNames(a) + TableNames(b[..n])) + last;
    }
  }

  /** The loop of GetTables. */
  method ListTables(rows: seq<SchemaRow>) returns (ret: seq<string>)
    ensures ret == TableNames(rows)
  {
    ret := [];
    var i := 0;
    while i < |rows|
      invariant 0 <= i <= |rows|
      invariant ret == TableNames(rows[..i])
    {
      assert rows[..i + 1][..i] == rows[..i];
      if rows[i].tableType == "TABLE" {
        ret := ret + [rows[i].tableName];
      }
      i := i + 1;
    }
    assert rows[..i] == rows;
  }
}
