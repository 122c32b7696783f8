/** Two fixed cases of the statement builders, worked out in full: the
    CREATE TABLE of a two-column People table and the UPDATE of its row
    with id 7. */
module Scenarios {
  import opened Failures
  import opened Text
  import opened TypeMapping
  import opened Statements

  const Id := Column("id", "System.Int32", false, true)
  const Name := Column("name", "System.String", true, false)

  /** The auto-increment INTEGER column keeps its NOT NULL; the nullable
      text column has none. */
  lemma PeopleCreateTable()
    ensures CreateTableStatement(Table("People", [Id, Name], [])) ==
            Ok("CREATE TABLE \"People\" (" + " id AUTOINCREMENT NOT NULL" + "," + " name TEXT" + ");")
  {
    PeopleDefinitions();
    PeopleColumnList();
    PeopleCreateText();
    var head := "CREATE TABLE \"People\" (";
    AppendRegroups(head, " id AUTOINCREMENT NOT NULL", ",", " name TEXT");
    assert CreateTableText("People", ["id AUTOINCREMENT NOT NULL", "name TEXT"])
        == head + (" id AUTOINCREMENT NOT NULL" + ("," + " name TEXT")) + ");";
  }

  lemma PeopleDefinitions()
    ensures ColumnDefinitions([Id, Name]) == Ok(["id AUTOINCREMENT NOT NULL", "name TEXT"])
  {
    IdDefinition();
    NameDefinition();
    var one := ColumnDefinitions([Id]);
    assert ColumnDefinitions([]) == Ok([]);
    assert [Id][..0] == [];
    assert ColumnDefinitions([Id][..0]) == Ok([]);
    assert ColumnDefinition([Id][0]) == Ok("id AUTOINCREMENT NOT NULL");
    assert one == Ok([] + ["id AUTOINCREMENT NOT NULL"]);
    var two := ColumnDefinitions([Id, Name]);
    assert [Id, Name][..1] == [Id];
    assert ColumnDefinitions([Id, Name][..1]) == one;
    assert ColumnDefinition([Id, Name][1]) == Ok("name TEXT");
    assert two == Ok(one.value + ["name TEXT"]);
    assert one.value + ["name TEXT"] == ["id AUTOINCREMENT NOT NULL", "name TEXT"];
  }

  lemma PeopleColumnList()
    ensures Join(Spaced(["id AUTOINCREMENT NOT NULL", "name TEXT"]), ",")
         == " id AUTOINCREMENT NOT NULL" + "," + " name TEXT"
  {
    var a := " id AUTOINCREMENT NOT NULL";
    var b := " name TEXT";
    var parts := Spaced(["id AUTOINCREMENT NOT NULL", "name TEXT"]);
    assert parts[0] == a && parts[1] == b;
    assert parts == [a] + [b];
    JoinAppend([a], ",", b);
  }

  lemma IdDefinition()
    ensures ColumnDefinition(Id) == Ok("id AUTOINCREMENT NOT NULL")
  {
    assert GetAccessDatatype("System.Int32") == Ok("INTEGER");
    assert "id" + " AUTOINCREMENT" + " NOT NULL" == "id AUTOINCREMENT NOT NULL";
  }

  lemma NameDefinition()
    ensures ColumnDefinition(Name) == Ok("name TEXT")
  {
    assert GetAccessDatatype("System.String") == Ok("TEXT");
    assert "TEXT" != "INTEGER";
    assert "name" + " " + "TEXT" == "name TEXT";
  }

  /** The key value is inlined as a quoted literal after the placeholders
      of every column. */
  lemma PeopleUpdate()
    ensures UpdateRow("People", [Id, Name], ["7", "Ann"], "id") ==
            Ok(Plan("UPDATE \"People\" SET " + "id=?,name=?" + " WHERE id = '7';",
                    [Parameter("id", Bound(Int32), "7"), Parameter("name", Bound(String), "Ann")]))
  {
    PeopleBindings();
    PeopleAssignments();
    PeopleUpdateText();
    assert ColumnIndex([Id, Name], "id") == 0;
  }

  lemma PeopleBindings()
    ensures Bindable([Id, Name])
    ensures UpdateParameters([Id, Name], ["7", "Ann"]) ==
            [Parameter("id", Bound(Int32), "7"), Parameter("name", Bound(String), "Ann")]
  {
    assert GetDBType("System.Int32") == Ok(Int32);
    assert GetDBType("System.String") == Ok(String);
  }

  lemma PeopleAssignments()
    ensures Join(SetItems([Id, Name]), ",") == "id=?,name=?"
  {
    var items := SetItems([Id, Name]);
    assert items[0] == "id=?" && items[1] == "name=?";
    assert items[..1] == ["id=?"];
    ConcatText("id=?", ",", "name=?", "id=?,name=?");
  }

  /* Facts about the literal texts of the two cases, kept apart so that the
     solver meets each literal once, in a small context. */

  lemma PeopleCreateText()
    ensures CreateOpen + "People" + CreateClose == "CREATE TABLE \"People\" ("
  {
  }

  /** A concrete concatenation, checked character by character. */
  lemma ConcatText(a: string, b: string, c: string, abc: string)
    requires |abc| == |a| + |b| + |c|
    requires abc[..|a|] == a && abc[|a|..|a| + |b|] == b && abc[|a| + |b|..] == c
    ensures a + b + c == abc
  {
    assert abc == abc[..|a|] + abc[|a|..|a| + |b|] + abc[|a| + |b|..];
  }

  lemma PeopleUpdateText()
    ensures UpdateOpen + "People" + UpdateSet == "UPDATE \"People\" SET "
    ensures WhereClause("id", "7") == " WHERE id = '7';"
  {
  }
}
