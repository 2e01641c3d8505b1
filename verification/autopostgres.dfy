/**
 * The PostgreSQL script generator: for every staging table it writes a
 * DROP, a CREATE TABLE built from the column types of the table's CSV input
 * and a COPY, for every star table a DROP and the CREATE given in the
 * configuration, and then the configured INSERT statements, each into one of
 * six statement lists.
 *
 * The CSV reader's type inference is not modelled: a staging table carries
 * its columns, in order, as (name, dtype name) pairs.
 */
module AutoPostgres {
  import opened Sequences

  /** The dtype names the generator knows, with their SQL column types. */
  const FieldTypes: map<string, string> := map[
    "int" := "INTEGER",
    "bool" := "BOOLEAN",
    "int64" := "BIGINT",
    "float" := "DECIMAL",
    "float64" := "DOUBLE PRECISION",
    "object" := "VARCHAR(255)"
  ]

  /** The SQL type of a column: the table's entry, or "UNKNOWN". */
  function SqlType(dtype: string): (t: string)
    ensures t == "UNKNOWN" <==> dtype !in FieldTypes
  {
    if dtype in FieldTypes then FieldTypes[dtype] else "UNKNOWN"
  }

  datatype Column = Column(name: string, dtype: string)

  /** A staging table: its name, its CSV input path and that file's columns. */
  datatype StagingTable = StagingTable(name: string, input: string, columns: seq<Column>)

  /** A star table: its name and the CREATE statement configured for it. */
  datatype StarTable = StarTable(name: string, create: string)

  // ---------------------------------------------------------------------
  // The statements

  function DropStagingSql(name: string): string {
    "DROP TABLE IF EXISTS staging_" + name + ";\n"
  }

  function CopyStagingSql(name: string, input: string): string {
    "COPY staging_" + name + " FROM '" + input + "'\n" + "WITH (FORMAT CSV, HEADER True);\n\n"
  }

  function DropStarSql(name: string): string {
    "DROP TABLE IF EXISTS " + name + ";\n"
  }

  function CreateHeader(name: string): string {
    "CREATE TABLE IF NOT EXISTS staging_" + name + " (\n"
  }

  /** One column definition: the quoted name and the SQL type. */
  function ColumnDef(c: Column): string {
    "     \"" + c.name + "\" " + SqlType(c.dtype)
  }

  /** `f` applied to every element, in order. */
  function MapSeq<T>(xs: seq<T>, f: T -> string): (r: seq<string>)
    decreases |xs|
  {
    if xs == [] then [] else MapSeq(xs[..|xs| - 1], f) + [f(xs[|xs| - 1])]
  }

  /** One entry per element, the `i`th made from the `i`th element. */
  lemma {:induction false} MapSeqAt<T>(xs: seq<T>, f: T -> string)
    ensures |MapSeq(xs, f)| == |xs|
    ensures forall i :: 0 <= i < |xs| ==> MapSeq(xs, f)[i] == f(xs[i])
    decreases |xs|
  {
    if xs != [] {
      var init := xs[..|xs| - 1];
      MapSeqAt(init, f);
      forall i | 0 <= i < |xs| ensures MapSeq(xs, f)[i] == f(xs[i]) {
        if i < |init| {
          assert xs[i] == init[i];
        }
      }
    }
  }

  lemma MapSeqStep<T>(xs: seq<T>, i: nat, f: T -> string)
    requires i < |xs|
    ensures MapSeq(xs[..i + 1], f) == MapSeq(xs[..i], f) + [f(xs[i])]
  {
    assert xs[..i + 1][..i] == xs[..i];
  }

  /** `parts` joined with `sep` between neighbours. */
  function JoinWith(parts: seq<string>, sep: string): string
    decreases |parts|
  {
    if parts == [] then ""
    else if |parts| == 1 then parts[0]
    else JoinWith(parts[..|parts| - 1], sep) + sep + parts[|parts| - 1]
  }

  /** The CREATE TABLE statement of a staging table: the header, the column
      definitions separated by ",\n", and ");" on a line of its own. Without
      columns the header loses its "(\n" and the statement is left open. */
  function CreateStagingSql(name: string, columns: seq<Column>): string {
    if columns == [] then "CREATE TABLE IF NOT EXISTS staging_" + name + " \n);\n\n"
    else CreateHeader(name) + JoinWith(MapSeq(columns, ColumnDef), ",\n") + "\n);\n\n"
  }

  /** `parts` each followed by `sep`: the column lines as the loop writes
      them, with `sep` = ",\n". */
  function Terminated(parts: seq<string>, sep: string): string
    decreases |parts|
  {
    if parts == [] then "" else Terminated(parts[..|parts| - 1], sep) + parts[|parts| - 1] + sep
  }

  // ---------------------------------------------------------------------
  // Types

  lemma TypeExamples()
    ensures SqlType("float64") == "DOUBLE PRECISION"
    ensures SqlType("object") == "VARCHAR(255)"
    ensures SqlType("datetime64[ns]") == "UNKNOWN"
  {
  }

  // ---------------------------------------------------------------------
  // Reading the table back out of a DROP statement

  datatype Option<T> = None | Some(value: T)

  /** The table a "DROP TABLE IF EXISTS <t>;\n" statement drops. */
  function DroppedTable(sql: string): Option<string> {
    var prefix := "DROP TABLE IF EXISTS ";
    if |sql| >= |prefix| + 2 && sql[..|prefix|] == prefix && sql[|sql| - 2..] == ";\n"
    then Some(sql[|prefix|..|sql| - 2])
    else None
  }

  /** A star table's DROP names the table itself. */
  lemma DropStarRoundTrip(name: string)
    ensures DroppedTable(DropStarSql(name)) == Some(name)
  {
    var sql := DropStarSql(name);
    var prefix := "DROP TABLE IF EXISTS ";
    assert sql[..|prefix|] == prefix;
    assert sql[|sql| - 2..] == ";\n";
    assert sql[|prefix|..|sql| - 2] == name;
  }

  /** A staging table's DROP names the table with "staging_" in front. */
  lemma DropStagingRoundTrip(name: string)
    ensures DroppedTable(DropStagingSql(name)) == Some("staging_" + name)
  {
    assert DropStagingSql(name) == DropStarSql("staging_" + name);
    DropStarRoundTrip("staging_" + name);
  }

  /** So different tables are never dropped by the same statement. */
  lemma DropStagingInjective(a: string, b: string)
    requires DropStagingSql(a) == DropStagingSql(b)
    ensures a == b
  {
    DropStagingRoundTrip(a);
    DropStagingRoundTrip(b);
    assert "staging_" + a == "staging_" + b;
    assert a == ("staging_" + a)[8..];
    assert b == ("staging_" + b)[8..];
  }

  // ---------------------------------------------------------------------
  // The CREATE TABLE statement

  /** Terminating every part is joining them and terminating the last. */
  lemma {:induction false} TerminatedJoin(parts: seq<string>, sep: string)
    requires parts != []
    ensures Terminated(parts, sep) == JoinWith(parts, sep) + sep
    decreases |parts|
  {
    var init := parts[..|parts| - 1];
    var last := parts[|parts| - 1];
    if init == [] {
      assert parts == [last];
      calc {
        Terminated(parts, sep);
        Terminated(init, sep) + last + sep;
        JoinWith(parts, sep) + sep;
      }
    } else {
      calc {
        Terminated(parts, sep);
        Terminated(init, sep) + last + sep;
      == { TerminatedJoin(init, sep); }
        JoinWith(init, sep) + sep + last + sep;
        JoinWith(parts, sep) + sep;
      }
    }
  }

  /** With at least one column, the statement is the header, the column
      lines each ending in ",\n" except that the last loses its comma, and
      ");" on its own line. */
  lemma CreateWithColumns(name: string, columns: seq<Column>)
    requires columns != []
    ensures var lines := Terminated(MapSeq(columns, ColumnDef), ",\n");
      && |lines| >= 2
      && CreateStagingSql(name, columns) == CreateHeader(name) + lines[..|lines| - 2] + "\n);\n\n"
  {
    var joined := JoinWith(MapSeq(columns, ColumnDef), ",\n");
    TerminatedJoin(MapSeq(columns, ColumnDef), ",\n");
    var lines := Terminated(MapSeq(columns, ColumnDef), ",\n");
    assert lines == joined + ",\n";
    assert lines[..|lines| - 2] == joined;
  }

  /** A single column makes a single definition line. */
  lemma CreateOneColumn(name: string, c: Column)
    ensures CreateStagingSql(name, [c]) == CreateHeader(name) + ColumnDef(c) + "\n);\n\n"
  {
    assert [c][..0] == [];
    assert MapSeq([c], ColumnDef) == [ColumnDef(c)];
  }

  lemma TerminatedStep(parts: seq<string>, part: string, sep: string)
    ensures Terminated(parts + [part], sep) == Terminated(parts, sep) + part + sep
  {
    assert (parts + [part])[..|parts|] == parts;
  }

  /** `_staging_create`'s string building: the header, one line per column
      with a trailing ",\n", the last two characters cut off, a newline and
      the closing ");". */
  method BuildCreateSql(name: string, columns: seq<Column>) returns (sql: string)
    ensures sql == CreateStagingSql(name, columns)
  {
    sql := CreateHeader(name);
    for i := 0 to |columns|
      invariant sql == CreateHeader(name) + Terminated(MapSeq(columns[..i], ColumnDef), ",\n")
    {
      MapSeqStep(columns, i, ColumnDef);
      ghost var lines := Terminated(MapSeq(columns[..i], ColumnDef), ",\n");
      TerminatedStep(MapSeq(columns[..i], ColumnDef), ColumnDef(columns[i]), ",\n");
      AppendAssoc3(CreateHeader(name), lines, ColumnDef(columns[i]), ",\n");
      sql := sql + ColumnDef(columns[i]) + ",\n";
    }
    assert columns[..|columns|] == columns;
    CreateFinish(name, columns, sql);
    sql := sql[..|sql| - 2] + "\n";
    sql := sql + ");\n\n";
  }

  /** The end of `_staging_create`: the last two characters of the built
      text cut off, then a newline and the closing ");". */
  lemma CreateFinish(name: string, columns: seq<Column>, built: string)
    requires built == CreateHeader(name) + Terminated(MapSeq(columns, ColumnDef), ",\n")
    ensures |built| >= 2 && built[..|built| - 2] + "\n" + ");\n\n" == CreateStagingSql(name, columns)
  {
    if columns == [] {
      assert built[..|built| - 2] == "CREATE TABLE IF NOT EXISTS staging_" + name + " ";
    } else {
      CreateWithColumns(name, columns);
      var lines := Terminated(MapSeq(columns, ColumnDef), ",\n");
      assert built[..|built| - 2] == CreateHeader(name) + lines[..|lines| - 2];
    }
  }

  // ---------------------------------------------------------------------
  // The statement lists

  function StagingDropOf(t: StagingTable): string { DropStagingSql(t.name) }
  function StagingCreateOf(t: StagingTable): string { CreateStagingSql(t.name, t.columns) }
  function StagingCopyOf(t: StagingTable): string { CopyStagingSql(t.name, t.input) }
  function StarDropOf(t: StarTable): string { DropStarSql(t.name) }
  function StarCreateOf(t: StarTable): string { t.create }

  /** The generator: the configured tables in their configuration order,
      and the six statement lists. */
  class ScriptGenerator {
    const stagingTables: seq<StagingTable>
    const starTables: seq<StarTable>
    const starInserts: seq<string>
    var stagingDrops: seq<string>
    var stagingCreates: seq<string>
    var stagingCopies: seq<string>
    var starDrops: seq<string>
    var starCreates: seq<string>
    var inserts: seq<string>

    constructor (stagingTables: seq<StagingTable>, starTables: seq<StarTable>, starInserts: seq<string>)
      ensures this.stagingTables == stagingTables && this.starTables == starTables
      ensures this.starInserts == starInserts
      ensures stagingDrops == [] && stagingCreates == [] && stagingCopies == []
      ensures starDrops == [] && starCreates == [] && inserts == []
    {
      this.stagingTables := stagingTables;
      this.starTables := starTables;
      this.starInserts := starInserts;
      stagingDrops, stagingCreates, stagingCopies := [], [], [];
      starDrops, starCreates, inserts := [], [], [];
    }

    /** `_staging_drop`: one DROP appended to its list, nothing else touched. */
    method StagingDrop(name: string)
      modifies this
      ensures stagingDrops == old(stagingDrops) + [DropStagingSql(name)]
      ensures stagingCreates == old(stagingCreates) && stagingCopies == old(stagingCopies)
      ensures starDrops == old(starDrops) && starCreates == old(starCreates) && inserts == old(inserts)
    {
      var sql := "DROP TABLE IF EXISTS staging_" + name + ";\n";
      stagingDrops := stagingDrops + [sql];
    }

    /** `_staging_create`: one CREATE TABLE appended to its list. */
    method StagingCreate(t: StagingTable)
      modifies this
      ensures stagingCreates == old(stagingCreates) + [CreateStagingSql(t.name, t.columns)]
      ensures stagingDrops == old(stagingDrops) && stagingCopies == old(stagingCopies)
      ensures starDrops == old(starDrops) && starCreates == old(starCreates) && inserts == old(inserts)
    {
      var sql := BuildCreateSql(t.name, t.columns);
      stagingCreates := stagingCreates + [sql];
    }

    /** `_staging_copy`: one COPY appended to its list. */
    method StagingCopy(t: StagingTable)
      modifies this
      ensures stagingCopies == old(stagingCopies) + [CopyStagingSql(t.name, t.input)]
      ensures stagingDrops == old(stagingDrops) && stagingCreates == old(stagingCreates)
      ensures starDrops == old(starDrops) && starCreates == old(starCreates) && inserts == old(inserts)
    {
      var sql := "COPY staging_" + t.name + " FROM '" + t.input + "'\n";
      sql := sql + "WITH (FORMAT CSV, HEADER True);\n\n";
      stagingCopies := stagingCopies + [sql];
    }

    /** `_star_drop`: one DROP appended to its list. */
    method StarDrop(name: string)
      modifies this
      ensures starDrops == old(starDrops) + [DropStarSql(name)]
      ensures stagingDrops == old(stagingDrops) && stagingCreates == old(stagingCreates)
      ensures stagingCopies == old(stagingCopies) && starCreates == old(starCreates) && inserts == old(inserts)
    {
      var sql := "DROP TABLE IF EXISTS " + name + ";\n";
      starDrops := starDrops + [sql];
    }

    /** `_star_create`: the configured statement appended as it is. */
    method StarCreate(t: StarTable)
      modifies this
      ensures starCreates == old(starCreates) + [t.create]
      ensures stagingDrops == old(stagingDrops) && stagingCreates == old(stagingCreates)
      ensures stagingCopies == old(stagingCopies) && starDrops == old(starDrops) && inserts == old(inserts)
    {
      starCreates := starCreates + [t.create];
    }

    /** `_star_inserts`: every configured INSERT appended, in order. */
    method StarInserts()
      modifies this
      ensures inserts == old(inserts) + starInserts
      ensures stagingDrops == old(stagingDrops) && stagingCreates == old(stagingCreates)
      ensures stagingCopies == old(stagingCopies) && starDrops == old(starDrops) && starCreates == old(starCreates)
    {
      for i := 0 to |starInserts|
        invariant inserts == old(inserts) + starInserts[..i]
        invariant stagingDrops == old(stagingDrops) && stagingCreates == old(stagingCreates)
        invariant stagingCopies == old(stagingCopies) && starDrops == old(starDrops) && starCreates == old(starCreates)
      {
        assert starInserts[..i + 1] == starInserts[..i] + [starInserts[i]];
        inserts := inserts + [starInserts[i]];
      }
      assert starInserts[..|starInserts|] == starInserts;
    }

    /** `_generate_scripts`: the three staging statements for every staging
        table, the two star statements for every star table, then the
        inserts, each list growing in table order. */
    method GenerateScripts()
      modifies this
      ensures stagingDrops == old(stagingDrops) + MapSeq(stagingTables, StagingDropOf)
      ensures stagingCreates == old(stagingCreates) + MapSeq(stagingTables, StagingCreateOf)
      ensures stagingCopies == old(stagingCopies) + MapSeq(stagingTables, StagingCopyOf)
      ensures starDrops == old(starDrops) + MapSeq(starTables, StarDropOf)
      ensures starCreates == old(starCreates) + MapSeq(starTables, StarCreateOf)
      ensures inserts == old(inserts) + starInserts
    {
      for i := 0 to |stagingTables|
        invariant stagingDrops == old(stagingDrops) + MapSeq(stagingTables[..i], StagingDropOf)
        invariant stagingCreates == old(stagingCreates) + MapSeq(stagingTables[..i], StagingCreateOf)
        invariant stagingCopies == old(stagingCopies) + MapSeq(stagingTables[..i], StagingCopyOf)
        invariant starDrops == old(starDrops) && starCreates == old(starCreates) && inserts == old(inserts)
      {
        var t := stagingTables[i];
        StagingDrop(t.name);
        StagingCreate(t);
        StagingCopy(t);
        MapSeqStep(stagingTables, i, StagingDropOf);
        MapSeqStep(stagingTables, i, StagingCreateOf);
        MapSeqStep(stagingTables, i, StagingCopyOf);
        AppendAssoc(old(stagingDrops), MapSeq(stagingTables[..i], StagingDropOf), [StagingDropOf(t)]);
        AppendAssoc(old(stagingCreates), MapSeq(stagingTables[..i], StagingCreateOf), [StagingCreateOf(t)]);
        AppendAssoc(old(stagingCopies), MapSeq(stagingTables[..i], StagingCopyOf), [StagingCopyOf(t)]);
      }
      assert stagingTables[..|stagingTables|] == stagingTables;
      for i := 0 to |starTables|
        invariant stagingDrops == old(stagingDrops) + MapSeq(stagingTables, StagingDropOf)
        invariant stagingCreates == old(stagingCreates) + MapSeq(stagingTables, StagingCreateOf)
        invariant stagingCopies == old(stagingCopies) + MapSeq(stagingTables, StagingCopyOf)
        invariant starDrops == old(starDrops) + MapSeq(starTables[..i], StarDropOf)
        invariant starCreates == old(starCreates) + MapSeq(starTables[..i], StarCreateOf)
        invariant inserts == old(inserts)
      {
        var t := starTables[i];
        StarDrop(t.name);
        StarCreate(t);
        MapSeqStep(starTables, i, StarDropOf);
        MapSeqStep(starTables, i, StarCreateOf);
        AppendAssoc(old(starDrops), MapSeq(starTables[..i], StarDropOf), [StarDropOf(t)]);
        AppendAssoc(old(starCreates), MapSeq(starTables[..i], StarCreateOf), [StarCreateOf(t)]);
      }
      assert starTables[..|starTables|] == starTables;
      StarInserts();
    }
  }

  /** After generating from empty lists, each staging list holds exactly one
      statement per staging table and each star list one per star table,
      the `i`th for the `i`th table. */
  lemma ScriptsPerTable(stagingTables: seq<StagingTable>, starTables: seq<StarTable>)
    ensures var drops := MapSeq(stagingTables, StagingDropOf);
      && |drops| == |stagingTables|
      && forall i :: 0 <= i < |stagingTables| ==> drops[i] == DropStagingSql(stagingTables[i].name)
    ensures var creates := MapSeq(stagingTables, StagingCreateOf);
      && |creates| == |stagingTables|
      && forall i :: 0 <= i < |stagingTables| ==>
           creates[i] == CreateStagingSql(stagingTables[i].name, stagingTables[i].columns)
    ensures var copies := MapSeq(stagingTables, StagingCopyOf);
      && |copies| == |stagingTables|
      && forall i :: 0 <= i < |stagingTables| ==>
           copies[i] == CopyStagingSql(stagingTables[i].name, stagingTables[i].input)
    ensures var drops := MapSeq(starTables, StarDropOf);
      && |drops| == |starTables|
      && forall i :: 0 <= i < |starTables| ==> drops[i] == DropStarSql(starTables[i].name)
    ensures var creates := MapSeq(starTables, StarCreateOf);
      && |creates| == |starTables|
      && forall i :: 0 <= i < |starTables| ==> creates[i] == starTables[i].create
  {
    MapSeqAt(stagingTables, StagingDropOf);
    MapSeqAt(stagingTables, StagingCreateOf);
    MapSeqAt(stagingTables, StagingCopyOf);
    MapSeqAt(starTables, StarDropOf);
    MapSeqAt(starTables, StarCreateOf);
  }
}
