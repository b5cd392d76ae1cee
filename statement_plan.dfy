/**
 * The four SQL statements of the staging-then-merge load (app.py, lines
 * 82-113). Table names, the load URI and the role ARN are interpolated as
 * given; nothing is quoted or checked. The upsert is written for a fixed
 * five-column schema keyed on `id`.
 */
module StatementPlan {
  import opened Text

  datatype Step = Step(name: string, sql: string)

  const TruncateName: string := "Truncate Staging"
  const CopyName: string := "Copy to Staging"
  const CreateName: string := "Create Final Table"
  const MergeName: string := "Merge (Upsert) Data"

  /** The merge key and the columns the merge writes, key first. */
  const MergeKey: string := "id"
  const MergeColumns: seq<string> := ["id", "name", "email", "age", "created_at"]

  /** The column list of the merge's INSERT clause, as written in the statement. */
  const InsertColumns: string := "id, name, email, age, created_at"

  /** One line of a triple-quoted statement: four spaces of indentation, the text, a newline. */
  function Line(text: string): string
  {
    "    " + text + "\n"
  }

  /** The indented lines, in order. */
  function Lines(texts: seq<string>): string
  {
    if |texts| == 0 then "" else Lines(texts[..|texts| - 1]) + Line(texts[|texts| - 1])
  }

  /** A triple-quoted statement: it opens with a newline, then one indented line per text. */
  function Block(texts: seq<string>): string
  {
    "\n" + Lines(texts)
  }

  /** `f"TRUNCATE TABLE {staging_table};"` */
  function TruncateSql(staging: string): string
  {
    "TRUNCATE TABLE " + staging + ";"
  }

  /** The bulk load of the staging table from the chosen load URI, app.py lines 85-90. */
  function CopySql(staging: string, loadUri: string, roleArn: string): string
  {
    Block([
      "COPY " + staging,
      "FROM '" + loadUri + "'",
      "IAM_ROLE '" + roleArn + "'",
      "FORMAT AS JSON 'auto';"
    ])
  }

  /** `f"CREATE TABLE IF NOT EXISTS {final_table} (LIKE {staging_table});"` */
  function CreateFinalSql(final: string, staging: string): string
  {
    "CREATE TABLE IF NOT EXISTS " + final + " (LIKE " + staging + ");"
  }

  /** `column = staging.column`, one assignment of the merge's SET clause. */
  function SetColumn(staging: string, column: string): string
  {
    column + " = " + staging + "." + column
  }

  /** `table.column` */
  function Qualify(table: string, column: string): string
  {
    table + "." + column
  }

  /** The staging columns the merge inserts, `staging.id, staging.name, ...`. */
  function InsertValues(staging: string): string
  {
    Qualify(staging, "id") + ", " + Qualify(staging, "name") + ", " + Qualify(staging, "email") + ", "
    + Qualify(staging, "age") + ", " + Qualify(staging, "created_at")
  }

  /** The lines of the upsert of the staging rows into the final table, app.py lines 96-106. */
  function MergeLines(final: string, staging: string): seq<string>
  {
    [
      "MERGE INTO " + final + " USING " + staging,
      "ON " + Qualify(final, MergeKey) + " = " + Qualify(staging, MergeKey),
      "WHEN MATCHED THEN UPDATE SET",
      "    " + SetColumn(staging, "name") + ",",
      "    " + SetColumn(staging, "email") + ",",
      "    " + SetColumn(staging, "age") + ",",
      "    " + SetColumn(staging, "created_at"),
      "WHEN NOT MATCHED THEN INSERT (" + InsertColumns + ")",
      "VALUES (" + InsertValues(staging) + ");"
    ]
  }

  /** The merge statement: the triple-quoted block of `MergeLines`. */
  function MergeSql(final: string, staging: string): string
  {
    Block(MergeLines(final, staging))
  }

  /** The lines of a SET clause assigning each column from staging, comma-separated. */
  function Assignments(staging: string, columns: seq<string>): seq<string>
  {
    seq(|columns|, i requires 0 <= i < |columns| =>
      "    " + SetColumn(staging, columns[i]) + (if i < |columns| - 1 then "," else ""))
  }

  /** The `statements` list: four named steps in a fixed order, whatever the inputs. */
  function BuildPlan(staging: string, final: string, loadUri: string, roleArn: string): (plan: seq<Step>)
    ensures |plan| == 4
    ensures plan[0] == Step(TruncateName, TruncateSql(staging))
    ensures plan[1] == Step(CopyName, CopySql(staging, loadUri, roleArn))
    ensures plan[2] == Step(CreateName, CreateFinalSql(final, staging))
    ensures plan[3] == Step(MergeName, MergeSql(final, staging))
  {
    [
      Step(TruncateName, TruncateSql(staging)),
      Step(CopyName, CopySql(staging, loadUri, roleArn)),
      Step(CreateName, CreateFinalSql(final, staging)),
      Step(MergeName, MergeSql(final, staging))
    ]
  }

  /** The step names, in plan order. */
  function Names(plan: seq<Step>): (names: seq<string>)
    ensures |names| == |plan|
    ensures forall i :: 0 <= i < |plan| ==> names[i] == plan[i].name
  {
    if |plan| == 0 then [] else [plan[0].name] + Names(plan[1..])
  }

  /** The plan's step names never depend on the tables, the load URI or the role. */
  lemma PlanNamesFixed(staging: string, final: string, loadUri: string, roleArn: string)
    ensures Names(BuildPlan(staging, final, loadUri, roleArn))
         == ["Truncate Staging", "Copy to Staging", "Create Final Table", "Merge (Upsert) Data"]
  {
  }

  /** The four step names are pairwise distinct, so a failure message names exactly one step. */
  lemma StepNamesDistinct()
    ensures TruncateName != CopyName && TruncateName != CreateName && TruncateName != MergeName
    ensures CopyName != CreateName && CopyName != MergeName && CreateName != MergeName
  {
    assert TruncateName[0] != CopyName[0] && TruncateName[0] != CreateName[0] && TruncateName[0] != MergeName[0];
    assert CopyName[1] != CreateName[1] && CopyName[0] != MergeName[0] && CreateName[0] != MergeName[0];
  }

  /** Every line of a block occurs in it. */
  lemma {:induction false} BlockHasLine(texts: seq<string>, i: nat)
    requires i < |texts|
    ensures Contains(Block(texts), texts[i])
  {
    LinesHaveLine(texts, i);
    ContainsRight("\n", Lines(texts));
    ContainsTransitive(Block(texts), Lines(texts), texts[i]);
  }

  lemma {:induction false} LinesHaveLine(texts: seq<string>, i: nat)
    requires i < |texts|
    ensures Contains(Lines(texts), texts[i])
  {
    var n := |texts| - 1;
    var front := Lines(texts[..n]);
    if i == n {
      ContainsMiddle("    ", texts[n], "\n");
      ContainsRight(front, Line(texts[n]));
      ContainsTransitive(Lines(texts), Line(texts[n]), texts[n]);
    } else {
      LinesHaveLine(texts[..n], i);
      ContainsLeft(front, Line(texts[n]));
      ContainsTransitive(Lines(texts), front, texts[i]);
    }
  }

  /** The copy step loads the staging table from the load URI, authorised by the role ARN, as JSON. */
  lemma CopyEmbedsSourceAndRole(staging: string, loadUri: string, roleArn: string)
    ensures Contains(CopySql(staging, loadUri, roleArn), "COPY " + staging)
    ensures Contains(CopySql(staging, loadUri, roleArn), "FROM '" + loadUri + "'")
    ensures Contains(CopySql(staging, loadUri, roleArn), "IAM_ROLE '" + roleArn + "'")
    ensures Contains(CopySql(staging, loadUri, roleArn), "FORMAT AS JSON 'auto';")
  {
    var texts := ["COPY " + staging, "FROM '" + loadUri + "'", "IAM_ROLE '" + roleArn + "'", "FORMAT AS JSON 'auto';"];
    BlockHasLine(texts, 0);
    BlockHasLine(texts, 1);
    BlockHasLine(texts, 2);
    BlockHasLine(texts, 3);
  }

  /**
   * `sep.join(parts)` for a separator text, grouped from the left as
   * `p0 + sep + p1 + ...` is. `Text.JoinWith` takes one separator character,
   * which its split round trip needs; the column lists here are joined with
   * the two characters ", ".
   */
  function Join(parts: seq<string>, sep: string): string
  {
    if |parts| <= 1 then (if |parts| == 0 then "" else parts[0])
    else Join(parts[..|parts| - 1], sep) + sep + parts[|parts| - 1]
  }

  /** `table.column` for each column. */
  function Qualified(table: string, columns: seq<string>): (r: seq<string>)
    ensures |r| == |columns|
    ensures forall i :: 0 <= i < |columns| ==> r[i] == Qualify(table, columns[i])
  {
    if |columns| == 0 then [] else [Qualify(table, columns[0])] + Qualified(table, columns[1..])
  }

  /** Lines `i` to `j` of a block occur in it, one after the other, as written. */
  lemma BlockHasRun(texts: seq<string>, i: nat, j: nat)
    requires i <= j <= |texts|
    ensures Contains(Block(texts), Lines(texts[i..j]))
  {
    var before, run, after := Lines(texts[..i]), Lines(texts[i..j]), Lines(texts[j..]);
    assert texts == texts[..i] + texts[i..j] + texts[j..];
    LinesAppend(texts[..i] + texts[i..j], texts[j..]);
    LinesAppend(texts[..i], texts[i..j]);
    assert Block(texts) == ("\n" + before) + run + after;
    ContainsMiddle("\n" + before, run, after);
  }

  lemma {:induction false} LinesAppend(a: seq<string>, b: seq<string>)
    ensures Lines(a + b) == Lines(a) + Lines(b)
  {
    if |b| > 0 {
      var n := |b| - 1;
      assert (a + b)[..|a + b| - 1] == a + b[..n];
      LinesAppend(a, b[..n]);
    } else {
      assert a + b == a;
    }
  }

  /**
   * The merge's ON clause is the key equality alone: it is the whole line
   * between the MERGE INTO line and the WHEN MATCHED line.
   */
  lemma MergeMatchesOnKey(final: string, staging: string)
    ensures Contains(MergeSql(final, staging), Lines([
      "MERGE INTO " + final + " USING " + staging,
      "ON " + Qualify(final, MergeKey) + " = " + Qualify(staging, MergeKey),
      "WHEN MATCHED THEN UPDATE SET"]))
  {
    BlockHasRun(MergeLines(final, staging), 0, 3);
    assert MergeLines(final, staging)[0..3] == [
      "MERGE INTO " + final + " USING " + staging,
      "ON " + Qualify(final, MergeKey) + " = " + Qualify(staging, MergeKey),
      "WHEN MATCHED THEN UPDATE SET"];
  }

  /**
   * A matched row gets exactly the non-key columns of the schema from its
   * staging row: between WHEN MATCHED and WHEN NOT MATCHED come the
   * assignments of `MergeColumns[1..]`, in schema order, and nothing else.
   */
  lemma MergeUpdatesNonKeyColumns(final: string, staging: string)
    ensures Contains(MergeSql(final, staging), Lines(
      ["WHEN MATCHED THEN UPDATE SET"]
      + Assignments(staging, MergeColumns[1..])
      + ["WHEN NOT MATCHED THEN INSERT (" + InsertColumns + ")"]))
  {
    var lines := MergeLines(final, staging);
    var set_ := Assignments(staging, MergeColumns[1..]);
    BlockHasRun(lines, 2, 8);
    assert |set_| == 4;
    assert set_[0] == lines[3] && set_[1] == lines[4] && set_[2] == lines[5] && set_[3] == lines[6];
    assert lines[2..8] == ["WHEN MATCHED THEN UPDATE SET"] + set_ + ["WHEN NOT MATCHED THEN INSERT (" + InsertColumns + ")"];
  }

  /** An unmatched row is inserted with every column of the schema, key first. */
  lemma MergeInsertsAllColumns(final: string, staging: string)
    ensures Contains(MergeSql(final, staging), "WHEN NOT MATCHED THEN INSERT (" + Join(MergeColumns, ", ") + ")")
  {
    InsertColumnList();
    BlockHasLine(MergeLines(final, staging), 7);
  }

  /** Each inserted column is valued from the staging column of the same name, in the same order. */
  lemma MergeInsertsStagingValues(final: string, staging: string)
    ensures Contains(MergeSql(final, staging), "VALUES (" + Join(Qualified(staging, MergeColumns), ", ") + ");")
  {
    InsertValuesQualified(staging);
    BlockHasLine(MergeLines(final, staging), 8);
  }

  lemma InsertColumnList()
    ensures Join(MergeColumns, ", ") == InsertColumns
  {
    var c := MergeColumns;
    assert c[..4][..3] == c[..3] && c[..3][..2] == c[..2] && c[..2][..1] == c[..1];
    assert Join(c[..2], ", ") == "id, name";
    assert Join(c[..3], ", ") == "id, name, email";
    assert Join(c[..4], ", ") == "id, name, email, age";
  }

  lemma InsertValuesQualified(staging: string)
    ensures Join(Qualified(staging, MergeColumns), ", ") == InsertValues(staging)
  {
    var q := Qualified(staging, MergeColumns);
    assert q[0] == Qualify(staging, "id") && q[1] == Qualify(staging, "name") && q[2] == Qualify(staging, "email");
    assert q[3] == Qualify(staging, "age") && q[4] == Qualify(staging, "created_at");
    assert q[..4][..3] == q[..3] && q[..3][..2] == q[..2] && q[..2][..1] == q[..1];
    assert Join(q[..1], ", ") == q[0];
    assert Join(q[..2], ", ") == q[0] + ", " + q[1];
    assert Join(q[..3], ", ") == q[0] + ", " + q[1] + ", " + q[2];
    assert Join(q[..4], ", ") == q[0] + ", " + q[1] + ", " + q[2] + ", " + q[3];
    assert q[..4] == q[..|q| - 1];
  }
}
