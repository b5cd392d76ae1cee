/**
 * The stand-alone JSON-to-Parquet converter (parquet_convertor.py, lines
 * 6-33). The loaded JSON is made a list of records (a single object becomes
 * a one-element list), turned into a table with one column per field, and
 * the three known columns are cast in place, each only if the table has it:
 * `id` and `age` to 32-bit integers, `created_at` to timestamps. Every other
 * column is left as it is. Any failure while loading, casting or writing
 * ends the process with status 1.
 *
 * The casts themselves (`astype('int32')`, `pd.to_datetime`) are parameters
 * applied cell by cell; the table construction follows pandas for a list of
 * records, with a missing field read as null.
 */
module ParquetConvertor {
  import opened Wrappers
  import opened JsonValue

  type Record = map<string, Json>
  type Column = seq<Json>
  type Table = map<string, Column>

  /** A cast of one cell, or the error that makes the whole cast fail. */
  type Coercion = Json -> Result<Json, string>

  const IdColumn: string := "id"
  const AgeColumn: string := "age"
  const CreatedAtColumn: string := "created_at"

  /** The columns the converter may cast. */
  const RuleColumns: set<string> := {IdColumn, AgeColumn, CreatedAtColumn}

  /** Every field name of every record. */
  function FieldNames(records: seq<Record>): set<string>
  {
    set i, c | 0 <= i < |records| && c in records[i] :: c
  }

  /** One column of the table built from `records`: the field's value per record, null where absent. */
  function ColumnOf(records: seq<Record>, name: string): Column
  {
    seq(|records|, i requires 0 <= i < |records| => if name in records[i] then records[i][name] else JNull)
  }

  /**
   * `pd.DataFrame(records)`: a column exactly for each field some record
   * has; every column has one cell per record, in record order, holding
   * that record's field or null where the record lacks it.
   */
  function FrameOf(records: seq<Record>): (t: Table)
    ensures forall c :: c in t <==> exists i :: 0 <= i < |records| && c in records[i]
    ensures forall c :: c in t ==> |t[c]| == |records|
    ensures forall c, i :: c in t && 0 <= i < |records| ==>
      t[c][i] == if c in records[i] then records[i][c] else JNull
  {
    map c | c in FieldNames(records) :: ColumnOf(records, c)
  }

  /** `if isinstance(data, dict): data = [data]` */
  function Wrapped(data: Json): (r: Json)
    ensures r.JArray? <==> data.JObject? || data.JArray?
    ensures data.JObject? ==> r.items == [data]
    ensures !data.JObject? ==> r == data
  {
    if data.JObject? then JArray([data]) else data
  }

  /** The records of a list of JSON objects; pandas is not modelled on any other shape. */
  function RecordsOf(data: Json): (r: Option<seq<Record>>)
    ensures r.Some? <==> data.JArray? && forall i :: 0 <= i < |data.items| ==> data.items[i].JObject?
    ensures r.Some? ==> |r.value| == |data.items|
    ensures r.Some? ==> forall i :: 0 <= i < |data.items| ==> data.items[i] == JObject(r.value[i])
  {
    if data.JArray? && forall i :: 0 <= i < |data.items| ==> data.items[i].JObject? then
      Some(seq(|data.items|, i requires 0 <= i < |data.items| && data.items[i].JObject? => data.items[i].fields))
    else None
  }

  /** Casts every cell of a column; the first cell that cannot be cast makes the cast fail. */
  function CastCells(col: Column, cast: Coercion): (r: Result<Column, string>)
    ensures r.Success? ==> |r.value| == |col| && forall i :: 0 <= i < |col| ==> cast(col[i]) == Success(r.value[i])
    ensures r.Failure? <==> exists i :: 0 <= i < |col| && cast(col[i]).Failure?
  {
    if |col| == 0 then Success([])
    else
      match cast(col[0])
      case Failure(e) => Failure(e)
      case Success(v) =>
        match CastCells(col[1..], cast)
        case Failure(e) =>
          assert forall i :: 1 <= i < |col| ==> col[i] == col[1..][i - 1];
          Failure(e)
        case Success(vs) =>
          assert forall i :: 1 <= i < |col| ==> col[i] == col[1..][i - 1];
          Success([v] + vs)
  }

  /** A table as pandas holds it: named columns of one common height. */
  class DataFrame {
    var columns: Table
    var height: nat

    ghost predicate Valid()
      reads this
    {
      forall c :: c in columns ==> |columns[c]| == height
    }

    /** `pd.DataFrame(records)` */
    constructor FromRecords(records: seq<Record>)
      ensures Valid()
      ensures columns == FrameOf(records) && height == |records|
    {
      columns := FrameOf(records);
      height := |records|;
    }

    /** `name in df.columns` */
    function Has(name: string): bool
      reads this
    {
      name in columns
    }

    /** `df[name] = <cast of df[name]>`; on failure the frame is left as it was. */
    method CastColumn(name: string, cast: Coercion) returns (error: Option<string>)
      requires Valid() && name in columns
      modifies this
      ensures Valid() && height == old(height)
      ensures var r := CastCells(old(columns)[name], cast);
        && (r.Success? ==> error == None && columns == old(columns)[name := r.value])
        && (r.Failure? ==> error == Some(r.error) && columns == old(columns))
    {
      var r := CastCells(columns[name], cast);
      if r.Failure? {
        return Some(r.error);
      }
      columns := columns[name := r.value];
      error := None;
    }
  }

  /** One presence-gated rule: cast the column when the table has it, otherwise do nothing. */
  function ApplyRule(t: Table, name: string, cast: Coercion): Result<Table, string>
  {
    if name !in t then Success(t)
    else
      match CastCells(t[name], cast)
      case Failure(e) => Failure(e)
      case Success(col) => Success(t[name := col])
  }

  /** The table the converter writes: the three rules applied in order to the loaded records. */
  function Converted(loaded: Result<Json, string>, toInt32: Coercion, toTimestamp: Coercion): Result<Table, string>
  {
    match loaded
    case Failure(e) => Failure(e)
    case Success(data) =>
      match RecordsOf(Wrapped(data))
      case None => Failure("DataFrame constructor not properly called")
      case Some(records) =>
        match ApplyRule(FrameOf(records), IdColumn, toInt32)
        case Failure(e) => Failure(e)
        case Success(t1) =>
          match ApplyRule(t1, AgeColumn, toInt32)
          case Failure(e) => Failure(e)
          case Success(t2) => ApplyRule(t2, CreatedAtColumn, toTimestamp)
  }

  /** The process's exit status and, on success, the table handed to `to_parquet`. */
  datatype Conversion = Conversion(exitStatus: int, written: Option<Table>)

  /**
   * `convert_to_parquet`: load, wrap, build the frame, apply the three gated
   * casts in place, write. `loaded` is what `json.load` gave (or the error
   * opening or parsing the file raised); `write` is `to_parquet`, returning
   * the error it raised, if any.
   */
  method ConvertToParquet(loaded: Result<Json, string>, toInt32: Coercion, toTimestamp: Coercion,
                          write: Table -> Option<string>)
    returns (c: Conversion)
    ensures c.exitStatus == 0 || c.exitStatus == 1
    ensures c.exitStatus == 0 <==>
      Converted(loaded, toInt32, toTimestamp).Success? && write(Converted(loaded, toInt32, toTimestamp).value).None?
    ensures c.exitStatus == 0 ==> c.written == Some(Converted(loaded, toInt32, toTimestamp).value)
    ensures c.exitStatus == 1 ==> c.written == None
    ensures c.exitStatus == 0 ==>
      && loaded.Success? && RecordsOf(Wrapped(loaded.value)).Some? && c.written.Some?
      && forall col :: col in c.written.value ==> |c.written.value[col]| == |RecordsOf(Wrapped(loaded.value)).value|
  {
    if loaded.Failure? {
      return Conversion(1, None);
    }
    var data := loaded.value;
    if data.JObject? {
      data := JArray([data]);
    }
    assert data == Wrapped(loaded.value);
    var records := RecordsOf(data);
    if records.None? {
      return Conversion(1, None);
    }
    var df := new DataFrame.FromRecords(records.value);
    ghost var t1 := ApplyRule(df.columns, IdColumn, toInt32);
    if df.Has(IdColumn) {
      var error := df.CastColumn(IdColumn, toInt32);
      if error.Some? {
        return Conversion(1, None);
      }
    }
    assert df.columns == t1.value;
    ghost var t2 := ApplyRule(df.columns, AgeColumn, toInt32);
    if df.Has(AgeColumn) {
      var error := df.CastColumn(AgeColumn, toInt32);
      if error.Some? {
        return Conversion(1, None);
      }
    }
    assert df.columns == t2.value;
    ghost var t3 := ApplyRule(df.columns, CreatedAtColumn, toTimestamp);
    if df.Has(CreatedAtColumn) {
      var error := df.CastColumn(CreatedAtColumn, toTimestamp);
      if error.Some? {
        return Conversion(1, None);
      }
    }
    assert df.columns == t3.value;
    var writeError := write(df.columns);
    if writeError.Some? {
      return Conversion(1, None);
    }
    return Conversion(0, Some(df.columns));
  }

  /**
   * One gated rule fails exactly when its column is present and some cell
   * cannot be cast; when it succeeds it keeps the column set, replaces only
   * its own column, and only if that column is present.
   */
  lemma ApplyRuleEffect(t: Table, name: string, cast: Coercion)
    ensures ApplyRule(t, name, cast).Failure? <==> name in t && CastCells(t[name], cast).Failure?
    ensures var r := ApplyRule(t, name, cast);
      r.Success? ==>
        && r.value.Keys == t.Keys
        && (forall c :: c in t && c != name ==> r.value[c] == t[c])
        && (name in t ==> r.value[name] == CastCells(t[name], cast).value)
  {
  }

  /** A single JSON object is read as a table of one row holding its fields; a list is read element by element. */
  lemma {:induction false} SingleObjectIsOneRow(fields: Record)
    ensures RecordsOf(Wrapped(JObject(fields))) == Some([fields])
    ensures FrameOf([fields]).Keys == fields.Keys
    ensures forall c :: c in fields ==> FrameOf([fields])[c] == [fields[c]]
  {
    var single := [fields];
    var items := [JObject(fields)];
    assert items[0].JObject?;
    var rs := seq(|items|, i requires 0 <= i < |items| && items[i].JObject? => items[i].fields);
    assert rs == single;
    forall c | c in fields ensures c in FieldNames(single) {
      assert single[0] == fields;
    }
  }

  /** The casts never add or drop a column, and never touch a column other than `id`, `age` and `created_at`. */
  lemma ConvertedKeepsOtherColumns(data: Json, records: seq<Record>, toInt32: Coercion, toTimestamp: Coercion)
    requires RecordsOf(Wrapped(data)) == Some(records)
    requires Converted(Success(data), toInt32, toTimestamp).Success?
    ensures var frame := FrameOf(records);
      var out := Converted(Success(data), toInt32, toTimestamp).value;
      && out.Keys == frame.Keys
      && (forall c :: c in frame && c !in RuleColumns ==> out[c] == frame[c])
  {
    var frame := FrameOf(records);
    ApplyRuleEffect(frame, IdColumn, toInt32);
    var t1 := ApplyRule(frame, IdColumn, toInt32).value;
    ApplyRuleEffect(t1, AgeColumn, toInt32);
    var t2 := ApplyRule(t1, AgeColumn, toInt32).value;
    ApplyRuleEffect(t2, CreatedAtColumn, toTimestamp);
  }

  /**
   * Each of `id`, `age` and `created_at` is cast exactly when the table has
   * it: `id` and `age` with the 32-bit integer cast, `created_at` with the
   * timestamp cast (an absent one stays absent, as the column set is kept).
   */
  lemma ConvertedCastsPresentRuleColumns(data: Json, records: seq<Record>, toInt32: Coercion, toTimestamp: Coercion)
    requires RecordsOf(Wrapped(data)) == Some(records)
    requires Converted(Success(data), toInt32, toTimestamp).Success?
    ensures var frame := FrameOf(records);
      var out := Converted(Success(data), toInt32, toTimestamp).value;
      && (IdColumn in frame ==> out[IdColumn] == CastCells(frame[IdColumn], toInt32).value)
      && (AgeColumn in frame ==> out[AgeColumn] == CastCells(frame[AgeColumn], toInt32).value)
      && (CreatedAtColumn in frame ==> out[CreatedAtColumn] == CastCells(frame[CreatedAtColumn], toTimestamp).value)
  {
    var frame := FrameOf(records);
    ApplyRuleEffect(frame, IdColumn, toInt32);
    var t1 := ApplyRule(frame, IdColumn, toInt32).value;
    ApplyRuleEffect(t1, AgeColumn, toInt32);
    var t2 := ApplyRule(t1, AgeColumn, toInt32).value;
    ApplyRuleEffect(t2, CreatedAtColumn, toTimestamp);
    assert Converted(Success(data), toInt32, toTimestamp) == ApplyRule(t2, CreatedAtColumn, toTimestamp);
  }

  /**
   * Conversion of well-shaped records fails only because of a rule whose
   * column is present: a column named by a rule but absent from every record
   * raises nothing.
   */
  lemma ConvertedFailsOnlyOnPresentColumns(data: Json, records: seq<Record>, toInt32: Coercion, toTimestamp: Coercion)
    requires RecordsOf(Wrapped(data)) == Some(records)
    ensures var frame := FrameOf(records);
      Converted(Success(data), toInt32, toTimestamp).Failure? <==>
        || (IdColumn in frame && CastCells(frame[IdColumn], toInt32).Failure?)
        || (AgeColumn in frame && CastCells(frame[AgeColumn], toInt32).Failure?)
        || (CreatedAtColumn in frame && CastCells(frame[CreatedAtColumn], toTimestamp).Failure?)
  {
    var frame := FrameOf(records);
    ApplyRuleEffect(frame, IdColumn, toInt32);
    if ApplyRule(frame, IdColumn, toInt32).Success? {
      var t1 := ApplyRule(frame, IdColumn, toInt32).value;
      ApplyRuleEffect(t1, AgeColumn, toInt32);
      if ApplyRule(t1, AgeColumn, toInt32).Success? {
        var t2 := ApplyRule(t1, AgeColumn, toInt32).value;
        ApplyRuleEffect(t2, CreatedAtColumn, toTimestamp);
      }
    }
  }

  /** A table without any of the three rule columns is written exactly as read. */
  lemma NoRuleColumnsPassThrough(data: Json, records: seq<Record>, toInt32: Coercion, toTimestamp: Coercion)
    requires RecordsOf(Wrapped(data)) == Some(records)
    requires forall c :: c in RuleColumns ==> c !in FieldNames(records)
    ensures Converted(Success(data), toInt32, toTimestamp) == Success(FrameOf(records))
  {
  }
}
