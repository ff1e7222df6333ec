/**
 * The statement builder of Ijanki\DBAL\Connection: insertOnDuplicateKey and
 * its helpers.  Each routine that loops or accumulates in the PHP code is a
 * method proved equal to a specification function; the specification
 * functions are what the lemmas in ConnectionProperties talk about.
 * Handing the statement to the database is not modelled: the result is the
 * SQL text and the positional parameters it would be executed with.
 */
module Connection {
  import opened Wrappers
  import opened Strings
  import opened Php

  /** The exceptions the builder raises. */
  datatype Error =
    | InvalidArgument(message: string)  // \InvalidArgumentException from getFirstRow
    | NotCountable(row: Value)          // PHP 8's TypeError from count() on a row that is not an array

  /** A prepared statement's text and the values bound to its '?' placeholders, in order. */
  datatype Statement = Statement(sql: string, params: seq<Value>)

  const EMPTY_DATA := "Empty data."
  const NOT_ARRAY_OF_ARRAY := "$data is not an array of array."

  /** Every element of the batch is an array, so count() and array_values() accept it. */
  predicate AllArrays(data: PhpArray) {
    forall i :: 0 <= i < |data| ==> data[i].val.Arr?
  }

  /** The size of each row of the batch, in batch order. */
  function Counts(data: PhpArray): (c: seq<nat>)
    requires AllArrays(data)
    ensures |c| == |data|
    ensures forall i :: 0 <= i < |c| ==> c[i] == |data[i].val.entries|
  {
    seq(|data|, i requires 0 <= i < |data| => |data[i].val.entries|)
  }

  function Sum(s: seq<nat>): nat
    decreases |s|
  {
    if s == [] then 0 else s[0] + Sum(s[1..])
  }

  // ---------------------------------------------------------------- getFirstRow

  /**
   * getFirstRow($data): element 0 of the batch, which must be an array.
   * list($first) = $data reads the entry under key 0, wherever it stands.
   */
  function GetFirstRow(data: PhpArray): (r: Result<PhpArray, Error>)
    ensures |data| == 0 ==> r == Err(InvalidArgument(EMPTY_DATA))
    ensures |data| > 0 && r.Err? ==> r == Err(InvalidArgument(NOT_ARRAY_OF_ARRAY))
    ensures r.Ok? ==> exists i :: 0 <= i < |data| && data[i] == Entry(IntKey(0), Arr(r.value))
    ensures (forall i :: 0 <= i < |data| ==> data[i].key != IntKey(0)) ==> r.Err?
    ensures |data| > 0 && data[0].key == IntKey(0) ==> (r.Ok? <==> data[0].val.Arr?)
    ensures |data| > 0 ==> (r.Ok? <==> Lookup(data, IntKey(0)).Some? && Lookup(data, IntKey(0)).value.Arr?)
    ensures r.Ok? ==> Lookup(data, IntKey(0)) == Some(Arr(r.value))
  {
    if |data| == 0 then Err(InvalidArgument(EMPTY_DATA))
    else
      match Lookup(data, IntKey(0))
      case Some(Arr(first)) => Ok(first)
      case _ => Err(InvalidArgument(NOT_ARRAY_OF_ARRAY))
  }

  // ---------------------------------------------------------------- inLineArray

  /** inLineArray($data): every row's values, row after row, each row in its own order. */
  function InLineArray(data: PhpArray): (r: seq<Value>)
    requires AllArrays(data)
    ensures |r| == Sum(Counts(data))
    decreases |data|
  {
    if data == [] then []
    else
      assert Counts(data[1..]) == Counts(data)[1..];
      ArrayValues(data[0].val.entries) + InLineArray(data[1..])
  }

  // ---------------------------------------------------------------- buildQuestionMarks

  /** n copies of s. */
  function Repeat(s: string, n: nat): (r: seq<string>)
    ensures |r| == n && forall i :: 0 <= i < n ==> r[i] == s
  {
    seq(n, _ => s)
  }

  /** The placeholder group of a row of n values: "(" then n '?' joined by ',' then ")". */
  function Placeholders(n: nat): string {
    "(" + Implode(",", Repeat("?", n)) + ")"
  }

  /** The placeholder group of each count, in order. */
  function Groups(counts: seq<nat>): seq<string> {
    seq(|counts|, i requires 0 <= i < |counts| => Placeholders(counts[i]))
  }

  /** One placeholder group per count, in order, joined by ", ". */
  function GroupsText(counts: seq<nat>): string {
    Implode(", ", Groups(counts))
  }

  /** The position of the first element of the batch that is not an array. */
  function FirstNonArray(data: PhpArray): (k: nat)
    requires !AllArrays(data)
    ensures k < |data| && !data[k].val.Arr?
    ensures forall j :: 0 <= j < k ==> data[j].val.Arr?
    decreases |data|
  {
    if !data[0].val.Arr? then 0 else 1 + FirstNonArray(data[1..])
  }

  /**
   * buildQuestionMarks($data): the VALUES groups, or the TypeError count()
   * raises at the first row that is not an array.
   */
  function QuestionMarks(data: PhpArray): Result<string, Error> {
    if AllArrays(data) then Ok(GroupsText(Counts(data)))
    else Err(NotCountable(data[FirstNonArray(data)].val))
  }

  method BuildQuestionMarks(data: PhpArray) returns (r: Result<string, Error>)
    ensures r == QuestionMarks(data)
  {
    var lines: seq<string> := [];
    for k := 0 to |data|
      invariant forall j :: 0 <= j < k ==> data[j].val.Arr?
      invariant lines == seq(k, j requires 0 <= j < k => Placeholders(|data[j].val.entries|))
    {
      var row := data[k].val;
      if !row.Arr? {
        return Err(NotCountable(row));
      }
      var count := |row.entries|;
      var questions: seq<string> := [];
      for i := 0 to count
        invariant questions == Repeat("?", i)
      {
        questions := questions + ["?"];
      }
      lines := lines + ["(" + Implode(",", questions) + ")"];
    }
    ghost var counts := Counts(data);
    assert lines == Groups(counts);
    r := Ok(Implode(", ", lines));
  }

  // ---------------------------------------------------------------- buildValuesList

  /**
   * One entry of the update list: a numeric key names a column, which is
   * set to the value being inserted; any other key is the left side of a
   * verbatim "key = value" expression.
   */
  function Assignment(e: Entry): string {
    var v := ValueString(e.val);
    if IsNumericKey(e.key) then "`" + v + "` = VALUES(`" + v + "`)"
    else KeyString(e.key) + " = " + v
  }

  /** buildValuesList($updatedColumns): one assignment per entry, in order, joined by ", ". */
  function ValuesList(columns: PhpArray): string {
    Implode(", ", seq(|columns|, i requires 0 <= i < |columns| => Assignment(columns[i])))
  }

  method BuildValuesList(columns: PhpArray) returns (r: string)
    ensures r == ValuesList(columns)
  {
    var out: seq<string> := [];
    for k := 0 to |columns|
      invariant out == seq(k, i requires 0 <= i < k => Assignment(columns[i]))
    {
      AssignmentsStep(columns, k);
      out := out + [Assignment(columns[k])];
    }
    r := Implode(", ", out);
  }

  /** The assignments of the first k + 1 entries: those of the first k, then entry k's. */
  lemma AssignmentsStep(columns: PhpArray, k: nat)
    requires k < |columns|
    ensures seq(k, i requires 0 <= i < k => Assignment(columns[i])) + [Assignment(columns[k])]
         == seq(k + 1, i requires 0 <= i < k + 1 => Assignment(columns[i]))
  {
  }

  // ---------------------------------------------------------------- buildInsertOnDuplicateSql

  /** The first row's keys as column names, in key order. */
  function ColumnNames(first: PhpArray): (names: seq<string>)
    ensures |names| == |first|
    ensures forall i :: 0 <= i < |first| ==> names[i] == KeyString(first[i].key)
  {
    seq(|first|, i requires 0 <= i < |first| => KeyString(first[i].key))
  }

  /** The column clause: the names joined by "`,`", with a backtick at each end. */
  function ColumnList(first: PhpArray): string {
    "`" + Implode("`,`", ColumnNames(first)) + "`"
  }

  /** The entries the update list is built from: null or [] means all of the first row's keys. */
  function UpdateSpec(first: PhpArray, updateColumns: Option<PhpArray>): PhpArray {
    if updateColumns.None? || updateColumns.value == [] then ArrayKeys(first)
    else updateColumns.value
  }

  /** buildInsertOnDuplicateSql: the upsert statement for a batch, or the exception raised building it. */
  function InsertSql(table: string, data: PhpArray, updateColumns: Option<PhpArray>): (r: Result<string, Error>)
    ensures r.Ok? ==> AllArrays(data) && GetFirstRow(data).Ok?
  {
    match GetFirstRow(data)
    case Err(e) => Err(e)
    case Ok(first) =>
      match QuestionMarks(data)
      case Err(e) => Err(e)
      case Ok(marks) =>
        Ok("INSERT INTO `" + table + "`(" + ColumnList(first) + ") VALUES " + marks
           + " ON DUPLICATE KEY UPDATE " + ValuesList(UpdateSpec(first, updateColumns)))
  }

  method BuildInsertOnDuplicateSql(table: string, data: PhpArray, updateColumns: Option<PhpArray>)
    returns (r: Result<string, Error>)
    ensures r == InsertSql(table, data, updateColumns)
  {
    var firstRow := GetFirstRow(data);
    if firstRow.Err? {
      return Err(firstRow.error);
    }
    var first := firstRow.value;
    var columns := "`" + Implode("`,`", ColumnNames(first)) + "`";
    var sql := "INSERT INTO `" + table + "`(" + columns + ") VALUES ";
    var marks := BuildQuestionMarks(data);
    if marks.Err? {
      return Err(marks.error);
    }
    sql := sql + marks.value;
    sql := sql + " ON DUPLICATE KEY UPDATE ";
    var updates: string;
    if updateColumns.None? || updateColumns.value == [] {
      updates := BuildValuesList(ArrayKeys(first));
    } else {
      updates := BuildValuesList(updateColumns.value);
    }
    sql := sql + updates;
    r := Ok(sql);
  }

  // ---------------------------------------------------------------- insertOnDuplicateKey

  /** The statement for an empty $data: a plain insert of no columns, table name as given. */
  function EmptyInsert(table: string): string {
    "INSERT INTO " + table + " () VALUES ()"
  }

  /** The batch insertOnDuplicateKey works on: $data itself, or [$data] when $data[0] is not set. */
  function Batch(data: PhpArray): PhpArray {
    if IsSet(data, IntKey(0)) then data else [Entry(IntKey(0), Arr(data))]
  }

  /** insertOnDuplicateKey, up to the point where the statement is handed to the database. */
  function Upsert(table: string, data: PhpArray, updateColumns: Option<PhpArray>): Result<Statement, Error> {
    if data == [] then Ok(Statement(EmptyInsert(table), []))
    else
      match InsertSql(table, Batch(data), updateColumns)
      case Err(e) => Err(e)
      case Ok(sql) => Ok(Statement(sql, InLineArray(Batch(data))))
  }

  method InsertOnDuplicateKey(table: string, data: PhpArray, updateColumns: Option<PhpArray>)
    returns (r: Result<Statement, Error>)
    ensures r == Upsert(table, data, updateColumns)
  {
    if data == [] {
      return Ok(Statement(EmptyInsert(table), []));
    }
    var rows := data;
    if !IsSet(rows, IntKey(0)) {
      rows := [Entry(IntKey(0), Arr(rows))];
    }
    var sql := BuildInsertOnDuplicateSql(table, rows, updateColumns);
    if sql.Err? {
      return Err(sql.error);
    }
    r := Ok(Statement(sql.value, InLineArray(rows)));
  }
}
