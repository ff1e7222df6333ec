/**
 * How the bound values line up with the placeholders and the column clause,
 * the exact text of the statement, and the example of the doc comment of
 * insertOnDuplicateKey.
 */
module BindingProperties {
  import opened Wrappers
  import opened Strings
  import opened Php
  import opened Connection
  import opened ConnectionProperties

  // ---------------------------------------------------------------- values against placeholders

  /**
   * inLineArray puts row i's j-th value right after the values of rows
   * 0..i-1, at index Sum(sizes of rows 0..i-1) + j. MarkOfValue shows that
   * row i's j-th placeholder has exactly that many '?' before it.
   */
  lemma {:induction false} ParamsAlignWithRows(data: PhpArray, i: nat, j: nat)
    requires AllArrays(data) && i < |data| && j < |data[i].val.entries|
    ensures Sum(Counts(data)[..i]) + j < |InLineArray(data)|
    ensures InLineArray(data)[Sum(Counts(data)[..i]) + j] == data[i].val.entries[j].val
    decreases i
  {
    var c := Counts(data);
    assert Counts(data[1..]) == c[1..];
    if i == 0 {
      assert c[..0] == [];
    } else {
      ParamsAlignWithRows(data[1..], i - 1, j);
      assert c[..i][1..] == c[1..][..i - 1];
    }
  }

  /** Every row has the first row's keys, in the same order: what the builder takes for granted. */
  predicate SameColumns(data: PhpArray, first: PhpArray) {
    && AllArrays(data)
    && forall i :: 0 <= i < |data| ==>
         && |data[i].val.entries| == |first|
         && forall j :: 0 <= j < |first| ==> data[i].val.entries[j].key == first[j].key
  }

  lemma {:induction false} SumUniform(c: seq<nat>, n: nat, i: nat)
    requires i <= |c| && forall k :: 0 <= k < |c| ==> c[k] == n
    ensures Sum(c[..i]) == i * n
    decreases i
  {
    if i > 0 {
      assert c[..i][1..] == c[1..][..i - 1];
      SumUniform(c[1..], n, i - 1);
    } else {
      assert c[..0] == [];
    }
  }

  /**
   * When every row has the first row's columns, there are rows × columns
   * bound values, and the value at index i * columns + j of the bound list
   * is what row i stores under the j-th column of the column clause.
   */
  lemma BindingMatchesColumns(data: PhpArray, first: PhpArray, i: nat, j: nat)
    requires SameColumns(data, first) && DistinctKeys(first)
    requires i < |data| && j < |first|
    ensures |InLineArray(data)| == |data| * |first|
    ensures i * |first| + j < |InLineArray(data)|
    ensures Lookup(data[i].val.entries, first[j].key) == Some(InLineArray(data)[i * |first| + j])
  {
    UniformCount(data, first);
    IndexInGrid(|data|, |first|, i, j);
    SumUniform(Counts(data), |first|, i);
    ParamsAlignWithRows(data, i, j);
    RowKeysDistinct(data, first, i);
    LookupAt(data[i].val.entries, j);
  }

  /** With every row as wide as the first, there are rows × columns values in all. */
  lemma UniformCount(data: PhpArray, first: PhpArray)
    requires SameColumns(data, first)
    ensures |InLineArray(data)| == |data| * |first|
  {
    var c := Counts(data);
    SumUniform(c, |first|, |data|);
    assert c[..|data|] == c;
  }

  /** Cell (i, j) of an m × n grid laid out row by row lies inside the grid. */
  lemma IndexInGrid(m: nat, n: nat, i: nat, j: nat)
    requires i < m && j < n
    ensures i * n + j < m * n
  {
    assert (i + 1) * n <= m * n;
  }

  /** A row with the first row's keys, in order, has distinct keys when the first row does. */
  lemma RowKeysDistinct(data: PhpArray, first: PhpArray, i: nat)
    requires SameColumns(data, first) && DistinctKeys(first) && i < |data|
    ensures DistinctKeys(data[i].val.entries)
  {
    var row := data[i].val.entries;
    forall a, b | 0 <= a < b < |row|
      ensures row[a].key != row[b].key
    {
      assert row[a].key == first[a].key && row[b].key == first[b].key;
    }
  }

  // ---------------------------------------------------------------- '?' count of the whole statement

  /** No key of the array holds a '?'. */
  predicate KeysMarkFree(a: PhpArray) {
    forall i :: 0 <= i < |a| ==> '?' !in KeyString(a[i].key)
  }

  /** The column names of the statement: the keys of the batch's first row, or none when it has none. */
  function ColumnKeys(data: PhpArray): PhpArray {
    match GetFirstRow(Batch(data))
    case Ok(first) => first
    case Err(_) => []
  }

  /** No key and no value of the update specification holds a '?'. */
  predicate EntriesMarkFree(a: PhpArray) {
    forall i :: 0 <= i < |a| ==> '?' !in KeyString(a[i].key) && '?' !in ValueString(a[i].val)
  }

  lemma ValuesListMarkFree(columns: PhpArray)
    requires EntriesMarkFree(columns)
    ensures '?' !in ValuesList(columns)
  {
    var parts := seq(|columns|, i requires 0 <= i < |columns| => Assignment(columns[i]));
    forall i | 0 <= i < |parts|
      ensures '?' !in parts[i]
    {
      AssignmentMarkFree(columns[i]);
    }
    ImplodeFree('?', ", ", parts);
  }

  lemma AssignmentMarkFree(e: Entry)
    requires '?' !in KeyString(e.key) && '?' !in ValueString(e.val)
    ensures '?' !in Assignment(e)
  {
    assert '?' !in "`" && '?' !in "` = VALUES(`" && '?' !in "`)" && '?' !in " = ";
  }

  lemma ColumnListMarkFree(first: PhpArray)
    requires KeysMarkFree(first)
    ensures '?' !in ColumnList(first)
  {
    ImplodeFree('?', "`,`", ColumnNames(first));
  }

  /**
   * Unless the table name, a column name or the update specification itself
   * holds a '?', the statement has exactly one placeholder per bound value.
   */
  lemma PlaceholdersMatchParams(table: string, data: PhpArray, updateColumns: Option<PhpArray>, st: Statement)
    requires Upsert(table, data, updateColumns) == Ok(st)
    requires '?' !in table && KeysMarkFree(ColumnKeys(data))
    requires updateColumns.Some? ==> EntriesMarkFree(updateColumns.value)
    ensures Count('?', st.sql) == |st.params|
  {
    if data != [] {
      InsertSqlMarks(table, Batch(data), updateColumns);
    }
  }

  lemma UpdateSpecMarkFree(first: PhpArray, updateColumns: Option<PhpArray>)
    requires KeysMarkFree(first)
    requires updateColumns.Some? ==> EntriesMarkFree(updateColumns.value)
    ensures EntriesMarkFree(UpdateSpec(first, updateColumns))
  {
    if updateColumns.None? || updateColumns.value == [] {
      var keys := ArrayKeys(first);
      forall i | 0 <= i < |keys|
        ensures '?' !in KeyString(keys[i].key) && '?' !in ValueString(keys[i].val)
      {
        assert ValueString(keys[i].val) == KeyString(first[i].key);
      }
    }
  }

  /** Text around a piece that holds no c adds no c. */
  lemma CountBetween(c: char, prefix: string, mid: string, suffix: string)
    requires c !in prefix && c !in suffix
    ensures Count(c, prefix + mid + suffix) == Count(c, mid)
  {
    CountConcat(c, prefix, mid);
    CountConcat(c, prefix + mid, suffix);
  }

  /** The statement's text before the groups holds no '?' when the table and the columns hold none. */
  lemma HeadMarkFree(table: string, columns: string)
    requires '?' !in table && '?' !in columns
    ensures '?' !in "INSERT INTO `" + table + "`(" + columns + ") VALUES "
  {
    assert '?' !in "INSERT INTO `" && '?' !in "`(" && '?' !in ") VALUES ";
  }

  /** The statement's text after the groups holds no '?' when the update list holds none. */
  lemma TailMarkFree(updates: string)
    requires '?' !in updates
    ensures '?' !in " ON DUPLICATE KEY UPDATE " + updates
  {
    assert '?' !in " ON DUPLICATE KEY UPDATE ";
  }

  /** Placeholders in the statement built for a batch: one per value of every row. */
  lemma InsertSqlMarks(table: string, batch: PhpArray, updateColumns: Option<PhpArray>)
    requires InsertSql(table, batch, updateColumns).Ok?
    requires '?' !in table && KeysMarkFree(GetFirstRow(batch).value)
    requires updateColumns.Some? ==> EntriesMarkFree(updateColumns.value)
    ensures Count('?', InsertSql(table, batch, updateColumns).value) == Sum(Counts(batch))
  {
    var first := GetFirstRow(batch).value;
    var spec := UpdateSpec(first, updateColumns);
    UpdateSpecMarkFree(first, updateColumns);
    ColumnListMarkFree(first);
    ValuesListMarkFree(spec);
    var marks := GroupsText(Counts(batch));
    var head := "INSERT INTO `" + table + "`(" + ColumnList(first) + ") VALUES ";
    var tail := " ON DUPLICATE KEY UPDATE " + ValuesList(spec);
    assert QuestionMarks(batch) == Ok(marks);
    assert InsertSql(table, batch, updateColumns).value == head + marks + tail;
    HeadMarkFree(table, ColumnList(first));
    TailMarkFree(ValuesList(spec));
    CountBetween('?', head, marks, tail);
    QuestionMarksCount(Counts(batch));
  }

  // ---------------------------------------------------------------- which value each '?' binds

  /** The statement's text before the VALUES groups. */
  function StatementHead(table: string, first: PhpArray): string {
    "INSERT INTO `" + table + "`(" + ColumnList(first) + ") VALUES "
  }

  /** The statement's text after the VALUES groups. */
  function StatementTail(first: PhpArray, updateColumns: Option<PhpArray>): string {
    " ON DUPLICATE KEY UPDATE " + ValuesList(UpdateSpec(first, updateColumns))
  }

  /** The statement built for a batch is its head, then the groups, then the update clause. */
  lemma InsertSqlAroundGroups(table: string, batch: PhpArray, updateColumns: Option<PhpArray>)
    requires InsertSql(table, batch, updateColumns).Ok?
    ensures InsertSql(table, batch, updateColumns).value
      == StatementHead(table, GetFirstRow(batch).value) + GroupsText(Counts(batch))
         + StatementTail(GetFirstRow(batch).value, updateColumns)
  {
    assert QuestionMarks(batch) == Ok(GroupsText(Counts(batch)));
  }

  /** The statement's text before the j-th placeholder of row i of the batch. */
  function PlaceholderPrefix(table: string, batch: PhpArray, i: nat, j: nat): string
    requires AllArrays(batch) && GetFirstRow(batch).Ok? && i < |batch|
  {
    StatementHead(table, GetFirstRow(batch).value) + GroupsBefore(Counts(batch), i) + ("(" + MarksBefore(j))
  }

  /** The '?' before row i's j-th placeholder: those of rows 0..i-1 and j of row i's own. */
  lemma PrefixMarks(table: string, first: PhpArray, counts: seq<nat>, i: nat, j: nat)
    requires '?' !in table && KeysMarkFree(first)
    requires i < |counts| && j < counts[i]
    ensures Count('?', StatementHead(table, first) + GroupsBefore(counts, i) + ("(" + MarksBefore(j))) == Sum(counts[..i]) + j
  {
    var head := StatementHead(table, first);
    ColumnListMarkFree(first);
    HeadMarkFree(table, ColumnList(first));
    GroupInGroupsText(counts, i);
    MarkInPlaceholders(counts[i], j);
    CountConcat('?', head, GroupsBefore(counts, i));
    CountConcat('?', head + GroupsBefore(counts, i), "(" + MarksBefore(j));
  }

  /**
   * In the statement built for a batch, row i's j-th placeholder is a '?'
   * with Sum(sizes of rows 0..i-1) + j '?' before it.
   */
  lemma MarkOfValue(table: string, batch: PhpArray, updateColumns: Option<PhpArray>, i: nat, j: nat)
    requires InsertSql(table, batch, updateColumns).Ok?
    requires '?' !in table && KeysMarkFree(GetFirstRow(batch).value)
    requires i < |batch| && j < |batch[i].val.entries|
    ensures PlaceholderPrefix(table, batch, i, j) + "?" <= InsertSql(table, batch, updateColumns).value
    ensures Count('?', PlaceholderPrefix(table, batch, i, j)) == Sum(Counts(batch)[..i]) + j
  {
    var first := GetFirstRow(batch).value;
    var c := Counts(batch);
    var head := StatementHead(table, first);
    var before := GroupsBefore(c, i);
    var inGroup := "(" + MarksBefore(j);
    InsertSqlAroundGroups(table, batch, updateColumns);
    var tail := StatementTail(first, updateColumns);
    GroupInGroupsText(c, i);
    MarkInPlaceholders(c[i], j);
    PrefixInside(head, before, inGroup + "?", Placeholders(c[i]), GroupsText(c), tail);
    assert head + before + (inGroup + "?") == PlaceholderPrefix(table, batch, i, j) + "?";
    PrefixMarks(table, first, c, i, j);
  }

  /**
   * Positional binding: row i's j-th placeholder is the '?' after
   * PlaceholderPrefix, with Sum(sizes of rows 0..i-1) + j '?' before it,
   * and the parameter at that index is row i's j-th value.
   */
  lemma PlaceholderBindsValue(table: string, data: PhpArray, updateColumns: Option<PhpArray>, st: Statement, i: nat, j: nat)
    requires Upsert(table, data, updateColumns) == Ok(st) && data != []
    requires '?' !in table && KeysMarkFree(ColumnKeys(data))
    requires i < |Batch(data)| && Batch(data)[i].val.Arr? && j < |Batch(data)[i].val.entries|
    ensures AllArrays(Batch(data)) && GetFirstRow(Batch(data)).Ok?
    ensures PlaceholderPrefix(table, Batch(data), i, j) + "?" <= st.sql
    ensures Count('?', PlaceholderPrefix(table, Batch(data), i, j)) == Sum(Counts(Batch(data))[..i]) + j
    ensures Sum(Counts(Batch(data))[..i]) + j < |st.params|
    ensures st.params[Sum(Counts(Batch(data))[..i]) + j] == Batch(data)[i].val.entries[j].val
  {
    var batch := Batch(data);
    var sql := InsertSql(table, batch, updateColumns);
    assert sql.Ok? && st == Statement(sql.value, InLineArray(batch));
    MarkOfValue(table, batch, updateColumns, i, j);
    ParamsAlignWithRows(batch, i, j);
  }

  /** A prefix of a group that starts right after `before` in `groups` also starts there. */
  lemma PrefixInside(head: string, before: string, mark: string, group: string, groups: string, tail: string)
    requires mark <= group && before + group <= groups
    ensures head + before + mark <= head + groups + tail
  {
    assert (before + group)[..|before + mark|] == before + mark;
    assert groups[..|before + mark|] == before + mark;
    assert (head + groups + tail)[..|head + before + mark|] == head + groups[..|before + mark|];
  }

  // ---------------------------------------------------------------- layout of the statement

  /** Each column name in backticks, joined by ",". */
  function QuotedColumns(names: seq<string>): string {
    Implode(",", seq(|names|, i requires 0 <= i < |names| => "`" + names[i] + "`"))
  }

  /** "`c` = VALUES(`c`)": column c takes the value the insert would have given it. */
  function ColumnUpdate(name: string): string {
    "`" + name + "` = VALUES(`" + name + "`)"
  }

  /** The update of each column name, joined by ", ". */
  function ColumnUpdates(names: seq<string>): string {
    Implode(", ", seq(|names|, i requires 0 <= i < |names| => ColumnUpdate(names[i])))
  }

  /** Joining by "`,`" inside a pair of backticks quotes each name on its own. */
  lemma {:induction false} ColumnListQuotesEachName(names: seq<string>)
    requires |names| > 0
    ensures "`" + Implode("`,`", names) + "`" == QuotedColumns(names)
    decreases |names|
  {
    var quoted := seq(|names|, i requires 0 <= i < |names| => "`" + names[i] + "`");
    if |names| == 1 {
      assert quoted == ["`" + names[0] + "`"];
    } else {
      var init := names[..|names| - 1];
      var last := names[|names| - 1];
      ColumnListQuotesEachName(init);
      assert quoted[..|quoted| - 1] == seq(|init|, i requires 0 <= i < |init| => "`" + init[i] + "`");
      calc {
        "`" + Implode("`,`", names) + "`";
        "`" + (Implode("`,`", init) + "`,`" + last) + "`";
        ("`" + Implode("`,`", init) + "`") + "," + ("`" + last + "`");
        QuotedColumns(init) + "," + quoted[|quoted| - 1];
        QuotedColumns(names);
      }
    }
  }

  /** The default update list names every column of the first row, in key order. */
  lemma DefaultUpdatesAllColumns(first: PhpArray)
    ensures ValuesList(ArrayKeys(first)) == ColumnUpdates(ColumnNames(first))
  {
    var keys := ArrayKeys(first);
    var names := ColumnNames(first);
    assert seq(|keys|, i requires 0 <= i < |keys| => Assignment(keys[i]))
        == seq(|names|, i requires 0 <= i < |names| => ColumnUpdate(names[i]));
  }

  /**
   * The statement is "INSERT INTO `table`(columns) VALUES groups ON DUPLICATE
   * KEY UPDATE updates": the first row's keys quoted one by one, one group
   * per row, and the update list from all the first row's keys unless an
   * update specification is given.
   */
  lemma StatementLayout(table: string, data: PhpArray, updateColumns: Option<PhpArray>, first: PhpArray)
    requires GetFirstRow(data) == Ok(first) && AllArrays(data)
    ensures InsertSql(table, data, updateColumns) ==
      Ok("INSERT INTO `" + table + "`("
         + (if |first| == 0 then "``" else QuotedColumns(ColumnNames(first)))
         + ") VALUES " + GroupsText(Counts(data)) + " ON DUPLICATE KEY UPDATE "
         + (if updateColumns.None? || updateColumns.value == [] then ColumnUpdates(ColumnNames(first))
            else ValuesList(updateColumns.value)))
  {
    if |first| > 0 {
      ColumnListQuotesEachName(ColumnNames(first));
    } else {
      assert ColumnNames(first) == [];
      assert ColumnList(first) == "``";
    }
    DefaultUpdatesAllColumns(first);
    assert QuestionMarks(data) == Ok(GroupsText(Counts(data)));
  }

  /** A plain list of names updates each named column, and only those, in list order. */
  lemma NamedColumnsUpdate(names: seq<string>)
    ensures ValuesList(List(seq(|names|, i requires 0 <= i < |names| => Str(names[i])))) == ColumnUpdates(names)
  {
    var columns := List(seq(|names|, i requires 0 <= i < |names| => Str(names[i])));
    assert seq(|columns|, i requires 0 <= i < |columns| => Assignment(columns[i]))
        == seq(|names|, i requires 0 <= i < |names| => ColumnUpdate(names[i]));
  }

  /** Entries under string keys are emitted as "key = expression", both sides verbatim. */
  lemma ExpressionsVerbatim(columns: PhpArray)
    requires forall i :: 0 <= i < |columns| ==> columns[i].key.StrKey?
    ensures ValuesList(columns) ==
      Implode(", ", seq(|columns|, i requires 0 <= i < |columns| => columns[i].key.s + " = " + ValueString(columns[i].val)))
  {
    assert seq(|columns|, i requires 0 <= i < |columns| => Assignment(columns[i]))
        == seq(|columns|, i requires 0 <= i < |columns| => columns[i].key.s + " = " + ValueString(columns[i].val));
  }

  // ---------------------------------------------------------------- the documented example

  function ExampleRow(id: int, name: string): PhpArray {
    [Entry(StrKey("id"), Int(id)), Entry(StrKey("name"), Str(name))]
  }

  lemma ExampleColumns()
    ensures QuotedColumns(["id", "name"]) == "`id`,`name`"
  {
    var names := ["id", "name"];
    var quoted := seq(|names|, i requires 0 <= i < |names| => "`" + names[i] + "`");
    assert quoted[0] == "`" + "id" + "`" == "`id`";
    assert quoted[1] == "`" + "name" + "`" == "`name`";
    assert quoted == ["`id`", "`name`"];
    assert quoted[..1] == ["`id`"];
    assert Implode(",", quoted) == Implode(",", quoted[..1]) + "," + "`name`";
  }

  lemma ExampleGroups()
    ensures GroupsText([2, 2]) == "(?,?), (?,?)"
  {
    assert Repeat("?", 2) == ["?", "?"];
    assert Repeat("?", 2)[..1] == ["?"];
    assert Implode(",", Repeat("?", 2)) == "?,?";
    assert Placeholders(2) == "(?,?)";
    var counts: seq<nat> := [2, 2];
    var groups := seq(|counts|, i requires 0 <= i < |counts| => Placeholders(counts[i]));
    assert groups == ["(?,?)", "(?,?)"];
    assert groups[..1] == ["(?,?)"];
    assert Implode(", ", groups) == Implode(", ", groups[..1]) + ", " + "(?,?)";
  }

  lemma ExampleUpdateId()
    ensures ColumnUpdate("id") == "`id` = VALUES(`id`)"
  {
  }

  lemma ExampleUpdateName()
    ensures ColumnUpdate("name") == "`name` = VALUES(`name`)"
  {
  }

  lemma ExampleUpdates()
    ensures ColumnUpdates(["id", "name"]) == "`id` = VALUES(`id`)" + ", " + "`name` = VALUES(`name`)"
  {
    var names := ["id", "name"];
    var updates := seq(|names|, i requires 0 <= i < |names| => ColumnUpdate(names[i]));
    assert updates == [ColumnUpdate("id")] + [ColumnUpdate("name")];
    ImplodeCons(", ", ColumnUpdate("id"), [ColumnUpdate("name")]);
    ExampleUpdateId();
    ExampleUpdateName();
  }

  /** The two-row batch of the doc comment of insertOnDuplicateKey. */
  function ExampleBatch(): PhpArray {
    [Entry(IntKey(0), Arr(ExampleRow(1, "John"))), Entry(IntKey(1), Arr(ExampleRow(2, "Mike")))]
  }

  lemma ExampleSql()
    ensures InsertSql("t", ExampleBatch(), None)
         == Ok("INSERT INTO `t`(" + "`id`,`name`" + ") VALUES " + "(?,?), (?,?)"
               + " ON DUPLICATE KEY UPDATE " + ("`id` = VALUES(`id`)" + ", " + "`name` = VALUES(`name`)"))
  {
    var row0 := ExampleRow(1, "John");
    var data := ExampleBatch();
    assert GetFirstRow(data) == Ok(row0);
    assert ColumnNames(row0) == ["id", "name"];
    assert Counts(data) == [2, 2];
    StatementLayout("t", data, None, row0);
    assert InsertSql("t", data, None)
        == Ok("INSERT INTO `" + "t" + "`(" + QuotedColumns(["id", "name"]) + ") VALUES " + GroupsText([2, 2])
              + " ON DUPLICATE KEY UPDATE " + ColumnUpdates(["id", "name"]));
    ExampleColumns();
    ExampleGroups();
    ExampleUpdates();
    ExampleHead();
  }

  lemma ExampleHead()
    ensures "INSERT INTO `" + "t" + "`(" == "INSERT INTO `t`("
  {
  }

  lemma ExampleParams()
    ensures AllArrays(ExampleBatch())
    ensures InLineArray(ExampleBatch()) == [Int(1), Str("John"), Int(2), Str("Mike")]
  {
    var data := ExampleBatch();
    assert InLineArray(data[1..]) == [Int(2), Str("Mike")];
  }

  /** The example of the doc comment of insertOnDuplicateKey, with the default update list. */
  lemma DocBlockExample()
    ensures Upsert("t", [Entry(IntKey(0), Arr(ExampleRow(1, "John"))), Entry(IntKey(1), Arr(ExampleRow(2, "Mike")))], None)
         == Ok(Statement("INSERT INTO `t`(" + "`id`,`name`" + ") VALUES " + "(?,?), (?,?)"
                         + " ON DUPLICATE KEY UPDATE " + ("`id` = VALUES(`id`)" + ", " + "`name` = VALUES(`name`)"),
                         [Int(1), Str("John"), Int(2), Str("Mike")]))
  {
    assert IsSet(ExampleBatch(), IntKey(0));
    ExampleSql();
    ExampleParams();
  }
}
