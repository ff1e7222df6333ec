/**
 * What insertOnDuplicateKey promises, proved about the specification
 * functions of module Connection: the empty and flat-row cases, the shape
 * of the statement, and that the '?' placeholders line up with the bound
 * values.
 */
module ConnectionProperties {
  import opened Wrappers
  import opened Strings
  import opened Php
  import opened Connection

  // ---------------------------------------------------------------- insertOnDuplicateKey

  /** An empty $data gives a plain insert of no columns, with the table name as given, and no values. */
  lemma EmptyDataStatement(table: string, updateColumns: Option<PhpArray>)
    ensures Upsert(table, [], updateColumns) == Ok(Statement("INSERT INTO " + table + " () VALUES ()", []))
  {
  }

  /** A single row-map (no element 0 set) behaves exactly as the one-row batch [row]. */
  lemma FlatRowIsWrapped(table: string, row: PhpArray, updateColumns: Option<PhpArray>)
    requires row != [] && !IsSet(row, IntKey(0))
    ensures Upsert(table, row, updateColumns) == Upsert(table, [Entry(IntKey(0), Arr(row))], updateColumns)
  {
    assert IsSet([Entry(IntKey(0), Arr(row))], IntKey(0));
  }

  /**
   * A flat row whose key 0, wherever it stands, holds a scalar is not
   * wrapped: it is taken as a batch whose element 0 is not an array, and
   * rejected.
   */
  lemma PositionalRowIsRejected(table: string, row: PhpArray, updateColumns: Option<PhpArray>)
    requires row != [] && Lookup(row, IntKey(0)).Some?
    requires Lookup(row, IntKey(0)).value != Null && !Lookup(row, IntKey(0)).value.Arr?
    ensures Upsert(table, row, updateColumns) == Err(InvalidArgument(NOT_ARRAY_OF_ARRAY))
  {
    assert IsSet(row, IntKey(0));
  }

  /** A batch whose element 0 is set is used as it is. */
  lemma BatchIsUsedAsGiven(table: string, data: PhpArray, updateColumns: Option<PhpArray>)
    requires IsSet(data, IntKey(0))
    ensures Batch(data) == data
    ensures data != [] && Upsert(table, data, updateColumns).Ok? ==>
      Upsert(table, data, updateColumns).value.params == InLineArray(data)
  {
  }

  // ---------------------------------------------------------------- counting characters

  lemma {:induction false} CountAllConcat(c: char, a: seq<string>, b: seq<string>)
    ensures CountAll(c, a + b) == CountAll(c, a) + CountAll(c, b)
    decreases |b|
  {
    if |b| == 0 {
      assert a + b == a;
    } else {
      assert (a + b)[..|a + b| - 1] == a + b[..|b| - 1];
      CountAllConcat(c, a, b[..|b| - 1]);
    }
  }

  lemma {:induction false} CountAllRepeat(c: char, s: string, n: nat)
    ensures c !in s ==> CountAll(c, Repeat(s, n)) == 0
    ensures s == [c] ==> CountAll(c, Repeat(s, n)) == n
    decreases n
  {
    if n > 0 {
      assert Repeat(s, n)[..n - 1] == Repeat(s, n - 1);
      CountAllRepeat(c, s, n - 1);
    }
  }

  /** A placeholder group for n values holds n '?' and one '('. */
  lemma PlaceholdersCount(n: nat)
    ensures Count('?', Placeholders(n)) == n
    ensures Count('(', Placeholders(n)) == 1
  {
    var inner := Implode(",", Repeat("?", n));
    CountImplode('?', ",", Repeat("?", n));
    CountImplode('(', ",", Repeat("?", n));
    CountAllRepeat('?', "?", n);
    CountAllRepeat('(', "?", n);
    CountConcat('?', "(", inner);
    CountConcat('?', "(" + inner, ")");
    CountConcat('(', "(", inner);
    CountConcat('(', "(" + inner, ")");
  }

  lemma {:induction false} GroupsCount(counts: seq<nat>)
    ensures CountAll('?', Groups(counts)) == Sum(counts)
    ensures CountAll('(', Groups(counts)) == |counts|
    decreases |counts|
  {
    if |counts| > 0 {
      var init := counts[..|counts| - 1];
      var last := counts[|counts| - 1];
      assert Groups(counts) == Groups(init) + [Placeholders(last)];
      GroupsCount(init);
      CountAllConcat('?', Groups(init), [Placeholders(last)]);
      CountAllConcat('(', Groups(init), [Placeholders(last)]);
      assert CountAll('?', [Placeholders(last)]) == Count('?', Placeholders(last)) by {
        assert [Placeholders(last)][..0] == [];
      }
      assert CountAll('(', [Placeholders(last)]) == Count('(', Placeholders(last)) by {
        assert [Placeholders(last)][..0] == [];
      }
      PlaceholdersCount(last);
      SumSnoc(init, last);
      assert init + [last] == counts;
    }
  }

  lemma {:induction false} SumSnoc(s: seq<nat>, x: nat)
    ensures Sum(s + [x]) == Sum(s) + x
    decreases |s|
  {
    if s == [] {
      assert [] + [x] == [x];
      assert [x][1..] == [];
    } else {
      assert (s + [x])[1..] == s[1..] + [x];
      SumSnoc(s[1..], x);
    }
  }

  /**
   * buildQuestionMarks emits one group per row and, in all, as many '?' as
   * the rows have values.
   */
  lemma {:induction false} QuestionMarksCount(counts: seq<nat>)
    ensures Count('?', GroupsText(counts)) == Sum(counts)
    ensures Count('(', GroupsText(counts)) == |counts|
  {
    CountImplode('?', ", ", Groups(counts));
    CountImplode('(', ", ", Groups(counts));
    GroupsCount(counts);
  }

  // ---------------------------------------------------------------- where each '?' sits

  /** The text of a placeholder group before its j-th '?': "?," once per earlier value. */
  function MarksBefore(j: nat): string {
    if j == 0 then "" else Implode(",", Repeat("?", j)) + ","
  }

  /** The groups text before the group of row i: the earlier groups and their separator. */
  function GroupsBefore(counts: seq<nat>, i: nat): string
    requires i <= |counts|
  {
    if i == 0 then "" else GroupsText(counts[..i]) + ", "
  }

  /** In the group of n values, the j-th '?' comes right after "(" and j earlier '?'. */
  lemma MarkInPlaceholders(n: nat, j: nat)
    requires j < n
    ensures "(" + MarksBefore(j) + "?" <= Placeholders(n)
    ensures Count('?', "(" + MarksBefore(j)) == j
  {
    MarksBeforeInMarks(n, j);
    var inner := Implode(",", Repeat("?", n));
    assert Placeholders(n) == "(" + inner + ")";
    assert ("(" + inner + ")")[..|"(" + MarksBefore(j) + "?"|] == "(" + MarksBefore(j) + "?";
    MarksBeforeCount(j);
    CountConcat('?', "(", MarksBefore(j));
  }

  /** The '?' of a group, joined by ",", have j of them and their commas before the j-th. */
  lemma MarksBeforeInMarks(n: nat, j: nat)
    requires j < n
    ensures MarksBefore(j) + "?" <= Implode(",", Repeat("?", n))
  {
    if j == 0 {
      ImplodeStartsWithFirst(",", Repeat("?", n));
    } else {
      var rest := Implode(",", Repeat("?", n - j));
      assert Repeat("?", n) == Repeat("?", j) + Repeat("?", n - j);
      ImplodeConcat(",", Repeat("?", j), Repeat("?", n - j));
      ImplodeStartsWithFirst(",", Repeat("?", n - j));
      assert Implode(",", Repeat("?", n)) == MarksBefore(j) + rest;
      assert (MarksBefore(j) + rest)[..|MarksBefore(j) + "?"|] == MarksBefore(j) + "?";
    }
  }

  lemma MarksBeforeCount(j: nat)
    ensures Count('?', MarksBefore(j)) == j
  {
    if j > 0 {
      CountImplode('?', ",", Repeat("?", j));
      CountAllRepeat('?', "?", j);
      CountConcat('?', Implode(",", Repeat("?", j)), ",");
    }
  }

  /** The groups text of rows 0..i-1, then ", ", then the groups text of the rows from i on. */
  lemma GroupsTextSplit(counts: seq<nat>, i: nat)
    requires 0 < i < |counts|
    ensures GroupsText(counts) == GroupsText(counts[..i]) + ", " + GroupsText(counts[i..])
  {
    assert Groups(counts) == Groups(counts[..i]) + Groups(counts[i..]);
    ImplodeConcat(", ", Groups(counts[..i]), Groups(counts[i..]));
  }

  /** Row i's group comes right after the groups of rows 0..i-1, which hold Sum(counts[..i]) '?'. */
  lemma GroupInGroupsText(counts: seq<nat>, i: nat)
    requires i < |counts|
    ensures GroupsBefore(counts, i) + Placeholders(counts[i]) <= GroupsText(counts)
    ensures Count('?', GroupsBefore(counts, i)) == Sum(counts[..i])
  {
    if i == 0 {
      ImplodeStartsWithFirst(", ", Groups(counts));
      assert counts[..0] == [];
      assert GroupsBefore(counts, i) + Placeholders(counts[i]) == Placeholders(counts[0]);
    } else {
      var later := GroupsText(counts[i..]);
      GroupsTextSplit(counts, i);
      ImplodeStartsWithFirst(", ", Groups(counts[i..]));
      assert Placeholders(counts[i]) <= later;
      var before := GroupsBefore(counts, i);
      assert GroupsText(counts) == before + later;
      assert (before + later)[..|before + Placeholders(counts[i])|] == before + Placeholders(counts[i]);
      QuestionMarksCount(counts[..i]);
      assert '?' !in ", ";
      CountConcat('?', GroupsText(counts[..i]), ", ");
    }
  }

  // ---------------------------------------------------------------- reading the groups back

  /** Reads the rest of a group after "(?": ",?" pairs up to ")"; n counts the '?' read so far. */
  function ReadMarks(s: string, n: nat): (r: Option<(nat, string)>)
    ensures r.Some? ==> |r.value.1| < |s|
    decreases |s|
  {
    if |s| >= 1 && s[0] == ')' then Some((n, s[1..]))
    else if |s| >= 2 && s[0] == ',' && s[1] == '?' then ReadMarks(s[2..], n + 1)
    else None
  }

  /** Reads one placeholder group off the front of s: its number of '?' and what follows it. */
  function ReadGroup(s: string): (r: Option<(nat, string)>)
    ensures r.Some? ==> |r.value.1| < |s|
  {
    if |s| >= 2 && s[0] == '(' && s[1] == ')' then Some((0, s[2..]))
    else if |s| >= 2 && s[0] == '(' && s[1] == '?' then ReadMarks(s[2..], 1)
    else None
  }

  /** Reads groups separated by ", " until s is used up. */
  function ReadGroups(s: string): Option<seq<nat>>
    decreases |s|
  {
    match ReadGroup(s)
    case None => None
    case Some((n, rest)) =>
      if rest == [] then Some([n])
      else if |rest| >= 2 && rest[0] == ',' && rest[1] == ' ' then
        match ReadGroups(rest[2..])
        case None => None
        case Some(more) => Some([n] + more)
      else None
  }

  /** The VALUES groups read back as the number of placeholders in each group. */
  function ParsePlaceholders(s: string): Option<seq<nat>> {
    if s == [] then Some([]) else ReadGroups(s)
  }

  /** k repetitions of ",?". */
  function MoreMarks(k: nat): string
    decreases k
  {
    if k == 0 then "" else MoreMarks(k - 1) + ",?"
  }

  lemma {:induction false} MoreMarksCons(k: nat)
    requires k > 0
    ensures MoreMarks(k) == ",?" + MoreMarks(k - 1)
    decreases k
  {
    if k > 1 {
      MoreMarksCons(k - 1);
    }
  }

  lemma {:induction false} ImplodeMarks(n: nat)
    requires n > 0
    ensures Implode(",", Repeat("?", n)) == "?" + MoreMarks(n - 1)
    decreases n
  {
    if n > 1 {
      assert Repeat("?", n)[..n - 1] == Repeat("?", n - 1);
      ImplodeMarks(n - 1);
    }
  }

  lemma {:induction false} ReadMoreMarks(k: nat, n: nat, t: string)
    ensures ReadMarks(MoreMarks(k) + ")" + t, n) == Some((n + k, t))
    decreases k
  {
    var s := MoreMarks(k) + ")" + t;
    if k == 0 {
      assert s == ")" + t;
      assert s[1..] == t;
    } else {
      MoreMarksCons(k);
      assert s == ",?" + (MoreMarks(k - 1) + ")" + t);
      assert s[2..] == MoreMarks(k - 1) + ")" + t;
      ReadMoreMarks(k - 1, n + 1, t);
    }
  }

  lemma ReadPlaceholders(c: nat, t: string)
    ensures ReadGroup(Placeholders(c) + t) == Some((c, t))
  {
    var s := Placeholders(c) + t;
    if c == 0 {
      assert Placeholders(0) == "()";
      assert s[2..] == t;
    } else {
      ImplodeMarks(c);
      assert s == "(?" + (MoreMarks(c - 1) + ")" + t);
      assert s[2..] == MoreMarks(c - 1) + ")" + t;
      ReadMoreMarks(c - 1, 1, t);
    }
  }

  lemma GroupsTextCons(counts: seq<nat>)
    requires |counts| > 1
    ensures GroupsText(counts) == Placeholders(counts[0]) + (", " + GroupsText(counts[1..]))
  {
    assert Groups(counts) == [Placeholders(counts[0])] + Groups(counts[1..]);
    ImplodeCons(", ", Placeholders(counts[0]), Groups(counts[1..]));
  }

  lemma ReadGroupsCons(c: nat, rest: string, more: seq<nat>)
    requires ReadGroups(rest) == Some(more)
    ensures ReadGroups(Placeholders(c) + (", " + rest)) == Some([c] + more)
  {
    ReadPlaceholders(c, ", " + rest);
    assert (", " + rest)[2..] == rest;
  }

  lemma {:induction false} ReadGroupsText(counts: seq<nat>)
    requires |counts| > 0
    ensures ReadGroups(GroupsText(counts)) == Some(counts)
    decreases |counts|
  {
    var first := Placeholders(counts[0]);
    if |counts| == 1 {
      assert Groups(counts) == [first];
      assert GroupsText(counts) == first + "";
      ReadPlaceholders(counts[0], "");
      assert counts == [counts[0]];
    } else {
      GroupsTextCons(counts);
      ReadGroupsText(counts[1..]);
      ReadGroupsCons(counts[0], GroupsText(counts[1..]), counts[1..]);
      assert [counts[0]] + counts[1..] == counts;
    }
  }

  /**
   * The VALUES groups are exactly one "(?,…)" group per row, in row order,
   * each with as many '?' as its row has values: reading them back recovers
   * the row sizes.
   */
  lemma QuestionMarksRoundTrip(counts: seq<nat>)
    ensures ParsePlaceholders(GroupsText(counts)) == Some(counts)
  {
    if |counts| == 0 {
      assert GroupsText(counts) == "";
    } else {
      ReadGroupsText(counts);
    }
  }
}
