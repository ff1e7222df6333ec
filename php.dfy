/**
 * PHP arrays and values as the statement builder sees them.  A PHP array is
 * an ordered list of key/value entries; keys are integers or strings.
 */
module Php {
  import opened Wrappers
  import opened Strings

  datatype Key = IntKey(i: int) | StrKey(s: string)

  /** The PHP values a row may hold; floats are not modelled. */
  datatype Value =
    | Null
    | Bool(b: bool)
    | Int(n: int)
    | Str(s: string)
    | Arr(entries: seq<Entry>)

  datatype Entry = Entry(key: Key, val: Value)

  type PhpArray = seq<Entry>

  /** $a[$k]: the value stored under k, found at the first entry with that key. */
  function Lookup(a: PhpArray, k: Key): (r: Option<Value>)
    ensures r.Some? <==> exists i :: 0 <= i < |a| && a[i].key == k
    ensures r.Some? ==> exists i :: 0 <= i < |a| && a[i] == Entry(k, r.value) && forall j :: 0 <= j < i ==> a[j].key != k
    decreases |a|
  {
    if a == [] then None
    else if a[0].key == k then Some(a[0].val)
    else Lookup(a[1..], k)
  }

  /** No key occurs twice: the shape of every array PHP builds (PhpArray itself does not enforce it). */
  predicate DistinctKeys(a: PhpArray) {
    forall i, j :: 0 <= i < j < |a| ==> a[i].key != a[j].key
  }

  /** With distinct keys, looking up an entry's key finds that entry's value. */
  lemma {:induction false} LookupAt(a: PhpArray, j: nat)
    requires DistinctKeys(a) && j < |a|
    ensures Lookup(a, a[j].key) == Some(a[j].val)
    decreases j
  {
    if j > 0 {
      assert a[0].key != a[j].key;
      LookupAt(a[1..], j - 1);
    }
  }

  /** isset($a[$k]): an entry under k exists and its value is not null. */
  predicate IsSet(a: PhpArray, k: Key)
    ensures IsSet(a, k) <==>
      exists i :: 0 <= i < |a| && a[i].key == k && a[i].val != Null && forall j :: 0 <= j < i ==> a[j].key != k
  {
    Lookup(a, k).Some? && Lookup(a, k).value != Null
  }

  /** is_numeric($key) for an array key: integer keys are numeric. */
  predicate IsNumericKey(k: Key)
    ensures IsNumericKey(k) ==> k.IntKey? && KeyString(k) == IntString(k.i)
    ensures !IsNumericKey(k) ==> k.StrKey? && KeyString(k) == k.s
  {
    k.IntKey?
  }

  /** A key converted to a string, as implode and sprintf('%s') do. */
  function KeyString(k: Key): string {
    match k
    case IntKey(i) => IntString(i)
    case StrKey(s) => s
  }

  /** A key as the value array_keys() stores it. */
  function KeyValue(k: Key): (v: Value)
    ensures ValueString(v) == KeyString(k)
  {
    match k
    case IntKey(i) => Int(i)
    case StrKey(s) => Str(s)
  }

  /** A value converted to a string by sprintf('%s'): null and false give "", true gives "1". */
  function ValueString(v: Value): (r: string)
    ensures v.Str? ==> r == v.s
    ensures v.Int? ==> r == IntString(v.n)
    ensures v == Null || v == Bool(false) ==> r == ""
    ensures v == Bool(true) ==> r == "1"
    ensures v.Arr? ==> r == "Array"
    ensures '?' in r ==> v.Str?
  {
    match v
    case Null => ""
    case Bool(b) => if b then "1" else ""
    case Int(n) => IntString(n)
    case Str(s) => s
    case Arr(_) => "Array"
  }

  /** A PHP list: the values under the keys 0, 1, 2, ... */
  function List(vs: seq<Value>): (a: PhpArray)
    ensures |a| == |vs|
    ensures forall i :: 0 <= i < |a| ==> a[i] == Entry(IntKey(i), vs[i])
  {
    seq(|vs|, i requires 0 <= i < |vs| => Entry(IntKey(i), vs[i]))
  }

  /** array_keys($a): the list of a's keys, in a's order. */
  function ArrayKeys(a: PhpArray): (r: PhpArray)
    ensures |r| == |a|
    ensures forall i :: 0 <= i < |r| ==> r[i] == Entry(IntKey(i), KeyValue(a[i].key))
  {
    List(seq(|a|, i requires 0 <= i < |a| => KeyValue(a[i].key)))
  }

  /** array_values($a): a's values, in a's order. */
  function ArrayValues(a: PhpArray): (r: seq<Value>)
    ensures |r| == |a|
    ensures forall i :: 0 <= i < |r| ==> r[i] == a[i].val
  {
    seq(|a|, i requires 0 <= i < |a| => a[i].val)
  }
}
