/**
 * The part of a pandas DataFrame the t-test reads, as assumptions of the model:
 * named columns of equal height; row-wise `==` against a scalar, under which a
 * missing cell (NaN or None) equals nothing; boolean-mask selection keeping
 * table order; `dropna`; and `nunique`, which ignores missing cells.
 */
module Frames {
  /**
   * A cell. Python ints and floats are both `Number`, as pandas compares them by
   * value; the model therefore cannot tell `1` from `1.0` when a label is shown.
   */
  datatype Value = Missing | Text(s: string) | Number(x: real)

  /** `column == want` for one cell. */
  predicate Matches(cell: Value, want: Value)
  {
    cell != Missing && cell == want
  }

  /** Columns by name, every one `height` cells long. */
  datatype Table = Table(height: nat, columns: map<string, seq<Value>>)

  predicate WellFormed(t: Table)
  {
    forall c :: c in t.columns ==> |t.columns[c]| == t.height
  }

  type Frame = t: Table | WellFormed(t) witness Table(0, map[])

  /** `DataFrame.empty`: no rows or no columns. */
  predicate IsEmpty(t: Frame)
  {
    t.height == 0 || |t.columns| == 0
  }

  /** The first argument of the entry points: a DataFrame, or an object of another type. */
  datatype Data = DataFrame(frame: Frame) | NotAFrame(typeName: string)

  predicate HasColumn(data: Data, column: string)
  {
    data.DataFrame? && column in data.frame.columns
  }

  /** The Python type of `control_test_values`; `Unsized` types have no `len()`. */
  datatype Container = List | Tuple | NdArray | OtherSized(typeName: string) | Unsized(typeName: string)

  /** `control_test_values`, with its elements in iteration order. */
  datatype Pair = Pair(container: Container, items: seq<Value>)

  /** `df[df[key] == want][val]`: the `vals` cells of the rows whose `keys` cell matches, in row order. */
  function Select(keys: seq<Value>, vals: seq<Value>, want: Value): (r: seq<Value>)
    requires |keys| == |vals|
    ensures |r| <= |keys|
  {
    if |keys| == 0 then []
    else (if Matches(keys[0], want) then [vals[0]] else []) + Select(keys[1..], vals[1..], want)
  }

  /** `dropna()`: the cells that are not missing, in order. */
  function DropMissing(s: seq<Value>): (r: seq<Value>)
    ensures |r| <= |s|
    ensures Missing !in r
  {
    if |s| == 0 then [] else (if s[0] == Missing then [] else [s[0]]) + DropMissing(s[1..])
  }

  /** The distinct non-missing cells of a column. */
  function DistinctValues(s: seq<Value>): (r: set<Value>)
    ensures Missing !in r
  {
    if |s| == 0 then {} else (if s[0] == Missing then {} else {s[0]}) + DistinctValues(s[1..])
  }

  /** `Series.nunique()`, with its default `dropna=True`. */
  function Nunique(s: seq<Value>): nat
  {
    |DistinctValues(s)|
  }

  /** A selected cell is exactly the value cell of some matching row. */
  lemma {:induction false} SelectMembers(keys: seq<Value>, vals: seq<Value>, want: Value, x: Value)
    requires |keys| == |vals|
    ensures x in Select(keys, vals, want) <==>
      exists i :: 0 <= i < |keys| && Matches(keys[i], want) && vals[i] == x
  {
    if |keys| > 0 {
      SelectMembers(keys[1..], vals[1..], want, x);
      var head := if Matches(keys[0], want) then [vals[0]] else [];
      assert Select(keys, vals, want) == head + Select(keys[1..], vals[1..], want);
      if x in Select(keys, vals, want) {
        if x !in head {
          var i :| 0 <= i < |keys| - 1 && Matches(keys[1..][i], want) && vals[1..][i] == x;
          assert Matches(keys[i + 1], want) && vals[i + 1] == x;
        }
      }
      if exists i :: 0 <= i < |keys| && Matches(keys[i], want) && vals[i] == x {
        var i :| 0 <= i < |keys| && Matches(keys[i], want) && vals[i] == x;
        if i > 0 {
          assert Matches(keys[1..][i - 1], want) && vals[1..][i - 1] == x;
        }
      }
    }
  }

  /** Selection keeps table order: the rows of a first block come before those of a second. */
  lemma {:induction false} SelectAppend(k1: seq<Value>, v1: seq<Value>, k2: seq<Value>, v2: seq<Value>, want: Value)
    requires |k1| == |v1| && |k2| == |v2|
    ensures Select(k1 + k2, v1 + v2, want) == Select(k1, v1, want) + Select(k2, v2, want)
  {
    if |k1| == 0 {
      assert k1 + k2 == k2 && v1 + v2 == v2;
    } else {
      assert (k1 + k2)[0] == k1[0] && (v1 + v2)[0] == v1[0];
      assert (k1 + k2)[1..] == k1[1..] + k2 && (v1 + v2)[1..] == v1[1..] + v2;
      SelectAppend(k1[1..], v1[1..], k2, v2, want);
    }
  }

  /** `dropna` keeps exactly the cells that are not missing. */
  lemma {:induction false} DropMissingMembers(s: seq<Value>, x: Value)
    ensures x in DropMissing(s) <==> x in s && x != Missing
  {
    if |s| > 0 {
      DropMissingMembers(s[1..], x);
      assert s == [s[0]] + s[1..];
    }
  }

  /** `dropna` keeps order: it distributes over concatenation. */
  lemma {:induction false} DropMissingAppend(s1: seq<Value>, s2: seq<Value>)
    ensures DropMissing(s1 + s2) == DropMissing(s1) + DropMissing(s2)
  {
    if |s1| == 0 {
      assert s1 + s2 == s2;
    } else {
      assert (s1 + s2)[0] == s1[0];
      assert (s1 + s2)[1..] == s1[1..] + s2;
      DropMissingAppend(s1[1..], s2);
    }
  }

  /** A sequence with no missing cell is unchanged by `dropna`; in particular `dropna` is idempotent. */
  lemma {:induction false} DropMissingKeepsPresent(s: seq<Value>)
    requires Missing !in s
    ensures DropMissing(s) == s
  {
    if |s| > 0 {
      assert s[0] != Missing;
      assert Missing !in s[1..];
      DropMissingKeepsPresent(s[1..]);
      assert s == [s[0]] + s[1..];
    }
  }

  /** The distinct values counted by `nunique` are exactly the non-missing cells. */
  lemma {:induction false} DistinctValuesMembers(s: seq<Value>, v: Value)
    ensures v in DistinctValues(s) <==> v in s && v != Missing
  {
    if |s| > 0 {
      DistinctValuesMembers(s[1..], v);
      assert s == [s[0]] + s[1..];
    }
  }
}
