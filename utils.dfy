/**
 * `validate_inputs` and `extract_groups` of the raising version: an ordered
 * chain of guards over the table and the control/test pair, then the two groups
 * as the dependent values of the matching rows with missing cells dropped.
 */
module Utils {
  import opened Wrappers
  import opened Frames
  import opened Exceptions
  import Decimal
  import Checks

  const NotAFrameMessage := "Input must be a pandas DataFrame"
  const EmptyMessage := "DataFrame is empty"
  const NotASequenceMessage := "control_test_values must be a list, tuple, or array"
  const PairLengthMessage := "control_test_values must contain exactly 2 values [control_value, test_value]"
  const NoValidControlMessage := "No valid (non-NaN) data in control group"
  const NoValidTestMessage := "No valid (non-NaN) data in test group"
  const SmallControlMessage := "Control group must have at least 2 observations"
  const SmallTestMessage := "Test group must have at least 2 observations"

  const TooManyPrefix := "Independent variable column has "
  // Split so that the verifier sees the leading space, which reading the count back relies on.
  const TooManySuffix := " " + "distinct values. Only 2 are allowed for t-test."

  function ColumnNotFound(column: string): string
  {
    "Column '" + column + "' not found in dataframe"
  }

  function TooManyValues(count: nat): string
  {
    TooManyPrefix + Decimal.NatToString(count) + TooManySuffix
  }

  function NoControlRows(shown: string): string
  {
    "No data found for control value '" + shown + "'"
  }

  function NoTestRows(shown: string): string
  {
    "No data found for test value '" + shown + "'"
  }

  function InvalidData(message: string): Error
  {
    Construct(InvalidDataError, Some(message))
  }

  function InvalidColumn(message: string): Error
  {
    Construct(InvalidColumnError, Some(message))
  }

  /** `isinstance(control_test_values, (list, tuple, np.ndarray))`. */
  predicate IsSequence(c: Container)
  {
    c.List? || c.Tuple? || c.NdArray?
  }

  /** `nunique()` of the independent column; 0 when there is no such column to count. */
  function DistinctCount(data: Data, column: string): nat
  {
    if HasColumn(data, column) then Nunique(data.frame.columns[column]) else 0
  }

  /** Everything `validate_inputs` demands, as one conjunction. */
  predicate Acceptable(data: Data, iv: string, dv: string, pair: Pair)
  {
    data.DataFrame? && !IsEmpty(data.frame) &&
    iv in data.frame.columns && dv in data.frame.columns &&
    Nunique(data.frame.columns[iv]) <= 2 &&
    IsSequence(pair.container) && |pair.items| == 2
  }

  /** `validate_inputs`: `Ok(())` for Python's `None` return, `Fail` for the exception raised. */
  function ValidateInputs(data: Data, iv: string, dv: string, pair: Pair): (r: Result<(), Error>)
    ensures r.Ok? <==> Acceptable(data, iv, dv, pair)
    ensures r.Fail? ==> r.error.kind == InvalidDataError || r.error.kind == InvalidColumnError
    ensures r.Fail? && r.error.kind == InvalidColumnError <==>
      data.DataFrame? && !IsEmpty(data.frame) && (iv !in data.frame.columns || dv !in data.frame.columns)
    ensures !data.DataFrame? ==> r == Fail(InvalidData(NotAFrameMessage))
    ensures data.DataFrame? && !IsEmpty(data.frame) && iv !in data.frame.columns ==>
      r == Fail(InvalidColumn(ColumnNotFound(iv)))
    ensures (data.DataFrame? && !IsEmpty(data.frame) && iv in data.frame.columns && dv in data.frame.columns &&
      Nunique(data.frame.columns[iv]) > 2) ==>
      r == Fail(InvalidData(TooManyValues(Nunique(data.frame.columns[iv]))))
  {
    if !data.DataFrame? then Fail(InvalidData(NotAFrameMessage))
    else if IsEmpty(data.frame) then Fail(InvalidData(EmptyMessage))
    else if iv !in data.frame.columns then Fail(InvalidColumn(ColumnNotFound(iv)))
    else if dv !in data.frame.columns then Fail(InvalidColumn(ColumnNotFound(dv)))
    else if Nunique(data.frame.columns[iv]) > 2 then
      Fail(InvalidData(TooManyValues(Nunique(data.frame.columns[iv]))))
    else if !IsSequence(pair.container) then Fail(InvalidData(NotASequenceMessage))
    else if |pair.items| != 2 then Fail(InvalidData(PairLengthMessage))
    else Ok(())
  }

  /** The guards of `validate_inputs` as a table, in source order. */
  function ValidationChecks(data: Data, iv: string, dv: string, pair: Pair): seq<Checks.Check<Error>>
  {
    [ Checks.Check(data.DataFrame?, InvalidData(NotAFrameMessage)),
      Checks.Check(data.DataFrame? && !IsEmpty(data.frame), InvalidData(EmptyMessage)),
      Checks.Check(HasColumn(data, iv), InvalidColumn(ColumnNotFound(iv))),
      Checks.Check(HasColumn(data, dv), InvalidColumn(ColumnNotFound(dv))),
      Checks.Check(DistinctCount(data, iv) <= 2, InvalidData(TooManyValues(DistinctCount(data, iv)))),
      Checks.Check(IsSequence(pair.container), InvalidData(NotASequenceMessage)),
      Checks.Check(|pair.items| == 2, InvalidData(PairLengthMessage)) ]
  }

  /** `validate_inputs` reports the first violated guard of its table, and succeeds when none is violated. */
  lemma ValidationOrder(data: Data, iv: string, dv: string, pair: Pair)
    ensures ValidateInputs(data, iv, dv, pair) == Checks.Run(ValidationChecks(data, iv, dv, pair))
  {
    var cs := ValidationChecks(data, iv, dv, pair);
    var r := ValidateInputs(data, iv, dv, pair);
    if !cs[0].holds {
      Checks.FirstFailureAt(cs, 0);
    } else if !cs[1].holds {
      Checks.FirstFailureAt(cs, 1);
    } else if !cs[2].holds {
      Checks.FirstFailureAt(cs, 2);
    } else if !cs[3].holds {
      Checks.FirstFailureAt(cs, 3);
    } else if !cs[4].holds {
      Checks.FirstFailureAt(cs, 4);
    } else if !cs[5].holds {
      Checks.FirstFailureAt(cs, 5);
    } else if !cs[6].holds {
      Checks.FirstFailureAt(cs, 6);
    } else {
      assert forall j :: 0 <= j < |cs| ==> cs[j].holds;
    }
  }

  lemma SuffixStartsWithSpace()
    ensures |TooManySuffix| > 0 && TooManySuffix[0] == ' '
  {
  }

  /** The distinct-value message carries the count: the digits after its prefix denote it. */
  lemma TooManyValuesCarriesCount(count: nat)
    ensures TooManyValues(count)[..|TooManyPrefix|] == TooManyPrefix
    ensures Decimal.DigitsValue(Decimal.LeadingDigits(TooManyValues(count)[|TooManyPrefix|..])) == count
  {
    var digits := Decimal.NatToString(count);
    assert TooManyValues(count)[|TooManyPrefix|..] == digits + TooManySuffix;
    SuffixStartsWithSpace();
    Decimal.LeadingDigitsOfDigits(digits, TooManySuffix);
    Decimal.NatToStringRoundTrip(count);
  }

  /** `df[df[iv] == value][dv]`: the dependent cells of the rows whose group cell equals `value`. */
  function Rows(t: Frame, iv: string, dv: string, value: Value): (r: seq<Value>)
    requires iv in t.columns && dv in t.columns
    ensures |r| <= t.height
  {
    Select(t.columns[iv], t.columns[dv], value)
  }

  /** `Rows(...).dropna().values`: one group's observations. */
  function Group(t: Frame, iv: string, dv: string, value: Value): (r: seq<Value>)
    requires iv in t.columns && dv in t.columns
    ensures |r| <= |Rows(t, iv, dv, value)|
    ensures Missing !in r
  {
    DropMissing(Rows(t, iv, dv, value))
  }

  /** The 4-tuple `extract_groups` returns. */
  datatype Extracted = Extracted(control: seq<Value>, test: seq<Value>, controlValue: Value, testValue: Value)

  /**
   * `extract_groups`. It is called after `validate_inputs`, so both columns exist
   * and the pair has two elements. `show` is Python's `str()` of a group label.
   */
  function ExtractGroups(show: Value -> string, t: Frame, iv: string, dv: string, pair: seq<Value>): (r: Result<Extracted, Error>)
    requires iv in t.columns && dv in t.columns && |pair| == 2
    ensures r.Ok? <==> |Group(t, iv, dv, pair[0])| >= 2 && |Group(t, iv, dv, pair[1])| >= 2
    ensures r.Ok? ==> r.value == Extracted(Group(t, iv, dv, pair[0]), Group(t, iv, dv, pair[1]), pair[0], pair[1])
    ensures r.Fail? ==> r.error.kind == InvalidDataError
    ensures |Rows(t, iv, dv, pair[0])| > 0 && |Rows(t, iv, dv, pair[1])| == 0 ==>
      r == Fail(InvalidData(NoTestRows(show(pair[1]))))
    ensures pair[0] == pair[1] && r.Ok? ==> r.value.control == r.value.test
  {
    var control, test := pair[0], pair[1];
    var controlRows, testRows := Rows(t, iv, dv, control), Rows(t, iv, dv, test);
    if |controlRows| == 0 then Fail(InvalidData(NoControlRows(show(control))))
    else if |testRows| == 0 then Fail(InvalidData(NoTestRows(show(test))))
    else
      var controlVec, testVec := DropMissing(controlRows), DropMissing(testRows);
      if |controlVec| == 0 then Fail(InvalidData(NoValidControlMessage))
      else if |testVec| == 0 then Fail(InvalidData(NoValidTestMessage))
      else if |controlVec| < 2 then Fail(InvalidData(SmallControlMessage))
      else if |testVec| < 2 then Fail(InvalidData(SmallTestMessage))
      else Ok(Extracted(controlVec, testVec, control, test))
  }

  /** The guards of `extract_groups` as a table, in source order. */
  function ExtractionChecks(show: Value -> string, t: Frame, iv: string, dv: string, pair: seq<Value>): seq<Checks.Check<Error>>
    requires iv in t.columns && dv in t.columns && |pair| == 2
  {
    var c, e := Group(t, iv, dv, pair[0]), Group(t, iv, dv, pair[1]);
    [ Checks.Check(|Rows(t, iv, dv, pair[0])| > 0, InvalidData(NoControlRows(show(pair[0])))),
      Checks.Check(|Rows(t, iv, dv, pair[1])| > 0, InvalidData(NoTestRows(show(pair[1])))),
      Checks.Check(|c| > 0, InvalidData(NoValidControlMessage)),
      Checks.Check(|e| > 0, InvalidData(NoValidTestMessage)),
      Checks.Check(|c| >= 2, InvalidData(SmallControlMessage)),
      Checks.Check(|e| >= 2, InvalidData(SmallTestMessage)) ]
  }

  /** `extract_groups` reports the first violated guard of its table, or returns the groups. */
  lemma ExtractionOrder(show: Value -> string, t: Frame, iv: string, dv: string, pair: seq<Value>)
    requires iv in t.columns && dv in t.columns && |pair| == 2
    ensures var r := ExtractGroups(show, t, iv, dv, pair);
      match Checks.FirstFailure(ExtractionChecks(show, t, iv, dv, pair))
      case None => r.Ok?
      case Some(e) => r == Fail(e)
  {
    var cs := ExtractionChecks(show, t, iv, dv, pair);
    if !cs[0].holds {
      Checks.FirstFailureAt(cs, 0);
    } else if !cs[1].holds {
      Checks.FirstFailureAt(cs, 1);
    } else if !cs[2].holds {
      Checks.FirstFailureAt(cs, 2);
    } else if !cs[3].holds {
      Checks.FirstFailureAt(cs, 3);
    } else if !cs[4].holds {
      Checks.FirstFailureAt(cs, 4);
    } else if !cs[5].holds {
      Checks.FirstFailureAt(cs, 5);
    } else {
      assert forall j :: 0 <= j < |cs| ==> cs[j].holds;
    }
  }

  /**
   * A group holds exactly the non-missing dependent cells of the rows whose group
   * cell equals the requested value.
   */
  lemma GroupMembers(t: Frame, iv: string, dv: string, value: Value, x: Value)
    requires iv in t.columns && dv in t.columns
    ensures x in Group(t, iv, dv, value) <==>
      x != Missing && exists i :: 0 <= i < t.height && Matches(t.columns[iv][i], value) && t.columns[dv][i] == x
  {
    DropMissingMembers(Rows(t, iv, dv, value), x);
    SelectMembers(t.columns[iv], t.columns[dv], value, x);
  }

  /** Groups keep table order: the group of the first rows then the group of the rest. */
  lemma GroupSplit(t: Frame, iv: string, dv: string, value: Value, h: nat)
    requires iv in t.columns && dv in t.columns && h <= t.height
    ensures Group(t, iv, dv, value) ==
      DropMissing(Select(t.columns[iv][..h], t.columns[dv][..h], value)) +
      DropMissing(Select(t.columns[iv][h..], t.columns[dv][h..], value))
  {
    var keys, vals := t.columns[iv], t.columns[dv];
    assert keys == keys[..h] + keys[h..];
    assert vals == vals[..h] + vals[h..];
    SelectAppend(keys[..h], vals[..h], keys[h..], vals[h..], value);
    DropMissingAppend(Select(keys[..h], vals[..h], value), Select(keys[h..], vals[h..], value));
  }

  /** A value absent from the group column selects no rows; a missing label selects none either. */
  lemma AbsentValueHasNoRows(t: Frame, iv: string, dv: string, value: Value)
    requires iv in t.columns && dv in t.columns
    requires value == Missing || value !in DistinctValues(t.columns[iv])
    ensures Rows(t, iv, dv, value) == []
  {
    if Rows(t, iv, dv, value) != [] {
      var x := Rows(t, iv, dv, value)[0];
      SelectMembers(t.columns[iv], t.columns[dv], value, x);
      var i :| 0 <= i < |t.columns[iv]| && Matches(t.columns[iv][i], value) && t.columns[dv][i] == x;
      DistinctValuesMembers(t.columns[iv], value);
    }
  }

  /**
   * The two steps in sequence: when both succeed, the column has at most two distinct
   * labels (checked by validation) and both labels of the pair are among them; each
   * group has between 2 and `height` observations, none of them missing.
   */
  lemma PipelineSuccess(show: Value -> string, data: Data, iv: string, dv: string, pair: Pair)
    requires ValidateInputs(data, iv, dv, pair).Ok?
    ensures var t := data.frame;
      var r := ExtractGroups(show, t, iv, dv, pair.items);
      r.Ok? ==>
        Nunique(t.columns[iv]) <= 2 &&
        pair.items[0] in DistinctValues(t.columns[iv]) && pair.items[1] in DistinctValues(t.columns[iv]) &&
        2 <= |r.value.control| <= t.height && 2 <= |r.value.test| <= t.height &&
        Missing !in r.value.control && Missing !in r.value.test
  {
    var t := data.frame;
    var r := ExtractGroups(show, t, iv, dv, pair.items);
    if r.Ok? {
      if pair.items[0] !in DistinctValues(t.columns[iv]) {
        AbsentValueHasNoRows(t, iv, dv, pair.items[0]);
      }
      if pair.items[1] !in DistinctValues(t.columns[iv]) {
        AbsentValueHasNoRows(t, iv, dv, pair.items[1]);
      }
    }
  }
}
