/**
 * The stand-alone `welch_t_test` that returns `{"error": message}` instead of
 * raising. It runs the same guards as the raising version, minus the type,
 * emptiness and minimum-size checks, and turns any exception into an error map.
 */
module ErrorMap {
  import opened Wrappers
  import opened Frames
  import opened Numerics
  import Exceptions
  import Utils
  import Core
  import Checks

  const CatchAllPrefix := "An error occurred: "

  /** `str()` of the AttributeError from `dataframe.columns` on an object without that attribute. */
  function NoColumnsAttribute(typeName: string): string
  {
    "'" + typeName + "' object has no attribute 'columns'"
  }

  /** `str()` of the TypeError from `len()` on an object without a length. */
  function NoLength(typeName: string): string
  {
    "object of type '" + typeName + "' has no len()"
  }

  /** Everything the guards of this version demand, as one conjunction. */
  predicate Admissible(data: Data, iv: string, dv: string, pair: Pair)
  {
    data.DataFrame? && iv in data.frame.columns && dv in data.frame.columns &&
    Nunique(data.frame.columns[iv]) <= 2 &&
    !pair.container.Unsized? && |pair.items| == 2
  }

  /** The outcome before it becomes a dictionary: the result, or the error message. */
  function Outcome(env: Core.Env, data: Data, iv: string, dv: string, pair: Pair): (r: Result<Core.TestResult, string>)
    ensures r.Ok? <==>
      Admissible(data, iv, dv, pair) &&
      var t, cv, tv := data.frame, pair.items[0], pair.items[1];
      |Utils.Group(t, iv, dv, cv)| >= 1 && |Utils.Group(t, iv, dv, tv)| >= 1 &&
      Core.AllNumbers(Utils.Group(t, iv, dv, cv)) && Core.AllNumbers(Utils.Group(t, iv, dv, tv))
    ensures r.Ok? ==>
      var t, cv, tv := data.frame, pair.items[0], pair.items[1];
      r == Core.Compute(env, Utils.Extracted(Utils.Group(t, iv, dv, cv), Utils.Group(t, iv, dv, tv), cv, tv))
    ensures !data.DataFrame? ==> r == Fail(CatchAllPrefix + NoColumnsAttribute(data.typeName))
    ensures (data.DataFrame? && iv !in data.frame.columns) ==> r == Fail(Utils.ColumnNotFound(iv))
    ensures (data.DataFrame? && iv in data.frame.columns && dv in data.frame.columns &&
      Nunique(data.frame.columns[iv]) > 2) ==> r == Fail(Utils.TooManyValues(Nunique(data.frame.columns[iv])))
    ensures (data.DataFrame? && iv in data.frame.columns && dv in data.frame.columns &&
      Nunique(data.frame.columns[iv]) <= 2 && pair.container.Unsized?) ==>
      r == Fail(CatchAllPrefix + NoLength(pair.container.typeName))
  {
    if !data.DataFrame? then Fail(CatchAllPrefix + NoColumnsAttribute(data.typeName))
    else
      var t := data.frame;
      if iv !in t.columns then Fail(Utils.ColumnNotFound(iv))
      else if dv !in t.columns then Fail(Utils.ColumnNotFound(dv))
      else if Nunique(t.columns[iv]) > 2 then Fail(Utils.TooManyValues(Nunique(t.columns[iv])))
      else if pair.container.Unsized? then Fail(CatchAllPrefix + NoLength(pair.container.typeName))
      else if |pair.items| != 2 then Fail(Utils.PairLengthMessage)
      else
        var control, test := pair.items[0], pair.items[1];
        var controlRows, testRows := Utils.Rows(t, iv, dv, control), Utils.Rows(t, iv, dv, test);
        if |controlRows| == 0 then Fail(Utils.NoControlRows(env.show(control)))
        else if |testRows| == 0 then Fail(Utils.NoTestRows(env.show(test)))
        else
          var controlVec, testVec := DropMissing(controlRows), DropMissing(testRows);
          if |controlVec| == 0 then Fail(Utils.NoValidControlMessage)
          else if |testVec| == 0 then Fail(Utils.NoValidTestMessage)
          else
            match Core.Compute(env, Utils.Extracted(controlVec, testVec, control, test))
            case Ok(res) => Ok(res)
            case Fail(text) => Fail(CatchAllPrefix + text)
  }

  /** The type name Python reports for an object given in place of a DataFrame. */
  function DataTypeName(data: Data): string
  {
    if data.NotAFrame? then data.typeName else "DataFrame"
  }

  /** The type name Python reports for the pair object. */
  function ContainerTypeName(c: Container): string
  {
    match c
    case List => "list"
    case Tuple => "tuple"
    case NdArray => "ndarray"
    case OtherSized(n) => n
    case Unsized(n) => n
  }

  /** The i-th label of the pair, when it has one. */
  function Label(pair: Pair, i: nat): Value
  {
    if i < |pair.items| then pair.items[i] else Missing
  }

  /** The rows of the i-th label, once the guards before the row checks have held. */
  function LabelRows(data: Data, iv: string, dv: string, pair: Pair, i: nat): seq<Value>
  {
    if Admissible(data, iv, dv, pair) && i < 2 then Utils.Rows(data.frame, iv, dv, pair.items[i]) else []
  }

  /** The guards of this version as a table, in source order; the computation follows them. */
  function OutcomeChecks(env: Core.Env, data: Data, iv: string, dv: string, pair: Pair): seq<Checks.Check<string>>
  {
    var controlRows, testRows := LabelRows(data, iv, dv, pair, 0), LabelRows(data, iv, dv, pair, 1);
    [ Checks.Check(data.DataFrame?, CatchAllPrefix + NoColumnsAttribute(DataTypeName(data))),
      Checks.Check(HasColumn(data, iv), Utils.ColumnNotFound(iv)),
      Checks.Check(HasColumn(data, dv), Utils.ColumnNotFound(dv)),
      Checks.Check(Utils.DistinctCount(data, iv) <= 2, Utils.TooManyValues(Utils.DistinctCount(data, iv))),
      Checks.Check(!pair.container.Unsized?, CatchAllPrefix + NoLength(ContainerTypeName(pair.container))),
      Checks.Check(|pair.items| == 2, Utils.PairLengthMessage),
      Checks.Check(|controlRows| > 0, Utils.NoControlRows(env.show(Label(pair, 0)))),
      Checks.Check(|testRows| > 0, Utils.NoTestRows(env.show(Label(pair, 1)))),
      Checks.Check(|DropMissing(controlRows)| > 0, Utils.NoValidControlMessage),
      Checks.Check(|DropMissing(testRows)| > 0, Utils.NoValidTestMessage) ]
  }

  /** The computation on the two groups, with its exception caught. */
  function Computed(env: Core.Env, data: Data, iv: string, dv: string, pair: Pair): Result<Core.TestResult, string>
    requires Admissible(data, iv, dv, pair)
  {
    var t, cv, tv := data.frame, pair.items[0], pair.items[1];
    match Core.Compute(env, Utils.Extracted(Utils.Group(t, iv, dv, cv), Utils.Group(t, iv, dv, tv), cv, tv))
    case Ok(res) => Ok(res)
    case Fail(text) => Fail(CatchAllPrefix + text)
  }

  /**
   * This version reports the first violated guard of its table, whatever the frame's
   * height and the pair's type; when none is violated it returns the computation's
   * outcome, a failure of which carries the catch-all prefix.
   */
  lemma OutcomeOrder(env: Core.Env, data: Data, iv: string, dv: string, pair: Pair)
    ensures var r := Outcome(env, data, iv, dv, pair);
      match Checks.FirstFailure(OutcomeChecks(env, data, iv, dv, pair))
      case Some(e) => r == Fail(e)
      case None => Admissible(data, iv, dv, pair) && r == Computed(env, data, iv, dv, pair)
  {
    if Admissible(data, iv, dv, pair) {
      OutcomeOrderGroups(env, data, iv, dv, pair);
    } else {
      OutcomeOrderFrame(env, data, iv, dv, pair);
    }
  }

  /** The checks on the frame, its columns and the pair: one of the first six guards is violated. */
  lemma OutcomeOrderFrame(env: Core.Env, data: Data, iv: string, dv: string, pair: Pair)
    requires !Admissible(data, iv, dv, pair)
    ensures var cs := OutcomeChecks(env, data, iv, dv, pair);
      Checks.FirstFailure(cs).Some? && Outcome(env, data, iv, dv, pair) == Fail(Checks.FirstFailure(cs).value)
  {
    var cs := OutcomeChecks(env, data, iv, dv, pair);
    if !cs[0].holds {
      Checks.FirstFailureAt(cs, 0);
    } else if !cs[1].holds {
      Checks.FirstFailureAt(cs, 1);
    } else if !cs[2].holds {
      Checks.FirstFailureAt(cs, 2);
    } else if !cs[3].holds {
      Checks.FirstFailureAt(cs, 3);
    } else if !cs[4].holds {
      Checks.FirstFailureAt(cs, 4);
    } else {
      Checks.FirstFailureAt(cs, 5);
    }
  }

  /** The checks on the two groups, which follow once the first six guards hold. */
  lemma OutcomeOrderGroups(env: Core.Env, data: Data, iv: string, dv: string, pair: Pair)
    requires Admissible(data, iv, dv, pair)
    ensures var r := Outcome(env, data, iv, dv, pair);
      match Checks.FirstFailure(OutcomeChecks(env, data, iv, dv, pair))
      case Some(e) => r == Fail(e)
      case None => r == Computed(env, data, iv, dv, pair)
  {
    var cs := OutcomeChecks(env, data, iv, dv, pair);
    assert forall j :: 0 <= j < 6 ==> cs[j].holds;
    if !cs[6].holds {
      Checks.FirstFailureAt(cs, 6);
    } else if !cs[7].holds {
      Checks.FirstFailureAt(cs, 7);
    } else if !cs[8].holds {
      Checks.FirstFailureAt(cs, 8);
    } else if !cs[9].holds {
      Checks.FirstFailureAt(cs, 9);
    } else {
      assert forall j :: 0 <= j < |cs| ==> cs[j].holds;
    }
  }

  /** The dictionary returned: `{"error": message}`, or the twelve result entries. */
  function ErrorOrResult(o: Result<Core.TestResult, string>): (d: map<string, Core.Entry>)
    ensures o.Fail? ==> d == map["error" := Core.MessageEntry(o.error)]
    ensures o.Ok? ==> d == Core.AsDict(o.value)
  {
    match o
    case Fail(message) => map["error" := Core.MessageEntry(message)]
    case Ok(res) => Core.AsDict(res)
  }

  /** `welch_t_test` of the error-map version. */
  function WelchTTestMap(env: Core.Env, data: Data, iv: string, dv: string, pair: Pair): (d: map<string, Core.Entry>)
    ensures d.Keys == {"error"} || d.Keys == Core.ResultKeys
    ensures "error" in d <==> Outcome(env, data, iv, dv, pair).Fail?
  {
    Core.ResultKeysCount();
    ErrorOrResult(Outcome(env, data, iv, dv, pair))
  }

  /** Both versions return the same dictionary whenever the raising one returns. */
  lemma AgreesOnSuccess(env: Core.Env, data: Data, iv: string, dv: string, pair: Pair)
    requires Core.WelchTTest(env, data, iv, dv, pair).Ok?
    ensures Outcome(env, data, iv, dv, pair) == Ok(Core.WelchTTest(env, data, iv, dv, pair).value)
    ensures WelchTTestMap(env, data, iv, dv, pair) == Core.AsDict(Core.WelchTTest(env, data, iv, dv, pair).value)
  {
    Core.SuccessIff(env, data, iv, dv, pair);
  }

  /**
   * With no minimum-size check, a control group of one valid observation reaches the
   * computation here, while the raising version refuses it.
   */
  lemma SingleObservationAccepted(env: Core.Env, data: Data, iv: string, dv: string, pair: Pair)
    requires Utils.Acceptable(data, iv, dv, pair)
    requires var t, cv, tv := data.frame, pair.items[0], pair.items[1];
      |Utils.Group(t, iv, dv, cv)| == 1 && |Utils.Group(t, iv, dv, tv)| >= 1 &&
      Core.AllNumbers(Utils.Group(t, iv, dv, cv)) && Core.AllNumbers(Utils.Group(t, iv, dv, tv))
    ensures Outcome(env, data, iv, dv, pair).Ok?
    ensures Outcome(env, data, iv, dv, pair).value.nControl == 1
    ensures Outcome(env, data, iv, dv, pair).value.stdControl == NaN
    ensures Outcome(env, data, iv, dv, pair).value.degreesOfFreedom == NaN
    ensures Core.WelchTTest(env, data, iv, dv, pair) == Fail(Utils.InvalidData(Utils.SmallControlMessage))
  {
  }

  /**
   * On a non-empty DataFrame with a list, tuple or array pair, each data error of the
   * raising version other than the two minimum-size errors is returned here as an
   * error map with the same message.
   */
  lemma SharedMessages(env: Core.Env, data: Data, iv: string, dv: string, pair: Pair)
    requires data.DataFrame? && !IsEmpty(data.frame) && Utils.IsSequence(pair.container)
    ensures var r := Core.WelchTTest(env, data, iv, dv, pair);
      r.Fail? && r.error.kind != Exceptions.WelchTTestError &&
      r.error.message != Utils.SmallControlMessage && r.error.message != Utils.SmallTestMessage ==>
        Outcome(env, data, iv, dv, pair) == Fail(r.error.message)
  {
    var v := Utils.ValidateInputs(data, iv, dv, pair);
    if v.Ok? {
      var g := Utils.ExtractGroups(env.show, data.frame, iv, dv, pair.items);
    }
  }

  /** A computation failure is reported under the catch-all prefix in place of the wrapping one. */
  lemma ComputationFailureMessage(env: Core.Env, data: Data, iv: string, dv: string, pair: Pair)
    requires Core.WelchTTest(env, data, iv, dv, pair).Fail?
    requires Core.WelchTTest(env, data, iv, dv, pair).error.kind == Exceptions.WelchTTestError
    ensures Utils.Acceptable(data, iv, dv, pair)
    ensures var t, cv, tv := data.frame, pair.items[0], pair.items[1];
      Outcome(env, data, iv, dv, pair) ==
        Fail(CatchAllPrefix + env.typeError(Utils.Group(t, iv, dv, cv), Utils.Group(t, iv, dv, tv)))
  {
    Core.ComputationFailureIsWrapped(env, data, iv, dv, pair);
    var v := Utils.ValidateInputs(data, iv, dv, pair);
    var g := Utils.ExtractGroups(env.show, data.frame, iv, dv, pair.items);
  }
}
