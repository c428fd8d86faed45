/**
 * `welch_t_test` of the raising version: validation, then extraction, then the
 * statistics, inside a boundary that re-raises the library's data errors and
 * wraps every other exception in a `WelchTTestError`.
 */
module Core {
  import opened Wrappers
  import opened Frames
  import opened Exceptions
  import opened Numerics
  import Utils

  /**
   * The foreign code the computation reaches: Python's `str()` of a group label,
   * numpy/scipy, and the text of the TypeError numpy raises on the two groups when
   * one of them holds a non-numeric value.
   */
  datatype Env = Env(show: Value -> string, numerics: Primitives, typeError: (seq<Value>, seq<Value>) -> string)

  /** The 12 entries of the result dictionary. */
  datatype TestResult = TestResult(
    tStatistic: Float,
    pValue: Float,
    degreesOfFreedom: Float,
    meanControl: Float,
    meanTest: Float,
    stdControl: Float,
    stdTest: Float,
    nControl: nat,
    nTest: nat,
    meanDifference: Float,
    controlValue: Value,
    testValue: Value)

  /** A value stored in a result dictionary. */
  datatype Entry = FloatEntry(f: Float) | CountEntry(n: nat) | LabelEntry(v: Value) | MessageEntry(text: string)

  const ResultKeys: set<string> := {
    "t_statistic", "p_value", "degrees_of_freedom", "mean_control", "mean_test", "std_control",
    "std_test", "n_control", "n_test", "mean_difference", "control_value", "test_value" }

  /** The dictionary literal that is returned on success. */
  function AsDict(r: TestResult): (d: map<string, Entry>)
    ensures d.Keys == ResultKeys
  {
    map[
      "t_statistic" := FloatEntry(r.tStatistic),
      "p_value" := FloatEntry(r.pValue),
      "degrees_of_freedom" := FloatEntry(r.degreesOfFreedom),
      "mean_control" := FloatEntry(r.meanControl),
      "mean_test" := FloatEntry(r.meanTest),
      "std_control" := FloatEntry(r.stdControl),
      "std_test" := FloatEntry(r.stdTest),
      "n_control" := CountEntry(r.nControl),
      "n_test" := CountEntry(r.nTest),
      "mean_difference" := FloatEntry(r.meanDifference),
      "control_value" := LabelEntry(r.controlValue),
      "test_value" := LabelEntry(r.testValue)]
  }

  /** The success dictionary has exactly the twelve keys, none of them `"error"`. */
  lemma ResultHasTwelveKeys(r: TestResult)
    ensures |AsDict(r).Keys| == 12 && "error" !in AsDict(r)
  {
    ResultKeysCount();
  }

  lemma ResultKeysCount()
    ensures |ResultKeys| == 12 && "error" !in ResultKeys
  {
  }

  /** Every observation is numeric, so numpy and scipy accept the vector. */
  predicate AllNumbers(s: seq<Value>)
  {
    forall i :: 0 <= i < |s| ==> s[i].Number?
  }

  /** The vector numpy works on. */
  function Reals(s: seq<Value>): (r: seq<real>)
    requires AllNumbers(s)
    ensures |r| == |s|
    ensures forall i :: 0 <= i < |s| ==> r[i] == s[i].x
  {
    if |s| == 0 then [] else [s[0].x] + Reals(s[1..])
  }

  /**
   * The statistics of the success path: the t-test, means, standard deviations, counts,
   * degrees of freedom and mean difference. A non-numeric observation makes numpy
   * raise a TypeError, whose text, a function of the two groups, is `Fail`'s payload.
   */
  function Compute(env: Env, g: Utils.Extracted): (r: Result<TestResult, string>)
    ensures r.Fail? <==> !AllNumbers(g.control) || !AllNumbers(g.test)
    ensures r.Fail? ==> r.error == env.typeError(g.control, g.test)
    ensures var p := env.numerics; r.Ok? ==>
      var c, e := Reals(g.control), Reals(g.test);
      r.value.nControl == |g.control| && r.value.nTest == |g.test| &&
      r.value.controlValue == g.controlValue && r.value.testValue == g.testValue &&
      (r.value.tStatistic, r.value.pValue) == p.ttest(c, e) &&
      r.value.meanControl == p.mean(c) && r.value.meanTest == p.mean(e) &&
      r.value.stdControl == SampleStd(p, c) && r.value.stdTest == SampleStd(p, e)
    ensures r.Ok? ==>
      (r.value.meanDifference.Num? <==> r.value.meanControl.Num? && r.value.meanTest.Num?) &&
      (r.value.meanDifference.Num? ==>
        r.value.meanControl.value + r.value.meanDifference.value == r.value.meanTest.value)
    ensures r.Ok? && r.value.stdControl.Num? && r.value.stdTest.Num? ==>
      r.value.nControl >= 2 && r.value.nTest >= 2 &&
      r.value.degreesOfFreedom == WelchDf(r.value.stdControl.value, r.value.stdTest.value, r.value.nControl, r.value.nTest)
    ensures r.Ok? && !(r.value.stdControl.Num? && r.value.stdTest.Num?) ==> r.value.degreesOfFreedom == NaN
  {
    var p := env.numerics;
    if !AllNumbers(g.control) || !AllNumbers(g.test) then Fail(env.typeError(g.control, g.test))
    else
      var c, e := Reals(g.control), Reals(g.test);
      var (t, pValue) := p.ttest(c, e);
      var meanControl, meanTest := p.mean(c), p.mean(e);
      var stdControl, stdTest := SampleStd(p, c), SampleStd(p, e);
      var df := DegreesOfFreedom(stdControl, stdTest, |c|, |e|);
      Ok(TestResult(t, pValue, df, meanControl, meanTest, stdControl, stdTest,
        |g.control|, |g.test|, Minus(meanTest, meanControl), g.controlValue, g.testValue))
  }

  /** What reaches the `except` clauses: a library exception, or a foreign one with its `str()`. */
  datatype Raised = Library(error: Error) | Foreign(text: string)

  /** `str(e)`: a library exception passes its message to `Exception.__init__`. */
  function Text(x: Raised): string
  {
    match x
    case Library(e) => e.message
    case Foreign(s) => s
  }

  const WrapPrefix := "T-test calculation failed: "

  /** The two `except` clauses: data errors pass through unchanged, everything else is wrapped. */
  function Boundary(x: Raised): (r: Error)
    ensures x.Library? && (IsA(x.error.kind, InvalidColumnError) || IsA(x.error.kind, InvalidDataError)) ==>
      r == x.error
    ensures !(x.Library? && (IsA(x.error.kind, InvalidColumnError) || IsA(x.error.kind, InvalidDataError))) ==>
      r == Error(WelchTTestError, WrapPrefix + Text(x))
  {
    match x
    case Library(e) =>
      if IsA(e.kind, InvalidColumnError) || IsA(e.kind, InvalidDataError) then e
      else Construct(WelchTTestError, Some(WrapPrefix + e.message))
    case Foreign(s) => Construct(WelchTTestError, Some(WrapPrefix + s))
  }

  /** An InsufficientDataError passes the boundary unchanged, being an InvalidDataError. */
  lemma InsufficientPassesThrough(message: string)
    ensures Boundary(Library(Error(InsufficientDataError, message))) == Error(InsufficientDataError, message)
  {
    assert IsA(InsufficientDataError, InvalidDataError) by {
      assert Parent(InsufficientDataError) == Some(InvalidDataError);
    }
  }

  /** A StatisticalError is wrapped, its message kept after the prefix. */
  lemma StatisticalIsWrapped(message: string)
    ensures Boundary(Library(Error(StatisticalError, message))) == Error(WelchTTestError, WrapPrefix + message)
  {
    InvalidDataSubclasses(StatisticalError);
    InvalidColumnSubclasses(StatisticalError);
  }

  /** Whatever crosses the boundary leaves it as a member of the taxonomy that is a data or base error. */
  lemma BoundaryKinds(x: Raised)
    ensures IsA(Boundary(x).kind, WelchTTestError)
    ensures Boundary(x).kind != StatisticalError
  {
    EveryKindIsWelchTTestError(Boundary(x).kind);
    if x.Library? {
      InvalidDataSubclasses(x.error.kind);
      InvalidColumnSubclasses(x.error.kind);
    }
  }

  /** `welch_t_test`: `Ok` for the returned dictionary, `Fail` for the exception it raises. */
  function WelchTTest(env: Env, data: Data, iv: string, dv: string, pair: Pair): (r: Result<TestResult, Error>)
    ensures Utils.ValidateInputs(data, iv, dv, pair).Fail? ==> r == Fail(Utils.ValidateInputs(data, iv, dv, pair).error)
    ensures Utils.ValidateInputs(data, iv, dv, pair).Ok? ==>
      var g := Utils.ExtractGroups(env.show, data.frame, iv, dv, pair.items);
      (g.Fail? ==> r == Fail(g.error)) &&
      (g.Ok? ==>
        match Compute(env, g.value)
        case Ok(res) => r == Ok(res)
        case Fail(text) => r == Fail(Error(WelchTTestError, WrapPrefix + text)))
    ensures r.Fail? ==> r.error.kind != StatisticalError && r.error.kind != InsufficientDataError
  {
    match Utils.ValidateInputs(data, iv, dv, pair)
    case Fail(e) => Fail(Boundary(Library(e)))
    case Ok(_) =>
      match Utils.ExtractGroups(env.show, data.frame, iv, dv, pair.items)
      case Fail(e) => Fail(Boundary(Library(e)))
      case Ok(g) =>
        match Compute(env, g)
        case Fail(text) => Fail(Boundary(Foreign(text)))
        case Ok(res) => Ok(res)
  }

  /**
   * The run succeeds exactly when validation passes, both groups have two or more
   * observations and all of them are numeric; the result then echoes the groups'
   * sizes and the pair in input order.
   */
  lemma SuccessIff(env: Env, data: Data, iv: string, dv: string, pair: Pair)
    ensures WelchTTest(env, data, iv, dv, pair).Ok? <==>
      Utils.Acceptable(data, iv, dv, pair) &&
      var t, cv, tv := data.frame, pair.items[0], pair.items[1];
      |Utils.Group(t, iv, dv, cv)| >= 2 && |Utils.Group(t, iv, dv, tv)| >= 2 &&
      AllNumbers(Utils.Group(t, iv, dv, cv)) && AllNumbers(Utils.Group(t, iv, dv, tv))
    ensures var r := WelchTTest(env, data, iv, dv, pair);
      r.Ok? ==>
        r.value.nControl == |Utils.Group(data.frame, iv, dv, pair.items[0])| >= 2 &&
        r.value.nTest == |Utils.Group(data.frame, iv, dv, pair.items[1])| >= 2 &&
        r.value.controlValue == pair.items[0] && r.value.testValue == pair.items[1]
  {
  }

  /** Any failure of the computation itself surfaces as a wrapped WelchTTestError. */
  lemma ComputationFailureIsWrapped(env: Env, data: Data, iv: string, dv: string, pair: Pair)
    ensures var r := WelchTTest(env, data, iv, dv, pair);
      r.Fail? && r.error.kind == WelchTTestError ==>
        Utils.Acceptable(data, iv, dv, pair) &&
        var t, cv, tv := data.frame, pair.items[0], pair.items[1];
        r.error.message == WrapPrefix + env.typeError(Utils.Group(t, iv, dv, cv), Utils.Group(t, iv, dv, tv))
  {
    var v := Utils.ValidateInputs(data, iv, dv, pair);
    if v.Ok? {
      var g := Utils.ExtractGroups(env.show, data.frame, iv, dv, pair.items);
    }
  }

  /** A defined df lies between min(n_control, n_test) - 1 and n_control + n_test - 2. */
  lemma DfBounds(env: Env, data: Data, iv: string, dv: string, pair: Pair)
    ensures var r := WelchTTest(env, data, iv, dv, pair);
      r.Ok? && r.value.degreesOfFreedom.Num? ==>
        (Min(r.value.nControl, r.value.nTest) - 1) as real <= r.value.degreesOfFreedom.value <=
        (r.value.nControl + r.value.nTest - 2) as real
  {
    var r := WelchTTest(env, data, iv, dv, pair);
    if r.Ok? && r.value.degreesOfFreedom.Num? {
      var res := r.value;
      assert res.stdControl.Num? && res.stdTest.Num?;
      WelchDfBounds(res.stdControl.value, res.stdTest.value, res.nControl, res.nTest);
    }
  }

  /** With defined standard deviations, df is undefined (NaN) exactly when both are zero. */
  lemma DfUndefinedIff(env: Env, data: Data, iv: string, dv: string, pair: Pair)
    ensures var r := WelchTTest(env, data, iv, dv, pair);
      r.Ok? && r.value.stdControl.Num? && r.value.stdTest.Num? ==>
        (r.value.degreesOfFreedom.NaN? <==> r.value.stdControl.value == 0.0 && r.value.stdTest.value == 0.0)
  {
    var r := WelchTTest(env, data, iv, dv, pair);
    if r.Ok? && r.value.stdControl.Num? && r.value.stdTest.Num? {
      var res := r.value;
      WelchDfUndefinedIff(res.stdControl.value, res.stdTest.value, res.nControl, res.nTest);
    }
  }
}
