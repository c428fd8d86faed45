/**
 * Lemmas about concrete tables, stated for both entry points: a grouping column
 * with three labels, labels that do not occur, and a control group left with a single
 * observation once its missing cell is dropped.
 */
module Scenarios {
  import opened Wrappers
  import opened Frames
  import Utils
  import Core
  import ErrorMap

  const A := Text("a")
  const B := Text("b")
  const C := Text("c")

  const TwoLabels := [A, A, B, B]
  const Observations := [Number(1.0), Missing, Number(3.0), Number(4.0)]
  const ThreeLabels := [A, B, C]

  /** group: a a b b; value: 1, missing, 3, 4. Group "a" keeps a single observation. */
  function TwoGroups(): (t: Frame)
    ensures t.height == 4 && "group" in t.columns && "value" in t.columns
  {
    Table(4, map["group" := TwoLabels, "value" := Observations])
  }

  /** group: a b c; value: 1 2 3. */
  function ThreeGroups(): (t: Frame)
    ensures t.height == 3 && "group" in t.columns && "value" in t.columns
  {
    Table(3, map["group" := ThreeLabels, "value" := [Number(1.0), Number(2.0), Number(3.0)]])
  }

  /** The distinct labels of a column are its non-missing cells. */
  lemma LabelsOf(s: seq<Value>, labels: set<Value>)
    requires forall v :: v in labels <==> v in s && v != Missing
    ensures DistinctValues(s) == labels
  {
    forall v
      ensures v in DistinctValues(s) <==> v in labels
    {
      DistinctValuesMembers(s, v);
    }
  }

  /** Three labels are refused with the distinct-value error whatever the pair is. */
  lemma ThreeLabelsRefused(env: Core.Env, pair: Pair)
    ensures Core.WelchTTest(env, DataFrame(ThreeGroups()), "group", "value", pair) ==
      Fail(Utils.InvalidData(Utils.TooManyValues(3)))
  {
    assert DistinctValues(ThreeLabels) == {A, B, C} by {
      LabelsOf(ThreeLabels, {A, B, C});
    }
  }

  /** A missing grouping column is refused with an InvalidColumnError naming it. */
  lemma MissingColumnNamed(env: Core.Env, pair: Pair)
    ensures Core.WelchTTest(env, DataFrame(TwoGroups()), "grp", "value", pair) ==
      Fail(Utils.InvalidColumn(Utils.ColumnNotFound("grp")))
  {
  }

  /** Labels that do not occur: the control label is reported first, in both versions. */
  lemma AbsentLabelsReported(env: Core.Env)
    ensures var pair := Pair(List, [Text("x"), Text("y")]);
      Core.WelchTTest(env, DataFrame(TwoGroups()), "group", "value", pair) ==
        Fail(Utils.InvalidData(Utils.NoControlRows(env.show(Text("x"))))) &&
      ErrorMap.Outcome(env, DataFrame(TwoGroups()), "group", "value", pair) ==
        Fail(Utils.NoControlRows(env.show(Text("x"))))
  {
    var t := TwoGroups();
    assert DistinctValues(TwoLabels) == {A, B} by {
      LabelsOf(TwoLabels, {A, B});
    }
    Utils.AbsentValueHasNoRows(t, "group", "value", Text("x"));
  }

  /** One valid control observation: refused by the raising version, computed by the other. */
  lemma SingleControlObservation(env: Core.Env)
    ensures var pair := Pair(List, [A, B]);
      Core.WelchTTest(env, DataFrame(TwoGroups()), "group", "value", pair) ==
        Fail(Utils.InvalidData(Utils.SmallControlMessage)) &&
      ErrorMap.Outcome(env, DataFrame(TwoGroups()), "group", "value", pair).Ok? &&
      ErrorMap.Outcome(env, DataFrame(TwoGroups()), "group", "value", pair).value.nControl == 1 &&
      ErrorMap.Outcome(env, DataFrame(TwoGroups()), "group", "value", pair).value.nTest == 2
  {
    var t := TwoGroups();
    assert DistinctValues(TwoLabels) == {A, B} by {
      LabelsOf(TwoLabels, {A, B});
    }
    assert TwoLabels[1..] == [A, B, B] && TwoLabels[2..] == [B, B] && TwoLabels[3..] == [B];
    assert Observations[1..] == [Missing, Number(3.0), Number(4.0)] && Observations[2..] == [Number(3.0), Number(4.0)];
    assert Select(TwoLabels[2..], Observations[2..], A) == [];
    assert Select(TwoLabels, Observations, A) == [Number(1.0), Missing];
    assert Select(TwoLabels[2..], Observations[2..], B) == [Number(3.0), Number(4.0)];
    assert Select(TwoLabels, Observations, B) == [Number(3.0), Number(4.0)];
    assert Utils.Group(t, "group", "value", A) == [Number(1.0)];
    assert Utils.Group(t, "group", "value", B) == [Number(3.0), Number(4.0)];
  }
}
