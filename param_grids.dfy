/**
 * `get_decision_tree_params`: the two classifier families tried, each with the
 * grid of parameter settings that cross-validation searches. A grid is what
 * `ParamGridBuilder().addGrid(...)....build()` returns: one parameter map per
 * combination of listed values, the first listed parameter varying slowest
 * (the order of Python's `itertools.product`).
 */
module ParamGrids {

  datatype ParamValue = IntValue(i: int) | RealValue(r: real) | TextValue(s: string)

  /** One `addGrid(param, values)` call. */
  datatype Axis = Axis(param: string, values: seq<ParamValue>)

  type ParamMap = map<string, ParamValue>

  /** Each map of `maps` extended with `param`, once per value, values in order. */
  function Extend(param: string, values: seq<ParamValue>, maps: seq<ParamMap>): (r: seq<ParamMap>)
    ensures |r| == |values| * |maps|
    decreases |values|
  {
    if values == [] then []
    else
      var rest := Extend(param, values[1..], maps);
      assert |values| * |maps| == |maps| + (|values| - 1) * |maps|;
      seq(|maps|, i requires 0 <= i < |maps| => maps[i][param := values[0]]) + rest
  }

  /** `build()` over the axes added, in the order added: one map per combination of listed values. */
  function Build(axes: seq<Axis>): (r: seq<ParamMap>)
    ensures |r| == GridSize(axes)
    decreases |axes|
  {
    if axes == [] then [map[]]
    else Extend(axes[0].param, axes[0].values, Build(axes[1..]))
  }

  /** The product of the numbers of values listed on the axes. */
  function GridSize(axes: seq<Axis>): nat {
    if axes == [] then 1 else |axes[0].values| * GridSize(axes[1..])
  }

  ghost function Params(axes: seq<Axis>): set<string> {
    set k | 0 <= k < |axes| :: axes[k].param
  }

  ghost predicate DistinctParams(axes: seq<Axis>) {
    forall i, j :: 0 <= i < j < |axes| ==> axes[i].param != axes[j].param
  }

  /** `m` sets exactly the grid's parameters, each to one of the values listed for it. */
  ghost predicate Chooses(axes: seq<Axis>, m: ParamMap) {
    && m.Keys == Params(axes)
    && forall k :: 0 <= k < |axes| ==> m[axes[k].param] in axes[k].values
  }

  /** The maps `Extend` yields are exactly the given maps with one of the values set. */
  lemma {:induction false} InExtend(param: string, values: seq<ParamValue>, maps: seq<ParamMap>, m: ParamMap)
    ensures m in Extend(param, values, maps) <==> exists v, m0 :: v in values && m0 in maps && m == m0[param := v]
    decreases |values|
  {
    if values != [] {
      InExtend(param, values[1..], maps, m);
      var head := seq(|maps|, i requires 0 <= i < |maps| => maps[i][param := values[0]]);
      assert Extend(param, values, maps) == head + Extend(param, values[1..], maps);
      if m in head {
        var i :| 0 <= i < |maps| && head[i] == m;
        assert values[0] in values && maps[i] in maps && m == maps[i][param := values[0]];
      } else if m in Extend(param, values[1..], maps) {
        var v, m0 :| v in values[1..] && m0 in maps && m == m0[param := v];
        assert v in values;
      }
      if exists v, m0 :: v in values && m0 in maps && m == m0[param := v] {
        var v, m0 :| v in values && m0 in maps && m == m0[param := v];
        if v == values[0] {
          var i :| 0 <= i < |maps| && maps[i] == m0;
          assert head[i] == m;
        } else {
          assert v in values[1..];
        }
      }
    }
  }

  /** The parameters of a grid are its first parameter and, apart from it, those of the remaining axes. */
  lemma ParamsCons(axes: seq<Axis>)
    requires axes != [] && DistinctParams(axes)
    ensures Params(axes) == {axes[0].param} + Params(axes[1..])
    ensures axes[0].param !in Params(axes[1..])
    ensures DistinctParams(axes[1..])
  {
    var p, rest := axes[0].param, axes[1..];
    forall x | x in Params(axes) ensures x in {p} + Params(rest) {
      var k :| 0 <= k < |axes| && axes[k].param == x;
      if k > 0 {
        assert rest[k - 1].param == x;
      }
    }
    forall x | x in Params(rest) ensures x in Params(axes) && x != p {
      var k :| 0 <= k < |rest| && rest[k].param == x;
      assert axes[k + 1].param == x;
    }
  }

  /** Every map in a grid chooses one listed value per parameter. */
  lemma {:induction false} BuildSound(axes: seq<Axis>, m: ParamMap)
    requires DistinctParams(axes) && m in Build(axes)
    ensures Chooses(axes, m)
    decreases |axes|
  {
    if axes == [] {
      assert Params(axes) == {};
    } else {
      var p, rest := axes[0].param, axes[1..];
      ParamsCons(axes);
      InExtend(p, axes[0].values, Build(rest), m);
      var v, m0 :| v in axes[0].values && m0 in Build(rest) && m == m0[p := v];
      BuildSound(rest, m0);
      forall k | 0 <= k < |axes| ensures m[axes[k].param] in axes[k].values {
        if k > 0 {
          assert axes[k] == rest[k - 1];
        }
      }
    }
  }

  /** Every choice of one listed value per parameter is a map of the grid. */
  lemma {:induction false} BuildComplete(axes: seq<Axis>, m: ParamMap)
    requires DistinctParams(axes) && Chooses(axes, m)
    ensures m in Build(axes)
    decreases |axes|
  {
    if axes == [] {
      assert Params(axes) == {};
      assert m == map[];
    } else {
      var p, rest := axes[0].param, axes[1..];
      ParamsCons(axes);
      ChoosesTail(axes, m);
      var m0 := m - {p};
      BuildComplete(rest, m0);
      InExtend(p, axes[0].values, Build(rest), m);
    }
  }

  /** A choice for a grid is its first parameter's value set on a choice for the remaining axes. */
  lemma ChoosesTail(axes: seq<Axis>, m: ParamMap)
    requires axes != [] && DistinctParams(axes) && Chooses(axes, m)
    ensures Chooses(axes[1..], m - {axes[0].param})
    ensures m[axes[0].param] in axes[0].values
    ensures m == (m - {axes[0].param})[axes[0].param := m[axes[0].param]]
  {
    var p, rest := axes[0].param, axes[1..];
    ParamsCons(axes);
    var m0 := m - {p};
    assert m0.Keys == Params(rest);
    forall k | 0 <= k < |rest| ensures m0[rest[k].param] in rest[k].values {
      assert rest[k] == axes[k + 1];
    }
  }

  /**
   * A grid is the full cartesian product of its value lists: a map is in it
   * exactly when it sets every parameter of the grid, and nothing else, to one
   * of the values listed for that parameter.
   */
  lemma BuildIsProduct(axes: seq<Axis>, m: ParamMap)
    requires DistinctParams(axes)
    ensures m in Build(axes) <==> Chooses(axes, m)
  {
    if m in Build(axes) {
      BuildSound(axes, m);
    }
    if Chooses(axes, m) {
      BuildComplete(axes, m);
    }
  }

  datatype Classifier = LogisticRegression | DecisionTreeClassifier

  /** A classifier family: its log name, estimator, feature and label columns, and grid. */
  datatype Family = Family(name: string, classifier: Classifier, featuresCol: string, labelCol: string, grid: seq<ParamMap>)

  /** Lines 56-60. */
  const LOGISTIC_REGRESSION_AXES: seq<Axis> := [
    Axis("maxIter", [IntValue(10), IntValue(20), IntValue(50)]),
    Axis("regParam", [RealValue(0.01), RealValue(0.1), RealValue(0.5)]),
    Axis("elasticNetParam", [RealValue(0.0), RealValue(0.5), RealValue(1.0)])]

  /** Lines 61-65. */
  const DECISION_TREE_AXES: seq<Axis> := [
    Axis("maxDepth", [IntValue(3), IntValue(5), IntValue(10)]),
    Axis("maxBins", [IntValue(20), IntValue(40), IntValue(60)]),
    Axis("impurity", [TextValue("entropy"), TextValue("gini")])]

  /** Both classifiers read the standardised feature vector. */
  const SCALED_FEATURES: string := "scaledFeatures"

  /** `get_decision_tree_params(labelCol)`: logistic regression first, then the decision tree. */
  function ModelFamilies(labelCol: string): (r: seq<Family>)
    ensures |r| == 2
    ensures r[0].name == "LR" && r[0].classifier == LogisticRegression && |r[0].grid| == 27
    ensures r[1].name == "DT" && r[1].classifier == DecisionTreeClassifier && |r[1].grid| == 18
    ensures forall k :: 0 <= k < |r| ==> r[k].featuresCol == SCALED_FEATURES && r[k].labelCol == labelCol
  {
    assert GridSize(LOGISTIC_REGRESSION_AXES[2..]) == 3;
    assert GridSize(LOGISTIC_REGRESSION_AXES[1..]) == 9;
    assert GridSize(DECISION_TREE_AXES[2..]) == 2;
    assert GridSize(DECISION_TREE_AXES[1..]) == 6;
    [Family("LR", LogisticRegression, SCALED_FEATURES, labelCol, Build(LOGISTIC_REGRESSION_AXES)),
     Family("DT", DecisionTreeClassifier, SCALED_FEATURES, labelCol, Build(DECISION_TREE_AXES))]
  }

  /** Every combination of the listed settings is in the logistic-regression grid, and nothing else. */
  lemma LogisticRegressionGridIsProduct(labelCol: string, m: ParamMap)
    ensures m in ModelFamilies(labelCol)[0].grid <==> Chooses(LOGISTIC_REGRESSION_AXES, m)
  {
    BuildIsProduct(LOGISTIC_REGRESSION_AXES, m);
  }

  /** Every combination of the listed settings is in the decision-tree grid, and nothing else. */
  lemma DecisionTreeGridIsProduct(labelCol: string, m: ParamMap)
    ensures m in ModelFamilies(labelCol)[1].grid <==> Chooses(DECISION_TREE_AXES, m)
  {
    BuildIsProduct(DECISION_TREE_AXES, m);
  }
}
