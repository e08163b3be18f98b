/**
 * Lines 156-158: the feature columns are the categorical columns followed by
 * the numeric ones, with the label column removed if it is there.
 */
module Features {
  import opened Text
  import opened Transform
  import opened Classify

  /** The index of the first occurrence of `x`. */
  function FirstIndex(xs: seq<string>, x: string): (k: nat)
    requires x in xs
    ensures k < |xs| && xs[k] == x && x !in xs[..k]
  {
    if xs[0] == x then 0
    else
      var k := FirstIndex(xs[1..], x);
      assert xs[..k + 1] == [xs[0]] + xs[1..][..k];
      k + 1
  }

  /** Python's `list.remove(x)`: the first occurrence of `x` is deleted (callers check `x in xs`). */
  function RemoveFirst(xs: seq<string>, x: string): (r: seq<string>)
    requires x in xs
    ensures |r| == |xs| - 1
    ensures multiset(r) == multiset(xs) - multiset{x}
    ensures exists k :: 0 <= k < |xs| && xs[k] == x && x !in xs[..k] && r == xs[..k] + xs[k + 1..]
  {
    var k := FirstIndex(xs, x);
    assert xs == xs[..k] + [x] + xs[k + 1..];
    xs[..k] + xs[k + 1..]
  }

  /** Every element of `xs` other than `x`, in order. */
  function Without(xs: seq<string>, x: string): (r: seq<string>)
    ensures x !in r
    ensures forall y :: y != x ==> (y in r <==> y in xs)
  {
    if xs == [] then []
    else (if xs[0] == x then [] else [xs[0]]) + Without(xs[1..], x)
  }

  /** With no repetitions, removing the first occurrence removes every occurrence and nothing else. */
  lemma {:induction false} RemoveFirstOfDistinct(xs: seq<string>, x: string)
    requires x in xs && NoDuplicates(xs)
    ensures RemoveFirst(xs, x) == Without(xs, x)
  {
    var k := FirstIndex(xs, x);
    assert xs == xs[..k] + [x] + xs[k + 1..];
    AfterFirstIsFree(xs, k);
    WithoutSingleOccurrence(xs[..k], x, xs[k + 1..]);
  }

  /** In a list without repetitions, the element at `k` does not occur after `k`. */
  lemma AfterFirstIsFree(xs: seq<string>, k: nat)
    requires k < |xs| && NoDuplicates(xs)
    ensures xs[k] !in xs[k + 1..]
  {
    var after := xs[k + 1..];
    forall j | 0 <= j < |after| ensures after[j] != xs[k] {
      assert after[j] == xs[k + 1 + j];
    }
  }

  /** Dropping the one occurrence of `x` leaves the rest as it was. */
  lemma WithoutSingleOccurrence(before: seq<string>, x: string, after: seq<string>)
    requires x !in before && x !in after
    ensures Without(before + [x] + after, x) == before + after
  {
    var rest := [x] + after;
    assert before + [x] + after == before + rest;
    WithoutAppend(before, rest, x);
    WithoutAbsent(before, x);
    assert rest[1..] == after;
    WithoutAbsent(after, x);
    assert Without(rest, x) == after;
  }

  lemma {:induction false} WithoutAppend(a: seq<string>, b: seq<string>, x: string)
    ensures Without(a + b, x) == Without(a, x) + Without(b, x)
    decreases |a|
  {
    if a == [] {
      assert a + b == b;
    } else {
      assert (a + b)[1..] == a[1..] + b;
      WithoutAppend(a[1..], b, x);
    }
  }

  lemma {:induction false} WithoutAbsent(xs: seq<string>, x: string)
    requires x !in xs
    ensures Without(xs, x) == xs
  {
    if xs != [] {
      WithoutAbsent(xs[1..], x);
    }
  }

  /** `featuresCol = cat_cols + num_cols`, then `featuresCol.remove('quality')` when it is there. */
  method FeatureColumns(catCols: seq<string>, numCols: seq<string>) returns (features: seq<string>)
    ensures LABEL_COLUMN !in catCols + numCols ==> features == catCols + numCols
    ensures LABEL_COLUMN in catCols + numCols ==> features == RemoveFirst(catCols + numCols, LABEL_COLUMN)
    ensures multiset(features) + (if LABEL_COLUMN in catCols + numCols then multiset{LABEL_COLUMN} else multiset{})
              == multiset(catCols + numCols)
  {
    features := catCols + numCols;
    if LABEL_COLUMN in features {
      features := RemoveFirst(features, LABEL_COLUMN);
    }
  }

  /**
   * When the column names are all different, the features are the categorical
   * and numeric columns in order, without the label and with nothing else removed.
   */
  lemma DistinctFeaturesDropOnlyLabel(catCols: seq<string>, numCols: seq<string>)
    requires NoDuplicates(catCols + numCols)
    ensures var features := if LABEL_COLUMN in catCols + numCols then RemoveFirst(catCols + numCols, LABEL_COLUMN) else catCols + numCols;
            && features == Without(catCols + numCols, LABEL_COLUMN)
            && LABEL_COLUMN !in features
  {
    if LABEL_COLUMN in catCols + numCols {
      RemoveFirstOfDistinct(catCols + numCols, LABEL_COLUMN);
    } else {
      WithoutAbsent(catCols + numCols, LABEL_COLUMN);
    }
  }

  /**
   * With unique field names, `cat_cols + num_cols` repeats no name, so the
   * feature list is that list without the label and nothing else removed.
   */
  lemma UniqueSchemaGivesDistinctFeatures(columns: seq<Column>, catCols: seq<string>, catTh: int, carTh: int)
    requires UniqueNames(columns)
    requires (set x | x in catCols) == CatColsSet(columns, catTh, carTh) && NoDuplicates(catCols)
    ensures NoDuplicates(catCols + NumCols(columns, NamesWithRole(columns, NumericButCategorical, catTh, carTh)))
  {
    var num := NumCols(columns, NamesWithRole(columns, NumericButCategorical, catTh, carTh));
    NumColsAreHighCountNumeric(columns, catTh, carTh, |columns|);
    assert columns[..|columns|] == columns;
    assert num == NamesWithRole(columns, Numeric, catTh, carTh);
    NamesWithRoleDistinct(columns, Numeric, catTh, carTh);
    assert NoDuplicates(num);
    BucketsDisjoint(columns, catTh, carTh);
    var all := catCols + num;
    forall i, j | 0 <= i < j < |all| ensures all[i] != all[j] {
      if j < |catCols| {
        assert all[i] == catCols[i] && all[j] == catCols[j];
      } else if i >= |catCols| {
        assert all[i] == num[i - |catCols|] && all[j] == num[j - |catCols|];
      } else {
        assert all[i] == catCols[i] && all[j] == num[j - |catCols|];
        assert all[i] in CatColsSet(columns, catTh, carTh);
        assert all[j] in (set x | x in num);
      }
    }
  }
}
