/**
 * `grab_col_names`: each schema field is put in a bucket by its type and its
 * number of distinct values. A text field with more than `carTh` distinct
 * values is high-cardinality (`cat_but_car`), any other text field is
 * categorical (`cat_cols`); a non-text field with fewer than `catTh` distinct
 * values is "numeric but categorical" (`num_but_cat`) and, unlike the usual
 * form of this heuristic, is added to no output at all; the remaining non-text
 * fields are numeric (`num_cols`).
 */
module Classify {
  import opened Text

  /**
   * A schema field as the classification sees it: its name, whether its type
   * is text (the test `str(field.dataType) == 'StringType'` of line 39), and
   * the number of distinct values the engine counts at line 38.
   */
  datatype Column = Column(name: string, isString: bool, distinctCount: nat)

  datatype Role = Categorical | HighCardinality | NumericButCategorical | Numeric

  /** The branch of lines 39-45 a field takes (`Numeric` is the case that appends nowhere). */
  function RoleOf(c: Column, catTh: int, carTh: int): (r: Role)
    ensures r == HighCardinality <==> c.isString && c.distinctCount > carTh
    ensures r == Categorical <==> c.isString && c.distinctCount <= carTh
    ensures r == NumericButCategorical <==> !c.isString && c.distinctCount < catTh
    ensures r == Numeric <==> !c.isString && c.distinctCount >= catTh
  {
    if c.isString then
      if c.distinctCount > carTh then HighCardinality else Categorical
    else if c.distinctCount < catTh then NumericButCategorical
    else Numeric
  }

  /** The names of the fields that take `role`, in schema order. */
  function NamesWithRole(columns: seq<Column>, role: Role, catTh: int, carTh: int): seq<string>
  {
    if columns == [] then []
    else
      var last := columns[|columns| - 1];
      NamesWithRole(columns[..|columns| - 1], role, catTh, carTh)
        + (if RoleOf(last, catTh, carTh) == role then [last.name] else [])
  }

  /** A name is listed for a role exactly when some field with that name takes the role. */
  lemma {:induction false} InNamesWithRole(columns: seq<Column>, role: Role, catTh: int, carTh: int, x: string)
    ensures x in NamesWithRole(columns, role, catTh, carTh) <==>
              exists i :: 0 <= i < |columns| && columns[i].name == x && RoleOf(columns[i], catTh, carTh) == role
    decreases |columns|
  {
    if columns != [] {
      var init := columns[..|columns| - 1];
      InNamesWithRole(init, role, catTh, carTh, x);
      if exists i :: 0 <= i < |columns| && columns[i].name == x && RoleOf(columns[i], catTh, carTh) == role {
        var i :| 0 <= i < |columns| && columns[i].name == x && RoleOf(columns[i], catTh, carTh) == role;
        if i < |init| {
          assert init[i] == columns[i];
        }
      }
    }
  }

  /** Line 48: the names of the non-text fields whose name is not in `excluded`, in schema order. */
  function NumCols(columns: seq<Column>, excluded: seq<string>): (r: seq<string>)
    ensures forall x :: x in r <==> x !in excluded && exists i :: 0 <= i < |columns| && !columns[i].isString && columns[i].name == x
  {
    if columns == [] then []
    else
      var init := columns[..|columns| - 1];
      var last := columns[|columns| - 1];
      var r := NumCols(init, excluded) + (if !last.isString && last.name !in excluded then [last.name] else []);
      assert forall i :: 0 <= i < |init| ==> init[i] == columns[i];
      r
  }

  /** Line 47: `set(cat_cols) - set(cat_but_car)`. */
  ghost function CatColsSet(columns: seq<Column>, catTh: int, carTh: int): set<string> {
    (set x | x in NamesWithRole(columns, Categorical, catTh, carTh))
      - (set x | x in NamesWithRole(columns, HighCardinality, catTh, carTh))
  }

  /** The names of the text fields. */
  ghost function StringNames(columns: seq<Column>): set<string> {
    set i | 0 <= i < |columns| && columns[i].isString :: columns[i].name
  }

  /** No two fields share a name. */
  ghost predicate UniqueNames(columns: seq<Column>) {
    forall i, j :: 0 <= i < j < |columns| ==> columns[i].name != columns[j].name
  }

  /** `list(s)` of a Python set: every element once, in an order the model leaves open. */
  method ListOfSet(s: set<string>) returns (r: seq<string>)
    ensures (set x | x in r) == s
    ensures NoDuplicates(r)
  {
    r := [];
    var rest := s;
    while rest != {}
      invariant (set x | x in r) + rest == s
      invariant (set x | x in r) !! rest
      invariant NoDuplicates(r)
      decreases |rest|
    {
      var x :| x in rest;
      r := r + [x];
      rest := rest - {x};
    }
  }

  /** Lines 35-49. */
  method GrabColNames(columns: seq<Column>, catTh: int, carTh: int)
    returns (catCols: seq<string>, numCols: seq<string>, catButCar: seq<string>)
    ensures catButCar == NamesWithRole(columns, HighCardinality, catTh, carTh)
    ensures (set x | x in catCols) == CatColsSet(columns, catTh, carTh) && NoDuplicates(catCols)
    ensures numCols == NumCols(columns, NamesWithRole(columns, NumericButCategorical, catTh, carTh))
  {
    var cat, numButCat, car := [], [], [];
    for i := 0 to |columns|
      invariant cat == NamesWithRole(columns[..i], Categorical, catTh, carTh)
      invariant numButCat == NamesWithRole(columns[..i], NumericButCategorical, catTh, carTh)
      invariant car == NamesWithRole(columns[..i], HighCardinality, catTh, carTh)
    {
      var field := columns[i];
      assert columns[..i + 1][..i] == columns[..i];
      if field.isString {
        if field.distinctCount > carTh {
          car := car + [field.name];
        } else {
          cat := cat + [field.name];
        }
      } else if field.distinctCount < catTh {
        numButCat := numButCat + [field.name];
      }
    }
    assert columns[..|columns|] == columns;
    catCols := ListOfSet((set x | x in cat) - (set x | x in car));
    numCols := NumCols(columns, numButCat);
    catButCar := car;
  }

  /**
   * The text fields are split between `cat_cols` and `cat_but_car`: the two
   * are disjoint and together hold exactly the names of the text fields.
   */
  lemma StringColumnsSplit(columns: seq<Column>, catTh: int, carTh: int)
    ensures CatColsSet(columns, catTh, carTh) + (set x | x in NamesWithRole(columns, HighCardinality, catTh, carTh))
              == StringNames(columns)
    ensures CatColsSet(columns, catTh, carTh) !! (set x | x in NamesWithRole(columns, HighCardinality, catTh, carTh))
  {
    var high := set x | x in NamesWithRole(columns, HighCardinality, catTh, carTh);
    var low := set x | x in NamesWithRole(columns, Categorical, catTh, carTh);
    forall x | x in StringNames(columns) ensures x in low || x in high {
      var i :| 0 <= i < |columns| && columns[i].isString && columns[i].name == x;
      InNamesWithRole(columns, RoleOf(columns[i], catTh, carTh), catTh, carTh, x);
    }
    forall x | x in low || x in high ensures x in StringNames(columns) {
      InNamesWithRole(columns, Categorical, catTh, carTh, x);
      InNamesWithRole(columns, HighCardinality, catTh, carTh, x);
      var i :| 0 <= i < |columns| && columns[i].name == x && RoleOf(columns[i], catTh, carTh) in {Categorical, HighCardinality};
      assert columns[i].isString;
    }
  }

  /** With unique names, a field's name is listed for its own role only. */
  lemma UniqueRole(columns: seq<Column>, catTh: int, carTh: int, i: int, role: Role)
    requires UniqueNames(columns) && 0 <= i < |columns|
    ensures columns[i].name in NamesWithRole(columns, role, catTh, carTh) <==> RoleOf(columns[i], catTh, carTh) == role
  {
    InNamesWithRole(columns, role, catTh, carTh, columns[i].name);
  }

  /**
   * With unique names, `num_cols` is exactly the non-text fields with at least
   * `catTh` distinct values, in schema order.
   */
  lemma {:induction false} NumColsAreHighCountNumeric(columns: seq<Column>, catTh: int, carTh: int, n: nat)
    requires UniqueNames(columns) && n <= |columns|
    ensures NumCols(columns[..n], NamesWithRole(columns, NumericButCategorical, catTh, carTh))
              == NamesWithRole(columns[..n], Numeric, catTh, carTh)
  {
    if n > 0 {
      var prefix := columns[..n];
      assert prefix[..n - 1] == columns[..n - 1];
      NumColsAreHighCountNumeric(columns, catTh, carTh, n - 1);
      UniqueRole(columns, catTh, carTh, n - 1, NumericButCategorical);
    }
  }

  /** With unique names, the names listed for a role are all different. */
  lemma {:induction false} NamesWithRoleDistinct(columns: seq<Column>, role: Role, catTh: int, carTh: int)
    requires UniqueNames(columns)
    ensures NoDuplicates(NamesWithRole(columns, role, catTh, carTh))
    decreases |columns|
  {
    if columns != [] {
      var init := columns[..|columns| - 1];
      var last := columns[|columns| - 1];
      NamesWithRoleDistinct(init, role, catTh, carTh);
      InNamesWithRole(init, role, catTh, carTh, last.name);
    }
  }

  /**
   * A non-text field with fewer than `catTh` distinct values is in none of the
   * three outputs (with unique names; `num_cols` leaves it out in any case).
   */
  lemma LowCountNumericInNoBucket(columns: seq<Column>, catTh: int, carTh: int, i: int)
    requires 0 <= i < |columns| && !columns[i].isString && columns[i].distinctCount < catTh
    ensures columns[i].name !in NumCols(columns, NamesWithRole(columns, NumericButCategorical, catTh, carTh))
    ensures UniqueNames(columns) ==>
              && columns[i].name !in CatColsSet(columns, catTh, carTh)
              && columns[i].name !in NamesWithRole(columns, HighCardinality, catTh, carTh)
  {
    InNamesWithRole(columns, NumericButCategorical, catTh, carTh, columns[i].name);
    if UniqueNames(columns) {
      UniqueRole(columns, catTh, carTh, i, Categorical);
      UniqueRole(columns, catTh, carTh, i, HighCardinality);
    }
  }

  /** With unique names, no name is both categorical and numeric, nor both numeric and high-cardinality. */
  lemma BucketsDisjoint(columns: seq<Column>, catTh: int, carTh: int)
    requires UniqueNames(columns)
    ensures var num := NumCols(columns, NamesWithRole(columns, NumericButCategorical, catTh, carTh));
            && CatColsSet(columns, catTh, carTh) !! (set x | x in num)
            && (set x | x in num) !! (set x | x in NamesWithRole(columns, HighCardinality, catTh, carTh))
  {
    var num := NumCols(columns, NamesWithRole(columns, NumericButCategorical, catTh, carTh));
    forall x | x in num
      ensures x !in CatColsSet(columns, catTh, carTh)
      ensures x !in NamesWithRole(columns, HighCardinality, catTh, carTh)
    {
      var i :| 0 <= i < |columns| && !columns[i].isString && columns[i].name == x;
      UniqueRole(columns, catTh, carTh, i, Categorical);
      UniqueRole(columns, catTh, carTh, i, HighCardinality);
    }
  }
}
