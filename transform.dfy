/**
 * `data_transformations`: column names are normalised (stripped, spaces turned
 * into underscores), then the eleven measurement columns are cast to float and
 * the label column to integer, each looked up by name in the frame.
 */
module Transform {
  import opened Wrappers
  import opened Text
  import opened Frames

  const FLOAT_COLUMNS: seq<string> := [
    "fixed_acidity", "volatile_acidity", "citric_acid", "residual_sugar",
    "chlorides", "free_sulfur_dioxide", "total_sulfur_dioxide", "density",
    "pH", "sulphates", "alcohol"]

  const LABEL_COLUMN: string := "quality"

  /** Every column the transformation looks up, in the order it looks them up. */
  const REQUIRED_COLUMNS: seq<string> := FLOAT_COLUMNS + [LABEL_COLUMN]

  /** `name.strip().replace(" ", "_")`. */
  function NormalizeName(name: string): (r: string)
    ensures ' ' !in r
    ensures Bare(r)
    ensures |r| == |Strip(name)|
    ensures forall i :: 0 <= i < |r| ==> r[i] == (if Strip(name)[i] == ' ' then '_' else Strip(name)[i])
  {
    var t := Strip(name);
    ReplaceCharRemoves(t, ' ', '_');
    ReplaceChar(t, ' ', '_')
  }

  /** Normalising an already normalised name changes nothing. */
  lemma NormalizeNameIdempotent(name: string)
    ensures NormalizeName(NormalizeName(name)) == NormalizeName(name)
  {
    var r := NormalizeName(name);
    StripBare(r);
    ReplaceCharAbsent(r, ' ', '_');
  }

  /** The column names after the (corrected) renaming of line 103: one normalised name per column, in order. */
  function RenamedColumns(columns: seq<string>): (r: seq<string>)
    ensures |r| == |columns|
    ensures forall j :: 0 <= j < |r| ==> r[j] == NormalizeName(columns[j])
    ensures forall j :: 0 <= j < |r| ==> ' ' !in r[j] && Bare(r[j])
  {
    seq(|columns|, j requires 0 <= j < |columns| => NormalizeName(columns[j]))
  }

  /**
   * Line 103 as written: `df.columns` is a list of Python strings and `str` has
   * no `alias`, so any frame with a column raises `AttributeError`.
   */
  function SelectAliasAsWritten(columns: seq<string>): (r: Result<seq<string>, FetchError>)
    ensures r.Success? <==> columns == []
    ensures r.Success? ==> r.value == []
    ensures r.Failure? ==> r.error == NoAttributeAlias
  {
    if columns == [] then Success([]) else Failure(NoAttributeAlias)
  }

  /** `df[name]` resolves when exactly one column carries the name. */
  ghost predicate Resolves(names: seq<string>, name: string) {
    multiset(names)[name] == 1
  }

  /** The first index holding `name`. */
  function IndexOf(names: seq<string>, name: string): (r: Option<nat>)
    ensures r.Some? ==> r.value < |names| && names[r.value] == name && name !in names[..r.value]
    ensures r.None? ==> name !in names
  {
    if names == [] then None
    else if names[0] == name then Some(0)
    else match IndexOf(names[1..], name)
      case None => None
      case Some(i) =>
        assert names[..i + 1] == [names[0]] + names[1..][..i];
        Some(i + 1)
  }

  /** Spark's lookup of a column by name: the index of the one column so named, or nothing. */
  function Resolve(names: seq<string>, name: string): (r: Option<nat>)
    ensures r.Some? <==> Resolves(names, name)
    ensures r.Some? ==> r.value < |names| && names[r.value] == name
  {
    match IndexOf(names, name)
    case None => None
    case Some(i) =>
      assert names == names[..i] + [name] + names[i + 1..];
      assert multiset(names)[name] == 1 + multiset(names[i + 1..])[name];
      if name in names[i + 1..] then None else Some(i)
  }

  /** A name that resolves is held by no other column. */
  lemma OnlyHolder(names: seq<string>, j: int, other: int)
    requires 0 <= j < |names| && 0 <= other < |names| && j != other
    requires Resolves(names, names[j])
    ensures names[other] != names[j]
  {
    var lo, hi := if j < other then j else other, if j < other then other else j;
    assert names == names[..lo] + [names[lo]] + names[lo + 1..hi] + [names[hi]] + names[hi + 1..];
  }

  /** The type of a column after the casts: `withColumn` replaces a column's type in place and keeps its position. */
  function CastType(name: string, original: DataType): DataType {
    if name in FLOAT_COLUMNS then FloatType
    else if name == LABEL_COLUMN then IntegerType
    else original
  }

  /** The label column is not one of the float columns. */
  lemma LabelIsNotFloat()
    ensures LABEL_COLUMN !in FLOAT_COLUMNS
    ensures |REQUIRED_COLUMNS| == |FLOAT_COLUMNS| + 1 && REQUIRED_COLUMNS[|FLOAT_COLUMNS|] == LABEL_COLUMN
    ensures forall k :: 0 <= k < |FLOAT_COLUMNS| ==> REQUIRED_COLUMNS[k] == FLOAT_COLUMNS[k]
  {
  }

  /** The loop of lines 109-110: each float column is looked up, in order, and its type set to float. */
  method CastFloatColumns(fields: seq<Field>) returns (r: Result<seq<Field>, FetchError>)
    ensures r.Success? <==> forall k :: 0 <= k < |FLOAT_COLUMNS| ==> Resolves(Names(fields), FLOAT_COLUMNS[k])
    ensures r.Success? ==>
              && |r.value| == |fields|
              && forall j :: 0 <= j < |fields| ==>
                   r.value[j] == Field(fields[j].name, if fields[j].name in FLOAT_COLUMNS then FloatType else fields[j].dataType)
    ensures r.Failure? ==>
              exists k :: 0 <= k < |FLOAT_COLUMNS|
                && r.error == UnresolvedColumn(FLOAT_COLUMNS[k])
                && !Resolves(Names(fields), FLOAT_COLUMNS[k])
                && forall m :: 0 <= m < k ==> Resolves(Names(fields), FLOAT_COLUMNS[m])
  {
    var names := Names(fields);
    var current := fields;
    for i := 0 to |FLOAT_COLUMNS|
      invariant |current| == |fields|
      invariant forall k :: 0 <= k < i ==> Resolves(names, FLOAT_COLUMNS[k])
      invariant forall j :: 0 <= j < |fields| ==>
                  current[j] == Field(fields[j].name, if fields[j].name in FLOAT_COLUMNS[..i] then FloatType else fields[j].dataType)
    {
      var column := FLOAT_COLUMNS[i];
      match Resolve(names, column)
      case None =>
        return Failure(UnresolvedColumn(column));
      case Some(j) =>
        assert FLOAT_COLUMNS[..i + 1] == FLOAT_COLUMNS[..i] + [column];
        forall j' | 0 <= j' < |fields| && j' != j ensures fields[j'].name != column {
          OnlyHolder(names, j, j');
        }
        current := current[j := Field(column, FloatType)];
    }
    assert FLOAT_COLUMNS[..|FLOAT_COLUMNS|] == FLOAT_COLUMNS;
    return Success(current);
  }

  /** Lines 109-112 over a frame's schema: the float columns, then the label column. */
  method CastColumns(fields: seq<Field>) returns (r: Result<seq<Field>, FetchError>)
    ensures r.Success? <==> forall k :: 0 <= k < |REQUIRED_COLUMNS| ==> Resolves(Names(fields), REQUIRED_COLUMNS[k])
    ensures r.Success? ==>
              && |r.value| == |fields|
              && forall j :: 0 <= j < |fields| ==> r.value[j] == Field(fields[j].name, CastType(fields[j].name, fields[j].dataType))
    ensures r.Failure? ==>
              exists k :: 0 <= k < |REQUIRED_COLUMNS|
                && r.error == UnresolvedColumn(REQUIRED_COLUMNS[k])
                && !Resolves(Names(fields), REQUIRED_COLUMNS[k])
                && forall m :: 0 <= m < k ==> Resolves(Names(fields), REQUIRED_COLUMNS[m])
  {
    LabelIsNotFloat();
    var names := Names(fields);
    var floats := CastFloatColumns(fields);
    if floats.Failure? {
      return floats;
    }
    var current := floats.value;
    match Resolve(names, LABEL_COLUMN)
    case None =>
      assert !Resolves(names, REQUIRED_COLUMNS[|FLOAT_COLUMNS|]);
      return Failure(UnresolvedColumn(LABEL_COLUMN));
    case Some(j) =>
      forall j' | 0 <= j' < |fields| && j' != j ensures fields[j'].name != LABEL_COLUMN {
        OnlyHolder(names, j, j');
      }
      current := current[j := Field(LABEL_COLUMN, IntegerType)];
      return Success(current);
  }

  /**
   * `data_transformations` with line 103 as evidently intended: every column
   * renamed by position (`df.toDF(*[c.strip().replace(" ", "_") for c in df.columns])`),
   * then the casts.
   */
  method DataTransformations(df: DataFrame) returns (r: Result<DataFrame, FetchError>)
    ensures r.Success? <==>
              forall k :: 0 <= k < |REQUIRED_COLUMNS| ==> Resolves(RenamedColumns(Names(df.fields)), REQUIRED_COLUMNS[k])
    ensures r.Success? ==>
              && r.value.rows == df.rows
              && |r.value.fields| == |df.fields|
              && forall j :: 0 <= j < |df.fields| ==>
                   var name := NormalizeName(df.fields[j].name);
                   r.value.fields[j] == Field(name, CastType(name, df.fields[j].dataType))
    ensures r.Failure? ==> r.error.UnresolvedColumn? && r.error.column in REQUIRED_COLUMNS
  {
    var renamed := RenamedColumns(Names(df.fields));
    var fields := seq(|df.fields|, j requires 0 <= j < |df.fields| => Field(renamed[j], df.fields[j].dataType));
    assert Names(fields) == renamed;
    var cast := CastColumns(fields);
    match cast
    case Failure(e) =>
      r := Failure(e);
    case Success(fs) =>
      r := Success(DataFrame(fs, df.rows));
  }

  /** `data_transformations` as written: it never returns a frame. */
  method DataTransformationsAsWritten(df: DataFrame) returns (r: Result<DataFrame, FetchError>)
    ensures r.Failure?
    ensures df.fields != [] ==> r.error == NoAttributeAlias
  {
    var selected := SelectAliasAsWritten(Names(df.fields));
    match selected
    case Failure(e) =>
      r := Failure(e);
    case Success(names) =>
      // No columns: every lookup of a required column fails.
      var cast := CastColumns([]);
      assert !Resolves([], REQUIRED_COLUMNS[0]);
      match cast
      case Failure(e) =>
        r := Failure(e);
      case Success(fs) =>
        r := Success(DataFrame(fs, df.rows));
  }
}
