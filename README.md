# Wine-quality training script: a verified model of its own logic

`WineQualityTrainingAndPrediction.py` is a Spark/boto3 script. It downloads
semicolon-separated wine-quality data from an object store, parses it into a
frame, normalises column names and casts the measurement columns, sorts the
schema into categorical, numeric and high-cardinality columns, assembles the
feature list, and cross-validates two classifier families over fixed
parameter grids. It keeps the family with the best validation F1 score.

This project models the parts of the script that are its own logic:

- `Text`: the Python string operations the script relies on. These are
  `str.strip()`, `str.split(sep)`, `str.replace` and the `if x` filter, on
  strings as sequences of characters. `sep.join` is defined only to state
  that splitting round-trips.
- `Frames`: the frame the engine builds. It holds a schema of named, typed
  fields and text rows. It also holds the exceptions that the fetch turns
  into `None`.
- `CsvParse`: the ad-hoc parsing in `fetch_dataframe_from_s3`.
  - Every double quote is deleted, not interpreted.
  - The whole text is stripped, split on CRLF, and empty lines are dropped.
  - Each line is split on `;`, and the first record is popped off as the
    header, whose names are stripped.
- `Transform`: `data_transformations` at the level of the schema.
  - Names are normalised: stripped, then spaces become `_`.
  - The eleven measurement columns are then cast to float and `quality` to
    integer.
  - Each cast is a lookup by name. It fails unless exactly one column has
    that name.
- `Fetch`: the composition of parsing, frame creation and the
  transformation. Every failure becomes an error value, which is the
  script's `None`.
- `Classify`: `grab_col_names`. Each schema field is given as its name,
  whether it is text, and its distinct-value count.
- `Features`: the feature list, which is `cat_cols + num_cols` with
  `'quality'` removed.
- `ParamGrids`: `get_decision_tree_params` and the grids that
  `ParamGridBuilder` builds.
- `Selection`: the running-best loop of `evaluate_models`. Scores are reals
  and fitted models are opaque tokens.

The imperative parts of the script keep their form:

- The bucket loop of `grab_col_names` is a method with a loop.
- The `df = df.withColumn(...)` loop is a method with a loop.
- The running-best loop is a method with a loop.
- `featuresCol.remove` is a method.

Each method is proved against specification functions, and lemmas about
those functions carry the properties.

Three points of the code are easy to misread:

- **Selection.** The loop starts from a best score of `0` and replaces it
  only on a strictly greater score. So it keeps no model when no score is
  above `0`. Otherwise it keeps the earliest candidate with the maximum
  score.
- **Unique column names.** With line 103 corrected (see Findings), nothing
  before the casts checks that names are unique. A required name held by two columns makes its cast lookup fail,
  which the fetch turns into `None`. A repeated name that is not required
  gets through the fetch. `grab_col_names` then raises on it at line 38 (see
  "Left out"). As written, line 103 fails before any lookup, and
  `grab_col_names(None)` then fails at line 37. The classifier lemmas that need unique names say so.
- **Renaming.** Line 103 is evidently meant to rename every column. Its
  `alias(col.strip().replace(" ", "_"))` names the new name. The casts at
  lines 106-112 look up underscored names such as `fixed_acidity`, which
  exist only after that renaming. As written it cannot rename anything (see
  Findings).

## Model

| member | source | states |
|---|---|---|
| Text.Strip | WineQualityTrainingAndPrediction.py:89 | the result has no whitespace at either end and is the input minus a whitespace prefix and a whitespace suffix |
| Text.StripIdempotent | WineQualityTrainingAndPrediction.py:93-103 | stripping twice is stripping once |
| Text.Split | WineQualityTrainingAndPrediction.py:89 | splitting gives at least one piece, no piece contains the separator, and joining the pieces with the separator gives back the input |
| Text.NonEmpty | WineQualityTrainingAndPrediction.py:89 | the `if x` filter keeps exactly the non-empty strings, never more of them than there were |
| Text.NonEmptyAppend | WineQualityTrainingAndPrediction.py:89 | the filter distributes over concatenation, so kept lines stay in their original order |
| Text.DeleteChar | WineQualityTrainingAndPrediction.py:88 | after `replace('"', '')` no quote is left and every other character is kept with its multiplicity |
| Text.DeleteCharAppend | WineQualityTrainingAndPrediction.py:88 | deleting distributes over concatenation, so the kept characters stay in their original order |
| Text.DeleteCharAbsent | WineQualityTrainingAndPrediction.py:88 | a text without quotes is left unchanged |
| Text.ReplaceChar | WineQualityTrainingAndPrediction.py:103 | `replace(" ", "_")` keeps the length; each position holding a space holds `_` and every other position keeps its character |
| Text.ReplaceCharRemoves | WineQualityTrainingAndPrediction.py:103 | replacing spaces by underscores leaves no space |
| CsvParse.Lines | WineQualityTrainingAndPrediction.py:88-89 | the lines kept are never empty |
| CsvParse.CleanColumns | WineQualityTrainingAndPrediction.py:93 | one cleaned name per header field, in order, each that field stripped and so with no whitespace at either end |
| CsvParse.LinesAreClean | WineQualityTrainingAndPrediction.py:88-89 | no line holds a double quote or a CRLF |
| CsvParse.ParseRecords | WineQualityTrainingAndPrediction.py:88-93 | parsing fails exactly when there is no non-empty line (the `pop(0)` on an empty list), and the error is then the missing header; a parsed header always has at least one name |
| CsvParse.ParsedFieldsHaveNoQuote | WineQualityTrainingAndPrediction.py:88-93 | no header name and no row field contains a double quote |
| CsvParse.RowsFollowLines | WineQualityTrainingAndPrediction.py:89-90 | there is one row per line after the header, in line order; no row comes from an empty line; each row joined with `;` is its line; no field holds a `;` |
| CsvParse.HeaderIsCleaned | WineQualityTrainingAndPrediction.py:90-93 | there is one header name per field of the first line, in order; each name is that field with only surrounding whitespace removed, has no whitespace at either end, and holds no `;` |
| CsvParse.BlankTextHasNoHeader | WineQualityTrainingAndPrediction.py:89-90 | a text that is only whitespace and quotes has no header to pop |
| Fetch.CreateDataFrame | WineQualityTrainingAndPrediction.py:94 | building the frame fails exactly when there is no data row; otherwise the schema names are the header and every column is text |
| Fetch.FetchDataFrame | WineQualityTrainingAndPrediction.py:85-99 | the corrected fetch returns a frame exactly when the text has a header, a data row and every looked-up column exactly once after renaming; the missing-header and empty-data errors are the ones raised; the frame keeps the rows and gives each column its normalised name and cast type |
| Fetch.FetchDataFrameAsWritten | WineQualityTrainingAndPrediction.py:85-99 | the fetch as written never returns a frame: a text with no line fails on the missing header, one with only a header fails on the empty dataset, and every other text fails on the missing `alias` attribute |
| Fetch.DistinctNamesResolve | WineQualityTrainingAndPrediction.py:110 | in a list of names without repetitions, every name it holds resolves |
| Fetch.DistinctCompleteHeaderLoads | WineQualityTrainingAndPrediction.py:85-112 | a text with a data row whose normalised header names are all different and include the eleven measurement columns and `quality` loads |
| Transform.NormalizeName | WineQualityTrainingAndPrediction.py:103 | a normalised name is the stripped name with every space turned into `_` and every other character kept in place; so it holds no space, has no whitespace at either end, and is as long as the stripped name |
| Transform.NormalizeNameIdempotent | WineQualityTrainingAndPrediction.py:103 | normalising twice is normalising once |
| Transform.RenamedColumns | WineQualityTrainingAndPrediction.py:103 | renaming gives column `j` the normalised form of its own name, in order, so no name has a space or surrounding whitespace |
| Transform.SelectAliasAsWritten | WineQualityTrainingAndPrediction.py:103 | the `select` as written succeeds exactly on a frame with no columns; on any other frame it fails on the missing `alias` attribute |
| Transform.Resolve | WineQualityTrainingAndPrediction.py:110 | a lookup by name finds a column exactly when exactly one column carries the name, and then it finds that column |
| Transform.OnlyHolder | WineQualityTrainingAndPrediction.py:110 | no other column carries a name that resolves |
| Transform.CastFloatColumns | WineQualityTrainingAndPrediction.py:106-110 | the float casts succeed exactly when each of the eleven names resolves; they then turn exactly those columns to float, in place and in position; otherwise the error names the first name in list order that does not resolve |
| Transform.CastColumns | WineQualityTrainingAndPrediction.py:106-112 | the same for all the casts: float columns become float, `quality` becomes integer, every other column is untouched, and the first unresolved name in lookup order is reported |
| Transform.DataTransformations | WineQualityTrainingAndPrediction.py:101-113 | the corrected transformation succeeds exactly when every required column resolves after renaming; each column then carries its normalised name and cast type and the rows are unchanged; a failure names a required column |
| Transform.DataTransformationsAsWritten | WineQualityTrainingAndPrediction.py:101-113 | the transformation as written never returns a frame; on any frame with a column it fails on `alias` |
| Classify.RoleOf | WineQualityTrainingAndPrediction.py:39-45 | a text field with more than `car_th` distinct values is high-cardinality and any other text field categorical; a non-text field with fewer than `cat_th` is numeric-but-categorical and any other is numeric |
| Classify.InNamesWithRole | WineQualityTrainingAndPrediction.py:37-45 | a name is appended to a bucket exactly when some field with that name takes that bucket's branch |
| Classify.NumCols | WineQualityTrainingAndPrediction.py:48 | `num_cols` holds exactly the names of non-text fields that are not in `num_but_cat` |
| Classify.ListOfSet | WineQualityTrainingAndPrediction.py:47 | `list(set)` holds every element of the set exactly once |
| Classify.GrabColNames | WineQualityTrainingAndPrediction.py:35-49 | `cat_but_car` is the high-cardinality text fields in schema order; `cat_cols` holds, once each, the categorical text names minus the high-cardinality ones; `num_cols` is the non-text fields not in `num_but_cat`, in schema order |
| Classify.StringColumnsSplit | WineQualityTrainingAndPrediction.py:39-47 | `cat_cols` and `cat_but_car` are disjoint and together hold exactly the text field names |
| Classify.UniqueRole | WineQualityTrainingAndPrediction.py:39-45 | with unique names, a field is listed in a bucket exactly when it takes that bucket's branch |
| Classify.NumColsAreHighCountNumeric | WineQualityTrainingAndPrediction.py:44-48 | with unique names, `num_cols` is exactly the non-text fields with at least `cat_th` distinct values, in schema order |
| Classify.NamesWithRoleDistinct | WineQualityTrainingAndPrediction.py:37-45 | with unique names, no bucket lists a name twice |
| Classify.LowCountNumericInNoBucket | WineQualityTrainingAndPrediction.py:44-48 | a non-text field with fewer than `cat_th` distinct values is never in `num_cols`; with unique names it is in no output at all |
| Classify.BucketsDisjoint | WineQualityTrainingAndPrediction.py:39-48 | with unique names, no name is in both `cat_cols` and `num_cols`, or in both `num_cols` and `cat_but_car` |
| Features.FirstIndex | WineQualityTrainingAndPrediction.py:158 | finds the first occurrence of an element that is present |
| Features.RemoveFirst | WineQualityTrainingAndPrediction.py:158 | `list.remove` deletes exactly the first occurrence: one element fewer and the multiset loses one copy |
| Features.Without | WineQualityTrainingAndPrediction.py:157-158 | the reference filter removes the element entirely and keeps every other element |
| Features.RemoveFirstOfDistinct | WineQualityTrainingAndPrediction.py:158 | in a list without repetitions, removing the first occurrence is filtering the element out |
| Features.FeatureColumns | WineQualityTrainingAndPrediction.py:156-158 | the features are `cat_cols + num_cols`, minus the first `quality` when it is there; exactly one copy of the label is lost and nothing else |
| Features.DistinctFeaturesDropOnlyLabel | WineQualityTrainingAndPrediction.py:156-158 | with no repeated names, the features are the concatenation with the label filtered out, and the label is not among them |
| Features.UniqueSchemaGivesDistinctFeatures | WineQualityTrainingAndPrediction.py:156 | with unique schema names, `cat_cols + num_cols` repeats no name |
| ParamGrids.Extend | WineQualityTrainingAndPrediction.py:57-59 | one `addGrid` multiplies the number of maps by the number of values |
| ParamGrids.Build | WineQualityTrainingAndPrediction.py:56-65 | `build()` gives a grid holding the product of the value-list lengths |
| ParamGrids.InExtend | WineQualityTrainingAndPrediction.py:57-59 | the maps after one `addGrid` are exactly the earlier maps with one listed value set |
| ParamGrids.ParamsCons | WineQualityTrainingAndPrediction.py:56-65 | a grid's parameters are its first parameter plus, separately, those of the other axes |
| ParamGrids.BuildSound | WineQualityTrainingAndPrediction.py:56-65 | every map in a grid sets exactly the grid's parameters, each to a listed value |
| ParamGrids.ChoosesTail | WineQualityTrainingAndPrediction.py:56-65 | a choice of listed values is the first axis's value set on a choice for the other axes |
| ParamGrids.BuildComplete | WineQualityTrainingAndPrediction.py:56-65 | every choice of one listed value per parameter is in the grid |
| ParamGrids.BuildIsProduct | WineQualityTrainingAndPrediction.py:56-65 | a grid is exactly the cartesian product of its value lists |
| ParamGrids.ModelFamilies | WineQualityTrainingAndPrediction.py:51-66 | two families: logistic regression ("LR", 27 maps) then decision tree ("DT", 18 maps); both read `scaledFeatures` and the given label |
| ParamGrids.LogisticRegressionGridIsProduct | WineQualityTrainingAndPrediction.py:56-60 | the LR grid is exactly maxIter × regParam × elasticNetParam over the listed values |
| ParamGrids.DecisionTreeGridIsProduct | WineQualityTrainingAndPrediction.py:61-65 | the DT grid is exactly maxDepth × maxBins × impurity over the listed values |
| Selection.SelectBest | WineQualityTrainingAndPrediction.py:72-83 | no model is kept exactly when no score is above 0 (including no candidates); otherwise the kept model is the earliest one with the maximum score; the best score and the log follow the loop |
| Selection.WinnerIsUnique | WineQualityTrainingAndPrediction.py:79 | at most one candidate wins: with the strict comparison, ties keep the earlier one |
| Selection.RunningBestMonotone | WineQualityTrainingAndPrediction.py:79-80 | the tracked best score never decreases |
| Selection.RunningBestBounds | WineQualityTrainingAndPrediction.py:72-80 | the tracked best is at least 0 and at least every score seen so far |
| Selection.RunningBestAttained | WineQualityTrainingAndPrediction.py:72-80 | a tracked best other than the starting 0 is a score actually seen |
| Selection.WinnerScoreIsRunningBest | WineQualityTrainingAndPrediction.py:79-80 | the winner among the candidates seen holds the tracked best score |
| Selection.LastLoggedIsWinner | WineQualityTrainingAndPrediction.py:81 | when anything is logged, the last name logged is the winner's |

## Left out

- S3 access is not modelled: `download_directory_from_s3`, `get_object`, and the bytes-to-text `decode('utf-8')`. The fetch starts from the decoded text.
- The Spark session and the engine's computations are not modelled:
  - Distinct counts are given as inputs.
  - Casting values from text to float or integer is left out. Only the resulting column types are modelled, so a value that does not parse (which Spark turns into null) is not modelled.
- Cross-validation, the vector assembler, the scaler and the F1 metric are left out. Each candidate enters selection with its fitted model and validation score already computed.
- `predict_new_data` is left out: its cross join and its four metrics are engine and floating-point operations.
- Saving and loading the model, `sys.argv` dispatch and all logging except the selection log are left out. They are I/O.
- Spark resolves column names case-insensitively by default. The model resolves them by exact match.
- Floating-point scores (NaN, rounding) are modelled as reals, and the `:.2f` format of the log line is left out. The log records the family name only.
- `Fetch.CreateDataFrame`: keeps the rows as parsed, whatever their number of fields. It does not capture what the engine does with a row shorter or longer than the header. A longer row may come from a trailing `;`, and the engine may add unnamed extra columns for it.
- `Classify.GrabColNames`: line 38's `select(field.name)` raises an uncaught `AnalysisException` when two fields share a name, so `grab_col_names` returns only on unique names. The model classifies any list of fields and does not model that crash. The lemmas that need unique names require them.
- `Classify.RoleOf`: `isString` stands for the comparison `str(field.dataType) == 'StringType'` at line 39. The model assumes that comparison holds exactly for text fields. Whether it does depends on how the PySpark release prints a type: on a release that prints `StringType()`, no field passes the test, every text field takes the numeric branches at lines 44-45 and 48, and `cat_cols` and `cat_but_car` stay empty. The model does not capture that.
- `Classify.GrabColNames`: the thresholds are parameters. Line 154 uses the defaults, 10 and 20.
- `Classify.GrabColNames`: the order of `cat_cols` comes from a Python `set` and is unspecified, so the contract fixes its elements and that each occurs once, not its order.
- `ParamGrids.Build`: `addGrid` on a parameter already in the builder overwrites that parameter. The product lemmas assume distinct parameters, which both grids have.

## Findings

| source | as written | input that shows it | evidently intended | confidence | as-written member | corrected member |
|---|---|---|---|---|---|---|
| WineQualityTrainingAndPrediction.py:103 | `col.alias(...)` is called on each entry of `df.columns`, which are Python strings; `str` has no `alias`, so any frame with a column raises `AttributeError`, which line 97 catches, and the fetch returns `None` | any file with a header line and a data row, e.g. `"a;quality\r\n1;5"` | rename every column by position (`df.toDF(*[c.strip().replace(" ", "_") for c in df.columns])`), so the frame comes back renamed and cast | high (not executed) | Fetch.FetchDataFrameAsWritten | Fetch.FetchDataFrame |
