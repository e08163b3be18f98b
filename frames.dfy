/**
 * The engine-side values the script builds: a data frame is a schema (named,
 * typed columns) over rows of raw text values. The values of a cast column are
 * not modelled, only its type.
 */
module Frames {

  datatype DataType = StringType | FloatType | IntegerType

  datatype Field = Field(name: string, dataType: DataType)

  datatype DataFrame = DataFrame(fields: seq<Field>, rows: seq<seq<string>>)

  /**
   * Why `fetch_dataframe_from_s3` returns `None`: each case is an exception
   * raised inside its `try` block, logged and swallowed by its `except`.
   */
  datatype FetchError =
    | NoHeaderLine                      // `data_list.pop(0)` on an empty list (IndexError)
    | EmptyDataset                      // `createDataFrame` cannot infer a schema from no rows (ValueError)
    | UnresolvedColumn(column: string)  // `df[col]` names no column, or more than one (AnalysisException)
    | NoAttributeAlias                  // `col.alias` looked up on a Python `str` (AttributeError)

  function Names(fields: seq<Field>): (r: seq<string>)
    ensures |r| == |fields|
    ensures forall j :: 0 <= j < |fields| ==> r[j] == fields[j].name
  {
    seq(|fields|, j requires 0 <= j < |fields| => fields[j].name)
  }
}
