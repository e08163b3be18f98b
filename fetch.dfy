/**
 * `fetch_dataframe_from_s3` once the object's text has been downloaded and
 * decoded: parse it, build a frame whose columns are all text, and apply
 * `data_transformations`. Every exception in between becomes `None`, here a
 * `Failure` that names the exception.
 */
module Fetch {
  import opened Wrappers
  import opened Text
  import opened Frames
  import opened CsvParse
  import opened Transform

  /** `spark.createDataFrame(data_list, cleaned_columns)`: every value is a Python string, so every column is text. */
  function CreateDataFrame(table: RawTable): (r: Result<DataFrame, FetchError>)
    ensures r.Failure? <==> table.rows == []
    ensures r.Success? ==> Names(r.value.fields) == table.header && r.value.rows == table.rows
    ensures r.Success? ==> forall j :: 0 <= j < |r.value.fields| ==> r.value.fields[j].dataType == StringType
  {
    if table.rows == [] then Failure(EmptyDataset)
    else
      var fields := seq(|table.header|, j requires 0 <= j < |table.header| => Field(table.header[j], StringType));
      assert Names(fields) == table.header;
      Success(DataFrame(fields, table.rows))
  }

  /** The text has a header line, at least one data line, and every column the casts look up. */
  ghost predicate Loadable(text: string) {
    && ParseRecords(text).Success?
    && ParseRecords(text).value.rows != []
    && forall k :: 0 <= k < |REQUIRED_COLUMNS| ==>
         Resolves(RenamedColumns(ParseRecords(text).value.header), REQUIRED_COLUMNS[k])
  }

  /** The fetch with line 103 as evidently intended. */
  method FetchDataFrame(text: string) returns (r: Result<DataFrame, FetchError>)
    ensures r.Success? <==> Loadable(text)
    ensures ParseRecords(text).Failure? ==> r == Failure(NoHeaderLine)
    ensures ParseRecords(text).Success? && ParseRecords(text).value.rows == [] ==> r == Failure(EmptyDataset)
    ensures r.Success? ==>
              var table := ParseRecords(text).value;
              && r.value.rows == table.rows
              && |r.value.fields| == |table.header|
              && forall j :: 0 <= j < |table.header| ==>
                   var name := NormalizeName(table.header[j]);
                   r.value.fields[j] == Field(name, CastType(name, StringType))
  {
    var parsed := ParseRecords(text);
    if parsed.Failure? {
      return Failure(parsed.error);
    }
    var created := CreateDataFrame(parsed.value);
    if created.Failure? {
      return Failure(created.error);
    }
    r := DataTransformations(created.value);
  }

  /** The fetch as written: whatever the text, it returns `None`. */
  method FetchDataFrameAsWritten(text: string) returns (r: Result<DataFrame, FetchError>)
    ensures r.Failure?
    ensures ParseRecords(text).Failure? ==> r.error == NoHeaderLine
    ensures ParseRecords(text).Success? && ParseRecords(text).value.rows == [] ==> r.error == EmptyDataset
    ensures ParseRecords(text).Success? && ParseRecords(text).value.rows != [] ==> r.error == NoAttributeAlias
  {
    var parsed := ParseRecords(text);
    if parsed.Failure? {
      return Failure(parsed.error);
    }
    var created := CreateDataFrame(parsed.value);
    if created.Failure? {
      return Failure(created.error);
    }
    r := DataTransformationsAsWritten(created.value);
  }

  /** In a list without repetitions, every name it holds resolves. */
  lemma {:induction false} DistinctNamesResolve(names: seq<string>, name: string)
    requires NoDuplicates(names)
    requires name in names
    ensures Resolves(names, name)
  {
    var tail := names[1..];
    assert names == [names[0]] + tail;
    if names[0] == name {
      forall j | 0 <= j < |tail| ensures tail[j] != name {
        assert tail[j] == names[j + 1];
      }
      assert multiset(tail)[name] == 0;
    } else {
      forall i, j | 0 <= i < j < |tail| ensures tail[i] != tail[j] {
        assert tail[i] == names[i + 1] && tail[j] == names[j + 1];
      }
      DistinctNamesResolve(tail, name);
    }
  }

  /**
   * A file with a header line and a data line loads when its normalised
   * header names are all different and include every column the casts look up
   * (the wine-quality files' header is such a header).
   */
  lemma DistinctCompleteHeaderLoads(text: string)
    requires ParseRecords(text).Success? && ParseRecords(text).value.rows != []
    requires var renamed := RenamedColumns(ParseRecords(text).value.header);
             && NoDuplicates(renamed)
             && (forall k :: 0 <= k < |REQUIRED_COLUMNS| ==> REQUIRED_COLUMNS[k] in renamed)
    ensures Loadable(text)
  {
    var renamed := RenamedColumns(ParseRecords(text).value.header);
    forall k | 0 <= k < |REQUIRED_COLUMNS| ensures Resolves(renamed, REQUIRED_COLUMNS[k]) {
      DistinctNamesResolve(renamed, REQUIRED_COLUMNS[k]);
    }
  }
}
