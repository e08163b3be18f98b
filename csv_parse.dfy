/**
 * The ad-hoc text parsing inside `fetch_dataframe_from_s3`: every double quote
 * is deleted (not interpreted), the whole text is stripped, split on CRLF,
 * empty lines are dropped, each line is split on `;`, and the first record is
 * popped off as the header, whose names are then stripped.
 */
module CsvParse {
  import opened Wrappers
  import opened Text
  import opened Frames

  const LINE_BREAK: string := "\r\n"
  const DELIMITER: string := ";"
  const QUOTE: char := '"'

  /** The non-empty lines of the downloaded text, in their order: no line is empty. */
  function Lines(text: string): (r: seq<string>)
    ensures forall k :: 0 <= k < |r| ==> r[k] != []
  {
    NonEmpty(Split(Strip(DeleteChar(text, QUOTE)), LINE_BREAK))
  }

  /** No line holds a double quote or a CRLF. */
  lemma LinesAreClean(text: string, k: int)
    requires 0 <= k < |Lines(text)|
    ensures QUOTE !in Lines(text)[k]
    ensures Free(Lines(text)[k], LINE_BREAK)
  {
    var unquoted := DeleteChar(text, QUOTE);
    var pieces := Split(Strip(unquoted), LINE_BREAK);
    var line := Lines(text)[k];
    assert line in NonEmpty(pieces);
    var m :| 0 <= m < |pieces| && pieces[m] == line;
    if QUOTE in line {
      SplitKeepsChars(Strip(unquoted), LINE_BREAK, m, QUOTE);
      StripKeepsChars(unquoted, QUOTE);
    }
  }

  /** `data_list`: every line split on the delimiter. */
  function Records(lines: seq<string>): (r: seq<seq<string>>)
    ensures |r| == |lines|
    ensures forall k :: 0 <= k < |r| ==> r[k] == Split(lines[k], DELIMITER)
  {
    seq(|lines|, k requires 0 <= k < |lines| => Split(lines[k], DELIMITER))
  }

  /** `[col.strip() for col in columns]`: each name loses its surrounding whitespace and nothing else. */
  function CleanColumns(columns: seq<string>): (r: seq<string>)
    ensures |r| == |columns|
    ensures forall i :: 0 <= i < |r| ==> r[i] == Strip(columns[i]) && Bare(r[i])
  {
    seq(|columns|, i requires 0 <= i < |columns| => Strip(columns[i]))
  }

  /** The header (`cleaned_columns`) and the data rows left after `pop(0)`. */
  datatype RawTable = RawTable(header: seq<string>, rows: seq<seq<string>>)

  /** Splitting the given lines into records and popping the first as the header. */
  function ParseLines(lines: seq<string>): (r: Result<RawTable, FetchError>)
    ensures r.Failure? <==> lines == []
    ensures r.Failure? ==> r.error == NoHeaderLine
    ensures r.Success? ==> r.value.header != []
  {
    var records := Records(lines);
    if records == [] then Failure(NoHeaderLine)
    else Success(RawTable(CleanColumns(records[0]), records[1..]))
  }

  /** Lines 88-93 of the script; popping from an empty `data_list` raises, which the caller turns into `None`. */
  function ParseRecords(text: string): (r: Result<RawTable, FetchError>)
    ensures r.Failure? <==> Lines(text) == []
    ensures r.Failure? ==> r.error == NoHeaderLine
    ensures r.Success? ==> r.value.header != []
  {
    ParseLines(Lines(text))
  }

  /** Each row is the split of the line after the header line at the same position. */
  lemma ParsedRows(lines: seq<string>)
    requires ParseLines(lines).Success?
    ensures |ParseLines(lines).value.rows| == |lines| - 1
    ensures forall k :: 0 <= k < |lines| - 1 ==> ParseLines(lines).value.rows[k] == Split(lines[k + 1], DELIMITER)
  {
    assert ParseLines(lines).value.rows == Records(lines)[1..];
  }

  /** The header names are the stripped fields of the first line. */
  lemma ParsedHeader(lines: seq<string>)
    requires ParseLines(lines).Success?
    ensures ParseLines(lines).value.header == CleanColumns(Split(lines[0], DELIMITER))
  {
    assert Records(lines)[0] == Split(lines[0], DELIMITER);
  }

  /** No header name and no row field contains a double quote. */
  lemma ParsedFieldsHaveNoQuote(text: string)
    requires ParseRecords(text).Success?
    ensures forall i :: 0 <= i < |ParseRecords(text).value.header| ==> QUOTE !in ParseRecords(text).value.header[i]
    ensures forall k, i :: 0 <= k < |ParseRecords(text).value.rows| && 0 <= i < |ParseRecords(text).value.rows[k]| ==>
              QUOTE !in ParseRecords(text).value.rows[k][i]
  {
    var lines := Lines(text);
    forall k | 0 <= k < |lines| ensures QUOTE !in lines[k] {
      LinesAreClean(text, k);
    }
    UnquotedLinesGiveUnquotedFields(lines);
  }

  /** Lines free of double quotes give header names and fields free of them. */
  lemma UnquotedLinesGiveUnquotedFields(lines: seq<string>)
    requires ParseLines(lines).Success?
    requires forall k :: 0 <= k < |lines| ==> QUOTE !in lines[k]
    ensures forall i :: 0 <= i < |ParseLines(lines).value.header| ==> QUOTE !in ParseLines(lines).value.header[i]
    ensures forall k, i :: 0 <= k < |ParseLines(lines).value.rows| && 0 <= i < |ParseLines(lines).value.rows[k]| ==>
              QUOTE !in ParseLines(lines).value.rows[k][i]
  {
    var t := ParseLines(lines).value;
    ParsedHeader(lines);
    ParsedRows(lines);
    forall i | 0 <= i < |t.header| ensures QUOTE !in t.header[i] {
      var raw := Split(lines[0], DELIMITER);
      if QUOTE in t.header[i] {
        StripKeepsChars(raw[i], QUOTE);
        SplitKeepsChars(lines[0], DELIMITER, i, QUOTE);
      }
    }
    forall k, i | 0 <= k < |t.rows| && 0 <= i < |t.rows[k]| ensures QUOTE !in t.rows[k][i] {
      if QUOTE in t.rows[k][i] {
        SplitKeepsChars(lines[k + 1], DELIMITER, i, QUOTE);
      }
    }
  }

  /**
   * The rows are the lines after the first, in order and one per line: each row
   * joined back with `;` is its line, which is never empty, and no field holds a `;`.
   */
  lemma RowsFollowLines(text: string)
    requires ParseRecords(text).Success?
    ensures |ParseRecords(text).value.rows| == |Lines(text)| - 1
    ensures forall k :: 0 <= k < |ParseRecords(text).value.rows| ==>
              && Lines(text)[k + 1] != []
              && Join(ParseRecords(text).value.rows[k], DELIMITER) == Lines(text)[k + 1]
              && forall i :: 0 <= i < |ParseRecords(text).value.rows[k]| ==> Free(ParseRecords(text).value.rows[k][i], DELIMITER)
  {
    ParsedRows(Lines(text));
  }

  /** A field free of the delimiter still has none once stripped. */
  lemma StrippedFieldHasNoDelimiter(field: string)
    requires Free(field, DELIMITER)
    ensures ';' !in Strip(field)
  {
    forall m | 0 <= m < |field| ensures field[m] != ';' {
      assert field[m..m + 1] == [field[m]];
      assert !OccursAt(field, DELIMITER, m);
    }
    if ';' in Strip(field) {
      StripKeepsChars(field, ';');
    }
  }

  /**
   * There is one header name per field of the first line, in order, each that
   * field with only surrounding whitespace removed, and none holding a `;`.
   */
  lemma HeaderIsCleaned(text: string)
    requires ParseRecords(text).Success?
    ensures var h := ParseRecords(text).value.header;
            var raw := Split(Lines(text)[0], DELIMITER);
            && |h| == |raw|
            && forall i :: 0 <= i < |h| ==> Bare(h[i]) && (exists j :: StrippedAt(raw[i], h[i], j)) && ';' !in h[i]
  {
    var lines := Lines(text);
    ParsedHeader(lines);
    var raw := Split(lines[0], DELIMITER);
    var h := ParseLines(lines).value.header;
    forall i | 0 <= i < |h| ensures Bare(h[i]) && (exists j :: StrippedAt(raw[i], h[i], j)) && ';' !in h[i] {
      assert h[i] == Strip(raw[i]);
      StrippedFieldHasNoDelimiter(raw[i]);
    }
  }

  /** A text with no non-empty line, such as one of only whitespace and quotes, has no header to pop. */
  lemma BlankTextHasNoHeader(text: string)
    requires Strip(DeleteChar(text, QUOTE)) == []
    ensures ParseRecords(text) == Failure(NoHeaderLine)
  {
    var pieces := Split(Strip(DeleteChar(text, QUOTE)), LINE_BREAK);
    assert pieces == [[]] by {
      assert Find([], LINE_BREAK, 0) == None;
    }
    assert NonEmpty(pieces) == [];
  }
}
