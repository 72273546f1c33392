/**
 * Turning the rows of an uploaded CSV table into documents for the vector store:
 * each row becomes one text, "标题: <Title>" first, then "描述: <desc>", then
 * "<column>: <value>" for every other column in table order, one line each and
 * skipping missing values; a row whose text is blank yields no document.
 */
module CsvIngest {
  import PyText
  import Embedding

  /** One row as pandas reads it: the cells that hold a value, each rendered as text.
      A column that is absent from the map is NaN in that row. */
  type Row = map<string, string>

  /** The column names in order, and the rows in order. */
  datatype Table = Table(columns: seq<string>, rows: seq<Row>)

  const TitleColumn: string := "Title"
  const DescColumn: string := "desc"
  const TitleLabel: string := "标题"
  const DescLabel: string := "描述"

  /** `f"{tag}: {value}\n"`. */
  function Line(tag: string, value: string): string {
    tag + ": " + value + "\n"
  }

  /** `col in row and pd.notna(row[col])`. */
  predicate Present(columns: seq<string>, row: Row, col: string) {
    col in columns && col in row
  }

  /** The title and description lines, in that order, when present. */
  function HeaderContent(columns: seq<string>, row: Row): string {
    (if Present(columns, row, TitleColumn) then Line(TitleLabel, row[TitleColumn]) else "")
    + (if Present(columns, row, DescColumn) then Line(DescLabel, row[DescColumn]) else "")
  }

  /** The lines of the other columns with a value, in column order. */
  function OtherContent(columns: seq<string>, row: Row): string {
    if columns == [] then ""
    else
      var c := columns[|columns| - 1];
      OtherContent(columns[..|columns| - 1], row)
      + (if c != TitleColumn && c != DescColumn && c in row then Line(c, row[c]) else "")
  }

  /** The text built for one row. */
  function RowContent(columns: seq<string>, row: Row): string {
    HeaderContent(columns, row) + OtherContent(columns, row)
  }

  /** Some column of the row holds a value. */
  predicate HasValue(columns: seq<string>, row: Row) {
    exists c :: c in columns && c in row
  }

  /** One step of the column loop: the text built so far, plus the next column's line
      if that column holds a value, is the text for one more column. */
  lemma OtherContentStep(columns: seq<string>, row: Row, header: string, content: string, i: nat)
    requires i < |columns| && content == header + OtherContent(columns[..i], row)
    ensures var c := columns[i];
      if c != TitleColumn && c != DescColumn && c in row
      then content + Line(c, row[c]) == header + OtherContent(columns[..i + 1], row)
      else content == header + OtherContent(columns[..i + 1], row)
  {
    assert columns[..i + 1][..i] == columns[..i];
  }

  /** The title and description lines of a row's text. */
  method BuildHeader(columns: seq<string>, row: Row) returns (content: string)
    ensures content == HeaderContent(columns, row)
  {
    content := "";
    if TitleColumn in columns && TitleColumn in row {
      content := content + Line(TitleLabel, row[TitleColumn]);
    }
    if DescColumn in columns && DescColumn in row {
      content := content + Line(DescLabel, row[DescColumn]);
    }
  }

  /** The loop that builds a row's text. */
  method BuildRowContent(columns: seq<string>, row: Row) returns (content: string)
    ensures content == RowContent(columns, row)
  {
    content := BuildHeader(columns, row);
    ghost var header := content;
    var i := 0;
    while i < |columns|
      invariant i <= |columns|
      invariant content == header + OtherContent(columns[..i], row)
    {
      var col := columns[i];
      OtherContentStep(columns, row, header, content, i);
      if col != TitleColumn && col != DescColumn && col in row {
        content := content + Line(col, row[col]);
      }
      i := i + 1;
    }
    assert columns[..i] == columns;
  }

  lemma BlankConcat(a: string, b: string)
    ensures PyText.AllSpace(a + b) <==> PyText.AllSpace(a) && PyText.AllSpace(b)
  {
    if PyText.AllSpace(a + b) {
      assert forall i :: 0 <= i < |a| ==> a[i] == (a + b)[i];
      assert forall i :: 0 <= i < |b| ==> b[i] == (a + b)[|a| + i];
    }
    if PyText.AllSpace(a) && PyText.AllSpace(b) {
      forall i | 0 <= i < |a + b| ensures PyText.IsSpace((a + b)[i]) {
        if i < |a| {
          assert (a + b)[i] == a[i];
        } else {
          assert (a + b)[i] == b[i - |a|];
        }
      }
    }
  }

  /** Every line holds the ':' after its label, so no line is blank. */
  lemma LineNotBlank(tag: string, value: string)
    ensures !PyText.AllSpace(Line(tag, value))
  {
    assert Line(tag, value)[|tag|] == ':';
  }

  lemma {:induction false} OtherContentBlank(columns: seq<string>, row: Row)
    ensures PyText.AllSpace(OtherContent(columns, row))
            <==> forall c :: c in columns && c != TitleColumn && c != DescColumn ==> c !in row
  {
    if columns != [] {
      var init, c := columns[..|columns| - 1], columns[|columns| - 1];
      assert columns == init + [c];
      OtherContentBlank(init, row);
      var last := if c != TitleColumn && c != DescColumn && c in row then Line(c, row[c]) else "";
      BlankConcat(OtherContent(init, row), last);
      if c != TitleColumn && c != DescColumn && c in row {
        LineNotBlank(c, row[c]);
      }
    }
  }

  /** A row's text is blank exactly when none of its columns holds a value, so
      `content.strip()` drops exactly the rows without any value. */
  lemma RowContentBlank(columns: seq<string>, row: Row)
    ensures PyText.AllSpace(RowContent(columns, row)) <==> !HasValue(columns, row)
    ensures PyText.Strip(RowContent(columns, row)) == [] <==> !HasValue(columns, row)
  {
    var title := if Present(columns, row, TitleColumn) then Line(TitleLabel, row[TitleColumn]) else "";
    var desc := if Present(columns, row, DescColumn) then Line(DescLabel, row[DescColumn]) else "";
    assert HeaderContent(columns, row) == title + desc;
    BlankConcat(title + desc, OtherContent(columns, row));
    BlankConcat(title, desc);
    OtherContentBlank(columns, row);
    if Present(columns, row, TitleColumn) {
      LineNotBlank(TitleLabel, row[TitleColumn]);
    }
    if Present(columns, row, DescColumn) {
      LineNotBlank(DescLabel, row[DescColumn]);
    }
  }

  /** The document made of row i. */
  function RowDocument(source: string, kbId: string, i: nat, content: string): (d: Embedding.Document)
    ensures d.pageContent == content && "id" !in d.metadata
    ensures "row_id" in d.metadata && d.metadata["row_id"] == Embedding.Int(i)
  {
    Embedding.Document(content, map["source" := Embedding.Str(source), "row_id" := Embedding.Int(i),
                                    "kb_id" := Embedding.Str(kbId), "type" := Embedding.Str("csv_row")])
  }

  /** The documents made of the rows, in row order, each with a non-blank text. */
  function RowDocuments(columns: seq<string>, rows: seq<Row>, source: string, kbId: string): (r: seq<Embedding.Document>)
    ensures |r| <= |rows|
    ensures forall d :: d in r ==> d.pageContent != [] && "id" !in d.metadata && "row_id" in d.metadata
  {
    if rows == [] then []
    else
      var n := |rows| - 1;
      var content := PyText.Strip(RowContent(columns, rows[n]));
      RowDocuments(columns, rows[..n], source, kbId)
      + (if content != [] then [RowDocument(source, kbId, n, content)] else [])
  }

  /** d records the number of a row and is the document of that row, with its
      stripped text. */
  predicate MadeFromRow(columns: seq<string>, rows: seq<Row>, source: string, kbId: string, d: Embedding.Document) {
    && "row_id" in d.metadata && d.metadata["row_id"].Int? && 0 <= d.metadata["row_id"].i < |rows|
    && d == RowDocument(source, kbId, d.metadata["row_id"].i, PyText.Strip(RowContent(columns, rows[d.metadata["row_id"].i])))
  }

  lemma {:induction false} RowDocumentsFromRows(columns: seq<string>, rows: seq<Row>, source: string, kbId: string)
    ensures forall d :: d in RowDocuments(columns, rows, source, kbId) ==> MadeFromRow(columns, rows, source, kbId, d)
  {
    if rows != [] {
      var n := |rows| - 1;
      var init := rows[..n];
      RowDocumentsFromRows(columns, init, source, kbId);
      var pre := RowDocuments(columns, init, source, kbId);
      var content := PyText.Strip(RowContent(columns, rows[n]));
      var tail := if content != [] then [RowDocument(source, kbId, n, content)] else [];
      assert RowDocuments(columns, rows, source, kbId) == pre + tail;
      forall d | d in pre + tail ensures MadeFromRow(columns, rows, source, kbId, d) {
        if d in pre {
          assert MadeFromRow(columns, init, source, kbId, d);
          var i := d.metadata["row_id"].i;
          assert init[i] == rows[i];
        } else {
          assert d == RowDocument(source, kbId, n, content);
        }
      }
    }
  }

  /** How many rows hold some value. */
  function ValuedRows(columns: seq<string>, rows: seq<Row>): nat {
    if rows == [] then 0
    else ValuedRows(columns, rows[..|rows| - 1]) + (if HasValue(columns, rows[|rows| - 1]) then 1 else 0)
  }

  /** There is one document per row that holds a value. */
  lemma {:induction false} RowDocumentsCount(columns: seq<string>, rows: seq<Row>, source: string, kbId: string)
    ensures |RowDocuments(columns, rows, source, kbId)| == ValuedRows(columns, rows)
  {
    if rows != [] {
      RowDocumentsCount(columns, rows[..|rows| - 1], source, kbId);
      RowContentBlank(columns, rows[|rows| - 1]);
    }
  }

  /** A document with a non-blank text comes from a row that holds a value. */
  lemma MadeFromValuedRow(columns: seq<string>, rows: seq<Row>, source: string, kbId: string, d: Embedding.Document)
    requires MadeFromRow(columns, rows, source, kbId, d) && d.pageContent != []
    ensures HasValue(columns, rows[d.metadata["row_id"].i])
  {
    var i := d.metadata["row_id"].i;
    RowContentBlank(columns, rows[i]);
  }

  /** One step of the row loop: the documents of the first i rows, plus row i's
      document if its text is not blank, are the documents of the first i + 1 rows. */
  lemma RowDocumentsStep(columns: seq<string>, rows: seq<Row>, source: string, kbId: string,
                         documents: seq<Embedding.Document>, i: nat)
    requires i < |rows| && documents == RowDocuments(columns, rows[..i], source, kbId)
    ensures var text := PyText.Strip(RowContent(columns, rows[i]));
      if text != []
      then documents + [RowDocument(source, kbId, i, text)] == RowDocuments(columns, rows[..i + 1], source, kbId)
      else documents == RowDocuments(columns, rows[..i + 1], source, kbId)
  {
    assert rows[..i + 1][..i] == rows[..i];
  }

  /** The loop over `df.iterrows()` collecting the documents. */
  method CsvDocuments(table: Table, source: string, kbId: string) returns (documents: seq<Embedding.Document>)
    ensures documents == RowDocuments(table.columns, table.rows, source, kbId)
  {
    documents := [];
    var i := 0;
    while i < |table.rows|
      invariant i <= |table.rows|
      invariant documents == RowDocuments(table.columns, table.rows[..i], source, kbId)
    {
      var row := table.rows[i];
      var content := BuildRowContent(table.columns, row);
      var text := PyText.Strip(content);
      RowDocumentsStep(table.columns, table.rows, source, kbId, documents, i);
      if text != [] {
        documents := documents + [RowDocument(source, kbId, i, text)];
      }
      i := i + 1;
    }
    assert table.rows[..i] == table.rows;
  }
}
