/**
 * The message formatter's markdown tables: the text is cut into lines, each
 * maximal run of lines that (trimmed) start and end with '|' becomes one
 * HTML table, the other lines pass through as they were, and the lines are
 * joined again. The last step of the formatter then wraps each
 * blank-line-separated paragraph in `<p>` and turns the remaining line
 * breaks into `<br>`.
 */
module Markdown {
  import opened Strings

  // ---------------------------------------------------------------------------
  // Rows and cells
  // ---------------------------------------------------------------------------

  /** A line belongs to a table when its trimmed form starts and ends with '|'. */
  predicate IsTableRow(line: string) {
    var t := JsTrim(line);
    StartsWith(t, "|") && EndsWith(t, "|")
  }

  /** A character of the class `[\s\-:|]`. */
  predicate IsSeparatorChar(c: char) {
    IsJsWhitespace(c) || c == '-' || c == ':' || c == '|'
  }

  /** The row matches `^\|[\s\-:|]+\|$`: a separator between header and body. */
  predicate IsSeparator(line: string) {
    3 <= |line| && line[0] == '|' && line[|line| - 1] == '|'
    && forall k :: 1 <= k < |line| - 1 ==> IsSeparatorChar(line[k])
  }

  /** `line.slice(1, -1)`: the row without its first and last character. */
  function Inner(line: string): string {
    if |line| >= 2 then line[1..|line| - 1] else ""
  }

  /** `line.slice(1, -1).split('|')`: the untrimmed cells. */
  function RawCells(line: string): (r: seq<string>)
    ensures |r| >= 1
  {
    SplitOn(Inner(line), "|")
  }

  /** `.map(cell => cell.trim())`. */
  function Cells(line: string): (r: seq<string>)
    ensures |r| == |RawCells(line)|
  {
    var raw := RawCells(line);
    seq(|raw|, k requires 0 <= k < |raw| => JsTrim(raw[k]))
  }

  /**
   * The cells of a row: the inner text cut at every '|' (joining the
   * untrimmed pieces with '|' gives it back), each trimmed, none holding a '|'.
   */
  lemma CellsSpec(line: string)
    ensures Join(RawCells(line), "|") == Inner(line)
    ensures forall k :: 0 <= k < |Cells(line)| ==> '|' !in Cells(line)[k] && IsTrimmed(Cells(line)[k], JsSpace)
  {
    JoinSplit(Inner(line), "|");
    SplitPiecesAvoidSep(Inner(line), "|");
    var raw := RawCells(line);
    forall k | 0 <= k < |Cells(line)|
      ensures '|' !in Cells(line)[k] && IsTrimmed(Cells(line)[k], JsSpace)
    {
      assert raw[k] in raw;
      TrimmedPieceIsClean(raw[k]);
    }
  }

  /** Trimming a piece without '|' gives a trimmed cell without '|'. */
  lemma TrimmedPieceIsClean(piece: string)
    requires Avoids(piece, "|")
    ensures '|' !in JsTrim(piece) && IsTrimmed(JsTrim(piece), JsSpace)
  {
    TrimOfTrimmed(piece, JsSpace);
    var cell := JsTrim(piece);
    var a := LeadingCount(piece, JsSpace);
    if '|' in cell {
      var m :| 0 <= m < |cell| && cell[m] == '|';
      assert cell[m] == piece[a + m];
      assert piece[a + m..a + m + 1] == "|";
      assert OccursAt(piece, "|", a + m);
    }
  }

  // ---------------------------------------------------------------------------
  // Table HTML
  // ---------------------------------------------------------------------------

  const TableOpen: string := "<table class=\"markdown-table\">"

  const TableClose: string := "</table>"

  /** The first row is the header row. */
  function Tag(i: nat): string {
    if i == 0 then "th" else "td"
  }

  function RowClass(i: nat): string {
    if i == 0 then "table-header" else ""
  }

  function RowOpen(i: nat): string {
    "<tr class=\"" + RowClass(i) + "\">"
  }

  function CellHtml(tag: string, cell: string): string {
    "<" + tag + ">" + cell + "</" + tag + ">"
  }

  function CellsHtml(tag: string, cells: seq<string>): seq<string> {
    seq(|cells|, k requires 0 <= k < |cells| => CellHtml(tag, cells[k]))
  }

  /** The HTML of row `i`: nothing for a separator, else one cell element per cell. */
  function RowHtml(i: nat, line: string): string {
    if IsSeparator(line) then "" else RowOpen(i) + Concat(CellsHtml(Tag(i), Cells(line))) + "</tr>"
  }

  function RowsHtml(lines: seq<string>): seq<string> {
    seq(|lines|, i requires 0 <= i < |lines| => RowHtml(i, lines[i]))
  }

  /** `convertTableToHtml`: fewer than two rows are joined back as text. */
  function TableHtml(lines: seq<string>): string {
    if |lines| < 2 then Join(lines, "\n") else TableOpen + Concat(RowsHtml(lines)) + TableClose
  }

  /**
   * A table of a single row is that row, with no markup; a longer one is
   * wrapped in the table element, whatever its rows are.
   */
  lemma TableShape(lines: seq<string>)
    ensures |lines| == 1 ==> TableHtml(lines) == lines[0]
    ensures |lines| >= 2 ==> StartsWith(TableHtml(lines), TableOpen) && EndsWith(TableHtml(lines), TableClose)
  {
    if |lines| >= 2 {
      var body := TableOpen + Concat(RowsHtml(lines));
      assert TableHtml(lines) == body + TableClose;
      assert body[..|TableOpen|] == TableOpen;
    }
  }

  /**
   * A separator row emits no `<tr>`; any other row is one `<tr>`, of class
   * "table-header" for the first row and of no class after it.
   */
  lemma RowShape(i: nat, line: string)
    ensures IsSeparator(line) ==> RowHtml(i, line) == ""
    ensures !IsSeparator(line) ==>
      StartsWith(RowHtml(i, line), RowOpen(i)) && EndsWith(RowHtml(i, line), "</tr>")
    ensures RowClass(i) == "table-header" <==> i == 0
  {
    if !IsSeparator(line) {
      var open := RowOpen(i);
      var body := open + Concat(CellsHtml(Tag(i), Cells(line)));
      assert RowHtml(i, line) == body + "</tr>";
      AppendPrefix(open, Concat(CellsHtml(Tag(i), Cells(line))));
      AppendPrefix(body, "</tr>");
    }
  }

  /** The cells of the first row are `<th>` elements, those of the other rows `<td>` elements. */
  lemma CellTags(i: nat, cells: seq<string>)
    ensures forall k :: 0 <= k < |cells| ==>
      StartsWith(CellsHtml(Tag(i), cells)[k], if i == 0 then "<th>" else "<td>")
  {
    forall k | 0 <= k < |cells|
      ensures StartsWith(CellsHtml(Tag(i), cells)[k], if i == 0 then "<th>" else "<td>")
    {
      var h := "<" + Tag(i) + ">";
      assert CellsHtml(Tag(i), cells)[k] == h + (cells[k] + "</" + Tag(i) + ">");
      AppendPrefix(h, cells[k] + "</" + Tag(i) + ">");
    }
  }

  lemma AppendPrefix(a: string, b: string)
    ensures StartsWith(a + b, a) && EndsWith(a + b, b)
  {
    assert (a + b)[..|a|] == a;
    assert (a + b)[|a|..] == b;
  }

  /** The inner loop of `convertTableToHtml`: one cell element per cell, appended to `row`. */
  method AppendCells(row: string, tag: string, cells: seq<string>) returns (r: string)
    ensures r == row + Concat(CellsHtml(tag, cells))
  {
    r := row;
    ghost var items := CellsHtml(tag, cells);
    for j := 0 to |cells|
      invariant r == row + Concat(items[..j])
    {
      assert items[..j + 1][..j] == items[..j];
      AppendAssoc(row, Concat(items[..j]), items[j]);
      r := r + ("<" + tag + ">" + cells[j] + "</" + tag + ">");
    }
    assert items[..|cells|] == items;
  }

  /** The body of the outer loop of `convertTableToHtml` for a row that is not a separator. */
  method RowToHtml(i: nat, cells: seq<string>) returns (row: string)
    ensures row == RowOpen(i) + Concat(CellsHtml(Tag(i), cells)) + "</tr>"
  {
    var tag := if i == 0 then "th" else "td";
    var rowClass := if i == 0 then "table-header" else "";
    row := "<tr class=\"" + rowClass + "\">";
    row := AppendCells(row, tag, cells);
    row := row + "</tr>";
  }

  /** `convertTableToHtml`, with the appends of one row gathered into one piece. */
  method ConvertTableToHtml(tableLines: seq<string>) returns (html: string)
    ensures html == TableHtml(tableLines)
  {
    if |tableLines| < 2 {
      return Join(tableLines, "\n");
    }
    html := TableOpen;
    ghost var rows := RowsHtml(tableLines);
    for i := 0 to |tableLines|
      invariant html == TableOpen + Concat(rows[..i])
    {
      assert rows[..i + 1][..i] == rows[..i];
      var line := tableLines[i];
      if IsSeparator(line) {
        assert rows[i] == "";
        continue;
      }
      var row := RowToHtml(i, Cells(line));
      assert row == rows[i];
      AppendAssoc(TableOpen, Concat(rows[..i]), row);
      html := html + row;
    }
    assert rows[..|tableLines|] == rows;
    html := html + "</table>";
  }

  // ---------------------------------------------------------------------------
  // Grouping lines into tables
  // ---------------------------------------------------------------------------

  /** A line of the text with what the scanner computes of it: its trimmed form and whether it is a row. */
  datatype Line = Line(text: string, trimmed: string, isRow: bool)

  function Classify(text: string): Line {
    Line(text, JsTrim(text), IsTableRow(text))
  }

  function Classified(lines: seq<string>): seq<Line> {
    seq(|lines|, i requires 0 <= i < |lines| => Classify(lines[i]))
  }

  /** What the scanner emits for a stretch of lines: one line as it was, or one table. */
  datatype Piece = Plain(line: Line) | Table(rows: seq<string>)

  /** One line read by the scanner: it extends the open table, opens one, or passes through. */
  function Step(ps: seq<Piece>, line: Line): seq<Piece> {
    if !line.isRow then ps + [Plain(line)]
    else if ps != [] && ps[|ps| - 1].Table? then ps[..|ps| - 1] + [Table(ps[|ps| - 1].rows + [line.trimmed])]
    else ps + [Table([line.trimmed])]
  }

  /** The pieces of `lines`, read the way the scanner reads them, line after line. */
  function Pieces(lines: seq<Line>): seq<Piece>
    decreases |lines|
  {
    if lines == [] then [] else Step(Pieces(lines[..|lines| - 1]), lines[|lines| - 1])
  }

  lemma PiecesSnoc(lines: seq<Line>, i: nat)
    requires i < |lines|
    ensures Pieces(lines[..i + 1]) == Step(Pieces(lines[..i]), lines[i])
  {
    assert lines[..i + 1][..i] == lines[..i];
  }

  /** The lines a piece stands for: a plain line's text, a table's trimmed rows. */
  function PieceLines(p: Piece): seq<string> {
    match p
    case Plain(line) => [line.text]
    case Table(rows) => rows
  }

  /** The lines of all pieces, one piece after the other. */
  function LinesOf(ps: seq<Piece>): seq<string>
    decreases |ps|
  {
    if ps == [] then [] else LinesOf(ps[..|ps| - 1]) + PieceLines(ps[|ps| - 1])
  }

  /** A row trimmed, any other line as it was. */
  function Normalized(lines: seq<Line>): seq<string> {
    seq(|lines|, i requires 0 <= i < |lines| => if lines[i].isRow then lines[i].trimmed else lines[i].text)
  }

  /** The pieces cover the lines in order: rows trimmed, other lines as they were. */
  lemma {:induction false} PiecesCover(lines: seq<Line>)
    ensures LinesOf(Pieces(lines)) == Normalized(lines)
    decreases |lines|
  {
    if lines != [] {
      var init := lines[..|lines| - 1];
      var last := lines[|lines| - 1];
      PiecesCover(init);
      StepCover(Pieces(init), last);
      NormalizedSnoc(lines);
    }
  }

  lemma NormalizedSnoc(lines: seq<Line>)
    requires lines != []
    ensures var last := lines[|lines| - 1];
      Normalized(lines) == Normalized(lines[..|lines| - 1]) + [if last.isRow then last.trimmed else last.text]
  {
  }

  lemma StepCover(ps: seq<Piece>, line: Line)
    ensures LinesOf(Step(ps, line)) == LinesOf(ps) + [if line.isRow then line.trimmed else line.text]
  {
    var qs := Step(ps, line);
    if !line.isRow || ps == [] || !ps[|ps| - 1].Table? {
      assert qs[..|qs| - 1] == ps;
    } else {
      var front := ps[..|ps| - 1];
      var t := ps[|ps| - 1];
      assert qs[..|qs| - 1] == front;
      assert LinesOf(ps) == LinesOf(front) + t.rows;
    }
  }

  /** Every piece is well formed: a plain piece is no row, and a table holds at least one row. */
  predicate WellFormed(ps: seq<Piece>) {
    (forall k :: 0 <= k < |ps| && ps[k].Plain? ==> !ps[k].line.isRow)
    && (forall k :: 0 <= k < |ps| && ps[k].Table? ==> |ps[k].rows| > 0)
  }

  /** No table stands next to another, so each table is a maximal run of rows. */
  predicate Maximal(ps: seq<Piece>) {
    forall k :: 0 <= k < |ps| - 1 ==> !(ps[k].Table? && ps[k + 1].Table?)
  }

  lemma StepKeeps(ps: seq<Piece>, line: Line)
    requires WellFormed(ps) && Maximal(ps)
    ensures WellFormed(Step(ps, line)) && Maximal(Step(ps, line))
    ensures |Step(ps, line)| > 0 && (Step(ps, line)[|Step(ps, line)| - 1].Table? <==> line.isRow)
  {
  }

  /**
   * The pieces are well formed and maximal, there are some exactly when
   * there are lines, and the last is a table exactly when the last line is a row.
   */
  lemma {:induction false} PiecesShape(lines: seq<Line>)
    ensures WellFormed(Pieces(lines)) && Maximal(Pieces(lines))
    ensures lines != [] <==> Pieces(lines) != []
    ensures lines != [] ==> (Pieces(lines)[|Pieces(lines)| - 1].Table? <==> lines[|lines| - 1].isRow)
    decreases |lines|
  {
    if lines != [] {
      PiecesShape(lines[..|lines| - 1]);
      StepKeeps(Pieces(lines[..|lines| - 1]), lines[|lines| - 1]);
    }
  }

  /** The scanner's view of a line: its trimmed form and the row test. */
  lemma ClassifiedSpec(lines: seq<string>)
    ensures |Classified(lines)| == |lines|
    ensures forall i :: 0 <= i < |lines| ==>
      Classified(lines)[i].text == lines[i] && Classified(lines)[i].trimmed == JsTrim(lines[i])
      && (Classified(lines)[i].isRow <==> StartsWith(JsTrim(lines[i]), "|") && EndsWith(JsTrim(lines[i]), "|"))
  {
  }

  /** Without rows every line is a plain piece of its own. */
  lemma {:induction false} PiecesWithoutRows(lines: seq<Line>)
    requires forall i :: 0 <= i < |lines| ==> !lines[i].isRow
    ensures Pieces(lines) == seq(|lines|, i requires 0 <= i < |lines| => Plain(lines[i]))
    decreases |lines|
  {
    if lines != [] {
      PiecesWithoutRows(lines[..|lines| - 1]);
    }
  }

  /** What a piece becomes in the output. */
  function Render(p: Piece): string {
    match p
    case Plain(line) => line.text
    case Table(rows) => TableHtml(rows)
  }

  function RenderAll(ps: seq<Piece>): seq<string> {
    seq(|ps|, k requires 0 <= k < |ps| => Render(ps[k]))
  }

  /** `parseMarkdownTables`: one output element per piece, joined by line breaks. */
  function FormatTables(text: string): string {
    Join(RenderAll(Pieces(Classified(SplitOn(text, "\n")))), "\n")
  }

  /** Text with no table row comes back unchanged. */
  lemma NoTablesUnchanged(text: string)
    requires forall i :: 0 <= i < |SplitOn(text, "\n")| ==> !IsTableRow(SplitOn(text, "\n")[i])
    ensures FormatTables(text) == text
  {
    var lines := SplitOn(text, "\n");
    PiecesWithoutRows(Classified(lines));
    assert RenderAll(Pieces(Classified(lines))) == lines;
    JoinSplit(text, "\n");
  }

  lemma RenderAllSnoc(ps: seq<Piece>, p: Piece)
    ensures RenderAll(ps + [p]) == RenderAll(ps) + [Render(p)]
  {
  }

  /**
   * The scanner's variables after the lines that gave the pieces `ps`: the
   * open table, if the last piece is one, is in `tableLines` and not yet in
   * `result`; every other piece is rendered in `result`.
   */
  predicate ScanState(ps: seq<Piece>, result: seq<string>, tableLines: seq<string>, inTable: bool) {
    (inTable <==> ps != [] && ps[|ps| - 1].Table?)
    && (inTable ==> tableLines == ps[|ps| - 1].rows && result == RenderAll(ps[..|ps| - 1]))
    && (!inTable ==> result == RenderAll(ps))
  }

  /** A row joins the open table or opens one. */
  lemma ScanRow(ps: seq<Piece>, result: seq<string>, tableLines: seq<string>, inTable: bool, line: Line)
    requires ScanState(ps, result, tableLines, inTable) && line.isRow
    ensures ScanState(Step(ps, line), result, (if inTable then tableLines else []) + [line.trimmed], true)
  {
    var qs := Step(ps, line);
    assert qs[..|qs| - 1] == if inTable then ps[..|ps| - 1] else ps;
  }

  /** Any other line closes the open table, if there is one, and passes through. */
  lemma ScanPlain(ps: seq<Piece>, result: seq<string>, tableLines: seq<string>, inTable: bool, line: Line)
    requires ScanState(ps, result, tableLines, inTable) && !line.isRow
    ensures ScanState(Step(ps, line), (if inTable then result + [TableHtml(tableLines)] else result) + [line.text], [], false)
  {
    if inTable {
      RenderAllSnoc(ps[..|ps| - 1], ps[|ps| - 1]);
      assert ps[..|ps| - 1] + [ps[|ps| - 1]] == ps;
    }
    RenderAllSnoc(ps, Plain(line));
  }

  /** At the end the open table, if any, is closed and everything is rendered. */
  lemma ScanEnd(ps: seq<Piece>, result: seq<string>, tableLines: seq<string>, inTable: bool)
    requires ScanState(ps, result, tableLines, inTable) && WellFormed(ps)
    ensures (if inTable && |tableLines| > 0 then result + [TableHtml(tableLines)] else result) == RenderAll(ps)
  {
    if inTable {
      RenderAllSnoc(ps[..|ps| - 1], ps[|ps| - 1]);
      assert ps[..|ps| - 1] + [ps[|ps| - 1]] == ps;
    }
  }

  /** `parseMarkdownTables`, as its loop runs. */
  method ParseMarkdownTables(text: string) returns (r: string)
    ensures r == FormatTables(text)
  {
    var lines := SplitOn(text, "\n");
    ghost var classified := Classified(lines);
    var result: seq<string> := [];
    var tableLines: seq<string> := [];
    var inTable := false;
    for i := 0 to |lines|
      invariant ScanState(Pieces(classified[..i]), result, tableLines, inTable)
    {
      ghost var ps := Pieces(classified[..i]);
      PiecesSnoc(classified, i);
      var line := JsTrim(lines[i]);
      var isTableRow := StartsWith(line, "|") && EndsWith(line, "|");
      assert classified[i] == Line(lines[i], line, isTableRow);
      if isTableRow {
        ScanRow(ps, result, tableLines, inTable, classified[i]);
        if !inTable {
          inTable := true;
          tableLines := [];
        }
        tableLines := tableLines + [line];
      } else {
        ScanPlain(ps, result, tableLines, inTable, classified[i]);
        if inTable {
          var html := ConvertTableToHtml(tableLines);
          result := result + [html];
          tableLines := [];
          inTable := false;
        }
        result := result + [lines[i]];
      }
    }
    assert classified[..|lines|] == classified;
    PiecesShape(classified);
    ScanEnd(Pieces(classified), result, tableLines, inTable);
    if inTable && |tableLines| > 0 {
      var html := ConvertTableToHtml(tableLines);
      result := result + [html];
    }
    return Join(result, "\n");
  }

  // ---------------------------------------------------------------------------
  // Paragraphs and line breaks
  // ---------------------------------------------------------------------------

  function Paragraph(p: string): string {
    "<p>" + p + "</p>"
  }

  /** The last two steps of `formatMessage`. */
  function ParagraphsAndBreaks(formatted: string): string {
    var pieces := SplitOn(formatted, "\n\n");
    var wrapped := Concat(seq(|pieces|, k requires 0 <= k < |pieces| => Paragraph(pieces[k])));
    ReplaceAll(wrapped, "\n", "<br>")
  }

  /**
   * No line break survives the last step, and a text without line breaks
   * becomes one paragraph holding it.
   */
  lemma ParagraphsAndBreaksSpec(formatted: string)
    ensures '\n' !in ParagraphsAndBreaks(formatted)
    ensures '\n' !in formatted ==> ParagraphsAndBreaks(formatted) == Paragraph(formatted)
  {
    var pieces := SplitOn(formatted, "\n\n");
    var wrapped := Concat(seq(|pieces|, k requires 0 <= k < |pieces| => Paragraph(pieces[k])));
    ReplaceCharRemovesIt(wrapped, '\n', "<br>");
    if '\n' !in formatted {
      AvoidsByFirstChar(formatted, "\n\n", |formatted|);
      assert IndexOf(formatted, "\n\n") == -1;
      assert pieces == [formatted];
      assert seq(|pieces|, k requires 0 <= k < |pieces| => Paragraph(pieces[k])) == [Paragraph(formatted)];
      assert Concat([Paragraph(formatted)]) == Concat([]) + Paragraph(formatted);
      assert wrapped == Paragraph(formatted);
      AvoidsByFirstChar(wrapped, "\n", |wrapped|);
      ReplaceAbsent(wrapped, "\n", "<br>");
    }
  }
}
