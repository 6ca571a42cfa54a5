/** Writers in the sense of section 2 of RFC 4180, and the proof that the parser undoes them. */
module CsvWriter {
  import opened Csv

  /** A cell and whether the writer puts it in quotes. */
  datatype Cell = Cell(text: string, quoted: bool)

  datatype Ending = LF | CRLF | CR | EndOfFile

  datatype Line = Line(cells: seq<Cell>, ending: Ending)

  /** A cell may go unquoted when it holds no separator and does not open with a quote. */
  predicate Plain(s: string) {
    && (forall i :: 0 <= i < |s| ==> s[i] != ',' && s[i] != '\n' && s[i] != '\r')
    && (s == [] || s[0] != '"')
  }

  predicate Writable(c: Cell) { c.quoted || Plain(c.text) }

  function Escape(s: string): string {
    if s == [] then [] else (if s[0] == '"' then "\"\"" else [s[0]]) + Escape(s[1..])
  }

  function PrintCell(c: Cell): string { if c.quoted then "\"" + Escape(c.text) + "\"" else c.text }

  function PrintCells(cells: seq<Cell>): string {
    if cells == [] then []
    else if |cells| == 1 then PrintCell(cells[0])
    else PrintCell(cells[0]) + "," + PrintCells(cells[1..])
  }

  function PrintEnding(e: Ending): string {
    match e
    case LF => "\n"
    case CRLF => "\r\n"
    case CR => "\r"
    case EndOfFile => ""
  }

  function PrintLine(l: Line): string { PrintCells(l.cells) + PrintEnding(l.ending) }

  function Print(lines: seq<Line>): string
    decreases |lines|
  {
    if lines == [] then [] else PrintLine(lines[0]) + Print(lines[1..])
  }

  function Texts(cells: seq<Cell>): (r: seq<string>)
    ensures |r| == |cells| && forall i :: 0 <= i < |cells| ==> r[i] == cells[i].text
  {
    seq(|cells|, i requires 0 <= i < |cells| => cells[i].text)
  }

  function TableOf(lines: seq<Line>): (r: Table)
    ensures |r| == |lines| && forall i :: 0 <= i < |lines| ==> r[i] == Texts(lines[i].cells)
  {
    seq(|lines|, i requires 0 <= i < |lines| => Texts(lines[i].cells))
  }

  /** Only the last line may end with the file. */
  predicate WellFormed(lines: seq<Line>) {
    && (forall i, c :: 0 <= i < |lines| && c in lines[i].cells ==> Writable(c))
    && (forall i :: 0 <= i < |lines| - 1 ==> !lines[i].ending.EndOfFile?)
  }

  // ------------------------------------------------------------------ one cell

  predicate Closes(rest: string) { rest == [] || rest[0] in {',', '\n', '\r'} }

  lemma {:induction false} ScanEscaped(s: string, rest: string, p: Parser)
    requires p.inQuotes && (rest == [] || rest[0] != '"')
    ensures Scan(Escape(s) + "\"" + rest, p) == Scan(rest, p.(field := p.field + s, inQuotes := false))
    decreases |s|
  {
    var text := Escape(s) + "\"" + rest;
    if s == [] {
      assert text == ['"'] + rest && text[1..] == rest;
      assert p.field + s == p.field;
    } else {
      var w := if s[0] == '"' then 2 else 1;
      var tail := Escape(s[1..]) + "\"" + rest;
      assert text[w..] == tail;
      assert Width(text, p) == w;
      var q := p.(field := p.field + [s[0]]);
      assert Step(text, p) == q;
      ScanEscaped(s[1..], rest, q);
      assert p.field + [s[0]] + s[1..] == p.field + s;
    }
  }

  lemma {:induction false} ScanPlain(s: string, rest: string, p: Parser)
    requires !p.inQuotes && (p.fieldStarted || s == [] || s[0] != '"')
    requires forall i :: 0 <= i < |s| ==> s[i] != ',' && s[i] != '\n' && s[i] != '\r'
    ensures Scan(s + rest, p) == Scan(rest, p.(field := p.field + s, fieldStarted := p.fieldStarted || s != []))
    decreases |s|
  {
    if s == [] {
      assert s + rest == rest && p.field + s == p.field;
    } else {
      var q := p.(field := p.field + [s[0]], fieldStarted := true);
      assert (s + rest)[1..] == s[1..] + rest;
      assert Step(s + rest, p) == q;
      ScanPlain(s[1..], rest, q);
      assert p.field + [s[0]] + s[1..] == p.field + s;
    }
  }

  /** The parser is between two fields of a row. */
  predicate AtField(p: Parser) { !p.inQuotes && !p.fieldStarted && p.field == "" }

  function AfterCell(p: Parser, c: Cell): Parser {
    p.(field := c.text, fieldStarted := c.quoted || c.text != "")
  }

  lemma ScanCell(c: Cell, rest: string, p: Parser)
    requires Writable(c) && AtField(p) && Closes(rest)
    ensures Scan(PrintCell(c) + rest, p) == Scan(rest, AfterCell(p, c))
  {
    if c.quoted {
      var text := PrintCell(c) + rest;
      var tail := Escape(c.text) + "\"" + rest;
      assert text == ['"'] + tail && text[1..] == tail;
      assert Width(text, p) == 1 && Step(text, p) == p.(inQuotes := true, fieldStarted := true);
      ScanEscaped(c.text, rest, p.(inQuotes := true, fieldStarted := true));
      assert "" + c.text == c.text;
    } else {
      ScanPlain(c.text, rest, p);
      assert "" + c.text == c.text;
    }
  }

  // ------------------------------------------------------------------ one line

  /** All cells but the last are in the row, the last is the open field. */
  function AfterCells(p: Parser, cells: seq<Cell>): Parser
    requires cells != []
  {
    var last := |cells| - 1;
    AfterCell(p.(row := p.row + Texts(cells[..last])), cells[last])
  }

  lemma ScanComma(tail: string, p: Parser)
    requires !p.inQuotes
    ensures Scan("," + tail, p) == Scan(tail, EndField(p))
  {
    assert ("," + tail)[1..] == tail;
  }

  lemma AfterCellsUnfolds(p: Parser, cells: seq<Cell>)
    requires |cells| > 1
    ensures AfterCells(EndField(AfterCell(p, cells[0])), cells[1..]) == AfterCells(p, cells)
  {
    var last := |cells| - 1;
    assert p.row + [cells[0].text] + Texts(cells[1..][..last - 1]) == p.row + Texts(cells[..last]);
  }

  lemma {:induction false} ScanCells(cells: seq<Cell>, rest: string, p: Parser)
    requires cells != [] && (forall c :: c in cells ==> Writable(c)) && AtField(p) && Closes(rest)
    ensures Scan(PrintCells(cells) + rest, p) == Scan(rest, AfterCells(p, cells))
    decreases |cells|
  {
    if |cells| == 1 {
      ScanCell(cells[0], rest, p);
      assert p.row + Texts(cells[..0]) == p.row;
    } else {
      ScanFirstCell(cells, rest, p);
      ScanCells(cells[1..], rest, EndField(AfterCell(p, cells[0])));
      AfterCellsUnfolds(p, cells);
    }
  }

  lemma ScanFirstCell(cells: seq<Cell>, rest: string, p: Parser)
    requires |cells| > 1 && Writable(cells[0]) && AtField(p)
    ensures Scan(PrintCells(cells) + rest, p) == Scan(PrintCells(cells[1..]) + rest, EndField(AfterCell(p, cells[0])))
  {
    var more := PrintCells(cells[1..]) + rest;
    assert PrintCells(cells) + rest == PrintCell(cells[0]) + ("," + more);
    ScanCell(cells[0], "," + more, p);
    ScanComma(more, AfterCell(p, cells[0]));
  }

  function Kept(rows: Table): Table {
    if rows == [] then [] else (if Keep(rows[0]) then [rows[0]] else []) + Kept(rows[1..])
  }

  function AddKept(rows: Table, row: seq<string>): Table { if Keep(row) then rows + [row] else rows }

  lemma EndRowOfCells(p: Parser, cells: seq<Cell>)
    requires p.row == [] && AtField(p)
    ensures var q := if cells == [] then p else AfterCells(p, cells);
            EndRow(q) == Parser(AddKept(p.rows, Texts(cells)), [], "", false, false)
  {
    if cells != [] {
      var last := |cells| - 1;
      assert [] + Texts(cells[..last]) + [cells[last].text] == Texts(cells);
    }
  }

  /** A line with a terminator; after a bare CR the next character must not be LF. */
  lemma ScanLine(l: Line, rest: string, rows: Table)
    requires (forall c :: c in l.cells ==> Writable(c)) && !l.ending.EndOfFile?
    requires l.ending.CR? ==> rest == [] || rest[0] != '\n'
    ensures Scan(PrintLine(l) + rest, START.(rows := rows)) == Scan(rest, START.(rows := AddKept(rows, Texts(l.cells))))
  {
    var p := START.(rows := rows);
    var tail := PrintEnding(l.ending) + rest;
    assert PrintLine(l) + rest == PrintCells(l.cells) + tail;
    var q := if l.cells == [] then p else AfterCells(p, l.cells);
    if l.cells == [] { assert PrintCells(l.cells) + tail == tail; } else { ScanCells(l.cells, tail, p); }
    assert tail[|PrintEnding(l.ending)|..] == rest;
    assert Width(tail, q) == |PrintEnding(l.ending)| && Step(tail, q) == EndRow(q);
    EndRowOfCells(p, l.cells);
  }

  lemma FinishLine(l: Line, rows: Table)
    requires (forall c :: c in l.cells ==> Writable(c)) && l.ending.EndOfFile?
    ensures Finish(Scan(PrintLine(l), START.(rows := rows))) == Ok(AddKept(rows, Texts(l.cells)))
  {
    var p := START.(rows := rows);
    if l.cells != [] {
      assert PrintLine(l) == PrintCells(l.cells) + "";
      ScanCells(l.cells, "", p);
      EndRowOfCells(p, l.cells);
      var q := AfterCells(p, l.cells);
      if q.row == [] && !q.fieldStarted { assert Texts(l.cells) == [""]; }
    }
  }

  // ------------------------------------------------------------------ whole tables

  /** No bare CR is followed by text that opens with LF, which would read as one terminator. */
  predicate CrStandsAlone(lines: seq<Line>) {
    forall i :: 0 <= i < |lines| && lines[i].ending.CR? ==> var rest := Print(lines[i + 1..]);
        rest == [] || rest[0] != '\n'
  }

  lemma {:induction false} ScanLines(lines: seq<Line>, rows: Table)
    requires WellFormed(lines) && CrStandsAlone(lines)
    ensures Finish(Scan(Print(lines), START.(rows := rows))) == Ok(rows + Kept(TableOf(lines)))
    decreases |lines|
  {
    if lines == [] {
      assert rows + [] == rows;
    } else {
      var l, more := lines[0], lines[1..];
      assert TableOf(lines)[1..] == TableOf(more);
      var rows' := AddKept(rows, Texts(l.cells));
      assert rows' + Kept(TableOf(more)) == rows + Kept(TableOf(lines));
      if l.ending.EndOfFile? {
        assert |lines| == 1 && Print(lines) == PrintLine(l) + "" == PrintLine(l);
        assert Kept(TableOf(more)) == [];
        assert rows' + [] == rows';
        FinishLine(l, rows);
      } else {
        assert lines[1..] == more;
        ScanLine(l, Print(more), rows);
        assert CrStandsAlone(more) by {
          forall i | 0 <= i < |more| && more[i].ending.CR?
            ensures var rest := Print(more[i + 1..]); rest == [] || rest[0] != '\n'
          {
            assert more[i] == lines[i + 1] && more[i + 1..] == lines[i + 2..];
          }
        }
        ScanLines(more, rows');
      }
    }
  }

  /** What any writer's file parses to: its table without the rows that are a single blank cell or no cell at all. */
  lemma ParsePrinted(lines: seq<Line>, bom: bool)
    requires WellFormed(lines) && CrStandsAlone(lines)
    requires bom || Print(lines) == [] || Print(lines)[0] != BOM
    ensures Parse(Marked(bom, Print(lines))) == Ok(Kept(TableOf(lines)))
  {
    StripMarked(bom, Print(lines));
    ScanLines(lines, []);
    assert START.(rows := []) == START;
    assert [] + Kept(TableOf(lines)) == Kept(TableOf(lines));
  }

  /** The file's text, with or without a leading byte-order mark. */
  function Marked(bom: bool, text: string): string { if bom then ['\U{FEFF}'] + text else text }

  lemma StripMarked(bom: bool, text: string)
    requires bom || text == [] || text[0] != BOM
    ensures Strip(Marked(bom, text)) == text
  {
  }

  lemma {:induction false} KeptAll(rows: Table)
    ensures Kept(rows) == rows <==> AllKept(rows)
    ensures |Kept(rows)| <= |rows|
    decreases |rows|
  {
    if rows != [] {
      KeptAll(rows[1..]);
      if Keep(rows[0]) {
        assert Kept(rows)[1..] == Kept(rows[1..]);
        assert AllKept(rows) ==> AllKept(rows[1..]);
        if AllKept(rows[1..]) { assert forall i :: 0 < i < |rows| ==> rows[i] == rows[1..][i - 1]; }
        if Kept(rows) == rows { assert Kept(rows)[1..] == rows[1..]; }
      }
    }
  }

  /** A line whose row is kept opens with something other than LF: with a quote, a character, or a comma. */
  lemma KeptLineOpens(l: Line)
    requires (forall c :: c in l.cells ==> Writable(c)) && Keep(Texts(l.cells))
    ensures PrintLine(l) != [] && PrintLine(l)[0] != '\n'
  {
    var first := l.cells[0];
    assert Texts(l.cells)[0] == first.text && first in l.cells;
    if |l.cells| > 1 { assert PrintCells(l.cells) == PrintCell(first) + ("," + PrintCells(l.cells[1..])); }
  }

  lemma KeptLinesStandAlone(lines: seq<Line>)
    requires WellFormed(lines) && AllKept(TableOf(lines))
    ensures CrStandsAlone(lines)
  {
    forall i | 0 <= i < |lines| && lines[i].ending.CR?
      ensures var rest := Print(lines[i + 1..]); rest == [] || rest[0] != '\n'
    {
      if i + 1 < |lines| {
        assert Keep(TableOf(lines)[i + 1]);
        KeptLineOpens(lines[i + 1]);
        assert Print(lines[i + 1..]) == PrintLine(lines[i + 1]) + Print(lines[i + 1..][1..]);
      }
    }
  }

  /** Round trip: whatever the cells hold, whichever of them the writer quotes, and whichever terminator ends each line,
      a table of kept rows comes back unchanged. Without a byte-order mark the text must not open with one. */
  lemma RoundTrip(lines: seq<Line>, bom: bool)
    requires WellFormed(lines) && AllKept(TableOf(lines))
    requires bom || Print(lines) == [] || Print(lines)[0] != BOM
    ensures Parse(Marked(bom, Print(lines))) == Ok(TableOf(lines))
  {
    KeptLinesStandAlone(lines);
    ParsePrinted(lines, bom);
    KeptAll(TableOf(lines));
  }

  // ------------------------------------------------------------------ the fully quoted writer

  function Quoted(row: seq<string>): seq<Cell> { seq(|row|, i requires 0 <= i < |row| => Cell(row[i], true)) }

  function QuotedLines(t: Table): seq<Line> { seq(|t|, i requires 0 <= i < |t| => Line(Quoted(t[i]), LF)) }

  lemma QuotedLinesShowTable(t: Table)
    ensures TableOf(QuotedLines(t)) == t
  {
    forall i | 0 <= i < |t| ensures TableOf(QuotedLines(t))[i] == t[i] {
      assert Texts(Quoted(t[i])) == t[i];
    }
  }

  lemma QuotedOpensWithoutMark(t: Table)
    ensures var text := Print(QuotedLines(t)); text == [] || text[0] != BOM
  {
    if t != [] {
      var l := QuotedLines(t)[0];
      if t[0] != [] {
        assert PrintCell(l.cells[0])[0] == '"';
        if |l.cells| > 1 { assert PrintCells(l.cells) == PrintCell(l.cells[0]) + ("," + PrintCells(l.cells[1..])); }
      }
    }
  }

  /** The fully quoted writer round-trips exactly the tables of kept rows, on every table there is. */
  lemma QuotedRoundTrip(t: Table)
    ensures Parse(Print(QuotedLines(t))) == Ok(Kept(t))
    ensures Parse(Print(QuotedLines(t))) == Ok(t) <==> AllKept(t)
  {
    var lines := QuotedLines(t);
    QuotedLinesShowTable(t);
    QuotedOpensWithoutMark(t);
    ParsePrinted(lines, false);
    KeptAll(t);
  }

  /** Any text that parses can be rewritten fully quoted without changing what it says. */
  lemma RewritingPreserves(input: string)
    requires Parse(input).Ok?
    ensures Parse(Print(QuotedLines(Parse(input).value))) == Parse(input)
  {
    ParseKeepsOnly(input);
    QuotedRoundTrip(Parse(input).value);
  }
}
