/** The CSV parser (apps/api/src/modules/imports/csv.ts). */
module Csv {
  import opened JsText

  type Table = seq<seq<string>>

  datatype Result<T> = Ok(value: T) | Malformed

  const BOM: char := '\U{FEFF}'

  /** Rows the parser keeps: everything but a single blank cell (and a row always has a cell). */
  predicate Keep(row: seq<string>) { |row| > 1 || (|row| == 1 && !Blank(row[0])) }

  // ------------------------------------------------------------------ the state machine

  datatype Parser = Parser(rows: Table, row: seq<string>, field: string, inQuotes: bool, fieldStarted: bool)

  const START := Parser([], [], "", false, false)

  function EndField(p: Parser): Parser { p.(row := p.row + [p.field], field := "", fieldStarted := false) }

  function EndRow(p: Parser): Parser {
    var q := EndField(p);
    q.(rows := if Keep(q.row) then q.rows + [q.row] else q.rows, row := [])
  }

  /** How many characters the next step reads: two for a doubled quote and for CR LF. */
  function Width(text: string, p: Parser): nat
    requires text != []
  {
    if |text| > 1
        && ((p.inQuotes && text[0] == '"' && text[1] == '"') || (!p.inQuotes && text[0] == '\r' && text[1] == '\n'))
    then 2 else 1
  }

  function Step(text: string, p: Parser): Parser
    requires text != []
  {
    var ch := text[0];
    if p.inQuotes then
      if ch != '"' then p.(field := p.field + [ch])
      else if Width(text, p) == 2 then p.(field := p.field + ['"'])
      else p.(inQuotes := false)
    else if ch == '"' && !p.fieldStarted then p.(inQuotes := true, fieldStarted := true)
    else if ch == ',' then EndField(p)
    else if ch == '\n' || ch == '\r' then EndRow(p)
    else p.(field := p.field + [ch], fieldStarted := true)
  }

  function Scan(text: string, p: Parser): Parser
    decreases |text|
  {
    if text == [] then p else Scan(text[Width(text, p)..], Step(text, p))
  }

  function Finish(p: Parser): Result<Table> {
    if p.inQuotes then Malformed
    else if p.fieldStarted || p.field != "" || p.row != [] then Ok(EndRow(p).rows)
    else Ok(p.rows)
  }

  function Strip(input: string): string { if input != [] && input[0] == BOM then input[1..] else input }

  function Parse(input: string): Result<Table> { Finish(Scan(Strip(input), START)) }

  /** One step of the machine at position `i`, in the loop's terms. */
  lemma ScanNext(text: string, i: nat, p: Parser)
    requires i < |text|
    ensures var w := Width(text[i..], p);
            && i + w <= |text| && Scan(text[i..], p) == Scan(text[i + w..], Step(text[i..], p))
            && (w == 2 <==> i + 1 < |text| && ((p.inQuotes && text[i] == '"' && text[i + 1] == '"')
                                               || (!p.inQuotes && text[i] == '\r' && text[i + 1] == '\n')))
  {
    var rest := text[i..];
    assert rest[Width(rest, p)..] == text[i + Width(rest, p)..];
  }

  method ParseCsv(input: string) returns (r: Result<Table>)
    ensures r == Parse(input)
  {
    var text := if input != [] && input[0] == BOM then input[1..] else input;
    var rows: Table, row: seq<string>, field: string := [], [], "";
    var inQuotes, fieldStarted := false, false;
    var i := 0;
    while i < |text|
      invariant 0 <= i <= |text|
      invariant Scan(text[i..], Parser(rows, row, field, inQuotes, fieldStarted)) == Scan(text, START)
    {
      ghost var p, rest := Parser(rows, row, field, inQuotes, fieldStarted), text[i..];
      ghost var next := i + Width(rest, p);
      ScanNext(text, i, p);
      var ch := text[i];
      if inQuotes {
        if ch == '"' {
          if i + 1 < |text| && text[i + 1] == '"' {
            field := field + ['"'];
            i := i + 1;
          } else {
            inQuotes := false;
          }
        } else {
          field := field + [ch];
        }
      } else if ch == '"' && !fieldStarted {
        inQuotes, fieldStarted := true, true;
      } else if ch == ',' {
        row, field, fieldStarted := row + [field], "", false;
      } else if ch == '\n' || ch == '\r' {
        if ch == '\r' && i + 1 < |text| && text[i + 1] == '\n' { i := i + 1; }
        row, field, fieldStarted := row + [field], "", false;
        BlankTrims(row[0]);
        if |row| > 1 || Trim(row[0]) != "" { rows := rows + [row]; }
        row := [];
      } else {
        field := field + [ch];
        fieldStarted := true;
      }
      i := i + 1;
      assert i == next && Parser(rows, row, field, inQuotes, fieldStarted) == Step(rest, p);
    }
    assert text[i..] == [];
    if inQuotes { return Malformed; }
    if fieldStarted || field != "" || row != [] {
      row := row + [field];
      BlankTrims(row[0]);
      if |row| > 1 || Trim(row[0]) != "" { rows := rows + [row]; }
    }
    return Ok(rows);
  }

  // ------------------------------------------------------------------ composing scans

  /** Cutting here separates neither a doubled quote nor a CR LF pair. */
  predicate CleanCut(a: string, b: string) {
    a == [] || b == [] || !((a[|a| - 1] == '"' && b[0] == '"') || (a[|a| - 1] == '\r' && b[0] == '\n'))
  }

  lemma {:induction false} ScanConcat(a: string, b: string, p: Parser)
    requires CleanCut(a, b)
    ensures Scan(a + b, p) == Scan(b, Scan(a, p))
    decreases |a|
  {
    if a == [] { assert a + b == b; }
    else {
      var w := Width(a, p);
      assert Width(a + b, p) == w && Step(a + b, p) == Step(a, p);
      assert (a + b)[w..] == a[w..] + b;
      ScanConcat(a[w..], b, Step(a, p));
    }
  }

  lemma {:induction false} ScanKeepsEarlierRows(text: string, p: Parser, earlier: Table)
    ensures Scan(text, p.(rows := earlier + p.rows)) == Scan(text, p).(rows := earlier + Scan(text, p).rows)
    decreases |text|
  {
    if text != [] {
      var q := Step(text, p);
      assert Step(text, p.(rows := earlier + p.rows)) == q.(rows := earlier + q.rows);
      ScanKeepsEarlierRows(text[Width(text, p)..], q, earlier);
    }
  }

  predicate AllKept(rows: Table) { forall i :: 0 <= i < |rows| ==> Keep(rows[i]) }

  lemma {:induction false} ScanKeepsOnly(text: string, p: Parser)
    requires AllKept(p.rows)
    ensures AllKept(Scan(text, p).rows)
    decreases |text|
  {
    if text != [] { ScanKeepsOnly(text[Width(text, p)..], Step(text, p)); }
  }

  /** Every row the parser returns has a second cell or a cell that is not blank. */
  lemma ParseKeepsOnly(input: string)
    ensures Parse(input).Ok? ==> AllKept(Parse(input).value)
  {
    ScanKeepsOnly(Strip(input), START);
    var q := Scan(Strip(input), START);
    assert AllKept(q.rows) && AllKept(EndRow(q).rows);
  }

  // ------------------------------------------------------------------ complete chunks

  /** A text that ends in CR outside quotes leaves an empty row, and a following LF belongs to that CR. */
  lemma {:induction false} ScanAfterCr(a: string, b: string, p: Parser)
    requires a != [] && a[|a| - 1] == '\r' && !Scan(a, p).inQuotes
    ensures Scan(a + "\n" + b, p) == Scan(b, Scan(a, p))
    ensures var q := Scan(a, p); q.row == [] && q.field == "" && !q.fieldStarted
    decreases |a|
  {
    var w := Width(a, p);
    var whole := a + "\n" + b;
    if |a| == 1 {
      assert Step(a, p) == Scan(a, p);
      assert whole[2..] == b;
    } else {
      assert Width(whole, p) == w && Step(whole, p) == Step(a, p);
      assert whole[w..] == a[w..] + "\n" + b;
      ScanAfterCr(a[w..], b, Step(a, p));
    }
  }

  function Append(rows: Table, r: Result<Table>): Result<Table> {
    if r.Ok? then Ok(rows + r.value) else Malformed
  }

  lemma ScanAcrossLf(text: string, b: string)
    requires Finish(Scan(text, START)).Ok?
    ensures Scan(text + "\n" + b, START) == Scan(b, START.(rows := Finish(Scan(text, START)).value))
  {
    var q := Scan(text, START);
    if text != [] && text[|text| - 1] == '\r' {
      ScanAfterCr(text, b, START);
    } else {
      assert text + "\n" + b == text + ("\n" + b);
      ScanConcat(text, "\n" + b, START);
      assert ("\n" + b)[1..] == b;
      assert Scan("\n" + b, q) == Scan(b, EndRow(q));
    }
  }

  /** Files join: a well-formed chunk, a line feed and any further text parse to the chunk's rows followed by the
      further text's. It holds whatever the chunk ends in, a bare CR included. The further text must not start with a
      byte-order mark, which is only dropped at the very beginning. */
  lemma ParseJoins(a: string, b: string)
    requires Parse(a).Ok? && (b == [] || b[0] != '\U{FEFF}')
    ensures Parse(a + "\n" + b) == Append(Parse(a).value, Parse(b))
  {
    assert Strip(a + "\n" + b) == Strip(a) + "\n" + b;
    var clean := START.(rows := Parse(a).value);
    ScanAcrossLf(Strip(a), b);
    ScanKeepsEarlierRows(b, START, Parse(a).value);
    assert START.(rows := Parse(a).value + START.rows) == clean;
    FinishKeepsEarlierRows(Scan(b, START), Parse(a).value);
  }

  lemma FinishKeepsEarlierRows(p: Parser, earlier: Table)
    ensures Finish(p.(rows := earlier + p.rows)) == Append(earlier, Finish(p))
  {
    var q := EndField(p);
    assert earlier + (p.rows + [q.row]) == earlier + p.rows + [q.row];
  }
}
