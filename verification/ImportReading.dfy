/**
  What an import reads off a file, told in the file's own cells
 (apps/api/src/modules/imports/zendesk-mapper.ts). */
module ImportReading {
  import opened Options
  import opened JsText
  import opened Csv
  import opened ZendeskMapper

  // ------------------------------------------------------------------ cells by header

  /** The headers a column goes by, in lower case. */
  function NamesOf(c: Column): set<string> {
    match c
    case IdColumn => {"ticket id", "id"}
    case NameColumn => {"requester", "requester name"}
    case EmailColumn => {"requester email", "email"}
    case SubjectColumn => {"subject"}
    case DescriptionColumn => {"description"}
    case StatusColumn => {"status"}
    case PriorityColumn => {"priority"}
    case CreatedColumn => {"created at", "created at (timestamp)", "created"}
  }

  lemma CanonicalIff(folded: string, c: Column)
    ensures folded in NamesOf(c) <==> Canonical(folded) == Some(c)
  {
  }

  predicate Named(f: Platform, header: seq<string>, j: nat, c: Column)
    requires j < |header|
  {
    f.lower(Trim(header[j])) in NamesOf(c)
  }

  /** The trimmed cell under the first header that goes by one of the names; empty without one, or in a short row. */
  function CellNamed(f: Platform, header: seq<string>, row: seq<string>, c: Column): string {
    if header == [] then ""
    else if Named(f, header, 0, c) then (if row == [] then "" else Trim(row[0]))
    else CellNamed(f, header[1..], if row == [] then [] else row[1..], c)
  }

  lemma {:induction false} CellNamedAt(f: Platform, header: seq<string>, row: seq<string>, c: Column, j: nat)
    requires j < |header| && Named(f, header, j, c) && forall i :: 0 <= i < j ==> !Named(f, header, i, c)
    ensures CellNamed(f, header, row, c) == if j < |row| then Trim(row[j]) else ""
    decreases j
  {
    if j > 0 {
      assert !Named(f, header, 0, c);
      var rest := if row == [] then [] else row[1..];
      forall i | 0 <= i < j - 1 ensures !Named(f, header[1..], i, c) { assert !Named(f, header, i + 1, c); }
      CellNamedAt(f, header[1..], rest, c, j - 1);
    }
  }

  lemma {:induction false} NoCellNamed(f: Platform, header: seq<string>, row: seq<string>, c: Column)
    requires forall i :: 0 <= i < |header| ==> !Named(f, header, i, c)
    ensures CellNamed(f, header, row, c) == ""
    decreases |header|
  {
    if header != [] {
      assert !Named(f, header, 0, c);
      forall i | 0 <= i < |header| - 1 ensures !Named(f, header[1..], i, c) { assert !Named(f, header, i + 1, c); }
      NoCellNamed(f, header[1..], if row == [] then [] else row[1..], c);
    }
  }

  predicate HasColumn(f: Platform, header: seq<string>, c: Column) {
    exists j :: 0 <= j < |header| && Named(f, header, j, c)
  }

  lemma NamesAreNamed(f: Platform, header: seq<string>, j: nat, c: Column)
    requires j < |header|
    ensures Names(f, header)[j] == Some(c) <==> Named(f, header, j, c)
  {
    CanonicalIff(f.lower(Trim(header[j])), c);
  }

  /** A column's cell is the cell under the first header with one of its names. */
  lemma CellIsNamed(f: Platform, header: seq<string>, row: seq<string>, c: Column)
    ensures var columns := ColumnsOf(Names(f, header), |header|);
            Cell(columns, row, c) == CellNamed(f, header, row, c) && (c in columns <==> HasColumn(f, header, c))
  {
    var all := Names(f, header);
    var columns := ColumnsOf(all, |header|);
    ColumnsIndex(all, |header|);
    forall j | 0 <= j < |header| ensures Named(f, header, j, c) <==> all[j] == Some(c) {
      NamesAreNamed(f, header, j, c);
    }
    if c in columns {
      var j := columns[c];
      forall i | 0 <= i < j ensures !Named(f, header, i, c) { assert all[i] in all[..j]; }
      CellNamedAt(f, header, row, c, j);
    } else {
      NoCellNamed(f, header, row, c);
    }
  }

  // ------------------------------------------------------------------ fields by cell

  /** The first `n` characters, or all there are. */
  predicate IsCut(cut: string, s: string, n: nat) { cut <= s && |cut| == if |s| < n then |s| else n }

  predicate StatusSays(raw: string, s: Status) {
    || (raw in {"", "new", "open"} && s == Open)
    || (raw == "pending" && s == Pending)
    || (raw in {"hold", "on_hold", "on-hold"} && s == OnHold)
    || (raw == "solved" && s == Solved)
    || (raw == "closed" && s == Closed)
    || (raw in {"constructor", "__proto__"} && s == InheritedStatus)
  }

  predicate PrioritySays(raw: string, p: Priority) {
    || (raw in {"", "normal"} && p == Normal)
    || (raw == "low" && p == Low)
    || (raw == "high" && p == High)
    || (raw == "urgent" && p == Urgent)
    || (raw in {"constructor", "__proto__"} && p == InheritedPriority)
  }

  predicate IsTicketId(id: string) {
    1 <= |id| <= 64
    && forall c :: c in id ==> 'A' <= c <= 'Z' || 'a' <= c <= 'z' || '0' <= c <= '9' || c in {'_', '-'}
  }

  /** The cells of one row that an import looks at. */
  datatype Cells = Cells(id: string, name: string, email: string, subject: string, description: string,
                         status: string, priority: string, created: string)

  function CellsOf(f: Platform, header: seq<string>, row: seq<string>): Cells {
    Cells(CellNamed(f, header, row, IdColumn), CellNamed(f, header, row, NameColumn),
          CellNamed(f, header, row, EmailColumn), CellNamed(f, header, row, SubjectColumn),
          CellNamed(f, header, row, DescriptionColumn), CellNamed(f, header, row, StatusColumn),
          CellNamed(f, header, row, PriorityColumn), CellNamed(f, header, row, CreatedColumn))
  }

  /** Ticket `m` shows the cells of its row. */
  ghost predicate ShowsCells(f: Platform, cells: Cells, m: MappedRow) {
    && m.externalId == cells.id
    && m.requesterEmail == f.lower(cells.email)
    && (if cells.name == "" then m.requesterName == None
        else m.requesterName.Some? && IsCut(m.requesterName.value, cells.name, 200))
    && (if cells.subject != "" then IsCut(m.subject, cells.subject, 200) else IsCut(m.subject, cells.description, 80))
    && IsCut(m.description, cells.description, 20_000)
    && StatusSays(f.lower(cells.status), m.status)
    && PrioritySays(f.lower(cells.priority), m.priority)
    && (if cells.created == "" then m.createdAt == f.now else f.date(cells.created) == Some(m.createdAt))
  }

  /** A row that says enough: an id, a valid address, a subject or a description, known words and a readable date. */
  ghost predicate Acceptable(f: Platform, cells: Cells) {
    && IsTicketId(cells.id)
    && f.emailOk(f.lower(cells.email))
    && (cells.subject != "" || cells.description != "")
    && (exists s :: StatusSays(f.lower(cells.status), s))
    && (exists p :: PrioritySays(f.lower(cells.priority), p))
    && (cells.created == "" || f.date(cells.created).Some?)
  }

  lemma StatusIsSaid(raw: string)
    ensures StatusOf(raw).Some? ==> StatusSays(raw, StatusOf(raw).value)
    ensures forall s :: StatusSays(raw, s) ==> StatusOf(raw) == Some(s)
  {
  }

  lemma PriorityIsSaid(raw: string)
    ensures PriorityOf(raw).Some? ==> PrioritySays(raw, PriorityOf(raw).value)
    ensures forall p :: PrioritySays(raw, p) ==> PriorityOf(raw) == Some(p)
  {
  }

  lemma IdIsTicketId(id: string)
    ensures IdOk(id) <==> IsTicketId(id)
  {
    if IsTicketId(id) {
      forall i | 0 <= i < |id| ensures IdChar(id[i]) { assert id[i] in id; }
    }
  }

  lemma SliceIsCut(s: string, n: nat)
    ensures IsCut(Slice(s, n), s, n)
    ensures n > 0 ==> (Slice(s, n) == "" <==> s == "")
  {
  }

  lemma CutOfCut(s: string)
    ensures IsCut(Slice(Slice(s, 80), 200), s, 80)
  {
  }

  ghost predicate Reads(columns: Columns, row: seq<string>, cells: Cells) {
    && Cell(columns, row, IdColumn) == cells.id && Cell(columns, row, NameColumn) == cells.name
    && Cell(columns, row, EmailColumn) == cells.email && Cell(columns, row, SubjectColumn) == cells.subject
    && Cell(columns, row, DescriptionColumn) == cells.description && Cell(columns, row, StatusColumn) == cells.status
    && Cell(columns, row, PriorityColumn) == cells.priority && Cell(columns, row, CreatedColumn) == cells.created
  }

  lemma MapRestAccepts(f: Platform, columns: Columns, row: seq<string>, cells: Cells)
    requires Reads(columns, row, cells)
    ensures MapRest(f, columns, row).Good? && IsTicketId(cells.id) <==> Acceptable(f, cells)
  {
    StatusIsSaid(f.lower(cells.status));
    PriorityIsSaid(f.lower(cells.priority));
    SliceIsCut(cells.subject, 200);
    SliceIsCut(cells.description, 80);
    SliceIsCut(Slice(cells.description, 80), 200);
  }

  lemma MapRestShows(f: Platform, columns: Columns, row: seq<string>, cells: Cells)
    requires Reads(columns, row, cells) && MapRest(f, columns, row).Good?
    ensures ShowsCells(f, cells, MapRest(f, columns, row).value)
  {
    StatusIsSaid(f.lower(cells.status));
    PriorityIsSaid(f.lower(cells.priority));
    SliceIsCut(cells.name, 200);
    SliceIsCut(cells.subject, 200);
    SliceIsCut(cells.description, 20_000);
    CutOfCut(cells.description);
  }

  /** The two readings of a row agree with its cells. */
  ghost predicate ReadsRow(f: Platform, header: seq<string>, k: Checks, row: seq<string>) {
    var cells := CellsOf(f, header, row);
    && (Valid(k, row) <==> Acceptable(f, cells)) && k.idOf(row) == cells.id
    && (k.rest(row).Good? ==> ShowsCells(f, cells, k.rest(row).value))
  }

  ghost predicate ReadsRows(f: Platform, header: seq<string>, k: Checks) {
    forall row :: ReadsRow(f, header, k, row)
  }

  lemma ChecksReadRow(f: Platform, header: seq<string>, row: seq<string>)
    ensures ReadsRow(f, header, ChecksFor(f, ColumnsOf(Names(f, header), |header|)), row)
  {
    forall c: Column { CellIsNamed(f, header, row, c); }
    IdIsTicketId(CellNamed(f, header, row, IdColumn));
    var columns := ColumnsOf(Names(f, header), |header|);
    MapRestAccepts(f, columns, row, CellsOf(f, header, row));
    if MapRest(f, columns, row).Good? { MapRestShows(f, columns, row, CellsOf(f, header, row)); }
  }

  /** A table is taken as a whole exactly when it has a header with the three required columns and at most 5000 rows. */
  predicate Takes(f: Platform, table: Table) {
    1 <= |table| <= 5001
    && HasColumn(f, table[0], IdColumn) && HasColumn(f, table[0], EmailColumn) && HasColumn(f, table[0], SubjectColumn)
  }

  function ChecksOf(f: Platform, header: seq<string>): Checks {
    ChecksFor(f, ColumnsOf(Names(f, header), |header|))
  }

  lemma TakesIff(f: Platform, csv: string, table: Table)
    requires Parse(csv) == Ok(table)
    ensures ParseImport(f, csv).Parsed? <==> Takes(f, table)
    ensures Takes(f, table) ==> ParseImport(f, csv).rows == AcceptedUpTo(ChecksOf(f, table[0]), table[1..], |table| - 1)
  {
    if table != [] {
      forall c: Column { CellIsNamed(f, table[0], [], c); }
    }
  }

  /** Ticket `m` was read off its own line, which says enough. */
  ghost predicate ReadOff(f: Platform, table: Table, m: MappedRow)
    requires table != []
  {
    2 <= m.line <= |table|
    && var cells := CellsOf(f, table[0], table[m.line - 1]); Acceptable(f, cells) && ShowsCells(f, cells, m)
  }

  lemma ShowsWithLine(f: Platform, cells: Cells, mapped: MappedRow, m: MappedRow)
    requires ShowsCells(f, cells, mapped) && m == mapped.(line := m.line, externalId := cells.id)
    ensures ShowsCells(f, cells, m)
  {
  }

  lemma FirstIsReadOff(f: Platform, table: Table, k: Checks, m: MappedRow)
    requires table != [] && MapsFirst(k, table[1..], |table| - 1, m) && ReadsRow(f, table[0], k, table[m.line - 1])
    ensures ReadOff(f, table, m)
  {
    var row := table[m.line - 1];
    assert table[1..][m.line - 2] == row;
    ShowsWithLine(f, CellsOf(f, table[0], row), k.rest(row).value, m);
  }

  /** The id of every row that says enough is accepted. */
  ghost predicate TakesIds(f: Platform, table: Table, rows: seq<MappedRow>)
    requires table != []
  {
    forall i :: 1 <= i < |table| && Acceptable(f, CellsOf(f, table[0], table[i])) ==>
      exists m :: m in rows && m.externalId == CellsOf(f, table[0], table[i]).id
  }

  lemma AcceptedIsReadOff(f: Platform, table: Table, k: Checks, m: MappedRow)
    requires table != [] && ReadsRows(f, table[0], k)
    requires m in AcceptedUpTo(k, table[1..], |table| - 1)
    ensures ReadOff(f, table, m)
  {
    var body := table[1..];
    var rows := AcceptedUpTo(k, body, |body|);
    AcceptedAreFirsts(k, body, |body|);
    var r :| 0 <= r < |rows| && rows[r] == m;
    assert MapsFirst(k, body, |body|, rows[r]);
    assert ReadsRow(f, table[0], k, table[m.line - 1]);
    FirstIsReadOff(f, table, k, m);
  }

  lemma IdIsTaken(f: Platform, table: Table, k: Checks, i: nat)
    requires 1 <= i < |table| && ReadsRow(f, table[0], k, table[i]) && Acceptable(f, CellsOf(f, table[0], table[i]))
    ensures var rows := AcceptedUpTo(k, table[1..], |table| - 1);
            exists m :: m in rows && m.externalId == CellsOf(f, table[0], table[i]).id
  {
    assert table[1..][i - 1] == table[i];
    ValidIdIsAccepted(k, table[1..], i - 1);
  }

  lemma ChecksReadRows(f: Platform, header: seq<string>)
    ensures ReadsRows(f, header, ChecksOf(f, header))
  {
    forall row ensures ReadsRow(f, header, ChecksOf(f, header), row) { ChecksReadRow(f, header, row); }
  }

  lemma RowsAreReadOff(f: Platform, table: Table)
    requires table != []
    ensures var rows := AcceptedUpTo(ChecksOf(f, table[0]), table[1..], |table| - 1);
            (forall m :: m in rows ==> ReadOff(f, table, m)) && TakesIds(f, table, rows)
  {
    var k := ChecksOf(f, table[0]);
    ChecksReadRows(f, table[0]);
    forall m | m in AcceptedUpTo(k, table[1..], |table| - 1) ensures ReadOff(f, table, m) {
      AcceptedIsReadOff(f, table, k, m);
    }
    forall i | 1 <= i < |table| && Acceptable(f, CellsOf(f, table[0], table[i]))
      ensures exists m :: m in AcceptedUpTo(k, table[1..], |table| - 1)
                          && m.externalId == CellsOf(f, table[0], table[i]).id
    {
      IdIsTaken(f, table, k, i);
    }
  }

  /** What an import accepts, in the file's own cells: every accepted ticket shows the cells of its line, and every row
      that says enough has its id accepted. A file that does not parse or is not taken has no rows. */
  lemma ImportReadsItsCells(f: Platform, csv: string)
    ensures var p, r := Parse(csv), ParseImport(f, csv);
            && (r.Parsed? <==> p.Ok? && Takes(f, p.value))
            && (r.Parsed? ==> (forall m :: m in r.rows ==> ReadOff(f, p.value, m)) && TakesIds(f, p.value, r.rows))
  {
    if Parse(csv).Ok? {
      var table := Parse(csv).value;
      TakesIff(f, csv, table);
      if Takes(f, table) { RowsAreReadOff(f, table); }
    }
  }
}
