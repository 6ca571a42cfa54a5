/**
  The way back: tickets printed as a fully quoted export are read as exactly those tickets, and saved as such
 
 (apps/api/src/modules/imports). */
module ExportRoundTrip {
  import opened Options
  import opened JsText
  import opened Csv
  import W = CsvWriter
  import opened ZendeskMapper
  import opened ImportReading
  import I = ImportsService

  // ------------------------------------------------------------------ the export

  /** One ticket as an export prints it; `created` is the printed form of `createdAt`. */
  datatype Exported = Exported(id: string, name: string, email: string, subject: string, description: string,
                               status: Status, priority: Priority, created: string, createdAt: int)

  const HEADER: seq<string> :=
    ["Ticket ID", "Requester", "Requester email", "Subject", "Description", "Status", "Priority", "Created at"]

  function ColumnAt(i: nat): Column
    requires i < 8
  {
    [IdColumn, NameColumn, EmailColumn, SubjectColumn, DescriptionColumn, StatusColumn, PriorityColumn,
        CreatedColumn][i]
  }

  function StatusWord(s: Status): string
    requires !s.InheritedStatus?
  {
    match s
    case Open => "open"
    case Pending => "pending"
    case OnHold => "on_hold"
    case Solved => "solved"
    case Closed => "closed"
  }

  function PriorityWord(p: Priority): string
    requires !p.InheritedPriority?
  {
    match p
    case Low => "low"
    case Normal => "normal"
    case High => "high"
    case Urgent => "urgent"
  }

  /** The platform folds the header to lower case and leaves the words of the two lists alone. */
  ghost predicate FoldsExport(f: Platform) {
    && f.lower("Ticket ID") == "ticket id" && f.lower("Requester") == "requester"
    && f.lower("Requester email") == "requester email" && f.lower("Subject") == "subject"
    && f.lower("Description") == "description" && f.lower("Status") == "status"
    && f.lower("Priority") == "priority" && f.lower("Created at") == "created at"
    && (forall s: Status :: !s.InheritedStatus? ==> f.lower(StatusWord(s)) == StatusWord(s))
    && (forall p: Priority :: !p.InheritedPriority? ==> f.lower(PriorityWord(p)) == PriorityWord(p))
  }

  predicate Tidy(s: string) { Trim(s) == s }

  /** A ticket an export can hold without loss. */
  ghost predicate Printable(f: Platform, e: Exported) {
    && IsTicketId(e.id) && Tidy(e.id)
    && Tidy(e.name) && |e.name| <= 200
    && Tidy(e.email) && f.lower(e.email) == e.email && f.emailOk(e.email)
    && Tidy(e.subject) && 1 <= |e.subject| <= 200
    && Tidy(e.description) && |e.description| <= 20_000
    && !e.status.InheritedStatus? && !e.priority.InheritedPriority?
    && Tidy(e.created) && e.created != "" && f.date(e.created) == Some(e.createdAt)
  }

  function RowOf(e: Exported): seq<string>
    requires !e.status.InheritedStatus? && !e.priority.InheritedPriority?
  {
    [e.id, e.name, e.email, e.subject, e.description, StatusWord(e.status), PriorityWord(e.priority), e.created]
  }

  predicate Spoken(es: seq<Exported>) {
    forall i :: 0 <= i < |es| ==> !es[i].status.InheritedStatus? && !es[i].priority.InheritedPriority?
  }

  ghost predicate PrintableAt(f: Platform, es: seq<Exported>, i: nat)
    requires i < |es|
  {
    Printable(f, es[i])
  }

  ghost predicate AllPrintable(f: Platform, es: seq<Exported>) {
    && Spoken(es)
    && (forall i :: 0 <= i < |es| ==> PrintableAt(f, es, i))
    && (forall i, j :: 0 <= i < j < |es| ==> es[i].id != es[j].id)
  }

  function BodyOf(es: seq<Exported>): (body: Table)
    requires Spoken(es)
    ensures |body| == |es| && forall i :: 0 <= i < |es| ==> body[i] == RowOf(es[i])
  {
    seq(|es|, i requires 0 <= i < |es| => RowOf(es[i]))
  }

  /** The ticket an import should read off line `line`. */
  function TicketOf(e: Exported, line: nat): MappedRow {
    MappedRow(line, e.id, e.email, if e.name == "" then None else Some(e.name), e.subject, e.description,
              e.status, e.priority, e.createdAt)
  }

  // ------------------------------------------------------------------ reading it back

  lemma HeaderIsTidy(i: nat)
    requires i < 8
    ensures Trim(HEADER[i]) == HEADER[i]
  {
  }

  lemma HeaderFolds(f: Platform, i: nat)
    requires FoldsExport(f) && i < 8
    ensures Canonical(f.lower(Trim(HEADER[i]))) == Some(ColumnAt(i))
  {
    HeaderIsTidy(i);
  }

  lemma HeaderNames(f: Platform, i: nat, c: Column)
    requires FoldsExport(f) && i < 8
    ensures Named(f, HEADER, i, c) <==> c == ColumnAt(i)
  {
    HeaderFolds(f, i);
    NamedIffCanonical(f, HEADER, i, c);
  }

  lemma NamedIffCanonical(f: Platform, header: seq<string>, i: nat, c: Column)
    requires i < |header|
    ensures Named(f, header, i, c) <==> Canonical(f.lower(Trim(header[i]))) == Some(c)
  {
    CanonicalIff(f.lower(Trim(header[i])), c);
  }

  ghost predicate NamesOnly(f: Platform, header: seq<string>, i: nat)
    requires i < 8 <= |header|
  {
    forall c: Column :: Named(f, header, i, c) <==> c == ColumnAt(i)
  }

  /** A header of the export's eight columns, in its order. */
  ghost predicate HeadsExport(f: Platform, header: seq<string>) {
    |header| == 8 && forall i: nat :: i < 8 ==> NamesOnly(f, header, i)
  }

  lemma HeaderHeadsExport(f: Platform)
    requires FoldsExport(f)
    ensures HeadsExport(f, HEADER)
  {
    forall i: nat | i < 8 ensures NamesOnly(f, HEADER, i) {
      forall c: Column { HeaderNames(f, i, c); }
    }
  }

  lemma OnlyCellNamed(f: Platform, header: seq<string>, row: seq<string>, c: Column, j: nat)
    requires |row| == |header| && j < |header| && forall i :: 0 <= i < |header| ==> (Named(f, header, i, c) <==> i == j)
    ensures CellNamed(f, header, row, c) == Trim(row[j])
  {
    CellNamedAt(f, header, row, c, j);
  }

  lemma CellOfExport(f: Platform, header: seq<string>, row: seq<string>, i: nat)
    requires HeadsExport(f, header) && |row| == 8 && i < 8
    ensures CellNamed(f, header, row, ColumnAt(i)) == Trim(row[i])
  {
    var c := ColumnAt(i);
    forall j: nat | j < 8 ensures Named(f, header, j, c) <==> j == i { assert NamesOnly(f, header, j); }
    OnlyCellNamed(f, header, row, c, i);
  }

  lemma WordsAreTidy(s: Status, p: Priority)
    requires !s.InheritedStatus? && !p.InheritedPriority?
    ensures Tidy(StatusWord(s)) && Tidy(PriorityWord(p))
    ensures StatusSays(StatusWord(s), s) && PrioritySays(PriorityWord(p), p)
  {
  }

  function CellsIn(e: Exported): Cells
    requires !e.status.InheritedStatus? && !e.priority.InheritedPriority?
  {
    Cells(e.id, e.name, e.email, e.subject, e.description, StatusWord(e.status), PriorityWord(e.priority), e.created)
  }

  lemma FirstCells(f: Platform, header: seq<string>, row: seq<string>)
    requires HeadsExport(f, header) && |row| == 8
    ensures CellNamed(f, header, row, IdColumn) == Trim(row[0]) && CellNamed(f, header, row, NameColumn) == Trim(row[1])
    ensures CellNamed(f, header, row, EmailColumn) == Trim(row[2])
    ensures CellNamed(f, header, row, SubjectColumn) == Trim(row[3])
  {
    CellOfExport(f, header, row, 0);
    CellOfExport(f, header, row, 1);
    CellOfExport(f, header, row, 2);
    CellOfExport(f, header, row, 3);
  }

  lemma LastCells(f: Platform, header: seq<string>, row: seq<string>)
    requires HeadsExport(f, header) && |row| == 8
    ensures CellNamed(f, header, row, DescriptionColumn) == Trim(row[4])
    ensures CellNamed(f, header, row, StatusColumn) == Trim(row[5])
    ensures CellNamed(f, header, row, PriorityColumn) == Trim(row[6])
    ensures CellNamed(f, header, row, CreatedColumn) == Trim(row[7])
  {
    CellOfExport(f, header, row, 4);
    CellOfExport(f, header, row, 5);
    CellOfExport(f, header, row, 6);
    CellOfExport(f, header, row, 7);
  }

  lemma TidyCells(f: Platform, header: seq<string>, row: seq<string>)
    requires HeadsExport(f, header) && |row| == 8 && forall i :: 0 <= i < 8 ==> Tidy(row[i])
    ensures CellsOf(f, header, row) == Cells(row[0], row[1], row[2], row[3], row[4], row[5], row[6], row[7])
  {
    FirstCells(f, header, row);
    LastCells(f, header, row);
  }

  lemma RowIsTidy(f: Platform, e: Exported)
    requires Printable(f, e)
    ensures forall i :: 0 <= i < 8 ==> Tidy(RowOf(e)[i])
  {
    WordsAreTidy(e.status, e.priority);
  }

  lemma CellsOfExport(f: Platform, header: seq<string>, e: Exported)
    requires HeadsExport(f, header) && Printable(f, e)
    ensures CellsOf(f, header, RowOf(e)) == CellsIn(e)
  {
    RowIsTidy(f, e);
    TidyCells(f, header, RowOf(e));
  }

  lemma ExportIsAcceptable(f: Platform, e: Exported)
    requires FoldsExport(f) && Printable(f, e)
    ensures Acceptable(f, CellsIn(e))
  {
    WordsAreTidy(e.status, e.priority);
  }

  lemma StatusSaysOne(raw: string, s: Status, t: Status)
    requires StatusSays(raw, s) && StatusSays(raw, t)
    ensures s == t
  {
    StatusIsSaid(raw);
  }

  lemma PrioritySaysOne(raw: string, p: Priority, q: Priority)
    requires PrioritySays(raw, p) && PrioritySays(raw, q)
    ensures p == q
  {
    PriorityIsSaid(raw);
  }

  lemma CutWhole(cut: string, s: string, n: nat)
    requires IsCut(cut, s, n) && |s| <= n
    ensures cut == s
  {
  }

  lemma ShownIsExported(f: Platform, e: Exported, m: MappedRow)
    requires FoldsExport(f) && Printable(f, e) && ShowsCells(f, CellsIn(e), m)
    ensures m == TicketOf(e, m.line)
  {
    ChoicesAreExported(f, e, m);
    if e.name != "" { CutWhole(m.requesterName.value, e.name, 200); }
    CutWhole(m.subject, e.subject, 200);
    CutWhole(m.description, e.description, 20_000);
  }

  lemma ChoicesAreExported(f: Platform, e: Exported, m: MappedRow)
    requires FoldsExport(f) && !e.status.InheritedStatus? && !e.priority.InheritedPriority?
    requires StatusSays(f.lower(StatusWord(e.status)), m.status)
    requires PrioritySays(f.lower(PriorityWord(e.priority)), m.priority)
    ensures m.status == e.status && m.priority == e.priority
  {
    WordsAreTidy(e.status, e.priority);
    StatusSaysOne(StatusWord(e.status), e.status, m.status);
    PrioritySaysOne(PriorityWord(e.priority), e.priority, m.priority);
  }

  lemma ExportedRow(f: Platform, header: seq<string>, k: Checks, es: seq<Exported>, i: nat)
    requires FoldsExport(f) && HeadsExport(f, header) && AllPrintable(f, es) && i < |es|
    requires ReadsRows(f, header, k)
    ensures MapRow(k, BodyOf(es), i) == Good(TicketOf(es[i], i + 2))
  {
    var body := BodyOf(es);
    forall j | 0 <= j <= i ensures Valid(k, body[j]) && k.idOf(body[j]) == es[j].id {
      assert ReadsRow(f, header, k, body[j]) && PrintableAt(f, es, j);
      CellsOfExport(f, header, es[j]);
      ExportIsAcceptable(f, es[j]);
    }
    assert ReadsRow(f, header, k, body[i]) && PrintableAt(f, es, i);
    CellsOfExport(f, header, es[i]);
    var mapped := k.rest(body[i]).value;
    ShowsWithLine(f, CellsIn(es[i]), mapped, mapped.(line := i + 2, externalId := es[i].id));
    ShownIsExported(f, es[i], mapped.(line := i + 2, externalId := es[i].id));
    assert !ValidBefore(k, body, i, es[i].id);
  }

  function TicketsOf(es: seq<Exported>, n: nat): seq<MappedRow>
    requires n <= |es|
  {
    if n == 0 then [] else TicketsOf(es, n - 1) + [TicketOf(es[n - 1], n + 1)]
  }

  lemma {:induction false} ExportedRows(k: Checks, body: Table, es: seq<Exported>, n: nat)
    requires |body| == |es| && n <= |es|
    requires forall i :: 0 <= i < |es| ==> MapRow(k, body, i) == Good(TicketOf(es[i], i + 2))
    ensures AcceptedUpTo(k, body, n) == TicketsOf(es, n)
    decreases n
  {
    if n > 0 {
      ExportedRows(k, body, es, n - 1);
      assert MapRow(k, body, n - 1) == Good(TicketOf(es[n - 1], n + 1));
    }
  }

  lemma ExportIsTaken(f: Platform, header: seq<string>, body: Table)
    requires HeadsExport(f, header) && |body| <= 5000
    ensures Takes(f, [header] + body)
  {
    assert ([header] + body)[0] == header;
    assert NamesOnly(f, header, 0) && NamesOnly(f, header, 2) && NamesOnly(f, header, 3);
    assert ColumnAt(0) == IdColumn && ColumnAt(2) == EmailColumn && ColumnAt(3) == SubjectColumn;
    assert Named(f, header, 0, IdColumn) && Named(f, header, 2, EmailColumn) && Named(f, header, 3, SubjectColumn);
  }

  function ExportText(es: seq<Exported>): string
    requires Spoken(es)
  {
    W.Print(W.QuotedLines([HEADER] + BodyOf(es)))
  }

  lemma ExportParses(es: seq<Exported>)
    requires Spoken(es)
    ensures Parse(ExportText(es)) == Ok([HEADER] + BodyOf(es))
  {
    W.QuotedRoundTrip([HEADER] + BodyOf(es));
  }

  /** Round trip through printer, parser and mapper: an export of up to 5000 printable tickets with distinct ids is read
      as exactly those tickets, field by field and in order. */
  lemma ExportIsReadBack(f: Platform, es: seq<Exported>)
    requires FoldsExport(f) && AllPrintable(f, es) && |es| <= 5000
    ensures var p := ParseImport(f, ExportText(es));
            p.Parsed? && p.rows == TicketsOf(es, |es|)
  {
    var header, body := ExportedTable(f, es);
    ExportIsTaken(f, header, body);
    BodyIsReadBack(f, header, es, body);
    TakenIsRead(f, ExportText(es), header, body, TicketsOf(es, |es|));
  }

  lemma ExportedTable(f: Platform, es: seq<Exported>) returns (header: seq<string>, body: Table)
    requires FoldsExport(f) && Spoken(es)
    ensures Parse(ExportText(es)) == Ok([header] + body) && HeadsExport(f, header) && body == BodyOf(es)
  {
    header, body := HEADER, BodyOf(es);
    ExportParses(es);
    HeaderHeadsExport(f);
  }

  lemma TakenIsRead(f: Platform, csv: string, header: seq<string>, body: Table, rows: seq<MappedRow>)
    requires Parse(csv) == Ok([header] + body) && Takes(f, [header] + body)
    requires AcceptedUpTo(ChecksOf(f, header), body, |body|) == rows
    ensures ParseImport(f, csv).Parsed? && ParseImport(f, csv).rows == rows
  {
    var table := [header] + body;
    TakesIff(f, csv, table);
    assert table[0] == header && table[1..] == body;
  }

  lemma BodyIsReadBack(f: Platform, header: seq<string>, es: seq<Exported>, body: Table)
    requires FoldsExport(f) && HeadsExport(f, header) && AllPrintable(f, es) && body == BodyOf(es)
    ensures AcceptedUpTo(ChecksOf(f, header), body, |body|) == TicketsOf(es, |es|)
  {
    ChecksReadRows(f, header);
    ExportIsAccepted(f, header, ChecksOf(f, header), es);
  }

  lemma ExportIsAccepted(f: Platform, header: seq<string>, k: Checks, es: seq<Exported>)
    requires FoldsExport(f) && HeadsExport(f, header) && AllPrintable(f, es)
    requires ReadsRows(f, header, k)
    ensures AcceptedUpTo(k, BodyOf(es), |es|) == TicketsOf(es, |es|)
  {
    forall i | 0 <= i < |es| ensures MapRow(k, BodyOf(es), i) == Good(TicketOf(es[i], i + 2)) {
      ExportedRow(f, header, k, es, i);
    }
    ExportedRows(k, BodyOf(es), es, |es|);
  }

  // ------------------------------------------------------------------ and saved

  /** A saved ticket, in the fields of the row it was saved for. */
  predicate SavedAs(t: I.Ticket, orgId: string, number: nat, m: MappedRow) {
    && t.orgId == orgId && t.number == number
    && t.subject == m.subject && t.status == m.status && t.priority == m.priority && t.requester == m.requesterEmail
    && t.tags == ["imported", "zd-" + m.externalId] && t.createdAt == m.createdAt
    && t.resolvedAt == (if m.status in {Solved, Closed} then Some(m.createdAt) else None)
    && t.opening == if m.description == "" then None else Some(m.description)
  }

  /** Rows that do not fail are saved one ticket each, in order, under consecutive numbers; nothing else changes. */
  lemma {:induction false} SavedInOrder(db: I.Db, orgId: string, faulty: set<string>, rows: seq<MappedRow>)
    requires orgId in db.nextNumber && forall m :: m in rows ==> !I.Fails(db, orgId, faulty, m)
    ensures var db', next := I.SaveAll(db, orgId, faulty, rows), db.nextNumber[orgId];
            && |db'.tickets| == |db.tickets| + |rows| && db.tickets <= db'.tickets
            && (forall i :: 0 <= i < |rows| ==> SavedAs(db'.tickets[|db.tickets| + i], orgId, next + i, rows[i]))
            && db'.nextNumber == db.nextNumber[orgId := next + |rows|]
    decreases |rows|
  {
    if rows != [] {
      var db1 := I.Save(db, orgId, faulty, rows[0]);
      assert SavedAs(db1.tickets[|db.tickets|], orgId, db.nextNumber[orgId], rows[0]);
      forall m | m in rows[1..] ensures !I.Fails(db1, orgId, faulty, m) { assert m in rows; }
      SavedInOrder(db1, orgId, faulty, rows[1..]);
      var db' := I.SaveAll(db, orgId, faulty, rows);
      forall i | 0 < i < |rows|
        ensures SavedAs(db'.tickets[|db.tickets| + i], orgId, db.nextNumber[orgId] + i, rows[i])
      {
        assert rows[i] == rows[1..][i - 1];
      }
    } else {
      assert db.nextNumber == db.nextNumber[orgId := db.nextNumber[orgId] + 0];
    }
  }
}
