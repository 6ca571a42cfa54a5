/**
  Mapping a parsed CSV to tickets (apps/api/src/modules/imports/zendesk-mapper.ts).

  Case folding, e-mail validation, date parsing and the clock belong to the platform and are
  parameters; everything the mapper decides itself is spelled
 out. */
module ZendeskMapper {
  import opened Options
  import opened JsText
  import opened Csv

  const MAX_IMPORT_ROWS := 5000
  const MAX_ERRORS_REPORTED := 100

  datatype Platform = Platform(lower: string -> string, emailOk: string -> bool, date: string -> Option<int>, now: int)

  /** `Inherited` is what the lookup tables answer for the two lower-case names every JavaScript object inherits. */
  datatype Status = Open | Pending | OnHold | Solved | Closed | InheritedStatus

  datatype Priority = Low | Normal | High | Urgent | InheritedPriority

  datatype MappedRow = MappedRow(line: nat, externalId: string, requesterEmail: string, requesterName: Option<string>,
                                 subject: string, description: string, status: Status, priority: Priority,
                                     createdAt: int)

  datatype Problem =
    | BadId | DuplicateId(id: string) | BadEmail | NoSubject
    | UnknownStatus(raw: string) | UnknownPriority(raw: string) | BadDate(raw: string)

  datatype RowError = RowError(line: nat, problem: Problem)

  datatype Outcome<T> = Good(value: T) | Bad(problem: Problem)

  // ------------------------------------------------------------------ header

  datatype Column = IdColumn | NameColumn | EmailColumn | SubjectColumn | DescriptionColumn | StatusColumn
    | PriorityColumn | CreatedColumn

  function Canonical(folded: string): Option<Column> {
    if folded == "ticket id" || folded == "id" then Some(IdColumn)
    else if folded == "requester" || folded == "requester name" then Some(NameColumn)
    else if folded == "requester email" || folded == "email" then Some(EmailColumn)
    else if folded == "subject" then Some(SubjectColumn)
    else if folded == "description" then Some(DescriptionColumn)
    else if folded == "status" then Some(StatusColumn)
    else if folded == "priority" then Some(PriorityColumn)
    else if folded == "created at" || folded == "created at (timestamp)" || folded == "created" then Some(CreatedColumn)
    else None
  }

  type Columns = map<Column, nat>

  /** The column each header cell names, if any. */
  function Names(f: Platform, header: seq<string>): (names: seq<Option<Column>>)
    ensures |names| == |header|
  {
    seq(|header|, i requires 0 <= i < |header| => Canonical(f.lower(Trim(header[i]))))
  }

  /** Every named column is found, at its first occurrence, and nothing else is. */
  ghost predicate Indexes(names: seq<Option<Column>>, n: nat, columns: Columns)
    requires n <= |names|
  {
    && (forall c :: c in columns ==> columns[c] < n && names[columns[c]] == Some(c) && Some(c) !in names[..columns[c]])
    && (forall j :: 0 <= j < n && names[j].Some? ==> names[j].value in columns)
  }

  function ColumnsOf(names: seq<Option<Column>>, n: nat): Columns
    requires n <= |names|
  {
    if n == 0 then map[]
    else
      var before := ColumnsOf(names, n - 1);
      if names[n - 1].Some? && names[n - 1].value !in before then before[names[n - 1].value := n - 1] else before
  }

  lemma {:induction false} ColumnsIndex(names: seq<Option<Column>>, n: nat)
    requires n <= |names|
    ensures Indexes(names, n, ColumnsOf(names, n))
    decreases n
  {
    if n > 0 { ColumnsIndex(names, n - 1); }
  }

  method IndexColumns(names: seq<Option<Column>>) returns (columns: Columns)
    ensures columns == ColumnsOf(names, |names|) && Indexes(names, |names|, columns)
  {
    columns := map[];
    for i := 0 to |names|
      invariant columns == ColumnsOf(names, i)
    {
      if names[i].Some? && names[i].value !in columns {
        columns := columns[names[i].value := i];
      }
    }
    ColumnsIndex(names, |names|);
  }

  // ------------------------------------------------------------------ one row

  function Cell(columns: Columns, row: seq<string>, column: Column): string {
    if column in columns && columns[column] < |row| then Trim(row[columns[column]]) else ""
  }

  predicate IdChar(c: char) { 'A' <= c <= 'Z' || 'a' <= c <= 'z' || '0' <= c <= '9' || c == '_' || c == '-' }

  predicate IdOk(id: string) { 1 <= |id| <= 64 && forall i :: 0 <= i < |id| ==> IdChar(id[i]) }

  function Slice(s: string, n: nat): string { if |s| <= n then s else s[..n] }

  function StatusOf(raw: string): Option<Status> {
    if raw == "" || raw == "new" || raw == "open" then Some(Open)
    else if raw == "pending" then Some(Pending)
    else if raw == "hold" || raw == "on_hold" || raw == "on-hold" then Some(OnHold)
    else if raw == "solved" then Some(Solved)
    else if raw == "closed" then Some(Closed)
    else if raw == "constructor" || raw == "__proto__" then Some(InheritedStatus)
    else None
  }

  function PriorityOf(raw: string): Option<Priority> {
    if raw == "" || raw == "normal" then Some(Normal)
    else if raw == "low" then Some(Low)
    else if raw == "high" then Some(High)
    else if raw == "urgent" then Some(Urgent)
    else if raw == "constructor" || raw == "__proto__" then Some(InheritedPriority)
    else None
  }

  /** The checks after the duplicate check, in order. */
  function MapRest(f: Platform, columns: Columns, row: seq<string>): Outcome<MappedRow> {
    var email := f.lower(Cell(columns, row, EmailColumn));
    var description := Cell(columns, row, DescriptionColumn);
    var subjectCell := Cell(columns, row, SubjectColumn);
    var subject := Slice(if subjectCell != "" then subjectCell else Slice(description, 80), 200);
    var rawStatus := f.lower(Cell(columns, row, StatusColumn));
    var rawPriority := f.lower(Cell(columns, row, PriorityColumn));
    var rawCreated := Cell(columns, row, CreatedColumn);
    var createdAt := if rawCreated != "" then f.date(rawCreated) else Some(f.now);
    var name := Slice(Cell(columns, row, NameColumn), 200);
    if !f.emailOk(email) then Bad(BadEmail)
    else if subject == "" then Bad(NoSubject)
    else if StatusOf(rawStatus).None? then Bad(UnknownStatus(rawStatus))
    else if PriorityOf(rawPriority).None? then Bad(UnknownPriority(rawPriority))
    else if createdAt.None? then Bad(BadDate(rawCreated))
    else Good(MappedRow(0, Cell(columns, row, IdColumn), email, if name == "" then None else Some(name), subject,
                        Slice(description, 20_000), StatusOf(rawStatus).value, PriorityOf(rawPriority).value,
                            createdAt.value))
  }

  // ------------------------------------------------------------------ what the loop should select

  /** The two readings of a row the loop makes: its id, and everything checked after the duplicate check. */
  datatype Checks = Checks(idOf: seq<string> -> string, rest: seq<string> -> Outcome<MappedRow>)

  function ChecksFor(f: Platform, columns: Columns): Checks {
    Checks(row => Cell(columns, row, IdColumn), row => MapRest(f, columns, row))
  }

  /** A row that passes every check but uniqueness. */
  predicate Valid(k: Checks, row: seq<string>) { IdOk(k.idOf(row)) && k.rest(row).Good? }

  predicate ValidBefore(k: Checks, body: Table, n: nat, id: string)
    requires n <= |body|
  {
    exists j :: 0 <= j < n && Valid(k, body[j]) && k.idOf(body[j]) == id
  }

  /** The first fully valid row with its id. */
  predicate IsFirst(k: Checks, body: Table, i: nat) {
    i < |body| && Valid(k, body[i]) && !ValidBefore(k, body, i, k.idOf(body[i]))
  }

  function MapRow(k: Checks, body: Table, i: nat): Outcome<MappedRow>
    requires i < |body|
  {
    var id := k.idOf(body[i]);
    if !IdOk(id) then Bad(BadId)
    else if ValidBefore(k, body, i, id) then Bad(DuplicateId(id))
    else match k.rest(body[i])
      case Good(row) => Good(row.(line := i + 2, externalId := id))
      case Bad(problem) => Bad(problem)
  }

  function AcceptedUpTo(k: Checks, body: Table, n: nat): seq<MappedRow>
    requires n <= |body|
  {
    if n == 0 then []
    else
      var o := MapRow(k, body, n - 1);
      AcceptedUpTo(k, body, n - 1) + if o.Good? then [o.value] else []
  }

  function ProblemsUpTo(k: Checks, body: Table, n: nat): seq<RowError>
    requires n <= |body|
  {
    if n == 0 then []
    else
      var o := MapRow(k, body, n - 1);
      ProblemsUpTo(k, body, n - 1) + if o.Bad? then [RowError(n + 1, o.problem)] else []
  }

  lemma {:induction false} Counts(k: Checks, body: Table, n: nat)
    requires n <= |body|
    ensures |AcceptedUpTo(k, body, n)| + |ProblemsUpTo(k, body, n)| == n
    decreases n
  {
    if n > 0 { Counts(k, body, n - 1); }
  }

  /** `m` is the mapping of the first valid row with its id, among the first `n` rows. */
  ghost predicate MapsFirst(k: Checks, body: Table, n: nat, m: MappedRow) {
    && 2 <= m.line < n + 2 && IsFirst(k, body, m.line - 2)
    && m == k.rest(body[m.line - 2]).value.(line := m.line, externalId := k.idOf(body[m.line - 2]))
  }

  ghost predicate HasLine(rows: seq<MappedRow>, line: int) { exists r :: 0 <= r < |rows| && rows[r].line == line }

  lemma MapRowMapsFirst(k: Checks, body: Table, i: nat)
    requires i < |body|
    ensures MapRow(k, body, i).Good? <==> IsFirst(k, body, i)
    ensures MapRow(k, body, i).Good?
            ==> MapsFirst(k, body, i + 1, MapRow(k, body, i).value) && MapRow(k, body, i).value.line == i + 2
  {
  }

  lemma {:induction false} AcceptedCover(k: Checks, body: Table, n: nat, i: nat)
    requires i < n <= |body| && IsFirst(k, body, i)
    ensures HasLine(AcceptedUpTo(k, body, n), i + 2)
    decreases n
  {
    MapRowMapsFirst(k, body, n - 1);
    var before, rows := AcceptedUpTo(k, body, n - 1), AcceptedUpTo(k, body, n);
    if i < n - 1 {
      AcceptedCover(k, body, n - 1, i);
      var r :| 0 <= r < |before| && before[r].line == i + 2;
      assert rows[r] == before[r];
    } else {
      assert rows[|rows| - 1].line == i + 2;
    }
  }

  /** Mappings of first valid rows, in file order. */
  ghost predicate MapFirsts(k: Checks, body: Table, n: nat, rows: seq<MappedRow>) {
    && (forall r :: 0 <= r < |rows| ==> MapsFirst(k, body, n, rows[r]))
    && (forall r, s :: 0 <= r < s < |rows| ==> rows[r].line < rows[s].line)
  }

  lemma MapFirstsGrow(k: Checks, body: Table, n: nat, rows: seq<MappedRow>, m: MappedRow)
    requires MapFirsts(k, body, n, rows) && MapsFirst(k, body, n + 1, m) && m.line == n + 2
    ensures MapFirsts(k, body, n + 1, rows) && MapFirsts(k, body, n + 1, rows + [m])
  {
    assert forall r :: 0 <= r < |rows| ==> MapsFirst(k, body, n, rows[r]) && rows[r].line < m.line;
  }

  lemma MapFirstsWiden(k: Checks, body: Table, n: nat, rows: seq<MappedRow>)
    requires MapFirsts(k, body, n, rows)
    ensures MapFirsts(k, body, n + 1, rows)
  {
    assert forall r :: 0 <= r < |rows| ==> MapsFirst(k, body, n, rows[r]);
  }

  /** Accepted rows are exactly the first valid rows of their ids, in file order. */
  lemma {:induction false} AcceptedAreFirsts(k: Checks, body: Table, n: nat)
    requires n <= |body|
    ensures MapFirsts(k, body, n, AcceptedUpTo(k, body, n))
    ensures forall i :: 0 <= i < n && IsFirst(k, body, i) ==> HasLine(AcceptedUpTo(k, body, n), i + 2)
    decreases n
  {
    forall i | 0 <= i < n && IsFirst(k, body, i) ensures HasLine(AcceptedUpTo(k, body, n), i + 2) {
      AcceptedCover(k, body, n, i);
    }
    if n > 0 {
      AcceptedAreFirsts(k, body, n - 1);
      MapRowMapsFirst(k, body, n - 1);
      var before, o := AcceptedUpTo(k, body, n - 1), MapRow(k, body, n - 1);
      if o.Good? {
        MapFirstsGrow(k, body, n - 1, before, o.value);
      } else {
        assert AcceptedUpTo(k, body, n) == before;
        MapFirstsWiden(k, body, n - 1, before);
      }
    }
  }

  predicate DistinctIds(rows: seq<MappedRow>) {
    forall r, s :: 0 <= r < s < |rows| ==> rows[r].externalId != rows[s].externalId
  }

  lemma FirstsAreDistinct(k: Checks, body: Table, n: nat, rows: seq<MappedRow>)
    requires n <= |body| && MapFirsts(k, body, n, rows)
    ensures DistinctIds(rows)
  {
    forall r, s | 0 <= r < s < |rows| ensures rows[r].externalId != rows[s].externalId {
      assert MapsFirst(k, body, n, rows[r]) && MapsFirst(k, body, n, rows[s]);
      assert Valid(k, body[rows[r].line - 2]);
    }
  }

  /** No id is accepted twice. */
  lemma AcceptedOnce(k: Checks, body: Table)
    ensures DistinctIds(AcceptedUpTo(k, body, |body|))
  {
    AcceptedAreFirsts(k, body, |body|);
    FirstsAreDistinct(k, body, |body|, AcceptedUpTo(k, body, |body|));
  }

  /** No id with a valid row is lost. */
  lemma ValidIdIsAccepted(k: Checks, body: Table, i: nat)
    requires i < |body| && Valid(k, body[i])
    ensures exists m :: m in AcceptedUpTo(k, body, |body|) && m.externalId == k.idOf(body[i])
  {
    AcceptedAreFirsts(k, body, |body|);
    var first := FirstWithId(k, body, i);
    LineHasId(k, body, AcceptedUpTo(k, body, |body|), first);
  }

  lemma LineHasId(k: Checks, body: Table, rows: seq<MappedRow>, first: nat)
    requires first < |body| && MapFirsts(k, body, |body|, rows) && HasLine(rows, first + 2)
    ensures exists m :: m in rows && m.externalId == k.idOf(body[first])
  {
    var r :| 0 <= r < |rows| && rows[r].line == first + 2;
    assert MapsFirst(k, body, |body|, rows[r]) && rows[r] in rows;
  }

  lemma {:induction false} FirstWithId(k: Checks, body: Table, i: nat) returns (first: nat)
    requires i < |body| && Valid(k, body[i])
    ensures IsFirst(k, body, first) && k.idOf(body[first]) == k.idOf(body[i])
    decreases i
  {
    first := i;
    if ValidBefore(k, body, i, k.idOf(body[i])) {
      var j :| 0 <= j < i && Valid(k, body[j]) && k.idOf(body[j]) == k.idOf(body[i]);
      first := FirstWithId(k, body, j);
    }
  }

  // ------------------------------------------------------------------ the loop and its guards

  function Reported(problems: seq<RowError>): seq<RowError> {
    if |problems| <= MAX_ERRORS_REPORTED then problems else problems[..MAX_ERRORS_REPORTED]
  }

  method MapBody(k: Checks, body: Table) returns (rows: seq<MappedRow>, errors: seq<RowError>, errorCount: nat)
    ensures rows == AcceptedUpTo(k, body, |body|)
    ensures errors == Reported(ProblemsUpTo(k, body, |body|)) && errorCount == |ProblemsUpTo(k, body, |body|)|
    ensures |rows| + errorCount == |body|
  {
    rows, errors, errorCount := [], [], 0;
    var seenIds: set<string> := {};
    for i := 0 to |body|
      invariant rows == AcceptedUpTo(k, body, i)
      invariant errorCount == |ProblemsUpTo(k, body, i)| && errors == Reported(ProblemsUpTo(k, body, i))
      invariant forall id :: id in seenIds <==> ValidBefore(k, body, i, id)
    {
      var externalId := k.idOf(body[i]);
      var problem: Option<Problem> := None;
      if !IdOk(externalId) { problem := Some(BadId); }
      else if externalId in seenIds { problem := Some(DuplicateId(externalId)); }
      else {
        var rest := k.rest(body[i]);
        if rest.Bad? { problem := Some(rest.problem); }
        else { rows := rows + [rest.value.(line := i + 2, externalId := externalId)]; }
      }
      if problem.None? {
        assert Valid(k, body[i]);
        seenIds := seenIds + {externalId};
      } else {
        errorCount := errorCount + 1;
        if |errors| < MAX_ERRORS_REPORTED { errors := errors + [RowError(i + 2, problem.value)]; }
      }
      forall id ensures id in seenIds <==> ValidBefore(k, body, i + 1, id) { SeenGrows(k, body, i, id); }
    }
    Counts(k, body, |body|);
  }

  lemma SeenGrows(k: Checks, body: Table, i: nat, id: string)
    requires i < |body|
    ensures ValidBefore(k, body, i + 1, id)
            <==> ValidBefore(k, body, i, id) || (Valid(k, body[i]) && k.idOf(body[i]) == id)
  {
  }

  datatype FileError = Unterminated | EmptyFile | MissingColumns(columns: seq<Column>) | TooManyRows(count: nat)

  datatype ParsedImport =
    | Refused(error: FileError, totalRows: nat)
    | Parsed(rows: seq<MappedRow>, errors: seq<RowError>, totalRows: nat, errorCount: nat)

  function MissingNames(columns: Columns): seq<Column> {
    (if IdColumn in columns then [] else [IdColumn]) + (if EmailColumn in columns then [] else [EmailColumn])
    + (if SubjectColumn in columns then [] else [SubjectColumn])
  }

  /** The whole file: its guards in order, then its body under the header's own columns. */
  function ParseImport(f: Platform, csv: string): ParsedImport {
    match Parse(csv)
    case Malformed => Refused(Unterminated, 0)
    case Ok(table) =>
      if table == [] then Refused(EmptyFile, 0)
      else
        var body, names := table[1..], Names(f, table[0]);
        var columns := ColumnsOf(names, |names|);
        if MissingNames(columns) != [] then Refused(MissingColumns(MissingNames(columns)), |body|)
        else if |body| > MAX_IMPORT_ROWS then Refused(TooManyRows(|body|), |body|)
        else
          var k := ChecksFor(f, columns);
          Parsed(AcceptedUpTo(k, body, |body|), Reported(ProblemsUpTo(k, body, |body|)), |body|,
              |ProblemsUpTo(k, body, |body|)|)
  }

  // ------------------------------------------------------------------ reading the same file later

  /** The same rows, except that rows without a date of their own may show another creation time. */
  ghost predicate SameButTimes(rows: seq<MappedRow>, rows': seq<MappedRow>) {
    |rows| == |rows'| && forall i :: 0 <= i < |rows| ==> rows'[i] == rows[i].(createdAt := rows'[i].createdAt)
  }

  predicate SameOutcome(o: Outcome<MappedRow>, o': Outcome<MappedRow>) {
    match o
    case Good(m) => o'.Good? && o'.value == m.(createdAt := o'.value.createdAt)
    case Bad(problem) => o' == Bad(problem)
  }

  lemma MapRestLater(f: Platform, later: int, columns: Columns, row: seq<string>)
    ensures SameOutcome(MapRest(f, columns, row), MapRest(f.(now := later), columns, row))
  {
  }

  lemma MapRowLater(f: Platform, later: int, columns: Columns, body: Table, i: nat)
    requires i < |body|
    ensures SameOutcome(MapRow(ChecksFor(f, columns), body, i), MapRow(ChecksFor(f.(now := later), columns), body, i))
  {
    var k, k' := ChecksFor(f, columns), ChecksFor(f.(now := later), columns);
    forall j | 0 <= j <= i ensures Valid(k, body[j]) == Valid(k', body[j]) && k.idOf(body[j]) == k'.idOf(body[j]) {
      MapRestLater(f, later, columns, body[j]);
    }
    MapRestLater(f, later, columns, body[i]);
    assert ValidBefore(k, body, i, k.idOf(body[i])) == ValidBefore(k', body, i, k'.idOf(body[i]));
  }

  lemma AcceptedLater(f: Platform, later: int, columns: Columns, body: Table)
    ensures var k, k' := ChecksFor(f, columns), ChecksFor(f.(now := later), columns);
            && SameButTimes(AcceptedUpTo(k, body, |body|), AcceptedUpTo(k', body, |body|))
            && ProblemsUpTo(k, body, |body|) == ProblemsUpTo(k', body, |body|)
  {
    var k, k' := ChecksFor(f, columns), ChecksFor(f.(now := later), columns);
    forall i | 0 <= i < |body| ensures SameOutcome(MapRow(k, body, i), MapRow(k', body, i)) {
      MapRowLater(f, later, columns, body, i);
    }
    SameOutcomesAccept(k, k', body, |body|);
  }

  lemma {:induction false} SameOutcomesAccept(k: Checks, k': Checks, body: Table, n: nat)
    requires n <= |body| && forall i :: 0 <= i < |body| ==> SameOutcome(MapRow(k, body, i), MapRow(k', body, i))
    ensures SameButTimes(AcceptedUpTo(k, body, n), AcceptedUpTo(k', body, n))
    ensures ProblemsUpTo(k, body, n) == ProblemsUpTo(k', body, n)
    decreases n
  {
    if n > 0 {
      SameOutcomesAccept(k, k', body, n - 1);
      AcceptedNext(k, k', body, n);
    }
  }

  lemma AcceptedNext(k: Checks, k': Checks, body: Table, n: nat)
    requires 0 < n <= |body| && SameOutcome(MapRow(k, body, n - 1), MapRow(k', body, n - 1))
    requires SameButTimes(AcceptedUpTo(k, body, n - 1), AcceptedUpTo(k', body, n - 1))
    requires ProblemsUpTo(k, body, n - 1) == ProblemsUpTo(k', body, n - 1)
    ensures SameButTimes(AcceptedUpTo(k, body, n), AcceptedUpTo(k', body, n))
            && ProblemsUpTo(k, body, n) == ProblemsUpTo(k', body, n)
  {
  }

  /** Reading the same file at another time accepts and rejects the same rows for the same reasons. */
  lemma ParseImportLater(f: Platform, later: int, csv: string)
    ensures var p, p' := ParseImport(f, csv), ParseImport(f.(now := later), csv);
            && (p.Refused? ==> p' == p)
            && (p.Parsed? ==> p'.Parsed? && p' == p.(rows := p'.rows) && SameButTimes(p.rows, p'.rows))
            && (p.Parsed? ==> DistinctIds(p.rows))
  {
    if Parse(csv).Ok? && Parse(csv).value != [] {
      var table := Parse(csv).value;
      var body, names := table[1..], Names(f, table[0]);
      assert names == Names(f.(now := later), table[0]);
      AcceptedLater(f, later, ColumnsOf(names, |names|), body);
      AcceptedOnce(ChecksFor(f, ColumnsOf(names, |names|)), body);
    }
  }

  method ParseZendeskCsv(f: Platform, csv: string) returns (r: ParsedImport)
    ensures r == ParseImport(f, csv)
    ensures r.Parsed? ==>
              && r.totalRows == |r.rows| + r.errorCount <= 5000
              && |r.errors| == (if r.errorCount < 100 then r.errorCount else 100)
              && DistinctIds(r.rows)
  {
    var table := ParseCsv(csv);
    if table.Malformed? { return Refused(Unterminated, 0); }
    if table.value == [] { return Refused(EmptyFile, 0); }
    var header, body := table.value[0], table.value[1..];
    var columns := IndexColumns(Names(f, header));
    var missing := MissingNames(columns);
    if missing != [] { return Refused(MissingColumns(missing), |body|); }
    if |body| > MAX_IMPORT_ROWS { return Refused(TooManyRows(|body|), |body|); }
    var k := ChecksFor(f, columns);
    var rows, errors, errorCount := MapBody(k, body);
    AcceptedOnce(k, body);
    return Parsed(rows, errors, |body|, errorCount);
  }
}
