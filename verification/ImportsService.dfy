/** Importing the mapped rows (apps/api/src/modules/imports/imports.service.ts). */
module ImportsService {
  import opened Options
  import opened JsText
  import opened Csv
  import opened ZendeskMapper

  datatype Ticket = Ticket(orgId: string, number: nat, subject: string, status: Status, priority: Priority,
                           requester: string,
                           tags: seq<string>, createdAt: int, resolvedAt: Option<int>, opening: Option<string>)

  /** All tickets, and each organization's next ticket number. */
  datatype Db = Db(tickets: seq<Ticket>, nextNumber: map<string, nat>)

  function ExternalTag(id: string): string { "zd-" + id }

  // ------------------------------------------------------------------ which rows are already there

  predicate Has(db: Db, orgId: string, id: string) {
    exists t :: t in db.tickets && t.orgId == orgId && ExternalTag(id) in t.tags
  }

  predicate Hit(t: Ticket, orgId: string, rows: seq<MappedRow>) {
    t.orgId == orgId && exists m :: m in rows && ExternalTag(m.externalId) in t.tags
  }

  /** The ids read off the tags of every ticket that carries a tag of this file. */
  method FindExistingExternalIds(db: Db, orgId: string, rows: seq<MappedRow>) returns (known: set<string>)
    ensures forall id :: id in known <==>
            exists t :: t in db.tickets && Hit(t, orgId, rows) && ExternalTag(id) in t.tags
    ensures forall m :: m in rows ==> (m.externalId in known <==> Has(db, orgId, m.externalId))
  {
    known := {};
    for i := 0 to |db.tickets|
      invariant forall id :: id in known <==>
              exists t :: t in db.tickets[..i] && Hit(t, orgId, rows) && ExternalTag(id) in t.tags
    {
      var t := db.tickets[i];
      assert db.tickets[..i + 1] == db.tickets[..i] + [t];
      if Hit(t, orgId, rows) {
        var ids := TagIds(t.tags);
        known := known + ids;
      }
    }
    assert db.tickets[..|db.tickets|] == db.tickets;
    forall m | m in rows ensures m.externalId in known <==> Has(db, orgId, m.externalId) {
      if Has(db, orgId, m.externalId) {
        var t :| t in db.tickets && t.orgId == orgId && ExternalTag(m.externalId) in t.tags;
        assert Hit(t, orgId, rows);
      }
    }
  }

  method TagIds(tags: seq<string>) returns (ids: set<string>)
    ensures forall id :: id in ids <==> ExternalTag(id) in tags
  {
    ids := {};
    for i := 0 to |tags|
      invariant forall id :: id in ids <==> ExternalTag(id) in tags[..i]
    {
      var tag := tags[i];
      assert tags[..i + 1] == tags[..i] + [tag];
      if |tag| >= 3 && tag[..3] == "zd-" {
        assert tag == ExternalTag(tag[3..]);
        forall id ensures ExternalTag(id) == tag <==> id == tag[3..] { assert ExternalTag(id)[3..] == id; }
        ids := ids + {tag[3..]};
      } else {
        forall id ensures ExternalTag(id) != tag { assert ExternalTag(id)[..3] == "zd-"; }
      }
    }
    assert tags[..|tags|] == tags;
  }

  function Filter(rows: seq<MappedRow>, keep: MappedRow -> bool): seq<MappedRow> {
    if rows == [] then [] else (if keep(rows[0]) then [rows[0]] else []) + Filter(rows[1..], keep)
  }

  function Missing(db: Db, orgId: string, rows: seq<MappedRow>): seq<MappedRow> {
    Filter(rows, (m: MappedRow) => !Has(db, orgId, m.externalId))
  }

  // ------------------------------------------------------------------ saving

  /** `faulty` are the ids whose save throws; a value no column accepts throws as well. */
  predicate Fails(db: Db, orgId: string, faulty: set<string>, m: MappedRow) {
    m.externalId in faulty || m.status.InheritedStatus? || m.priority.InheritedPriority? || orgId !in db.nextNumber
  }

  function TicketOf(db: Db, orgId: string, m: MappedRow): Ticket
    requires orgId in db.nextNumber
  {
    Ticket(orgId, db.nextNumber[orgId], m.subject, m.status, m.priority, m.requesterEmail,
        ["imported", ExternalTag(m.externalId)],
           m.createdAt, if m.status.Solved? || m.status.Closed? then Some(m.createdAt) else None,
           if m.description != "" then Some(m.description) else None)
  }

  /** One transaction: it takes the next number and creates the ticket, or does nothing. */
  function Save(db: Db, orgId: string, faulty: set<string>, m: MappedRow): Db {
    if Fails(db, orgId, faulty, m) then db
    else Db(db.tickets + [TicketOf(db, orgId, m)], db.nextNumber[orgId := db.nextNumber[orgId] + 1])
  }

  function SaveAll(db: Db, orgId: string, faulty: set<string>, rows: seq<MappedRow>): Db
    decreases |rows|
  {
    if rows == [] then db else SaveAll(Save(db, orgId, faulty, rows[0]), orgId, faulty, rows[1..])
  }

  function Import(db: Db, orgId: string, faulty: set<string>, rows: seq<MappedRow>): Db {
    SaveAll(db, orgId, faulty, Missing(db, orgId, rows))
  }

  // ------------------------------------------------------------------ importing again

  lemma TagOf(id: string, id': string)
    ensures ExternalTag(id) in ["imported", ExternalTag(id')] <==> id == id'
  {
    assert ExternalTag(id)[3..] == id && ExternalTag(id')[3..] == id';
    assert ExternalTag(id)[0] == 'z';
  }

  lemma SaveHas(db: Db, orgId: string, faulty: set<string>, m: MappedRow, id: string)
    ensures Has(Save(db, orgId, faulty, m), orgId, id)
            <==> Has(db, orgId, id) || (m.externalId == id && !Fails(db, orgId, faulty, m))
    ensures Save(db, orgId, faulty, m).nextNumber.Keys == db.nextNumber.Keys
  {
    var db' := Save(db, orgId, faulty, m);
    TagOf(id, m.externalId);
    if !Fails(db, orgId, faulty, m) {
      var t := TicketOf(db, orgId, m);
      assert t in db'.tickets && forall u :: u in db.tickets ==> u in db'.tickets;
    }
  }

  lemma {:induction false} SaveAllHas(db: Db, orgId: string, faulty: set<string>, rows: seq<MappedRow>, id: string)
    ensures var db' := SaveAll(db, orgId, faulty, rows);
            && (Has(db', orgId, id) <==>
                 Has(db, orgId, id) || exists m :: m in rows && m.externalId == id && !Fails(db, orgId, faulty, m))
            && db'.nextNumber.Keys == db.nextNumber.Keys
    decreases |rows|
  {
    if rows != [] {
      var db1 := Save(db, orgId, faulty, rows[0]);
      SaveHas(db, orgId, faulty, rows[0], id);
      SaveAllHas(db1, orgId, faulty, rows[1..], id);
      forall m ensures Fails(db1, orgId, faulty, m) == Fails(db, orgId, faulty, m) {}
      assert forall m :: m in rows <==> m == rows[0] || m in rows[1..];
    }
  }

  lemma {:induction false} FilterIn(rows: seq<MappedRow>, keep: MappedRow -> bool, m: MappedRow)
    ensures m in Filter(rows, keep) <==> m in rows && keep(m)
    decreases |rows|
  {
    if rows != [] { FilterIn(rows[1..], keep, m); }
  }

  lemma {:induction false} FilterTwice(rows: seq<MappedRow>, p: MappedRow -> bool, q: MappedRow -> bool,
                                       r: MappedRow -> bool)
    requires forall m :: m in rows ==> (r(m) <==> p(m) && q(m))
    ensures Filter(rows, r) == Filter(Filter(rows, p), q)
    decreases |rows|
  {
    if rows != [] {
      FilterTwice(rows[1..], p, q, r);
      assert rows[0] in rows;
      if p(rows[0]) {
        assert Filter(rows, p) == [rows[0]] + Filter(rows[1..], p) && Filter(rows, p)[1..] == Filter(rows[1..], p);
      }
      else { assert Filter(rows, p) == Filter(rows[1..], p); }
    }
  }

  /** Importing the same rows again finds missing exactly the rows whose save failed the first time, in order. */
  lemma ReimportFindsFailures(db: Db, orgId: string, faulty: set<string>, rows: seq<MappedRow>)
    requires DistinctIds(rows)
    ensures Missing(Import(db, orgId, faulty, rows), orgId, rows)
            == Filter(Missing(db, orgId, rows), (m: MappedRow) => Fails(db, orgId, faulty, m))
  {
    var db' := Import(db, orgId, faulty, rows);
    var gone := Missing(db, orgId, rows);
    var p := (m: MappedRow) => !Has(db, orgId, m.externalId);
    var q := (m: MappedRow) => Fails(db, orgId, faulty, m);
    var r := (m: MappedRow) => !Has(db', orgId, m.externalId);
    forall m | m in rows ensures r(m) <==> p(m) && q(m) {
      SaveAllHas(db, orgId, faulty, gone, m.externalId);
      forall m' | m' in rows && m'.externalId == m.externalId ensures m' == m {}
      FilterIn(rows, p, m);
      forall m' ensures m' in gone <==> m' in rows && p(m') { FilterIn(rows, p, m'); }
    }
    FilterTwice(rows, p, q, r);
  }

  lemma {:induction false} FilterNone(rows: seq<MappedRow>, keep: MappedRow -> bool)
    requires forall m :: m in rows ==> !keep(m)
    ensures Filter(rows, keep) == []
    decreases |rows|
  {
    if rows != [] { assert rows[0] in rows; FilterNone(rows[1..], keep); }
  }

  lemma {:induction false} FilterSame(rows: seq<MappedRow>, rows': seq<MappedRow>, keep: MappedRow -> bool)
    requires SameButTimes(rows, rows')
    requires forall m: MappedRow, at: int :: keep(m.(createdAt := at)) == keep(m)
    ensures SameButTimes(Filter(rows, keep), Filter(rows', keep))
    decreases |rows|
  {
    if rows != [] {
      assert rows'[0] == rows[0].(createdAt := rows'[0].createdAt);
      FilterSame(rows[1..], rows'[1..], keep);
    }
  }

  function RowsOf(p: ParsedImport): seq<MappedRow> { if p.Parsed? then p.rows else [] }

  /** Importing the same file again, at any later time, finds missing exactly the rows whose save failed the first time,
      in order; only creation times the file does not give may differ. */
  lemma ReimportOfFile(db: Db, orgId: string, f: Platform, csv: string, faulty: set<string>, later: int)
    ensures var rows, rows' := RowsOf(ParseImport(f, csv)), RowsOf(ParseImport(f.(now := later), csv));
            SameButTimes(Filter(Missing(db, orgId, rows), (m: MappedRow) => Fails(db, orgId, faulty, m)),
                         Missing(Import(db, orgId, faulty, rows), orgId, rows'))
  {
    var rows, rows' := RowsOf(ParseImport(f, csv)), RowsOf(ParseImport(f.(now := later), csv));
    ParseImportLater(f, later, csv);
    ReimportFindsFailures(db, orgId, faulty, rows);
    var db' := Import(db, orgId, faulty, rows);
    FilterSame(rows, rows', (m: MappedRow) => !Has(db', orgId, m.externalId));
  }

  /** After an import without failures, importing the same file again at any later time changes nothing. */
  lemma ReimportIsIdle(db: Db, orgId: string, f: Platform, csv: string, faulty: set<string>, later: int,
                       faulty': set<string>)
    requires forall m :: m in RowsOf(ParseImport(f, csv)) ==> !Fails(db, orgId, faulty, m)
    ensures var db' := Import(db, orgId, faulty, RowsOf(ParseImport(f, csv)));
            Import(db', orgId, faulty', RowsOf(ParseImport(f.(now := later), csv))) == db'
  {
    var rows := RowsOf(ParseImport(f, csv));
    ReimportOfFile(db, orgId, f, csv, faulty, later);
    var q := (m: MappedRow) => Fails(db, orgId, faulty, m);
    forall m | m in Missing(db, orgId, rows) ensures !q(m) {
      FilterIn(rows, (m: MappedRow) => !Has(db, orgId, m.externalId), m);
    }
    FilterNone(Missing(db, orgId, rows), q);
  }

  // ------------------------------------------------------------------ what every import keeps

  /** Within the organization no two tickets share an imported id or a number, and numbers stay below the next one. */
  ghost predicate Tidy(db: Db, orgId: string) {
    && orgId in db.nextNumber
    && (forall i :: 0 <= i < |db.tickets| && db.tickets[i].orgId == orgId
         ==> db.tickets[i].number < db.nextNumber[orgId])
    && (forall i, j :: 0 <= i < j < |db.tickets| && db.tickets[i].orgId == orgId && db.tickets[j].orgId == orgId ==>
          db.tickets[i].number != db.tickets[j].number && !ShareId(db.tickets[i], db.tickets[j]))
  }

  ghost predicate ShareId(t: Ticket, u: Ticket) {
    exists id :: ExternalTag(id) in t.tags && ExternalTag(id) in u.tags
  }

  lemma SaveKeepsTidy(db: Db, orgId: string, faulty: set<string>, m: MappedRow)
    requires Tidy(db, orgId) && !Has(db, orgId, m.externalId)
    ensures Tidy(Save(db, orgId, faulty, m), orgId)
  {
    if !Fails(db, orgId, faulty, m) {
      var t := TicketOf(db, orgId, m);
      forall i | 0 <= i < |db.tickets| && db.tickets[i].orgId == orgId ensures !ShareId(db.tickets[i], t) {
        assert db.tickets[i] in db.tickets;
        forall id | ExternalTag(id) in t.tags ensures ExternalTag(id) !in db.tickets[i].tags {
          TagOf(id, m.externalId);
        }
      }
    }
  }

  lemma {:induction false} SaveAllKeepsTidy(db: Db, orgId: string, faulty: set<string>, rows: seq<MappedRow>)
    requires Tidy(db, orgId) && DistinctIds(rows) && forall m :: m in rows ==> !Has(db, orgId, m.externalId)
    ensures Tidy(SaveAll(db, orgId, faulty, rows), orgId)
    decreases |rows|
  {
    if rows != [] {
      SaveKeepsTidy(db, orgId, faulty, rows[0]);
      var db1 := Save(db, orgId, faulty, rows[0]);
      forall m | m in rows[1..] ensures !Has(db1, orgId, m.externalId) {
        SaveHas(db, orgId, faulty, rows[0], m.externalId);
      }
      SaveAllKeepsTidy(db1, orgId, faulty, rows[1..]);
    }
  }

  lemma {:induction false} FilterDistinct(rows: seq<MappedRow>, keep: MappedRow -> bool)
    requires DistinctIds(rows)
    ensures DistinctIds(Filter(rows, keep))
    decreases |rows|
  {
    if rows != [] {
      FilterDistinct(rows[1..], keep);
      forall m | m in Filter(rows[1..], keep) ensures m.externalId != rows[0].externalId {
        FilterIn(rows[1..], keep, m);
      }
    }
  }

  /** Imports never create a second ticket for an id, nor reuse a number, whatever fails. */
  lemma ImportKeepsTidy(db: Db, orgId: string, faulty: set<string>, rows: seq<MappedRow>)
    requires Tidy(db, orgId) && DistinctIds(rows)
    ensures Tidy(Import(db, orgId, faulty, rows), orgId)
  {
    var p := (m: MappedRow) => !Has(db, orgId, m.externalId);
    FilterDistinct(rows, p);
    forall m | m in Missing(db, orgId, rows) ensures !Has(db, orgId, m.externalId) { FilterIn(rows, p, m); }
    SaveAllKeepsTidy(db, orgId, faulty, Missing(db, orgId, rows));
  }

  /** Values every column accepts; the two lookup tables can answer others. */
  predicate Storable(t: Ticket) {
    t.status in {Open, Pending, OnHold, Solved, Closed} && t.priority in {Low, Normal, High, Urgent}
  }

  /** A row whose status or priority no column accepts is never saved, and no import stores such a value. */
  lemma {:induction false} OnlyStorableIsSaved(db: Db, orgId: string, faulty: set<string>, rows: seq<MappedRow>)
    requires forall t :: t in db.tickets ==> Storable(t)
    ensures forall t :: t in SaveAll(db, orgId, faulty, rows).tickets ==> Storable(t)
    decreases |rows|
  {
    if rows != [] { OnlyStorableIsSaved(Save(db, orgId, faulty, rows[0]), orgId, faulty, rows[1..]); }
  }

  // ------------------------------------------------------------------ the service

  datatype Summary = Summary(dryRun: bool, totalRows: nat, valid: nat, duplicates: nat, invalid: nat, toCreate: nat,
                             created: nat, failed: nat, errors: nat)

  datatype ImportResult = EmptyBody | AlreadyRunning | Done(summary: Summary)

  function Invalid(p: ParsedImport): nat { if p.Parsed? then p.errorCount else 1 }

  function ErrorsOf(p: ParsedImport): nat { if p.Parsed? then |p.errors| else 1 }

  class ImportStore {
    var db: Db
    var importsInFlight: set<string>

    constructor (db: Db)
      ensures this.db == db && importsInFlight == {}
    {
      this.db, importsInFlight := db, {};
    }

    method ImportRows(orgId: string, faulty: set<string>, rows: seq<MappedRow>, reported: nat)
        returns (created: nat, failed: nat, errors: nat)
      modifies this`db
      ensures db == SaveAll(old(db), orgId, faulty, rows)
      ensures created + failed == |rows| && failed == |Filter(rows, (m: MappedRow) => Fails(old(db), orgId, faulty, m))|
      ensures |db.tickets| == |old(db).tickets| + created
      ensures errors == if failed == 0 then reported else if reported >= 100 then reported
              else if reported + failed <= 100 then reported + failed else 100
    {
      created, failed, errors := 0, 0, reported;
      var i := 0;
      while i < |rows|
        invariant 0 <= i <= |rows| && created + failed == i
        invariant SaveAll(db, orgId, faulty, rows[i..]) == SaveAll(old(db), orgId, faulty, rows)
        invariant db.nextNumber.Keys == old(db).nextNumber.Keys && |db.tickets| == |old(db).tickets| + created
        invariant failed + |Filter(rows[i..], (m: MappedRow) => Fails(old(db), orgId, faulty, m))|
                == |Filter(rows, (m: MappedRow) => Fails(old(db), orgId, faulty, m))|
        invariant errors == if failed == 0 then reported else if reported >= 100 then reported
                else if reported + failed <= 100 then reported + failed else 100
      {
        assert rows[i..][1..] == rows[i + 1..];
        if Fails(db, orgId, faulty, rows[i]) {
          failed := failed + 1;
          if errors < 100 { errors := errors + 1; }
        } else {
          db := Save(db, orgId, faulty, rows[i]);
          created := created + 1;
        }
        i := i + 1;
      }
      assert rows[i..] == [];
    }

    /** `faulty` are the ids whose save the database will refuse. */
    method ImportTickets(f: Platform, orgId: string, csv: string, dryRun: bool, faulty: set<string>)
        returns (r: ImportResult)
      modifies this
      ensures importsInFlight == old(importsInFlight)
      ensures r.EmptyBody? <==> Trim(csv) == ""
      ensures r.AlreadyRunning? <==> Trim(csv) != "" && orgId in old(importsInFlight)
      ensures !r.Done? || dryRun ==> db == old(db)
      ensures r.Done? && !dryRun ==> db == Import(old(db), orgId, faulty, RowsOf(ParseImport(f, csv)))
      ensures r.Done? ==>
                var s, p := r.summary, ParseImport(f, csv);
                && s.valid == |RowsOf(p)| && s.invalid == Invalid(p) && s.totalRows == p.totalRows && s.dryRun == dryRun
                && s.toCreate == s.valid - s.duplicates == |Missing(old(db), orgId, RowsOf(p))|
                && (!dryRun ==> s.created + s.failed == s.toCreate && |db.tickets| == |old(db).tickets| + s.created)
                && (dryRun ==> s.created == s.failed == 0)
                && s.errors <= 100
    {
      if Trim(csv) == "" { return EmptyBody; }
      if orgId in importsInFlight { return AlreadyRunning; }
      importsInFlight := importsInFlight + {orgId};
      var parsed := ParseZendeskCsv(f, csv);
      var rows := RowsOf(parsed);
      var known := FindExistingExternalIds(db, orgId, rows);
      var missing := Filter(rows, (m: MappedRow) => m.externalId !in known);
      MissingIsUnknown(db, orgId, rows, known);
      var s := Summary(dryRun, parsed.totalRows, |rows|, |rows| - |missing|, Invalid(parsed), |missing|, 0, 0,
          ErrorsOf(parsed));
      if !dryRun {
        var created, failed, errors := ImportRows(orgId, faulty, missing, ErrorsOf(parsed));
        s := s.(created := created, failed := failed, errors := errors);
      }
      importsInFlight := importsInFlight - {orgId};
      return Done(s);
    }
  }

  /** Dropping the rows that are known keeps the missing ones. */
  lemma {:induction false} MissingIsUnknown(db: Db, orgId: string, rows: seq<MappedRow>, known: set<string>)
    requires forall m :: m in rows ==> (m.externalId in known <==> Has(db, orgId, m.externalId))
    ensures Filter(rows, (m: MappedRow) => m.externalId !in known) == Missing(db, orgId, rows)
    ensures |Missing(db, orgId, rows)| <= |rows|
    decreases |rows|
  {
    if rows != [] { assert rows[0] in rows; MissingIsUnknown(db, orgId, rows[1..], known); }
  }
}
