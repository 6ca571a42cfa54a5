/** The delivery table and the worker's sweep over one polled batch. */
module WebhookWorker {
  import opened WebhookQueue

  const CONCURRENCY := 5

  /** One polled row with its endpoint's flag, what the endpoint will answer, and when claim and record reach the
      row. */
  datatype Due = Due(id: string, seen: Row, endpointActive: bool, isTest: bool, answer: Outcome, claimedAt: int,
                     recordedAt: int)

  predicate DistinctIds(due: seq<Due>) {
    forall i, j :: 0 <= i < j < |due| ==> due[i].id != due[j].id
  }

  /** What one sweep makes of a row it polled, if nobody else writes to it meanwhile. */
  function Handled(row: Row, d: Due): Row {
    var c := Claimed(row, d.seen, d.claimedAt);
    if c.1 then Recorded(c.0, d.seen, d.endpointActive, d.isTest, d.answer, d.recordedAt) else row
  }

  /** Whether handling it switches the delivery's endpoint off: its claim wins and the endpoint says it is gone. */
  predicate SwitchesOff(row: Row, d: Due) {
    Claimed(row, d.seen, d.claimedAt).1 && d.endpointActive && d.answer == Responded(410)
  }

  predicate SwitchedOff(due: seq<Due>, n: nat, rows: map<string, Row>, id: string)
    requires n <= |due|
  {
    exists i :: 0 <= i < n && due[i].id == id && id in rows && SwitchesOff(rows[id], due[i])
  }

  // ------------------------------------------------------------------ the order inside a chunk

  /** The two statements of the `i`-th delivery of a batch. */
  datatype Part = ClaimPart(i: nat) | RecordPart(i: nat)

  predicate Inside(due: seq<Due>, rows: map<string, Row>, parts: seq<Part>) {
    && (forall i :: 0 <= i < |due| ==> due[i].id in rows)
    && (forall k :: 0 <= k < |parts| ==> parts[k].i < |due|)
  }

  /** One delivery on its own: its row, and whether its claim won. */
  function DoOne(d: Due, row: Row, won: bool, part: Part): (Row, bool) {
    match part
    case ClaimPart(_) => var c := Claimed(row, d.seen, d.claimedAt); (c.0, c.1)
    case RecordPart(_) => (if won then Recorded(row, d.seen, d.endpointActive, d.isTest, d.answer, d.recordedAt)
        else row, won)
  }

  function DoOneAll(d: Due, row: Row, won: bool, parts: seq<Part>): (Row, bool)
    decreases |parts|
  {
    if parts == [] then (row, won) else var r := DoOne(d, row, won, parts[0]); DoOneAll(d, r.0, r.1, parts[1..])
  }

  /** All deliveries of a batch, their statements mixed; `won` holds the deliveries whose claims won. */
  function DoAll(due: seq<Due>, rows: map<string, Row>, won: set<nat>, parts: seq<Part>): map<string, Row>
    requires Inside(due, rows, parts)
    decreases |parts|
  {
    if parts == [] then rows
    else
      var i := parts[0].i;
      var r := DoOne(due[i], rows[due[i].id], i in won, parts[0]);
      DoAll(due, rows[due[i].id := r.0], if r.1 then won + {i} else won - {i}, parts[1..])
  }

  function PartsOf(parts: seq<Part>, i: nat): seq<Part> {
    if parts == [] then [] else (if parts[0].i == i then [parts[0]] else []) + PartsOf(parts[1..], i)
  }

  lemma {:induction false} OnlyOwnPartsCount(due: seq<Due>, rows: map<string, Row>, won: set<nat>, parts: seq<Part>,
      i: nat)
    requires Inside(due, rows, parts) && DistinctIds(due) && i < |due|
    ensures due[i].id in DoAll(due, rows, won, parts)
    ensures DoAll(due, rows, won, parts)[due[i].id] == DoOneAll(due[i], rows[due[i].id], i in won, PartsOf(parts, i)).0
    decreases |parts|
  {
    if parts != [] {
      var j := parts[0].i;
      var r := DoOne(due[j], rows[due[j].id], j in won, parts[0]);
      assert j != i ==> due[j].id != due[i].id;
      OnlyOwnPartsCount(due, rows[due[j].id := r.0], if r.1 then won + {j} else won - {j}, parts[1..], i);
      if j == i {
        assert PartsOf(parts, i) == [parts[0]] + PartsOf(parts[1..], i)
            && PartsOf(parts, i)[1..] == PartsOf(parts[1..], i);
      } else {
        assert PartsOf(parts, i) == PartsOf(parts[1..], i);
      }
    }
  }

  lemma {:induction false} OtherRowsStay(due: seq<Due>, rows: map<string, Row>, won: set<nat>, parts: seq<Part>)
    requires Inside(due, rows, parts)
    ensures DoAll(due, rows, won, parts).Keys == rows.Keys
    ensures forall id :: id in rows && (forall i :: 0 <= i < |due| ==> due[i].id != id) ==>
            DoAll(due, rows, won, parts)[id] == rows[id]
    decreases |parts|
  {
    if parts != [] {
      var j := parts[0].i;
      var r := DoOne(due[j], rows[due[j].id], j in won, parts[0]);
      OtherRowsStay(due, rows[due[j].id := r.0], if r.1 then won + {j} else won - {j}, parts[1..]);
    }
  }

  /** However the claims and records of a batch are mixed, each row ends as if its delivery had been handled alone, and
      every other row is left alone. */
  lemma OrderDoesNotMatter(due: seq<Due>, rows: map<string, Row>, parts: seq<Part>)
    requires Inside(due, rows, parts) && DistinctIds(due)
    requires forall i: nat :: i < |due| ==> PartsOf(parts, i) == [ClaimPart(i), RecordPart(i)]
    ensures var after := DoAll(due, rows, {}, parts);
            && after.Keys == rows.Keys
            && (forall i :: 0 <= i < |due|
                 ==> due[i].id in after && after[due[i].id] == Handled(rows[due[i].id], due[i]))
            && (forall id :: id in rows && (forall i :: 0 <= i < |due| ==> due[i].id != id) ==> after[id] == rows[id])
  {
    OtherRowsStay(due, rows, {}, parts);
    forall i | 0 <= i < |due| ensures DoAll(due, rows, {}, parts)[due[i].id] == Handled(rows[due[i].id], due[i]) {
      OnlyOwnPartsCount(due, rows, {}, parts, i);
      ClaimThenRecord(due[i], rows[due[i].id], i);
    }
  }

  lemma ClaimThenRecord(d: Due, row: Row, i: nat)
    ensures DoOneAll(d, row, false, [ClaimPart(i), RecordPart(i)]).0 == Handled(row, d)
  {
    var parts := [ClaimPart(i), RecordPart(i)];
    assert parts[1..] == [RecordPart(i)] && [RecordPart(i)][1..] == [];
    var c := Claimed(row, d.seen, d.claimedAt);
    assert DoOneAll(d, row, false, parts) == DoOneAll(d, c.0, c.1, [RecordPart(i)]);
    var r := DoOne(d, c.0, c.1, RecordPart(i));
    assert DoOneAll(d, c.0, c.1, [RecordPart(i)]) == DoOneAll(d, r.0, r.1, []);
  }

  // ------------------------------------------------------------------ the table

  class DeliveryTable {
    var rows: map<string, Row>
    /** Deliveries whose endpoint was switched off by this table's attempts. */
    var disabled: set<string>

    constructor (rows: map<string, Row>)
      ensures this.rows == rows && disabled == {}
    {
      this.rows, disabled := rows, {};
    }

    /** The conditional update: reports whether exactly one row matched. */
    method Claim(id: string, seen: Row, now: int) returns (won: bool)
      requires id in rows
      modifies this`rows
      ensures rows == old(rows)[id := Claimed(old(rows)[id], seen, now).0]
      ensures won == Claimed(old(rows)[id], seen, now).1
      ensures won <==> old(rows)[id] == Row(Pending, seen.attempts, seen.nextAttemptAt)
      ensures won ==> rows[id] == Row(Pending, seen.attempts, now + 120_000)
    {
      var row := rows[id];
      won := row.status.Pending? && row.attempts == seen.attempts && row.nextAttemptAt == seen.nextAttemptAt;
      if won { rows := rows[id := row.(nextAttemptAt := now + LEASE_MS)]; }
      else { assert rows == rows[id := row]; }
    }

    /** One attempt and its record; never fails. `Failed` stands for every exception on the way to an answer.
        An empty `error` reads as none. */
    method AttemptDelivery(d: Due, now: int)
      requires d.id in rows
      modifies this
      ensures rows == old(rows)[d.id := Recorded(old(rows)[d.id], d.seen, d.endpointActive, d.isTest, d.answer, now)]
      ensures disabled == old(disabled) + if d.endpointActive && d.answer == Responded(410) then {d.id} else {}
    {
      var row, attemptNumber := rows[d.id], d.seen.attempts + 1;
      if !d.endpointActive {
        rows := rows[d.id := row.(status := Dead, attempts := attemptNumber)];
        return;
      }
      var statusCode, error: string := 0, "";
      match d.answer {
        case Responded(code) =>
          statusCode := code;
          if code < 200 || code >= 300 { error := "Endpoint responded with an HTTP error"; }
        case Failed(message) =>
          error := message;
      }
      if error == "" {
        rows := rows[d.id := row.(status := Delivered, attempts := attemptNumber)];
        return;
      }
      if statusCode == 410 {
        rows := rows[d.id := row.(status := Dead, attempts := attemptNumber)];
        disabled := disabled + {d.id};
        return;
      }
      var exhausted := attemptNumber >= MAX_DELIVERY_ATTEMPTS || d.isTest;
      rows := rows[d.id := Row(if exhausted then Dead else Pending, attemptNumber,
                               if exhausted then d.seen.nextAttemptAt else now + BackoffSeconds(attemptNumber) * 1000)];
    }

    /** Claims one polled row and, if that wins, attempts it. */
    method HandleDelivery(d: Due)
      requires d.id in rows
      modifies this
      ensures rows == old(rows)[d.id := Handled(old(rows)[d.id], d)]
      ensures disabled == old(disabled) + if SwitchesOff(old(rows)[d.id], d) then {d.id} else {}
    {
      var claimed := Claim(d.id, d.seen, d.claimedAt);
      if claimed { AttemptDelivery(d, d.recordedAt); }
    }

    /** The sweep over a batch, in chunks of five. Every polled row is handled once, every other row is left alone, and
        the endpoints that say they are gone are switched off. The deliveries of a chunk follow each other here;
        `OrderDoesNotMatter` says that mixing them ends in the same rows. */
    method ProcessDueDeliveries(due: seq<Due>)
      requires DistinctIds(due) && forall i :: 0 <= i < |due| ==> due[i].id in rows
      modifies this
      ensures rows.Keys == old(rows).Keys
      ensures forall i :: 0 <= i < |due| ==> rows[due[i].id] == Handled(old(rows)[due[i].id], due[i])
      ensures forall id :: id in old(rows) && (forall i :: 0 <= i < |due| ==> due[i].id != id) ==>
              rows[id] == old(rows)[id]
      ensures forall id :: id in disabled <==> id in old(disabled) || SwitchedOff(due, |due|, old(rows), id)
    {
      var done := 0;
      while done < |due|
        invariant 0 <= done <= |due|
        invariant Swept(due, done, old(rows), rows) && Disabled(due, done, old(rows), old(disabled), disabled)
      {
        var end := if done + CONCURRENCY < |due| then done + CONCURRENCY else |due|;
        while done < end
          invariant 0 <= done <= end <= |due|
          invariant Swept(due, done, old(rows), rows) && Disabled(due, done, old(rows), old(disabled), disabled)
        {
          SweptNext(due, done, old(rows), rows);
          DisabledNext(due, done, old(rows), old(disabled), disabled);
          HandleDelivery(due[done]);
          done := done + 1;
        }
      }
    }
  }

  /** The rows after the first `n` deliveries of a batch. */
  ghost predicate Swept(due: seq<Due>, n: nat, before: map<string, Row>, rows: map<string, Row>)
    requires n <= |due|
  {
    && rows.Keys == before.Keys
    && (forall i :: 0 <= i < |due| ==> due[i].id in before)
    && (forall i :: 0 <= i < n ==> rows[due[i].id] == Handled(before[due[i].id], due[i]))
    && (forall id :: id in before && (forall i :: 0 <= i < n ==> due[i].id != id) ==> rows[id] == before[id])
  }

  ghost predicate Disabled(due: seq<Due>, n: nat, before: map<string, Row>, disabledBefore: set<string>,
                           disabled: set<string>)
    requires n <= |due|
  {
    forall id :: id in disabled <==> id in disabledBefore || SwitchedOff(due, n, before, id)
  }

  lemma SweptNext(due: seq<Due>, n: nat, before: map<string, Row>, rows: map<string, Row>)
    requires n < |due| && DistinctIds(due) && Swept(due, n, before, rows)
    ensures rows[due[n].id] == before[due[n].id]
    ensures Swept(due, n + 1, before, rows[due[n].id := Handled(rows[due[n].id], due[n])])
  {
    assert forall i :: 0 <= i < n ==> due[i].id != due[n].id;
  }

  lemma DisabledNext(due: seq<Due>, n: nat, before: map<string, Row>, disabledBefore: set<string>,
                     disabled: set<string>)
    requires n < |due| && due[n].id in before && Disabled(due, n, before, disabledBefore, disabled)
    ensures Disabled(due, n + 1, before, disabledBefore,
                     disabled + if SwitchesOff(before[due[n].id], due[n]) then {due[n].id} else {})
  {
    forall id
      ensures SwitchedOff(due, n + 1, before, id)
              <==> SwitchedOff(due, n, before, id) || (id == due[n].id && SwitchesOff(before[id], due[n]))
    {
    }
  }

  /** A row polled and swept at once by a lone worker is always attempted: it never stays pending with the same
      stamp. */
  lemma SweepAttempts(d: Due)
    requires d.seen.status.Pending?
    ensures var row := Handled(d.seen, d);
            && row.attempts == d.seen.attempts + 1
            && (row.status.Delivered? <==> d.endpointActive && Success(d.answer))
            && (row.status.Pending? <==>
                 d.endpointActive && !d.isTest && !Success(d.answer) && !Gone(d.answer)
                     && d.seen.attempts + 1 < MAX_DELIVERY_ATTEMPTS)
  {
  }
}
