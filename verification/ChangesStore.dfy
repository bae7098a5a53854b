/**
 * The store of Changes records: one compare-and-swap register per Run, kept in
 * process memory or in PostgreSQL rows.
 *
 * Encoding a record and decoding it gives it back, so the memory store keeps
 * the record itself beside the length its encoding has.
 */
module ChangesStore {
  import opened Basics

  const MAX_RECORDS: nat := 1024
  const MAX_BYTES: nat := 0x800_0000
  const MAX_ENCODED: nat := 2 * 0x180_0000

  type Id = nat

  /** `valid` is what the snapshot's own validation says of it. */
  datatype Snapshot = Snapshot(available: bool, content: nat, valid: bool)

  const UNAVAILABLE := Snapshot(false, 0, true)

  datatype Record = Record(
    revision: nat,
    environmentUid: nat,
    baseline: Snapshot,
    current: Snapshot,
    capturedAt: nat,
    final: bool,
    unavailable: bool)

  /** What loading an absent record yields. */
  const NO_RECORD := Record(0, 0, Snapshot(false, 0, false), Snapshot(false, 0, false), 0, false, false)

  /** `Invalid` is a record that does not encode: an invalid snapshot, or too many bytes. */
  datatype SaveResult = Saved | Conflict | Capacity | Invalid

  // ---------------------------------------------------------------------
  // The register
  // ---------------------------------------------------------------------

  function Loaded(records: map<Id, Record>, id: Id): Record {
    if id in records then records[id] else NO_RECORD
  }

  predicate Accepts(records: map<Id, Record>, id: Id, expected: nat, r: Record) {
    Loaded(records, id).revision == expected && !Loaded(records, id).final && r.revision == expected + 1
  }

  predicate Encodable(r: Record, size: Record -> nat) {
    r.baseline.valid && r.current.valid && size(r) <= MAX_ENCODED
  }

  /** What a register does with a save; a store may instead refuse for lack of room. */
  function SaveTo(records: map<Id, Record>, id: Id, expected: nat, r: Record): (map<Id, Record>, SaveResult) {
    if Accepts(records, id, expected, r) then (records[id := r], Saved) else (records, Conflict)
  }

  /** Every stored record has been saved at least once. */
  ghost predicate Started(records: map<Id, Record>) {
    forall id :: id in records ==> records[id].revision >= 1
  }

  /** A save raises the revision by one, never replaces a final record, and touches no other Run. */
  lemma SaveToMeaning(records: map<Id, Record>, id: Id, expected: nat, r: Record, other: Id)
    requires Started(records)
    ensures var (after, result) := SaveTo(records, id, expected, r);
      && Started(after)
      && (result == Saved ==> Loaded(after, id) == r && r.revision == Loaded(records, id).revision + 1)
      && (other in records && records[other].final ==> Loaded(after, other) == records[other])
      && (other != id ==> Loaded(after, other) == Loaded(records, other))
  {
  }

  // ---------------------------------------------------------------------
  // Byte accounting
  // ---------------------------------------------------------------------

  ghost function Total(records: map<Id, Record>, size: Record -> nat): nat
    decreases |records|
  {
    if records == map[] then 0
    else
      var id :| id in records;
      size(records[id]) + Total(records - {id}, size)
  }

  lemma Smaller(records: map<Id, Record>, id: Id)
    requires id in records
    ensures |records - {id}| == |records| - 1
  {
    assert (records - {id}).Keys == records.Keys - {id};
    assert |records.Keys| == |records| && |(records - {id}).Keys| == |records - {id}|;
  }

  /** The total does not depend on the order records are counted in. */
  lemma {:induction false} TotalWithout(records: map<Id, Record>, size: Record -> nat, id: Id)
    requires id in records
    ensures Total(records, size) == size(records[id]) + Total(records - {id}, size)
    decreases |records|
  {
    var first :| first in records && Total(records, size) == size(records[first]) + Total(records - {first}, size);
    if first != id {
      Smaller(records, first);
      Smaller(records, id);
      TotalWithout(records - {first}, size, id);
      TotalWithout(records - {id}, size, first);
      assert records - {first} - {id} == records - {id} - {first};
    }
  }

  lemma TotalUpdate(records: map<Id, Record>, size: Record -> nat, id: Id, r: Record)
    ensures Total(records[id := r], size)
      == Total(records, size) + size(r) - if id in records then size(records[id]) else 0
  {
    TotalWithout(records[id := r], size, id);
    assert records[id := r] - {id} == records - {id};
    if id in records {
      TotalWithout(records, size, id);
    } else {
      assert records - {id} == records;
    }
  }

  lemma CountUpdate(records: map<Id, Record>, id: Id, r: Record)
    ensures |records[id := r]| == |records| + if id in records then 0 else 1
  {
    assert records[id := r].Keys == records.Keys + {id};
    assert |records[id := r]| == |records[id := r].Keys| && |records| == |records.Keys|;
  }

  // ---------------------------------------------------------------------
  // The memory store
  // ---------------------------------------------------------------------

  class MemoryChangesStore {
    const size: Record -> nat
    var records: map<Id, Record>
    var bytes: int

    ghost predicate Valid()
      reads this
    {
      && bytes == Total(records, size) <= MAX_BYTES
      && |records| <= MAX_RECORDS
      && Started(records)
      && forall id :: id in records ==> Encodable(records[id], size)
    }

    constructor (encodedSize: Record -> nat)
      ensures Valid() && size == encodedSize && records == map[]
    {
      size := encodedSize;
      records := map[];
      bytes := 0;
    }

    method Load(id: Id) returns (r: Record)
      ensures r == Loaded(records, id)
    {
      r := if id in records then records[id] else NO_RECORD;
    }

    method Save(id: Id, expected: nat, r: Record) returns (result: SaveResult)
      requires Valid()
      modifies this
      ensures Valid()
      ensures result == Invalid <==> !(r.baseline.valid && r.current.valid && size(r) <= MAX_ENCODED)
      ensures result == Saved || result == Conflict ==> (records, result) == SaveTo(old(records), id, expected, r)
      ensures result == Capacity ==>
        && Accepts(old(records), id, expected, r)
        && ((|old(records)| == MAX_RECORDS && id !in old(records)) || Total(old(records)[id := r], size) > MAX_BYTES)
      ensures result != Saved ==> records == old(records)
    {
      if !Encodable(r, size) {
        return Invalid;
      }
      var prior := if id in records then records[id] else NO_RECORD;
      if prior.revision != expected || prior.final || r.revision != expected + 1 {
        return Conflict;
      }
      TotalUpdate(records, size, id, r);
      CountUpdate(records, id, r);
      var freed := if id in records then size(prior) else 0;
      if (|records| >= MAX_RECORDS && id !in records) || bytes - freed + size(r) > MAX_BYTES {
        return Capacity;
      }
      records := records[id := r];
      bytes := bytes + (size(r) - freed);
      return Saved;
    }

    method Delete(id: Id)
      requires Valid()
      modifies this
      ensures Valid() && records == old(records) - {id}
    {
      if id in records {
        TotalWithout(records, size, id);
        Smaller(records, id);
        bytes := bytes - size(records[id]);
      } else {
        assert records - {id} == records;
      }
      records := records - {id};
    }
  }

  // ---------------------------------------------------------------------
  // The PostgreSQL store
  // ---------------------------------------------------------------------

  datatype Row = Row(revision: nat, final: bool, data: Record)

  ghost function RowData(rows: map<Id, Row>): map<Id, Record> {
    map id | id in rows :: rows[id].data
  }

  class PostgresChangesStore {
    const size: Record -> nat
    var rows: map<Id, Row>

    /** The columns statements select on are those of the encoded record. */
    ghost predicate Valid()
      reads this
    {
      && Started(RowData(rows))
      && forall id :: id in rows ==> rows[id].revision == rows[id].data.revision && rows[id].final == rows[id].data.final
    }

    ghost function Records(): map<Id, Record>
      reads this
    {
      RowData(rows)
    }

    constructor (encodedSize: Record -> nat)
      ensures Valid() && size == encodedSize && Records() == map[]
    {
      size := encodedSize;
      rows := map[];
    }

    method Load(id: Id) returns (r: Record)
      requires Valid()
      ensures r == Loaded(Records(), id)
    {
      r := if id in rows then rows[id].data else NO_RECORD;
    }

    /** INSERT ... ON CONFLICT DO NOTHING */
    method Insert(id: Id, row: Row) returns (count: nat)
      modifies this`rows
      ensures count == (if id in old(rows) then 0 else 1)
      ensures rows == if id in old(rows) then old(rows) else old(rows)[id := row]
    {
      if id in rows {
        return 0;
      }
      rows := rows[id := row];
      return 1;
    }

    /** UPDATE ... WHERE revision = expected AND NOT final */
    method Update(id: Id, expected: nat, row: Row) returns (count: nat)
      modifies this`rows
      ensures var hit := id in old(rows) && old(rows)[id].revision == expected && !old(rows)[id].final;
        count == (if hit then 1 else 0) && rows == if hit then old(rows)[id := row] else old(rows)
    {
      if id in rows && rows[id].revision == expected && !rows[id].final {
        rows := rows[id := row];
        return 1;
      }
      return 0;
    }

    method Save(id: Id, expected: nat, r: Record) returns (result: SaveResult)
      requires Valid()
      modifies this`rows
      ensures Valid()
      ensures result == Invalid <==> r.revision == expected + 1 && !(r.baseline.valid && r.current.valid && size(r) <= MAX_ENCODED)
      ensures result == Saved || result == Conflict ==> (Records(), result) == SaveTo(old(Records()), id, expected, r)
      ensures result != Saved ==> rows == old(rows)
      ensures result != Capacity
    {
      if r.revision != expected + 1 {
        return Conflict;
      }
      if !Encodable(r, size) {
        return Invalid;
      }
      var row := Row(r.revision, r.final, r);
      var count;
      if expected == 0 {
        count := Insert(id, row);
      } else {
        count := Update(id, expected, row);
      }
      assert count == 1 ==> RowData(rows) == RowData(old(rows))[id := r];
      return if count != 1 then Conflict else Saved;
    }

    method Delete(id: Id)
      requires Valid()
      modifies this`rows
      ensures Valid() && Records() == old(Records()) - {id}
    {
      rows := rows - {id};
      assert RowData(rows) == RowData(old(rows)) - {id};
    }
  }
}
