/**
 Rebuilding the latest order snapshots from the journal at startup. Sequence numbers are reserved
 under the gateway lock and records are appended outside it, so records may lie in any order.
 */
module Recovery {
  import opened Wrappers
  import opened Orders

  /** A journaled snapshot of one order under its reserved sequence number. */
  datatype Record = Record(sequence: nat, order: Order)

  type Table = map<string, Record>

  function IdOf(r: Record): string {
    r.order.clientOrderId
  }

  function Absorb(table: Table, r: Record): Table {
    if IdOf(r) !in table || r.sequence >= table[IdOf(r)].sequence then table[IdOf(r) := r] else table
  }

  function Latest(records: seq<Record>): Table {
    if records == [] then map[] else Absorb(Latest(records[..|records| - 1]), records[|records| - 1])
  }

  function MaxSequence(records: seq<Record>): nat {
    if records == [] then 0
    else
      var before, last := MaxSequence(records[..|records| - 1]), records[|records| - 1].sequence;
      if before < last then last else before
  }

  /** The startup loop: one pass over the records, keeping the newest snapshot of each order. */
  method Recover(records: seq<Record>) returns (table: Table, nextSequence: nat)
    ensures table == Latest(records)
    ensures nextSequence == MaxSequence(records) + 1
  {
    table := map[];
    var maxSequence := 0;
    for i := 0 to |records|
      invariant table == Latest(records[..i]) && maxSequence == MaxSequence(records[..i])
    {
      var record := records[i];
      assert records[..i + 1][..i] == records[..i];
      maxSequence := if maxSequence < record.sequence then record.sequence else maxSequence;
      if IdOf(record) !in table || record.sequence >= table[IdOf(record)].sequence {
        table := table[IdOf(record) := record];
      }
    }
    assert records[..|records|] == records;
    nextSequence := maxSequence + 1;
  }

  /** The loaded snapshot of an order is one of its records, and none of them is newer. */
  ghost predicate IsNewest(records: seq<Record>, id: string, r: Record) {
    && r in records && IdOf(r) == id
    && forall x :: x in records && IdOf(x) == id ==> x.sequence <= r.sequence
  }

  ghost predicate HasRecord(records: seq<Record>, id: string) {
    exists x :: x in records && IdOf(x) == id
  }

  lemma AbsorbIsNewest(records: seq<Record>, last: Record, table: Table, id: string)
    requires id in table <==> HasRecord(records, id)
    requires id in table ==> IsNewest(records, id, table[id])
    ensures id in Absorb(table, last) <==> HasRecord(records + [last], id)
    ensures id in Absorb(table, last) ==> IsNewest(records + [last], id, Absorb(table, last)[id])
  {
    var longer := records + [last];
    assert forall x :: x in longer <==> x in records || x == last;
    assert last in longer;
    if HasRecord(records, id) {
      var x :| x in records && IdOf(x) == id;
      assert x in longer;
    }
  }

  lemma {:induction false} LatestIsNewest(records: seq<Record>)
    ensures forall id :: id in Latest(records) <==> HasRecord(records, id)
    ensures forall id :: id in Latest(records) ==> IsNewest(records, id, Latest(records)[id])
  {
    hide Absorb, HasRecord, IsNewest;
    if records == [] {
      NothingRecorded();
    } else {
      var shorter, last := records[..|records| - 1], records[|records| - 1];
      LatestIsNewest(shorter);
      assert records == shorter + [last];
      forall id
        ensures id in Latest(records) <==> HasRecord(records, id)
        ensures id in Latest(records) ==> IsNewest(records, id, Latest(records)[id])
      {
        AbsorbIsNewest(shorter, last, Latest(shorter), id);
      }
    }
  }

  lemma NothingRecorded()
    ensures forall id :: !HasRecord([], id)
  {
  }

  /** A sequence number names one record. */
  ghost predicate SequencesIdentify(records: seq<Record>) {
    forall r, r' :: r in records && r' in records && r.sequence == r'.sequence ==> r == r'
  }

  lemma NewestIsUnique(records: seq<Record>, rearranged: seq<Record>, id: string, r: Record, r': Record)
    requires SequencesIdentify(records) && forall x :: x in records <==> x in rearranged
    requires IsNewest(records, id, r) && IsNewest(rearranged, id, r')
    ensures r == r'
  {
    assert r.sequence == r'.sequence;
  }

  /** Any arrangement of the same committed records loads the same snapshots. */
  lemma OrderOfRecordsIsIrrelevant(records: seq<Record>, rearranged: seq<Record>)
    requires multiset(records) == multiset(rearranged) && SequencesIdentify(records)
    ensures Latest(records) == Latest(rearranged)
    ensures MaxSequence(records) == MaxSequence(rearranged)
  {
    hide SequencesIdentify, IsNewest, Latest;
    SameElements(records, rearranged);
    SameElements(rearranged, records);
    LatestIsNewest(records);
    LatestIsNewest(rearranged);
    var a, b := Latest(records), Latest(rearranged);
    forall id
      ensures id in a <==> id in b
      ensures id in a && id in b ==> a[id] == b[id]
    {
      if id in a && id in b {
        NewestIsUnique(records, rearranged, id, a[id], b[id]);
      }
    }
    MaxSequenceBounds(records);
    MaxSequenceBounds(rearranged);
  }

  lemma SameElements(records: seq<Record>, rearranged: seq<Record>)
    requires multiset(records) == multiset(rearranged)
    ensures forall r :: r in records ==> r in rearranged
  {
    forall r | r in records
      ensures r in rearranged
    {
      assert r in multiset(records);
    }
  }

  /** Every sequence on disk is below the first one handed out after a restart. */
  lemma {:induction false} MaxSequenceBounds(records: seq<Record>)
    ensures forall r :: r in records ==> r.sequence <= MaxSequence(records)
    ensures records != [] ==> exists r :: r in records && r.sequence == MaxSequence(records)
  {
    if records != [] {
      var shorter, last := records[..|records| - 1], records[|records| - 1];
      MaxSequenceBounds(shorter);
      assert records == shorter + [last];
      assert last in records;
    }
  }
}
