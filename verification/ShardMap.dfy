/** Loading the map from buckets to shards. */
module ShardMaps {
  import opened Seqs

  datatype Flags = Flags(readDown: bool, writeDown: bool, badLogical: bool)

  datatype Rec = Rec(bin: int, logical: int, flags: Flags)

  const PLAIN := Flags(false, false, false)

  // One row of the map table; a status may be null.
  datatype Row = Row(bin: int, logical: int, readStatus: Option<string>, writeStatus: Option<string>)

  datatype Scan = Scanned(row: Row) | Broken

  datatype Outcome = Loaded | NotConfigured(bucket: nat) | ScanFailed | Crashed

  predicate InRange(logical: int, shards: nat)
  {
    0 <= logical < shards
  }

  predicate Down(status: Option<string>)
  {
    status.Some? && status.value != "" && status.value[0] == 'N'
  }

  // Looking at the first letter of an empty status fails.
  predicate Readable(row: Row)
  {
    row.readStatus != Some("") && row.writeStatus != Some("")
  }

  /** The record of a row: a shard that does not exist becomes a flagged -1. */
  function RecOf(row: Row, shards: nat): Rec
  {
    var bad := !InRange(row.logical, shards);
    Rec(row.bin, if bad then -1 else row.logical, Flags(Down(row.readStatus), Down(row.writeStatus), bad))
  }

  function GapAt(bin: int): Rec
  {
    Rec(bin, -1, Flags(false, false, true))
  }

  function Filled(slot: Option<Rec>, bin: int): Rec
  {
    if slot.Some? then slot.value else GapAt(bin)
  }

  /** The first row for a bucket. */
  ghost predicate FirstFor(rows: seq<Scan>, bin: int, i: int)
  {
    && 0 <= i < |rows| && rows[i].Scanned? && rows[i].row.bin == bin
    && forall j :: 0 <= j < i && rows[j].Scanned? ==> rows[j].row.bin != bin
  }

  ghost predicate Configured(rows: seq<Scan>, bin: int)
  {
    exists i :: FirstFor(rows, bin, i)
  }

  /** What a bucket is set to: its first row, or a flagged gap. */
  ghost predicate SlotOk(rows: seq<Scan>, shards: nat, bin: int, rec: Rec)
  {
    || (exists i :: FirstFor(rows, bin, i) && rec == RecOf(rows[i].row, shards))
    || (rec == GapAt(bin) && forall j :: 0 <= j < |rows| && rows[j].Scanned? ==> rows[j].row.bin != bin)
  }

  ghost predicate TableOk(rows: seq<Scan>, buckets: nat, shards: nat, table: seq<Rec>)
  {
    |table| == buckets && forall b :: 0 <= b < buckets ==> SlotOk(rows, shards, b, table[b])
  }

  /** A map that can be routed by: every bucket set, under its own number, and in range or flagged. */
  ghost predicate Routable(table: seq<Rec>, buckets: nat, shards: nat)
  {
    && |table| == buckets
    && forall b :: 0 <= b < buckets ==>
                     table[b].bin == b && (table[b].flags.badLogical <==> !InRange(table[b].logical, shards))
  }

  /** The rows determine the table. */
  lemma OneTable(rows: seq<Scan>, buckets: nat, shards: nat, s: seq<Rec>, t: seq<Rec>)
    requires TableOk(rows, buckets, shards, s) && TableOk(rows, buckets, shards, t)
    ensures s == t
  {
    forall b | 0 <= b < buckets
      ensures s[b] == t[b]
    {
      assert SlotOk(rows, shards, b, s[b]) && SlotOk(rows, shards, b, t[b]);
      assert forall i, j :: FirstFor(rows, b, i) && FirstFor(rows, b, j) ==> i == j;
    }
  }

  lemma LoadedIsRoutable(rows: seq<Scan>, buckets: nat, shards: nat, table: seq<Rec>)
    requires TableOk(rows, buckets, shards, table)
    ensures Routable(table, buckets, shards)
  {
    forall b | 0 <= b < buckets
      ensures table[b].bin == b && (table[b].flags.badLogical <==> !InRange(table[b].logical, shards))
    {
      assert SlotOk(rows, shards, b, table[b]);
    }
  }

  /** What a bucket says, read off its first row: the shard if it exists, and which uses are marked down. */
  lemma BucketTells(rows: seq<Scan>, buckets: nat, shards: nat, table: seq<Rec>, b: nat, i: nat)
    requires TableOk(rows, buckets, shards, table) && b < buckets && FirstFor(rows, b, i)
    ensures var row, rec := rows[i].row, table[b];
            && rec.bin == b
            && (if 0 <= row.logical < shards then rec.logical == row.logical && !rec.flags.badLogical
                else rec.logical == -1 && rec.flags.badLogical)
            && (rec.flags.readDown <==> exists rest :: row.readStatus == Some("N" + rest))
            && (rec.flags.writeDown <==> exists rest :: row.writeStatus == Some("N" + rest))
  {
    assert SlotOk(rows, shards, b, table[b]);
    assert forall j, k :: FirstFor(rows, b, j) && FirstFor(rows, b, k) ==> j == k;
    MarkedDown(rows[i].row.readStatus);
    MarkedDown(rows[i].row.writeStatus);
  }

  /** A bucket without row is flagged, and marked down for nothing. */
  lemma GapTells(rows: seq<Scan>, buckets: nat, shards: nat, table: seq<Rec>, b: nat)
    requires TableOk(rows, buckets, shards, table) && b < buckets && !Configured(rows, b)
    ensures table[b] == Rec(b, -1, Flags(false, false, true))
  {
    assert SlotOk(rows, shards, b, table[b]);
  }

  lemma MarkedDown(status: Option<string>)
    ensures Down(status) <==> exists rest :: status == Some("N" + rest)
  {
    if Down(status) {
      assert status.value == "N" + status.value[1..];
    }
  }

  /** What a bucket holds after some rows: the first one's record, or nothing yet. */
  ghost predicate PartOk(rows: seq<Scan>, shards: nat, bin: int, slot: Option<Rec>)
  {
    if slot.Some? then exists i :: FirstFor(rows, bin, i) && slot.value == RecOf(rows[i].row, shards)
    else forall j :: 0 <= j < |rows| && rows[j].Scanned? ==> rows[j].row.bin != bin
  }

  lemma PartStep(rows: seq<Scan>, n: nat, shards: nat, bin: int, slot: Option<Rec>)
    requires n < |rows| && rows[n].Scanned? && PartOk(rows[..n], shards, bin, slot)
    ensures PartOk(rows[..n + 1], shards, bin,
                   if slot.None? && rows[n].row.bin == bin then Some(RecOf(rows[n].row, shards)) else slot)
  {
    if slot.Some? {
      var i :| FirstFor(rows[..n], bin, i) && slot.value == RecOf(rows[i].row, shards);
      assert FirstFor(rows[..n + 1], bin, i);
    } else if rows[n].row.bin == bin {
      assert FirstFor(rows[..n + 1], bin, n);
    }
  }

  /** The first row that cannot be used, and how it fails. */
  ghost predicate FailsAt(rows: seq<Scan>, i: int, outcome: Outcome)
  {
    && 0 <= i < |rows|
    && (forall j :: 0 <= j < i ==> rows[j].Scanned? && Readable(rows[j].row))
    && (if rows[i].Broken? then outcome == ScanFailed else !Readable(rows[i].row) && outcome == Crashed)
  }

  class ShardingCfg {
    var records: Option<seq<Rec>>

    constructor ()
      ensures records == None
    {
      records := None;
    }

    ghost predicate Valid(buckets: nat, shards: nat)
      reads this
    {
      records.Some? ==> Routable(records.value, buckets, shards)
    }

    /** Fills the slots from the rows; stops at a row that cannot be read. */
    method ReadRows(rows: seq<Scan>, slots: array<Option<Rec>>, buckets: nat, shards: nat) returns (outcome: Outcome)
      requires buckets <= slots.Length && forall b :: 0 <= b < slots.Length ==> slots[b] == None
      modifies slots
      ensures outcome == Loaded <==> forall i :: 0 <= i < |rows| ==> rows[i].Scanned? && Readable(rows[i].row)
      ensures outcome != Loaded ==> exists i :: FailsAt(rows, i, outcome)
      ensures outcome == Loaded ==> forall b :: 0 <= b < buckets ==> PartOk(rows, shards, b, slots[b])
    {
      var n := 0;
      while n < |rows|
        invariant 0 <= n <= |rows|
        invariant forall i :: 0 <= i < n ==> rows[i].Scanned? && Readable(rows[i].row)
        invariant forall b :: 0 <= b < buckets ==> PartOk(rows[..n], shards, b, slots[b])
      {
        if rows[n].Broken? {
          assert FailsAt(rows, n, ScanFailed);
          return ScanFailed;
        }
        var row := rows[n].row;
        if !Readable(row) {
          assert FailsAt(rows, n, Crashed);
          return Crashed;
        }
        forall b | 0 <= b < buckets
          ensures PartOk(rows[..n + 1], shards, b,
                         if slots[b].None? && row.bin == b then Some(RecOf(row, shards)) else slots[b])
        {
          PartStep(rows, n, shards, b, slots[b]);
        }
        if 0 <= row.bin < buckets && slots[row.bin].None? {
          slots[row.bin] := Some(RecOf(row, shards));
        }
        n := n + 1;
      }
      assert rows[..n] == rows;
      return Loaded;
    }

    /** Fills the gaps and compares with the map in use. */
    method FillGaps(slots: array<Option<Rec>>, buckets: nat) returns (table: seq<Rec>, same: bool, firstGap: Option<nat>)
      requires buckets <= slots.Length
      requires records.Some? ==> |records.value| == buckets
      ensures |table| == buckets
      ensures forall b :: 0 <= b < buckets ==> table[b] == Filled(slots[b], b)
      ensures same <==> records.Some? && SameRouting(records.value, table)
      ensures firstGap.None? <==> forall b :: 0 <= b < buckets ==> slots[b].Some?
      ensures firstGap.Some? ==>
                && firstGap.value < buckets && slots[firstGap.value].None?
                && forall b :: 0 <= b < firstGap.value ==> slots[b].Some?
    {
      same, firstGap, table := records.Some?, None, [];
      var b := 0;
      while b < buckets
        invariant 0 <= b <= buckets && |table| == b
        invariant forall k :: 0 <= k < b ==> table[k] == Filled(slots[k], k)
        invariant same <==> records.Some? && SameRouting(records.value[..b], table)
        invariant firstGap.None? <==> forall k :: 0 <= k < b ==> slots[k].Some?
        invariant firstGap.Some? ==>
                    && firstGap.value < b && slots[firstGap.value].None?
                    && forall k :: 0 <= k < firstGap.value ==> slots[k].Some?
      {
        var rec := Filled(slots[b], b);
        if slots[b].None? && firstGap.None? {
          firstGap := Some(b);
        }
        ghost var before := table;
        table := table + [rec];
        if records.Some? {
          SameRoutingStep(records.value, before, b, rec);
        }
        if same && (records.value[b].logical != rec.logical || records.value[b].flags != rec.flags) {
          same := false;
        }
        b := b + 1;
      }
      assert records.Some? ==> records.value[..b] == records.value;
    }

    /**
     loadMap: the map in use becomes the one the rows determine, whether or not the store is skipped;
     rows that cannot be read leave it alone; a gap is reported but filled.
     */
    method LoadMap(rows: seq<Scan>, buckets: nat, shards: nat) returns (outcome: Outcome)
      requires 1 <= buckets <= 1024 && Valid(buckets, shards)
      modifies this
      ensures Valid(buckets, shards)
      ensures outcome in {ScanFailed, Crashed} <==> exists i :: 0 <= i < |rows| && !(rows[i].Scanned? && Readable(rows[i].row))
      ensures outcome in {ScanFailed, Crashed} ==> exists i :: FailsAt(rows, i, outcome)
      ensures outcome in {ScanFailed, Crashed} ==> records == old(records)
      ensures outcome !in {ScanFailed, Crashed} ==> records.Some? && TableOk(rows, buckets, shards, records.value)
      ensures outcome == Loaded ==>
                forall b :: 0 <= b < buckets ==> Configured(rows, b)
      ensures outcome.NotConfigured? ==>
                && outcome.bucket < buckets && !Configured(rows, outcome.bucket)
                && forall b :: 0 <= b < outcome.bucket ==> Configured(rows, b)
    {
      var slots := new Option<Rec>[1024](_ => None);
      outcome := ReadRows(rows, slots, buckets, shards);
      if outcome != Loaded {
        return;
      }
      var table, same, firstGap := FillGaps(slots, buckets);
      forall b | 0 <= b < buckets
        ensures SlotOk(rows, shards, b, table[b])
      {
        assert PartOk(rows, shards, b, slots[b]);
      }
      LoadedIsRoutable(rows, buckets, shards, table);
      if same {
        SameIsEqual(records.value, table, buckets, shards);
      } else {
        records := Some(table);
      }
      if firstGap.Some? {
        assert PartOk(rows, shards, firstGap.value, None);
        forall b | 0 <= b < firstGap.value
          ensures Configured(rows, b)
        {
          assert PartOk(rows, shards, b, slots[b]);
        }
        return NotConfigured(firstGap.value);
      }
      forall b | 0 <= b < buckets
        ensures Configured(rows, b)
      {
        assert PartOk(rows, shards, b, slots[b]);
      }
    }
  }

  /** Two maps agree on shards and flags. */
  ghost predicate SameRouting(s: seq<Rec>, t: seq<Rec>)
  {
    |s| == |t| && forall b :: 0 <= b < |s| ==> s[b].logical == t[b].logical && s[b].flags == t[b].flags
  }

  lemma SameRoutingStep(was: seq<Rec>, table: seq<Rec>, b: nat, rec: Rec)
    requires b < |was| && |table| == b
    ensures SameRouting(was[..b + 1], table + [rec])
       <==> SameRouting(was[..b], table) && was[b].logical == rec.logical && was[b].flags == rec.flags
  {
    if SameRouting(was[..b + 1], table + [rec]) {
      assert (table + [rec])[b] == rec && was[..b + 1][b] == was[b];
      forall k | 0 <= k < b
        ensures was[..b][k].logical == table[k].logical && was[..b][k].flags == table[k].flags
      {
        assert (table + [rec])[k] == table[k] && was[..b + 1][k] == was[k];
      }
    }
  }

  /** So skipping the store when nothing differs cannot be seen. */
  lemma SameIsEqual(s: seq<Rec>, t: seq<Rec>, buckets: nat, shards: nat)
    requires SameRouting(s, t) && Routable(s, buckets, shards) && Routable(t, buckets, shards)
    ensures s == t
  {
    forall b | 0 <= b < |s|
      ensures s[b] == t[b]
    {
      assert s[b].bin == t[b].bin;
    }
  }
}
