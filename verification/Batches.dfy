/** The bounded batch readers: running row numbers, padding of absent columns, buffer flushing. */
module Batches {
  import opened Wrappers
  import opened Cells
  import opened Catalog
  import opened Columns

  datatype RawRow = RawRow(dataset: Dataset, sid: nat, number: nat, run: nat, values: Row)

  datatype RawBatch = RawBatch(start: nat, rows: seq<RawRow>)

  datatype Lineage = Lineage(dataset: Dataset, sid: nat, run: nat)

  /** The raw rows of a source whose first row gets number `first`. */
  function Numbered(l: Lineage, first: nat, rows: seq<Row>): seq<RawRow> {
    seq(|rows|, i requires 0 <= i < |rows| => RawRow(l.dataset, l.sid, first + i, l.run, rows[i]))
  }

  lemma NumberedSplit(l: Lineage, first: nat, a: seq<Row>, b: seq<Row>)
    ensures Numbered(l, first, a + b) == Numbered(l, first, a) + Numbered(l, first + |a|, b)
  {
  }

  function Flatten(batches: seq<RawBatch>): seq<RawRow> {
    if batches == [] then [] else Flatten(batches[..|batches| - 1]) + batches[|batches| - 1].rows
  }

  lemma FlattenSnoc(batches: seq<RawBatch>, b: RawBatch)
    ensures Flatten(batches + [b]) == Flatten(batches) + b.rows
  {
    assert (batches + [b])[..|batches|] == batches;
  }

  /** Every batch says where it starts, and starts where the rows before it end. */
  ghost predicate Aligned(batches: seq<RawBatch>) {
    batches == [] ||
    var n := |batches| - 1;
    Aligned(batches[..n]) && batches[n].start == 1 + |Flatten(batches[..n])|
  }

  lemma AlignedSnoc(batches: seq<RawBatch>, b: RawBatch)
    requires Aligned(batches) && b.start == 1 + |Flatten(batches)|
    ensures Aligned(batches + [b])
  {
    assert (batches + [b])[..|batches|] == batches;
  }

  lemma {:induction false} AlignedAt(batches: seq<RawBatch>, k: nat)
    requires Aligned(batches) && k < |batches|
    ensures batches[k].start == 1 + |Flatten(batches[..k])|
    ensures |Flatten(batches[..k])| + |batches[k].rows| <= |Flatten(batches)|
    ensures forall i :: 0 <= i < |batches[k].rows| ==> Flatten(batches)[batches[k].start - 1 + i] == batches[k].rows[i]
  {
    var n := |batches| - 1;
    if k < n {
      AlignedAt(batches[..n], k);
      assert batches[..n][..k] == batches[..k];
    }
  }

  function Sum(s: seq<nat>): nat {
    if s == [] then 0 else Sum(s[..|s| - 1]) + s[|s| - 1]
  }

  lemma SumPrefix(s: seq<nat>, k: nat)
    requires k <= |s|
    ensures Sum(s[..k]) <= Sum(s)
    ensures k < |s| ==> Sum(s[..k + 1]) == Sum(s[..k]) + s[k]
    decreases |s| - k
  {
    if k < |s| {
      assert s[..k + 1][..k] == s[..k];
      SumPrefix(s, k + 1);
    } else {
      assert s[..k] == s;
    }
  }

  /** A Parquet file: named columns, all of the same length. */
  datatype ParquetFile = ParquetFile(columns: map<ColumnName, seq<Cell>>, count: nat) {
    ghost predicate Valid() {
      forall name :: name in columns ==> |columns[name]| == count
    }

    /** The value of a column at a row, null when the file does not have the column. */
    function At(name: ColumnName, row: nat): Cell
      requires Valid() && row < count
    {
      if name in columns then columns[name][row] else Null
    }

    /** The file's rows over the requested columns, in source order. */
    function Rows(names: seq<ColumnName>): (rows: seq<Row>)
      requires Valid()
      ensures |rows| == count
    {
      seq(count, k requires 0 <= k < count =>
        seq(|names|, c requires 0 <= c < |names| => At(names[c], k)))
    }

    /** One record batch: the rows from `lo` up to `hi` of every column. */
    function Slice(lo: nat, hi: nat): (part: ParquetFile)
      requires Valid() && lo <= hi <= count
      ensures part.Valid() && part.count == hi - lo
    {
      ParquetFile(map name | name in columns :: columns[name][lo..hi], hi - lo)
    }
  }

  lemma SliceContinues(file: ParquetFile, lo: nat, hi: nat, names: seq<ColumnName>)
    requires file.Valid() && lo <= hi <= file.count
    ensures file.Rows(names)[..lo] + file.Slice(lo, hi).Rows(names) == file.Rows(names)[..hi]
  {
    forall k | 0 <= k < hi - lo
      ensures file.Slice(lo, hi).Rows(names)[k] == file.Rows(names)[lo + k]
    {
    }
  }

  /** The batches hold exactly these source rows, in order and numbered from 1. */
  ghost predicate Covers(batches: seq<RawBatch>, l: Lineage, rows: seq<Row>) {
    Aligned(batches) && Flatten(batches) == Numbered(l, 1, rows)
  }

  /** The rows of every batch are numbered from the batch's start row number. */
  lemma StartNumbersRows(batches: seq<RawBatch>, l: Lineage, rows: seq<Row>, k: nat, i: nat)
    requires Covers(batches, l, rows) && k < |batches| && i < |batches[k].rows|
    ensures batches[k].rows[i].number == batches[k].start + i
  {
    AlignedAt(batches, k);
  }

  lemma CoversSnoc(batches: seq<RawBatch>, l: Lineage, n: nat, rows: seq<Row>, more: seq<Row>, all: seq<Row>)
    requires Covers(batches, l, rows) && |rows| == n && rows + more == all
    ensures Covers(batches + [RawBatch(n + 1, Numbered(l, n + 1, more))], l, all)
  {
    var b := RawBatch(n + 1, Numbered(l, n + 1, more));
    FlattenSnoc(batches, b);
    AlignedSnoc(batches, b);
    NumberedSplit(l, 1, rows, more);
  }

  /** The first `k` record batches have been read; they hold the first `n` of all rows. */
  ghost predicate ReadTo(all: seq<Row>, sizes: seq<nat>, l: Lineage, k: nat, n: nat, batches: seq<RawBatch>) {
    && |batches| == k <= |sizes| && n <= |all|
    && (forall i :: 0 <= i < k ==> |batches[i].rows| == sizes[i])
    && Covers(batches, l, all[..n])
  }

  lemma ReadNext(all: seq<Row>, sizes: seq<nat>, l: Lineage, k: nat, n: nat, batches: seq<RawBatch>, rows: seq<Row>)
    requires k < |sizes| && n + sizes[k] <= |all| && ReadTo(all, sizes, l, k, n, batches)
    requires |rows| == sizes[k] && all[..n] + rows == all[..n + sizes[k]]
    ensures ReadTo(all, sizes, l, k + 1, n + sizes[k], batches + [RawBatch(n + 1, Numbered(l, n + 1, rows))])
  {
    CoversSnoc(batches, l, n, all[..n], rows, all[..n + sizes[k]]);
  }

  /** Reads a Parquet file in record batches of any sizes. The concatenated batches are the file's
      rows in order, padded and numbered from 1, whatever the sizes were. */
  method IterParquetBatches(file: ParquetFile, sizes: seq<nat>, names: seq<ColumnName>, l: Lineage)
    returns (batches: seq<RawBatch>)
    requires file.Valid() && Sum(sizes) == file.count
    ensures |batches| == |sizes|
    ensures forall k :: 0 <= k < |sizes| ==> |batches[k].rows| == sizes[k]
    ensures Covers(batches, l, file.Rows(names))
  {
    batches := [];
    var rowNumber := 1;
    for k := 0 to |sizes|
      invariant rowNumber == 1 + Sum(sizes[..k]) && ReadTo(file.Rows(names), sizes, l, k, rowNumber - 1, batches)
    {
      SumPrefix(sizes, k);
      SumPrefix(sizes, k + 1);
      SliceContinues(file, rowNumber - 1, rowNumber - 1 + sizes[k], names);
      var recordBatch := file.Slice(rowNumber - 1, rowNumber - 1 + sizes[k]);
      ReadNext(file.Rows(names), sizes, l, k, rowNumber - 1, batches, recordBatch.Rows(names));
      batches := batches + [RawBatch(rowNumber, Numbered(l, rowNumber, recordBatch.Rows(names)))];
      rowNumber := rowNumber + sizes[k];
    }
    assert sizes[..|sizes|] == sizes;
    assert file.Rows(names)[..file.count] == file.Rows(names);
  }

  /** One CSV record of the Taxi Zone lookup; `locationId` is absent when it is not an integer. */
  datatype ZoneRecord = ZoneRecord(locationId: Option<int>, borough: string, zone: string, serviceZone: string)

  function ZoneValues(r: ZoneRecord): Row
    requires r.locationId.Some?
  {
    [Int(r.locationId.value), Text(r.borough), Text(r.zone), Text(r.serviceZone)]
  }

  ghost predicate Parses(records: seq<ZoneRecord>) {
    forall k :: 0 <= k < |records| ==> records[k].locationId.Some?
  }

  function ZoneRows(records: seq<ZoneRecord>): seq<Row>
    requires Parses(records)
  {
    seq(|records|, k requires 0 <= k < |records| => ZoneValues(records[k]))
  }

  /** The first `read` records are in the yielded batches, which are all full, and in the buffer. */
  ghost predicate Buffered(records: seq<ZoneRecord>, size: nat, l: Lineage, read: nat,
                           batches: seq<RawBatch>, buffer: seq<RawRow>)
  {
    && read <= |records| && Parses(records[..read]) && Aligned(batches) && |buffer| <= size
    && Flatten(batches) + buffer == Numbered(l, 1, ZoneRows(records[..read]))
    && forall i :: 0 <= i < |batches| ==> |batches[i].rows| == size
  }

  lemma BufferNext(records: seq<ZoneRecord>, size: nat, l: Lineage, read: nat, batches: seq<RawBatch>,
                   buffer: seq<RawRow>)
    requires Buffered(records, size, l, read, batches, buffer) && read < |records| && |buffer| < size
    requires records[read].locationId.Some?
    ensures Buffered(records, size, l, read + 1, batches,
                     buffer + [RawRow(l.dataset, l.sid, read + 1, l.run, ZoneValues(records[read]))])
  {
    var row := ZoneValues(records[read]);
    assert ZoneRows(records[..read + 1]) == ZoneRows(records[..read]) + [row];
    NumberedSplit(l, 1, ZoneRows(records[..read]), [row]);
    assert Numbered(l, read + 1, [row]) == [RawRow(l.dataset, l.sid, read + 1, l.run, row)];
  }

  lemma BufferFlush(records: seq<ZoneRecord>, size: nat, l: Lineage, read: nat, batches: seq<RawBatch>,
                    buffer: seq<RawRow>)
    requires Buffered(records, size, l, read, batches, buffer)
    ensures |buffer| <= read
    ensures
      var flushed := batches + [RawBatch(read + 1 - |buffer|, buffer)];
      && Aligned(flushed) && Flatten(flushed) == Numbered(l, 1, ZoneRows(records[..read]))
      && forall i :: 0 <= i < |flushed| ==> |flushed[i].rows| == if i < |batches| then size else |buffer|
  {
    assert |Flatten(batches)| + |buffer| == read by {
      assert |Flatten(batches) + buffer| == |Numbered(l, 1, ZoneRows(records[..read]))|;
    }
    var b := RawBatch(read + 1 - |buffer|, buffer);
    FlattenSnoc(batches, b);
    AlignedSnoc(batches, b);
  }

  lemma FlushFull(records: seq<ZoneRecord>, size: nat, l: Lineage, read: nat, batches: seq<RawBatch>,
                  buffer: seq<RawRow>)
    requires Buffered(records, size, l, read, batches, buffer) && |buffer| == size
    ensures size <= read
    ensures Buffered(records, size, l, read, batches + [RawBatch(read + 1 - size, buffer)], [])
  {
    BufferFlush(records, size, l, read, batches, buffer);
    var flushed := batches + [RawBatch(read + 1 - size, buffer)];
    assert Flatten(flushed) + [] == Flatten(flushed);
  }

  /** Every batch but the last is exactly full, and the last is not empty. */
  ghost predicate Filled(batches: seq<RawBatch>, size: nat) {
    && (forall k :: 0 <= k < |batches| ==> 0 < |batches[k].rows| <= size)
    && (forall k :: 0 <= k < |batches| - 1 ==> |batches[k].rows| == size)
  }

  /** The batches hold rows of the records read before the reader stopped: a prefix when it failed on
      a record, all of them when it reached the end. */
  ghost predicate Yields(records: seq<ZoneRecord>, l: Lineage, read: nat, batches: seq<RawBatch>) {
    && read <= |records| && Parses(records[..read]) && Aligned(batches)
    && Flatten(batches) <= Numbered(l, 1, ZoneRows(records[..read]))
    && (read < |records| ==> records[read].locationId.None?)
    && (read == |records| ==> Flatten(batches) == Numbered(l, 1, ZoneRows(records[..read])))
  }

  lemma ReaderFails(records: seq<ZoneRecord>, size: nat, l: Lineage, read: nat, batches: seq<RawBatch>,
                    buffer: seq<RawRow>)
    requires size > 0 && Buffered(records, size, l, read, batches, buffer)
    requires read < |records| && records[read].locationId.None?
    ensures Yields(records, l, read, batches) && Filled(batches, size)
  {
    assert Flatten(batches) <= Flatten(batches) + buffer;
  }

  lemma ReaderEnds(records: seq<ZoneRecord>, size: nat, l: Lineage, read: nat, batches: seq<RawBatch>,
                   buffer: seq<RawRow>)
    requires |buffer| < size && read == |records| && Buffered(records, size, l, read, batches, buffer)
    ensures |buffer| <= read
    ensures
      var all := if buffer == [] then batches else batches + [RawBatch(read + 1 - |buffer|, buffer)];
      Yields(records, l, read, all) && Filled(all, size)
  {
    if buffer != [] {
      BufferFlush(records, size, l, read, batches, buffer);
    } else {
      assert Flatten(batches) + buffer == Flatten(batches);
    }
  }

  /** Reads the zone lookup through an explicit buffer. The reader fails exactly when a LocationID is
      not an integer, after `read` good records. */
  method IterTaxiZoneBatches(records: seq<ZoneRecord>, batchSize: nat, l: Lineage)
    returns (batches: seq<RawBatch>, read: nat)
    requires batchSize > 0
    ensures Yields(records, l, read, batches) && Filled(batches, batchSize)
  {
    batches, read := [], 0;
    var buffer: seq<RawRow> := [];
    while read < |records|
      invariant Buffered(records, batchSize, l, read, batches, buffer) && |buffer| < batchSize
    {
      if records[read].locationId.None? {
        ReaderFails(records, batchSize, l, read, batches, buffer);
        return;
      }
      BufferNext(records, batchSize, l, read, batches, buffer);
      buffer := buffer + [RawRow(l.dataset, l.sid, read + 1, l.run, ZoneValues(records[read]))];
      read := read + 1;
      if |buffer| == batchSize {
        FlushFull(records, batchSize, l, read, batches, buffer);
        batches := batches + [RawBatch(read + 1 - |buffer|, buffer)];
        buffer := [];
      }
    }
    ReaderEnds(records, batchSize, l, read, batches, buffer);
    if buffer != [] {
      batches := batches + [RawBatch(read + 1 - |buffer|, buffer)];
    }
  }
}
