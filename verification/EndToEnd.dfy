/** From the file to the warehouse: what a loaded source's rows mean downstream. */
module EndToEnd {
  import opened Wrappers
  import opened Cells
  import opened Columns
  import opened Catalog
  import opened Batches
  import opened Warehouse
  import opened Duplicates
  import opened Quality

  /** A named column of a loaded row is the file's column of that name at that row, or null when the
      file does not have it. */
  lemma {:induction false} ColumnReadsFile(file: ParquetFile, names: seq<ColumnName>, row: nat, name: ColumnName)
    requires file.Valid() && row < file.count && name in names
    ensures Column(names, file.Rows(names)[row], name) == file.At(name, row)
  {
    var values := file.Rows(names)[row];
    if names[0] != name {
      assert values[1..] == file.Rows(names[1..])[row];
      ColumnReadsFile(file, names[1..], row, name);
    }
  }

  /** What staging should make of row `k` of a loaded file: every canonical column comes from the file's
      column of the corresponding name. */
  ghost predicate ReadsFile(trip: Trip, file: ParquetFile, k: nat, service: Service, pickup: ColumnName,
                            dropoff: ColumnName)
    requires file.Valid() && k < file.count
  {
    && trip.service == service
    && trip.vendor == AsInt(file.At(VendorID, k)) && trip.rateCode == AsInt(file.At(RatecodeID, k))
    && trip.pickupLocation == AsInt(file.At(PULocationID, k))
    && trip.dropoffLocation == AsInt(file.At(DOLocationID, k))
    && trip.pickup == AsStamp(file.At(pickup, k)) && trip.dropoff == AsStamp(file.At(dropoff, k))
    && trip.payment == AsInt(file.At(PaymentType, k))
    && trip.tripType == (if service == Yellow then None else AsInt(file.At(TripType, k)))
  }

  lemma TripReadsFile(file: ParquetFile, r: RawRow, names: seq<ColumnName>, k: nat, service: Service,
                      pickup: ColumnName, dropoff: ColumnName)
    requires file.Valid() && k < file.count && r.values == file.Rows(names)[k]
    requires VendorID in names && RatecodeID in names && PULocationID in names && DOLocationID in names
    requires PaymentType in names && pickup in names && dropoff in names && (service == Green ==> TripType in names)
    ensures ReadsFile(TripFrom(r, names, service, pickup, dropoff), file, k, service, pickup, dropoff)
  {
    ColumnReadsFile(file, names, k, VendorID);
    ColumnReadsFile(file, names, k, RatecodeID);
    ColumnReadsFile(file, names, k, PULocationID);
    ColumnReadsFile(file, names, k, DOLocationID);
    ColumnReadsFile(file, names, k, PaymentType);
    ColumnReadsFile(file, names, k, pickup);
    ColumnReadsFile(file, names, k, dropoff);
    if service == Green {
      ColumnReadsFile(file, names, k, TripType);
    }
  }

  lemma YellowHasColumns(names: seq<ColumnName>)
    requires names == YELLOW_COLUMNS
    ensures VendorID in names && RatecodeID in names && PULocationID in names && DOLocationID in names
    ensures PaymentType in names && TpepPickup in names && TpepDropoff in names
  {
    assert names[0] == VendorID && names[5] == RatecodeID && names[7] == PULocationID;
    assert names[8] == DOLocationID && names[9] == PaymentType && names[1] == TpepPickup && names[2] == TpepDropoff;
  }

  lemma GreenHasColumns(names: seq<ColumnName>)
    requires names == GREEN_COLUMNS
    ensures VendorID in names && RatecodeID in names && PULocationID in names && DOLocationID in names
    ensures PaymentType in names && LpepPickup in names && LpepDropoff in names && TripType in names
  {
    assert names[0] == VendorID && names[4] == RatecodeID && names[5] == PULocationID;
    assert names[6] == DOLocationID && names[17] == PaymentType && names[1] == LpepPickup;
    assert names[2] == LpepDropoff && names[18] == TripType;
  }

  /** The trip that staging reads from row `k` of a loaded yellow file, whatever the column order of the
      raw table, with the lineage of its load. */
  lemma YellowTripReadsFile(file: ParquetFile, l: Lineage, k: nat)
    requires file.Valid() && k < file.count && l.dataset == YellowTripdata
    ensures
      var trip := TripOf(Numbered(l, 1, file.Rows(YELLOW_COLUMNS))[k]);
      && ReadsFile(trip, file, k, Yellow, TpepPickup, TpepDropoff)
      && trip.sid == l.sid && trip.number == k + 1 && trip.run == l.run
  {
    YellowHasColumns(YELLOW_COLUMNS);
    TripReadsFile(file, Numbered(l, 1, file.Rows(YELLOW_COLUMNS))[k], YELLOW_COLUMNS, k, Yellow, TpepPickup, TpepDropoff);
  }

  /** The same for green, whose raw table has another column order. */
  lemma GreenTripReadsFile(file: ParquetFile, l: Lineage, k: nat)
    requires file.Valid() && k < file.count && l.dataset == GreenTripdata
    ensures
      var trip := TripOf(Numbered(l, 1, file.Rows(GREEN_COLUMNS))[k]);
      && ReadsFile(trip, file, k, Green, LpepPickup, LpepDropoff)
      && trip.sid == l.sid && trip.number == k + 1 && trip.run == l.run
  {
    GreenHasColumns(GREEN_COLUMNS);
    TripReadsFile(file, Numbered(l, 1, file.Rows(GREEN_COLUMNS))[k], GREEN_COLUMNS, k, Green, LpepPickup, LpepDropoff);
  }

  /** Row for row, staging makes of these raw rows what the file says. */
  ghost predicate TripsReadFile(rows: seq<RawRow>, file: ParquetFile, service: Service, pickup: ColumnName,
                                dropoff: ColumnName)
    requires file.Valid()
  {
    |rows| == file.count && forall k :: 0 <= k < file.count ==> ReadsFile(TripOf(rows[k]), file, k, service, pickup, dropoff)
  }

  /** Row for row, these raw rows hold the id, borough, zone and service zone of the lookup. */
  ghost predicate ZonesReadLookup(rows: seq<RawRow>, records: seq<ZoneRecord>) {
    && |rows| == |records|
    && forall k :: 0 <= k < |records| ==>
         && records[k].locationId.Some? && |rows[k].values| == 4
         && rows[k].values[0] == Int(records[k].locationId.value) && rows[k].values[1] == Text(records[k].borough)
         && rows[k].values[2] == Text(records[k].zone) && rows[k].values[3] == Text(records[k].serviceZone)
  }

  lemma YellowTripsReadFile(file: ParquetFile, l: Lineage)
    requires file.Valid() && l.dataset == YellowTripdata
    ensures TripsReadFile(Numbered(l, 1, file.Rows(YELLOW_COLUMNS)), file, Yellow, TpepPickup, TpepDropoff)
  {
    forall k | 0 <= k < file.count
      ensures ReadsFile(TripOf(Numbered(l, 1, file.Rows(YELLOW_COLUMNS))[k]), file, k, Yellow, TpepPickup, TpepDropoff)
    {
      YellowTripReadsFile(file, l, k);
    }
  }

  lemma GreenTripsReadFile(file: ParquetFile, l: Lineage)
    requires file.Valid() && l.dataset == GreenTripdata
    ensures TripsReadFile(Numbered(l, 1, file.Rows(GREEN_COLUMNS)), file, Green, LpepPickup, LpepDropoff)
  {
    forall k | 0 <= k < file.count
      ensures ReadsFile(TripOf(Numbered(l, 1, file.Rows(GREEN_COLUMNS))[k]), file, k, Green, LpepPickup, LpepDropoff)
    {
      GreenTripReadsFile(file, l, k);
    }
  }

  /** The profiled columns all have a column in the table, and the table's others are absent from the file. */
  predicate Covered(file: ParquetFile, profiled: seq<ColumnName>, table: seq<ColumnName>) {
    && (forall name :: name in profiled ==> name in table)
    && (forall name :: name in table ==> name in profiled || name !in file.columns)
  }

  lemma SameRow(file: ParquetFile, names: seq<ColumnName>, i: nat, j: nat)
    requires file.Valid() && i < file.count && j < file.count
    ensures NormalRow(file.Rows(names)[i]) == NormalRow(file.Rows(names)[j])
       <==> forall name :: name in names ==> Normal(file.At(name, i)) == Normal(file.At(name, j))
  {
    var x, y := NormalRow(file.Rows(names)[i]), NormalRow(file.Rows(names)[j]);
    assert |x| == |y| == |names|;
    assert forall c :: 0 <= c < |names| ==> x[c] == Normal(file.At(names[c], i)) && y[c] == Normal(file.At(names[c], j));
    if x == y {
      forall name | name in names
        ensures Normal(file.At(name, i)) == Normal(file.At(name, j))
      {
        var c :| 0 <= c < |names| && names[c] == name;
        assert x[c] == y[c];
      }
    }
    if forall name :: name in names ==> Normal(file.At(name, i)) == Normal(file.At(name, j)) {
      assert forall c :: 0 <= c < |names| ==> names[c] in names && x[c] == y[c];
    }
  }

  /** Two rows are equal over the file's columns exactly when they are equal over the table's, whatever the
      order of the columns and whichever of them are padded. */
  lemma PaddingKeepsPattern(file: ParquetFile, profiled: seq<ColumnName>, table: seq<ColumnName>)
    requires file.Valid() && Covered(file, profiled, table)
    ensures SamePattern(NormalRows(file.Rows(profiled)), NormalRows(file.Rows(table)))
  {
    forall i, j | 0 <= i < file.count && 0 <= j < file.count
      ensures NormalRow(file.Rows(profiled)[i]) == NormalRow(file.Rows(profiled)[j])
         <==> NormalRow(file.Rows(table)[i]) == NormalRow(file.Rows(table)[j])
    {
      SameRow(file, profiled, i, j);
      SameRow(file, table, i, j);
    }
  }

  /** The duplicate profile of a file and the SQL check over the raw rows loaded from it agree, with or
      without padded columns. */
  lemma ProfileOfLoadedFile(file: ParquetFile, profiled: seq<ColumnName>, table: seq<ColumnName>, l: Lineage,
                            p: Profile)
    requires file.Valid() && Covered(file, profiled, table)
    requires Counts(multiset(NormalRows(file.Rows(profiled))), p)
    ensures SqlDuplicates(ValuesOfRows(Numbered(l, 1, file.Rows(table)))) == (p.participating, p.excess, p.groups)
  {
    PaddingKeepsPattern(file, profiled, table);
    assert ValuesOfRows(Numbered(l, 1, file.Rows(table))) == file.Rows(table);
    ProfileAgreesWithSql(file.Rows(profiled), file.Rows(table), p);
  }
}
