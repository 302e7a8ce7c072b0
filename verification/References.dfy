/** The zone reference profile of a trip file, and its agreement with the SQL zone check. */
module References {
  import opened Wrappers
  import opened Batches
  import opened Lifecycle
  import opened Relational
  import opened Warehouse
  import opened Quality

  /** The counts of one location column against the known zone ids. The unmatched ids are listed with
      their counts, in order of first appearance. */
  datatype ZoneReference = ZoneReference(total: nat, nulls: nat, matched: nat, unmatched: int, unmatchedIds: seq<(int, nat)>)

  /** The values that are not null, in order. */
  function Known(column: seq<Option<int>>): seq<int> {
    if column == [] then []
    else
      var last := column[|column| - 1];
      Known(column[..|column| - 1]) + if last.Some? then [last.value] else []
  }

  function ZoneReferenceProfile(column: seq<Option<int>>, valid: set<int>): ZoneReference {
    var known := Known(column);
    var counts := GroupBy(known);
    var matched := Total(Where(counts, (id: int) => id in valid));
    KnownAtMost(column);
    ZoneReference(|column|, |column| - |known|, matched, |known| - matched, Where(counts, (id: int) => id !in valid))
  }

  lemma {:induction false} KnownAtMost(column: seq<Option<int>>)
    ensures |Known(column)| <= |column|
  {
    if column != [] {
      KnownAtMost(column[..|column| - 1]);
    }
  }

  lemma {:induction false} KnownCount(column: seq<Option<int>>, p: int -> bool, q: Option<int> -> bool)
    requires forall o: Option<int> :: q(o) == (o.Some? && p(o.value))
    ensures CountIf(Known(column), p) == CountIf(column, q)
  {
    if column != [] {
      var n := |column| - 1;
      KnownCount(column[..n], p, q);
      CountIfAppend(Known(column[..n]), if column[n].Some? then [column[n].value] else [], p);
    }
  }

  /** What is not matched is listed: the listed counts sum to the unmatched count, which is that of the
      values that are known but not a zone. */
  lemma UnmatchedAreListed(column: seq<Option<int>>, valid: set<int>)
    ensures
      var profile := ZoneReferenceProfile(column, valid);
      && profile.total == |column| && profile.nulls == CountIf(column, (o: Option<int>) => o.None?)
      && profile.unmatched == Total(profile.unmatchedIds)
      && profile.unmatched == CountIf(column, (o: Option<int>) => o.Some? && o.value !in valid)
      && profile.matched == CountIf(column, (o: Option<int>) => o.Some? && o.value in valid)
  {
    var known := Known(column);
    var matches, misses := (id: int) => id in valid, (id: int) => id !in valid;
    WhereTotal(known, matches);
    WhereTotal(known, misses);
    CountIfSplits(known, matches, misses);
    KnownCount(column, misses, (o: Option<int>) => o.Some? && o.value !in valid);
    KnownCount(column, (id: int) => true, (o: Option<int>) => o.Some?);
    CountIfUniform(known, (id: int) => true, true);
    CountIfSplits(column, (o: Option<int>) => o.Some?, (o: Option<int>) => o.None?);
    KnownCount(column, matches, (o: Option<int>) => o.Some? && o.value in valid);
  }

  function PickupLocations(rows: seq<RawRow>): seq<Option<int>> {
    seq(|rows|, i requires 0 <= i < |rows| => TripOf(rows[i]).pickupLocation)
  }

  function DropoffLocations(rows: seq<RawRow>): seq<Option<int>> {
    seq(|rows|, i requires 0 <= i < |rows| => TripOf(rows[i]).dropoffLocation)
  }

  /** Profiling the location columns against a zone version finds as many unmatched rows as the two
      outer joins of the SQL check. */
  lemma ReferenceAgreesWithSql(rows: seq<RawRow>, raw: seq<RawRow>, zoneSid: nat)
    requires NoClash(raw)
    ensures ZoneReferenceProfile(PickupLocations(rows), ZoneIds(raw, zoneSid)).unmatched == UnknownPickups(rows, raw, zoneSid)
    ensures ZoneReferenceProfile(DropoffLocations(rows), ZoneIds(raw, zoneSid)).unmatched == UnknownDropoffs(rows, raw, zoneSid)
  {
    var valid := ZoneIds(raw, zoneSid);
    UnknownZonesCount(rows, raw, zoneSid);
    UnmatchedAreListed(PickupLocations(rows), valid);
    UnmatchedAreListed(DropoffLocations(rows), valid);
    var miss := (o: Option<int>) => o.Some? && o.value !in valid;
    CountIfSame(PickupLocations(rows), miss, rows, (r: RawRow) =>
      TripOf(r).pickupLocation.Some? && TripOf(r).pickupLocation.value !in valid);
    CountIfSame(DropoffLocations(rows), miss, rows, (r: RawRow) =>
      TripOf(r).dropoffLocation.Some? && TripOf(r).dropoffLocation.value !in valid);
  }
}
