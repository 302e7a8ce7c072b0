/** The set-based quality queries over the raw rows of one source. */
module Quality {
  import opened Wrappers
  import opened Cells
  import opened Catalog
  import opened Batches
  import opened Lifecycle
  import opened Relational
  import opened Warehouse
  import opened Months
  import opened Duplicates

  datatype Details =
    | NoDetails
    | Unexpected(values: seq<(Cell, nat)>)
    | DuplicateDetails(excess: nat, groups: nat)

  datatype Measurement = Measurement(checked: nat, failed: nat, details: Details)

  /** The names of checks: the four that every catalogue has, and those of its conditions and domains. */
  datatype CheckName =
    | PickupOutsideMonth
    | UnknownPickupZone
    | UnknownDropoffZone
    | ExactDuplicates
    | OfCatalogue(name: string)

  /** One of the null, zero and negative checks: a condition on a single row. */
  datatype Condition = Condition(name: CheckName, holds: RawRow -> bool)

  /** One of the domain checks: a column and its documented values. */
  datatype Domain = Domain(name: CheckName, column: nat, allowed: set<Cell>)

  ghost predicate Bounded(ms: map<CheckName, Measurement>, n: nat) {
    forall name :: name in ms ==> ms[name].checked == n && ms[name].failed <= n
  }

  // ---------- one scan ----------

  function ConditionMap(conditions: seq<Condition>, rows: seq<RawRow>): map<CheckName, Measurement> {
    if conditions == [] then map[]
    else
      var c := conditions[|conditions| - 1];
      ConditionMap(conditions[..|conditions| - 1], rows)[c.name := Measurement(|rows|, CountIf(rows, c.holds), NoDetails)]
  }

  function ScalarMap(conditions: seq<Condition>, rows: seq<RawRow>, start: Date, end: Date): map<CheckName,
                     Measurement> {
    map[PickupOutsideMonth := Measurement(|rows|, CountIf(rows, (r: RawRow) => Outside(TripOf(r).pickup, start, end)), NoDetails)]
    + ConditionMap(conditions, rows)
  }

  lemma {:induction false} ConditionsBounded(conditions: seq<Condition>, rows: seq<RawRow>)
    ensures Bounded(ConditionMap(conditions, rows), |rows|)
  {
    if conditions != [] {
      ConditionsBounded(conditions[..|conditions| - 1], rows);
      CountIfBounded(rows, conditions[|conditions| - 1].holds);
    }
  }

  lemma ScalarBounded(conditions: seq<Condition>, rows: seq<RawRow>, start: Date, end: Date)
    ensures Bounded(ScalarMap(conditions, rows, start, end), |rows|)
  {
    ConditionsBounded(conditions, rows);
    CountIfBounded(rows, (r: RawRow) => Outside(TripOf(r).pickup, start, end));
  }

  // ---------- domains ----------

  function CellAt(values: Row, column: nat): Cell {
    if column < |values| then values[column] else Null
  }

  /** Neither null nor documented. */
  predicate IsUnexpected(d: Domain, r: RawRow) {
    CellAt(r.values, d.column) != Null && CellAt(r.values, d.column) !in d.allowed
  }

  /** The grouped query: the unexpected values with their counts. */
  function UnexpectedValues(d: Domain, rows: seq<RawRow>): seq<(Cell, nat)> {
    GroupBy(KeysIf(rows, (r: RawRow) => IsUnexpected(d, r), (r: RawRow) => CellAt(r.values, d.column)))
  }

  function DomainMeasurement(d: Domain, rows: seq<RawRow>, checked: nat): Measurement {
    Measurement(checked, Total(UnexpectedValues(d, rows)), Unexpected(UnexpectedValues(d, rows)))
  }

  function DomainMap(domains: seq<Domain>, rows: seq<RawRow>, checked: nat): map<CheckName, Measurement> {
    if domains == [] then map[]
    else
      var d := domains[|domains| - 1];
      DomainMap(domains[..|domains| - 1], rows, checked)[d.name := DomainMeasurement(d, rows, checked)]
  }

  method DomainMeasurements(domains: seq<Domain>, rows: seq<RawRow>,
                            checked: nat) returns (ms: map<CheckName, Measurement>)
    ensures ms == DomainMap(domains, rows, checked)
  {
    ms := map[];
    for k := 0 to |domains|
      invariant ms == DomainMap(domains[..k], rows, checked)
    {
      assert domains[..k + 1][..k] == domains[..k];
      var unexpected := UnexpectedValues(domains[k], rows);
      var failed := 0;
      for i := 0 to |unexpected|
        invariant failed == Total(unexpected[..i])
      {
        assert unexpected[..i + 1][..i] == unexpected[..i];
        failed := failed + unexpected[i].1;
      }
      assert unexpected[..|unexpected|] == unexpected;
      ms := ms[domains[k].name := Measurement(checked, failed, Unexpected(unexpected))];
    }
    assert domains[..|domains|] == domains;
  }

  /** The grouped counts of a domain check sum to the plain filtered count. */
  lemma DomainCountIsFilter(d: Domain, rows: seq<RawRow>, checked: nat)
    ensures DomainMeasurement(d, rows, checked).failed == CountIf(rows, (r: RawRow) => IsUnexpected(d, r))
  {
    var p := (r: RawRow) => IsUnexpected(d, r);
    var key := (r: RawRow) => CellAt(r.values, d.column);
    GroupsConserve(KeysIf(rows, p, key));
    KeysIfLength(rows, p, key);
  }

  lemma {:induction false} DomainsBounded(domains: seq<Domain>, rows: seq<RawRow>)
    ensures Bounded(DomainMap(domains, rows, |rows|), |rows|)
  {
    if domains != [] {
      var d := domains[|domains| - 1];
      DomainsBounded(domains[..|domains| - 1], rows);
      DomainCountIsFilter(d, rows, |rows|);
      CountIfBounded(rows, (r: RawRow) => IsUnexpected(d, r));
    }
  }

  // ---------- zones ----------

  /** A trip row with the zone rows the two outer joins attached. */
  datatype Zoned = Zoned(row: RawRow, pickupZone: Option<RawRow>, dropoffZone: Option<RawRow>)

  predicate IsZone(z: RawRow, zoneSid: nat, location: Option<int>) {
    z.dataset == TaxiZoneLookup && z.sid == zoneSid && SqlEq(location, Location(z))
  }

  function PickupJoin(ws: seq<Zoned>, raw: seq<RawRow>, zoneSid: nat): seq<Zoned> {
    LeftJoin(ws, raw, (w: Zoned, z: RawRow) => IsZone(z, zoneSid, TripOf(w.row).pickupLocation),
             (w: Zoned, z: Option<RawRow>) => w.(pickupZone := z))
  }

  function DropoffJoin(ws: seq<Zoned>, raw: seq<RawRow>, zoneSid: nat): seq<Zoned> {
    LeftJoin(ws, raw, (w: Zoned, z: RawRow) => IsZone(z, zoneSid, TripOf(w.row).dropoffLocation),
             (w: Zoned, z: Option<RawRow>) => w.(dropoffZone := z))
  }

  function BareRows(rows: seq<RawRow>): seq<Zoned> {
    seq(|rows|, i requires 0 <= i < |rows| => Zoned(rows[i], None, None))
  }

  function ZoneJoin(rows: seq<RawRow>, raw: seq<RawRow>, zoneSid: nat): seq<Zoned> {
    DropoffJoin(PickupJoin(BareRows(rows), raw, zoneSid), raw, zoneSid)
  }

  function UnknownPickups(rows: seq<RawRow>, raw: seq<RawRow>, zoneSid: nat): nat {
    CountIf(ZoneJoin(rows, raw, zoneSid), (w: Zoned) => TripOf(w.row).pickupLocation.Some? && w.pickupZone.None?)
  }

  function UnknownDropoffs(rows: seq<RawRow>, raw: seq<RawRow>, zoneSid: nat): nat {
    CountIf(ZoneJoin(rows, raw, zoneSid), (w: Zoned) => TripOf(w.row).dropoffLocation.Some? && w.dropoffZone.None?)
  }

  /** The location ids of one zone version. */
  function ZoneIds(raw: seq<RawRow>, zoneSid: nat): set<int> {
    set z | z in raw && z.dataset == TaxiZoneLookup && z.sid == zoneSid && Location(z).Some? :: Location(z).value
  }

  ghost function FoundIn(raw: seq<RawRow>, zoneSid: nat, location: Option<int>): (z: Option<RawRow>)
    ensures z.Some? ==> z.value in raw && IsZone(z.value, zoneSid, location)
    ensures z.None? ==> forall i :: 0 <= i < |raw| ==> !IsZone(raw[i], zoneSid, location)
    ensures z.Some? <==> location.Some? && location.value in ZoneIds(raw, zoneSid)
  {
    if k :| 0 <= k < |raw| && IsZone(raw[k], zoneSid, location) then Some(raw[k]) else None
  }

  lemma ZoneHitsOnce(w: Zoned, raw: seq<RawRow>, zoneSid: nat, location: Option<int>, on: (Zoned, RawRow) -> bool)
    requires NoClash(raw) && forall z :: on(w, z) == IsZone(z, zoneSid, location)
    ensures AtMostOneHit(w, raw, on) && Finds(w, raw, on, FoundIn(raw, zoneSid, location))
  {
    forall i, j | 0 <= i < |raw| && 0 <= j < |raw| && on(w, raw[i]) && on(w, raw[j])
      ensures i == j
    {
      assert Clash(raw[i], raw[j]) && Clash(raw[j], raw[i]);
    }
  }

  ghost function WithZoneRows(r: RawRow, raw: seq<RawRow>, zoneSid: nat): Zoned {
    Zoned(r, FoundIn(raw, zoneSid, TripOf(r).pickupLocation), FoundIn(raw, zoneSid, TripOf(r).dropoffLocation))
  }

  lemma PickupJoinKeepsGrain(ws: seq<Zoned>, raw: seq<RawRow>, zoneSid: nat)
    requires NoClash(raw)
    ensures |PickupJoin(ws, raw, zoneSid)| == |ws|
    ensures forall k :: 0 <= k < |ws| ==>
      PickupJoin(ws, raw, zoneSid)[k] == ws[k].(pickupZone := FoundIn(raw, zoneSid, TripOf(ws[k].row).pickupLocation))
  {
    var on := (w: Zoned, z: RawRow) => IsZone(z, zoneSid, TripOf(w.row).pickupLocation);
    var put := (w: Zoned, z: Option<RawRow>) => w.(pickupZone := z);
    forall k | 0 <= k < |ws| {
      ZoneHitsOnce(ws[k], raw, zoneSid, TripOf(ws[k].row).pickupLocation, on);
    }
    LeftJoinKeepsGrain(ws, raw, on, put,
      seq(|ws|, k requires 0 <= k < |ws| => FoundIn(raw, zoneSid, TripOf(ws[k].row).pickupLocation)));
  }

  lemma DropoffJoinKeepsGrain(ws: seq<Zoned>, raw: seq<RawRow>, zoneSid: nat)
    requires NoClash(raw)
    ensures |DropoffJoin(ws, raw, zoneSid)| == |ws|
    ensures forall k :: 0 <= k < |ws| ==>
      DropoffJoin(ws, raw, zoneSid)[k] == ws[k].(dropoffZone := FoundIn(raw, zoneSid, TripOf(ws[k].row).dropoffLocation))
  {
    var on := (w: Zoned, z: RawRow) => IsZone(z, zoneSid, TripOf(w.row).dropoffLocation);
    var put := (w: Zoned, z: Option<RawRow>) => w.(dropoffZone := z);
    forall k | 0 <= k < |ws| {
      ZoneHitsOnce(ws[k], raw, zoneSid, TripOf(ws[k].row).dropoffLocation, on);
    }
    LeftJoinKeepsGrain(ws, raw, on, put,
      seq(|ws|, k requires 0 <= k < |ws| => FoundIn(raw, zoneSid, TripOf(ws[k].row).dropoffLocation)));
  }

  /** The two outer joins of the zone check do not fan out. */
  lemma ZoneJoinKeepsGrain(rows: seq<RawRow>, raw: seq<RawRow>, zoneSid: nat)
    requires NoClash(raw)
    ensures |ZoneJoin(rows, raw, zoneSid)| == |rows|
    ensures forall k :: 0 <= k < |rows| ==> ZoneJoin(rows, raw, zoneSid)[k] == WithZoneRows(rows[k], raw, zoneSid)
  {
    PickupJoinKeepsGrain(BareRows(rows), raw, zoneSid);
    DropoffJoinKeepsGrain(PickupJoin(BareRows(rows), raw, zoneSid), raw, zoneSid);
  }

  /** The zone check counts exactly the rows whose location is known but missing from the version. */
  lemma UnknownZonesCount(rows: seq<RawRow>, raw: seq<RawRow>, zoneSid: nat)
    requires NoClash(raw)
    ensures UnknownPickups(rows, raw, zoneSid) == CountIf(rows, (r: RawRow) =>
      TripOf(r).pickupLocation.Some? && TripOf(r).pickupLocation.value !in ZoneIds(raw, zoneSid))
    ensures UnknownDropoffs(rows, raw, zoneSid) == CountIf(rows, (r: RawRow) =>
      TripOf(r).dropoffLocation.Some? && TripOf(r).dropoffLocation.value !in ZoneIds(raw, zoneSid))
  {
    ZoneJoinKeepsGrain(rows, raw, zoneSid);
    var joined := ZoneJoin(rows, raw, zoneSid);
    CountIfSame(joined, (w: Zoned) => TripOf(w.row).pickupLocation.Some? && w.pickupZone.None?, rows, (r: RawRow) =>
      TripOf(r).pickupLocation.Some? && TripOf(r).pickupLocation.value !in ZoneIds(raw, zoneSid));
    CountIfSame(joined, (w: Zoned) => TripOf(w.row).dropoffLocation.Some? && w.dropoffZone.None?, rows, (r: RawRow) =>
      TripOf(r).dropoffLocation.Some? && TripOf(r).dropoffLocation.value !in ZoneIds(raw, zoneSid));
  }

  function ZoneMap(rows: seq<RawRow>, raw: seq<RawRow>, zoneSid: nat, checked: nat): map<CheckName, Measurement> {
    map[UnknownPickupZone := Measurement(checked, UnknownPickups(rows, raw, zoneSid), NoDetails),
        UnknownDropoffZone := Measurement(checked, UnknownDropoffs(rows, raw, zoneSid), NoDetails)]
  }

  lemma ZonesBounded(rows: seq<RawRow>, raw: seq<RawRow>, zoneSid: nat)
    requires NoClash(raw)
    ensures Bounded(ZoneMap(rows, raw, zoneSid, |rows|), |rows|)
  {
    ZoneJoinKeepsGrain(rows, raw, zoneSid);
    CountIfBounded(ZoneJoin(rows, raw, zoneSid), (w: Zoned) => TripOf(w.row).pickupLocation.Some? && w.pickupZone.None?);
    CountIfBounded(ZoneJoin(rows, raw, zoneSid), (w: Zoned) => TripOf(w.row).dropoffLocation.Some? && w.dropoffZone.None?);
  }

  // ---------- duplicates ----------

  function ValuesOfRows(rows: seq<RawRow>): seq<Row> {
    seq(|rows|, i requires 0 <= i < |rows| => rows[i].values)
  }

  function DuplicateMeasurement(rows: seq<RawRow>, checked: nat): Measurement {
    var (participating, excess, groups) := SqlDuplicates(ValuesOfRows(rows));
    Measurement(checked, participating, DuplicateDetails(excess, groups))
  }

  lemma DuplicatesBounded(rows: seq<RawRow>)
    ensures DuplicateMeasurement(rows, |rows|).failed <= |rows|
  {
    var m := multiset(NormalRows(ValuesOfRows(rows)));
    ParticipatingBounded(m);
    var excess := |m| - |Values(m)|;
    SqlDuplicatesCount(ValuesOfRows(rows), Profile(|m|, |Values(m)|, excess + |Repeated(m)|, excess, |Repeated(m)|));
  }

  /** There are at least as many distinct rows as repeated ones, and no more than rows. */
  lemma ParticipatingBounded<T>(m: multiset<T>)
    ensures |Repeated(m)| <= |Values(m)| <= |m|
  {
    SubsetCard(Repeated(m), Values(m));
    ValuesCard(m);
  }

  lemma {:induction false} SubsetCard<T>(a: set<T>, b: set<T>)
    requires a <= b
    ensures |a| <= |b|
    decreases |a|
  {
    if a != {} {
      var x :| x in a;
      SubsetCard(a - {x}, b - {x});
    }
  }

  lemma {:induction false} ValuesCard<T>(m: multiset<T>)
    ensures |Values(m)| <= |m|
    decreases |m|
  {
    if m == multiset{} {
      assert Values(m) == {};
    } else {
      var x :| x in m;
      ValuesCard(m - multiset{x});
      assert m - multiset{x} + multiset{x} == m;
      ValuesOf(m - multiset{x}, x);
    }
  }
}
