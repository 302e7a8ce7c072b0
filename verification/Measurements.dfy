/** What each measurement of an evaluation counts, in terms of the raw rows alone. */
module Measurements {
  import opened Wrappers
  import opened Cells
  import opened Catalog
  import opened Batches
  import opened Lifecycle
  import opened Relational
  import opened Warehouse
  import opened Months
  import opened Duplicates
  import opened Quality
  import opened Evaluator

  type Checks = map<CheckName, Measurement>

  predicate ReservedName(name: CheckName) {
    !name.OfCatalogue?
  }

  /** No two checks of the catalogue have the same name. */
  predicate NamesDiffer(cat: Catalogue) {
    && (forall i :: 0 <= i < |cat.conditions| ==> !ReservedName(cat.conditions[i].name))
    && (forall i :: 0 <= i < |cat.domains| ==> !ReservedName(cat.domains[i].name))
    && (forall i, j :: 0 <= i < j < |cat.conditions| ==> cat.conditions[i].name != cat.conditions[j].name)
    && (forall i, j :: 0 <= i < j < |cat.domains| ==> cat.domains[i].name != cat.domains[j].name)
    && (forall i, j :: 0 <= i < |cat.conditions| && 0 <= j < |cat.domains| ==> cat.conditions[i].name != cat.domains[j].name)
  }

  // ---------- the names in the partial results ----------

  lemma {:induction false} ConditionKeys(conditions: seq<Condition>, rows: seq<RawRow>, name: CheckName)
    ensures name in ConditionMap(conditions, rows) ==> exists i :: 0 <= i < |conditions| && conditions[i].name == name
  {
    if conditions != [] {
      var n := |conditions| - 1;
      ConditionKeys(conditions[..n], rows, name);
      assert forall i :: 0 <= i < n ==> conditions[..n][i] == conditions[i];
    }
  }

  lemma {:induction false} DomainKeys(domains: seq<Domain>, rows: seq<RawRow>, checked: nat, name: CheckName)
    ensures name in DomainMap(domains, rows, checked) ==> exists i :: 0 <= i < |domains| && domains[i].name == name
  {
    if domains != [] {
      var n := |domains| - 1;
      DomainKeys(domains[..n], rows, checked, name);
      assert forall i :: 0 <= i < n ==> domains[..n][i] == domains[i];
    }
  }

  lemma {:induction false} ConditionAt(conditions: seq<Condition>, rows: seq<RawRow>, i: nat)
    requires i < |conditions|
    requires forall j, k :: 0 <= j < k < |conditions| ==> conditions[j].name != conditions[k].name
    ensures conditions[i].name in ConditionMap(conditions, rows)
    ensures ConditionMap(conditions, rows)[conditions[i].name]
         == Measurement(|rows|, CountIf(rows, conditions[i].holds), NoDetails)
  {
    var n := |conditions| - 1;
    if i < n {
      ConditionAt(conditions[..n], rows, i);
    }
  }

  lemma {:induction false} DomainAt(domains: seq<Domain>, rows: seq<RawRow>, checked: nat, i: nat)
    requires i < |domains|
    requires forall j, k :: 0 <= j < k < |domains| ==> domains[j].name != domains[k].name
    ensures domains[i].name in DomainMap(domains, rows, checked)
    ensures DomainMap(domains, rows, checked)[domains[i].name] == DomainMeasurement(domains[i], rows, checked)
  {
    var n := |domains| - 1;
    if i < n {
      DomainAt(domains[..n], rows, checked, i);
    }
  }

  // ---------- the parts of the result ----------

  lemma FromScalar(a: Checks, b: Checks, c: Checks, d: Checks, name: CheckName)
    requires name in a && name !in b && name !in c && name !in d
    ensures name in a + b + c + d && (a + b + c + d)[name] == a[name]
  {
  }

  lemma FromDomains(a: Checks, b: Checks, c: Checks, d: Checks, name: CheckName)
    requires name in b && name !in c && name !in d
    ensures name in a + b + c + d && (a + b + c + d)[name] == b[name]
  {
  }

  lemma FromZones(a: Checks, b: Checks, c: Checks, d: Checks, name: CheckName)
    requires name in c && name !in d
    ensures name in a + b + c + d && (a + b + c + d)[name] == c[name]
  {
  }

  ghost predicate Has(ms: Checks, name: CheckName, m: Measurement) {
    name in ms && ms[name] == m
  }

  /** A name that is neither of the zone checks nor of the duplicate check is not in their parts. */
  lemma NotInLastParts(rows: seq<RawRow>, raw: seq<RawRow>, zoneSid: nat, name: CheckName)
    requires name == PickupOutsideMonth || name.OfCatalogue?
    ensures name !in ZoneMap(rows, raw, zoneSid, |rows|)
    ensures name !in map[ExactDuplicates := DuplicateMeasurement(rows, |rows|)]
  {
  }

  lemma ScalarPart(cat: Catalogue, rows: seq<RawRow>, raw: seq<RawRow>, zoneSid: nat, start: Date, end: Date,
                   name: CheckName, m: Measurement)
    requires Has(ScalarMap(cat.conditions, rows, start, end), name, m) && name !in DomainMap(cat.domains, rows, |rows|)
    requires name == PickupOutsideMonth || name.OfCatalogue?
    ensures Has(Measured(cat, rows, raw, zoneSid, start, end), name, m)
  {
    NotInLastParts(rows, raw, zoneSid, name);
    FromScalar(ScalarMap(cat.conditions, rows, start, end), DomainMap(cat.domains, rows, |rows|),
               ZoneMap(rows, raw, zoneSid, |rows|), map[ExactDuplicates := DuplicateMeasurement(rows, |rows|)], name);
  }

  lemma DomainPart(cat: Catalogue, rows: seq<RawRow>, raw: seq<RawRow>, zoneSid: nat, start: Date, end: Date,
                   name: CheckName, m: Measurement)
    requires Has(DomainMap(cat.domains, rows, |rows|), name, m) && name.OfCatalogue?
    ensures Has(Measured(cat, rows, raw, zoneSid, start, end), name, m)
  {
    NotInLastParts(rows, raw, zoneSid, name);
    FromDomains(ScalarMap(cat.conditions, rows, start, end), DomainMap(cat.domains, rows, |rows|),
                ZoneMap(rows, raw, zoneSid, |rows|), map[ExactDuplicates := DuplicateMeasurement(rows, |rows|)], name);
  }

  lemma ZonePart(cat: Catalogue, rows: seq<RawRow>, raw: seq<RawRow>, zoneSid: nat, start: Date, end: Date,
                 name: CheckName, m: Measurement)
    requires Has(ZoneMap(rows, raw, zoneSid, |rows|), name, m) && name != ExactDuplicates
    ensures Has(Measured(cat, rows, raw, zoneSid, start, end), name, m)
  {
    FromZones(ScalarMap(cat.conditions, rows, start, end), DomainMap(cat.domains, rows, |rows|),
              ZoneMap(rows, raw, zoneSid, |rows|), map[ExactDuplicates := DuplicateMeasurement(rows, |rows|)], name);
  }

  // ---------- the checks ----------

  /** The pickup check fails for the rows whose known pickup is in another year or month than the source. */
  lemma PickupMeasured(cat: Catalogue, rows: seq<RawRow>, raw: seq<RawRow>, zoneSid: nat, year: int, month: int)
    requires NamesDiffer(cat) && 1 <= year && 1 <= month <= 12 && End(year, month).Some?
    ensures
      var ms := Measured(cat, rows, raw, zoneSid, Start(year, month), End(year, month).value);
      PickupOutsideMonth in ms && ms[PickupOutsideMonth] == Measurement(|rows|, OutsideMonth(rows, year, month), NoDetails)
  {
    var start, end := Start(year, month), End(year, month).value;
    ConditionKeys(cat.conditions, rows, PickupOutsideMonth);
    DomainKeys(cat.domains, rows, |rows|, PickupOutsideMonth);
    OutsideIsOther(rows, year, month, start, end);
    ScalarPart(cat, rows, raw, zoneSid, start, end, PickupOutsideMonth,
               Measurement(|rows|, OutsideMonth(rows, year, month), NoDetails));
  }

  lemma OutsideIsOther(rows: seq<RawRow>, year: int, month: int, start: Date, end: Date)
    requires 1 <= year && 1 <= month <= 12 && End(year, month) == Some(end) && start == Start(year, month)
    ensures CountIf(rows, (r: RawRow) => Outside(TripOf(r).pickup, start, end)) == OutsideMonth(rows, year, month)
  {
    forall k | 0 <= k < |rows|
      ensures Outside(TripOf(rows[k]).pickup, start, end) == IsOtherMonth(TripOf(rows[k]).pickup, year, month)
    {
      OutsideMeansOtherMonth(TripOf(rows[k]).pickup, year, month);
    }
    CountIfSame(rows, (r: RawRow) => Outside(TripOf(r).pickup, start, end),
                rows, (r: RawRow) => IsOtherMonth(TripOf(r).pickup, year, month));
  }

  predicate IsOtherMonth(pickup: Option<Timestamp>, year: int, month: int) {
    pickup.Some? && (pickup.value.date.year != year || pickup.value.date.month != month)
  }

  function OutsideMonth(rows: seq<RawRow>, year: int, month: int): nat {
    CountIf(rows, (r: RawRow) => IsOtherMonth(TripOf(r).pickup, year, month))
  }

  /** Every condition of the catalogue fails for the rows it holds of. */
  lemma ConditionMeasured(cat: Catalogue, rows: seq<RawRow>, raw: seq<RawRow>, zoneSid: nat, start: Date, end: Date,
                          i: nat)
    requires NamesDiffer(cat) && i < |cat.conditions|
    ensures
      var ms := Measured(cat, rows, raw, zoneSid, start, end);
      var c := cat.conditions[i];
      c.name in ms && ms[c.name] == Measurement(|rows|, CountIf(rows, c.holds), NoDetails)
  {
    ConditionAt(cat.conditions, rows, i);
    DomainKeys(cat.domains, rows, |rows|, cat.conditions[i].name);
    ScalarPart(cat, rows, raw, zoneSid, start, end, cat.conditions[i].name,
               Measurement(|rows|, CountIf(rows, cat.conditions[i].holds), NoDetails));
  }

  /** A value that is neither null nor allowed stands in this column of the row. */
  predicate Violates(d: Domain, r: RawRow) {
    d.column < |r.values| && r.values[d.column] != Null && r.values[d.column] !in d.allowed
  }

  predicate HasValue(d: Domain, r: RawRow, value: Cell) {
    d.column < |r.values| && r.values[d.column] == value
  }

  /** Every listed value is one that violates the domain, with the number of rows that have it. */
  ghost predicate ListsViolations(d: Domain, rows: seq<RawRow>, values: seq<(Cell, nat)>) {
    && (forall i, j :: 0 <= i < |values| && 0 <= j < |values| && values[i].0 == values[j].0 ==> i == j)
    && (forall i :: 0 <= i < |values| ==>
          && values[i].0 != Null && values[i].0 !in d.allowed
          && values[i].1 == CountIf(rows, (r: RawRow) => HasValue(d, r, values[i].0)) > 0)
  }

  lemma {:induction false} UnexpectedKeys(d: Domain, rows: seq<RawRow>, value: Cell)
    ensures
      var keys := KeysIf(rows, (r: RawRow) => IsUnexpected(d, r), (r: RawRow) => CellAt(r.values, d.column));
      multiset(keys)[value]
      == if value != Null && value !in d.allowed then CountIf(rows, (r: RawRow) => HasValue(d, r, value)) else 0
  {
    var p := (r: RawRow) => IsUnexpected(d, r);
    var key := (r: RawRow) => CellAt(r.values, d.column);
    var q := (r: RawRow) => p(r) && key(r) == value;
    KeysIfCount(rows, p, key, value, q);
    if value != Null && value !in d.allowed {
      CountIfSame(rows, q, rows, (r: RawRow) => HasValue(d, r, value));
    } else {
      CountIfUniform(rows, q, false);
    }
  }

  lemma UnexpectedListed(d: Domain, rows: seq<RawRow>)
    ensures ListsViolations(d, rows, UnexpectedValues(d, rows))
  {
    var keys := KeysIf(rows, (r: RawRow) => IsUnexpected(d, r), (r: RawRow) => CellAt(r.values, d.column));
    GroupByLists(keys);
    var values := UnexpectedValues(d, rows);
    forall i | 0 <= i < |values|
      ensures values[i].0 != Null && values[i].0 !in d.allowed
      ensures values[i].1 == CountIf(rows, (r: RawRow) => HasValue(d, r, values[i].0)) > 0
    {
      UnexpectedKeys(d, rows, values[i].0);
    }
  }

  /** Every domain of the catalogue fails for the rows that violate it, and lists the violating values. */
  lemma DomainMeasured(cat: Catalogue, rows: seq<RawRow>, raw: seq<RawRow>, zoneSid: nat, start: Date, end: Date,
                       i: nat)
    requires NamesDiffer(cat) && i < |cat.domains|
    ensures
      var ms := Measured(cat, rows, raw, zoneSid, start, end);
      var d := cat.domains[i];
      && d.name in ms && ms[d.name].checked == |rows|
      && ms[d.name].failed == CountIf(rows, (r: RawRow) => Violates(d, r))
      && ms[d.name].details.Unexpected? && ListsViolations(d, rows, ms[d.name].details.values)
  {
    var d := cat.domains[i];
    DomainAt(cat.domains, rows, |rows|, i);
    DomainPart(cat, rows, raw, zoneSid, start, end, d.name, DomainMeasurement(d, rows, |rows|));
    DomainMeans(d, rows);
  }

  lemma DomainMeans(d: Domain, rows: seq<RawRow>)
    ensures DomainMeasurement(d, rows, |rows|).failed == CountIf(rows, (r: RawRow) => Violates(d, r))
    ensures ListsViolations(d, rows, UnexpectedValues(d, rows))
  {
    DomainCountIsFilter(d, rows, |rows|);
    CountIfSame(rows, (r: RawRow) => IsUnexpected(d, r), rows, (r: RawRow) => Violates(d, r));
    UnexpectedListed(d, rows);
  }

  /** The location is known, but no row of the zone version has it. */
  predicate IsUnknown(location: Option<int>, raw: seq<RawRow>, zoneSid: nat) {
    && location.Some?
    && forall i :: 0 <= i < |raw| && raw[i].dataset == TaxiZoneLookup && raw[i].sid == zoneSid ==> Location(raw[i]) != location
  }

  lemma UnknownIsMissing(location: Option<int>, raw: seq<RawRow>, zoneSid: nat)
    ensures IsUnknown(location, raw, zoneSid) <==> location.Some? && location.value !in ZoneIds(raw, zoneSid)
  {
    if location.Some? && location.value in ZoneIds(raw, zoneSid) {
      var z :| z in raw && z.dataset == TaxiZoneLookup && z.sid == zoneSid && Location(z) == location;
      var i :| 0 <= i < |raw| && raw[i] == z;
    } else {
      assert forall i :: 0 <= i < |raw| ==> raw[i] in raw;
    }
  }

  /** The two zone checks fail for the rows whose pickup, or dropoff, location is unknown to the version. */
  lemma ZonesMeasured(cat: Catalogue, rows: seq<RawRow>, raw: seq<RawRow>, zoneSid: nat, start: Date, end: Date)
    requires NoClash(raw)
    ensures
      var ms := Measured(cat, rows, raw, zoneSid, start, end);
      && UnknownPickupZone in ms && UnknownDropoffZone in ms
      && ms[UnknownPickupZone].checked == ms[UnknownDropoffZone].checked == |rows|
      && ms[UnknownPickupZone].failed == CountIf(rows, (r: RawRow) => IsUnknown(TripOf(r).pickupLocation, raw, zoneSid))
      && ms[UnknownDropoffZone].failed == CountIf(rows, (r: RawRow) => IsUnknown(TripOf(r).dropoffLocation, raw, zoneSid))
  {
    ZonePart(cat, rows, raw, zoneSid, start, end, UnknownPickupZone,
             Measurement(|rows|, UnknownPickups(rows, raw, zoneSid), NoDetails));
    ZonePart(cat, rows, raw, zoneSid, start, end, UnknownDropoffZone,
             Measurement(|rows|, UnknownDropoffs(rows, raw, zoneSid), NoDetails));
    PickupZonesCount(rows, raw, zoneSid);
    DropoffZonesCount(rows, raw, zoneSid);
  }

  lemma PickupZonesCount(rows: seq<RawRow>, raw: seq<RawRow>, zoneSid: nat)
    requires NoClash(raw)
    ensures UnknownPickups(rows, raw, zoneSid)
         == CountIf(rows, (r: RawRow) => IsUnknown(TripOf(r).pickupLocation, raw, zoneSid))
  {
    UnknownZonesCount(rows, raw, zoneSid);
    forall k | 0 <= k < |rows| {
      UnknownIsMissing(TripOf(rows[k]).pickupLocation, raw, zoneSid);
    }
    CountIfSame(rows, (r: RawRow) => IsUnknown(TripOf(r).pickupLocation, raw, zoneSid), rows, (r: RawRow) =>
      TripOf(r).pickupLocation.Some? && TripOf(r).pickupLocation.value !in ZoneIds(raw, zoneSid));
  }

  lemma DropoffZonesCount(rows: seq<RawRow>, raw: seq<RawRow>, zoneSid: nat)
    requires NoClash(raw)
    ensures UnknownDropoffs(rows, raw, zoneSid)
         == CountIf(rows, (r: RawRow) => IsUnknown(TripOf(r).dropoffLocation, raw, zoneSid))
  {
    UnknownZonesCount(rows, raw, zoneSid);
    forall k | 0 <= k < |rows| {
      UnknownIsMissing(TripOf(rows[k]).dropoffLocation, raw, zoneSid);
    }
    CountIfSame(rows, (r: RawRow) => IsUnknown(TripOf(r).dropoffLocation, raw, zoneSid), rows, (r: RawRow) =>
      TripOf(r).dropoffLocation.Some? && TripOf(r).dropoffLocation.value !in ZoneIds(raw, zoneSid));
  }

  /** The duplicate check fails for the rows in duplicate groups, and details excess rows and groups. */
  lemma DuplicatesMeasured(cat: Catalogue, rows: seq<RawRow>, raw: seq<RawRow>, zoneSid: nat, start: Date, end: Date,
                           p: Profile)
    requires Counts(multiset(NormalRows(ValuesOfRows(rows))), p)
    ensures
      var ms := Measured(cat, rows, raw, zoneSid, start, end);
      && ExactDuplicates in ms
      && ms[ExactDuplicates] == Measurement(|rows|, p.participating, DuplicateDetails(p.excess, p.groups))
  {
    SqlDuplicatesCount(ValuesOfRows(rows), p);
  }

  // ---------- the measurements of a run ----------

  /** A target has a window exactly when its year and month are those of a calendar month before the last. */
  lemma WindowOfMonth(t: Tables, run: nat)
    requires IsTarget(t, run)
    ensures
      var m := t.sources[t.runs[run].sid].meta;
      HasWindow(t, run) <==>
        && 1 <= m.year.value <= 9999 && 1 <= m.month.value <= 12
        && !(m.year.value == 9999 && m.month.value == 12)
  {
  }

  /** An evaluation measures the raw rows of the run's own source against the month of that source. */
  lemma RunMeasured(t: Tables, cat: Catalogue, run: nat, z: nat)
    requires HasWindow(t, run) && NamesDiffer(cat)
    ensures
      var sid := t.runs[run].sid;
      var m, rows := t.sources[sid].meta, RowsOf(t.raw, sid);
      && 1 <= m.year.value <= 9999 && 1 <= m.month.value <= 12 && End(m.year.value, m.month.value).Some?
      && MeasuredFor(t, cat, run, z)
         == Measured(cat, rows, t.raw, z, Start(m.year.value, m.month.value), End(m.year.value, m.month.value).value)
      && Has(MeasuredFor(t, cat, run, z), PickupOutsideMonth,
             Measurement(|rows|, OutsideMonth(rows, m.year.value, m.month.value), NoDetails))
  {
    var sid := t.runs[run].sid;
    var m := t.sources[sid].meta;
    PickupMeasured(cat, RowsOf(t.raw, sid), t.raw, z, m.year.value, m.month.value);
  }
}
