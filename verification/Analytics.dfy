/** The analytics queries over the fact table and its rebuilt dimensions. */
module Analytics {
  import opened Wrappers
  import opened Cells
  import opened Catalog
  import opened Batches
  import opened Lifecycle
  import opened Guarantees
  import opened Relational
  import opened Warehouse
  import opened Grain
  import opened Months
  import opened Builds
  import opened History

  datatype Filter = Filter(service: Option<Service>, start: Option<Date>, end: Option<Date>)

  /** The WHERE clause; a comparison with a null date is not true. */
  predicate Passes(f: Filter, service: Service, date: Option<Date>) {
    && (f.service.Some? ==> service == f.service.value)
    && (f.start.Some? ==> date.Some? && !DateBefore(date.value, f.start.value))
    && (f.end.Some? ==> date.Some? && !DateBefore(f.end.value, date.value))
  }

  /** A fact with the date dimension row joined on its pickup date key. */
  function WithDate(facts: seq<Fact>, dates: seq<DateDim>): seq<(Fact, DateDim)> {
    InnerJoin(facts, dates, (f: Fact, d: DateDim) => d.key == f.pickupDateKey)
  }

  function SummaryCount(facts: seq<Fact>, dates: seq<DateDim>, f: Filter): nat {
    CountIf(WithDate(facts, dates), (r: (Fact, DateDim)) => Passes(f, r.0.trip.service, r.1.date))
  }

  function MonthOf(date: Option<Date>): Option<YearMonth> {
    if date.Some? then Some(YearMonth(date.value.year, date.value.month)) else None
  }

  type MonthGroup = (Option<YearMonth>, Service)

  /** The month and service of every selected row, in row order. */
  function MonthKeys(facts: seq<Fact>, dates: seq<DateDim>, f: Filter): seq<MonthGroup> {
    KeysIf(WithDate(facts, dates), (r: (Fact, DateDim)) => Passes(f, r.0.trip.service, r.1.date),
           (r: (Fact, DateDim)) => (MonthOf(r.1.date), r.0.trip.service))
  }

  function MonthlyCounts(facts: seq<Fact>, dates: seq<DateDim>, f: Filter): seq<(MonthGroup, nat)> {
    GroupBy(MonthKeys(facts, dates, f))
  }

  // ---------- what is selected ----------

  /** The facts that the filter means: of its service, and with a known pickup whose date key lies between
      those of the two dates, both included. */
  predicate Selects(f: Filter, x: Fact) {
    && (f.service.Some? ==> x.trip.service == f.service.value)
    && (f.start.Some? ==> x.trip.pickup.Some? && YearMonthDay(f.start.value) <= x.pickupDateKey)
    && (f.end.Some? ==> x.trip.pickup.Some? && x.pickupDateKey <= YearMonthDay(f.end.value))
  }

  lemma DateKeysOrder(d: Date, e: Date)
    ensures DateBefore(d, e) <==> YearMonthDay(d) < YearMonthDay(e)
  {
    if DateBefore(d, e) {
      DateKeysGrow(d, e);
    } else if DateBefore(e, d) {
      DateKeysGrow(e, d);
    }
  }

  lemma PassesIsSelects(f: Filter, x: Fact)
    requires x.pickupDateKey == DateKey(x.trip.pickup)
    ensures Passes(f, x.trip.service, DateOf(x.trip.pickup)) <==> Selects(f, x)
  {
    if x.trip.pickup.Some? {
      var d := x.trip.pickup.value.date;
      if f.start.Some? {
        DateKeysOrder(d, f.start.value);
      }
      if f.end.Some? {
        DateKeysOrder(f.end.value, d);
      }
    }
  }

  /** Filtering the joined rows selects the facts that the filter means. */
  lemma FilterSelects(facts: seq<Fact>, dates: seq<DateDim>, f: Filter)
    requires DatesOk(dates) && |dates| > 0 && dates[0].date == None
    requires forall k :: 0 <= k < |facts| ==> KeyKnown(dates, facts[k])
    ensures |WithDate(facts, dates)| == |facts|
    ensures forall k :: 0 <= k < |facts| ==>
      && WithDate(facts, dates)[k].0 == facts[k] && WithDate(facts, dates)[k].1.date == DateOf(facts[k].trip.pickup)
      && Passes(f, WithDate(facts, dates)[k].0.trip.service, WithDate(facts, dates)[k].1.date) == Selects(f, facts[k])
  {
    WithDateConserves(facts, dates);
    forall k | 0 <= k < |facts|
      ensures Passes(f, facts[k].trip.service, DateOf(facts[k].trip.pickup)) == Selects(f, facts[k])
    {
      PassesIsSelects(f, facts[k]);
    }
  }

  // ---------- conservation ----------

  /** The fact's pickup date key is that of its own pickup date, and the dimension has that date. */
  ghost predicate KeyKnown(dates: seq<DateDim>, f: Fact) {
    f.pickupDateKey == DateKey(f.trip.pickup) && HasDate(dates, DateOf(f.trip.pickup))
  }

  function DateKeyOf(date: Option<Date>): int {
    if date.Some? then YearMonthDay(date.value) else 0
  }

  lemma DateKeyOfDiffers(x: Option<Date>, y: Option<Date>)
    ensures DateKeyOf(x) == DateKeyOf(y) ==> x == y
  {
    if x.Some? {
      DateKeysDiffer(x.value, if y.Some? then y.value else x.value);
    } else if y.Some? {
      DateKeysDiffer(y.value, y.value);
    }
  }

  lemma DateHit(dates: seq<DateDim>, f: Fact, on: (Fact, DateDim) -> bool) returns (k: nat)
    requires DatesOk(dates) && |dates| > 0 && dates[0].date == None && KeyKnown(dates, f)
    requires forall d :: on(f, d) == (d.key == f.pickupDateKey)
    ensures AtMostOneHit(f, dates, on) && k < |dates| && on(f, dates[k]) && dates[k].date == DateOf(f.trip.pickup)
  {
    var date := DateOf(f.trip.pickup);
    if date.Some? {
      k :| 0 <= k < |dates| && dates[k] == DateDim(YearMonthDay(date.value), date);
    } else {
      k := 0;
    }
    forall i | 0 <= i < |dates| && on(f, dates[i])
      ensures i == k
    {
      assert DateKeyOf(dates[i].date) == DateKeyOf(date);
      DateKeyOfDiffers(dates[i].date, date);
    }
  }

  /** Joining the facts with the date dimension yields every fact once, with its own pickup date. */
  lemma {:induction false} WithDateConserves(facts: seq<Fact>, dates: seq<DateDim>)
    requires DatesOk(dates) && |dates| > 0 && dates[0].date == None
    requires forall k :: 0 <= k < |facts| ==> KeyKnown(dates, facts[k])
    ensures |WithDate(facts, dates)| == |facts|
    ensures forall k :: 0 <= k < |facts| ==>
      WithDate(facts, dates)[k].0 == facts[k] && WithDate(facts, dates)[k].1.date == DateOf(facts[k].trip.pickup)
  {
    var on := (f: Fact, d: DateDim) => d.key == f.pickupDateKey;
    if facts != [] {
      var n := |facts| - 1;
      WithDateConserves(facts[..n], dates);
      var k := DateHit(dates, facts[n], on);
      HitsOfOne(facts[n], dates, on, k);
    }
  }

  lemma RefreshedFactIsKnown(t: Tables, facts: seq<Fact>, k: nat)
    requires Exclusive(t) && NoClash(t.raw) && multiset(facts) == multiset(FullRefresh(t)) && k < |facts|
    ensures KeyKnown(DimDate(ActiveTrips(t)), facts[k])
  {
    FullRefreshResolves(t);
    var i := SameMember(facts, FullRefresh(t), k);
    DimDateCovers(ActiveTrips(t), i);
  }

  /** The facts of a full refresh and the date dimension rebuilt with them fit together. */
  lemma RefreshedFactsAreKnown(t: Tables, facts: seq<Fact>)
    requires Exclusive(t) && NoClash(t.raw) && multiset(facts) == multiset(FullRefresh(t))
    ensures forall k :: 0 <= k < |facts| ==> KeyKnown(DimDate(ActiveTrips(t)), facts[k])
  {
    forall k | 0 <= k < |facts|
      ensures KeyKnown(DimDate(ActiveTrips(t)), facts[k])
    {
      RefreshedFactIsKnown(t, facts, k);
    }
  }

  lemma SummaryCounts(facts: seq<Fact>, dates: seq<DateDim>, f: Filter)
    requires DatesOk(dates) && |dates| > 0 && dates[0].date == None
    requires forall k :: 0 <= k < |facts| ==> KeyKnown(dates, facts[k])
    ensures SummaryCount(facts, dates, f) == CountIf(facts, (x: Fact) => Selects(f, x))
    ensures Total(MonthlyCounts(facts, dates, f)) == SummaryCount(facts, dates, f)
  {
    FilterSelects(facts, dates, f);
    var p := (r: (Fact, DateDim)) => Passes(f, r.0.trip.service, r.1.date);
    var key := (r: (Fact, DateDim)) => (MonthOf(r.1.date), r.0.trip.service);
    CountIfSame(WithDate(facts, dates), p, facts, (x: Fact) => Selects(f, x));
    KeysIfLength(WithDate(facts, dates), p, key);
    GroupsConserve(MonthKeys(facts, dates, f));
  }

  /** After any history that ends with a build, and for any filter: the summary counts exactly the facts of
      the filter's service whose pickup date key lies within its dates, no matter how the dimension is
      joined, and the monthly counts sum to the summary count. */
  lemma AnalyticsConserve(counts: Digest -> nat, hs: seq<Happening>, fullRefresh: bool, f: Filter)
    requires CanHappen(counts, START, hs) && Possible(counts, WorldAfter(counts, START, hs), Build(fullRefresh))
    ensures
      var w := WorldAfter(counts, START, hs);
      var facts := Happens(counts, w, Build(fullRefresh)).facts.value;
      var dates := DimDate(ActiveTrips(w.s.t));
      && SummaryCount(facts, dates, f) == CountIf(facts, (x: Fact) => Selects(f, x))
      && Total(MonthlyCounts(facts, dates, f)) == SummaryCount(facts, dates, f)
  {
    InitOk(counts);
    HistoryKeeps(counts, START, hs);
    var w := WorldAfter(counts, START, hs);
    var facts := Happens(counts, w, Build(fullRefresh)).facts.value;
    HappensKeeps(counts, w, Build(fullRefresh));
    RefreshedFactsAreKnown(w.s.t, facts);
    DimDateOk(ActiveTrips(w.s.t));
    SummaryCounts(facts, DimDate(ActiveTrips(w.s.t)), f);
  }

  /** The fact's pickup is in the group's year and month, or both are unknown, and so is its service. */
  predicate InGroup(group: MonthGroup, x: Fact) {
    && x.trip.service == group.1
    && match group.0
       case Some(month) =>
         x.trip.pickup.Some? && x.trip.pickup.value.date.year == month.year && x.trip.pickup.value.date.month == month.month
       case None => x.trip.pickup.None?
  }

  /** The selected facts of one month and service. */
  function TripsIn(facts: seq<Fact>, f: Filter, group: MonthGroup): nat {
    CountIf(facts, (x: Fact) => Selects(f, x) && InGroup(group, x))
  }

  ghost predicate Listed(counts: seq<(MonthGroup, nat)>, group: MonthGroup) {
    exists i :: 0 <= i < |counts| && counts[i].0 == group
  }

  /** The counts list the months and services that have passing trips, each once, with their number. */
  ghost predicate MonthsExact(counts: seq<(MonthGroup, nat)>, facts: seq<Fact>, f: Filter) {
    && (forall i :: 0 <= i < |counts| ==> counts[i].1 == TripsIn(facts, f, counts[i].0) > 0)
    && (forall i, j :: 0 <= i < |counts| && 0 <= j < |counts| && counts[i].0 == counts[j].0 ==> i == j)
    && (forall group :: TripsIn(facts, f, group) > 0 ==> Listed(counts, group))
  }

  lemma MonthKeysCount(facts: seq<Fact>, dates: seq<DateDim>, f: Filter, group: MonthGroup)
    requires DatesOk(dates) && |dates| > 0 && dates[0].date == None
    requires forall k :: 0 <= k < |facts| ==> KeyKnown(dates, facts[k])
    ensures multiset(MonthKeys(facts, dates, f))[group] == TripsIn(facts, f, group)
  {
    FilterSelects(facts, dates, f);
    var p := (r: (Fact, DateDim)) => Passes(f, r.0.trip.service, r.1.date);
    var key := (r: (Fact, DateDim)) => (MonthOf(r.1.date), r.0.trip.service);
    var q := (r: (Fact, DateDim)) => p(r) && key(r) == group;
    KeysIfCount(WithDate(facts, dates), p, key, group, q);
    CountIfSame(WithDate(facts, dates), q, facts, (x: Fact) => Selects(f, x) && InGroup(group, x));
  }

  lemma MonthlyCountsOfKnown(facts: seq<Fact>, dates: seq<DateDim>, f: Filter)
    requires DatesOk(dates) && |dates| > 0 && dates[0].date == None
    requires forall k :: 0 <= k < |facts| ==> KeyKnown(dates, facts[k])
    ensures MonthsExact(MonthlyCounts(facts, dates, f), facts, f)
  {
    var keys := MonthKeys(facts, dates, f);
    GroupByLists(keys);
    forall group: MonthGroup
      ensures multiset(keys)[group] == TripsIn(facts, f, group)
    {
      MonthKeysCount(facts, dates, f, group);
    }
    MonthsListed(GroupBy(keys), multiset(keys), facts, f);
  }

  lemma MonthsListed(counts: seq<(MonthGroup, nat)>, m: multiset<MonthGroup>, facts: seq<Fact>, f: Filter)
    requires Lists(counts, m) && forall group :: m[group] == TripsIn(facts, f, group)
    ensures MonthsExact(counts, facts, f)
  {
    forall group | TripsIn(facts, f, group) > 0
      ensures Listed(counts, group)
    {
      assert m[group] > 0;
    }
  }

  /** After any history that ends with a build, the monthly counts are exact. */
  lemma MonthlyCountsAreExact(counts: Digest -> nat, hs: seq<Happening>, fullRefresh: bool, f: Filter)
    requires CanHappen(counts, START, hs) && Possible(counts, WorldAfter(counts, START, hs), Build(fullRefresh))
    ensures
      var w := WorldAfter(counts, START, hs);
      var facts := Happens(counts, w, Build(fullRefresh)).facts.value;
      MonthsExact(MonthlyCounts(facts, DimDate(ActiveTrips(w.s.t)), f), facts, f)
  {
    InitOk(counts);
    HistoryKeeps(counts, START, hs);
    var w := WorldAfter(counts, START, hs);
    var facts := Happens(counts, w, Build(fullRefresh)).facts.value;
    HappensKeeps(counts, w, Build(fullRefresh));
    RefreshedFactsAreKnown(w.s.t, facts);
    DimDateOk(ActiveTrips(w.s.t));
    MonthlyCountsOfKnown(facts, DimDate(ActiveTrips(w.s.t)), f);
  }

  // ---------- pickup zones ----------

  /** The fact and date rows with the zone dimension row joined on the pickup zone key. */
  function WithZone(rows: seq<(Fact, DateDim)>, zones: seq<ZoneDim>): seq<((Fact, DateDim), ZoneDim)> {
    InnerJoin(rows, zones, (r: (Fact, DateDim), z: ZoneDim) => z.key == Some(r.0.pickupZoneKey))
  }

  /** The zones of the selected rows, in row order. */
  function ZoneKeys(facts: seq<Fact>, dates: seq<DateDim>, zones: seq<ZoneDim>, f: Filter): seq<ZoneDim> {
    KeysIf(WithZone(WithDate(facts, dates), zones),
           (r: ((Fact, DateDim), ZoneDim)) => Passes(f, r.0.0.trip.service, r.0.1.date),
           (r: ((Fact, DateDim), ZoneDim)) => r.1)
  }

  /** Trips per pickup zone, before the ranking and its limit. */
  function ZoneCounts(facts: seq<Fact>, dates: seq<DateDim>, zones: seq<ZoneDim>, f: Filter): seq<(ZoneDim, nat)> {
    GroupBy(ZoneKeys(facts, dates, zones, f))
  }

  /** A zone key meets the zone of that location, or the unknown zone; the key 0 meets both when a zone
      has the location 0. */
  lemma ZoneKeyHits<L>(l: L, key: int, zones: seq<RawRow>, on: (L, ZoneDim) -> bool)
    requires ZonesDistinct(zones) && (key == 0 || key in LocationIds(zones))
    requires forall z: ZoneDim :: on(l, z) == (z.key == Some(key))
    ensures |Hits(l, DimZone(zones), on)| == if key == 0 && 0 in LocationIds(zones) then 2 else 1
  {
    HitsAppend(l, [UNKNOWN_ZONE], LocatedZones(zones), on);
    LocatedHits(l, key, zones, LocatedZones(zones), on);
    if key == 0 {
      HitsOfOne(l, [UNKNOWN_ZONE], on, 0);
    } else {
      HitsOfNone(l, [UNKNOWN_ZONE], on);
    }
  }

  lemma LocatedHits<L>(l: L, key: int, zones: seq<RawRow>, rest: seq<ZoneDim>, on: (L, ZoneDim) -> bool)
    requires ZonesDistinct(zones) && |rest| == |zones| && forall i :: 0 <= i < |rest| ==> rest[i].key == Location(zones[i])
    requires forall z: ZoneDim :: on(l, z) == (z.key == Some(key))
    ensures |Hits(l, rest, on)| == if key in LocationIds(zones) then 1 else 0
  {
    if k :| 0 <= k < |zones| && Location(zones[k]) == Some(key) {
      assert zones[k] in zones;
      HitsOfOne(l, rest, on, k);
    } else {
      HitsOfNone(l, rest, on);
    }
  }

  /** A selected fact with the key of the unknown pickup zone. */
  predicate Unlocated(f: Filter, x: Fact) {
    Selects(f, x) && x.pickupZoneKey == 0
  }

  /** The facts whose zone keys come from these zones: the zone counts sum to the summary count, plus the
      trips of the unknown zone once more when some zone has the location 0. */
  lemma {:induction false} ZoneCountsSum(facts: seq<Fact>, dates: seq<DateDim>, zones: seq<RawRow>, f: Filter)
    requires DatesOk(dates) && |dates| > 0 && dates[0].date == None && ZonesDistinct(zones)
    requires forall k :: 0 <= k < |facts| ==>
      KeyKnown(dates, facts[k]) && facts[k].pickupZoneKey == ZoneKey(LocationIds(zones), facts[k].trip.pickupLocation)
    ensures Total(ZoneCounts(facts, dates, DimZone(zones), f)) == SummaryCount(facts, dates, f) +
      if 0 in LocationIds(zones)
      then CountIf(facts, (x: Fact) => Unlocated(f, x))
      else 0
  {
    FilterSelects(facts, dates, f);
    var rows, dim := WithDate(facts, dates), DimZone(zones);
    var on := (r: (Fact, DateDim), z: ZoneDim) => z.key == Some(r.0.pickupZoneKey);
    var zero := 0 in LocationIds(zones);
    var p := (r: (Fact, DateDim)) => Passes(f, r.0.trip.service, r.1.date);
    var twice := (r: (Fact, DateDim)) => r.0.pickupZoneKey == 0 && zero;
    var again := (r: (Fact, DateDim)) => p(r) && twice(r);
    var joined := (r: ((Fact, DateDim), ZoneDim)) => Passes(f, r.0.0.trip.service, r.0.1.date);
    forall k | 0 <= k < |rows|
      ensures |Hits(rows[k], dim, on)| == if twice(rows[k]) then 2 else 1
    {
      ZoneKeyHits(rows[k], rows[k].0.pickupZoneKey, zones, on);
    }
    InnerJoinCount(rows, dim, on, p, joined, twice, again);
    var key := (r: ((Fact, DateDim), ZoneDim)) => r.1;
    GroupsConserve(ZoneKeys(facts, dates, dim, f));
    KeysIfLength(WithZone(rows, dim), joined, key);
    if zero {
      CountIfSame(rows, again, facts, (x: Fact) => Unlocated(f, x));
    } else {
      CountIfUniform(rows, again, false);
    }
  }

  // ---------- the trips of one zone ----------

  /** The fact's own pickup location is this one; or this is the unknown zone, or one with the location 0,
      and the fact's location is unknown. */
  predicate LocatedAt(zones: seq<RawRow>, location: Option<int>, x: Fact) {
    if location.Some? && location.value != 0 then x.trip.pickupLocation == location
    else x.trip.pickupLocation.None? || x.trip.pickupLocation.value == 0 || x.trip.pickupLocation.value !in LocationIds(zones)
  }

  function TripsAt(facts: seq<Fact>, zones: seq<RawRow>, f: Filter, location: Option<int>): nat {
    CountIf(facts, (x: Fact) => Selects(f, x) && LocatedAt(zones, location, x))
  }

  ghost predicate ZoneListed(counts: seq<(ZoneDim, nat)>, z: ZoneDim) {
    exists i :: 0 <= i < |counts| && counts[i].0 == z
  }

  /** The counts list zones of the dimension that have selected facts, each once and with their number. */
  ghost predicate ZonesExact(counts: seq<(ZoneDim, nat)>, facts: seq<Fact>, zones: seq<RawRow>, f: Filter) {
    && (forall i :: 0 <= i < |counts| ==>
          counts[i].0 in DimZone(zones) && counts[i].1 == TripsAt(facts, zones, f, counts[i].0.location) > 0)
    && (forall i, j :: 0 <= i < |counts| && 0 <= j < |counts| && counts[i].0 == counts[j].0 ==> i == j)
    && (forall z :: z in DimZone(zones) && z.key.Some? && TripsAt(facts, zones, f, z.location) > 0 ==> ZoneListed(counts, z))
  }

  lemma ZoneOnce(zones: seq<RawRow>, z: ZoneDim)
    requires ZonesDistinct(zones) && z in DimZone(zones) && z.key.Some?
    ensures multiset(DimZone(zones))[z] == 1
    ensures z.key == (if z.location.Some? then z.location else Some(0))
    ensures z.location.Some? ==> z.location.value in LocationIds(zones)
  {
    var dim := DimZone(zones);
    var k :| 0 <= k < |dim| && dim[k] == z;
    assert forall i :: 1 <= i < |dim| ==> dim[i].key == dim[i].location == Location(zones[i - 1]);
    assert dim[0] == UNKNOWN_ZONE;
    if k > 0 {
      assert zones[k - 1] in zones;
    }
    OneIndex(dim, k);
  }

  /** The selected joined rows with one zone are the selected facts with its key. */
  lemma ZoneRowsCount(facts: seq<Fact>, dates: seq<DateDim>, dim: seq<ZoneDim>, f: Filter, z: ZoneDim)
    requires DatesOk(dates) && |dates| > 0 && dates[0].date == None
    requires forall k :: 0 <= k < |facts| ==> KeyKnown(dates, facts[k])
    ensures multiset(ZoneKeys(facts, dates, dim, f))[z]
         == Times(CountIf(facts, (x: Fact) => Selects(f, x) && z.key == Some(x.pickupZoneKey)), multiset(dim)[z])
  {
    FilterSelects(facts, dates, f);
    var rows := WithDate(facts, dates);
    var on := (r: (Fact, DateDim), d: ZoneDim) => d.key == Some(r.0.pickupZoneKey);
    var p := (r: (Fact, DateDim)) => Passes(f, r.0.trip.service, r.1.date);
    var joined := (r: ((Fact, DateDim), ZoneDim)) => Passes(f, r.0.0.trip.service, r.0.1.date);
    var key := (r: ((Fact, DateDim), ZoneDim)) => r.1;
    var q := (r: ((Fact, DateDim), ZoneDim)) => joined(r) && key(r) == z;
    var mine := (r: (Fact, DateDim)) => p(r) && on(r, z);
    KeysIfCount(WithZone(rows, dim), joined, key, z, q);
    InnerJoinCountOf(rows, dim, on, z, p, q, mine);
    CountIfSame(rows, mine, facts, (x: Fact) => Selects(f, x) && z.key == Some(x.pickupZoneKey));
  }

  /** A zone's key is that of the facts with its location. */
  lemma KeyIsLocation(zones: seq<RawRow>, z: ZoneDim, x: Fact)
    requires z.key == (if z.location.Some? then z.location else Some(0))
    requires z.location.Some? ==> z.location.value in LocationIds(zones)
    requires x.pickupZoneKey == ZoneKey(LocationIds(zones), x.trip.pickupLocation)
    ensures z.key == Some(x.pickupZoneKey) <==> LocatedAt(zones, z.location, x)
  {
  }

  lemma ZoneTrips(facts: seq<Fact>, zones: seq<RawRow>, f: Filter, z: ZoneDim)
    requires z.key == (if z.location.Some? then z.location else Some(0))
    requires z.location.Some? ==> z.location.value in LocationIds(zones)
    requires forall k :: 0 <= k < |facts| ==>
      facts[k].pickupZoneKey == ZoneKey(LocationIds(zones), facts[k].trip.pickupLocation)
    ensures CountIf(facts, (x: Fact) => Selects(f, x) && z.key == Some(x.pickupZoneKey)) == TripsAt(facts, zones, f, z.location)
  {
    forall k | 0 <= k < |facts|
      ensures z.key == Some(facts[k].pickupZoneKey) <==> LocatedAt(zones, z.location, facts[k])
    {
      KeyIsLocation(zones, z, facts[k]);
    }
    CountIfSame(facts, (x: Fact) => Selects(f, x) && z.key == Some(x.pickupZoneKey),
                facts, (x: Fact) => Selects(f, x) && LocatedAt(zones, z.location, x));
  }

  /** How often a zone occurs among the selected joined rows. */
  lemma ZoneKeysCount(facts: seq<Fact>, dates: seq<DateDim>, zones: seq<RawRow>, f: Filter, z: ZoneDim)
    requires DatesOk(dates) && |dates| > 0 && dates[0].date == None && ZonesDistinct(zones)
    requires forall k :: 0 <= k < |facts| ==>
      KeyKnown(dates, facts[k]) && facts[k].pickupZoneKey == ZoneKey(LocationIds(zones), facts[k].trip.pickupLocation)
    ensures multiset(ZoneKeys(facts, dates, DimZone(zones), f))[z]
         == if z in DimZone(zones) && z.key.Some? then TripsAt(facts, zones, f, z.location) else 0
  {
    ZoneRowsCount(facts, dates, DimZone(zones), f, z);
    TimesOnce(CountIf(facts, (x: Fact) => Selects(f, x) && z.key == Some(x.pickupZoneKey)));
    if z in DimZone(zones) && z.key.Some? {
      ZoneOnce(zones, z);
      ZoneTrips(facts, zones, f, z);
    } else if z in DimZone(zones) {
      CountIfUniform(facts, (x: Fact) => Selects(f, x) && z.key == Some(x.pickupZoneKey), false);
    } else {
      assert z !in multiset(DimZone(zones));
    }
  }

  lemma ZoneCountsOfKnown(facts: seq<Fact>, dates: seq<DateDim>, zones: seq<RawRow>, f: Filter)
    requires DatesOk(dates) && |dates| > 0 && dates[0].date == None && ZonesDistinct(zones)
    requires forall k :: 0 <= k < |facts| ==>
      KeyKnown(dates, facts[k]) && facts[k].pickupZoneKey == ZoneKey(LocationIds(zones), facts[k].trip.pickupLocation)
    ensures ZonesExact(ZoneCounts(facts, dates, DimZone(zones), f), facts, zones, f)
  {
    var keys := ZoneKeys(facts, dates, DimZone(zones), f);
    GroupByLists(keys);
    forall z: ZoneDim
      ensures multiset(keys)[z] == if z in DimZone(zones) && z.key.Some? then TripsAt(facts, zones, f, z.location) else 0
    {
      ZoneKeysCount(facts, dates, zones, f, z);
    }
    ZonesListed(GroupBy(keys), multiset(keys), facts, zones, f);
  }

  lemma ZonesListed(counts: seq<(ZoneDim, nat)>, m: multiset<ZoneDim>, facts: seq<Fact>, zones: seq<RawRow>, f: Filter)
    requires Lists(counts, m)
    requires forall z :: m[z] == if z in DimZone(zones) && z.key.Some? then TripsAt(facts, zones, f, z.location) else 0
    ensures ZonesExact(counts, facts, zones, f)
  {
    forall z | z in DimZone(zones) && z.key.Some? && TripsAt(facts, zones, f, z.location) > 0
      ensures ZoneListed(counts, z)
    {
      assert m[z] > 0;
    }
  }

  /** After any history that ends with a build, the listed zones have exactly their selected facts. */
  lemma ZoneCountsAreExact(counts: Digest -> nat, hs: seq<Happening>, fullRefresh: bool, f: Filter)
    requires CanHappen(counts, START, hs) && Possible(counts, WorldAfter(counts, START, hs), Build(fullRefresh))
    ensures
      var t := WorldAfter(counts, START, hs).s.t;
      var facts := Happens(counts, WorldAfter(counts, START, hs), Build(fullRefresh)).facts.value;
      var zones := ActiveZones(t, t.raw);
      ZonesExact(ZoneCounts(facts, DimDate(ActiveTrips(t)), DimZone(zones), f), facts, zones, f)
  {
    InitOk(counts);
    HistoryKeeps(counts, START, hs);
    var w := WorldAfter(counts, START, hs);
    HappensKeeps(counts, w, Build(fullRefresh));
    RefreshedZonesExact(w.s.t, Happens(counts, w, Build(fullRefresh)).facts.value, f);
  }

  lemma RefreshedZonesExact(t: Tables, facts: seq<Fact>, f: Filter)
    requires Exclusive(t) && NoClash(t.raw) && multiset(facts) == multiset(FullRefresh(t))
    ensures
      var zones := ActiveZones(t, t.raw);
      ZonesExact(ZoneCounts(facts, DimDate(ActiveTrips(t)), DimZone(zones), f), facts, zones, f)
  {
    var zones := ActiveZones(t, t.raw);
    DimDateOk(ActiveTrips(t));
    ActiveZonesDistinct(t, t.raw);
    RefreshedFactsAreKnown(t, facts);
    forall k | 0 <= k < |facts|
      ensures facts[k].pickupZoneKey == ZoneKey(LocationIds(zones), facts[k].trip.pickupLocation)
    {
      RefreshedFactZone(t, facts, k);
    }
    ZoneCountsOfKnown(facts, DimDate(ActiveTrips(t)), zones, f);
  }

  // ---------- the uniqueness of zone keys ----------

  /** What the uniqueness test on the zone dimension's key demands; it ignores nulls. */
  predicate ZoneKeysUnique(zones: seq<ZoneDim>) {
    forall i, j :: 0 <= i < |zones| && 0 <= j < |zones| && zones[i].key.Some? && zones[i].key == zones[j].key ==> i == j
  }

  lemma ZoneZeroRepeats(zones: seq<RawRow>)
    requires 0 in LocationIds(zones)
    ensures !ZoneKeysUnique(DimZone(zones))
  {
    var z :| z in zones && Location(z) == Some(0);
    var k :| 0 <= k < |zones| && zones[k] == z;
    assert DimZone(zones)[k + 1].key == Some(0) && DimZone(zones)[0].key == Some(0);
  }

  lemma OtherZonesDiffer(zones: seq<RawRow>, dim: seq<ZoneDim>, i: nat, j: nat)
    requires ZonesDistinct(zones) && 0 !in LocationIds(zones) && dim == DimZone(zones)
    requires i < j < |dim| && dim[i].key.Some?
    ensures dim[i].key != dim[j].key
  {
    assert zones[j - 1] in zones && dim[j].key == Location(zones[j - 1]);
    if i == 0 {
      assert dim[0].key == Some(0);
    } else {
      assert dim[i].key == Location(zones[i - 1]);
    }
  }

  /** The build's uniqueness test passes exactly when no loaded zone has the location 0. */
  lemma UniqueTestGuards(zones: seq<RawRow>)
    requires ZonesDistinct(zones)
    ensures ZoneKeysUnique(DimZone(zones)) <==> 0 !in LocationIds(zones)
  {
    if 0 in LocationIds(zones) {
      ZoneZeroRepeats(zones);
    } else {
      forall i, j | 0 <= i < j < |DimZone(zones)| && DimZone(zones)[i].key.Some?
        ensures DimZone(zones)[i].key != DimZone(zones)[j].key
      {
        OtherZonesDiffer(zones, DimZone(zones), i, j);
      }
    }
  }

  lemma RefreshedFactZone(t: Tables, facts: seq<Fact>, k: nat)
    requires Exclusive(t) && NoClash(t.raw) && multiset(facts) == multiset(FullRefresh(t)) && k < |facts|
    ensures facts[k].pickupZoneKey == ZoneKey(LocationIds(ActiveZones(t, t.raw)), facts[k].trip.pickupLocation)
  {
    FullRefreshResolves(t);
    var i := SameMember(facts, FullRefresh(t), k);
  }

  /** Over the dimensions built from the tables, the trips per pickup zone sum to the summary count. */
  predicate ZonesAddUp(t: Tables, facts: seq<Fact>, f: Filter) {
    var dates := DimDate(ActiveTrips(t));
    Total(ZoneCounts(facts, dates, DimZone(ActiveZones(t, t.raw)), f)) == SummaryCount(facts, dates, f)
  }

  /** Every loaded zone has a location other than 0, or no selected trip has an unknown pickup zone. */
  predicate ZonesApart(t: Tables, facts: seq<Fact>, f: Filter) {
    0 in LocationIds(ActiveZones(t, t.raw)) ==> CountIf(facts, (x: Fact) => Unlocated(f, x)) == 0
  }

  lemma ZoneCountsOfRefresh(t: Tables, facts: seq<Fact>, f: Filter)
    requires Exclusive(t) && NoClash(t.raw) && multiset(facts) == multiset(FullRefresh(t))
    ensures ZonesAddUp(t, facts, f) <==> ZonesApart(t, facts, f)
  {
    var dates, zones := DimDate(ActiveTrips(t)), ActiveZones(t, t.raw);
    DimDateOk(ActiveTrips(t));
    ActiveZonesDistinct(t, t.raw);
    RefreshedFactsAreKnown(t, facts);
    forall k | 0 <= k < |facts|
      ensures facts[k].pickupZoneKey == ZoneKey(LocationIds(zones), facts[k].trip.pickupLocation)
    {
      RefreshedFactZone(t, facts, k);
    }
    ZoneCountsSum(facts, dates, zones, f);
  }

  /** After any history that ends with a build, the trips per pickup zone sum to the summary count
      exactly when no loaded zone has the location 0 or no trip of the selection has an unknown zone. */
  lemma ZoneAnalyticsConserve(counts: Digest -> nat, hs: seq<Happening>, fullRefresh: bool, f: Filter)
    requires CanHappen(counts, START, hs) && Possible(counts, WorldAfter(counts, START, hs), Build(fullRefresh))
    ensures
      var w := WorldAfter(counts, START, hs);
      var facts := Happens(counts, w, Build(fullRefresh)).facts.value;
      ZonesAddUp(w.s.t, facts, f) <==> ZonesApart(w.s.t, facts, f)
  {
    InitOk(counts);
    HistoryKeeps(counts, START, hs);
    var w := WorldAfter(counts, START, hs);
    HappensKeeps(counts, w, Build(fullRefresh));
    ZoneCountsOfRefresh(w.s.t, Happens(counts, w, Build(fullRefresh)).facts.value, f);
  }
}
