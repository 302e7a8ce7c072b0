/** Which trips and zones are active: those of the loaded sources, each raw row once. */
module Actives {
  import opened Wrappers
  import opened Cells
  import opened Catalog
  import opened Batches
  import opened Lifecycle
  import opened Protocol
  import opened Invariants
  import opened Guarantees
  import opened Relational
  import opened Warehouse
  import opened Grain
  import opened Builds
  import opened History

  /** A loaded source of a monthly partition. */
  predicate IsTripSource(t: Tables, s: nat) {
    HasStatus(t, s, Loaded) && t.sources[s].meta.partition.Monthly?
  }

  function TripsOf(rows: seq<RawRow>): seq<Trip> {
    seq(|rows|, i requires 0 <= i < |rows| => TripOf(rows[i]))
  }

  // ---------- the trips of one source ----------

  /** Every raw row of the source is in the table of the source's dataset. */
  ghost predicate InItsTable(t: Tables, s: nat, raw: seq<RawRow>) {
    forall i :: 0 <= i < |raw| && raw[i].sid == s ==> HasStatus(t, s, Loaded) && raw[i].dataset == t.sources[s].meta.dataset
  }

  lemma RowsInTheirTable(counts: Digest -> nat, t: Tables, s: nat)
    requires TablesOk(counts, t) && HasStatus(t, s, Loaded)
    ensures InItsTable(t, s, t.raw)
  {
    assert SourceOk(counts, t, s);
    var r :| LoadedBy(t, s, r);
    RowsOfMember(t.raw, s);
    forall i | 0 <= i < |t.raw| && t.raw[i].sid == s
      ensures t.raw[i].dataset == t.sources[s].meta.dataset
    {
      assert t.raw[i] in RowsOf(t.raw, s);
      var k :| 0 <= k < |RowsOf(t.raw, s)| && RowsOf(t.raw, s)[k] == t.raw[i];
    }
  }

  lemma RowsOfSnoc(raw: seq<RawRow>, r: RawRow, s: nat)
    ensures RowsOf(raw + [r], s) == RowsOf(raw, s) + if r.sid == s then [r] else []
  {
    assert (raw + [r])[..|raw|] == raw;
  }

  lemma TripsOfSnoc(rows: seq<RawRow>, r: RawRow)
    ensures TripsOf(rows + [r]) == TripsOf(rows) + [TripOf(r)]
  {
  }

  /** Restricted to one source, the staging view of the source's dataset is the source's rows, and the
      view of the other dataset has none of them. */
  lemma {:induction false} StagedOfSource(t: Tables, d: Dataset, raw: seq<RawRow>, s: nat)
    requires d == YellowTripdata || d == GreenTripdata
    requires IsTripSource(t, s) && Identified(t.sources[s].meta) && InItsTable(t, s, raw)
    ensures Only(Staged(t, d, raw), {s}, true)
         == if DatasetOf(t.sources[s].meta.partition) == d then TripsOf(RowsOf(raw, s)) else []
  {
    if raw == [] {
      assert TripsOf([]) == [];
    } else {
      var n := |raw| - 1;
      StagedOfSource(t, d, raw[..n], s);
      assert raw == raw[..n] + [raw[n]];
      StagedOneMore(t, d, raw[..n], raw[n], s);
    }
  }

  lemma StagedOneMore(t: Tables, d: Dataset, raw: seq<RawRow>, r: RawRow, s: nat)
    requires d == YellowTripdata || d == GreenTripdata
    requires IsTripSource(t, s) && Identified(t.sources[s].meta)
    requires r.sid == s ==> r.dataset == t.sources[s].meta.dataset
    requires Only(Staged(t, d, raw), {s}, true)
          == if DatasetOf(t.sources[s].meta.partition) == d then TripsOf(RowsOf(raw, s)) else []
    ensures Only(Staged(t, d, raw + [r]), {s}, true)
         == if DatasetOf(t.sources[s].meta.partition) == d then TripsOf(RowsOf(raw + [r], s)) else []
  {
    StagedStep(t, d, raw, r, {s});
    RowsOfSnoc(raw, r, s);
    if r.sid == s {
      TripsOfSnoc(RowsOf(raw, s), r);
    } else {
      assert RowsOf(raw, s) + [] == RowsOf(raw, s);
    }
  }

  /** The active trips of a loaded source are its raw rows, row for row. */
  lemma ActiveOfSource(counts: Digest -> nat, t: Tables, s: nat)
    requires TablesOk(counts, t) && IsTripSource(t, s)
    ensures Only(ActiveTrips(t), {s}, true) == TripsOf(RowsOf(t.raw, s))
  {
    assert SourceOk(counts, t, s);
    RowsInTheirTable(counts, t, s);
    StagedOfSource(t, YellowTripdata, t.raw, s);
    StagedOfSource(t, GreenTripdata, t.raw, s);
    OnlyAppend(Staged(t, YellowTripdata, t.raw), Staged(t, GreenTripdata, t.raw), {s}, true);
  }

  lemma {:induction false} StagedFromSources(t: Tables, d: Dataset, raw: seq<RawRow>, k: nat)
    requires (d == YellowTripdata || d == GreenTripdata) && k < |Staged(t, d, raw)|
    requires forall s :: s in t.sources ==> Identified(t.sources[s].meta)
    ensures IsTripSource(t, Staged(t, d, raw)[k].sid)
  {
    var n := |raw| - 1;
    if k < |Staged(t, d, raw[..n])| {
      StagedFromSources(t, d, raw[..n], k);
    }
  }

  /** Every active trip comes from a loaded source of a monthly partition. */
  lemma ActiveFromSources(counts: Digest -> nat, t: Tables, k: nat)
    requires TablesOk(counts, t) && k < |ActiveTrips(t)|
    ensures IsTripSource(t, ActiveTrips(t)[k].sid)
  {
    assert forall s :: s in t.sources ==> SourceOk(counts, t, s);
    var n := |Staged(t, YellowTripdata, t.raw)|;
    if k < n {
      StagedFromSources(t, YellowTripdata, t.raw, k);
    } else {
      StagedFromSources(t, GreenTripdata, t.raw, k - n);
    }
  }

  /** In every reachable state, the active trips are exactly the raw rows of the loaded trip sources. */
  lemma ActiveTripsAreLoadedRows(counts: Digest -> nat, events: seq<Event>)
    requires CanRun(counts, INIT, events)
    ensures
      var t := After(counts, INIT, events).t;
      && (forall s :: IsTripSource(t, s) ==> Only(ActiveTrips(t), {s}, true) == TripsOf(RowsOf(t.raw, s)))
      && (forall k :: 0 <= k < |ActiveTrips(t)| ==> IsTripSource(t, ActiveTrips(t)[k].sid))
  {
    ReachableOk(counts, events);
    var t := After(counts, INIT, events).t;
    forall s | IsTripSource(t, s)
      ensures Only(ActiveTrips(t), {s}, true) == TripsOf(RowsOf(t.raw, s))
    {
      ActiveOfSource(counts, t, s);
    }
    forall k | 0 <= k < |ActiveTrips(t)|
      ensures IsTripSource(t, ActiveTrips(t)[k].sid)
    {
      ActiveFromSources(counts, t, k);
    }
  }

  // ---------- how many there are ----------

  /** The rows loaded by the successful runs of monthly partitions, over the run ids below `n`. */
  function LoadedTotal(t: Tables, n: nat): nat {
    if n == 0 then 0 else LoadedTotal(t, n - 1) + LoadedIn(t, n - 1)
  }

  function LoadedIn(t: Tables, r: nat): nat {
    if r in t.runs && t.runs[r].status == Succeeded && t.runs[r].meta.partition.Monthly? && t.runs[r].rowsLoaded.Some? then
      t.runs[r].rowsLoaded.value
    else
      0
  }

  function CountOfRun(trips: seq<Trip>, r: nat): nat {
    CountIf(trips, (x: Trip) => x.run == r)
  }

  /** Adding up the trips run by run counts all of them. */
  function RunTotal(trips: seq<Trip>, n: nat): nat {
    if n == 0 then 0 else RunTotal(trips, n - 1) + CountOfRun(trips, n - 1)
  }

  lemma {:induction false} RunTotalSnoc(trips: seq<Trip>, x: Trip, n: nat)
    ensures RunTotal(trips + [x], n) == RunTotal(trips, n) + if x.run < n then 1 else 0
  {
    if n > 0 {
      RunTotalSnoc(trips, x, n - 1);
      assert (trips + [x])[..|trips|] == trips;
    }
  }

  lemma {:induction false} RunTotalOfNone(n: nat)
    ensures RunTotal([], n) == 0
  {
    if n > 0 {
      RunTotalOfNone(n - 1);
    }
  }

  lemma {:induction false} RunTotalIsAll(trips: seq<Trip>, n: nat)
    requires forall k :: 0 <= k < |trips| ==> trips[k].run < n
    ensures RunTotal(trips, n) == |trips|
  {
    if trips == [] {
      RunTotalOfNone(n);
    } else {
      var m := |trips| - 1;
      RunTotalIsAll(trips[..m], n);
      RunTotalSnoc(trips[..m], trips[m], n);
      assert trips == trips[..m] + [trips[m]];
    }
  }

  lemma {:induction false} SameTotals(t: Tables, trips: seq<Trip>, n: nat)
    requires forall r: nat :: r < n ==> CountOfRun(trips, r) == LoadedIn(t, r)
    ensures RunTotal(trips, n) == LoadedTotal(t, n)
  {
    if n > 0 {
      SameTotals(t, trips, n - 1);
    }
  }

  lemma {:induction false} OnlyCounts(trips: seq<Trip>, s: nat, r: nat)
    requires forall k :: 0 <= k < |trips| ==> (trips[k].run == r <==> trips[k].sid == s)
    ensures CountOfRun(trips, r) == |Only(trips, {s}, true)|
  {
    if trips != [] {
      OnlyCounts(trips[..|trips| - 1], s, r);
    }
  }

  /** The run of an active trip is the successful run of its source. */
  lemma ActiveRun(counts: Digest -> nat, t: Tables, k: nat)
    requires TablesOk(counts, t) && k < |ActiveTrips(t)|
    ensures ActiveTrips(t)[k].sid in t.sources && LoadedBy(t, ActiveTrips(t)[k].sid, ActiveTrips(t)[k].run)
  {
    var x := ActiveTrips(t)[k];
    ActiveFromSources(counts, t, k);
    ActiveOfSource(counts, t, x.sid);
    assert SourceOk(counts, t, x.sid);
    var r :| LoadedBy(t, x.sid, r);
    OnlyHas(ActiveTrips(t), x.sid, k);
    var i :| 0 <= i < |RowsOf(t.raw, x.sid)| && TripsOf(RowsOf(t.raw, x.sid))[i] == x;
  }

  lemma {:induction false} OnlyHas(trips: seq<Trip>, s: nat, k: nat)
    requires k < |trips| && trips[k].sid == s
    ensures trips[k] in Only(trips, {s}, true)
  {
    if k < |trips| - 1 {
      OnlyHas(trips[..|trips| - 1], s, k);
    }
  }

  lemma TripsOfRun(counts: Digest -> nat, t: Tables, r: nat)
    requires TablesOk(counts, t)
    ensures CountOfRun(ActiveTrips(t), r) == LoadedIn(t, r)
  {
    var trips := ActiveTrips(t);
    if r in t.runs && t.runs[r].status == Succeeded && t.runs[r].meta.partition.Monthly? {
      var s := t.runs[r].sid;
      assert RunOk(t, r) && SourceOk(counts, t, s);
      assert LoadedBy(t, s, r);
      forall k | 0 <= k < |trips|
        ensures trips[k].run == r <==> trips[k].sid == s
      {
        ActiveRun(counts, t, k);
      }
      OnlyCounts(trips, s, r);
      ActiveOfSource(counts, t, s);
    } else {
      forall k | 0 <= k < |trips|
        ensures trips[k].run != r
      {
        ActiveRun(counts, t, k);
        ActiveFromSources(counts, t, k);
        assert RunOk(t, trips[k].run);
      }
      CountIfUniform(trips, (x: Trip) => x.run == r, false);
    }
  }

  lemma ActiveTotal(counts: Digest -> nat, t: Tables)
    requires TablesOk(counts, t)
    ensures |ActiveTrips(t)| == LoadedTotal(t, t.nextRun)
  {
    var trips := ActiveTrips(t);
    forall k | 0 <= k < |trips|
      ensures trips[k].run < t.nextRun
    {
      ActiveRun(counts, t, k);
      assert RunOk(t, trips[k].run);
    }
    forall r: nat | r < t.nextRun
      ensures CountOfRun(trips, r) == LoadedIn(t, r)
    {
      TripsOfRun(counts, t, r);
    }
    RunTotalIsAll(trips, t.nextRun);
    SameTotals(t, trips, t.nextRun);
  }

  // ---------- the facts ----------

  /** The trips of the facts. */
  function FactTrips(facts: seq<Fact>): seq<Trip> {
    seq(|facts|, i requires 0 <= i < |facts| => facts[i].trip)
  }

  lemma WithoutAt(facts: seq<Fact>, k: nat, rest: seq<Fact>)
    requires k < |facts| && rest == facts[..k] + facts[k + 1..]
    ensures multiset(rest) == multiset(facts) - multiset{facts[k]}
    ensures multiset(FactTrips(facts)) == multiset(FactTrips(rest)) + multiset{facts[k].trip}
  {
    assert facts == facts[..k] + [facts[k]] + facts[k + 1..];
    TripsWithoutAt(facts, k, FactTrips(facts));
    assert FactTrips(rest) == FactTrips(facts[..k]) + FactTrips(facts[k + 1..]);
  }

  lemma TripsWithoutAt(facts: seq<Fact>, k: nat, trips: seq<Trip>)
    requires k < |facts| && trips == FactTrips(facts)
    ensures multiset(trips) == multiset(FactTrips(facts[..k]) + FactTrips(facts[k + 1..])) + multiset{facts[k].trip}
  {
    assert FactTrips(facts[..k]) == trips[..k] && FactTrips(facts[k + 1..]) == trips[k + 1..];
    assert trips == trips[..k] + [trips[k]] + trips[k + 1..];
  }

  lemma {:induction false} SameTrips(facts: seq<Fact>, others: seq<Fact>)
    requires multiset(facts) == multiset(others)
    ensures multiset(FactTrips(facts)) == multiset(FactTrips(others))
    decreases |facts|
  {
    if facts == [] {
      assert |multiset(others)| == 0;
    } else {
      assert facts[0] in multiset(facts) && facts[0] in multiset(others);
      var k :| 0 <= k < |others| && others[k] == facts[0];
      var rest, more := facts[..0] + facts[1..], others[..k] + others[k + 1..];
      WithoutAt(facts, 0, rest);
      WithoutAt(others, k, more);
      SameTrips(rest, more);
    }
  }

  /** After any history that ends with a build, the facts are the active trips, each once, so there are
      as many as all successful trip runs have loaded. */
  lemma FactsAreLoadedRows(counts: Digest -> nat, hs: seq<Happening>, fullRefresh: bool)
    requires CanHappen(counts, START, hs) && Possible(counts, WorldAfter(counts, START, hs), Build(fullRefresh))
    ensures
      var w := WorldAfter(counts, START, hs);
      var facts := Happens(counts, w, Build(fullRefresh)).facts.value;
      && multiset(FactTrips(facts)) == multiset(ActiveTrips(w.s.t))
      && |facts| == LoadedTotal(w.s.t, w.s.t.nextRun)
      && (forall s :: IsTripSource(w.s.t, s) ==>
            Only(ActiveTrips(w.s.t), {s}, true) == TripsOf(RowsOf(w.s.t.raw, s)))
  {
    InitOk(counts);
    HistoryKeeps(counts, START, hs);
    var w := WorldAfter(counts, START, hs);
    HappensKeeps(counts, w, Build(fullRefresh));
    RefreshTrips(counts, w.s.t, Happens(counts, w, Build(fullRefresh)).facts.value);
    forall s | IsTripSource(w.s.t, s)
      ensures Only(ActiveTrips(w.s.t), {s}, true) == TripsOf(RowsOf(w.s.t.raw, s))
    {
      ActiveOfSource(counts, w.s.t, s);
    }
  }

  lemma RefreshTrips(counts: Digest -> nat, t: Tables, facts: seq<Fact>)
    requires TablesOk(counts, t) && Exclusive(t) && multiset(facts) == multiset(FullRefresh(t))
    ensures multiset(FactTrips(facts)) == multiset(ActiveTrips(t)) && |facts| == LoadedTotal(t, t.nextRun)
  {
    var all := FullRefresh(t);
    FullRefreshResolves(t);
    RefreshHasTrips(all, ActiveTrips(t), LocationIds(ActiveZones(t, t.raw)));
    SameTrips(facts, all);
    assert |multiset(facts)| == |multiset(all)|;
    ActiveTotal(counts, t);
  }

  lemma RefreshHasTrips(all: seq<Fact>, trips: seq<Trip>, zones: set<int>)
    requires all == Resolve(trips, zones)
    ensures FactTrips(all) == trips
  {
  }

  // ---------- the zones ----------

  lemma {:induction false} ZonesOfSource(t: Tables, raw: seq<RawRow>, z: nat)
    requires Exclusive(t) && InPartition(t, z, TaxiZones) && t.sources[z].status == Loaded && InItsTable(t, z, raw)
    requires t.sources[z].meta.dataset == TaxiZoneLookup
    ensures ActiveZones(t, raw) == RowsOf(raw, z)
  {
    if raw != [] {
      var n := |raw| - 1;
      ZonesOfSource(t, raw[..n], z);
      ActiveZoneIsOf(t, z, raw[n]);
    }
  }

  /** Under serialised registrations, the active zones are the raw rows of the loaded zone version. */
  lemma ActiveZonesAreLoadedRows(counts: Digest -> nat, events: seq<Event>, z: nat)
    requires CanRun(counts, INIT, events) && SerialRun(counts, INIT, events)
    requires
      var t := After(counts, INIT, events).t;
      InPartition(t, z, TaxiZones) && t.sources[z].status == Loaded
    ensures
      var t := After(counts, INIT, events).t;
      ActiveZones(t, t.raw) == RowsOf(t.raw, z)
  {
    InitOk(counts);
    ReachableOk(counts, events);
    SerialRunKeeps(counts, INIT, events);
    var t := After(counts, INIT, events).t;
    assert SourceOk(counts, t, z);
    RowsInTheirTable(counts, t, z);
    ZonesOfSource(t, t.raw, z);
  }

  // ---------- what a fact says ----------

  ghost predicate KeyOfDate(at: Option<Timestamp>, key: int) {
    match at
    case Some(stamp) => key == 10000 * stamp.date.year + 100 * stamp.date.month + stamp.date.day
    case None => key == 0
  }

  /** The location itself, if one of the zone rows has it, and 0 otherwise. */
  ghost predicate KeyOfLocation(zones: seq<RawRow>, location: Option<int>, key: int) {
    if location.Some? && exists i :: 0 <= i < |zones| && Location(zones[i]) == location then key == location.value
    else key == 0
  }

  ghost predicate KeyOfVendor(vendor: Option<int>, key: int) {
    if vendor.Some? && exists i :: 0 <= i < |DIM_VENDOR| && DIM_VENDOR[i].vendor == vendor then key == vendor.value
    else key == 0
  }

  ghost predicate NameOfCode(codes: seq<CodeName>, code: Option<int>, name: string) {
    && (forall i :: 0 <= i < |codes| && code == Some(codes[i].code) ==> name == codes[i].name)
    && ((forall i :: 0 <= i < |codes| ==> code != Some(codes[i].code)) ==> name == "Unknown")
  }

  /** Every key and name of a fact follows from its own trip, the zone rows and the seeds. */
  ghost predicate FactMeans(x: Fact, zones: seq<RawRow>) {
    && KeyOfDate(x.trip.pickup, x.pickupDateKey) && KeyOfDate(x.trip.dropoff, x.dropoffDateKey)
    && KeyOfLocation(zones, x.trip.pickupLocation, x.pickupZoneKey)
    && KeyOfLocation(zones, x.trip.dropoffLocation, x.dropoffZoneKey)
    && KeyOfVendor(x.trip.vendor, x.vendorKey)
    && NameOfCode(RATE_CODES, x.trip.rateCode, x.rateCodeName)
    && NameOfCode(PAYMENT_TYPES, x.trip.payment, x.paymentName)
  }

  lemma ZoneKeyMeans(zones: seq<RawRow>, location: Option<int>)
    ensures KeyOfLocation(zones, location, ZoneKey(LocationIds(zones), location))
  {
    if location.Some? {
      if location.value in LocationIds(zones) {
        var z :| z in zones && Location(z) == location;
        var i :| 0 <= i < |zones| && zones[i] == z;
      } else {
        assert forall i :: 0 <= i < |zones| ==> zones[i] in zones;
      }
    }
  }

  lemma VendorKeyMeans(vendor: Option<int>)
    ensures KeyOfVendor(vendor, VendorKey(vendor))
  {
    assert DIM_VENDOR[1].vendor == Some(1) && DIM_VENDOR[2].vendor == Some(2)
        && DIM_VENDOR[3].vendor == Some(6) && DIM_VENDOR[4].vendor == Some(7) && DIM_VENDOR[0].vendor == None;
  }

  lemma {:induction false} NameMeans(codes: seq<CodeName>, code: Option<int>)
    requires CodesDiffer(codes)
    ensures NameOfCode(codes, code, NameOf(codes, code))
  {
    if codes != [] && code != Some(codes[0].code) {
      NameMeans(codes[1..], code);
      assert forall i :: 1 <= i < |codes| ==> codes[i] == codes[1..][i - 1];
    }
  }

  lemma ResolvedMeans(trip: Trip, zones: seq<RawRow>, rates: seq<CodeName>, payments: seq<CodeName>)
    requires rates == RATE_CODES && payments == PAYMENT_TYPES && CodesDiffer(rates) && CodesDiffer(payments)
    ensures FactMeans(ResolvedWith(trip, LocationIds(zones), rates, payments), zones)
  {
    ZoneKeyMeans(zones, trip.pickupLocation);
    ZoneKeyMeans(zones, trip.dropoffLocation);
    VendorKeyMeans(trip.vendor);
    NameMeans(rates, trip.rateCode);
    NameMeans(payments, trip.payment);
  }

  /** After any history that ends with a build, every fact's keys and names are those of its own trip,
      against the rows of the loaded zone version. */
  lemma FactsMean(counts: Digest -> nat, hs: seq<Happening>, fullRefresh: bool, z: nat, k: nat)
    requires CanHappen(counts, START, hs) && Possible(counts, WorldAfter(counts, START, hs), Build(fullRefresh))
    requires
      var w := WorldAfter(counts, START, hs);
      InPartition(w.s.t, z, TaxiZones) && w.s.t.sources[z].status == Loaded
    requires k < |Happens(counts, WorldAfter(counts, START, hs), Build(fullRefresh)).facts.value|
    ensures
      var w := WorldAfter(counts, START, hs);
      FactMeans(Happens(counts, w, Build(fullRefresh)).facts.value[k], RowsOf(w.s.t.raw, z))
  {
    InitOk(counts);
    HistoryKeeps(counts, START, hs);
    var w := WorldAfter(counts, START, hs);
    HappensKeeps(counts, w, Build(fullRefresh));
    RefreshedFactMeans(counts, w.s.t, Happens(counts, w, Build(fullRefresh)).facts.value, z, k);
  }

  lemma RefreshedFactMeans(counts: Digest -> nat, t: Tables, facts: seq<Fact>, z: nat, k: nat)
    requires TablesOk(counts, t) && Exclusive(t) && multiset(facts) == multiset(FullRefresh(t)) && k < |facts|
    requires InPartition(t, z, TaxiZones) && t.sources[z].status == Loaded
    ensures FactMeans(facts[k], RowsOf(t.raw, z))
  {
    assert SourceOk(counts, t, z);
    RowsInTheirTable(counts, t, z);
    ZonesOfSource(t, t.raw, z);
    FullRefreshResolves(t);
    var i := SameMember(facts, FullRefresh(t), k);
    SeedCodesDiffer();
    ResolvedMeans(ActiveTrips(t)[i], RowsOf(t.raw, z), RATE_CODES, PAYMENT_TYPES);
  }
}
