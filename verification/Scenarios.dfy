/** Concrete runs of the protocol in which a condition fails that the pipeline relies on: a filtered list
    that loses rows while it is paged through, a zone with the location 0, zones loaded too late. */
module Scenarios {
  import opened Wrappers
  import opened Cells
  import opened Columns
  import opened Catalog
  import opened Batches
  import opened Lifecycle
  import opened Protocol
  import opened Invariants
  import opened Safety
  import opened Guarantees
  import opened Sessions
  import opened Service
  import opened Recovery
  import opened Relational
  import opened Warehouse
  import opened Grain
  import opened Builds
  import opened History
  import opened Analytics
  import opened EndToEnd
  import opened Paging

  /** In the scenarios every file has one row. */
  ghost const ONE: Digest -> nat := (d: Digest) => 1

  // ---------- putting runs together ----------

  lemma {:induction false} LeadsThrough(counts: Digest -> nat, s: System, first: seq<Event>, u: System,
                                        second: seq<Event>, v: System)
    requires Leads(counts, s, first, u) && Leads(counts, u, second, v)
    ensures Leads(counts, s, first + second, v)
    decreases |first|
  {
    if first == [] {
      assert first + second == second;
    } else {
      assert (first + second)[1..] == first[1..] + second;
      LeadsThrough(counts, Step(counts, s, first[0]), first[1..], u, second, v);
    }
  }

  lemma LeadsKeeps(counts: Digest -> nat, s: System, events: seq<Event>, u: System)
    requires Leads(counts, s, events, u) && Inv(counts, s)
    ensures Inv(counts, u) && Evolves(s.t, u.t)
  {
    RunKeeps(counts, s, events);
  }

  lemma FreshAttempt(used: set<nat>) returns (a: nat)
    ensures a !in used
  {
    a := 0;
    var seen: set<nat> := {};
    while a in used
      invariant forall x: nat :: x in seen <==> x < a
      invariant seen <= used
      decreases used - seen
    {
      seen := seen + {a};
      a := a + 1;
    }
  }

  /** An attempt on a version whose partition is unknown, with a file of the one row, loads it. */
  ghost predicate LoadedRow(s: System, m: Metadata, row: Row, u: System) {
    && s.t.nextSource !in s.t.sources
    && u.t.sources == s.t.sources[s.t.nextSource := SourceFile(s.t.nextSource, m, Loaded)]
    && u.t.raw == s.t.raw + Numbered(Lineage(m.dataset, s.t.nextSource, s.t.nextRun), 1, [row])
  }

  lemma LoadRow(s: System, m: Metadata, row: Row) returns (events: seq<Event>, u: System)
    requires Inv(ONE, s) && Inspected(ONE, m) && !m.dataset.Unsupported? && !PartitionKnown(s.t, m.partition)
    ensures Leads(ONE, s, events, u) && Inv(ONE, u) && LoadedRow(s, m, row, u)
  {
    var a := FreshAttempt(s.attempts.Keys);
    events, u := AloneIsARun(ONE, s, a, m, Some([row]), "", "");
    LeadsKeeps(ONE, s, events, u);
    NextSourceIsFresh(ONE, s.t);
    NewRowLoads(s.t, m, row, SafeErrorMessage("", ""));
  }

  lemma NewRowLoads(t: Tables, m: Metadata, row: Row, text: string)
    requires Inspected(ONE, m) && !PartitionKnown(t, m.partition)
    ensures
      var u := IngestAlone(t, m, Some([row]), text);
      && u.sources == t.sources[t.nextSource := SourceFile(t.nextSource, m, Loaded)]
      && u.raw == t.raw + Numbered(Lineage(m.dataset, t.nextSource, t.nextRun), 1, [row])
  {
    assert ExactVersion(t, m).None?;
    assert Registered(t, m).1 == t.nextSource;
  }

  // ---------- paging through ready sources ----------

  const READY := SourceFilter(None, Some(Ready), None, None)

  /** The January of some year. */
  function January(year: nat): Metadata {
    Metadata(YellowTripdata, Some(Yellow), Some(year), Some(1), Monthly(Yellow, year, 1), "sha256", 1, Some(1))
  }

  /** Sources 1 to `n` are registered and ready, each for another year. */
  ghost predicate ReadyUpTo(t: Tables, n: nat) {
    && t.nextSource == n + 1 && (forall id :: id in t.sources <==> 1 <= id <= n)
    && (forall id :: 1 <= id <= n ==> t.sources[id] == SourceFile(id, January(id), Ready))
  }

  lemma {:induction false} RegisterReady(n: nat) returns (events: seq<Event>, s: System)
    ensures Leads(ONE, INIT, events, s) && Inv(ONE, s) && ReadyUpTo(s.t, n)
  {
    if n == 0 {
      events, s := [], INIT;
      InitOk(ONE);
    } else {
      var before, s1 := RegisterReady(n - 1);
      var a := FreshAttempt(s1.attempts.Keys);
      var more, u := RegistrationEvents(ONE, s1, a, January(n));
      OneMoreReady(s1.t, n);
      LeadsThrough(ONE, INIT, before, s1, more, u);
      events, s := before + more, u;
    }
  }

  lemma OneMoreReady(t: Tables, n: nat)
    requires n > 0 && ReadyUpTo(t, n - 1)
    ensures ReadyUpTo(Registered(t, January(n)).0, n)
  {
    assert forall id :: id in t.sources ==> t.sources[id].meta.partition != January(n).partition;
    assert ExactVersion(t, January(n)).None? && !PartitionKnown(t, January(n).partition);
  }

  /** Of the ready sources 1 to `n` the last one is loaded. */
  ghost predicate LastLoaded(t: Tables, n: nat) {
    && n > 0 && t.nextSource == n + 1 && (forall id :: id in t.sources <==> 1 <= id <= n)
    && (forall id :: 1 <= id <= n ==> t.sources[id] == SourceFile(id, January(id), if id == n then Loaded else Ready))
  }

  lemma LoadLast(s: System, n: nat) returns (events: seq<Event>, u: System)
    requires Inv(ONE, s) && ReadyUpTo(s.t, n) && n > 0
    ensures Leads(ONE, s, events, u) && Inv(ONE, u) && LastLoaded(u.t, n)
  {
    var a := FreshAttempt(s.attempts.Keys);
    events, u := AloneIsARun(ONE, s, a, January(n), Some([[]]), "", "");
    LeadsKeeps(ONE, s, events, u);
    ReadyRowLoads(s.t, n, SafeErrorMessage("", ""));
  }

  lemma ReadyRowLoads(t: Tables, n: nat, text: string)
    requires ReadyUpTo(t, n) && n > 0
    ensures LastLoaded(IngestAlone(t, January(n), Some([[]]), text), n)
  {
    assert IsVersion(t, n, January(n));
    assert forall id :: IsVersion(t, id, January(n)) ==> id == n;
    assert ExactVersion(t, January(n)) == Some(n);
  }

  lemma {:induction false} DescendingAll(ids: set<nat>, n: nat)
    requires forall id: nat :: 1 <= id <= n ==> id in ids
    requires 0 !in ids
    ensures Descending(ids, n + 1) == seq(n, i requires 0 <= i < n => (n - i) as nat)
  {
    if n == 0 {
      assert Descending(ids, 0) == [];
    } else {
      DescendingAll(ids, n - 1);
      assert Descending(ids, n + 1) == [n] + Descending(ids, n);
    }
  }

  lemma ReadyLists(t: Tables, u: Tables, n: nat)
    requires ReadyUpTo(t, n) && LastLoaded(u, n)
    ensures SourceList(t, READY) == seq(n, i requires 0 <= i < n => (n - i) as nat)
    ensures SourceList(u, READY) == seq(n - 1, i requires 0 <= i < n - 1 => (n - 1 - i) as nat)
  {
    DescendingAll(SelectedIds(t, READY), n);
    DescendingAll(SelectedIds(u, READY), n - 1);
    assert n !in SelectedIds(u, READY);
    assert Descending(SelectedIds(u, READY), n + 1) == Descending(SelectedIds(u, READY), n);
  }

  /** A run in which a source that stays ready is not among the ready sources that paging returns: of 101
      ready sources the newest is loaded between the two requests, and the oldest slips. */
  lemma ReadySourceIsMissed() returns (events: seq<Event>, more: seq<Event>)
    ensures CanRun(ONE, INIT, events) && CanRun(ONE, After(ONE, INIT, events), more)
    ensures
      var s := After(ONE, INIT, events);
      var t, u := s.t, After(ONE, s, more).t;
      && HasStatus(t, 1, Ready) && HasStatus(u, 1, Ready)
      && 1 in SourceList(t, READY) && 1 in SourceList(u, READY)
      && 1 !in PagesFrom([SourceList(t, READY), SourceList(u, READY)], 0)
  {
    var s, v;
    events, s := RegisterReady(101);
    more, v := LoadLast(s, 101);
    ReadyLists(s.t, v.t, 101);
    ShortPages(SourceList(s.t, READY), SourceList(v.t, READY));
  }

  lemma ShortPages(first: seq<nat>, second: seq<nat>)
    requires first == seq(101, i requires 0 <= i < 101 => (101 - i) as nat)
    requires second == seq(100, i requires 0 <= i < 100 => (100 - i) as nat)
    ensures 1 in first && 1 in second && 1 !in PagesFrom([first, second], 0)
  {
    assert first[100] == 1 && second[99] == 1;
    assert Page(first, PAGE, 0) == first[..100];
    assert Page(second, PAGE, 100) == [];
    assert PagesFrom([first, second], 1) == [];
  }

  // ---------- one trip and one zone ----------

  ghost const TRIPS := January(2024).(checksum := "trips")
  ghost const ZONES := Metadata(TaxiZoneLookup, None, None, None, TaxiZones, "zones", 1, Some(1))

  function ZoneRow(location: int): Row {
    ZoneValues(ZoneRecord(Some(location), "", "", ""))
  }

  /** A row of a trip file with this pickup location, whatever load it comes from. */
  ghost predicate IsTripRow(row: Row, location: Cell) {
    forall sid, run :: TripOf(RawRow(YellowTripdata, sid, 1, run, row)).pickupLocation == AsInt(location)
  }

  /** The row of a file that has nothing but the pickup location. */
  lemma TripRow(location: Cell) returns (row: Row)
    ensures IsTripRow(row, location)
  {
    var file := ParquetFile(map[PULocationID := [location]], 1);
    row := FirstRow(file, YELLOW_COLUMNS);
    forall sid, run
      ensures TripOf(RawRow(YellowTripdata, sid, 1, run, row)).pickupLocation == AsInt(location)
    {
      FirstTrip(file, Lineage(YellowTripdata, sid, run), location, row);
    }
  }

  lemma FirstRow(file: ParquetFile, names: seq<ColumnName>) returns (row: Row)
    requires file.Valid() && file.count == 1
    ensures file.Rows(names) == [row]
  {
    row := file.Rows(names)[0];
  }

  lemma FirstTrip(file: ParquetFile, l: Lineage, location: Cell, row: Row)
    requires file.Valid() && file.count == 1 && l.dataset == YellowTripdata && file.Rows(YELLOW_COLUMNS) == [row]
    requires file.At(PULocationID, 0) == location
    ensures TripOf(RawRow(YellowTripdata, l.sid, 1, l.run, row)).pickupLocation == AsInt(location)
  {
    YellowTripReadsFile(file, l, 0);
  }

  /** The tables hold one loaded trip source with this one row, and no zones. */
  ghost predicate HasTrip(t: Tables, trip: RawRow, x: nat) {
    && t.raw == [trip] && trip.dataset == YellowTripdata && trip.sid == x
    && (forall id :: id in t.sources <==> id == x) && t.sources[x] == SourceFile(x, TRIPS, Loaded)
  }

  lemma LoadTrip(location: Cell) returns (events: seq<Event>, s: System)
    ensures Leads(ONE, INIT, events, s) && Inv(ONE, s) && |s.t.raw| == 1 && HasTrip(s.t, s.t.raw[0], s.t.raw[0].sid)
    ensures TripOf(s.t.raw[0]).pickupLocation == AsInt(location)
  {
    InitOk(ONE);
    var row := TripRow(location);
    events, s := LoadRow(INIT, TRIPS, row);
    assert Numbered(Lineage(YellowTripdata, 1, 1), 1, [row]) == [RawRow(YellowTripdata, 1, 1, 1, row)];
  }

  /** The trip's tables after a zone version with one zone was loaded too. */
  ghost predicate HasZoneToo(t: Tables, u: Tables, location: int) {
    && |t.raw| == 1 && |u.raw| == 2 && u.raw[0] == t.raw[0]
    && (forall id :: id in t.sources ==> id in u.sources && u.sources[id] == t.sources[id])
    && IsActiveZone(u, u.raw[1]) && Location(u.raw[1]) == Some(location) && u.raw[0].dataset == YellowTripdata
  }

  lemma LoadZone(s: System, location: int) returns (events: seq<Event>, u: System)
    requires Inv(ONE, s) && |s.t.raw| == 1 && HasTrip(s.t, s.t.raw[0], s.t.raw[0].sid)
    ensures Leads(ONE, s, events, u) && Inv(ONE, u) && HasZoneToo(s.t, u.t, location)
  {
    assert !PartitionKnown(s.t, TaxiZones);
    events, u := LoadRow(s, ZONES, ZoneRow(location));
  }

  lemma ActiveTrip(t: Tables)
    requires |t.raw| == 1 && HasTrip(t, t.raw[0], t.raw[0].sid)
    ensures ActiveTrips(t) == [TripOf(t.raw[0])] && ActiveZones(t, t.raw) == []
  {
    StagedOne(t, YellowTripdata, [], t.raw[0]);
    StagedOne(t, GreenTripdata, [], t.raw[0]);
    ActiveZonesOne(t, [], t.raw[0]);
    assert t.raw == [] + [t.raw[0]];
  }

  lemma StagedOne(t: Tables, d: Dataset, raw: seq<RawRow>, r: RawRow)
    ensures Staged(t, d, raw + [r]) == Staged(t, d, raw) + if IsActive(t, d, r) then [TripOf(r)] else []
  {
    assert (raw + [r])[..|raw|] == raw;
  }

  lemma ActiveZonesOne(t: Tables, raw: seq<RawRow>, r: RawRow)
    ensures ActiveZones(t, raw + [r]) == ActiveZones(t, raw) + if IsActiveZone(t, r) then [r] else []
  {
    assert (raw + [r])[..|raw|] == raw;
  }

  lemma ActiveBoth(t: Tables, u: Tables, location: int)
    requires |t.raw| == 1 && HasTrip(t, t.raw[0], t.raw[0].sid) && HasZoneToo(t, u, location)
    ensures ActiveTrips(u) == [TripOf(u.raw[0])] && ActiveZones(u, u.raw) == [u.raw[1]]
    ensures LocationIds(ActiveZones(u, u.raw)) == {location}
  {
    assert u.raw == [] + [u.raw[0]] + [u.raw[1]];
    StagedOne(u, YellowTripdata, [], u.raw[0]);
    StagedOne(u, GreenTripdata, [], u.raw[0]);
    StagedOne(u, YellowTripdata, [] + [u.raw[0]], u.raw[1]);
    StagedOne(u, GreenTripdata, [] + [u.raw[0]], u.raw[1]);
    ActiveZonesOne(u, [], u.raw[0]);
    ActiveZonesOne(u, [] + [u.raw[0]], u.raw[1]);
    OneLocation(u.raw[1]);
  }

  lemma OneLocation(z: RawRow)
    requires Location(z).Some?
    ensures LocationIds([z]) == {Location(z).value}
  {
    assert z in [z];
  }

  // ---------- zones that come too late ----------

  /** Two states of one run: a fact table built in the first, before any zones, and built again in the
      second, after they came, does not hold what a full refresh then holds. */
  lemma LateZonesDisagree() returns (events: seq<Event>, more: seq<Event>)
    ensures CanRun(ONE, INIT, events) && CanRun(ONE, After(ONE, INIT, events), more)
    ensures
      var s := After(ONE, INIT, events);
      var u := After(ONE, s, more).t;
      multiset(Incremental(u, FullRefresh(s.t))) != multiset(FullRefresh(u))
  {
    var s, v;
    events, s := LoadTrip(Int(5));
    more, v := LoadZone(s, 5);
    SerialLeads(INIT, events, s);
    SerialLeads(s, more, v);
    ActiveTrip(s.t);
    ActiveBoth(s.t, v.t, 5);
    var trip := ActiveTrips(s.t)[0];
    assert ZoneKey({5}, trip.pickupLocation) == 5;
    assert !NoneResolved(ActiveTrips(s.t), {5});
    LateZones(s.t, v.t);
  }

  lemma SerialLeads(s: System, events: seq<Event>, u: System)
    requires Leads(ONE, s, events, u) && Inv(ONE, s) && SerialInv(s)
    ensures Inv(ONE, u) && SerialInv(u) && Evolves(s.t, u.t)
  {
    RunKeeps(ONE, s, events);
    SerialRunKeeps(ONE, s, events);
  }

  // ---------- a zone with the location 0 ----------

  function Ingests(events: seq<Event>): seq<Happening> {
    seq(|events|, i requires 0 <= i < |events| => Ingest(events[i]))
  }

  lemma {:induction false} IngestsHappen(counts: Digest -> nat, w: World, events: seq<Event>, u: System)
    requires Leads(counts, w.s, events, u)
    ensures CanHappen(counts, w, Ingests(events)) && WorldAfter(counts, w, Ingests(events)) == w.(s := u)
    decreases |events|
  {
    if events != [] {
      assert Ingests(events)[1..] == Ingests(events[1..]);
      IngestsHappen(counts, w.(s := Step(counts, w.s, events[0])), events[1..], u);
    }
  }

  const EVERYTHING := Filter(None, None, None)

  /** A history that ends with a build, after which the trips per pickup zone do not sum to the trips. */
  lemma UnknownCountedTwice() returns (hs: seq<Happening>)
    ensures CanHappen(ONE, START, hs) && Possible(ONE, WorldAfter(ONE, START, hs), Build(false))
    ensures
      var w := WorldAfter(ONE, START, hs);
      !ZonesAddUp(w.s.t, Happens(ONE, w, Build(false)).facts.value, EVERYTHING)
  {
    var events, s := LoadTrip(Null);
    var more, v := LoadZone(s, 0);
    LeadsThrough(ONE, INIT, events, s, more, v);
    IngestsHappen(ONE, START, events + more, v);
    hs := Ingests(events + more);
    assert START.(s := v) == World(v, None);
    assert ZonesLoaded(v.t) by {
      assert InPartition(v.t, v.t.raw[1].sid, TaxiZones);
    }
    SerialLeads(INIT, events, s);
    SerialLeads(s, more, v);
    ActiveBoth(s.t, v.t, 0);
    UnknownTripCounts(v.t);
  }

  lemma UnknownTripCounts(t: Tables)
    requires Exclusive(t) && NoClash(t.raw) && |t.raw| > 0 && ActiveTrips(t) == [TripOf(t.raw[0])]
    requires LocationIds(ActiveZones(t, t.raw)) == {0} && TripOf(t.raw[0]).pickupLocation.None?
    ensures !ZonesAddUp(t, FullRefresh(t), EVERYTHING)
  {
    var facts := FullRefresh(t);
    FullRefreshResolves(t);
    OneUnlocated(facts, TripOf(t.raw[0]));
    ZoneCountsOfRefresh(t, facts, EVERYTHING);
  }

  lemma OneUnlocated(facts: seq<Fact>, trip: Trip)
    requires facts == Resolve([trip], {0}) && trip.pickupLocation.None?
    ensures CountIf(facts, (x: Fact) => Unlocated(EVERYTHING, x)) == 1
  {
    CountIfUniform(facts, (x: Fact) => Unlocated(EVERYTHING, x), true);
  }
}
