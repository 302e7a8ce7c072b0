/** Whole histories of ingestion events and warehouse builds. */
module History {
  import opened Wrappers
  import opened Catalog
  import opened Batches
  import opened Lifecycle
  import opened Protocol
  import opened Invariants
  import opened Safety
  import opened Guarantees
  import opened Warehouse
  import opened Grain
  import opened Builds

  /** The ingestion protocol and the fact table, which does not exist before the first build. */
  datatype World = World(s: System, facts: Option<seq<Fact>>)

  datatype Happening = Ingest(e: Event) | Build(fullRefresh: bool)

  const START := World(INIT, None)

  ghost predicate ZonesLoaded(t: Tables) {
    exists z :: InPartition(t, z, TaxiZones) && t.sources[z].status == Loaded
  }

  /** Registrations of different contents of one partition do not overlap, and a build finds a loaded zone
      version: the monthly workflow loads it first, and the build's own tests demand exactly one. A build is
      atomic with respect to ingestion. */
  ghost predicate Possible(counts: Digest -> nat, w: World, h: Happening) {
    match h
    case Ingest(e) => Enabled(counts, w.s, e) && Serialised(w.s, e)
    case Build(_) => ZonesLoaded(w.s.t)
  }

  ghost function Happens(counts: Digest -> nat, w: World, h: Happening): World
    requires Possible(counts, w, h)
  {
    match h
    case Ingest(e) => w.(s := Step(counts, w.s, e))
    case Build(fullRefresh) =>
      w.(facts := Some(Built(w.s.t, w.facts, fullRefresh)))
  }

  ghost predicate CanHappen(counts: Digest -> nat, w: World, hs: seq<Happening>)
    decreases |hs|
  {
    hs == [] || (Possible(counts, w, hs[0]) && CanHappen(counts, Happens(counts, w, hs[0]), hs[1..]))
  }

  ghost function WorldAfter(counts: Digest -> nat, w: World, hs: seq<Happening>): World
    requires CanHappen(counts, w, hs)
    decreases |hs|
  {
    if hs == [] then w else WorldAfter(counts, Happens(counts, w, hs[0]), hs[1..])
  }

  ghost predicate WorldOk(counts: Digest -> nat, w: World) {
    && Inv(counts, w.s) && SerialInv(w.s)
    && (w.facts.Some? ==> ZonesLoaded(w.s.t) && FactsCurrent(w.s.t, w.facts.value))
  }

  // ---------- what ingestion leaves alone ----------

  lemma {:induction false} StagedMembers(t: Tables, d: Dataset, raw: seq<RawRow>)
    ensures forall k :: 0 <= k < |Staged(t, d, raw)| ==> HasStatus(t, Staged(t, d, raw)[k].sid, Loaded)
  {
    if raw != [] {
      StagedMembers(t, d, raw[..|raw| - 1]);
    }
  }

  /** Stored facts come from loaded sources. */
  lemma StoredIsLoaded(t: Tables, facts: seq<Fact>, sid: nat)
    requires FactsCurrent(t, facts) && sid in Sids(facts)
    ensures HasStatus(t, sid, Loaded)
  {
    var f :| f in facts && f.trip.sid == sid;
    var trips, zones := Only(ActiveTrips(t), Sids(facts), true), LocationIds(ActiveZones(t, t.raw));
    assert f in multiset(facts) && f in multiset(Resolve(trips, zones));
    var k :| 0 <= k < |trips| && Resolve(trips, zones)[k] == f;
    OnlyMembers(ActiveTrips(t), Sids(facts), true);
    StagedMembers(t, YellowTripdata, t.raw);
    StagedMembers(t, GreenTripdata, t.raw);
  }

  lemma StagedStep(t: Tables, d: Dataset, raw: seq<RawRow>, r: RawRow, sids: set<nat>)
    ensures Only(Staged(t, d, raw + [r]), sids, true)
         == Only(Staged(t, d, raw), sids, true) + if IsActive(t, d, r) && r.sid in sids then [TripOf(r)] else []
  {
    assert (raw + [r])[..|raw|] == raw;
    var before := Staged(t, d, raw);
    if IsActive(t, d, r) {
      OnlySnoc(before, TripOf(r), sids, true);
    } else {
      assert before + [] == before;
    }
  }

  lemma {:induction false} StagedSame(t: Tables, u: Tables, d: Dataset, raw: seq<RawRow>, sids: set<nat>)
    requires Evolves(t, u) && forall sid :: sid in sids ==> HasStatus(t, sid, Loaded)
    ensures Only(Staged(u, d, raw), sids, true) == Only(Staged(t, d, raw), sids, true)
  {
    if raw != [] {
      var n := |raw| - 1;
      StagedSame(t, u, d, raw[..n], sids);
      assert raw == raw[..n] + [raw[n]];
      StagedStep(t, d, raw[..n], raw[n], sids);
      StagedStep(u, d, raw[..n], raw[n], sids);
    }
  }

  lemma {:induction false} StagedAdded(u: Tables, d: Dataset, raw: seq<RawRow>, added: seq<RawRow>, sids: set<nat>)
    requires forall i :: 0 <= i < |added| ==> added[i].sid !in sids
    ensures Only(Staged(u, d, raw + added), sids, true) == Only(Staged(u, d, raw), sids, true)
  {
    if added == [] {
      assert raw + added == raw;
    } else {
      var n := |added| - 1;
      StagedAdded(u, d, raw, added[..n], sids);
      assert raw + added == raw + added[..n] + [added[n]];
      StagedStep(u, d, raw + added[..n], added[n], sids);
    }
  }

  lemma StoredTripsStay(t: Tables, u: Tables, sids: set<nat>)
    requires Evolves(t, u) && forall sid :: sid in sids ==> HasStatus(t, sid, Loaded)
    ensures Only(ActiveTrips(u), sids, true) == Only(ActiveTrips(t), sids, true)
  {
    var added := u.raw[|t.raw|..];
    assert u.raw == t.raw + added;
    assert forall i :: 0 <= i < |added| ==> added[i] == u.raw[|t.raw| + i];
    StagedSame(t, u, YellowTripdata, t.raw, sids);
    StagedAdded(u, YellowTripdata, t.raw, added, sids);
    StagedSame(t, u, GreenTripdata, t.raw, sids);
    StagedAdded(u, GreenTripdata, t.raw, added, sids);
    OnlyAppend(Staged(t, YellowTripdata, t.raw), Staged(t, GreenTripdata, t.raw), sids, true);
    OnlyAppend(Staged(u, YellowTripdata, u.raw), Staged(u, GreenTripdata, u.raw), sids, true);
  }

  /** Once a zone version is loaded, exactly the rows of that version are ever active. */
  lemma ActiveZoneIsOf(t: Tables, z: nat, r: RawRow)
    requires Exclusive(t) && InPartition(t, z, TaxiZones) && t.sources[z].status == Loaded
    ensures IsActiveZone(t, r) ==> r.sid == z
  {
  }

  lemma {:induction false} ActiveZonesSame(t: Tables, u: Tables, z: nat, raw: seq<RawRow>)
    requires Evolves(t, u) && Exclusive(t) && Exclusive(u)
    requires InPartition(t, z, TaxiZones) && t.sources[z].status == Loaded
    ensures ActiveZones(u, raw) == ActiveZones(t, raw)
  {
    if raw != [] {
      var n := |raw| - 1;
      ActiveZonesSame(t, u, z, raw[..n]);
      ActiveZoneIsOf(t, z, raw[n]);
      ActiveZoneIsOf(u, z, raw[n]);
    }
  }

  lemma {:induction false} ActiveZonesAdded(u: Tables, z: nat, raw: seq<RawRow>, added: seq<RawRow>)
    requires Exclusive(u) && InPartition(u, z, TaxiZones) && u.sources[z].status == Loaded
    requires forall i :: 0 <= i < |added| ==> added[i].sid != z
    ensures ActiveZones(u, raw + added) == ActiveZones(u, raw)
  {
    if added == [] {
      assert raw + added == raw;
    } else {
      var n := |added| - 1;
      ActiveZonesAdded(u, z, raw, added[..n]);
      assert (raw + added)[..|raw + added| - 1] == raw + added[..n];
      ActiveZoneIsOf(u, z, added[n]);
    }
  }

  lemma ZonesStay(t: Tables, u: Tables)
    requires Evolves(t, u) && Exclusive(t) && Exclusive(u) && ZonesLoaded(t)
    ensures ActiveZones(u, u.raw) == ActiveZones(t, t.raw) && ZonesLoaded(u)
  {
    var z :| InPartition(t, z, TaxiZones) && t.sources[z].status == Loaded;
    assert InPartition(u, z, TaxiZones) && u.sources[z].status == Loaded;
    var added := u.raw[|t.raw|..];
    assert u.raw == t.raw + added;
    assert forall i :: 0 <= i < |added| ==> added[i] == u.raw[|t.raw| + i];
    ActiveZonesSame(t, u, z, t.raw);
    ActiveZonesAdded(u, z, t.raw, added);
  }

  // ---------- the theorem ----------

  lemma FactsStayCurrent(t: Tables, u: Tables, facts: seq<Fact>)
    requires Evolves(t, u) && Exclusive(t) && Exclusive(u) && ZonesLoaded(t) && FactsCurrent(t, facts)
    ensures FactsCurrent(u, facts)
  {
    ZonesStay(t, u);
    forall sid | sid in Sids(facts)
      ensures HasStatus(t, sid, Loaded)
    {
      StoredIsLoaded(t, facts, sid);
    }
    StoredTripsStay(t, u, Sids(facts));
  }

  lemma HappensKeeps(counts: Digest -> nat, w: World, h: Happening)
    requires WorldOk(counts, w) && Possible(counts, w, h)
    ensures WorldOk(counts, Happens(counts, w, h))
    ensures h.Build? ==> multiset(Happens(counts, w, h).facts.value) == multiset(FullRefresh(w.s.t))
  {
    var t := w.s.t;
    match h
    case Ingest(e) =>
      StepKeeps(counts, w.s, e);
      SerialStepKeeps(counts, w.s, e);
      if w.facts.Some? {
        ZonesStay(t, Step(counts, w.s, e).t);
        FactsStayCurrent(t, Step(counts, w.s, e).t, w.facts.value);
      }
    case Build(fullRefresh) =>
      BuiltIsFullRefresh(t, w.facts, fullRefresh);
  }

  lemma {:induction false} HistoryKeeps(counts: Digest -> nat, w: World, hs: seq<Happening>)
    requires WorldOk(counts, w) && CanHappen(counts, w, hs)
    ensures WorldOk(counts, WorldAfter(counts, w, hs))
    decreases |hs|
  {
    if hs != [] {
      HappensKeeps(counts, w, hs[0]);
      HistoryKeeps(counts, Happens(counts, w, hs[0]), hs[1..]);
    }
  }

  /** After every build of every history, incremental or not, the fact table holds exactly the rows of
      a full refresh at that moment, and an incremental build deletes nothing. */
  lemma BuildsAgreeWithFullRefresh(counts: Digest -> nat, hs: seq<Happening>, fullRefresh: bool)
    requires CanHappen(counts, START, hs) && Possible(counts, WorldAfter(counts, START, hs), Build(fullRefresh))
    ensures
      var w := WorldAfter(counts, START, hs);
      && multiset(Happens(counts, w, Build(fullRefresh)).facts.value) == multiset(FullRefresh(w.s.t))
      && (w.facts.Some? ==> Kept(w.facts.value, Unseen(w.s.t, w.facts.value)) == w.facts.value)
  {
    InitOk(counts);
    HistoryKeeps(counts, START, hs);
    var w := WorldAfter(counts, START, hs);
    HappensKeeps(counts, w, Build(fullRefresh));
    if w.facts.Some? {
      DeleteRemovesNothing(w.s.t, w.facts.value);
    }
  }

  // ---------- why the zones have to come first ----------

  /** Both zone keys of every trip stay unknown under these zones. */
  ghost predicate NoneResolved(trips: seq<Trip>, zones: set<int>) {
    forall k :: 0 <= k < |trips| ==>
      ZoneKey(zones, trips[k].pickupLocation) == 0 && ZoneKey(zones, trips[k].dropoffLocation) == 0
  }

  lemma UnresolvedAgree(trips: seq<Trip>, zones: set<int>)
    ensures multiset(Resolve(trips, {})) == multiset(Resolve(trips, zones)) <==> NoneResolved(trips, zones)
  {
    var without, with := Resolve(trips, {}), Resolve(trips, zones);
    if NoneResolved(trips, zones) {
      assert without == with;
    }
    if multiset(without) == multiset(with) {
      forall k | 0 <= k < |trips|
        ensures ZoneKey(zones, trips[k].pickupLocation) == 0 && ZoneKey(zones, trips[k].dropoffLocation) == 0
      {
        assert with[k] in multiset(with) && with[k] in multiset(without);
        var i :| 0 <= i < |trips| && without[i] == with[k];
      }
    }
  }

  lemma LoadedTripsOnly(t: Tables)
    ensures forall k :: 0 <= k < |ActiveTrips(t)| ==> HasStatus(t, ActiveTrips(t)[k].sid, Loaded)
  {
    StagedMembers(t, YellowTripdata, t.raw);
    StagedMembers(t, GreenTripdata, t.raw);
  }

  lemma SidsOfResolve(trips: seq<Trip>, zones: set<int>)
    ensures forall k :: 0 <= k < |trips| ==> trips[k].sid in Sids(Resolve(trips, zones))
    ensures forall sid :: sid in Sids(Resolve(trips, zones)) ==> exists k :: 0 <= k < |trips| && trips[k].sid == sid
  {
    forall k | 0 <= k < |trips|
      ensures trips[k].sid in Sids(Resolve(trips, zones))
    {
      assert Resolve(trips, zones)[k] in Resolve(trips, zones);
    }
  }

  /** What was stored without zones are the trips of that time, which are the stored ones ever after. */
  lemma LateStored(t: Tables, u: Tables)
    requires Evolves(t, u) && Exclusive(t) && NoClash(t.raw) && ActiveZones(t, t.raw) == []
    ensures FullRefresh(t) == Resolve(ActiveTrips(t), {})
    ensures Only(ActiveTrips(u), Sids(FullRefresh(t)), true) == ActiveTrips(t)
  {
    var stored, facts := ActiveTrips(t), FullRefresh(t);
    FullRefreshResolves(t);
    assert LocationIds([]) == {};
    assert facts == Resolve(stored, {});
    SidsOfResolve(stored, {});
    LoadedTripsOnly(t);
    StoredTripsStay(t, u, Sids(facts));
    OnlyAll(stored, Sids(facts));
  }

  /** An incremental build appends the other trips, resolved with the zones of now. */
  lemma LateAppended(u: Tables, facts: seq<Fact>)
    requires Exclusive(u) && NoClash(u.raw)
    ensures
      var rest := Only(ActiveTrips(u), Sids(facts), false);
      Incremental(u, facts) == facts + Resolve(rest, LocationIds(ActiveZones(u, u.raw)))
  {
    var rest := Only(ActiveTrips(u), Sids(facts), false);
    OnlyMembers(ActiveTrips(u), Sids(facts), false);
    SelectIsResolve(u, rest);
    DeleteRemovesNothing(u, facts);
  }

  /** A full refresh resolves all of them with the zones of now. */
  lemma LateRefreshed(u: Tables, facts: seq<Fact>, stored: seq<Trip>)
    requires Exclusive(u) && NoClash(u.raw) && Only(ActiveTrips(u), Sids(facts), true) == stored
    ensures
      var zones := LocationIds(ActiveZones(u, u.raw));
      multiset(FullRefresh(u))
      == multiset(Resolve(stored, zones)) + multiset(Resolve(Only(ActiveTrips(u), Sids(facts), false), zones))
  {
    OnlySplits(ActiveTrips(u), Sids(facts), LocationIds(ActiveZones(u, u.raw)));
    FullRefreshResolves(u);
  }

  /** A fact table first built without zones and then built again after zones were loaded agrees with a
      full refresh exactly when no trip of the first build has a location that the zones resolve. */
  lemma LateZones(t: Tables, u: Tables)
    requires Evolves(t, u) && Exclusive(t) && Exclusive(u) && NoClash(t.raw) && NoClash(u.raw)
    requires ActiveZones(t, t.raw) == []
    ensures multiset(Incremental(u, FullRefresh(t))) == multiset(FullRefresh(u))
       <==> NoneResolved(ActiveTrips(t), LocationIds(ActiveZones(u, u.raw)))
  {
    var zones, stored, facts := LocationIds(ActiveZones(u, u.raw)), ActiveTrips(t), FullRefresh(t);
    var rest := Resolve(Only(ActiveTrips(u), Sids(facts), false), zones);
    LateStored(t, u);
    LateAppended(u, facts);
    LateRefreshed(u, facts, stored);
    UnresolvedAgree(stored, zones);
    CancelRight(multiset(facts), multiset(Resolve(stored, zones)), multiset(rest));
  }

  lemma CancelRight<T>(a: multiset<T>, b: multiset<T>, c: multiset<T>)
    ensures a + c == b + c <==> a == b
  {
    if a + c == b + c {
      assert a == (a + c) - c && b == (b + c) - c;
    }
  }
}
