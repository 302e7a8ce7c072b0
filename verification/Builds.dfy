/** Incremental builds of the fact table, and their agreement with a full refresh. */
module Builds {
  import opened Wrappers
  import opened Batches
  import opened Lifecycle
  import opened Guarantees
  import opened Warehouse
  import opened Grain

  /** The trips whose source is in the set (`stored`), or those whose source is not. */
  function Only(trips: seq<Trip>, sids: set<nat>, stored: bool): seq<Trip> {
    if trips == [] then []
    else
      var last := trips[|trips| - 1];
      Only(trips[..|trips| - 1], sids, stored) + if (last.sid in sids) == stored then [last] else []
  }

  function Sids(facts: seq<Fact>): set<nat> {
    set f | f in facts :: f.trip.sid
  }

  function FullRefresh(t: Tables): seq<Fact> {
    var trips := ActiveTrips(t);
    FactSelect(trips, DimDate(trips), DimZone(ActiveZones(t, t.raw)))
  }

  /** What an incremental build selects: the trips of sources the fact table has not seen, against
      the dimensions rebuilt from all active trips. */
  function Unseen(t: Tables, facts: seq<Fact>): seq<Fact> {
    var trips := ActiveTrips(t);
    FactSelect(Only(trips, Sids(facts), false), DimDate(trips), DimZone(ActiveZones(t, t.raw)))
  }

  predicate SameKey(x: Fact, y: Fact) {
    x.trip.sid == y.trip.sid && x.trip.number == y.trip.number
  }

  predicate Replaced(f: Fact, unseen: seq<Fact>) {
    exists u :: u in unseen && SameKey(f, u)
  }

  /** The delete half: the stored facts whose key is not among the new ones. */
  function Kept(facts: seq<Fact>, unseen: seq<Fact>): seq<Fact> {
    if facts == [] then []
    else
      var last := facts[|facts| - 1];
      Kept(facts[..|facts| - 1], unseen) + if Replaced(last, unseen) then [] else [last]
  }

  function Incremental(t: Tables, facts: seq<Fact>): seq<Fact> {
    Kept(facts, Unseen(t, facts)) + Unseen(t, facts)
  }

  /** The fact table after a build. */
  function Built(t: Tables, facts: Option<seq<Fact>>, fullRefresh: bool): seq<Fact> {
    if fullRefresh || facts.None? then FullRefresh(t) else Incremental(t, facts.value)
  }

  // ---------- selecting trips ----------

  lemma {:induction false} OnlyAppend(a: seq<Trip>, b: seq<Trip>, sids: set<nat>, stored: bool)
    ensures Only(a + b, sids, stored) == Only(a, sids, stored) + Only(b, sids, stored)
  {
    if b == [] {
      assert a + b == a;
    } else {
      var n := |b| - 1;
      OnlyAppend(a, b[..n], sids, stored);
      OnlyAppendSnoc(a, b[..n], b[n], sids, stored);
      assert b == b[..n] + [b[n]];
    }
  }

  lemma OnlyAppendSnoc(a: seq<Trip>, b: seq<Trip>, last: Trip, sids: set<nat>, stored: bool)
    requires Only(a + b, sids, stored) == Only(a, sids, stored) + Only(b, sids, stored)
    ensures Only(a + (b + [last]), sids, stored) == Only(a, sids, stored) + Only(b + [last], sids, stored)
  {
    OnlySnoc(a + b, last, sids, stored);
    OnlySnoc(b, last, sids, stored);
    Regroup(a, b, [last]);
    Regroup(Only(a, sids, stored), Only(b, sids, stored), if (last.sid in sids) == stored then [last] else []);
  }

  lemma Regroup<T>(a: seq<T>, b: seq<T>, c: seq<T>)
    ensures a + (b + c) == a + b + c
  {
  }

  lemma OnlySnoc(trips: seq<Trip>, last: Trip, sids: set<nat>, stored: bool)
    ensures Only(trips + [last], sids, stored)
         == Only(trips, sids, stored) + if (last.sid in sids) == stored then [last] else []
  {
    assert (trips + [last])[..|trips|] == trips;
  }

  lemma {:induction false} OnlyMembers(trips: seq<Trip>, sids: set<nat>, stored: bool)
    ensures forall k :: 0 <= k < |Only(trips, sids, stored)| ==>
      Only(trips, sids, stored)[k] in trips && (Only(trips, sids, stored)[k].sid in sids) == stored
  {
    if trips != [] {
      OnlyMembers(trips[..|trips| - 1], sids, stored);
    }
  }

  lemma {:induction false} OnlyAll(trips: seq<Trip>, sids: set<nat>)
    requires forall k :: 0 <= k < |trips| ==> trips[k].sid in sids
    ensures Only(trips, sids, true) == trips
  {
    if trips != [] {
      OnlyAll(trips[..|trips| - 1], sids);
      assert trips == trips[..|trips| - 1] + [trips[|trips| - 1]];
    }
  }

  lemma ResolveAppend(a: seq<Trip>, b: seq<Trip>, zones: set<int>)
    ensures Resolve(a + b, zones) == Resolve(a, zones) + Resolve(b, zones)
  {
    forall k | 0 <= k < |a + b|
      ensures Resolve(a + b, zones)[k] == (Resolve(a, zones) + Resolve(b, zones))[k]
    {
      assert (a + b)[k] == if k < |a| then a[k] else b[k - |a|];
    }
  }

  /** The stored and the unseen trips together are all trips. */
  lemma {:induction false} OnlySplits(trips: seq<Trip>, sids: set<nat>, zones: set<int>)
    ensures multiset(Resolve(trips, zones))
         == multiset(Resolve(Only(trips, sids, true), zones)) + multiset(Resolve(Only(trips, sids, false), zones))
  {
    if trips != [] {
      var n := |trips| - 1;
      OnlySplits(trips[..n], sids, zones);
      var last := [trips[n]];
      assert trips == trips[..n] + last;
      ResolveAppend(trips[..n], last, zones);
      var stored := trips[n].sid in sids;
      ResolveAppend(Only(trips[..n], sids, stored), last, zones);
      assert Only(trips[..n], sids, !stored) + [] == Only(trips[..n], sids, !stored);
    }
  }

  // ---------- one build ----------

  /** The stored facts are what a full refresh would now produce for the sources they come from. */
  ghost predicate FactsCurrent(t: Tables, facts: seq<Fact>) {
    multiset(facts) == multiset(Resolve(Only(ActiveTrips(t), Sids(facts), true), LocationIds(ActiveZones(t, t.raw))))
  }

  lemma {:induction false} ActiveZoneMembers(t: Tables, raw: seq<RawRow>)
    ensures forall z :: z in ActiveZones(t, raw) <==> z in raw && IsActiveZone(t, z)
  {
    if raw != [] {
      ActiveZoneMembers(t, raw[..|raw| - 1]);
      assert raw == raw[..|raw| - 1] + [raw[|raw| - 1]];
    }
  }

  /** Zone uniqueness of one version carries over to the dimension, because only one version is loaded. */
  lemma {:induction false} ActiveZonesDistinct(t: Tables, raw: seq<RawRow>)
    requires Exclusive(t) && NoClash(raw)
    ensures ZonesDistinct(ActiveZones(t, raw))
  {
    if raw != [] {
      var n := |raw| - 1;
      ActiveZonesDistinct(t, raw[..n]);
      ActiveZoneMembers(t, raw[..n]);
      if IsActiveZone(t, raw[n]) {
        var before := ActiveZones(t, raw[..n]);
        forall k | 0 <= k < |before|
          ensures Location(raw[n]).Some? ==> Location(before[k]) != Location(raw[n])
        {
          assert before[k] in before;
          var i :| 0 <= i < n && raw[i] == before[k];
          assert !Clash(raw[i], raw[n]);
        }
      }
    }
  }

  /** With the dimensions of the whole tables, any selection of active trips is resolved trip by trip. */
  lemma SelectIsResolve(t: Tables, trips: seq<Trip>)
    requires Exclusive(t) && NoClash(t.raw)
    requires forall k :: 0 <= k < |trips| ==> trips[k] in ActiveTrips(t)
    ensures FactSelect(trips, DimDate(ActiveTrips(t)), DimZone(ActiveZones(t, t.raw)))
         == Resolve(trips, LocationIds(ActiveZones(t, t.raw)))
  {
    var all := ActiveTrips(t);
    DimDateOk(all);
    ActiveZonesDistinct(t, t.raw);
    forall k | 0 <= k < |trips|
      ensures HasDate(DimDate(all), DateOf(trips[k].pickup)) && HasDate(DimDate(all), DateOf(trips[k].dropoff))
    {
      assert trips[k] in all;
      var i :| 0 <= i < |all| && all[i] == trips[k];
      DimDateCovers(all, i);
    }
    FactSelectKeepsGrain(trips, DimDate(all), ActiveZones(t, t.raw));
  }

  lemma {:induction false} KeptAll(facts: seq<Fact>, unseen: seq<Fact>)
    requires forall f, u :: f in facts && u in unseen ==> !SameKey(f, u)
    ensures Kept(facts, unseen) == facts
  {
    if facts != [] {
      KeptAll(facts[..|facts| - 1], unseen);
      assert facts == facts[..|facts| - 1] + [facts[|facts| - 1]];
    }
  }

  /** The delete half of an incremental build never removes a row. */
  lemma DeleteRemovesNothing(t: Tables, facts: seq<Fact>)
    requires Exclusive(t) && NoClash(t.raw)
    ensures Kept(facts, Unseen(t, facts)) == facts
  {
    var missing := Only(ActiveTrips(t), Sids(facts), false);
    OnlyMembers(ActiveTrips(t), Sids(facts), false);
    SelectIsResolve(t, missing);
    forall f, u | f in facts && u in Unseen(t, facts)
      ensures !SameKey(f, u)
    {
      var k :| 0 <= k < |missing| && u == Resolved(missing[k], LocationIds(ActiveZones(t, t.raw)));
      assert f.trip.sid in Sids(facts);
    }
    KeptAll(facts, Unseen(t, facts));
  }

  lemma FullRefreshResolves(t: Tables)
    requires Exclusive(t) && NoClash(t.raw)
    ensures FullRefresh(t) == Resolve(ActiveTrips(t), LocationIds(ActiveZones(t, t.raw)))
  {
    SelectIsResolve(t, ActiveTrips(t));
  }

  lemma CompleteIsCurrent(t: Tables, facts: seq<Fact>)
    requires multiset(facts) == multiset(Resolve(ActiveTrips(t), LocationIds(ActiveZones(t, t.raw))))
    ensures FactsCurrent(t, facts)
  {
    var trips, zones := ActiveTrips(t), LocationIds(ActiveZones(t, t.raw));
    forall k | 0 <= k < |trips|
      ensures trips[k].sid in Sids(facts)
    {
      assert Resolve(trips, zones)[k] in multiset(Resolve(trips, zones));
      assert Resolve(trips, zones)[k] in multiset(facts);
    }
    OnlyAll(trips, Sids(facts));
  }

  /** An incremental build over current facts yields the rows of a full refresh, no more and no fewer. */
  lemma IncrementalIsFullRefresh(t: Tables, facts: seq<Fact>)
    requires Exclusive(t) && NoClash(t.raw) && FactsCurrent(t, facts)
    ensures multiset(Incremental(t, facts)) == multiset(FullRefresh(t))
    ensures FactsCurrent(t, Incremental(t, facts))
  {
    var zones := LocationIds(ActiveZones(t, t.raw));
    var missing := Only(ActiveTrips(t), Sids(facts), false);
    OnlyMembers(ActiveTrips(t), Sids(facts), false);
    SelectIsResolve(t, missing);
    DeleteRemovesNothing(t, facts);
    OnlySplits(ActiveTrips(t), Sids(facts), zones);
    FullRefreshResolves(t);
    CompleteIsCurrent(t, Incremental(t, facts));
  }

  // ---------- the table ----------

  /** What every build promises, given facts that are current for these tables, if there are any: the
      rows of a full refresh, of which an incremental build only appends the missing ones. */
  lemma BuiltIsFullRefresh(t: Tables, facts: Option<seq<Fact>>, fullRefresh: bool)
    requires Exclusive(t) && NoClash(t.raw) && (facts.Some? ==> FactsCurrent(t, facts.value))
    ensures multiset(Built(t, facts, fullRefresh)) == multiset(FullRefresh(t))
    ensures FactsCurrent(t, Built(t, facts, fullRefresh))
    ensures !fullRefresh && facts.Some? ==> facts.value <= Built(t, facts, fullRefresh)
  {
    if fullRefresh || facts.None? {
      FullRefreshResolves(t);
      CompleteIsCurrent(t, FullRefresh(t));
    } else {
      IncrementalIsFullRefresh(t, facts.value);
      DeleteRemovesNothing(t, facts.value);
    }
  }

  method DeleteReplaced(facts: seq<Fact>, unseen: seq<Fact>) returns (kept: seq<Fact>)
    ensures kept == Kept(facts, unseen)
  {
    kept := [];
    for k := 0 to |facts|
      invariant kept == Kept(facts[..k], unseen)
    {
      assert facts[..k + 1][..k] == facts[..k];
      if !Replaced(facts[k], unseen) {
        kept := kept + [facts[k]];
      }
    }
    assert facts[..|facts|] == facts;
  }

  /** The fact table, materialised as incremental with delete and insert. */
  class FactTable {
    var rows: Option<seq<Fact>>

    /** What the table holds, if anything, is current for these tables. */
    ghost predicate CurrentFor(t: Tables)
      reads this
    {
      Exclusive(t) && NoClash(t.raw) && (rows.Some? ==> FactsCurrent(t, rows.value))
    }

    constructor ()
      ensures rows == None
    {
      rows := None;
    }

    /** Replaces the table, or deletes and inserts. A table that was current then holds exactly the rows of
        a full refresh, stays current, and has lost no row to an incremental build. */
    method Build(t: Tables, fullRefresh: bool)
      modifies this
      ensures rows == Some(Built(t, old(rows), fullRefresh))
      ensures old(CurrentFor(t)) ==> CurrentFor(t) && multiset(rows.value) == multiset(FullRefresh(t))
      ensures old(CurrentFor(t)) && !fullRefresh && old(rows).Some? ==> old(rows).value <= rows.value
    {
      ghost var before := rows;
      if fullRefresh || rows.None? {
        rows := Some(FullRefresh(t));
      } else {
        var unseen := Unseen(t, rows.value);
        var kept := DeleteReplaced(rows.value, unseen);
        rows := Some(kept + unseen);
      }
      if old(CurrentFor(t)) {
        BuiltIsFullRefresh(t, before, fullRefresh);
      }
    }
  }
}
