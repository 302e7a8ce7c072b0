/** Evaluating a run again, at any later time, changes nothing but execution times. */
module Idempotence {
  import opened Wrappers
  import opened Cells
  import opened Catalog
  import opened Batches
  import opened Lifecycle
  import opened Protocol
  import opened Invariants
  import opened Safety
  import opened Guarantees
  import opened Relational
  import opened Warehouse
  import opened Quality
  import opened Evaluator

  // ---------- the upserts ----------

  /** The keys that an evaluation of a run writes. */
  function Written(run: nat, rules: seq<Rule>): set<(nat, CheckName)> {
    if rules == [] then {} else Written(run, rules[..|rules| - 1]) + {(run, rules[|rules| - 1].name)}
  }

  lemma {:induction false} WrittenIsOfRun(run: nat, rules: seq<Rule>)
    ensures forall k :: k in Written(run, rules) ==> k.0 == run
    ensures forall i :: 0 <= i < |rules| ==> (run, rules[i].name) in Written(run, rules)
  {
    if rules != [] {
      WrittenIsOfRun(run, rules[..|rules| - 1]);
    }
  }

  /** The two tables agree on all keys but some. */
  ghost predicate AgreeBut(a: Results, b: Results, keys: set<(nat, CheckName)>) {
    forall k :: k !in keys ==> (k in a <==> k in b) && (k in a ==> a[k] == b[k])
  }

  lemma {:induction false} UpsertForgets(a: Results, b: Results, run: nat, rules: seq<Rule>,
                                         ms: map<CheckName, Measurement>, at: int, keys: set<(nat, CheckName)>)
    requires Measures(ms, rules) && AgreeBut(a, b, keys)
    ensures AgreeBut(Upserted(a, run, rules, ms, at), Upserted(b, run, rules, ms, at), keys - Written(run, rules))
  {
    if rules != [] {
      UpsertForgets(a, b, run, rules[..|rules| - 1], ms, at, keys);
    }
  }

  lemma {:induction false} UpsertTouches(a: Results, run: nat, rules: seq<Rule>, ms: map<CheckName, Measurement>,
                                         at: int)
    requires Measures(ms, rules)
    ensures AgreeBut(a, Upserted(a, run, rules, ms, at), Written(run, rules))
    ensures Upserted(a, run, rules, ms, at).Keys == a.Keys + Written(run, rules)
  {
    if rules != [] {
      UpsertTouches(a, run, rules[..|rules| - 1], ms, at);
    }
  }

  /** Upserting the same measurements again replaces the earlier results completely. */
  lemma UpsertTwice(a: Results, run: nat, rules: seq<Rule>, ms: map<CheckName, Measurement>, at: int, later: int)
    requires Measures(ms, rules)
    ensures Upserted(Upserted(a, run, rules, ms, at), run, rules, ms, later) == Upserted(a, run, rules, ms, later)
  {
    var once := Upserted(a, run, rules, ms, at);
    UpsertTouches(a, run, rules, ms, at);
    UpsertForgets(a, once, run, rules, ms, later, Written(run, rules));
    UpsertTouches(a, run, rules, ms, later);
    UpsertTouches(once, run, rules, ms, later);
    var x, y := Upserted(once, run, rules, ms, later), Upserted(a, run, rules, ms, later);
    assert AgreeBut(y, x, {});
    assert x.Keys == y.Keys;
  }

  predicate SameButTime(x: CheckResult, y: CheckResult) {
    x == y.(executedAt := x.executedAt)
  }

  /** The results of a run in two tables are for the same checks and differ at most in execution time. */
  ghost predicate SameVerdicts(a: Results, b: Results, run: nat) {
    forall k: (nat, CheckName) :: k.0 == run ==> (k in a <==> k in b) && (k in a ==> SameButTime(a[k], b[k]))
  }

  lemma {:induction false} TimesOnly(a: Results, run: nat, rules: seq<Rule>, ms: map<CheckName, Measurement>, at: int,
                                     later: int)
    requires Measures(ms, rules)
    ensures SameVerdicts(Upserted(a, run, rules, ms, at), Upserted(a, run, rules, ms, later), run)
  {
    if rules != [] {
      TimesOnly(a, run, rules[..|rules| - 1], ms, at, later);
    }
  }

  lemma SameViolated(a: Results, b: Results, run: nat, severity: Severity)
    requires SameVerdicts(a, b, run)
    ensures Violated(a, run, severity) == Violated(b, run, severity)
  {
    assert (set k | k in a && k.0 == run && a[k].severity == severity && a[k].violated)
        == (set k | k in b && k.0 == run && b[k].severity == severity && b[k].violated);
  }

  /** The two tables hold the same results of a run. */
  ghost predicate SameOfRun(a: Results, b: Results, run: nat) {
    forall k: (nat, CheckName) :: k.0 == run ==> (k in a <==> k in b) && (k in a ==> a[k] == b[k])
  }

  /** The two tables hold the same results of all other runs. */
  ghost predicate SameOfOthers(a: Results, b: Results, run: nat) {
    forall k: (nat, CheckName) :: k.0 != run ==> (k in a <==> k in b) && (k in a ==> a[k] == b[k])
  }

  lemma UpsertSparesOthers(a: Results, run: nat, rules: seq<Rule>, ms: map<CheckName, Measurement>, at: int)
    requires Measures(ms, rules)
    ensures SameOfOthers(a, Upserted(a, run, rules, ms, at), run)
  {
    UpsertTouches(a, run, rules, ms, at);
    WrittenIsOfRun(run, rules);
  }

  /** An evaluation's results for its run depend on the earlier results of that run only. */
  lemma UpsertOfRun(a: Results, b: Results, run: nat, rules: seq<Rule>, ms: map<CheckName, Measurement>, at: int)
    requires Measures(ms, rules) && SameOfRun(a, b, run)
    ensures SameOfRun(Upserted(a, run, rules, ms, at), Upserted(b, run, rules, ms, at), run)
  {
    var others := set k | k in a.Keys + b.Keys && k.0 != run;
    UpsertForgets(a, b, run, rules, ms, at, others);
  }

  // ---------- the measurements ----------

  lemma ZoneRowsStay(t: Tables, u: Tables, z: nat)
    requires Evolves(t, u) && HasStatus(t, z, Loaded)
    ensures ZoneIds(u.raw, z) == ZoneIds(t.raw, z)
  {
    forall r | r in u.raw && r.sid == z
      ensures r in t.raw
    {
      var i :| 0 <= i < |u.raw| && u.raw[i] == r;
      if i < |t.raw| {
        assert t.raw[i] == r;
      }
    }
    assert forall i :: 0 <= i < |t.raw| ==> u.raw[i] == t.raw[i] && u.raw[i] in u.raw;
  }

  lemma ZoneMapStays(t: Tables, u: Tables, rows: seq<RawRow>, z: nat)
    requires Evolves(t, u) && HasStatus(t, z, Loaded) && NoClash(t.raw) && NoClash(u.raw)
    ensures ZoneMap(rows, u.raw, z, |rows|) == ZoneMap(rows, t.raw, z, |rows|)
  {
    ZoneRowsStay(t, u, z);
    UnknownZonesCount(rows, t.raw, z);
    UnknownZonesCount(rows, u.raw, z);
    CountIfSame(rows, (r: RawRow) => TripOf(r).pickupLocation.Some? && TripOf(r).pickupLocation.value !in ZoneIds(t.raw, z),
                rows, (r: RawRow) => TripOf(r).pickupLocation.Some? && TripOf(r).pickupLocation.value !in ZoneIds(u.raw, z));
    CountIfSame(rows, (r: RawRow) => TripOf(r).dropoffLocation.Some? && TripOf(r).dropoffLocation.value !in ZoneIds(t.raw, z),
                rows, (r: RawRow) => TripOf(r).dropoffLocation.Some? && TripOf(r).dropoffLocation.value !in ZoneIds(u.raw, z));
  }

  /** There is never more than one loaded zone version to evaluate against. */
  lemma OneZoneVersion(counts: Digest -> nat, t: Tables, u: Tables, z: nat, y: nat)
    requires SourcesOk(counts, t) && SourcesOk(counts, u) && Exclusive(u) && Evolves(t, u)
    requires IsLoadedZone(t, z) && IsLoadedZone(u, y)
    ensures y == z
  {
    assert SourceOk(counts, t, z) && SourceOk(counts, u, y) && SourceOk(counts, u, z);
    ZonePartition(t.sources[z].meta);
    ZonePartition(u.sources[y].meta);
  }

  lemma ZonePartition(m: Metadata)
    requires Identified(m) && m.dataset == TaxiZoneLookup
    ensures m.partition == TaxiZones
  {
  }

  /** The measurements of a loaded source are the same at every later time. */
  lemma MeasurementsStay(counts: Digest -> nat, t: Tables, u: Tables, cat: Catalogue, sid: nat, z: nat, y: nat,
                         start: Date, end: Date)
    requires TablesOk(counts, t) && TablesOk(counts, u) && Exclusive(u) && Evolves(t, u)
    requires HasStatus(t, sid, Loaded) && IsLoadedZone(t, z) && IsLoadedZone(u, y)
    ensures Measured(cat, RowsOf(u.raw, sid), u.raw, y, start, end)
         == Measured(cat, RowsOf(t.raw, sid), t.raw, z, start, end)
  {
    OneZoneVersion(counts, t, u, z, y);
    RowsStay(t, u, sid);
    ZoneMapStays(t, u, RowsOf(t.raw, sid), z);
  }

  // ---------- the theorem ----------

  /** Evaluating a run over tables `t` at one time, and later over tables `u`. In between the results may
      change, from those of the first evaluation to `mid`. */
  datatype Twice = Twice(
    cat: Catalogue,
    run: nat,
    start: Date,
    end: Date,
    before: Results,
    at: int,
    mid: Results,
    later: int)

  function MeasuredOver(e: Twice, t: Tables, zone: nat): map<CheckName, Measurement>
    requires e.run in t.runs
  {
    Measured(e.cat, RowsOf(t.raw, t.runs[e.run].sid), t.raw, zone, e.start, e.end)
  }

  function First(e: Twice, t: Tables, zone: nat): Results
    requires e.run in t.runs && Measures(MeasuredOver(e, t, zone), e.cat.rules)
  {
    Upserted(e.before, e.run, e.cat.rules, MeasuredOver(e, t, zone), e.at)
  }

  function Second(e: Twice, u: Tables, zone: nat): Results
    requires e.run in u.runs && Measures(MeasuredOver(e, u, zone), e.cat.rules)
  {
    Upserted(e.mid, e.run, e.cat.rules, MeasuredOver(e, u, zone), e.later)
  }

  /** Every result of the run keeps its verdict, its counts and its details, only execution times move;
      the counters are the same; and neither evaluation touches the results of other runs. */
  ghost predicate Idempotent(e: Twice, t: Tables, u: Tables, z: nat, y: nat)
    requires e.run in t.runs && e.run in u.runs && Measures(MeasuredOver(e, t, z), e.cat.rules)
  {
    && Measures(MeasuredOver(e, u, y), e.cat.rules)
    && SameVerdicts(First(e, t, z), Second(e, u, y), e.run)
    && Violated(Second(e, u, y), e.run, Warning) == Violated(First(e, t, z), e.run, Warning)
    && Violated(Second(e, u, y), e.run, Error) == Violated(First(e, t, z), e.run, Error)
    && SameOfOthers(e.before, First(e, t, z), e.run)
    && SameOfOthers(e.mid, Second(e, u, y), e.run)
  }

  lemma EvaluatedTwice(e: Twice, t: Tables, z: nat)
    requires e.run in t.runs && Measures(MeasuredOver(e, t, z), e.cat.rules)
    requires SameOfRun(First(e, t, z), e.mid, e.run)
    ensures Idempotent(e, t, t, z, z)
  {
    var ms := MeasuredOver(e, t, z);
    var first := First(e, t, z);
    UpsertOfRun(first, e.mid, e.run, e.cat.rules, ms, e.later);
    UpsertTwice(e.before, e.run, e.cat.rules, ms, e.at, e.later);
    TimesOnly(e.before, e.run, e.cat.rules, ms, e.at, e.later);
    SameViolated(first, Second(e, t, z), e.run, Warning);
    SameViolated(first, Second(e, t, z), e.run, Error);
    UpsertSparesOthers(e.before, e.run, e.cat.rules, ms, e.at);
    UpsertSparesOthers(e.mid, e.run, e.cat.rules, ms, e.later);
  }

  lemma EvaluatedLater(counts: Digest -> nat, e: Twice, t: Tables, u: Tables, z: nat, y: nat)
    requires TablesOk(counts, t) && TablesOk(counts, u) && Exclusive(u) && Evolves(t, u)
    requires e.run in t.runs && HasStatus(t, t.runs[e.run].sid, Loaded) && IsLoadedZone(t, z) && IsLoadedZone(u, y)
    requires Measures(MeasuredOver(e, t, z), e.cat.rules) && SameOfRun(First(e, t, z), e.mid, e.run)
    ensures e.run in u.runs && Idempotent(e, t, u, z, y)
  {
    MeasurementsStay(counts, t, u, e.cat, t.runs[e.run].sid, z, y, e.start, e.end);
    assert MeasuredOver(e, u, y) == MeasuredOver(e, t, z);
    EvaluatedTwice(e, t, z);
  }

  /** One evaluation, as far as the stored results are concerned. */
  datatype Evaluation = Evaluation(run: nat, rules: seq<Rule>, ms: map<CheckName, Measurement>, at: int)

  function AllUpserted(results: Results, es: seq<Evaluation>): Results
    requires forall k :: 0 <= k < |es| ==> Measures(es[k].ms, es[k].rules)
  {
    if es == [] then results
    else
      var e := es[|es| - 1];
      Upserted(AllUpserted(results, es[..|es| - 1]), e.run, e.rules, e.ms, e.at)
  }

  /** Evaluations of other runs, in any number, leave the results of a run as they are. */
  lemma {:induction false} OthersEvaluated(results: Results, es: seq<Evaluation>, run: nat)
    requires forall k :: 0 <= k < |es| ==> Measures(es[k].ms, es[k].rules) && es[k].run != run
    ensures SameOfRun(results, AllUpserted(results, es), run)
  {
    if es != [] {
      var n := |es| - 1;
      OthersEvaluated(results, es[..n], run);
      UpsertSparesOthers(AllUpserted(results, es[..n]), es[n].run, es[n].rules, es[n].ms, es[n].at);
    }
  }

  /** In every reachable state, whatever happens until the second evaluation, which other runs may be
      evaluated in between as well. */
  lemma ReevaluationIsIdempotent(counts: Digest -> nat, events: seq<Event>, more: seq<Event>, e: Twice, z: nat, y: nat)
    requires CanRun(counts, INIT, events) && SerialRun(counts, INIT, events)
    requires CanRun(counts, After(counts, INIT, events), more) && SerialRun(counts, After(counts, INIT, events), more)
    requires
      var s := After(counts, INIT, events);
      && e.run in s.t.runs && s.t.runs[e.run].status == Succeeded && IsLoadedZone(s.t, z)
      && Measures(MeasuredOver(e, s.t, z), e.cat.rules) && SameOfRun(First(e, s.t, z), e.mid, e.run)
      && IsLoadedZone(After(counts, s, more).t, y)
    ensures
      var s := After(counts, INIT, events);
      var u := After(counts, s, more).t;
      e.run in u.runs && Idempotent(e, s.t, u, z, y)
  {
    var s := After(counts, INIT, events);
    ReachableOk(counts, events);
    InitOk(counts);
    SerialRunKeeps(counts, INIT, events);
    RunKeeps(counts, s, more);
    SerialRunKeeps(counts, s, more);
    assert RunOk(s.t, e.run);
    EvaluatedLater(counts, e, s.t, After(counts, s, more).t, z, y);
  }

  /** The successful run of a monthly partition is unique, so its latest one is determined; and what an
      evaluation counts as checked is what that run loaded. */
  lemma SuccessfulRunIsUnique(counts: Digest -> nat, t: Tables, s: Service, year: nat, month: nat, q: nat, r: nat)
    requires TablesOk(counts, t) && Exclusive(t)
    requires IsSuccessOf(t, q, s, year, month) && IsSuccessOf(t, r, s, year, month)
    ensures q == r && t.runs[q].rowsLoaded == Some(|RowsOf(t.raw, t.runs[q].sid)|)
  {
    assert RunOk(t, q) && RunOk(t, r);
    var i, j := t.runs[q].sid, t.runs[r].sid;
    assert SourceOk(counts, t, i) && SourceOk(counts, t, j);
    TripPartition(t.sources[i].meta, s, year, month);
    TripPartition(t.sources[j].meta, s, year, month);
    assert i == j;
    var run :| LoadedBy(t, i, run);
  }

  lemma TripPartition(m: Metadata, s: Service, year: nat, month: nat)
    requires Identified(m) && m.dataset == (if s == Yellow then YellowTripdata else GreenTripdata)
    requires m.service == Some(s) && m.year == Some(year) && m.month == Some(month)
    ensures m.partition == Monthly(s, year, month)
  {
  }

  /** In tables that satisfy the invariant, the run to evaluate is the successful run of the partition. */
  lemma SuccessIsOfPartition(counts: Digest -> nat, t: Tables, s: Service, year: nat, month: nat, r: nat)
    requires TablesOk(counts, t)
    ensures IsSuccessOf(t, r, s, year, month)
       <==> r in t.runs && t.runs[r].status == Succeeded && t.runs[r].meta.partition == Monthly(s, year, month)
  {
    if r in t.runs {
      assert RunOk(t, r) && SourceOk(counts, t, t.runs[r].sid);
    }
  }

  /** And the runs that can be evaluated are the successful runs of monthly partitions. */
  lemma TargetIsTripRun(counts: Digest -> nat, t: Tables, r: nat)
    requires TablesOk(counts, t)
    ensures IsTarget(t, r) <==> r in t.runs && t.runs[r].status == Succeeded && t.runs[r].meta.partition.Monthly?
  {
    if r in t.runs {
      assert RunOk(t, r) && SourceOk(counts, t, t.runs[r].sid);
    }
  }
}
