/** Quality evaluation of one successful run: target validation, upserted results, run counters. */
module Evaluator {
  import opened Wrappers
  import opened Cells
  import opened Catalog
  import opened Batches
  import opened Lifecycle
  import opened Months
  import opened Relational
  import opened Quality

  datatype Rule = Rule(name: CheckName, severity: Severity)

  datatype Catalogue = Catalogue(conditions: seq<Condition>, domains: seq<Domain>, rules: seq<Rule>)

  /** A stored check result; the failure rate is an exact fraction. */
  datatype CheckResult = CheckResult(severity: Severity, violated: bool, checked: nat, failed: nat, rate: real,
                                     details: Details, executedAt: int)

  type Results = map<(nat, CheckName), CheckResult>

  datatype EvaluationError =
    | NoSuccessfulRun | UnknownPipelineRun | RunNotSucceeded | NotATripRun | SourceNotLoaded | NoMonth
    | NoLoadedZones | EmptyZones
    | CatalogueMismatch | NoWindow

  datatype Summary = Summary(run: nat, checked: nat, checks: nat, warnings: nat, errors: nat)

  // ---------- measuring ----------

  predicate IsLoadedZone(t: Tables, z: nat) {
    HasStatus(t, z, Loaded) && t.sources[z].meta.dataset == TaxiZoneLookup
  }

  /** The source month's window; none when its bounds are not dates. */
  function Window(m: Metadata): Option<(Date, Date)> {
    if m.year.None? || m.month.None? || !(1 <= m.year.value <= 9999) || !(1 <= m.month.value <= 12) then None
    else
      match End(m.year.value, m.month.value)
      case Some(end) => Some((Start(m.year.value, m.month.value), end))
      case None => None
  }

  function Measured(cat: Catalogue, rows: seq<RawRow>, raw: seq<RawRow>, zoneSid: nat, start: Date,
                    end: Date): map<CheckName, Measurement> {
    ScalarMap(cat.conditions, rows, start, end)
    + DomainMap(cat.domains, rows, |rows|)
    + ZoneMap(rows, raw, zoneSid, |rows|)
    + map[ExactDuplicates := DuplicateMeasurement(rows, |rows|)]
  }

  lemma BoundedMerge(a: map<CheckName, Measurement>, b: map<CheckName, Measurement>, n: nat)
    requires Bounded(a, n) && Bounded(b, n)
    ensures Bounded(a + b, n)
  {
  }

  /** Every measurement of an evaluation has 0 <= rows_failed <= rows_checked, the number of raw rows. */
  lemma MeasuredBounded(cat: Catalogue, rows: seq<RawRow>, raw: seq<RawRow>, zoneSid: nat, start: Date, end: Date)
    requires NoClash(raw)
    ensures Bounded(Measured(cat, rows, raw, zoneSid, start, end), |rows|)
  {
    var scalar, domains := ScalarMap(cat.conditions, rows, start, end), DomainMap(cat.domains, rows, |rows|);
    var zones := ZoneMap(rows, raw, zoneSid, |rows|);
    ScalarBounded(cat.conditions, rows, start, end);
    DomainsBounded(cat.domains, rows);
    BoundedMerge(scalar, domains, |rows|);
    ZonesBounded(rows, raw, zoneSid);
    BoundedMerge(scalar + domains, zones, |rows|);
    DuplicatesBounded(rows);
    BoundedMerge(scalar + domains + zones, map[ExactDuplicates := DuplicateMeasurement(rows, |rows|)], |rows|);
  }

  // ---------- storing ----------

  function ResultOf(rule: Rule, m: Measurement, at: int): CheckResult {
    CheckResult(rule.severity, m.failed != 0, m.checked, m.failed,
                if m.checked == 0 then 0.0 else m.failed as real / m.checked as real, m.details, at)
  }

  predicate Measures(ms: map<CheckName, Measurement>, rules: seq<Rule>) {
    forall i :: 0 <= i < |rules| ==> rules[i].name in ms
  }

  /** One insert-or-update per rule, in catalogue order. */
  function Upserted(results: Results, run: nat, rules: seq<Rule>, ms: map<CheckName, Measurement>, at: int): Results
    requires Measures(ms, rules)
  {
    if rules == [] then results
    else
      var rule := rules[|rules| - 1];
      Upserted(results, run, rules[..|rules| - 1], ms, at)[(run, rule.name) := ResultOf(rule, ms[rule.name], at)]
  }

  function Violated(results: Results, run: nat, severity: Severity): nat {
    |set k | k in results && k.0 == run && results[k].severity == severity && results[k].violated|
  }

  // ---------- what is stored ----------

  predicate DistinctNames(rules: seq<Rule>) {
    forall i, j :: 0 <= i < |rules| && 0 <= j < |rules| && rules[i].name == rules[j].name ==> i == j
  }

  /** The stored result of a rule says what was measured: violated exactly when rows failed, and with the
      failure rate of the counts. */
  ghost predicate Records(results: Results, run: nat, rule: Rule, m: Measurement) {
    var k := (run, rule.name);
    && k in results && results[k].severity == rule.severity && (results[k].violated <==> m.failed > 0)
    && results[k].checked == m.checked && results[k].failed == m.failed && results[k].details == m.details
    && (m.failed <= m.checked ==> results[k].rate * m.checked as real == m.failed as real)
  }

  ghost predicate RecordsAll(results: Results, run: nat, rules: seq<Rule>, ms: map<CheckName, Measurement>)
    requires Measures(ms, rules)
  {
    forall i :: 0 <= i < |rules| ==> Records(results, run, rules[i], ms[rules[i].name])
  }

  lemma ResultRecords(results: Results, run: nat, rule: Rule, m: Measurement, at: int)
    ensures Records(results[(run, rule.name) := ResultOf(rule, m, at)], run, rule, m)
  {
  }

  lemma {:induction false} UpsertRecords(a: Results, run: nat, rules: seq<Rule>, ms: map<CheckName, Measurement>,
                                         at: int)
    requires Measures(ms, rules) && DistinctNames(rules)
    ensures RecordsAll(Upserted(a, run, rules, ms, at), run, rules, ms)
  {
    if rules != [] {
      var n := |rules| - 1;
      UpsertRecords(a, run, rules[..n], ms, at);
      var before := Upserted(a, run, rules[..n], ms, at);
      ResultRecords(before, run, rules[n], ms[rules[n].name], at);
      forall i | 0 <= i < n
        ensures Records(Upserted(a, run, rules, ms, at), run, rules[i], ms[rules[i].name])
      {
        assert rules[..n][i] == rules[i] && Records(before, run, rules[..n][i], ms[rules[i].name]);
        assert rules[i].name != rules[n].name;
      }
    }
  }

  /** How many rules of a severity have failing rows. */
  function Failing(rules: seq<Rule>, ms: map<CheckName, Measurement>, severity: Severity): nat {
    CountIf(rules, (rule: Rule) => rule.severity == severity && rule.name in ms && ms[rule.name].failed > 0)
  }

  /** The run has no stored results but for these rules. */
  ghost predicate OnlyNamed(results: Results, run: nat, rules: seq<Rule>) {
    forall k :: k in results && k.0 == run ==> Named(rules, k.1)
  }

  ghost predicate Named(rules: seq<Rule>, name: CheckName) {
    exists i :: 0 <= i < |rules| && rules[i].name == name
  }

  function FailingKeys(run: nat, rules: seq<Rule>, ms: map<CheckName, Measurement>,
                       severity: Severity): set<(nat, CheckName)>
    requires Measures(ms, rules)
  {
    if rules == [] then {}
    else
      var rule := rules[|rules| - 1];
      FailingKeys(run, rules[..|rules| - 1], ms, severity)
      + if rule.severity == severity && ms[rule.name].failed > 0 then {(run, rule.name)} else {}
  }

  lemma {:induction false} FailingKeysAre(run: nat, rules: seq<Rule>, ms: map<CheckName, Measurement>,
                                          severity: Severity, k: (nat, CheckName))
    requires Measures(ms, rules)
    ensures k in FailingKeys(run, rules, ms, severity) <==>
      exists i :: 0 <= i < |rules| && rules[i].severity == severity && ms[rules[i].name].failed > 0 && k == (run, rules[i].name)
  {
    if rules != [] {
      var n := |rules| - 1;
      FailingKeysAre(run, rules[..n], ms, severity, k);
      assert forall i :: 0 <= i < n ==> rules[..n][i] == rules[i];
    }
  }

  lemma {:induction false} FailingKeysCard(run: nat, rules: seq<Rule>, ms: map<CheckName, Measurement>,
                                           severity: Severity)
    requires Measures(ms, rules) && DistinctNames(rules)
    ensures |FailingKeys(run, rules, ms, severity)| == Failing(rules, ms, severity)
  {
    if rules != [] {
      FailingKeysCard(run, rules[..|rules| - 1], ms, severity);
      LastIsNew(run, rules, ms, severity);
    }
  }

  lemma LastIsNew(run: nat, rules: seq<Rule>, ms: map<CheckName, Measurement>, severity: Severity)
    requires Measures(ms, rules) && DistinctNames(rules) && rules != []
    ensures (run, rules[|rules| - 1].name) !in FailingKeys(run, rules[..|rules| - 1], ms, severity)
  {
    var n := |rules| - 1;
    FailingKeysAre(run, rules[..n], ms, severity, (run, rules[n].name));
    assert forall i :: 0 <= i < n ==> rules[..n][i] == rules[i] && rules[i].name != rules[n].name;
  }

  lemma {:induction false} UpsertNames(a: Results, run: nat, rules: seq<Rule>, ms: map<CheckName, Measurement>, at: int)
    requires Measures(ms, rules)
    ensures forall k :: k in Upserted(a, run, rules, ms, at) ==> k in a || (k.0 == run && Named(rules, k.1))
  {
    if rules != [] {
      var n := |rules| - 1;
      UpsertNames(a, run, rules[..n], ms, at);
      forall k | k in Upserted(a, run, rules, ms, at)
        ensures k in a || (k.0 == run && Named(rules, k.1))
      {
        if k == (run, rules[n].name) {
          assert rules[n].name == k.1;
        } else if k !in a {
          var i :| 0 <= i < n && rules[..n][i].name == k.1;
          assert rules[i].name == k.1;
        }
      }
    }
  }

  /** The number of a run's violated results of a severity is the number of its failing rules. */
  lemma ViolatedIsFailing(a: Results, run: nat, rules: seq<Rule>, ms: map<CheckName, Measurement>, at: int,
                          severity: Severity)
    requires Measures(ms, rules) && DistinctNames(rules) && OnlyNamed(a, run, rules)
    ensures Violated(Upserted(a, run, rules, ms, at), run, severity) == Failing(rules, ms, severity)
  {
    var b := Upserted(a, run, rules, ms, at);
    UpsertNames(a, run, rules, ms, at);
    UpsertRecords(a, run, rules, ms, at);
    ViolatedKeys(b, run, rules, ms, severity);
    FailingKeysCard(run, rules, ms, severity);
  }

  lemma ViolatedKeys(b: Results, run: nat, rules: seq<Rule>, ms: map<CheckName, Measurement>, severity: Severity)
    requires Measures(ms, rules) && OnlyNamed(b, run, rules) && RecordsAll(b, run, rules, ms)
    ensures Violated(b, run, severity) == |FailingKeys(run, rules, ms, severity)|
  {
    var violated := set k | k in b && k.0 == run && b[k].severity == severity && b[k].violated;
    forall k: (nat, CheckName)
      ensures k in violated <==> k in FailingKeys(run, rules, ms, severity)
    {
      FailingKeysAre(run, rules, ms, severity, k);
      if k in violated {
        var i :| 0 <= i < |rules| && rules[i].name == k.1;
        assert Records(b, run, rules[i], ms[rules[i].name]);
      }
      if k in FailingKeys(run, rules, ms, severity) {
        var i :| 0 <= i < |rules| && rules[i].severity == severity && ms[rules[i].name].failed > 0 && k == (run, rules[i].name);
        assert Records(b, run, rules[i], ms[rules[i].name]);
      }
    }
    assert violated == FailingKeys(run, rules, ms, severity);
  }

  // ---------- the run to evaluate ----------

  /** A successful run of one monthly partition whose source is loaded. */
  predicate IsSuccessOf(t: Tables, run: nat, s: Service, year: nat, month: nat) {
    && run in t.runs && t.runs[run].meta.dataset == (if s == Yellow then YellowTripdata else GreenTripdata)
    && t.runs[run].meta.service == Some(s) && t.runs[run].meta.year == Some(year) && t.runs[run].meta.month == Some(month)
    && t.runs[run].status == Succeeded && HasStatus(t, t.runs[run].sid, Loaded)
  }

  predicate IsTarget(t: Tables, run: nat) {
    && run in t.runs && t.runs[run].status == Succeeded
    && (t.runs[run].meta.dataset == YellowTripdata || t.runs[run].meta.dataset == GreenTripdata)
    && HasStatus(t, t.runs[run].sid, Loaded)
    && t.sources[t.runs[run].sid].meta.year.Some? && t.sources[t.runs[run].sid].meta.month.Some?
  }

  /** When sources were loaded; a time may be unknown. */
  type LoadTimes = map<nat, int>

  /** The order of loaded zone versions: by load time, unknown times first, and then by id. */
  predicate NewerZone(times: LoadTimes, y: nat, z: nat) {
    || (y in times && (z !in times || times[y] > times[z]))
    || (y > z && (y in times <==> z in times) && (y in times ==> times[y] == times[z]))
  }

  /** The loaded zone version that comes last in that order. */
  ghost predicate IsLatestZone(t: Tables, times: LoadTimes, z: nat) {
    IsLoadedZone(t, z) && forall y :: IsLoadedZone(t, y) ==> !NewerZone(times, y, z)
  }

  lemma {:induction false} LatestOf(times: LoadTimes, ids: set<nat>) returns (z: nat)
    requires ids != {}
    ensures z in ids && forall y :: y in ids ==> !NewerZone(times, y, z)
    decreases |ids|
  {
    var first :| first in ids;
    z := first;
    if ids != {first} {
      var rest := LatestOf(times, ids - {first});
      z := if NewerZone(times, rest, first) then rest else first;
    }
    assert forall y :: y in ids ==> y == first || y in ids - {first};
  }

  lemma LatestIsUnique(t: Tables, times: LoadTimes, y: nat, z: nat)
    requires IsLatestZone(t, times, y) && IsLatestZone(t, times, z)
    ensures y == z
  {
    assert !NewerZone(times, y, z) && !NewerZone(times, z, y);
  }

  predicate HasWindow(t: Tables, run: nat) {
    IsTarget(t, run) && Window(t.sources[t.runs[run].sid].meta).Some?
  }

  /** The measurements of a run's raw rows against one zone version. */
  function MeasuredFor(t: Tables, cat: Catalogue, run: nat, z: nat): map<CheckName, Measurement>
    requires HasWindow(t, run)
  {
    var (start, end) := Window(t.sources[t.runs[run].sid].meta).value;
    Measured(cat, RowsOf(t.raw, t.runs[run].sid), t.raw, z, start, end)
  }

  function RuleNames(rules: seq<Rule>): set<CheckName> {
    set rule | rule in rules :: rule.name
  }

  /** Nothing stands in the way of evaluating the run against zone version `z`, the latest one. */
  ghost predicate CanEvaluate(t: Tables, times: LoadTimes, cat: Catalogue, run: nat, z: nat) {
    && IsLatestZone(t, times, z) && RowsOf(t.raw, z) != []
    && HasWindow(t, run) && MeasuredFor(t, cat, run, z).Keys == RuleNames(cat.rules)
  }

  lemma OnlyLatest(t: Tables, times: LoadTimes, cat: Catalogue, run: nat, zone: nat)
    requires IsLatestZone(t, times, zone)
    ensures (exists z :: CanEvaluate(t, times, cat, run, z)) <==> CanEvaluate(t, times, cat, run, zone)
  {
    if z :| CanEvaluate(t, times, cat, run, z) {
      LatestIsUnique(t, times, z, zone);
    }
  }

  lemma NamedAreMeasured(ms: map<CheckName, Measurement>, rules: seq<Rule>)
    requires ms.Keys == RuleNames(rules)
    ensures Measures(ms, rules)
  {
    assert forall i :: 0 <= i < |rules| ==> rules[i] in rules;
  }

  lemma {:induction false} Greatest(ids: set<nat>) returns (m: nat)
    requires ids != {}
    ensures m in ids && forall x :: x in ids ==> x <= m
    decreases |ids|
  {
    var first :| first in ids;
    m := first;
    if ids != {first} {
      var rest := Greatest(ids - {first});
      m := if rest > first then rest else first;
    }
    assert forall x :: x in ids ==> x == first || x in ids - {first};
  }

  /** The counters on the run and in the summary are the numbers of rules of each severity that failed. */
  ghost predicate CountsFailing(t: Tables, run: nat, summary: Summary, rules: seq<Rule>,
                                ms: map<CheckName, Measurement>) {
    && run in t.runs && t.runs[run].warnings == Some(Failing(rules, ms, Warning))
    && t.runs[run].errors == Some(Failing(rules, ms, Error))
    && summary.warnings == Failing(rules, ms, Warning) && summary.errors == Failing(rules, ms, Error)
  }

  class QualityStore {
    var tables: Tables
    var results: Results
    const times: LoadTimes

    constructor (t: Tables, times: LoadTimes)
      ensures tables == t && results == map[] && this.times == times
    {
      tables, results := t, map[];
      this.times := times;
    }

    /** The successful run of a partition with the highest id. */
    method FindLatestSuccessfulRun(s: Service, year: nat, month: nat) returns (r: Result<nat, EvaluationError>)
      ensures r.Ok? <==> exists run: nat :: IsSuccessOf(tables, run, s, year, month)
      ensures r.Ok? ==> IsSuccessOf(tables, r.value, s, year, month)
      ensures r.Ok? ==> forall run: nat :: IsSuccessOf(tables, run, s, year, month) ==> run <= r.value
    {
      var ids := set run | run in tables.runs && IsSuccessOf(tables, run, s, year, month);
      if id :| id in ids && forall other :: other in ids ==> other <= id {
        r := Ok(id);
        assert forall run: nat :: IsSuccessOf(tables, run, s, year, month) ==> run in ids;
      } else {
        r := Err(NoSuccessfulRun);
        if ids != {} {
          var m := Greatest(ids);
        }
        assert forall run: nat :: IsSuccessOf(tables, run, s, year, month) ==> run in ids;
      }
    }

    /** The source of a run that can be evaluated. */
    method ValidatedTarget(run: nat) returns (r: Result<SourceFile, EvaluationError>)
      ensures r.Ok? <==> IsTarget(tables, run)
      ensures r.Ok? ==> r.value == tables.sources[tables.runs[run].sid]
    {
      if run !in tables.runs { return Err(UnknownPipelineRun); }
      var target := tables.runs[run];
      if target.status != Succeeded { return Err(RunNotSucceeded); }
      if target.meta.dataset != YellowTripdata && target.meta.dataset != GreenTripdata { return Err(NotATripRun); }
      if !HasStatus(tables, target.sid, Loaded) { return Err(SourceNotLoaded); }
      var source := tables.sources[target.sid];
      if source.meta.year.None? || source.meta.month.None? { return Err(NoMonth); }
      r := Ok(source);
    }

    /** The latest loaded zone version, if it has rows. */
    method LoadedZoneSource() returns (r: Result<nat, EvaluationError>)
      ensures r.Ok? ==> IsLatestZone(tables, times, r.value) && RowsOf(tables.raw, r.value) != []
      ensures r.Err? ==> forall z :: IsLatestZone(tables, times, z) ==> RowsOf(tables.raw, z) == []
      ensures r.Ok? ==> forall z: nat :: IsLoadedZone(tables, z) && z in times ==>
        r.value in times && times[z] <= times[r.value] && (times[z] == times[r.value] ==> z <= r.value)
      ensures r.Ok? && r.value !in times ==> forall z: nat :: IsLoadedZone(tables, z) ==> z <= r.value
    {
      var ids := set z | z in tables.sources && IsLoadedZone(tables, z);
      assert forall z: nat :: IsLoadedZone(tables, z) ==> z in ids;
      if z :| z in ids && forall y :: y in ids ==> !NewerZone(times, y, z) {
        assert IsLatestZone(tables, times, z);
        forall y | IsLatestZone(tables, times, y)
          ensures y == z
        {
          LatestIsUnique(tables, times, y, z);
        }
        r := if RowsOf(tables.raw, z) == [] then Err(EmptyZones) else Ok(z);
      } else {
        r := Err(NoLoadedZones);
        if ids != {} {
          var z := LatestOf(times, ids);
        }
      }
    }

    method UpsertAll(run: nat, rules: seq<Rule>, ms: map<CheckName, Measurement>, at: int)
      requires Measures(ms, rules)
      modifies this`results
      ensures results == Upserted(old(results), run, rules, ms, at)
      ensures DistinctNames(rules) ==> RecordsAll(results, run, rules, ms)
    {
      for k := 0 to |rules|
        invariant results == Upserted(old(results), run, rules[..k], ms, at)
      {
        assert rules[..k + 1][..k] == rules[..k];
        results := results[(run, rules[k].name) := ResultOf(rules[k], ms[rules[k].name], at)];
      }
      assert rules[..|rules|] == rules;
      if DistinctNames(rules) {
        UpsertRecords(old(results), run, rules, ms, at);
      }
    }

    method Measure(cat: Catalogue, rows: seq<RawRow>, zone: nat, start: Date,
                   end: Date) returns (ms: map<CheckName, Measurement>)
      ensures ms == Measured(cat, rows, tables.raw, zone, start, end)
    {
      ms := ScalarMap(cat.conditions, rows, start, end);
      var domains := DomainMeasurements(cat.domains, rows, |rows|);
      ms := ms + domains;
      ms := ms + ZoneMap(rows, tables.raw, zone, |rows|);
      ms := ms + map[ExactDuplicates := DuplicateMeasurement(rows, |rows|)];
    }

    /** The first half of an evaluation, which only reads: it raises, or yields the measurements. */
    method MeasureRun(cat: Catalogue, run: nat)
      returns (r: Result<map<CheckName, Measurement>, EvaluationError>, ghost zone: nat)
      ensures r.Err? ==> forall z :: !CanEvaluate(tables, times, cat, run, z)
      ensures r.Ok? ==> CanEvaluate(tables, times, cat, run, zone) && r.value == MeasuredFor(tables, cat, run, zone)
    {
      zone := 0;
      var target := ValidatedTarget(run);
      if target.Err? { return Err(target.error), zone; }
      var zoneId := LoadedZoneSource();
      if zoneId.Err? { return Err(zoneId.error), zone; }
      zone := zoneId.value;
      var window := Window(target.value.meta);
      if window.None? { return Err(NoWindow), zone; }
      OnlyLatest(tables, times, cat, run, zone);
      var ms := Measure(cat, RowsOf(tables.raw, tables.runs[run].sid), zoneId.value, window.value.0, window.value.1);
      assert HasWindow(tables, run) && ms == MeasuredFor(tables, cat, run, zone);
      r := if ms.Keys == RuleNames(cat.rules) then Ok(ms) else Err(CatalogueMismatch);
    }

    /** Evaluates a run and stores its results and counters, or raises and stores nothing. It raises
        exactly when the run cannot be evaluated. */
    method RunQualityChecks(cat: Catalogue, run: nat, at: int)
      returns (r: Result<Summary, EvaluationError>, ghost zone: nat)
      modifies this
      ensures r.Err? ==> tables == old(tables) && results == old(results)
      ensures r.Err? ==> forall z :: !CanEvaluate(old(tables), times, cat, run, z)
      ensures r.Ok? ==> CanEvaluate(old(tables), times, cat, run, zone)
      ensures r.Ok? ==>
        var t := old(tables);
        var ms := MeasuredFor(t, cat, run, zone);
        && Measures(ms, cat.rules)
        && results == Upserted(old(results), run, cat.rules, ms, at)
        && tables == SetCounters(t, run, Violated(results, run, Warning), Violated(results, run, Error))
        && r.value == Summary(run, |RowsOf(t.raw, t.runs[run].sid)|, |cat.rules|,
                              Violated(results, run, Warning), Violated(results, run, Error))
      ensures r.Ok? && DistinctNames(cat.rules) ==>
        RecordsAll(results, run, cat.rules, MeasuredFor(old(tables), cat, run, zone))
      ensures r.Ok? && DistinctNames(cat.rules) && OnlyNamed(old(results), run, cat.rules) ==>
        CountsFailing(tables, run, r.value, cat.rules, MeasuredFor(old(tables), cat, run, zone))
    {
      var measured;
      measured, zone := MeasureRun(cat, run);
      if measured.Err? { return Err(measured.error), zone; }
      NamedAreMeasured(measured.value, cat.rules);
      UpsertAll(run, cat.rules, measured.value, at);
      var warnings := Violated(results, run, Warning);
      var errors := Violated(results, run, Error);
      var checked := |RowsOf(tables.raw, tables.runs[run].sid)|;
      tables := SetCounters(tables, run, warnings, errors);
      r := Ok(Summary(run, checked, |cat.rules|, warnings, errors));
      if DistinctNames(cat.rules) && OnlyNamed(old(results), run, cat.rules) {
        ViolatedIsFailing(old(results), run, cat.rules, measured.value, at, Warning);
        ViolatedIsFailing(old(results), run, cat.rules, measured.value, at, Error);
      }
    }
  }
}
