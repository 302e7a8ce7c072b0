/** What happens to attempts on a version that is already loaded: they skip, whatever else goes on. */
module Repeats {
  import opened Wrappers
  import opened Cells
  import opened Catalog
  import opened Lifecycle
  import opened Protocol
  import opened Invariants
  import opened Safety
  import opened Service

  // ---------- interleaved attempts ----------

  predicate IsEventOf(e: Event, a: nat) {
    !e.Evaluate? && e.a == a
  }

  /** How many runs the events of one attempt add. */
  ghost function RunsAddedBy(counts: Digest -> nat, s: System, events: seq<Event>, a: nat): nat
    requires CanRun(counts, s, events)
    decreases |events|
  {
    if events == [] then 0
    else
      var u := Step(counts, s, events[0]);
      (if IsEventOf(events[0], a) && u.t.runs.Keys != s.t.runs.Keys then 1 else 0) + RunsAddedBy(counts, u, events[1..], a)
  }

  /** The events of one attempt change nothing in the tables but append skipped runs of this source. */
  ghost predicate OnlySkips(counts: Digest -> nat, s: System, events: seq<Event>, a: nat, sid: nat)
    requires CanRun(counts, s, events)
    decreases |events|
  {
    events == [] ||
    var u := Step(counts, s, events[0]);
    && (IsEventOf(events[0], a) ==> u.t == s.t || (sid in s.t.sources && u.t == AddSkipped(s.t, sid, AlreadyLoaded)))
    && OnlySkips(counts, u, events[1..], a, sid)
  }

  /** Where an attempt on a loaded source can be, and how many runs it has added. */
  predicate SkippingPhase(p: Phase, sid: nat, added: nat) {
    match p
    case Arrived => added == 0
    case Decided(x, d) => x == sid && d == SkipLoaded && added == 0
    case Finished(o) => o.DidSkip? && added == 1
    case Crashed => added == 0
    case _ => false
  }

  ghost predicate Skipping(s: System, a: nat, sid: nat, added: nat) {
    if a in s.attempts then
      IsVersion(s.t, sid, s.attempts[a].meta) && SkippingPhase(s.attempts[a].phase, sid, added)
    else
      added == 0
  }

  /** If attempt `a` arrives, then with this version of the source. */
  predicate ArrivesWith(t: Tables, events: seq<Event>, a: nat, sid: nat) {
    forall k :: 0 <= k < |events| && events[k].Arrive? && events[k].a == a ==> IsVersion(t, sid, events[k].meta)
  }

  ghost predicate AddsOne(s: System, e: Event, a: nat, u: System) {
    IsEventOf(e, a) && u.t.runs.Keys != s.t.runs.Keys
  }

  lemma OwnStepSkips(counts: Digest -> nat, s: System, e: Event, a: nat, sid: nat, added: nat)
    requires Inv(counts, s) && Enabled(counts, s, e) && HasStatus(s.t, sid, Loaded)
    requires Skipping(s, a, sid, added) && IsEventOf(e, a) && (e.Arrive? ==> IsVersion(s.t, sid, e.meta))
    ensures
      var u := Step(counts, s, e);
      && (u.t == s.t || u.t == AddSkipped(s.t, sid, AlreadyLoaded))
      && Skipping(u, a, sid, added + if AddsOne(s, e, a, u) then 1 else 0)
  {
    NextRunIsFresh(s.t);
    if e.LookUp? {
      assert ExactVersion(s.t, s.attempts[a].meta) == Some(sid);
    }
  }

  /** Another attempt's step, or an evaluation, leaves the attempt where it is. */
  lemma OtherStepSkips(counts: Digest -> nat, s: System, e: Event, a: nat, sid: nat, added: nat)
    requires Inv(counts, s) && Enabled(counts, s, e) && HasStatus(s.t, sid, Loaded)
    requires Skipping(s, a, sid, added) && !IsEventOf(e, a)
    ensures Skipping(Step(counts, s, e), a, sid, added)
  {
    StepKeeps(counts, s, e);
    OthersStand(counts, s, e, a);
  }

  lemma OthersStand(counts: Digest -> nat, s: System, e: Event, a: nat)
    requires Enabled(counts, s, e) && !IsEventOf(e, a)
    ensures a in Step(counts, s, e).attempts <==> a in s.attempts
    ensures a in s.attempts ==> Step(counts, s, e).attempts[a] == s.attempts[a]
  {
  }

  lemma {:induction false} SkippingFrom(counts: Digest -> nat, s: System, events: seq<Event>, a: nat, sid: nat,
                                        added: nat)
    requires Inv(counts, s) && CanRun(counts, s, events) && HasStatus(s.t, sid, Loaded)
    requires Skipping(s, a, sid, added) && ArrivesWith(s.t, events, a, sid)
    ensures Skipping(After(counts, s, events), a, sid, added + RunsAddedBy(counts, s, events, a))
    ensures OnlySkips(counts, s, events, a, sid)
    decreases |events|
  {
    if events != [] {
      var e, u := events[0], Step(counts, s, events[0]);
      StepKeeps(counts, s, e);
      if IsEventOf(e, a) {
        OwnStepSkips(counts, s, e, a, sid, added);
      } else {
        OtherStepSkips(counts, s, e, a, sid, added);
      }
      ArrivesStill(s.t, u.t, events, a, sid);
      SkippingFrom(counts, u, events[1..], a, sid, added + if AddsOne(s, e, a, u) then 1 else 0);
    }
  }

  lemma ArrivesStill(t: Tables, u: Tables, events: seq<Event>, a: nat, sid: nat)
    requires Evolves(t, u) && ArrivesWith(t, events, a, sid) && events != []
    ensures ArrivesWith(u, events[1..], a, sid)
  {
    assert forall k :: 0 <= k < |events| - 1 ==> events[1..][k] == events[k + 1];
  }

  /** Once a version is loaded, an attempt on it that arrives later never starts a run: whatever other
      attempts do, its events only ever append one skipped run, and exactly if it ends by skipping. */
  lemma LaterAttemptsSkip(counts: Digest -> nat, s: System, events: seq<Event>, a: nat, sid: nat)
    requires Inv(counts, s) && CanRun(counts, s, events) && HasStatus(s.t, sid, Loaded)
    requires a !in s.attempts && ArrivesWith(s.t, events, a, sid)
    ensures OnlySkips(counts, s, events, a, sid) && RunsAddedBy(counts, s, events, a) <= 1
    ensures
      var u := After(counts, s, events);
      a in u.attempts ==>
        && SkippingPhase(u.attempts[a].phase, sid, RunsAddedBy(counts, s, events, a))
        && (RunsAddedBy(counts, s, events, a) == 1 <==> u.attempts[a].phase.Finished?)
  {
    SkippingFrom(counts, s, events, a, sid, 0);
  }

  // ---------- undisturbed attempts ----------

  /** What an undisturbed attempt finds at the landing path, and the error message it would report. */
  datatype Try = Try(rows: Option<seq<Row>>, text: string)

  ghost function AfterTries(t: Tables, m: Metadata, tries: seq<Try>): Tables {
    if tries == [] then t
    else
      var last := tries[|tries| - 1];
      IngestAlone(AfterTries(t, m, tries[..|tries| - 1]), m, last.rows, last.text)
  }

  /** The same tables, but for `n` skipped runs of the source appended to the runs. */
  ghost predicate SkippedTimes(t: Tables, u: Tables, sid: nat, n: nat) {
    && u == t.(runs := u.runs, nextRun := t.nextRun + n)
    && (forall r :: r in u.runs <==> r in t.runs || t.nextRun <= r < t.nextRun + n)
    && (forall r :: r in t.runs ==> u.runs[r] == t.runs[r])
    && (forall r :: t.nextRun <= r < t.nextRun + n ==>
          && u.runs[r].status == Skipped && u.runs[r].reason == Some(AlreadyLoaded) && u.runs[r].sid == sid
          && u.runs[r].rowsRead == None && u.runs[r].rowsLoaded == Some(0))
  }

  /** Any number of undisturbed attempts on a loaded version append one skipped run each and change
      nothing else, whatever the files at the landing path now hold. */
  lemma {:induction false} RepeatedAttemptsSkip(counts: Digest -> nat, t: Tables, m: Metadata, sid: nat,
                                                tries: seq<Try>)
    requires TablesOk(counts, t) && IsVersion(t, sid, m) && t.sources[sid].status == Loaded
    ensures SkippedTimes(t, AfterTries(t, m, tries), sid, |tries|) && TablesOk(counts, AfterTries(t, m, tries))
  {
    if tries != [] {
      var n := |tries| - 1;
      RepeatedAttemptsSkip(counts, t, m, sid, tries[..n]);
      var u := AfterTries(t, m, tries[..n]);
      assert IsVersion(u, sid, m) && u.sources[sid].status == Loaded;
      AloneSkips(counts, u, m, sid, tries[n]);
      SkippedOnceMore(t, u, AddSkipped(u, sid, AlreadyLoaded), sid, n);
    }
  }

  lemma AloneSkips(counts: Digest -> nat, u: Tables, m: Metadata, sid: nat, try: Try)
    requires TablesOk(counts, u) && IsVersion(u, sid, m) && u.sources[sid].status == Loaded
    ensures IngestAlone(u, m, try.rows, try.text) == AddSkipped(u, sid, AlreadyLoaded)
    ensures TablesOk(counts, AddSkipped(u, sid, AlreadyLoaded))
  {
    assert ExactVersion(u, m) == Some(sid);
    AddRunOk(counts, u, sid, Skipped, Some(AlreadyLoaded));
  }

  lemma SkippedOnceMore(t: Tables, u: Tables, v: Tables, sid: nat, n: nat)
    requires SkippedTimes(t, u, sid, n) && RunsOk(t) && RunsOk(u) && sid in u.sources
    requires v == AddSkipped(u, sid, AlreadyLoaded)
    ensures SkippedTimes(t, v, sid, n + 1)
  {
    NextRunIsFresh(t);
    NextRunIsFresh(u);
    assert forall r :: r in t.runs ==> RunOk(t, r) && r < t.nextRun;
  }
}
