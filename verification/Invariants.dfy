/** What every reachable state of the ingestion protocol keeps, and how tables can change. */
module Invariants {
  import opened Wrappers
  import opened Catalog
  import opened Lifecycle
  import opened Protocol

  // ---------- the tables ----------

  /** Run `r` is the one successful run of source `s`, and wrote all of its raw rows. */
  ghost predicate LoadedBy(t: Tables, s: nat, r: nat)
    requires s in t.sources
  {
    && r in t.runs && t.runs[r].sid == s && t.runs[r].status == Succeeded
    && (forall o :: o in t.runs && t.runs[o].sid == s && t.runs[o].status == Succeeded ==> o == r)
    && IsLoad(RowsOf(t.raw, s), t.sources[s].meta.dataset, s, r)
    && t.runs[r].rowsLoaded == t.runs[r].rowsRead == t.sources[s].meta.rowCount == Some(|RowsOf(t.raw, s)|)
  }

  ghost predicate SourceOk(counts: Digest -> nat, t: Tables, s: nat)
    requires s in t.sources
  {
    && t.sources[s].id == s && 1 <= s < t.nextSource && Inspected(counts, t.sources[s].meta)
    && (t.sources[s].status == Loaded ==> exists r :: LoadedBy(t, s, r))
    && (t.sources[s].status != Loaded ==> RowsOf(t.raw, s) == [])
  }

  ghost predicate RunOk(t: Tables, r: nat)
    requires r in t.runs
  {
    var run := t.runs[r];
    && run.id == r && 1 <= r < t.nextRun && run.sid in t.sources && run.meta == t.sources[run.sid].meta
    && (run.status == Skipped ==> run.reason.Some? && HasStatus(t, run.sid, StatusFor(run.reason.value)))
    && (run.status != Skipped ==> !HasStatus(t, run.sid, RevisionDetected))
    && (run.status == Succeeded ==> HasStatus(t, run.sid, Loaded))
    && (run.status == Failed ==> run.message.Some? && !Blank(run.message.value))
  }

  predicate SameVersion(x: Metadata, y: Metadata) {
    x.partition == y.partition && x.checksum == y.checksum
  }

  ghost predicate VersionsUnique(t: Tables) {
    forall i, j :: i in t.sources && j in t.sources && SameVersion(t.sources[i].meta, t.sources[j].meta) ==> i == j
  }

  ghost predicate SourcesOk(counts: Digest -> nat, t: Tables) {
    1 <= t.nextSource && forall s :: s in t.sources ==> SourceOk(counts, t, s)
  }

  ghost predicate RunsOk(t: Tables) {
    1 <= t.nextRun && forall r :: r in t.runs ==> RunOk(t, r)
  }

  ghost predicate RawOk(t: Tables) {
    NoClash(t.raw) && forall i :: 0 <= i < |t.raw| ==> t.raw[i].sid in t.sources
  }

  ghost predicate TablesOk(counts: Digest -> nat, t: Tables) {
    SourcesOk(counts, t) && RunsOk(t) && RawOk(t) && VersionsUnique(t)
  }

  predicate SourceEvolves(x: SourceFile, y: SourceFile) {
    y.meta == x.meta && (y.status == x.status || (x.status == Ready && y.status == Loaded))
  }

  predicate RunEvolves(x: Run, y: Run) {
    && y.sid == x.sid
    && (x.status != Running ==> y == x.(warnings := y.warnings, errors := y.errors))
  }

  /** How the tables change over time: rows are only added, a source only goes from ready to loaded,
      the rows of a loaded source never change,
      and of a finished run only the quality counters can. */
  ghost predicate Evolves(t: Tables, u: Tables) {
    && t.nextSource <= u.nextSource && t.nextRun <= u.nextRun
    && (forall s :: s in t.sources ==> s in u.sources && SourceEvolves(t.sources[s], u.sources[s]))
    && (forall r :: r in t.runs ==> r in u.runs && RunEvolves(t.runs[r], u.runs[r]))
    && t.raw <= u.raw
    && (forall i :: |t.raw| <= i < |u.raw| ==> !HasStatus(t, u.raw[i].sid, Loaded))
  }

  lemma EvolvesTransitive(t: Tables, u: Tables, v: Tables)
    requires Evolves(t, u) && Evolves(u, v)
    ensures Evolves(t, v)
  {
    forall i | |t.raw| <= i < |v.raw|
      ensures !HasStatus(t, v.raw[i].sid, Loaded)
    {
      if i < |u.raw| {
        assert v.raw[i] == u.raw[i];
      } else {
        assert !HasStatus(u, v.raw[i].sid, Loaded);
      }
    }
  }

  // ---------- the attempts ----------

  ghost predicate OwnsRun(t: Tables, sid: nat, run: nat) {
    IsRunning(t, run) && t.runs[run].sid == sid
  }

  /** The attempt's metadata is that of a registered version, which was not refused. */
  ghost predicate Accepted(t: Tables, m: Metadata, sid: nat) {
    IsVersion(t, sid, m) && t.sources[sid].status != RevisionDetected
  }

  /** Run `r` is a run of the attempt's version, and has this status. */
  ghost predicate RanVersion(t: Tables, m: Metadata, r: nat, status: RunStatus) {
    r in t.runs && t.runs[r].status == status && IsVersion(t, t.runs[r].sid, m)
  }

  /** What an attempt reported is what the tables say, and the later transactions never raised. */
  ghost predicate OutcomeOk(t: Tables, m: Metadata, o: Outcome) {
    match o
    case DidSkip(run) => RanVersion(t, m, run, Skipped)
    case DidLoad(run) => RanVersion(t, m, run, Succeeded)
    case DidFail(run, text) => RanVersion(t, m, run, Failed) && t.runs[run].message == Some(text)
    case RaisedAtStart => true
    case RaisedAtSkip => false
    case RaisedAtRecord => false
  }

  ghost predicate PhaseOk(t: Tables, m: Metadata, p: Phase) {
    match p
    case Arrived => true
    case Inserting(row) =>
      row.meta == m && 1 <= row.id < t.nextSource && row.id !in t.sources && row.status != Loaded
    case Decided(sid, d) =>
      IsVersion(t, sid, m) && if d == Proceed then t.sources[sid].status != RevisionDetected
                              else HasStatus(t, sid, StatusFor(ReasonFor(d)))
    case Starting(sid) => Accepted(t, m, sid)
    case Loading(sid, run, _, _, copied) => Accepted(t, m, sid) && OwnsRun(t, sid, run) && IsLoad(copied, m.dataset, sid, run)
    case Committing(sid, run, _, copied, counts) =>
      && Accepted(t, m, sid) && OwnsRun(t, sid, run) && IsLoad(copied, m.dataset, sid, run)
      && m.rowCount == Some(|copied|) && counts == LoadCounts(|copied|, |copied|)
    case Failing(sid, run, text) => Accepted(t, m, sid) && OwnsRun(t, sid, run) && !Blank(text)
    case Finished(o) => OutcomeOk(t, m, o)
    case Crashed => true
  }

  function RunOf(p: Phase): Option<nat> {
    match p
    case Loading(_, run, _, _, _) => Some(run)
    case Committing(_, run, _, _, _) => Some(run)
    case Failing(_, run, _) => Some(run)
    case _ => None
  }

  function InsertOf(p: Phase): Option<nat> {
    if p.Inserting? then Some(p.row.id) else None
  }

  ghost predicate Apart(p: Phase, q: Phase) {
    && (RunOf(p).Some? ==> RunOf(q) != RunOf(p))
    && (InsertOf(p).Some? ==> InsertOf(q) != InsertOf(p))
  }

  ghost predicate AttemptsOk(counts: Digest -> nat, s: System) {
    && (forall a :: a in s.attempts ==>
          Inspected(counts, s.attempts[a].meta) && PhaseOk(s.t, s.attempts[a].meta, s.attempts[a].phase))
    && (forall a, b :: a in s.attempts && b in s.attempts && a != b ==> Apart(s.attempts[a].phase, s.attempts[b].phase))
  }

  ghost predicate Inv(counts: Digest -> nat, s: System) {
    TablesOk(counts, s.t) && AttemptsOk(counts, s)
  }

  // ---------- what a step of one attempt leaves alone ----------

  /** The tables evolve without touching another attempt's run or the id it is inserting. */
  ghost predicate Spares(t: Tables, u: Tables, p: Phase) {
    && (RunOf(p).Some? && RunOf(p).value in t.runs ==>
          RunOf(p).value in u.runs && u.runs[RunOf(p).value] == t.runs[RunOf(p).value])
    && (InsertOf(p).Some? && InsertOf(p).value !in t.sources ==> InsertOf(p).value !in u.sources)
  }

  lemma PhaseFrame(t: Tables, u: Tables, m: Metadata, p: Phase)
    requires PhaseOk(t, m, p) && Evolves(t, u) && Spares(t, u, p)
    ensures PhaseOk(u, m, p)
  {
  }

  ghost predicate SparesOthers(s: System, a: nat, u: Tables) {
    forall b :: b in s.attempts && b != a ==> Spares(s.t, u, s.attempts[b].phase)
  }

  ghost predicate ApartFromOthers(s: System, a: nat, p: Phase) {
    forall b :: b in s.attempts && b != a ==> Apart(p, s.attempts[b].phase) && Apart(s.attempts[b].phase, p)
  }

  /** The state in which attempt `a` has moved to phase `p` and the tables to `u`. */
  function Put(s: System, a: nat, p: Phase, u: Tables): System
    requires a in s.attempts
  {
    To(s, a, p).(t := u)
  }

  /** One attempt moves to a phase that is fine for it; all others keep theirs. */
  lemma Moved(counts: Digest -> nat, s: System, a: nat, p: Phase, u: Tables)
    requires Inv(counts, s) && a in s.attempts
    requires TablesOk(counts, u) && Evolves(s.t, u)
    requires PhaseOk(u, s.attempts[a].meta, p)
    requires SparesOthers(s, a, u) && ApartFromOthers(s, a, p)
    ensures Inv(counts, Put(s, a, p, u))
  {
    var v := Put(s, a, p, u);
    forall b | b in v.attempts
      ensures Inspected(counts, v.attempts[b].meta) && PhaseOk(u, v.attempts[b].meta, v.attempts[b].phase)
    {
      if b != a {
        PhaseFrame(s.t, u, s.attempts[b].meta, s.attempts[b].phase);
      }
    }
  }

  lemma KeptApart(counts: Digest -> nat, s: System, a: nat, p: Phase)
    requires AttemptsOk(counts, s) && a in s.attempts && InsertOf(p).None?
    requires RunOf(p).None? || RunOf(p) == RunOf(s.attempts[a].phase)
    ensures ApartFromOthers(s, a, p)
  {
    assert forall b :: b in s.attempts && b != a ==>
      Apart(s.attempts[a].phase, s.attempts[b].phase) && Apart(s.attempts[b].phase, s.attempts[a].phase);
  }

  /** The same when the tables do not change and the new phase keeps the run, or gives it up. */
  lemma MovedOnly(counts: Digest -> nat, s: System, a: nat, p: Phase)
    requires Inv(counts, s) && a in s.attempts
    requires PhaseOk(s.t, s.attempts[a].meta, p)
    requires RunOf(p).None? || RunOf(p) == RunOf(s.attempts[a].phase)
    requires InsertOf(p).None?
    ensures Inv(counts, To(s, a, p))
  {
    KeptApart(counts, s, a, p);
    Moved(counts, s, a, p, s.t);
    assert To(s, a, p) == Put(s, a, p, s.t);
  }
}
