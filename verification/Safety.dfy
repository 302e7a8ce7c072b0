/** Every event keeps the invariant, and what that means for whole runs of the protocol. */
module Safety {
  import opened Wrappers
  import opened Cells
  import opened Catalog
  import opened Batches
  import opened Lifecycle
  import opened Protocol
  import opened Invariants

  // ---------- the table operations ----------

  /** The successful runs are the same ones in both states. */
  ghost predicate SameSuccesses(t: Tables, u: Tables) {
    && (forall r :: r in t.runs && t.runs[r].status == Succeeded ==> r in u.runs && u.runs[r] == t.runs[r])
    && (forall r :: r in u.runs && u.runs[r].status == Succeeded ==> r in t.runs && t.runs[r] == u.runs[r])
  }

  lemma SourceKept(counts: Digest -> nat, t: Tables, u: Tables, s: nat)
    requires s in t.sources && SourceOk(counts, t, s) && s in u.sources && u.sources[s] == t.sources[s]
    requires t.nextSource <= u.nextSource && RowsOf(u.raw, s) == RowsOf(t.raw, s) && SameSuccesses(t, u)
    ensures SourceOk(counts, u, s)
  {
    if t.sources[s].status == Loaded {
      var r :| LoadedBy(t, s, r);
      assert LoadedBy(u, s, r);
    }
  }

  lemma SourcesKept(counts: Digest -> nat, t: Tables, u: Tables)
    requires SourcesOk(counts, t) && u.sources == t.sources && u.raw == t.raw
    requires t.nextSource <= u.nextSource && SameSuccesses(t, u)
    ensures SourcesOk(counts, u)
  {
    forall s | s in u.sources
      ensures SourceOk(counts, u, s)
    {
      SourceKept(counts, t, u, s);
    }
  }

  lemma TakeIdOk(counts: Digest -> nat, t: Tables)
    requires TablesOk(counts, t)
    ensures TablesOk(counts, t.(nextSource := t.nextSource + 1))
    ensures Evolves(t, t.(nextSource := t.nextSource + 1))
  {
    var u := t.(nextSource := t.nextSource + 1);
    SourcesKept(counts, t, u);
    RunsKept(t, u);
  }

  lemma RunsKept(t: Tables, u: Tables)
    requires RunsOk(t) && u.runs == t.runs && u.nextRun == t.nextRun
    requires forall s :: s in t.sources ==> s in u.sources && u.sources[s] == t.sources[s]
    ensures RunsOk(u)
  {
    forall r | r in u.runs
      ensures RunOk(u, r)
    {
      assert RunOk(t, r);
    }
  }

  lemma InsertSourceSources(counts: Digest -> nat, t: Tables, u: Tables, row: SourceFile)
    requires TablesOk(counts, t)
    requires 1 <= row.id < t.nextSource && row.id !in t.sources && row.status != Loaded
    requires Inspected(counts, row.meta) && u == t.(sources := t.sources[row.id := row])
    ensures SourcesOk(counts, u)
  {
    forall s | s in u.sources
      ensures SourceOk(counts, u, s)
    {
      if s == row.id {
        RowsOfAbsent(t.raw, s);
      } else {
        SourceKept(counts, t, u, s);
      }
    }
  }

  lemma InsertSourceOk(counts: Digest -> nat, t: Tables, row: SourceFile)
    requires TablesOk(counts, t)
    requires 1 <= row.id < t.nextSource && row.id !in t.sources && row.status != Loaded
    requires Inspected(counts, row.meta) && forall id :: !IsVersion(t, id, row.meta)
    ensures
      var u := t.(sources := t.sources[row.id := row]);
      TablesOk(counts, u) && Evolves(t, u) && IsVersion(u, row.id, row.meta)
  {
    var u := t.(sources := t.sources[row.id := row]);
    InsertSourceSources(counts, t, u, row);
    RunsKept(t, u);
    assert VersionsUnique(u) by {
      assert forall id :: id in t.sources ==> !IsVersion(t, id, row.meta);
    }
  }

  lemma RunKept(t: Tables, u: Tables, r: nat)
    requires r in t.runs && RunOk(t, r) && r in u.runs && u.runs[r] == t.runs[r]
    requires u.sources == t.sources && t.nextRun <= u.nextRun
    ensures RunOk(u, r)
  {
  }

  lemma NextRunIsFresh(t: Tables)
    requires RunsOk(t)
    ensures t.nextRun !in t.runs
  {
    assert forall r :: r in t.runs ==> RunOk(t, r) && r < t.nextRun;
  }

  lemma AddRunOk(counts: Digest -> nat, t: Tables, sid: nat, status: RunStatus, reason: Option<SkipReason>)
    requires TablesOk(counts, t) && sid in t.sources
    requires status == Running || status == Skipped
    requires status == Skipped ==> reason.Some? && HasStatus(t, sid, StatusFor(reason.value))
    requires status == Running ==> !HasStatus(t, sid, RevisionDetected)
    ensures
      var u := AddRun(t, NewRun(t, sid, status, reason));
      TablesOk(counts, u) && Evolves(t, u)
  {
    NextRunIsFresh(t);
    AddRunTablesOk(counts, t, NewRun(t, sid, status, reason));
  }

  lemma AddRunTablesOk(counts: Digest -> nat, t: Tables, run: Run)
    requires TablesOk(counts, t) && run.id == t.nextRun && t.nextRun !in t.runs
    requires run.status != Succeeded && run.sid in t.sources && RunOk(AddRun(t, run), t.nextRun)
    ensures TablesOk(counts, AddRun(t, run))
  {
    var u := AddRun(t, run);
    SourcesKept(counts, t, u);
    forall r | r in u.runs
      ensures RunOk(u, r)
    {
      if r != t.nextRun {
        RunKept(t, u, r);
      }
    }
  }

  lemma FailRunRuns(t: Tables, run: nat, text: string)
    requires RunsOk(t) && IsRunning(t, run) && !Blank(text)
    ensures RunsOk(FailRun(t, run, text))
  {
    var u := FailRun(t, run, text);
    forall r | r in u.runs
      ensures RunOk(u, r)
    {
      assert RunOk(t, r);
    }
  }

  lemma FailRunTables(counts: Digest -> nat, t: Tables, run: nat, u: Tables)
    requires TablesOk(counts, t) && IsRunning(t, run) && RunsOk(u)
    requires u == t.(runs := u.runs) && u.runs.Keys == t.runs.Keys && u.runs[run].status == Failed
    requires forall r :: r in t.runs && r != run ==> u.runs[r] == t.runs[r]
    ensures TablesOk(counts, u)
  {
    SourcesKept(counts, t, u);
  }

  lemma FailRunOk(counts: Digest -> nat, t: Tables, run: nat, text: string)
    requires TablesOk(counts, t) && IsRunning(t, run) && !Blank(text)
    ensures TablesOk(counts, FailRun(t, run, text)) && Evolves(t, FailRun(t, run, text))
  {
    FailRunRuns(t, run, text);
    FailRunTables(counts, t, run, FailRun(t, run, text));
    FailRunEvolves(t, run, text);
  }

  lemma FailRunEvolves(t: Tables, run: nat, text: string)
    requires IsRunning(t, run)
    ensures Evolves(t, FailRun(t, run, text))
  {
  }

  /** A load of a source that is already loaded always meets the primary key of its first row. */
  lemma LoadedMeansClash(counts: Digest -> nat, t: Tables, m: Metadata, sid: nat, run: nat, rows: seq<RawRow>)
    requires TablesOk(counts, t) && Inspected(counts, m)
    requires IsVersion(t, sid, m) && t.sources[sid].status == Loaded
    requires IsLoad(rows, m.dataset, sid, run) && rows != []
    ensures !NoClash(t.raw + rows)
  {
    assert SourceOk(counts, t, sid);
    var r :| LoadedBy(t, sid, r);
    var first := RowsOf(t.raw, sid)[0];
    RowsOfMember(t.raw, sid);
    assert first in RowsOf(t.raw, sid);
    var i :| 0 <= i < |t.raw| && t.raw[i] == first;
    var all := t.raw + rows;
    assert all[i] == first && all[|t.raw|] == rows[0];
    assert Clash(all[i], all[|t.raw|]);
  }

  lemma FinishLoadRows(counts: Digest -> nat, t: Tables, m: Metadata, sid: nat, run: nat, rows: seq<RawRow>)
    requires TablesOk(counts, t) && Inspected(counts, m)
    requires Accepted(t, m, sid) && IsLoad(rows, m.dataset, sid, run)
    requires m.rowCount == Some(|rows|) && NoClash(t.raw + rows)
    ensures t.sources[sid].status == Ready
    ensures RowsOf(t.raw + rows, sid) == rows
    ensures forall s :: s != sid ==> RowsOf(t.raw + rows, s) == RowsOf(t.raw, s)
  {
    if t.sources[sid].status == Loaded {
      LoadedMeansClash(counts, t, m, sid, run, rows);
    }
    assert SourceOk(counts, t, sid);
    RowsOfOwn(rows, sid);
    forall s {
      RowsOfAppend(t.raw, rows, s);
    }
  }

  lemma FinishLoadRuns(counts: Digest -> nat, t: Tables, sid: nat, run: nat, rows: seq<RawRow>, c: LoadCounts)
    requires TablesOk(counts, t) && HasStatus(t, sid, Ready) && OwnsRun(t, sid, run)
    ensures RunsOk(FinishLoad(t, sid, run, rows, c))
  {
    var u := FinishLoad(t, sid, run, rows, c);
    forall r | r in u.runs
      ensures RunOk(u, r)
    {
      assert RunOk(t, r);
    }
  }

  lemma FinishLoadSources(counts: Digest -> nat, t: Tables, m: Metadata, sid: nat, run: nat, rows: seq<RawRow>)
    requires TablesOk(counts, t) && Inspected(counts, m)
    requires Accepted(t, m, sid) && HasStatus(t, sid, Ready) && OwnsRun(t, sid, run)
    requires IsLoad(rows, m.dataset, sid, run)
    requires m.rowCount == Some(|rows|)
    requires RowsOf(t.raw + rows, sid) == rows
    requires forall s :: s != sid ==> RowsOf(t.raw + rows, s) == RowsOf(t.raw, s)
    ensures
      var u := FinishLoad(t, sid, run, rows, LoadCounts(|rows|, |rows|));
      SourcesOk(counts, u) && LoadedBy(u, sid, run)
  {
    var u := FinishLoad(t, sid, run, rows, LoadCounts(|rows|, |rows|));
    assert SourceOk(counts, t, sid);
    assert forall o :: o in t.runs ==> RunOk(t, o);
    assert LoadedBy(u, sid, run);
    forall s | s in u.sources
      ensures SourceOk(counts, u, s)
    {
      if s != sid {
        FinishLoadOther(counts, t, sid, run, rows, s);
      }
    }
  }

  lemma FinishLoadOther(counts: Digest -> nat, t: Tables, sid: nat, run: nat, rows: seq<RawRow>, s: nat)
    requires SourcesOk(counts, t) && sid in t.sources && OwnsRun(t, sid, run) && s in t.sources && s != sid
    requires RowsOf(t.raw + rows, s) == RowsOf(t.raw, s)
    ensures SourceOk(counts, FinishLoad(t, sid, run, rows, LoadCounts(|rows|, |rows|)), s)
  {
    assert SourceOk(counts, t, s);
    if t.sources[s].status == Loaded {
      var r :| LoadedBy(t, s, r);
      assert LoadedBy(FinishLoad(t, sid, run, rows, LoadCounts(|rows|, |rows|)), s, r);
    }
  }

  lemma FinishLoadOk(counts: Digest -> nat, t: Tables, m: Metadata, sid: nat, run: nat, rows: seq<RawRow>)
    requires TablesOk(counts, t) && Inspected(counts, m)
    requires Accepted(t, m, sid) && OwnsRun(t, sid, run) && IsLoad(rows, m.dataset, sid, run)
    requires m.rowCount == Some(|rows|) && NoClash(t.raw + rows)
    ensures t.sources[sid].status == Ready
    ensures
      var u := FinishLoad(t, sid, run, rows, LoadCounts(|rows|, |rows|));
      TablesOk(counts, u) && Evolves(t, u) && LoadedBy(u, sid, run)
  {
    FinishLoadRows(counts, t, m, sid, run, rows);
    FinishLoadRuns(counts, t, sid, run, rows, LoadCounts(|rows|, |rows|));
    FinishLoadSources(counts, t, m, sid, run, rows);
    FinishLoadEvolves(t, sid, run, rows, LoadCounts(|rows|, |rows|));
  }

  lemma FinishLoadEvolves(t: Tables, sid: nat, run: nat, rows: seq<RawRow>, c: LoadCounts)
    requires HasStatus(t, sid, Ready) && IsRunning(t, run) && forall i :: 0 <= i < |rows| ==> rows[i].sid == sid
    ensures Evolves(t, FinishLoad(t, sid, run, rows, c))
  {
  }

  // ---------- the events ----------

  lemma ArriveOk(counts: Digest -> nat, s: System, e: Event)
    requires Inv(counts, s) && e.Arrive? && Enabled(counts, s, e)
    ensures Inv(counts, Step(counts, s, e))
  {
    var u := Step(counts, s, e);
    forall b | b in u.attempts
      ensures PhaseOk(u.t, u.attempts[b].meta, u.attempts[b].phase)
    {
    }
  }

  lemma DecideOk(counts: Digest -> nat, s: System, a: nat, sid: nat)
    requires Inv(counts, s) && a in s.attempts && IsVersion(s.t, sid, s.attempts[a].meta)
    ensures Inv(counts, DecideOn(s, a, sid)) && DecideOn(s, a, sid).t == s.t
  {
    MovedOnly(counts, s, a, Decided(sid, DecisionFor(s.t.sources[sid].status)));
  }

  lemma FreshIds(counts: Digest -> nat, s: System)
    requires Inv(counts, s)
    ensures s.t.nextSource !in s.t.sources && s.t.nextRun !in s.t.runs
    ensures forall b :: b in s.attempts ==>
      InsertOf(s.attempts[b].phase) != Some(s.t.nextSource) && RunOf(s.attempts[b].phase) != Some(s.t.nextRun)
  {
    assert forall x :: x in s.t.sources ==> SourceOk(counts, s.t, x) && x < s.t.nextSource;
    NextRunIsFresh(s.t);
    forall b | b in s.attempts
      ensures InsertOf(s.attempts[b].phase) != Some(s.t.nextSource) && RunOf(s.attempts[b].phase) != Some(s.t.nextRun)
    {
      assert PhaseOk(s.t, s.attempts[b].meta, s.attempts[b].phase);
    }
  }

  lemma InsertingOk(counts: Digest -> nat, s: System, a: nat, row: SourceFile)
    requires Inv(counts, s) && a in s.attempts && row == NewVersion(s.t, s.attempts[a].meta)
    ensures Inv(counts, Put(s, a, Inserting(row), s.t.(nextSource := s.t.nextSource + 1)))
    ensures Evolves(s.t, s.t.(nextSource := s.t.nextSource + 1))
  {
    TakeIdOk(counts, s.t);
    FreshIds(counts, s);
    Moved(counts, s, a, Inserting(row), s.t.(nextSource := s.t.nextSource + 1));
  }

  lemma LookUpOk(counts: Digest -> nat, s: System, a: nat)
    requires Inv(counts, s) && a in s.attempts && s.attempts[a].phase.Arrived?
    ensures Inv(counts, LookUpStep(s, a)) && Evolves(s.t, LookUpStep(s, a).t)
  {
    var m := s.attempts[a].meta;
    var found := ExactVersion(s.t, m);
    if found.Some? {
      DecideOk(counts, s, a, found.value);
      assert LookUpStep(s, a) == DecideOn(s, a, found.value);
    } else {
      var row := NewVersion(s.t, m);
      InsertingOk(counts, s, a, row);
      assert LookUpStep(s, a) == Put(s, a, Inserting(row), s.t.(nextSource := s.t.nextSource + 1));
    }
  }

  /** A step that touches no source id and no run but the attempt's own. */
  lemma OwnRunOnly(counts: Digest -> nat, s: System, a: nat, u: Tables)
    requires Inv(counts, s) && a in s.attempts
    requires u.sources.Keys == s.t.sources.Keys
    requires forall r :: r in s.t.runs ==> r in u.runs && (Some(r) == RunOf(s.attempts[a].phase) || u.runs[r] == s.t.runs[r])
    ensures SparesOthers(s, a, u)
  {
    forall b | b in s.attempts && b != a
      ensures Spares(s.t, u, s.attempts[b].phase)
    {
      assert Apart(s.attempts[a].phase, s.attempts[b].phase);
      assert Apart(s.attempts[b].phase, s.attempts[a].phase);
    }
  }

  lemma AddRunSpares(counts: Digest -> nat, s: System, a: nat, run: Run)
    requires Inv(counts, s) && a in s.attempts && run.id == s.t.nextRun
    ensures SparesOthers(s, a, AddRun(s.t, run))
  {
    NextRunIsFresh(s.t);
    OwnRunOnly(counts, s, a, AddRun(s.t, run));
  }

  lemma FreshRunIsApart(counts: Digest -> nat, s: System, a: nat, p: Phase)
    requires Inv(counts, s) && InsertOf(p).None? && (RunOf(p).Some? ==> RunOf(p) == Some(s.t.nextRun))
    ensures ApartFromOthers(s, a, p)
  {
    FreshIds(counts, s);
  }

  lemma RegisterOk(counts: Digest -> nat, s: System, a: nat)
    requires Inv(counts, s) && a in s.attempts && s.attempts[a].phase.Inserting?
    ensures Inv(counts, RegisterStep(s, a)) && Evolves(s.t, RegisterStep(s, a).t)
  {
    var m := s.attempts[a].meta;
    var row := s.attempts[a].phase.row;
    assert PhaseOk(s.t, m, Inserting(row));
    match ExactVersion(s.t, m)
    case Some(sid) => DecideOk(counts, s, a, sid);
    case None =>
      var u := s.t.(sources := s.t.sources[row.id := row]);
      InsertSourceOk(counts, s.t, row);
      assert SparesOthers(s, a, u) by {
        assert forall b :: b in s.attempts && b != a ==> Apart(s.attempts[a].phase, s.attempts[b].phase);
      }
      Moved(counts, s, a, Decided(row.id, DecisionFor(row.status)), u);
  }

  lemma SkipOk(counts: Digest -> nat, s: System, a: nat)
    requires Inv(counts, s) && Enabled(counts, s, Skip(a))
    ensures Inv(counts, SkipStep(s, a)) && Evolves(s.t, SkipStep(s, a).t)
    ensures SkipStep(s, a).attempts[a].phase.outcome.DidSkip?
  {
    var p := s.attempts[a].phase;
    var reason := ReasonFor(p.decision);
    assert PhaseOk(s.t, s.attempts[a].meta, p);
    AddRunOk(counts, s.t, p.sid, Skipped, Some(reason));
    AddRunSpares(counts, s, a, NewRun(s.t, p.sid, Skipped, Some(reason)));
    Moved(counts, s, a, Finished(DidSkip(s.t.nextRun)), AddSkipped(s.t, p.sid, reason));
  }

  lemma CheckReadyOk(counts: Digest -> nat, s: System, a: nat)
    requires Inv(counts, s) && Enabled(counts, s, CheckReady(a))
    ensures Inv(counts, CheckReadyStep(s, a)) && CheckReadyStep(s, a).t == s.t
  {
    var p := s.attempts[a].phase;
    assert PhaseOk(s.t, s.attempts[a].meta, p);
    MovedOnly(counts, s, a, if HasStatus(s.t, p.sid, Ready) then Starting(p.sid) else Finished(RaisedAtStart));
  }

  lemma StartOk(counts: Digest -> nat, s: System, a: nat, file: seq<Row>)
    requires Inv(counts, s) && Enabled(counts, s, Start(a, file))
    ensures Inv(counts, StartStep(s, a, file)) && Evolves(s.t, StartStep(s, a, file).t)
  {
    var sid := s.attempts[a].phase.sid;
    assert PhaseOk(s.t, s.attempts[a].meta, s.attempts[a].phase);
    AddRunOk(counts, s.t, sid, Running, None);
    AddRunSpares(counts, s, a, NewRun(s.t, sid, Running, None));
    var p := Loading(sid, s.t.nextRun, file, file, []);
    FreshRunIsApart(counts, s, a, p);
    StartedOk(s.t, s.attempts[a].meta, sid, file);
    Moved(counts, s, a, p, AddRunning(s.t, sid));
  }

  lemma StartedOk(t: Tables, m: Metadata, sid: nat, file: seq<Row>)
    requires Accepted(t, m, sid)
    ensures PhaseOk(AddRunning(t, sid), m, Loading(sid, t.nextRun, file, file, []))
  {
  }

  lemma CopyOk(counts: Digest -> nat, s: System, a: nat, n: nat)
    requires Inv(counts, s) && Enabled(counts, s, Copy(a, n))
    ensures Inv(counts, CopyStep(s, a, n)) && CopyStep(s, a, n).t == s.t
  {
    assert PhaseOk(s.t, s.attempts[a].meta, s.attempts[a].phase);
    MovedOnly(counts, s, a, CopyStep(s, a, n).attempts[a].phase);
  }

  lemma FaultOk(counts: Digest -> nat, s: System, a: nat, detail: string, className: string)
    requires Inv(counts, s) && Enabled(counts, s, Fault(a, detail, className))
    ensures Inv(counts, FaultStep(s, a, detail, className)) && FaultStep(s, a, detail, className).t == s.t
  {
    SafeErrorMessageNotBlank(detail, className);
    var p := s.attempts[a].phase;
    assert PhaseOk(s.t, s.attempts[a].meta, p);
    MovedOnly(counts, s, a, Failing(p.sid, p.run, SafeErrorMessage(detail, className)));
  }

  lemma CheckOk(counts: Digest -> nat, s: System, a: nat, detail: string, className: string)
    requires Inv(counts, s) && Enabled(counts, s, Check(a, detail, className))
    ensures Inv(counts, CheckStep(s, a, detail, className)) && CheckStep(s, a, detail, className).t == s.t
  {
    var u := CheckStep(s, a, detail, className);
    assert PhaseOk(s.t, s.attempts[a].meta, s.attempts[a].phase);
    if u.attempts[a].phase.Committing? {
      MovedOnly(counts, s, a, u.attempts[a].phase);
    } else {
      FaultOk(counts, s, a, detail, className);
    }
  }

  lemma FinishSpares(counts: Digest -> nat, s: System, a: nat, sid: nat, run: nat, rows: seq<RawRow>, c: LoadCounts)
    requires Inv(counts, s) && a in s.attempts && RunOf(s.attempts[a].phase) == Some(run)
    requires sid in s.t.sources && run in s.t.runs
    ensures SparesOthers(s, a, FinishLoad(s.t, sid, run, rows, c))
  {
    OwnRunOnly(counts, s, a, FinishLoad(s.t, sid, run, rows, c));
  }

  lemma FailSpares(counts: Digest -> nat, s: System, a: nat, run: nat, text: string)
    requires Inv(counts, s) && a in s.attempts && RunOf(s.attempts[a].phase) == Some(run) && run in s.t.runs
    ensures SparesOthers(s, a, FailRun(s.t, run, text))
  {
    OwnRunOnly(counts, s, a, FailRun(s.t, run, text));
  }

  lemma FinishTablesOk(counts: Digest -> nat, s: System, a: nat)
    requires Inv(counts, s) && a in s.attempts && s.attempts[a].phase.Committing?
    requires NoClash(s.t.raw + s.attempts[a].phase.copied)
    ensures
      var p := s.attempts[a].phase;
      && p.sid in s.t.sources && p.run in s.t.runs
      && var u := FinishLoad(s.t, p.sid, p.run, p.copied, p.counts);
         TablesOk(counts, u) && Evolves(s.t, u)
  {
    var p := s.attempts[a].phase;
    assert PhaseOk(s.t, s.attempts[a].meta, p);
    FinishLoadOk(counts, s.t, s.attempts[a].meta, p.sid, p.run, p.copied);
  }

  lemma FinishOk(counts: Digest -> nat, s: System, a: nat)
    requires Inv(counts, s) && a in s.attempts && s.attempts[a].phase.Committing?
    requires NoClash(s.t.raw + s.attempts[a].phase.copied)
    ensures
      var p := s.attempts[a].phase;
      && p.sid in s.t.sources && p.run in s.t.runs
      && var u := FinishLoad(s.t, p.sid, p.run, p.copied, p.counts);
         Evolves(s.t, u) && Inv(counts, Put(s, a, Finished(DidLoad(p.run)), u))
  {
    var p := s.attempts[a].phase;
    FinishTablesOk(counts, s, a);
    FinishSpares(counts, s, a, p.sid, p.run, p.copied, p.counts);
    Moved(counts, s, a, Finished(DidLoad(p.run)), FinishLoad(s.t, p.sid, p.run, p.copied, p.counts));
  }

  lemma CommitOk(counts: Digest -> nat, s: System, a: nat, detail: string, className: string)
    requires Inv(counts, s) && Enabled(counts, s, Commit(a, detail, className))
    ensures Inv(counts, CommitStep(s, a, detail, className)) && Evolves(s.t, CommitStep(s, a, detail, className).t)
  {
    if NoClash(s.t.raw + s.attempts[a].phase.copied) {
      FinishOk(counts, s, a);
    } else {
      FaultOk(counts, s, a, detail, className);
    }
  }

  lemma RecordOk(counts: Digest -> nat, s: System, a: nat)
    requires Inv(counts, s) && Enabled(counts, s, Record(a))
    ensures Inv(counts, RecordStep(s, a)) && Evolves(s.t, RecordStep(s, a).t)
    ensures RecordStep(s, a).attempts[a].phase.outcome.DidFail?
  {
    var p := s.attempts[a].phase;
    assert PhaseOk(s.t, s.attempts[a].meta, p);
    RecordMoves(counts, s, a, p.run, p.text);
  }

  lemma RecordMoves(counts: Digest -> nat, s: System, a: nat, run: nat, text: string)
    requires Inv(counts, s) && a in s.attempts && RunOf(s.attempts[a].phase) == Some(run)
    requires IsRunning(s.t, run) && !Blank(text)
    ensures Inv(counts, Put(s, a, Finished(DidFail(run, text)), FailRun(s.t, run, text)))
    ensures Evolves(s.t, FailRun(s.t, run, text))
  {
    FailRunOk(counts, s.t, run, text);
    FailSpares(counts, s, a, run, text);
    FailedOk(s.t, s.attempts[a].meta, s.attempts[a].phase, run, text);
    Moved(counts, s, a, Finished(DidFail(run, text)), FailRun(s.t, run, text));
  }

  lemma FailedOk(t: Tables, m: Metadata, p: Phase, run: nat, text: string)
    requires PhaseOk(t, m, p) && RunOf(p) == Some(run)
    ensures run in t.runs && PhaseOk(FailRun(t, run, text), m, Finished(DidFail(run, text)))
  {
  }

  lemma CountersTablesOk(counts: Digest -> nat, t: Tables, run: nat, w: nat, n: nat)
    requires TablesOk(counts, t) && run in t.runs && t.runs[run].status == Succeeded
    ensures TablesOk(counts, SetCounters(t, run, w, n)) && Evolves(t, SetCounters(t, run, w, n))
  {
    var u := SetCounters(t, run, w, n);
    forall s | s in u.sources
      ensures SourceOk(counts, u, s)
    {
      assert SourceOk(counts, t, s);
      if t.sources[s].status == Loaded {
        var r :| LoadedBy(t, s, r);
        assert LoadedBy(u, s, r);
      }
    }
    forall r | r in u.runs
      ensures RunOk(u, r)
    {
      assert RunOk(t, r);
    }
  }

  lemma EvaluateOk(counts: Digest -> nat, s: System, run: nat, w: nat, n: nat)
    requires Inv(counts, s) && run in s.t.runs && s.t.runs[run].status == Succeeded
    ensures
      var u := s.(t := SetCounters(s.t, run, w, n));
      Inv(counts, u) && Evolves(s.t, u.t)
  {
    var u := SetCounters(s.t, run, w, n);
    CountersTablesOk(counts, s.t, run, w, n);
    forall b | b in s.attempts
      ensures PhaseOk(u, s.attempts[b].meta, s.attempts[b].phase)
    {
      PhaseFrame(s.t, u, s.attempts[b].meta, s.attempts[b].phase);
    }
  }

  /** The events of a started load, up to its validation. */
  predicate IsLoadEvent(e: Event) {
    e.Copy? || e.Fault? || e.Check?
  }

  lemma LoadStepKeeps(counts: Digest -> nat, s: System, e: Event)
    requires Inv(counts, s) && Enabled(counts, s, e) && IsLoadEvent(e)
    ensures Inv(counts, Step(counts, s, e)) && Evolves(s.t, Step(counts, s, e).t)
  {
    match e
    case Copy(a, n) => CopyOk(counts, s, a, n);
    case Fault(a, detail, className) => FaultOk(counts, s, a, detail, className);
    case Check(a, detail, className) => CheckOk(counts, s, a, detail, className);
  }

  lemma EndStepKeeps(counts: Digest -> nat, s: System, e: Event)
    requires Inv(counts, s) && Enabled(counts, s, e) && (e.Commit? || e.Record?)
    ensures Inv(counts, Step(counts, s, e)) && Evolves(s.t, Step(counts, s, e).t)
  {
    match e
    case Commit(a, detail, className) => CommitOk(counts, s, a, detail, className);
    case Record(a) => RecordOk(counts, s, a);
  }

  lemma OtherStepKeeps(counts: Digest -> nat, s: System, e: Event)
    requires Inv(counts, s) && Enabled(counts, s, e) && !IsLoadEvent(e) && !e.Commit? && !e.Record?
    ensures Inv(counts, Step(counts, s, e)) && Evolves(s.t, Step(counts, s, e).t)
  {
    match e
    case Arrive(_, _) => ArriveOk(counts, s, e);
    case LookUp(a) => LookUpOk(counts, s, a);
    case Register(a) => RegisterOk(counts, s, a);
    case Skip(a) => SkipOk(counts, s, a);
    case CheckReady(a) => CheckReadyOk(counts, s, a);
    case Start(a, file) => StartOk(counts, s, a, file);
    case Crash(a) => MovedOnly(counts, s, a, Crashed);
    case Evaluate(run, w, n) => EvaluateOk(counts, s, run, w, n);
  }

  /** Every event keeps the invariant, and only lets the tables evolve. */
  lemma StepKeeps(counts: Digest -> nat, s: System, e: Event)
    requires Inv(counts, s) && Enabled(counts, s, e)
    ensures Inv(counts, Step(counts, s, e)) && Evolves(s.t, Step(counts, s, e).t)
  {
    if IsLoadEvent(e) {
      LoadStepKeeps(counts, s, e);
    } else if e.Commit? || e.Record? {
      EndStepKeeps(counts, s, e);
    } else {
      OtherStepKeeps(counts, s, e);
    }
  }

  /** The same for any sequence of events, from any state that satisfies the invariant. */
  lemma {:induction false} RunKeeps(counts: Digest -> nat, s: System, events: seq<Event>)
    requires Inv(counts, s) && CanRun(counts, s, events)
    ensures Inv(counts, After(counts, s, events)) && Evolves(s.t, After(counts, s, events).t)
    decreases |events|
  {
    if events != [] {
      var u := Step(counts, s, events[0]);
      StepKeeps(counts, s, events[0]);
      RunKeeps(counts, u, events[1..]);
      EvolvesTransitive(s.t, u.t, After(counts, u, events[1..]).t);
    }
  }
}
