/** One database session: a transaction that reads the committed tables and keeps its own writes until
    it commits. Its methods are the registry's and the run lifecycle's operations. */
module Sessions {
  import opened Wrappers
  import opened Catalog
  import opened Batches
  import opened Lifecycle
  import opened Invariants

  datatype Registration = Registration(sid: nat, status: SourceStatus, decision: Decision, isNew: bool)

  datatype StateError = UnknownSource | UnknownRun | WrongSourceStatus | TerminalRun | EmptyMessage

  /** Registration within one transaction that nothing else disturbs. */
  ghost function Registered(t: Tables, m: Metadata): (Tables, nat) {
    match ExactVersion(t, m)
    case Some(sid) => (t, sid)
    case None =>
      var row := NewVersion(t, m);
      (t.(sources := t.sources[row.id := row], nextSource := row.id + 1), row.id)
  }

  /** Registration when other transactions commit between the look-up and the insert. */
  ghost function RegisteredAmid(t: Tables, m: Metadata, committed: map<nat, SourceFile>): (Tables, nat) {
    if ExactVersion(t, m).Some? then (t, ExactVersion(t, m).value)
    else
      var u := t.(sources := committed, nextSource := t.nextSource + 1);
      match ExactVersion(t.(sources := committed), m)
      case Some(sid) => (u, sid)
      case None =>
        var row := NewVersion(t, m);
        (u.(sources := committed[row.id := row]), row.id)
  }

  /** Looking up a version reads the sources only. */
  lemma SameLookUp(t: Tables, u: Tables, m: Metadata)
    requires t.sources == u.sources && VersionsUnique(t)
    ensures ExactVersion(t, m) == ExactVersion(u, m)
  {
    assert forall id :: IsVersion(t, id, m) <==> IsVersion(u, id, m);
  }

  class Database {
    var tables: Tables

    constructor ()
      ensures tables == EMPTY
    {
      tables := EMPTY;
    }
  }

  class Session {
    const db: Database
    var sources: map<nat, SourceFile>
    var runs: map<nat, Run>
    var raw: seq<RawRow>
    var copied: seq<RawRow>
    var nextSource: nat
    var nextRun: nat

    /** The tables this session sees, apart from the raw rows it copied itself. */
    function View(): Tables
      reads this
    {
      Tables(sources, runs, raw, nextSource, nextRun)
    }

    constructor (db: Database)
      ensures this.db == db && View() == db.tables && copied == []
    {
      this.db := db;
      sources, runs, raw := db.tables.sources, db.tables.runs, db.tables.raw;
      nextSource, nextRun := db.tables.nextSource, db.tables.nextRun;
      copied := [];
    }

    /** Commits, unless the copied rows meet a key of the raw tables; then everything is rolled back. */
    method Commit() returns (ok: bool)
      requires raw == db.tables.raw
      modifies db
      ensures ok <==> NoClash(old(db.tables).raw + copied)
      ensures db.tables == if ok then View().(raw := raw + copied) else old(db.tables)
    {
      ok := NoClash(db.tables.raw + copied);
      if ok {
        db.tables := Tables(sources, runs, raw + copied, nextSource, nextRun);
      }
    }

    // ---------- source registry ----------

    method FindExactVersion(m: Metadata) returns (r: Option<nat>)
      requires VersionsUnique(View())
      ensures r == ExactVersion(View(), m)
    {
      if id :| id in sources && sources[id].meta.partition == m.partition && sources[id].meta.checksum == m.checksum {
        assert IsVersion(View(), id, m);
        r := Some(id);
      } else {
        r := None;
        assert forall id :: !IsVersion(View(), id, m);
      }
    }

    /** Registers or reuses one source version. `committed` are the sources as they are when the insert
        is flushed: other transactions may have committed since the look-up. If one of them registered
        the same version, the insert meets the unique constraint and that version is used; the identity
        that was drawn for the insert is lost. */
    method RegisterSourceFile(m: Metadata, committed: map<nat, SourceFile>) returns (r: Registration)
      requires VersionsUnique(View()) && VersionsUnique(View().(sources := committed))
      requires forall id :: id in sources ==> 1 <= id
      modifies this`sources, this`nextSource
      ensures View() == RegisteredAmid(old(View()), m, committed).0
      ensures r.sid == RegisteredAmid(old(View()), m, committed).1
      ensures r.sid in sources && r.status == sources[r.sid].status && r.decision == DecisionFor(r.status)
      ensures r.isNew <==> ExactVersion(old(View()), m).None? && ExactVersion(old(View()).(sources := committed), m).None?
    {
      var existing := FindExactVersion(m);
      if existing.Some? {
        var sid := existing.value;
        return Registration(sid, sources[sid].status, DecisionFor(sources[sid].status), false);
      }
      var partitionExists := 0;
      if id :| id in sources && sources[id].meta.partition == m.partition {
        partitionExists := id;
      }
      var status := if partitionExists != 0 then RevisionDetected else Ready;
      var row := SourceFile(nextSource, m, status);
      sources, nextSource := committed, row.id + 1;
      SameLookUp(old(View()).(sources := committed), View(), m);
      var raced := FindExactVersion(m);
      if raced.Some? {
        var sid := raced.value;
        return Registration(sid, sources[sid].status, DecisionFor(sources[sid].status), false);
      }
      sources := sources[row.id := row];
      r := Registration(row.id, status, DecisionFor(status), true);
    }

    method GetSourceFile(sid: nat) returns (r: Result<SourceFile, StateError>)
      ensures r == if sid in sources then Ok(sources[sid]) else Err(UnknownSource)
    {
      r := if sid in sources then Ok(sources[sid]) else Err(UnknownSource);
    }

    method MarkSourceLoaded(sid: nat) returns (r: Result<(), StateError>)
      modifies this`sources
      ensures r.Ok? <==> HasStatus(old(View()), sid, Ready)
      ensures r.Err? ==> sources == old(sources)
      ensures r.Ok? ==> sources == old(sources)[sid := old(sources)[sid].(status := Loaded)]
    {
      var found := GetSourceFile(sid);
      if found.Err? {
        return Err(found.error);
      }
      if found.value.status != Ready {
        return Err(WrongSourceStatus);
      }
      sources := sources[sid := found.value.(status := Loaded)];
      r := Ok(());
    }

    // ---------- runs ----------

    method StartRun(sid: nat) returns (r: Result<nat, StateError>)
      modifies this`runs, this`nextRun
      ensures r.Ok? <==> HasStatus(old(View()), sid, Ready)
      ensures r.Ok? ==> r.value == old(nextRun) && View() == AddRunning(old(View()), sid)
      ensures r.Err? ==> View() == old(View())
    {
      var found := GetSourceFile(sid);
      if found.Err? {
        return Err(found.error);
      }
      if found.value.status != Ready {
        return Err(WrongSourceStatus);
      }
      var run := Run(nextRun, sid, found.value.meta, Running, None, None, None, None, None, None);
      runs, nextRun := runs[run.id := run], run.id + 1;
      r := Ok(run.id);
    }

    method GetRunningRun(run: nat) returns (r: Result<Run, StateError>)
      ensures r.Ok? <==> IsRunning(View(), run)
      ensures r.Ok? ==> r.value == runs[run]
    {
      if run !in runs {
        return Err(UnknownRun);
      }
      r := if runs[run].status != Running then Err(TerminalRun) else Ok(runs[run]);
    }

    /** Finishes a running load together with its source: both rows change, or neither. */
    method MarkRunSucceeded(run: nat, counts: LoadCounts) returns (r: Result<(), StateError>)
      modifies this`runs, this`sources
      ensures r.Ok? <==> IsRunning(old(View()), run) && HasStatus(old(View()), old(runs)[run].sid, Ready)
      ensures r.Ok? ==> View() == FinishLoad(old(View()), old(runs)[run].sid, run, [], counts)
      ensures r.Err? ==> View() == old(View())
    {
      var found := GetRunningRun(run);
      if found.Err? {
        return Err(found.error);
      }
      r := MarkSourceLoaded(found.value.sid);
      if r.Err? {
        return;
      }
      runs := runs[run := found.value.(status := Succeeded, reason := None, rowsRead := Some(counts.read),
        rowsLoaded := Some(counts.loaded), warnings := Some(0), errors := Some(0), message := None)];
      assert raw + [] == raw;
    }

    method MarkRunFailed(run: nat, text: string) returns (r: Result<(), StateError>)
      modifies this`runs
      ensures r.Ok? <==> !Blank(text) && IsRunning(old(View()), run)
      ensures r.Ok? ==> View() == FailRun(old(View()), run, text)
      ensures r.Err? ==> View() == old(View())
    {
      if forall c | c in text :: IsSpace(c) {
        return Err(EmptyMessage);
      }
      var found := GetRunningRun(run);
      if found.Err? {
        return Err(found.error);
      }
      runs := runs[run := found.value.(status := Failed, reason := None, message := Some(text))];
      r := Ok(());
    }

    method CreateSkippedRun(sid: nat, reason: SkipReason) returns (r: Result<nat, StateError>)
      modifies this`runs, this`nextRun
      ensures r.Ok? <==> HasStatus(old(View()), sid, StatusFor(reason))
      ensures r.Ok? ==> r.value == old(nextRun) && View() == AddSkipped(old(View()), sid, reason)
      ensures r.Err? ==> View() == old(View())
    {
      var found := GetSourceFile(sid);
      if found.Err? {
        return Err(found.error);
      }
      if found.value.status != StatusFor(reason) {
        return Err(WrongSourceStatus);
      }
      var run := Run(nextRun, sid, found.value.meta, Skipped, Some(reason), None, Some(0), None, None, None);
      runs, nextRun := runs[run.id := run], run.id + 1;
      r := Ok(run.id);
    }

    // ---------- raw rows ----------

    /** Copies rows one by one and counts them. */
    method CopyRows(rows: seq<RawRow>) returns (count: nat)
      modifies this`copied
      ensures copied == old(copied) + rows && count == |rows|
    {
      count := 0;
      while count < |rows|
        invariant 0 <= count <= |rows| && copied == old(copied) + rows[..count]
      {
        copied := copied + [rows[count]];
        count := count + 1;
      }
    }

    /** The loaders' loop over the batches of a reader. */
    method LoadBatches(batches: seq<RawBatch>) returns (counts: LoadCounts)
      modifies this`copied
      ensures copied == old(copied) + Flatten(batches)
      ensures counts == LoadCounts(|Flatten(batches)|, |Flatten(batches)|)
    {
      var rowsRead, rowsLoaded := 0, 0;
      for k := 0 to |batches|
        invariant rowsRead == rowsLoaded == |Flatten(batches[..k])|
        invariant copied == old(copied) + Flatten(batches[..k])
      {
        FlattenSnoc(batches[..k], batches[k]);
        assert batches[..k] + [batches[k]] == batches[..k + 1];
        rowsRead := rowsRead + |batches[k].rows|;
        var n := CopyRows(batches[k].rows);
        rowsLoaded := rowsLoaded + n;
      }
      assert batches[..|batches|] == batches;
      counts := LoadCounts(rowsRead, rowsLoaded);
    }
  }
}
