/** One undisturbed ingestion attempt, from registration to the end of its run. */
module Service {
  import opened Wrappers
  import opened Cells
  import opened Columns
  import opened Catalog
  import opened Batches
  import opened Lifecycle
  import opened Invariants
  import opened Safety
  import opened Sessions
  import opened EndToEnd

  /** What is found at the landing path when the load opens it. The sizes are those of the record
      batches the Parquet reader chooses to deliver. */
  datatype Content =
    | Parquet(file: ParquetFile, sizes: seq<nat>, schemaOk: bool)
    | Csv(records: seq<ZoneRecord>)
    | Unreadable
  {
    ghost predicate Valid() {
      Parquet? ==> file.Valid() && Sum(sizes) == file.count
    }
  }

  /** The rows a load of this dataset reads, if it reads to the end. */
  ghost function SourceRows(d: Dataset, c: Content): Option<seq<Row>>
    requires c.Valid()
  {
    match d
    case YellowTripdata => if c.Parquet? && c.schemaOk then Some(c.file.Rows(YELLOW_COLUMNS)) else None
    case GreenTripdata => if c.Parquet? && c.schemaOk then Some(c.file.Rows(GREEN_COLUMNS)) else None
    case TaxiZoneLookup => if c.Csv? && Parses(c.records) then Some(ZoneRows(c.records)) else None
    case Unsupported(_) => None
  }

  datatype IngestionError =
    | InvalidBatchSize
    | StateRaised
    | LoadFailed(text: string)

  datatype IngestionResult =
    | SkippedResult(sid: nat, run: nat, reason: SkipReason)
    | LoadedResult(sid: nat, run: nat, counts: LoadCounts)

  /** The rows load cleanly for this metadata: they can be read, there are as many as registered, and
      they do not violate a key. */
  ghost predicate Loadable(m: Metadata, rows: Option<seq<Row>>, l: Lineage) {
    rows.Some? && m.rowCount == Some(|rows.value|) && NoClash(Numbered(l, 1, rows.value))
  }

  /** No two rows of a lookup have the same location. */
  ghost predicate LocationsDiffer(rows: seq<Row>) {
    forall i, j :: 0 <= i < j < |rows| && |rows[i]| > 0 && |rows[j]| > 0 && rows[i][0].Int? ==> rows[i][0] != rows[j][0]
  }

  /** Rows that were read load exactly when there are as many as registered and, for the zone lookup, no
      location is repeated; nothing else can violate a key. */
  lemma LoadableExactly(m: Metadata, rows: seq<Row>, l: Lineage)
    requires l.dataset == m.dataset
    ensures Loadable(m, Some(rows), l) <==>
      m.rowCount == Some(|rows|) && (m.dataset == TaxiZoneLookup ==> LocationsDiffer(rows))
  {
    var raw := Numbered(l, 1, rows);
    if m.dataset == TaxiZoneLookup && NoClash(raw) {
      forall i, j | 0 <= i < j < |rows| && |rows[i]| > 0 && |rows[j]| > 0 && rows[i][0].Int?
        ensures rows[i][0] != rows[j][0]
      {
        assert !Clash(raw[i], raw[j]);
      }
    }
    if m.dataset == TaxiZoneLookup && LocationsDiffer(rows) {
      forall i, j | 0 <= i < j < |raw|
        ensures !Clash(raw[i], raw[j])
      {
      }
    }
  }

  /** The tables after an attempt that nothing disturbs; `text` is its error message, if it fails. */
  ghost function IngestAlone(t: Tables, m: Metadata, rows: Option<seq<Row>>, text: string): Tables
  {
    var (u, sid) := Registered(t, m);
    match u.sources[sid].status
    case Loaded => AddSkipped(u, sid, AlreadyLoaded)
    case RevisionDetected => AddSkipped(u, sid, SourceRevisionDetected)
    case Ready =>
      var l := Lineage(m.dataset, sid, u.nextRun);
      var v := AddRunning(u, sid);
      if Loadable(m, rows, l) then
        FinishLoad(v, sid, l.run, Numbered(l, 1, rows.value), LoadCounts(|rows.value|, |rows.value|))
      else
        FailRun(v, l.run, text)
  }

  ghost predicate ResultMatches(t: Tables, m: Metadata, rows: Option<seq<Row>>,
                                r: Result<IngestionResult, IngestionError>) {
    var (u, sid) := Registered(t, m);
    match u.sources[sid].status
    case Loaded => r == Ok(SkippedResult(sid, t.nextRun, AlreadyLoaded))
    case RevisionDetected => r == Ok(SkippedResult(sid, t.nextRun, SourceRevisionDetected))
    case Ready =>
      if Loadable(m, rows, Lineage(m.dataset, sid, t.nextRun)) then
        r == Ok(LoadedResult(sid, t.nextRun, LoadCounts(|rows.value|, |rows.value|)))
      else
        r.Err? && r.error.LoadFailed? && !Blank(r.error.text)
  }

  /** The batches that the dataset's reader yields until it ends (`ok`) or raises. */
  method ReadBatches(d: Dataset, content: Content, l: Lineage, batchSize: nat) returns (batches: seq<RawBatch>,
                     ok: bool)
    requires content.Valid() && batchSize > 0
    ensures ok <==> SourceRows(d, content).Some?
    ensures ok ==> Flatten(batches) == Numbered(l, 1, SourceRows(d, content).value)
  {
    batches, ok := [], false;
    match d {
      case YellowTripdata =>
        if content.Parquet? && content.schemaOk {
          batches := IterParquetBatches(content.file, content.sizes, YELLOW_COLUMNS, l);
          ok := true;
        }
      case GreenTripdata =>
        if content.Parquet? && content.schemaOk {
          batches := IterParquetBatches(content.file, content.sizes, GREEN_COLUMNS, l);
          ok := true;
        }
      case TaxiZoneLookup =>
        if content.Csv? {
          var read;
          batches, read := IterTaxiZoneBatches(content.records, batchSize, l);
          ok := read == |content.records|;
          assert content.records[..|content.records|] == content.records;
        }
      case Unsupported(_) =>
    }
  }

  lemma PersistedRows(raw: seq<RawRow>, l: Lineage, rows: seq<Row>)
    ensures |RowsOf(raw + Numbered(l, 1, rows), l.sid)| == |RowsOf(raw, l.sid)| + |rows|
  {
    RowsOfAppend(raw, Numbered(l, 1, rows), l.sid);
    RowsOfOwn(Numbered(l, 1, rows), l.sid);
  }

  /** The loader's counts, and the rows that the table then holds for the source. */
  method CopyAndCount(session: Session, batches: seq<RawBatch>, l: Lineage, ghost rows: seq<Row>)
    returns (counts: LoadCounts, persisted: nat)
    requires session.copied == []
    modifies session`copied
    ensures session.copied == Flatten(batches)
    ensures Flatten(batches) == Numbered(l, 1, rows) ==> counts == LoadCounts(|rows|, |rows|)
    ensures Flatten(batches) == Numbered(l, 1, rows) ==> persisted == |RowsOf(session.raw, l.sid)| + |rows|
  {
    counts := session.LoadBatches(batches);
    persisted := |RowsOf(session.raw + session.copied, l.sid)|;
    PersistedRows(session.raw, l, rows);
  }

  /** Copies what the dataset's reader yields and counts the rows persisted for the source. When the
      reader raises, the rows copied so far stay in the session, which its caller rolls back. */
  method LoadAndCount(session: Session, d: Dataset, content: Content, sid: nat, run: nat, batchSize: nat)
    returns (r: Result<(LoadCounts, nat), string>)
    requires content.Valid() && batchSize > 0 && session.copied == []
    modifies session`copied
    ensures r.Ok? <==> SourceRows(d, content).Some?
    ensures r.Ok? ==>
      var rows := SourceRows(d, content).value;
      && session.copied == Numbered(Lineage(d, sid, run), 1, rows)
      && r.value == (LoadCounts(|rows|, |rows|), |RowsOf(session.raw, sid)| + |rows|)
  {
    var l := Lineage(d, sid, run);
    var batches, ok := ReadBatches(d, content, l, batchSize);
    var counts, persisted := CopyAndCount(session, batches, l, if ok then SourceRows(d, content).value else []);
    r := if ok then Ok((counts, persisted)) else Err("the reader raised");
  }

  // ---------- the load transaction ----------

  /** Appending a load to tables that hold no rows of its source clashes only within the load. */
  lemma FreshLoadClashes(counts: Digest -> nat, t: Tables, sid: nat, rows: seq<RawRow>)
    requires TablesOk(counts, t) && HasStatus(t, sid, Ready)
    requires forall i :: 0 <= i < |rows| ==> rows[i].sid == sid
    ensures NoClash(t.raw + rows) <==> NoClash(rows)
  {
    assert SourceOk(counts, t, sid);
    var all := t.raw + rows;
    assert forall i :: 0 <= i < |rows| ==> rows[i] == all[|t.raw| + i];
    forall i | 0 <= i < |t.raw|
      ensures t.raw[i].sid != sid
    {
      RowsOfMember(t.raw, sid);
      assert t.raw[i] in t.raw && t.raw[i] !in RowsOf(t.raw, sid);
    }
  }

  /** The transaction of a started run: load, count, validate, finish run and source, commit. Any
      failure rolls all of it back and is reported as a message. */
  method LoadTransaction(db: Database, ghost counts: Digest -> nat, m: Metadata, content: Content, sid: nat, run: nat,
                         batchSize: nat)
    returns (r: Result<LoadCounts, string>)
    requires content.Valid() && batchSize > 0 && TablesOk(counts, db.tables)
    requires HasStatus(db.tables, sid, Ready) && OwnsRun(db.tables, sid, run)
    modifies db
    ensures
      var rows := SourceRows(m.dataset, content);
      var l := Lineage(m.dataset, sid, run);
      && (r.Ok? <==> Loadable(m, rows, l))
      && (r.Ok? ==> r.value == LoadCounts(|rows.value|, |rows.value|))
      && (r.Ok? ==> db.tables == FinishLoad(old(db.tables), sid, run, Numbered(l, 1, rows.value), r.value))
      && (r.Err? ==> db.tables == old(db.tables))
  {
    var session := new Session(db);
    var loaded := LoadAndCount(session, m.dataset, content, sid, run, batchSize);
    if loaded.Err? {
      return Err(loaded.error);
    }
    assert RowsOf(db.tables.raw, sid) == [] by {
      assert SourceOk(counts, db.tables, sid);
    }
    var (c, persisted) := loaded.value;
    if !CountsValid(m, c, persisted) {
      return Err("Row-count mismatch");
    }
    var marked := session.MarkRunSucceeded(run, c);
    if marked.Err? {
      return Err("Cannot mark source loaded");
    }
    FreshLoadClashes(counts, db.tables, sid, session.copied);
    var ok := session.Commit();
    if !ok {
      return Err("duplicate key value violates unique constraint");
    }
    assert old(db.tables.raw) + [] == old(db.tables.raw);
    r := Ok(c);
  }

  // ---------- the whole attempt ----------

  lemma NewVersionOk(counts: Digest -> nat, t: Tables, m: Metadata, row: SourceFile, u: Tables)
    requires TablesOk(counts, t) && Inspected(counts, m) && ExactVersion(t, m).None?
    requires row == NewVersion(t, m) && u == t.(sources := t.sources[row.id := row], nextSource := row.id + 1)
    ensures TablesOk(counts, u) && IsVersion(u, row.id, m)
  {
    var t1 := t.(nextSource := row.id + 1);
    TakeIdOk(counts, t);
    NextSourceIsFresh(counts, t);
    assert forall id :: IsVersion(t1, id, m) ==> IsVersion(t, id, m);
    assert u == t1.(sources := t1.sources[row.id := row]);
    InsertSourceOk(counts, t1, row);
  }

  lemma NextSourceIsFresh(counts: Digest -> nat, t: Tables)
    requires SourcesOk(counts, t)
    ensures t.nextSource !in t.sources
  {
    assert forall s :: s in t.sources ==> SourceOk(counts, t, s) && s < t.nextSource;
  }

  lemma RegisteredOk(counts: Digest -> nat, t: Tables, m: Metadata, u: Tables, sid: nat)
    requires TablesOk(counts, t) && Inspected(counts, m) && Registered(t, m) == (u, sid)
    ensures TablesOk(counts, u) && IsVersion(u, sid, m)
  {
    if ExactVersion(t, m).None? {
      NewVersionOk(counts, t, m, NewVersion(t, m), u);
    }
  }

  method Register(db: Database, ghost counts: Digest -> nat, m: Metadata) returns (r: Registration)
    requires TablesOk(counts, db.tables) && Inspected(counts, m)
    modifies db
    ensures db.tables == Registered(old(db.tables), m).0 && r.sid == Registered(old(db.tables), m).1
    ensures r.sid in db.tables.sources && r.status == db.tables.sources[r.sid].status
    ensures r.decision == DecisionFor(r.status)
  {
    var session := new Session(db);
    assert forall id :: id in db.tables.sources ==> SourceOk(counts, db.tables, id);
    RegisteredOk(counts, db.tables, m, Registered(db.tables, m).0, Registered(db.tables, m).1);
    r := session.RegisterSourceFile(m, session.sources);
    assert session.raw + [] == session.raw;
    var ok := session.Commit();
    assert ok;
  }

  method SkipTransaction(db: Database, sid: nat, reason: SkipReason) returns (r: Result<nat, StateError>)
    requires NoClash(db.tables.raw)
    modifies db
    ensures r.Ok? <==> HasStatus(old(db.tables), sid, StatusFor(reason))
    ensures r.Ok? ==> r.value == old(db.tables).nextRun && db.tables == AddSkipped(old(db.tables), sid, reason)
    ensures r.Err? ==> db.tables == old(db.tables)
  {
    var session := new Session(db);
    r := session.CreateSkippedRun(sid, reason);
    if r.Ok? {
      assert session.raw + [] == session.raw;
      var _ := session.Commit();
    }
  }

  method StartTransaction(db: Database, sid: nat) returns (r: Result<nat, StateError>)
    requires NoClash(db.tables.raw)
    modifies db
    ensures r.Ok? <==> HasStatus(old(db.tables), sid, Ready)
    ensures r.Ok? ==> r.value == old(db.tables).nextRun && db.tables == AddRunning(old(db.tables), sid)
    ensures r.Err? ==> db.tables == old(db.tables)
  {
    var session := new Session(db);
    r := session.StartRun(sid);
    if r.Ok? {
      assert session.raw + [] == session.raw;
      var _ := session.Commit();
    }
  }

  method FailTransaction(db: Database, run: nat, text: string) returns (r: Result<(), StateError>)
    requires NoClash(db.tables.raw)
    modifies db
    ensures r.Ok? <==> !Blank(text) && IsRunning(old(db.tables), run)
    ensures r.Ok? ==> db.tables == FailRun(old(db.tables), run, text)
    ensures r.Err? ==> db.tables == old(db.tables)
  {
    var session := new Session(db);
    r := session.MarkRunFailed(run, text);
    if r.Ok? {
      assert session.raw + [] == session.raw;
      var _ := session.Commit();
    }
  }

  /** Runs the load of a started run and, if it raises, records the failure in a fresh transaction. */
  method LoadOrFail(db: Database, ghost counts: Digest -> nat, m: Metadata, content: Content, sid: nat, run: nat,
                    batchSize: nat)
    returns (r: Result<IngestionResult, IngestionError>)
    requires content.Valid() && batchSize > 0 && TablesOk(counts, db.tables)
    requires HasStatus(db.tables, sid, Ready) && OwnsRun(db.tables, sid, run)
    modifies db
    ensures
      var rows := SourceRows(m.dataset, content);
      var l := Lineage(m.dataset, sid, run);
      if Loadable(m, rows, l) then
        var c := LoadCounts(|rows.value|, |rows.value|);
        && r == Ok(LoadedResult(sid, run, c))
        && db.tables == FinishLoad(old(db.tables), sid, run, Numbered(l, 1, rows.value), c)
      else
        && r.Err? && r.error.LoadFailed? && !Blank(r.error.text)
        && db.tables == FailRun(old(db.tables), run, r.error.text)
  {
    var loaded := LoadTransaction(db, counts, m, content, sid, run, batchSize);
    if loaded.Ok? {
      return Ok(LoadedResult(sid, run, loaded.value));
    }
    var text := SafeErrorMessage(loaded.error, "Exception");
    SafeErrorMessageNotBlank(loaded.error, "Exception");
    var recorded := FailTransaction(db, run, text);
    assert recorded.Ok?;
    r := Err(LoadFailed(text));
  }

  /** The raw rows of a source say, row for row, what the file at the landing path says. */
  ghost predicate HoldsContent(rows: seq<RawRow>, d: Dataset, c: Content)
    requires c.Valid()
  {
    match d
    case YellowTripdata => c.Parquet? && TripsReadFile(rows, c.file, Yellow, TpepPickup, TpepDropoff)
    case GreenTripdata => c.Parquet? && TripsReadFile(rows, c.file, Green, LpepPickup, LpepDropoff)
    case TaxiZoneLookup => c.Csv? && ZonesReadLookup(rows, c.records)
    case Unsupported(_) => false
  }

  lemma SourceRowsHoldContent(d: Dataset, c: Content, l: Lineage)
    requires c.Valid() && SourceRows(d, c).Some? && l.dataset == d
    ensures HoldsContent(Numbered(l, 1, SourceRows(d, c).value), d, c)
  {
    match d
    case YellowTripdata => YellowTripsReadFile(c.file, l);
    case GreenTripdata => GreenTripsReadFile(c.file, l);
    case TaxiZoneLookup =>
  }

  lemma StartedLoadFinishes(counts: Digest -> nat, u: Tables, m: Metadata, sid: nat, loaded: seq<RawRow>)
    requires TablesOk(counts, u) && Inspected(counts, m) && IsVersion(u, sid, m) && u.sources[sid].status == Ready
    requires IsLoad(loaded, m.dataset, sid, u.nextRun) && m.rowCount == Some(|loaded|) && NoClash(loaded)
    ensures
      var t := FinishLoad(AddRunning(u, sid), sid, u.nextRun, loaded, LoadCounts(|loaded|, |loaded|));
      IsVersion(t, sid, m) && LoadedBy(t, sid, u.nextRun) && RowsOf(t.raw, sid) == loaded
  {
    var v := AddRunning(u, sid);
    AddRunOk(counts, u, sid, Running, None);
    FreshLoadClashes(counts, v, sid, loaded);
    CleanLoadFinishes(counts, v, m, sid, u.nextRun, loaded);
  }

  lemma CleanLoadFinishes(counts: Digest -> nat, v: Tables, m: Metadata, sid: nat, run: nat, loaded: seq<RawRow>)
    requires TablesOk(counts, v) && Inspected(counts, m) && IsVersion(v, sid, m) && v.sources[sid].status == Ready
    requires OwnsRun(v, sid, run) && IsLoad(loaded, m.dataset, sid, run)
    requires m.rowCount == Some(|loaded|) && NoClash(v.raw + loaded)
    ensures
      var t := FinishLoad(v, sid, run, loaded, LoadCounts(|loaded|, |loaded|));
      IsVersion(t, sid, m) && LoadedBy(t, sid, run) && RowsOf(t.raw, sid) == loaded
  {
    FinishLoadOk(counts, v, m, sid, run, loaded);
    FinishLoadRows(counts, v, m, sid, run, loaded);
  }

  /** An undisturbed attempt that loads leaves the source's raw rows saying what the file says. */
  lemma LoadHoldsContent(counts: Digest -> nat, t: Tables, m: Metadata, c: Content, text: string)
    requires TablesOk(counts, t) && Inspected(counts, m) && c.Valid()
    requires
      var (u, sid) := Registered(t, m);
      u.sources[sid].status == Ready && Loadable(m, SourceRows(m.dataset, c), Lineage(m.dataset, sid, t.nextRun))
    ensures HoldsContent(RowsOf(IngestAlone(t, m, SourceRows(m.dataset, c), text).raw, Registered(t, m).1), m.dataset, c)
  {
    var (u, sid) := Registered(t, m);
    var l := Lineage(m.dataset, sid, t.nextRun);
    RegisteredOk(counts, t, m, u, sid);
    StartedLoadFinishes(counts, u, m, sid, Numbered(l, 1, SourceRows(m.dataset, c).value));
    SourceRowsHoldContent(m.dataset, c, l);
  }

  /** One attempt that nothing disturbs. When it loads, the source's raw rows say what the file says. */
  method IngestSource(db: Database, ghost counts: Digest -> nat, m: Metadata, content: Content, batchSize: int)
    returns (r: Result<IngestionResult, IngestionError>)
    requires content.Valid() && TablesOk(counts, db.tables) && Inspected(counts, m)
    modifies db
    ensures batchSize <= 0 ==> r == Err(InvalidBatchSize) && db.tables == old(db.tables)
    ensures batchSize > 0 ==> ResultMatches(old(db.tables), m, SourceRows(m.dataset, content), r)
    ensures batchSize > 0 ==>
      db.tables == IngestAlone(old(db.tables), m, SourceRows(m.dataset, content),
                               if r.Err? && r.error.LoadFailed? then r.error.text else "")
    ensures r.Ok? && r.value.LoadedResult? ==> HoldsContent(RowsOf(db.tables.raw, r.value.sid), m.dataset, content)
  {
    if batchSize <= 0 {
      return Err(InvalidBatchSize);
    }
    RegisteredOk(counts, db.tables, m, Registered(db.tables, m).0, Registered(db.tables, m).1);
    var registration := Register(db, counts, m);
    var sid := registration.sid;
    if registration.decision != Proceed {
      var reason := ReasonFor(registration.decision);
      var skipped := SkipTransaction(db, sid, reason);
      assert skipped.Ok?;
      return Ok(SkippedResult(sid, skipped.value, reason));
    }
    AddRunOk(counts, db.tables, sid, Running, None);
    var started := StartTransaction(db, sid);
    assert started.Ok?;
    r := LoadOrFail(db, counts, m, content, sid, started.value, batchSize);
    if r.Ok? && r.value.LoadedResult? {
      LoadHoldsContent(counts, old(db.tables), m, content, "");
    }
  }
}
