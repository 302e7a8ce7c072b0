/** What the ingestion protocol promises over whole runs: exactly-once loads, decisions that stay
    valid across transaction gaps, and at most one accepted version of a partition. */
module Guarantees {
  import opened Wrappers
  import opened Catalog
  import opened Lifecycle
  import opened Protocol
  import opened Invariants
  import opened Safety

  lemma InitOk(counts: Digest -> nat)
    ensures Inv(counts, INIT)
  {
  }

  lemma ReachableOk(counts: Digest -> nat, events: seq<Event>)
    requires CanRun(counts, INIT, events)
    ensures Inv(counts, After(counts, INIT, events))
  {
    InitOk(counts);
    RunKeeps(counts, INIT, events);
  }

  // ---------- exactly once ----------

  ghost predicate SucceededFor(t: Tables, s: nat, r: nat) {
    r in t.runs && t.runs[r].sid == s && t.runs[r].status == Succeeded
  }

  /** Whatever attempts interleave, fail or crash: a source is loaded exactly when one of its runs
      succeeded, there is only one such run, and the source's raw rows are that run's, numbered from 1
      to the registered row count. Otherwise the source has no raw rows. */
  lemma ExactlyOnce(counts: Digest -> nat, events: seq<Event>, s: nat)
    requires CanRun(counts, INIT, events)
    requires s in After(counts, INIT, events).t.sources
    ensures
      var t := After(counts, INIT, events).t;
      && (t.sources[s].status == Loaded <==> exists r :: SucceededFor(t, s, r))
      && (forall q, r :: SucceededFor(t, s, q) && SucceededFor(t, s, r) ==> q == r)
      && (forall r :: SucceededFor(t, s, r) ==>
            && IsLoad(RowsOf(t.raw, s), DatasetOf(t.sources[s].meta.partition), s, r)
            && t.runs[r].rowsLoaded == t.sources[s].meta.rowCount == Some(|RowsOf(t.raw, s)|)
            && |RowsOf(t.raw, s)| >= 1)
      && (t.sources[s].status != Loaded ==> RowsOf(t.raw, s) == [])
  {
    ReachableOk(counts, events);
    var t := After(counts, INIT, events).t;
    assert SourceOk(counts, t, s);
    assert forall r :: r in t.runs ==> RunOk(t, r);
    if t.sources[s].status == Loaded {
      var r :| LoadedBy(t, s, r);
      assert SucceededFor(t, s, r);
    }
  }

  /** Two attempts that both passed their checks on one source: once the first has committed, the
      second can only fail, however long it waits, because it meets the first row's primary key. */
  lemma RaceIsDecidedByTheKey(counts: Digest -> nat, s: System, a: nat, b: nat, more: seq<Event>, text: string,
                              name: string)
    requires Inv(counts, s) && a in s.attempts && b in s.attempts && a != b
    requires s.attempts[a].phase.Committing? && s.attempts[b].phase.Committing?
    requires s.attempts[a].phase.sid == s.attempts[b].phase.sid
    requires Enabled(counts, s, Commit(a, text, name)) && NoClash(s.t.raw + s.attempts[a].phase.copied)
    requires CanRun(counts, Step(counts, s, Commit(a, text, name)), more)
    ensures
      var u := After(counts, Step(counts, s, Commit(a, text, name)), more);
      Enabled(counts, u, Commit(b, text, name)) && u.attempts[b] == s.attempts[b] ==>
        Step(counts, u, Commit(b, text, name)).attempts[b].phase.Failing?
  {
    var v := Step(counts, s, Commit(a, text, name));
    var u := After(counts, v, more);
    StepKeeps(counts, s, Commit(a, text, name));
    RunKeeps(counts, v, more);
    if Enabled(counts, u, Commit(b, text, name)) && u.attempts[b] == s.attempts[b] {
      var p := u.attempts[b].phase;
      assert v.t.sources[p.sid].status == Loaded;
      assert PhaseOk(u.t, u.attempts[b].meta, p);
      LoadedMeansClash(counts, u.t, u.attempts[b].meta, p.sid, p.run, p.copied);
    }
  }

  // ---------- decisions and failures ----------

  /** A skip decision taken in one transaction is still valid in the transaction that records it, and
      recording a failure always finds the run still running and a message that is not blank. */
  lemma FollowUpTransactionsSucceed(counts: Digest -> nat, events: seq<Event>, a: nat)
    requires CanRun(counts, INIT, events) && a in After(counts, INIT, events).attempts
    ensures
      var s := After(counts, INIT, events);
      && (Enabled(counts, s, Skip(a)) ==> Step(counts, s, Skip(a)).attempts[a].phase.outcome.DidSkip?)
      && (Enabled(counts, s, Record(a)) ==> Step(counts, s, Record(a)).attempts[a].phase.outcome.DidFail?)
      && s.attempts[a].phase != Finished(RaisedAtSkip) && s.attempts[a].phase != Finished(RaisedAtRecord)
  {
    ReachableOk(counts, events);
    var s := After(counts, INIT, events);
    assert PhaseOk(s.t, s.attempts[a].meta, s.attempts[a].phase);
    if Enabled(counts, s, Skip(a)) {
      SkipOk(counts, s, a);
    }
    if Enabled(counts, s, Record(a)) {
      RecordOk(counts, s, a);
    }
  }

  /** Starting a run after a decision to proceed raises exactly when the source was loaded meanwhile. */
  lemma StartRaisesIffLoaded(counts: Digest -> nat, events: seq<Event>, a: nat)
    requires CanRun(counts, INIT, events) && Enabled(counts, After(counts, INIT, events), CheckReady(a))
    ensures
      var s := After(counts, INIT, events);
      Step(counts, s, CheckReady(a)).attempts[a].phase == Finished(RaisedAtStart)
      <==> HasStatus(s.t, s.attempts[a].phase.sid, Loaded)
  {
    ReachableOk(counts, events);
    var s := After(counts, INIT, events);
    assert PhaseOk(s.t, s.attempts[a].meta, s.attempts[a].phase);
  }

  /** What an attempt reported stays what the tables say: a skipped, a succeeded or a failed run of the
      attempt's own version, and for a failure with the reported message. */
  lemma OutcomesAreRecorded(counts: Digest -> nat, events: seq<Event>, a: nat)
    requires CanRun(counts, INIT, events) && a in After(counts, INIT, events).attempts
    requires After(counts, INIT, events).attempts[a].phase.Finished?
    ensures
      var s := After(counts, INIT, events);
      OutcomeOk(s.t, s.attempts[a].meta, s.attempts[a].phase.outcome)
  {
    ReachableOk(counts, events);
    var s := After(counts, INIT, events);
    assert PhaseOk(s.t, s.attempts[a].meta, s.attempts[a].phase);
  }

  // ---------- one accepted version per partition ----------

  predicate InPartition(t: Tables, id: nat, p: Partition) {
    id in t.sources && t.sources[id].meta.partition == p
  }

  /** At most one version of a partition was not refused as a revision. */
  ghost predicate Exclusive(t: Tables) {
    forall i, j :: i in t.sources && j in t.sources && i != j && t.sources[i].meta.partition == t.sources[j].meta.partition ==>
      t.sources[i].status == RevisionDetected || t.sources[j].status == RevisionDetected
  }

  /** Every refused version comes after another version of its partition. */
  ghost predicate RevisionsFollow(t: Tables) {
    forall j :: j in t.sources && t.sources[j].status == RevisionDetected ==> Follows(t, j, t.sources[j].meta.partition)
  }

  ghost predicate Follows(t: Tables, j: nat, p: Partition) {
    exists i: nat :: i < j && InPartition(t, i, p)
  }

  ghost predicate InsertsFollow(s: System) {
    forall a :: a in s.attempts && s.attempts[a].phase.Inserting? ==>
      var row := s.attempts[a].phase.row;
      (row.status == RevisionDetected ==> Follows(s.t, row.id, row.meta.partition))
  }

  /** The event inserts this row: a registration that meets no row of its own version. */
  ghost predicate Inserts(s: System, e: Event, row: SourceFile) {
    && e.Register? && e.a in s.attempts && s.attempts[e.a].phase == Inserting(row)
    && ExactVersion(s.t, s.attempts[e.a].meta).None?
  }

  /** Registrations of different contents of one partition do not overlap: when a version that found its
      partition empty is inserted, the partition is still empty. A race for one version ends at the
      unique constraint and inserts nothing, so it is always allowed. */
  ghost predicate Serialised(s: System, e: Event) {
    forall row :: Inserts(s, e, row) && row.status == Ready ==> !PartitionKnown(s.t, row.meta.partition)
  }

  ghost predicate SerialRun(counts: Digest -> nat, s: System, events: seq<Event>)
    requires CanRun(counts, s, events)
    decreases |events|
  {
    events == [] || (Serialised(s, events[0]) && SerialRun(counts, Step(counts, s, events[0]), events[1..]))
  }

  ghost predicate SerialInv(s: System) {
    Exclusive(s.t) && RevisionsFollow(s.t) && InsertsFollow(s)
  }

  lemma FollowsStays(t: Tables, u: Tables, j: nat, p: Partition)
    requires Follows(t, j, p) && Evolves(t, u)
    ensures Follows(u, j, p)
  {
    var i: nat :| i < j && InPartition(t, i, p);
    assert InPartition(u, i, p);
  }

  /** Inserting a version keeps exclusivity exactly when it was refused or its partition is still empty. */
  lemma InsertKeepsExclusive(counts: Digest -> nat, t: Tables, row: SourceFile)
    requires TablesOk(counts, t) && Exclusive(t) && RevisionsFollow(t)
    requires row.id !in t.sources && row.status != Loaded
    ensures Exclusive(t.(sources := t.sources[row.id := row]))
       <==> (row.status == RevisionDetected || !PartitionKnown(t, row.meta.partition))
  {
    var u := t.(sources := t.sources[row.id := row]);
    if row.status == Ready && PartitionKnown(t, row.meta.partition) {
      var i :| i in t.sources && t.sources[i].meta.partition == row.meta.partition;
      var k := FirstVersion(t, i);
      assert k in u.sources && row.id in u.sources && k != row.id;
    }
  }

  /** The least id of the partition of `i` is not a refused version. */
  lemma {:induction false} FirstVersion(t: Tables, i: nat) returns (k: nat)
    requires RevisionsFollow(t) && i in t.sources
    ensures k <= i && InPartition(t, k, t.sources[i].meta.partition) && t.sources[k].status != RevisionDetected
    decreases i
  {
    k := i;
    if t.sources[i].status == RevisionDetected {
      var j: nat :| j < i && InPartition(t, j, t.sources[i].meta.partition);
      k := FirstVersion(t, j);
    }
  }

  lemma EvolvesKeepsExclusive(t: Tables, u: Tables)
    requires Evolves(t, u) && u.sources.Keys == t.sources.Keys
    requires Exclusive(t) && RevisionsFollow(t)
    ensures Exclusive(u) && RevisionsFollow(u)
  {
    forall j | j in u.sources && u.sources[j].status == RevisionDetected
      ensures Follows(u, j, u.sources[j].meta.partition)
    {
      FollowsStays(t, u, j, t.sources[j].meta.partition);
    }
  }

  /** Inserting the row of an attempt in serial order keeps the three facts about the tables. */
  lemma InsertKeepsSerial(counts: Digest -> nat, t: Tables, row: SourceFile)
    requires TablesOk(counts, t) && Exclusive(t) && RevisionsFollow(t)
    requires row.id !in t.sources && row.status != Loaded
    requires row.status == RevisionDetected ==> Follows(t, row.id, row.meta.partition)
    requires row.status == Ready ==> !PartitionKnown(t, row.meta.partition)
    ensures
      var u := t.(sources := t.sources[row.id := row]);
      Exclusive(u) && RevisionsFollow(u)
  {
    var u := t.(sources := t.sources[row.id := row]);
    InsertKeepsExclusive(counts, t, row);
    forall j | j in u.sources && u.sources[j].status == RevisionDetected
      ensures Follows(u, j, u.sources[j].meta.partition)
    {
      var p := u.sources[j].meta.partition;
      var i: nat :| i < j && InPartition(t, i, p);
      assert InPartition(u, i, p);
    }
  }

  /** A refused insert decided at look-up comes after a registered version of its partition. */
  lemma NewVersionFollows(counts: Digest -> nat, t: Tables, m: Metadata)
    requires TablesOk(counts, t)
    ensures NewVersion(t, m).status == RevisionDetected ==> Follows(t, t.nextSource, m.partition)
  {
    if NewVersion(t, m).status == RevisionDetected {
      var i :| i in t.sources && t.sources[i].meta.partition == m.partition;
      assert SourceOk(counts, t, i);
      assert i < t.nextSource && InPartition(t, i, m.partition);
    }
  }

  lemma InsertsStay(counts: Digest -> nat, s: System, u: System, e: Event)
    requires InsertsFollow(s) && Enabled(counts, s, e) && u == Step(counts, s, e) && Evolves(s.t, u.t)
    requires !e.LookUp?
    ensures InsertsFollow(u)
  {
    forall b | b in u.attempts && u.attempts[b].phase.Inserting? && u.attempts[b].phase.row.status == RevisionDetected
      ensures Follows(u.t, u.attempts[b].phase.row.id, u.attempts[b].phase.row.meta.partition)
    {
      assert b in s.attempts && u.attempts[b].phase == s.attempts[b].phase;
      var row := s.attempts[b].phase.row;
      FollowsStays(s.t, u.t, row.id, row.meta.partition);
    }
  }

  lemma LookUpKeepsInserts(counts: Digest -> nat, s: System, a: nat)
    requires Inv(counts, s) && InsertsFollow(s) && Enabled(counts, s, LookUp(a))
    ensures InsertsFollow(LookUpStep(s, a))
  {
    LookUpOk(counts, s, a);
    var u := LookUpStep(s, a);
    forall b | b in u.attempts && u.attempts[b].phase.Inserting? && u.attempts[b].phase.row.status == RevisionDetected
      ensures Follows(u.t, u.attempts[b].phase.row.id, u.attempts[b].phase.row.meta.partition)
    {
      var row := u.attempts[b].phase.row;
      if b == a {
        NewVersionFollows(counts, s.t, s.attempts[a].meta);
      }
      FollowsStays(s.t, u.t, row.id, row.meta.partition);
    }
  }

  lemma SerialStepKeeps(counts: Digest -> nat, s: System, e: Event)
    requires Inv(counts, s) && SerialInv(s) && Enabled(counts, s, e) && Serialised(s, e)
    ensures SerialInv(Step(counts, s, e))
  {
    var u := Step(counts, s, e);
    StepKeeps(counts, s, e);
    if e.LookUp? {
      LookUpKeepsInserts(counts, s, e.a);
    } else {
      InsertsStay(counts, s, u, e);
    }
    if e.Register? && ExactVersion(s.t, s.attempts[e.a].meta).None? {
      var row := s.attempts[e.a].phase.row;
      assert PhaseOk(s.t, s.attempts[e.a].meta, s.attempts[e.a].phase);
      InsertKeepsSerial(counts, s.t, row);
    } else {
      assert u.t.sources.Keys == s.t.sources.Keys;
      EvolvesKeepsExclusive(s.t, u.t);
    }
  }

  lemma {:induction false} SerialRunKeeps(counts: Digest -> nat, s: System, events: seq<Event>)
    requires Inv(counts, s) && SerialInv(s) && CanRun(counts, s, events) && SerialRun(counts, s, events)
    ensures SerialInv(After(counts, s, events))
    decreases |events|
  {
    if events != [] {
      StepKeeps(counts, s, events[0]);
      SerialStepKeeps(counts, s, events[0]);
      SerialRunKeeps(counts, Step(counts, s, events[0]), events[1..]);
    }
  }

  /** An insert into a partition that is no longer empty breaks exclusivity. */
  lemma OverlapBreaks(counts: Digest -> nat, s: System, e: Event)
    requires Inv(counts, s) && SerialInv(s) && Enabled(counts, s, e) && !Serialised(s, e)
    ensures !Exclusive(Step(counts, s, e).t)
  {
    var row :| Inserts(s, e, row) && row.status == Ready && PartitionKnown(s.t, row.meta.partition);
    assert PhaseOk(s.t, s.attempts[e.a].meta, Inserting(row));
    InsertKeepsExclusive(counts, s.t, row);
  }

  /** Two accepted versions of one partition are never told apart again. */
  lemma BrokenStays(t: Tables, u: Tables)
    requires Evolves(t, u) && !Exclusive(t)
    ensures !Exclusive(u)
  {
    var i, j :| i in t.sources && j in t.sources && i != j && t.sources[i].meta.partition == t.sources[j].meta.partition
      && t.sources[i].status != RevisionDetected && t.sources[j].status != RevisionDetected;
    assert i in u.sources && j in u.sources;
  }

  /** Partition exclusivity holds after a run exactly when registrations did not overlap in it. */
  lemma {:induction false} ExclusiveIffSerial(counts: Digest -> nat, s: System, events: seq<Event>)
    requires Inv(counts, s) && SerialInv(s) && CanRun(counts, s, events)
    ensures Exclusive(After(counts, s, events).t) <==> SerialRun(counts, s, events)
    decreases |events|
  {
    if events != [] {
      var e, u := events[0], Step(counts, s, events[0]);
      StepKeeps(counts, s, e);
      if Serialised(s, e) {
        SerialStepKeeps(counts, s, e);
        ExclusiveIffSerial(counts, u, events[1..]);
      } else {
        OverlapBreaks(counts, s, e);
        RunKeeps(counts, u, events[1..]);
        BrokenStays(u.t, After(counts, u, events[1..]).t);
      }
    }
  }

  /** When registrations of one partition do not overlap, the first registered version is the only one
      of its partition that is ever ready or loaded, in every state of the run. */
  lemma FirstVersionOnly(counts: Digest -> nat, events: seq<Event>, i: nat, j: nat)
    requires CanRun(counts, INIT, events) && SerialRun(counts, INIT, events)
    requires
      var t := After(counts, INIT, events).t;
      && i in t.sources && j in t.sources && t.sources[i].meta.partition == t.sources[j].meta.partition
      && forall k :: InPartition(t, k, t.sources[i].meta.partition) ==> i <= k
    ensures
      var t := After(counts, INIT, events).t;
      t.sources[j].status != RevisionDetected <==> j == i
  {
    InitOk(counts);
    SerialRunKeeps(counts, INIT, events);
    var t := After(counts, INIT, events).t;
    var k := FirstVersion(t, i);
    assert k == i;
  }

  /** A refused version stays refused and a loaded one stays loaded, whatever happens next. */
  lemma VerdictsAreFinal(counts: Digest -> nat, s: System, events: seq<Event>, i: nat)
    requires Inv(counts, s) && CanRun(counts, s, events) && i in s.t.sources && s.t.sources[i].status != Ready
    ensures
      var u := After(counts, s, events).t;
      && i in u.sources && u.sources[i] == s.t.sources[i].(id := u.sources[i].id) && u.sources[i].id == i
      && (s.t.sources[i].status == Loaded ==> RowsOf(u.raw, i) == RowsOf(s.t.raw, i))
  {
    RunKeeps(counts, s, events);
    var u := After(counts, s, events).t;
    assert SourceOk(counts, u, i);
    if s.t.sources[i].status == Loaded {
      RowsStay(s.t, u, i);
    }
  }

  lemma RowsStay(t: Tables, u: Tables, i: nat)
    requires Evolves(t, u) && HasStatus(t, i, Loaded)
    ensures RowsOf(u.raw, i) == RowsOf(t.raw, i)
  {
    var added := u.raw[|t.raw|..];
    assert u.raw == t.raw + added;
    forall k | 0 <= k < |added|
      ensures added[k].sid != i
    {
      assert added[k] == u.raw[|t.raw| + k];
    }
    RowsOfAppend(t.raw, added, i);
    RowsOfAbsent(added, i);
  }

  // ---------- building runs ----------

  /** The events lead from `s` to `u`, in serial order of registrations. */
  ghost predicate Leads(counts: Digest -> nat, s: System, events: seq<Event>, u: System) {
    CanRun(counts, s, events) && SerialRun(counts, s, events) && After(counts, s, events) == u
  }

  lemma {:induction false} LeadsOn(counts: Digest -> nat, s: System, events: seq<Event>, u: System, e: Event)
    requires Leads(counts, s, events, u) && Enabled(counts, u, e) && Serialised(u, e)
    ensures Leads(counts, s, events + [e], Step(counts, u, e))
    decreases |events|
  {
    if events == [] {
      assert (events + [e])[1..] == [];
    } else {
      assert (events + [e])[1..] == events[1..] + [e];
      LeadsOn(counts, Step(counts, s, events[0]), events[1..], u, e);
    }
  }

  lemma {:induction false} RunsOn(counts: Digest -> nat, s: System, events: seq<Event>, u: System, e: Event)
    requires CanRun(counts, s, events) && After(counts, s, events) == u && Enabled(counts, u, e)
    ensures CanRun(counts, s, events + [e]) && After(counts, s, events + [e]) == Step(counts, u, e)
    decreases |events|
  {
    if events == [] {
      assert (events + [e])[1..] == [];
    } else {
      assert (events + [e])[1..] == events[1..] + [e];
      RunsOn(counts, Step(counts, s, events[0]), events[1..], u, e);
    }
  }

  // ---------- overlapping registrations ----------

  /** The source that an attempt works on, and after its end the source of its run. */
  function SidOf(t: Tables, p: Phase): Option<nat> {
    match p
    case Decided(sid, _) => Some(sid)
    case Starting(sid) => Some(sid)
    case Loading(sid, _, _, _, _) => Some(sid)
    case Committing(sid, _, _, _, _) => Some(sid)
    case Failing(sid, _, _) => Some(sid)
    case Finished(DidSkip(run)) => RunSource(t, run)
    case Finished(DidLoad(run)) => RunSource(t, run)
    case Finished(DidFail(run, _)) => RunSource(t, run)
    case _ => None
  }

  function RunSource(t: Tables, run: nat): Option<nat> {
    if run in t.runs then Some(t.runs[run].sid) else None
  }

  /** Registrations of one version, however they race, end with one row: no reachable state has a second
      one, and all attempts of the version, wherever they have got to, refer to it. */
  lemma OneRowPerVersion(counts: Digest -> nat, events: seq<Event>, a: nat, b: nat)
    requires CanRun(counts, INIT, events)
    requires
      var s := After(counts, INIT, events);
      a in s.attempts && b in s.attempts && SameVersion(s.attempts[a].meta, s.attempts[b].meta)
    ensures
      var s := After(counts, INIT, events);
      var x, y := SidOf(s.t, s.attempts[a].phase), SidOf(s.t, s.attempts[b].phase);
      && (x.Some? ==> IsVersion(s.t, x.value, s.attempts[a].meta))
      && (x.Some? && y.Some? ==> x == y)
    ensures
      var s := After(counts, INIT, events);
      forall i, j :: IsVersion(s.t, i, s.attempts[a].meta) && IsVersion(s.t, j, s.attempts[a].meta) ==> i == j
  {
    ReachableOk(counts, events);
    var s := After(counts, INIT, events);
    SidIsVersion(counts, s, a);
    SidIsVersion(counts, s, b);
  }

  lemma SidIsVersion(counts: Digest -> nat, s: System, a: nat)
    requires Inv(counts, s) && a in s.attempts
    ensures
      var x := SidOf(s.t, s.attempts[a].phase);
      x.Some? ==> IsVersion(s.t, x.value, s.attempts[a].meta)
  {
    assert PhaseOk(s.t, s.attempts[a].meta, s.attempts[a].phase);
  }

  /** Exclusivity does need registrations that do not overlap: two attempts that look up different
      contents of one empty partition before either inserts both register a ready version. */
  lemma OverlappingRegistrations(counts: Digest -> nat, m: Metadata, n: Metadata) returns (events: seq<Event>)
    requires Inspected(counts, m) && Inspected(counts, n)
    requires m.partition == n.partition && m.checksum != n.checksum
    ensures CanRun(counts, INIT, events) && !Exclusive(After(counts, INIT, events).t)
  {
    var s1 := Step(counts, INIT, Arrive(0, m));
    RunsOn(counts, INIT, [], INIT, Arrive(0, m));
    var s2 := Step(counts, s1, Arrive(1, n));
    RunsOn(counts, INIT, [] + [Arrive(0, m)], s1, Arrive(1, n));
    var two := [] + [Arrive(0, m)] + [Arrive(1, n)];
    assert s2.t == EMPTY && s2.attempts[0] == Attempt(m, Arrived) && s2.attempts[1] == Attempt(n, Arrived);
    events := OverlapFrom(counts, m, n, s2, two);
  }

  lemma OverlapFrom(counts: Digest -> nat, m: Metadata, n: Metadata, s: System,
                    two: seq<Event>) returns (events: seq<Event>)
    requires CanRun(counts, INIT, two) && After(counts, INIT, two) == s && s.t == EMPTY
    requires 0 in s.attempts && s.attempts[0] == Attempt(m, Arrived)
    requires 1 in s.attempts && s.attempts[1] == Attempt(n, Arrived)
    requires m.partition == n.partition && m.checksum != n.checksum
    ensures CanRun(counts, INIT, events) && !Exclusive(After(counts, INIT, events).t)
  {
    var x, y := SourceFile(1, m, Ready), SourceFile(2, n, Ready);
    assert ExactVersion(s.t, m).None? && ExactVersion(s.t, n).None?;
    var s3 := Step(counts, s, LookUp(0));
    RunsOn(counts, INIT, two, s, LookUp(0));
    assert s3.t == EMPTY.(nextSource := 2) && s3.attempts[0].phase == Inserting(x) && s3.attempts[1] == s.attempts[1];
    assert ExactVersion(s3.t, n).None?;
    var s4 := Step(counts, s3, LookUp(1));
    RunsOn(counts, INIT, two + [LookUp(0)], s3, LookUp(1));
    assert s4.t == EMPTY.(nextSource := 3) && s4.attempts[1].phase == Inserting(y) && s4.attempts[0].phase == Inserting(x);
    assert ExactVersion(s4.t, m).None?;
    var s5 := Step(counts, s4, Register(0));
    RunsOn(counts, INIT, two + [LookUp(0)] + [LookUp(1)], s4, Register(0));
    assert s5.t.sources == map[1 := x] && s5.attempts[1] == s4.attempts[1] && s5.attempts[1].meta == n;
    assert ExactVersion(s5.t, n).None?;
    var s6 := Step(counts, s5, Register(1));
    RunsOn(counts, INIT, two + [LookUp(0)] + [LookUp(1)] + [Register(0)], s5, Register(1));
    events := two + [LookUp(0)] + [LookUp(1)] + [Register(0)] + [Register(1)];
    assert s6.t.sources == map[1 := x][2 := y];
    assert 1 in s6.t.sources && 2 in s6.t.sources;
  }
}
