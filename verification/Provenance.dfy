/** Where loaded rows come from: a loaded source holds exactly the rows of the file that its successful
    run opened, in order. */
module Provenance {
  import opened Cells
  import opened Catalog
  import opened Batches
  import opened Lifecycle
  import opened Protocol
  import opened Invariants
  import opened Safety
  import opened Guarantees

  /** The source that a run loads and the rows of the file it opened. */
  datatype Opened = Opened(sid: nat, file: seq<Row>)

  type Openings = map<nat, Opened>

  /** One event: a start opens the file of its run. */
  function Opening(s: System, e: Event, known: Openings): Openings {
    if e.Start? && e.a in s.attempts && s.attempts[e.a].phase.Starting? then
      known[s.t.nextRun := Opened(s.attempts[e.a].phase.sid, e.file)]
    else
      known
  }

  ghost function OpeningsOf(counts: Digest -> nat, s: System, events: seq<Event>, known: Openings): Openings
    requires CanRun(counts, s, events)
    decreases |events|
  {
    if events == [] then known
    else OpeningsOf(counts, Step(counts, s, events[0]), events[1..], Opening(s, events[0], known))
  }

  /** The rows copied so far, followed by the rest of the file, are the whole file. */
  ghost predicate Copies(l: Lineage, file: seq<Row>, rest: seq<Row>, copied: seq<RawRow>) {
    copied + Numbered(l, |copied| + 1, rest) == Numbered(l, 1, file)
  }

  ghost predicate PhaseKnown(m: Metadata, p: Phase, known: Openings) {
    match p
    case Loading(sid, run, file, rest, copied) =>
      run in known && known[run] == Opened(sid, file) && Copies(Lineage(m.dataset, sid, run), file, rest, copied)
    case Committing(sid, run, file, copied, _) =>
      run in known && known[run] == Opened(sid, file) && copied == Numbered(Lineage(m.dataset, sid, run), 1, file)
    case _ => true
  }

  /** A successful run's source holds the file that the run opened. */
  ghost predicate RunKnown(t: Tables, r: nat, known: Openings)
    requires r in t.runs
  {
    var run := t.runs[r];
    run.status == Succeeded ==>
      && r in known && known[r].sid == run.sid
      && RowsOf(t.raw, run.sid) == Numbered(Lineage(run.meta.dataset, run.sid, r), 1, known[r].file)
  }

  ghost predicate RunsKnown(t: Tables, known: Openings) {
    forall r :: r in t.runs ==> RunKnown(t, r, known)
  }

  ghost predicate AllKnown(s: System, known: Openings) {
    && (forall a :: a in s.attempts ==> PhaseKnown(s.attempts[a].meta, s.attempts[a].phase, known))
    && RunsKnown(s.t, known)
  }

  // ---------- one event ----------

  /** Successful runs are the same in both states, up to their counters. */
  ghost predicate SuccessesStay(t: Tables, u: Tables) {
    u.raw == t.raw && forall r :: r in u.runs && u.runs[r].status == Succeeded ==>
      r in t.runs && t.runs[r].status == Succeeded && t.runs[r].sid == u.runs[r].sid && t.runs[r].meta == u.runs[r].meta
  }

  lemma RunsStayKnown(t: Tables, u: Tables, known: Openings)
    requires RunsKnown(t, known) && SuccessesStay(t, u)
    ensures RunsKnown(u, known)
  {
    forall r | r in u.runs
      ensures RunKnown(u, r, known)
    {
      if u.runs[r].status == Succeeded {
        assert RunKnown(t, r, known);
      }
    }
  }

  lemma CopyKeepsKnown(s: System, a: nat, n: nat, known: Openings)
    requires AllKnown(s, known) && a in s.attempts && s.attempts[a].phase.Loading? && n <= |s.attempts[a].phase.rest|
    ensures AllKnown(CopyStep(s, a, n), known)
  {
    var p, m := s.attempts[a].phase, s.attempts[a].meta;
    assert PhaseKnown(m, p, known);
    CopyContinues(Lineage(m.dataset, p.sid, p.run), p.file, p.rest, p.copied, n);
  }

  lemma CopyContinues(l: Lineage, file: seq<Row>, rest: seq<Row>, copied: seq<RawRow>, n: nat)
    requires Copies(l, file, rest, copied) && n <= |rest|
    ensures Copies(l, file, rest[n..], copied + Numbered(l, |copied| + 1, rest[..n]))
  {
    assert rest == rest[..n] + rest[n..];
    NumberedSplit(l, |copied| + 1, rest[..n], rest[n..]);
  }

  lemma CopyIsComplete(l: Lineage, file: seq<Row>, copied: seq<RawRow>)
    requires Copies(l, file, [], copied)
    ensures copied == Numbered(l, 1, file)
  {
    assert Numbered(l, |copied| + 1, []) == [];
  }

  lemma CheckKeepsKnown(s: System, a: nat, detail: string, className: string, known: Openings)
    requires AllKnown(s, known) && a in s.attempts && s.attempts[a].phase.Loading? && s.attempts[a].phase.rest == []
    ensures AllKnown(CheckStep(s, a, detail, className), known)
  {
    var p, m := s.attempts[a].phase, s.attempts[a].meta;
    assert PhaseKnown(m, p, known);
    CopyIsComplete(Lineage(m.dataset, p.sid, p.run), p.file, p.copied);
  }

  /** A commit makes its own run's source hold its file, and touches no other loaded source. */
  lemma CommitKeepsRuns(counts: Digest -> nat, t: Tables, m: Metadata, p: Phase, known: Openings)
    requires TablesOk(counts, t) && Inspected(counts, m) && p.Committing? && PhaseOk(t, m, p) && PhaseKnown(m, p, known)
    requires RunsKnown(t, known) && NoClash(t.raw + p.copied)
    ensures RunsKnown(FinishLoad(t, p.sid, p.run, p.copied, p.counts), known)
  {
    var u := FinishLoad(t, p.sid, p.run, p.copied, p.counts);
    FinishLoadRows(counts, t, m, p.sid, p.run, p.copied);
    forall r | r in u.runs
      ensures RunKnown(u, r, known)
    {
      assert RunOk(t, r) && RunKnown(t, r, known);
      assert SourceOk(counts, t, p.sid);
    }
  }

  lemma CommitKeepsKnown(counts: Digest -> nat, s: System, a: nat, detail: string, className: string, known: Openings)
    requires Inv(counts, s) && AllKnown(s, known) && Enabled(counts, s, Commit(a, detail, className))
    ensures AllKnown(CommitStep(s, a, detail, className), known)
  {
    var p, m := s.attempts[a].phase, s.attempts[a].meta;
    assert PhaseOk(s.t, m, p) && PhaseKnown(m, p, known);
    if NoClash(s.t.raw + p.copied) {
      CommitKeepsRuns(counts, s.t, m, p, known);
    }
  }

  lemma StartKeepsKnown(counts: Digest -> nat, s: System, a: nat, file: seq<Row>, known: Openings)
    requires Inv(counts, s) && AllKnown(s, known) && Enabled(counts, s, Start(a, file))
    ensures AllKnown(StartStep(s, a, file), Opening(s, Start(a, file), known))
  {
    var u, more := StartStep(s, a, file), Opening(s, Start(a, file), known);
    StartKeepsPhases(counts, s, a, file, known, more);
    StartKeepsRuns(s.t, u.t, known, more);
  }

  lemma StartKeepsPhases(counts: Digest -> nat, s: System, a: nat, file: seq<Row>, known: Openings, more: Openings)
    requires Inv(counts, s) && AllKnown(s, known) && Enabled(counts, s, Start(a, file))
    requires more == Opening(s, Start(a, file), known)
    ensures
      var u := StartStep(s, a, file);
      forall b :: b in u.attempts ==> PhaseKnown(u.attempts[b].meta, u.attempts[b].phase, more)
  {
    FreshIds(counts, s);
    var u := StartStep(s, a, file);
    forall b | b in u.attempts
      ensures PhaseKnown(u.attempts[b].meta, u.attempts[b].phase, more)
    {
      if b == a {
        NothingCopied(Lineage(s.attempts[a].meta.dataset, s.attempts[a].phase.sid, s.t.nextRun), file);
      } else {
        assert PhaseKnown(s.attempts[b].meta, s.attempts[b].phase, known);
      }
    }
  }

  lemma NothingCopied(l: Lineage, file: seq<Row>)
    ensures Copies(l, file, file, [])
  {
  }

  lemma StartKeepsRuns(t: Tables, u: Tables, known: Openings, more: Openings)
    requires RunsOk(t) && RunsKnown(t, known) && SuccessesStay(t, u)
    requires forall r :: r < t.nextRun && r in known ==> r in more && more[r] == known[r]
    ensures RunsKnown(u, more)
  {
    forall r | r in t.runs
      ensures RunKnown(t, r, more)
    {
      assert RunOk(t, r) && RunKnown(t, r, known);
    }
    RunsStayKnown(t, u, more);
  }

  /** All other events leave the raw rows, the successes and the files of the loads alone. */
  predicate IsQuiet(e: Event) {
    !e.Copy? && !e.Check? && !e.Commit? && !e.Start?
  }

  lemma SkipSuccesses(counts: Digest -> nat, s: System, a: nat)
    requires Inv(counts, s) && Enabled(counts, s, Skip(a))
    ensures SuccessesStay(s.t, SkipStep(s, a).t)
  {
    NextRunIsFresh(s.t);
  }

  lemma EvaluateSuccesses(t: Tables, run: nat, w: nat, n: nat)
    requires run in t.runs
    ensures SuccessesStay(t, SetCounters(t, run, w, n))
  {
  }

  lemma SameRuns(counts: Digest -> nat, s: System, e: Event)
    requires Enabled(counts, s, e) && IsQuiet(e) && !e.Skip? && !e.Record? && !e.Evaluate?
    ensures Step(counts, s, e).t.runs == s.t.runs && Step(counts, s, e).t.raw == s.t.raw
  {
  }

  lemma QuietSuccesses(counts: Digest -> nat, s: System, e: Event)
    requires Inv(counts, s) && Enabled(counts, s, e) && IsQuiet(e)
    ensures SuccessesStay(s.t, Step(counts, s, e).t)
  {
    match e
    case Skip(a) => SkipSuccesses(counts, s, a);
    case Record(a) => assert SuccessesStay(s.t, RecordStep(s, a).t);
    case Evaluate(run, w, n) => EvaluateSuccesses(s.t, run, w, n);
    case _ => SameRuns(counts, s, e);
  }

  lemma QuietPhases(counts: Digest -> nat, s: System, e: Event, known: Openings)
    requires AllKnown(s, known) && Enabled(counts, s, e) && IsQuiet(e)
    ensures
      var u := Step(counts, s, e);
      forall a :: a in u.attempts ==> PhaseKnown(u.attempts[a].meta, u.attempts[a].phase, known)
  {
    var u := Step(counts, s, e);
    forall a | a in u.attempts
      ensures PhaseKnown(u.attempts[a].meta, u.attempts[a].phase, known)
    {
      assert a in s.attempts ==> PhaseKnown(s.attempts[a].meta, s.attempts[a].phase, known);
    }
  }

  lemma EventKeepsKnown(counts: Digest -> nat, s: System, e: Event, known: Openings)
    requires Inv(counts, s) && AllKnown(s, known) && Enabled(counts, s, e)
    ensures AllKnown(Step(counts, s, e), Opening(s, e, known))
  {
    match e
    case Start(a, file) => StartKeepsKnown(counts, s, a, file, known);
    case Copy(a, n) => CopyKeepsKnown(s, a, n, known);
    case Check(a, detail, className) => CheckKeepsKnown(s, a, detail, className, known);
    case Commit(a, detail, className) => CommitKeepsKnown(counts, s, a, detail, className, known);
    case _ =>
      QuietPhases(counts, s, e, known);
      QuietSuccesses(counts, s, e);
      RunsStayKnown(s.t, Step(counts, s, e).t, known);
  }

  // ---------- whole runs ----------

  lemma {:induction false} EventsKeepKnown(counts: Digest -> nat, s: System, events: seq<Event>, known: Openings)
    requires Inv(counts, s) && AllKnown(s, known) && CanRun(counts, s, events)
    ensures AllKnown(After(counts, s, events), OpeningsOf(counts, s, events, known))
    decreases |events|
  {
    if events != [] {
      StepKeeps(counts, s, events[0]);
      EventKeepsKnown(counts, s, events[0], known);
      EventsKeepKnown(counts, Step(counts, s, events[0]), events[1..], Opening(s, events[0], known));
    }
  }

  /** One of the events started run `r` on source `sid`, with this file at the landing path. */
  ghost predicate Starts(counts: Digest -> nat, s: System, events: seq<Event>, r: nat, sid: nat, file: seq<Row>)
    requires CanRun(counts, s, events)
    decreases |events|
  {
    events != [] &&
    var e := events[0];
    || (e.Start? && s.t.nextRun == r && s.attempts[e.a].phase.sid == sid && e.file == file)
    || Starts(counts, Step(counts, s, e), events[1..], r, sid, file)
  }

  lemma {:induction false} OpenedByStart(counts: Digest -> nat, s: System, events: seq<Event>, known: Openings, r: nat)
    requires CanRun(counts, s, events) && r in OpeningsOf(counts, s, events, known)
    ensures
      var o := OpeningsOf(counts, s, events, known)[r];
      Starts(counts, s, events, r, o.sid, o.file) || (r in known && known[r] == o)
    decreases |events|
  {
    if events != [] {
      OpenedByStart(counts, Step(counts, s, events[0]), events[1..], Opening(s, events[0], known), r);
    }
  }

  /** The source's rows are the rows of the file, each with its position as its number. */
  ghost predicate HoldsFile(t: Tables, s: nat, r: nat, file: seq<Row>)
    requires s in t.sources
  {
    && |RowsOf(t.raw, s)| == |file|
    && forall k :: 0 <= k < |file| ==>
         RowsOf(t.raw, s)[k] == RawRow(DatasetOf(t.sources[s].meta.partition), s, k + 1, r, file[k])
  }

  /** Whatever attempts interleave, fail or crash, and in whatever batches they copy: if run `r` succeeded
      for a source, some event started that run with a file, and the source holds exactly the rows of
      that file, in order. */
  lemma LoadedRowsAreTheFile(counts: Digest -> nat, events: seq<Event>, s: nat, r: nat)
    requires CanRun(counts, INIT, events)
    requires s in After(counts, INIT, events).t.sources && SucceededFor(After(counts, INIT, events).t, s, r)
    ensures
      exists file :: Starts(counts, INIT, events, r, s, file) && HoldsFile(After(counts, INIT, events).t, s, r, file)
  {
    InitOk(counts);
    ReachableOk(counts, events);
    EventsKeepKnown(counts, INIT, events, map[]);
    var t, known := After(counts, INIT, events).t, OpeningsOf(counts, INIT, events, map[]);
    assert RunOk(t, r) && RunKnown(t, r, known) && SourceOk(counts, t, s);
    OpenedByStart(counts, INIT, events, map[], r);
    assert HoldsFile(t, s, r, known[r].file);
  }
}
