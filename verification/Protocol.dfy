/** Any number of ingestion attempts, interleaved transaction step by transaction step.

    An attempt runs the transactions of the ingestion service one after another. What a transaction
    writes stays in the attempt's phase until its commit; other attempts may act between any two
    steps, any step of a load may raise, and an attempt may stop for good at any point. */
module Protocol {
  import opened Cells
  import opened Catalog
  import opened Batches
  import opened Lifecycle

  datatype Outcome =
    | DidSkip(run: nat)
    | DidLoad(run: nat)
    | DidFail(run: nat, text: string)
    | RaisedAtStart
    | RaisedAtSkip
    | RaisedAtRecord

  datatype Phase =
    | Arrived
    | Inserting(row: SourceFile)
    | Decided(sid: nat, decision: Decision)
    | Starting(sid: nat)
    | Loading(sid: nat, run: nat, file: seq<Row>, rest: seq<Row>, copied: seq<RawRow>)
    | Committing(sid: nat, run: nat, file: seq<Row>, copied: seq<RawRow>, counts: LoadCounts)
    | Failing(sid: nat, run: nat, text: string)
    | Finished(outcome: Outcome)
    | Crashed

  datatype Attempt = Attempt(meta: Metadata, phase: Phase)

  datatype System = System(t: Tables, attempts: map<nat, Attempt>)

  datatype Event =
    | Arrive(a: nat, meta: Metadata)
    | LookUp(a: nat)                                        // find the exact version, or insert one
    | Register(a: nat)                                      // the insert commits, or meets the unique constraint
    | Skip(a: nat)                                          // the skipped-run transaction
    | CheckReady(a: nat)                                    // starting a run: the status read
    | Start(a: nat, file: seq<Row>)                         // the run commits, the load transaction opens the file
    | Copy(a: nat, count: nat)                              // one batch is copied
    | Fault(a: nat, detail: string, className: string)      // the load raises and rolls back
    | Check(a: nat, detail: string, className: string)      // counts, validation, status reads
    | Commit(a: nat, detail: string, className: string)     // the load commits, or meets a constraint
    | Record(a: nat)                                        // the failure is recorded
    | Crash(a: nat)
    | Evaluate(run: nat, warnings: nat, errors: nat)        // a quality evaluation stores its counters

  const INIT := System(EMPTY, map[])

  predicate Live(p: Phase) {
    !p.Finished? && !p.Crashed?
  }

  /** The phases in which an event can happen. Arriving metadata was collected by inspecting a file. */
  ghost predicate Enabled(counts: Digest -> nat, s: System, e: Event) {
    if e.Arrive? then e.a !in s.attempts && Inspected(counts, e.meta)
    else if e.Evaluate? then e.run in s.t.runs && s.t.runs[e.run].status == Succeeded
    else e.a in s.attempts && var p := s.attempts[e.a].phase;
      match e
      case Arrive(_, _) => false
      case Evaluate(_, _, _) => false
      case LookUp(_) => p.Arrived?
      case Register(_) => p.Inserting?
      case Skip(_) => p.Decided? && p.decision != Proceed
      case CheckReady(_) => p.Decided? && p.decision == Proceed
      case Start(_, _) => p.Starting? && p.sid in s.t.sources
      case Copy(_, n) => p.Loading? && !s.attempts[e.a].meta.dataset.Unsupported? && 0 < n <= |p.rest|
      case Fault(_, _, _) => p.Loading? || p.Committing?
      case Check(_, _, _) => p.Loading? && p.rest == [] && !s.attempts[e.a].meta.dataset.Unsupported?
      case Commit(_, _, _) => p.Committing? && p.sid in s.t.sources && p.run in s.t.runs
      case Record(_) => p.Failing?
      case Crash(_) => Live(p)
  }

  function To(s: System, a: nat, p: Phase): System
    requires a in s.attempts
  {
    s.(attempts := s.attempts[a := s.attempts[a].(phase := p)])
  }

  /** A registered version of the attempt's source has been found; its status decides. */
  function DecideOn(s: System, a: nat, sid: nat): System
    requires a in s.attempts && sid in s.t.sources
  {
    To(s, a, Decided(sid, DecisionFor(s.t.sources[sid].status)))
  }

  ghost function LookUpStep(s: System, a: nat): System
    requires a in s.attempts
  {
    match ExactVersion(s.t, s.attempts[a].meta)
    case Some(sid) => DecideOn(s, a, sid)
    case None =>
      var row := NewVersion(s.t, s.attempts[a].meta);
      To(s, a, Inserting(row)).(t := s.t.(nextSource := s.t.nextSource + 1))
  }

  ghost function RegisterStep(s: System, a: nat): System
    requires a in s.attempts && s.attempts[a].phase.Inserting?
  {
    var row := s.attempts[a].phase.row;
    match ExactVersion(s.t, s.attempts[a].meta)
    case Some(sid) => DecideOn(s, a, sid)
    case None => DecideOn(s.(t := s.t.(sources := s.t.sources[row.id := row])), a, row.id)
  }

  function SkipStep(s: System, a: nat): System
    requires a in s.attempts && s.attempts[a].phase.Decided? && s.attempts[a].phase.decision != Proceed
  {
    var p := s.attempts[a].phase;
    var reason := ReasonFor(p.decision);
    if HasStatus(s.t, p.sid, StatusFor(reason)) then
      To(s, a, Finished(DidSkip(s.t.nextRun))).(t := AddSkipped(s.t, p.sid, reason))
    else
      To(s, a, Finished(RaisedAtSkip))
  }

  function CheckReadyStep(s: System, a: nat): System
    requires a in s.attempts && s.attempts[a].phase.Decided?
  {
    var p := s.attempts[a].phase;
    if HasStatus(s.t, p.sid, Ready) then To(s, a, Starting(p.sid)) else To(s, a, Finished(RaisedAtStart))
  }

  function StartStep(s: System, a: nat, file: seq<Row>): System
    requires a in s.attempts && s.attempts[a].phase.Starting? && s.attempts[a].phase.sid in s.t.sources
  {
    var sid := s.attempts[a].phase.sid;
    To(s, a, Loading(sid, s.t.nextRun, file, file, [])).(t := AddRunning(s.t, sid))
  }

  function CopyStep(s: System, a: nat, n: nat): System
    requires a in s.attempts && s.attempts[a].phase.Loading? && n <= |s.attempts[a].phase.rest|
  {
    var p := s.attempts[a].phase;
    var rows := Numbered(Lineage(s.attempts[a].meta.dataset, p.sid, p.run), |p.copied| + 1, p.rest[..n]);
    To(s, a, p.(rest := p.rest[n..], copied := p.copied + rows))
  }

  /** The load raised: its rows are gone, and the failure is about to be recorded. */
  function FaultStep(s: System, a: nat, detail: string, className: string): System
    requires a in s.attempts && (s.attempts[a].phase.Loading? || s.attempts[a].phase.Committing?)
  {
    var p := s.attempts[a].phase;
    To(s, a, Failing(p.sid, p.run, SafeErrorMessage(detail, className)))
  }

  function CheckStep(s: System, a: nat, detail: string, className: string): System
    requires a in s.attempts && s.attempts[a].phase.Loading?
  {
    var p := s.attempts[a].phase;
    var counts := LoadCounts(|p.copied|, |p.copied|);
    var persisted := |RowsOf(s.t.raw, p.sid)| + |p.copied|;
    if CountsValid(s.attempts[a].meta, counts, persisted) && IsRunning(s.t, p.run) && HasStatus(s.t, p.sid, Ready) then
      To(s, a, Committing(p.sid, p.run, p.file, p.copied, counts))
    else
      FaultStep(s, a, detail, className)
  }

  ghost function CommitStep(s: System, a: nat, detail: string, className: string): System
    requires a in s.attempts && s.attempts[a].phase.Committing?
    requires s.attempts[a].phase.sid in s.t.sources && s.attempts[a].phase.run in s.t.runs
  {
    var p := s.attempts[a].phase;
    if NoClash(s.t.raw + p.copied) then
      To(s, a, Finished(DidLoad(p.run))).(t := FinishLoad(s.t, p.sid, p.run, p.copied, p.counts))
    else
      FaultStep(s, a, detail, className)
  }

  function RecordStep(s: System, a: nat): System
    requires a in s.attempts && s.attempts[a].phase.Failing?
  {
    var p := s.attempts[a].phase;
    if IsRunning(s.t, p.run) && !Blank(p.text) then
      To(s, a, Finished(DidFail(p.run, p.text))).(t := FailRun(s.t, p.run, p.text))
    else
      To(s, a, Finished(RaisedAtRecord))
  }

  ghost function Step(counts: Digest -> nat, s: System, e: Event): System
    requires Enabled(counts, s, e)
  {
    match e
    case Arrive(a, m) => s.(attempts := s.attempts[a := Attempt(m, Arrived)])
    case LookUp(a) => LookUpStep(s, a)
    case Register(a) => RegisterStep(s, a)
    case Skip(a) => SkipStep(s, a)
    case CheckReady(a) => CheckReadyStep(s, a)
    case Start(a, file) => StartStep(s, a, file)
    case Copy(a, n) => CopyStep(s, a, n)
    case Fault(a, detail, className) => FaultStep(s, a, detail, className)
    case Check(a, detail, className) => CheckStep(s, a, detail, className)
    case Commit(a, detail, className) => CommitStep(s, a, detail, className)
    case Record(a) => RecordStep(s, a)
    case Crash(a) => To(s, a, Crashed)
    case Evaluate(run, w, n) => s.(t := SetCounters(s.t, run, w, n))
  }

  /** Every event of the sequence can happen when its turn comes. */
  ghost predicate CanRun(counts: Digest -> nat, s: System, events: seq<Event>)
    decreases |events|
  {
    events == [] || (Enabled(counts, s, events[0]) && CanRun(counts, Step(counts, s, events[0]), events[1..]))
  }

  ghost function After(counts: Digest -> nat, s: System, events: seq<Event>): System
    requires CanRun(counts, s, events)
    decreases |events|
  {
    if events == [] then s else After(counts, Step(counts, s, events[0]), events[1..])
  }
}
