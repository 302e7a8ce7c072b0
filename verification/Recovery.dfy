/** The undisturbed attempt is one of the protocol's runs; it recovers a ready source, and repeating it
    changes nothing but the list of skipped runs. */
module Recovery {
  import opened Wrappers
  import opened Cells
  import opened Catalog
  import opened Batches
  import opened Lifecycle
  import opened Protocol
  import opened Invariants
  import opened Safety
  import opened Guarantees
  import opened Sessions
  import opened Service

  // ---------- the attempt as events ----------

  /** Registration of a new attempt: it decides on the version that `Registered` names. */
  lemma RegistrationEvents(counts: Digest -> nat, s: System, a: nat, m: Metadata) returns (events: seq<Event>,
                           u: System)
    requires Inv(counts, s) && a !in s.attempts && Inspected(counts, m)
    ensures Leads(counts, s, events, u) && Inv(counts, u)
    ensures
      var (t, sid) := Registered(s.t, m);
      u.t == t && sid in t.sources && a in u.attempts
      && u.attempts[a] == Attempt(m, Decided(sid, DecisionFor(t.sources[sid].status)))
  {
    var s1 := Step(counts, s, Arrive(a, m));
    LeadsOn(counts, s, [], s, Arrive(a, m));
    StepKeeps(counts, s, Arrive(a, m));
    events := [] + [Arrive(a, m)];
    u := Step(counts, s1, LookUp(a));
    LeadsOn(counts, s, events, s1, LookUp(a));
    StepKeeps(counts, s1, LookUp(a));
    events := events + [LookUp(a)];
    if ExactVersion(s.t, m).None? {
      var s2 := u;
      assert forall id :: IsVersion(s2.t, id, m) ==> IsVersion(s.t, id, m);
      u := Step(counts, s2, Register(a));
      LeadsOn(counts, s, events, s2, Register(a));
      StepKeeps(counts, s2, Register(a));
      events := events + [Register(a)];
    }
  }

  /** Registration amid other transactions is the two events of the protocol, with the other attempts'
      events in between: same outcome, same sources. */
  lemma RegistrationAmid(s: System, a: nat, v: System)
    requires a in s.attempts && VersionsUnique(v.t) && ExactVersion(s.t, s.attempts[a].meta).None?
    requires a in v.attempts && v.attempts[a] == LookUpStep(s, a).attempts[a]
    ensures
      var (t, sid) := RegisteredAmid(s.t, s.attempts[a].meta, v.t.sources);
      var u := RegisterStep(v, a);
      && u.t.sources == t.sources && sid in t.sources
      && u.attempts[a].phase == Decided(sid, DecisionFor(t.sources[sid].status))
  {
    SameLookUp(v.t, s.t.(sources := v.t.sources), s.attempts[a].meta);
  }

  lemma SkipEvents(counts: Digest -> nat, s: System, before: seq<Event>, s1: System,
                   a: nat) returns (events: seq<Event>, u: System)
    requires Leads(counts, s, before, s1) && Inv(counts, s1) && Enabled(counts, s1, Skip(a))
    ensures Leads(counts, s, events, u)
    ensures
      var p := s1.attempts[a].phase;
      p.sid in s1.t.sources && u.t == AddSkipped(s1.t, p.sid, ReasonFor(p.decision))
  {
    SkipOk(counts, s1, a);
    assert PhaseOk(s1.t, s1.attempts[a].meta, s1.attempts[a].phase);
    u := Step(counts, s1, Skip(a));
    LeadsOn(counts, s, before, s1, Skip(a));
    events := before + [Skip(a)];
  }

  /** An attempt on a ready source has started its run and opened the file. */
  lemma StartEvents(counts: Digest -> nat, s: System, before: seq<Event>, s1: System, a: nat, file: seq<Row>)
    returns (events: seq<Event>, u: System)
    requires Leads(counts, s, before, s1) && Inv(counts, s1) && Enabled(counts, s1, CheckReady(a))
    requires HasStatus(s1.t, s1.attempts[a].phase.sid, Ready)
    ensures Leads(counts, s, events, u) && Inv(counts, u)
    ensures
      var sid := s1.attempts[a].phase.sid;
      && u.t == AddRunning(s1.t, sid) && a in u.attempts
      && u.attempts[a] == Attempt(s1.attempts[a].meta, Loading(sid, s1.t.nextRun, file, file, []))
  {
    var s2 := Step(counts, s1, CheckReady(a));
    LeadsOn(counts, s, before, s1, CheckReady(a));
    StepKeeps(counts, s1, CheckReady(a));
    u := Step(counts, s2, Start(a, file));
    LeadsOn(counts, s, before + [CheckReady(a)], s2, Start(a, file));
    StepKeeps(counts, s2, Start(a, file));
    events := before + [CheckReady(a)] + [Start(a, file)];
  }

  lemma FailEvents(counts: Digest -> nat, s: System, before: seq<Event>, s1: System, a: nat, detail: string,
                   name: string)
    returns (events: seq<Event>, u: System)
    requires Leads(counts, s, before, s1) && Inv(counts, s1) && a in s1.attempts && s1.attempts[a].phase.Loading?
    ensures Leads(counts, s, events, u)
    ensures
      var run := s1.attempts[a].phase.run;
      run in s1.t.runs && u.t == FailRun(s1.t, run, SafeErrorMessage(detail, name))
  {
    var s2 := Step(counts, s1, Fault(a, detail, name));
    LeadsOn(counts, s, before, s1, Fault(a, detail, name));
    StepKeeps(counts, s1, Fault(a, detail, name));
    RecordOk(counts, s2, a);
    assert PhaseOk(s2.t, s2.attempts[a].meta, s2.attempts[a].phase);
    u := Step(counts, s2, Record(a));
    LeadsOn(counts, s, before + [Fault(a, detail, name)], s2, Record(a));
    events := before + [Fault(a, detail, name)] + [Record(a)];
  }

  lemma CopyAll(s: System, a: nat, l: Lineage, file: seq<Row>)
    requires a in s.attempts && s.attempts[a].phase == Loading(l.sid, l.run, file, file, [])
    requires s.attempts[a].meta.dataset == l.dataset
    ensures CopyStep(s, a, |file|) == To(s, a, Loading(l.sid, l.run, file, [], Numbered(l, 1, file)))
  {
    assert file[..|file|] == file && file[|file|..] == [] && [] + Numbered(l, 1, file) == Numbered(l, 1, file);
  }

  lemma CopyEvents(counts: Digest -> nat, s: System, before: seq<Event>, s1: System, a: nat, l: Lineage, file: seq<Row>)
    returns (u: System)
    requires Leads(counts, s, before, s1) && Inv(counts, s1) && a in s1.attempts
    requires s1.attempts[a].phase == Loading(l.sid, l.run, file, file, []) && s1.attempts[a].meta.dataset == l.dataset
    requires file != [] && !l.dataset.Unsupported?
    ensures Leads(counts, s, before + [Copy(a, |file|)], u) && Inv(counts, u)
    ensures u == To(s1, a, Loading(l.sid, l.run, file, [], Numbered(l, 1, file)))
  {
    CopyAll(s1, a, l, file);
    u := Step(counts, s1, Copy(a, |file|));
    LeadsOn(counts, s, before, s1, Copy(a, |file|));
    StepKeeps(counts, s1, Copy(a, |file|));
  }

  lemma CheckEvents(counts: Digest -> nat, s: System, before: seq<Event>, s1: System, a: nat) returns (u: System)
    requires Leads(counts, s, before, s1) && Inv(counts, s1) && a in s1.attempts && s1.attempts[a].phase.Loading?
    requires s1.attempts[a].phase.rest == [] && HasStatus(s1.t, s1.attempts[a].phase.sid, Ready)
    requires !s1.attempts[a].meta.dataset.Unsupported?
    requires s1.attempts[a].meta.rowCount == Some(|s1.attempts[a].phase.copied|)
    ensures Leads(counts, s, before + [Check(a, "", "")], u) && Inv(counts, u)
    ensures
      var p := s1.attempts[a].phase;
      var n := |p.copied|;
      && u.t == s1.t && a in u.attempts
      && u.attempts[a] == Attempt(s1.attempts[a].meta, Committing(p.sid, p.run, p.file, p.copied, LoadCounts(n, n)))
  {
    CheckPasses(counts, s1, a);
    u := Step(counts, s1, Check(a, "", ""));
    LeadsOn(counts, s, before, s1, Check(a, "", ""));
    StepKeeps(counts, s1, Check(a, "", ""));
  }

  lemma CheckPasses(counts: Digest -> nat, s: System, a: nat)
    requires Inv(counts, s) && a in s.attempts && s.attempts[a].phase.Loading?
    requires HasStatus(s.t, s.attempts[a].phase.sid, Ready)
    requires s.attempts[a].meta.rowCount == Some(|s.attempts[a].phase.copied|)
    ensures
      var p := s.attempts[a].phase;
      CheckStep(s, a, "", "") == To(s, a, Committing(p.sid, p.run, p.file, p.copied, LoadCounts(|p.copied|, |p.copied|)))
  {
    assert PhaseOk(s.t, s.attempts[a].meta, s.attempts[a].phase);
    assert SourceOk(counts, s.t, s.attempts[a].phase.sid);
  }

  lemma CommitEvents(counts: Digest -> nat, s: System, before: seq<Event>, s1: System, a: nat) returns (u: System)
    requires Leads(counts, s, before, s1) && Inv(counts, s1) && a in s1.attempts && s1.attempts[a].phase.Committing?
    requires NoClash(s1.t.raw + s1.attempts[a].phase.copied)
    ensures Leads(counts, s, before + [Commit(a, "", "")], u)
    ensures
      var p := s1.attempts[a].phase;
      && p.sid in s1.t.sources && p.run in s1.t.runs
      && u.t == FinishLoad(s1.t, p.sid, p.run, p.copied, p.counts)
  {
    assert PhaseOk(s1.t, s1.attempts[a].meta, s1.attempts[a].phase);
    u := Step(counts, s1, Commit(a, "", ""));
    LeadsOn(counts, s, before, s1, Commit(a, "", ""));
  }

  lemma LoadEvents(counts: Digest -> nat, s: System, before: seq<Event>, s1: System, a: nat, l: Lineage, file: seq<Row>)
    returns (events: seq<Event>, u: System)
    requires Leads(counts, s, before, s1) && Inv(counts, s1) && a in s1.attempts
    requires s1.attempts[a].phase == Loading(l.sid, l.run, file, file, []) && s1.attempts[a].meta.dataset == l.dataset
    requires HasStatus(s1.t, l.sid, Ready) && !l.dataset.Unsupported?
    requires Loadable(s1.attempts[a].meta, Some(file), l)
    ensures Leads(counts, s, events, u)
    ensures l.run in s1.t.runs
    ensures u.t == FinishLoad(s1.t, l.sid, l.run, Numbered(l, 1, file), LoadCounts(|file|, |file|))
  {
    assert Inspected(counts, s1.attempts[a].meta);
    var s2 := CopyEvents(counts, s, before, s1, a, l, file);
    var copied := before + [Copy(a, |file|)];
    var s3 := CheckEvents(counts, s, copied, s2, a);
    FreshLoadClashes(counts, s1.t, l.sid, Numbered(l, 1, file));
    u := CommitEvents(counts, s, copied + [Check(a, "", "")], s3, a);
    events := copied + [Check(a, "", "")] + [Commit(a, "", "")];
  }

  /** From any state the protocol can be in, whatever crashed or failed before, the undisturbed attempt
      does what some events of one new attempt do, in serial order of registrations. */
  lemma AloneIsARun(counts: Digest -> nat, s: System, a: nat, m: Metadata, rows: Option<seq<Row>>, detail: string,
                    name: string)
    returns (events: seq<Event>, u: System)
    requires Inv(counts, s) && a !in s.attempts && Inspected(counts, m)
    requires rows.Some? ==> !m.dataset.Unsupported?
    ensures Leads(counts, s, events, u)
    ensures u.t == IngestAlone(s.t, m, rows, SafeErrorMessage(detail, name))
  {
    var (t, sid) := Registered(s.t, m);
    var before, s1 := RegistrationEvents(counts, s, a, m);
    if t.sources[sid].status != Ready {
      events, u := SkipEvents(counts, s, before, s1, a);
    } else {
      var file := if rows.Some? then rows.value else [];
      var started, s2 := StartEvents(counts, s, before, s1, a, file);
      if Loadable(m, rows, Lineage(m.dataset, sid, t.nextRun)) {
        events, u := LoadEvents(counts, s, started, s2, a, Lineage(m.dataset, sid, t.nextRun), file);
      } else {
        events, u := FailEvents(counts, s, started, s2, a, detail, name);
      }
    }
  }

  // ---------- recovery ----------

  /** A source that is still ready, or new in its partition, is loaded by one undisturbed attempt whose
      file matches its metadata; nothing that failed or crashed before can prevent it. */
  lemma UndisturbedAttemptLoads(counts: Digest -> nat, s: System, m: Metadata, rows: seq<Row>, text: string)
    requires Inv(counts, s) && Inspected(counts, m) && !m.dataset.Unsupported?
    requires forall id :: IsVersion(s.t, id, m) ==> s.t.sources[id].status == Ready
    requires ExactVersion(s.t, m).None? ==> !PartitionKnown(s.t, m.partition)
    requires Loadable(m, Some(rows), Lineage(m.dataset, Registered(s.t, m).1, s.t.nextRun))
    ensures
      var t := IngestAlone(s.t, m, Some(rows), text);
      var sid := Registered(s.t, m).1;
      && IsVersion(t, sid, m) && LoadedBy(t, sid, s.t.nextRun)
      && RowsOf(t.raw, sid) == Numbered(Lineage(m.dataset, sid, s.t.nextRun), 1, rows)
      && t.runs[s.t.nextRun].warnings == t.runs[s.t.nextRun].errors == Some(0) && t.runs[s.t.nextRun].message == None
  {
    var (u, sid) := Registered(s.t, m);
    RegisteredOk(counts, s.t, m, u, sid);
    var loaded := Numbered(Lineage(m.dataset, sid, s.t.nextRun), 1, rows);
    StartedLoadFinishes(counts, u, m, sid, loaded);
  }
}
