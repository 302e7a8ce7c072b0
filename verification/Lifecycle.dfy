/** The operational tables, and what each metadata operation does to them. */
module Lifecycle {
  import opened Wrappers
  import opened Cells
  import opened Catalog
  import opened Batches

  datatype SourceFile = SourceFile(id: nat, meta: Metadata, status: SourceStatus)

  datatype LoadCounts = LoadCounts(read: nat, loaded: nat)

  datatype Run = Run(
    id: nat,
    sid: nat,
    meta: Metadata,
    status: RunStatus,
    reason: Option<SkipReason>,
    rowsRead: Option<nat>,
    rowsLoaded: Option<nat>,
    warnings: Option<nat>,
    errors: Option<nat>,
    message: Option<string>)

  /** The committed tables. `nextSource` and `nextRun` are the identity sequences, which start at 1. */
  datatype Tables = Tables(
    sources: map<nat, SourceFile>,
    runs: map<nat, Run>,
    raw: seq<RawRow>,
    nextSource: nat,
    nextRun: nat)

  const EMPTY := Tables(map[], map[], [], 1, 1)

  // ---------- source registry ----------

  predicate IsVersion(t: Tables, id: nat, m: Metadata) {
    id in t.sources && t.sources[id].meta.partition == m.partition && t.sources[id].meta.checksum == m.checksum
  }

  /** The registered source with exactly this partition and checksum, if there is one. */
  ghost function ExactVersion(t: Tables, m: Metadata): (r: Option<nat>)
    ensures r.Some? ==> IsVersion(t, r.value, m)
    ensures r.None? ==> forall id :: !IsVersion(t, id, m)
  {
    if exists id :: IsVersion(t, id, m) then
      var id :| IsVersion(t, id, m);
      Some(id)
    else
      None
  }

  predicate PartitionKnown(t: Tables, p: Partition) {
    exists id :: id in t.sources && t.sources[id].meta.partition == p
  }

  function NewVersion(t: Tables, m: Metadata): SourceFile {
    SourceFile(t.nextSource, m, if PartitionKnown(t, m.partition) then RevisionDetected else Ready)
  }

  predicate HasStatus(t: Tables, sid: nat, status: SourceStatus) {
    sid in t.sources && t.sources[sid].status == status
  }

  predicate IsRunning(t: Tables, run: nat) {
    run in t.runs && t.runs[run].status == Running
  }

  // ---------- runs ----------

  function NewRun(t: Tables, sid: nat, status: RunStatus, reason: Option<SkipReason>): Run
    requires sid in t.sources
  {
    Run(t.nextRun, sid, t.sources[sid].meta, status, reason,
        None, if status == Skipped then Some(0) else None, None, None, None)
  }

  function AddRun(t: Tables, run: Run): Tables {
    t.(runs := t.runs[run.id := run], nextRun := run.id + 1)
  }

  function AddSkipped(t: Tables, sid: nat, reason: SkipReason): Tables
    requires sid in t.sources
  {
    AddRun(t, NewRun(t, sid, Skipped, Some(reason)))
  }

  function AddRunning(t: Tables, sid: nat): Tables
    requires sid in t.sources
  {
    AddRun(t, NewRun(t, sid, Running, None))
  }

  /** The finished row of a running run that loaded these counts. */
  function SucceededRun(r: Run, counts: LoadCounts): Run {
    r.(status := Succeeded, reason := None, rowsRead := Some(counts.read), rowsLoaded := Some(counts.loaded),
       warnings := Some(0), errors := Some(0), message := None)
  }

  /** The single transaction that makes a load visible: rows, source status and run status. */
  function FinishLoad(t: Tables, sid: nat, run: nat, rows: seq<RawRow>, counts: LoadCounts): Tables
    requires sid in t.sources && run in t.runs
  {
    t.(sources := t.sources[sid := t.sources[sid].(status := Loaded)],
       runs := t.runs[run := SucceededRun(t.runs[run], counts)],
       raw := t.raw + rows)
  }

  function FailRun(t: Tables, run: nat, text: string): Tables
    requires run in t.runs
  {
    t.(runs := t.runs[run := t.runs[run].(status := Failed, reason := None, message := Some(text))])
  }

  /** A quality evaluation stores its two counters on the run. */
  function SetCounters(t: Tables, run: nat, warnings: nat, errors: nat): Tables
    requires run in t.runs
  {
    t.(runs := t.runs[run := t.runs[run].(warnings := Some(warnings), errors := Some(errors))])
  }

  // ---------- raw tables ----------

  /** The raw rows of one source, in table order. */
  function RowsOf(raw: seq<RawRow>, sid: nat): seq<RawRow> {
    if raw == [] then []
    else RowsOf(raw[..|raw| - 1], sid) + if raw[|raw| - 1].sid == sid then [raw[|raw| - 1]] else []
  }

  lemma {:induction false} RowsOfAppend(a: seq<RawRow>, b: seq<RawRow>, sid: nat)
    ensures RowsOf(a + b, sid) == RowsOf(a, sid) + RowsOf(b, sid)
  {
    if b == [] {
      assert a + b == a;
    } else {
      RowsOfAppend(a, b[..|b| - 1], sid);
      assert (a + b)[..|a + b| - 1] == a + b[..|b| - 1];
    }
  }

  lemma {:induction false} RowsOfOwn(rows: seq<RawRow>, sid: nat)
    requires forall i :: 0 <= i < |rows| ==> rows[i].sid == sid
    ensures RowsOf(rows, sid) == rows
    ensures forall other :: other != sid ==> RowsOf(rows, other) == []
  {
    if rows != [] {
      RowsOfOwn(rows[..|rows| - 1], sid);
      assert rows == rows[..|rows| - 1] + [rows[|rows| - 1]];
    }
  }

  lemma {:induction false} RowsOfAbsent(raw: seq<RawRow>, sid: nat)
    requires forall i :: 0 <= i < |raw| ==> raw[i].sid != sid
    ensures RowsOf(raw, sid) == []
  {
    if raw != [] {
      RowsOfAbsent(raw[..|raw| - 1], sid);
    }
  }

  lemma {:induction false} RowsOfMember(raw: seq<RawRow>, sid: nat)
    ensures forall r :: r in RowsOf(raw, sid) <==> r in raw && r.sid == sid
  {
    if raw != [] {
      RowsOfMember(raw[..|raw| - 1], sid);
      assert raw == raw[..|raw| - 1] + [raw[|raw| - 1]];
    }
  }

  function Location(r: RawRow): Option<int> {
    if |r.values| > 0 then AsInt(r.values[0]) else None
  }

  /** Two rows that cannot both be in the raw tables: they share a primary key, or they are zone rows
      of one source for the same location. */
  predicate Clash(a: RawRow, b: RawRow) {
    && a.dataset == b.dataset && a.sid == b.sid
    && (a.number == b.number || (a.dataset == TaxiZoneLookup && Location(a).Some? && Location(a) == Location(b)))
  }

  predicate NoClash(raw: seq<RawRow>) {
    forall i, j :: 0 <= i < j < |raw| ==> !Clash(raw[i], raw[j])
  }

  /** Rows `first`.. of a table that belong to one load. */
  ghost predicate IsLoad(rows: seq<RawRow>, dataset: Dataset, sid: nat, run: nat) {
    forall i :: 0 <= i < |rows| ==>
      rows[i].dataset == dataset && rows[i].sid == sid && rows[i].number == i + 1 && rows[i].run == run
  }

  // ---------- counts and messages ----------

  /** The service's count validation; persisted rows are those the load transaction sees. */
  predicate CountsValid(m: Metadata, counts: LoadCounts, persisted: nat) {
    m.rowCount == Some(counts.read) && counts.loaded == counts.read && persisted == counts.read
  }

  /** The white space that splitting and stripping text recognise. */
  predicate IsSpace(c: char) {
    || c == ' ' || '\t' <= c <= '\r' || '\U{1c}' <= c <= '\U{1f}' || c == '\U{85}' || c == '\U{a0}' || c == '\U{1680}'
    || '\U{2000}' <= c <= '\U{200a}' || c == '\U{2028}' || c == '\U{2029}'
    || c == '\U{202f}' || c == '\U{205f}' || c == '\U{3000}'
  }

  /** The words of a text: what splitting on runs of white space yields. */
  function Words(s: string): (ws: seq<string>)
    ensures forall i :: 0 <= i < |ws| ==> ws[i] != "" && forall c :: c in ws[i] ==> !IsSpace(c)
  {
    if s == "" then []
    else if IsSpace(s[0]) then Words(s[1..])
    else
      var rest := Words(s[1..]);
      if |s| == 1 || IsSpace(s[1]) || rest == [] then [[s[0]]] + rest
      else [[s[0]] + rest[0]] + rest[1..]
  }

  function Join(words: seq<string>): string {
    if words == [] then ""
    else if |words| == 1 then words[0]
    else words[0] + " " + Join(words[1..])
  }

  const PREFIX := "Raw ingestion failed: "

  function SafeErrorMessage(detail: string, className: string): string {
    var flat := Join(Words(detail));
    var text := PREFIX + if flat == "" then className else flat;
    if |text| > 1000 then text[..1000] else text
  }

  predicate Blank(s: string) {
    forall c :: c in s ==> IsSpace(c)
  }

  lemma {:induction false} JoinFlat(words: seq<string>)
    requires forall i, c :: 0 <= i < |words| && c in words[i] ==> !IsSpace(c)
    ensures forall c :: c in Join(words) ==> c == ' ' || !IsSpace(c)
  {
    if |words| > 1 {
      JoinFlat(words[1..]);
    }
  }

  lemma SafeErrorMessageNotBlank(detail: string, className: string)
    ensures !Blank(SafeErrorMessage(detail, className))
  {
    var m := SafeErrorMessage(detail, className);
    assert m[0] == 'R' && m[0] in m;
  }

  /** The characters of a text that are not white space, in order. */
  function Visible(s: string): string {
    if s == "" then "" else (if IsSpace(s[0]) then "" else [s[0]]) + Visible(s[1..])
  }

  function Concat(words: seq<string>): string {
    if words == [] then "" else words[0] + Concat(words[1..])
  }

  lemma {:induction false} VisibleAppend(a: string, b: string)
    ensures Visible(a + b) == Visible(a) + Visible(b)
  {
    if a == "" {
      assert a + b == b;
    } else {
      VisibleAppend(a[1..], b);
      VisibleCons(a[0], a[1..]);
      VisibleCons(a[0], a[1..] + b);
      assert a == [a[0]] + a[1..] && a + b == [a[0]] + (a[1..] + b);
    }
  }

  lemma VisibleCons(c: char, s: string)
    ensures Visible([c] + s) == (if IsSpace(c) then "" else [c]) + Visible(s)
  {
    assert ([c] + s)[1..] == s;
  }

  lemma {:induction false} VisibleWord(w: string)
    requires forall c :: c in w ==> !IsSpace(c)
    ensures Visible(w) == w
  {
    if w != "" {
      assert w[0] in w;
      VisibleWord(w[1..]);
    }
  }

  lemma {:induction false} VisibleJoin(words: seq<string>)
    requires forall i :: 0 <= i < |words| ==> forall c :: c in words[i] ==> !IsSpace(c)
    ensures Visible(Join(words)) == Concat(words)
  {
    if |words| == 1 {
      VisibleWord(words[0]);
      assert Concat(words[1..]) == "";
    } else if |words| > 1 {
      VisibleJoin(words[1..]);
      VisibleWord(words[0]);
      VisibleAppend(words[0] + " ", Join(words[1..]));
      VisibleAppend(words[0], " ");
      assert Visible(" ") == "";
    }
  }

  lemma {:induction false} WordsKeep(s: string)
    ensures Concat(Words(s)) == Visible(s)
  {
    if s != "" {
      WordsKeep(s[1..]);
      var rest := Words(s[1..]);
      if !IsSpace(s[0]) && !(|s| == 1 || IsSpace(s[1]) || rest == []) {
        assert Words(s) == [[s[0]] + rest[0]] + rest[1..];
        assert Concat(Words(s)) == [s[0]] + rest[0] + Concat(rest[1..]);
      }
    }
  }

  /** Splitting into words and joining them loses nothing but white space. */
  lemma FlatKeepsText(s: string)
    ensures Visible(Join(Words(s))) == Visible(s)
  {
    VisibleJoin(Words(s));
    WordsKeep(s);
  }

  /** A failure message that is not cut tells the whole error, up to white space, or the error's class when
      the error says nothing; a longer one is cut after 1000 characters. */
  lemma SafeErrorMessageTells(detail: string, className: string)
    ensures
      var told := if Visible(detail) == "" then className else Join(Words(detail));
      && Visible(told) == (if Visible(detail) == "" then Visible(className) else Visible(detail))
      && SafeErrorMessage(detail, className) <= PREFIX + told
      && |SafeErrorMessage(detail, className)| == if |PREFIX + told| > 1000 then 1000 else |PREFIX + told|
  {
    FlatKeepsText(detail);
    WordsKeep(detail);
    if Words(detail) != [] {
      assert Words(detail)[0] != "";
      VisibleJoin(Words(detail));
    }
  }

  /** A failure message is never blank, has at most 1000 characters and stays on one line. */
  lemma SafeErrorMessageIsUsable(detail: string, className: string)
    requires forall c :: c in className ==> !IsSpace(c)
    ensures !Blank(SafeErrorMessage(detail, className))
    ensures |SafeErrorMessage(detail, className)| <= 1000
    ensures forall c :: c in SafeErrorMessage(detail, className) ==> c == ' ' || !IsSpace(c)
  {
    JoinFlat(Words(detail));
    var m := SafeErrorMessage(detail, className);
    assert m[0] == 'R' && m[0] in m;
    var flat := Join(Words(detail));
    var rest := if flat == "" then className else flat;
    assert forall i :: 0 <= i < |PREFIX| ==> PREFIX[i] == ' ' || !IsSpace(PREFIX[i]);
    forall c | c in m
      ensures c == ' ' || !IsSpace(c)
    {
      assert c in PREFIX + rest;
    }
  }
}
