/** Exact duplicate detection: the two-pass hash profile of a file, the SQL grouping check over the raw
    table, and the counts of the multiset of rows that both have to equal. */
module Duplicates {
  import opened Cells
  import opened Relational

  datatype Profile = Profile(total: nat, unique: nat, participating: nat, excess: nat, groups: nat)

  // ---------- what is counted ----------

  ghost function Values<T>(m: multiset<T>): set<T> {
    set v | v in m
  }

  ghost function Repeated<T>(m: multiset<T>): set<T> {
    set v | v in m && m[v] > 1
  }

  /** The duplicate counts of a collection of rows, by cardinalities only: the distinct rows, the rows
      beyond the first of their kind, and the distinct rows that occur more than once. */
  ghost predicate Counts<T>(m: multiset<T>, p: Profile) {
    && p.total == |m|
    && p.unique == |Values(m)|
    && p.excess == |m| - |Values(m)|
    && p.groups == |Repeated(m)|
    && p.participating == p.excess + p.groups
  }

  /** Equal floats may differ in the sign of zero; null and not-a-number each equal themselves. */
  function Normal(c: Cell): Cell {
    if c == NegativeZero then Real(0.0) else c
  }

  function NormalRow(r: Row): Row {
    seq(|r|, i requires 0 <= i < |r| => Normal(r[i]))
  }

  function NormalRows(rows: seq<Row>): seq<Row> {
    seq(|rows|, i requires 0 <= i < |rows| => NormalRow(rows[i]))
  }

  predicate IsZero(c: Cell) {
    c == NegativeZero || c == Real(0.0)
  }

  /** Two rows count as equal exactly when they are as long as each other and equal cell by cell, where the
      two float zeros are equal; null and not-a-number each equal only themselves. */
  lemma NormalRowsEqual(x: Row, y: Row)
    ensures NormalRow(x) == NormalRow(y)
       <==> |x| == |y| && forall i :: 0 <= i < |x| ==> x[i] == y[i] || (IsZero(x[i]) && IsZero(y[i]))
  {
    if NormalRow(x) == NormalRow(y) {
      assert |NormalRow(x)| == |NormalRow(y)|;
      forall i | 0 <= i < |x|
        ensures x[i] == y[i] || (IsZero(x[i]) && IsZero(y[i]))
      {
        assert NormalRow(x)[i] == NormalRow(y)[i];
      }
    }
    if |x| == |y| && forall i :: 0 <= i < |x| ==> x[i] == y[i] || (IsZero(x[i]) && IsZero(y[i])) {
      assert forall i :: 0 <= i < |x| ==> NormalRow(x)[i] == NormalRow(y)[i];
    }
  }

  /** The cells of the frame that is hashed. A data frame column cannot tell null from not-a-number,
      so rows that differ there collide. */
  function Stable(c: Cell): Cell {
    match c
    case NegativeZero => Real(0.0)
    case NaN => Null
    case _ => c
  }

  function StableRow(r: Row): Row {
    seq(|r|, i requires 0 <= i < |r| => Stable(r[i]))
  }

  lemma StableOfNormal(r: Row)
    ensures StableRow(NormalRow(r)) == StableRow(r)
  {
  }

  // ---------- how the counts grow ----------

  lemma ValuesOf<T>(m: multiset<T>, x: T)
    ensures Values(m + multiset{x}) == Values(m) + {x}
    ensures |Values(m + multiset{x})| == |Values(m)| + if x in m then 0 else 1
  {
    assert Values(m + multiset{x}) == Values(m) + {x};
    if x in m {
      assert Values(m) + {x} == Values(m);
    }
  }

  lemma RepeatedOf<T>(m: multiset<T>, x: T)
    ensures |Repeated(m + multiset{x})| == |Repeated(m)| + if m[x] == 1 then 1 else 0
  {
    if x in m {
      assert Repeated(m + multiset{x}) == Repeated(m) + {x};
      if m[x] > 1 {
        assert Repeated(m) + {x} == Repeated(m);
      }
    } else {
      assert Repeated(m + multiset{x}) == Repeated(m);
    }
  }

  /** The distinct values of a multiset without repetitions are as many as its elements. */
  lemma {:induction false} SinglesCard<T>(m: multiset<T>)
    requires forall v :: v in m ==> m[v] == 1
    ensures |Values(m)| == |m|
    decreases |m|
  {
    if m == multiset{} {
      assert Values(m) == {};
    } else {
      var x :| x in m;
      var less := m - multiset{x};
      SinglesCard(less);
      assert less + multiset{x} == m;
      ValuesOf(less, x);
    }
  }

  /** Two collections of rows with the same pattern of equalities have the same counts. */
  ghost predicate SamePattern<S, T>(s: seq<S>, t: seq<T>) {
    |s| == |t| && forall i, j :: 0 <= i < |s| && 0 <= j < |s| ==> (s[i] == s[j] <==> t[i] == t[j])
  }

  lemma {:induction false} PatternCount<S, T>(s: seq<S>, t: seq<T>, n: nat, k: nat)
    requires SamePattern(s, t) && n <= |s| && k < |s|
    ensures multiset(s[..n])[s[k]] == multiset(t[..n])[t[k]]
  {
    if n > 0 {
      PatternCount(s, t, n - 1, k);
      assert s[..n] == s[..n - 1] + [s[n - 1]] && t[..n] == t[..n - 1] + [t[n - 1]];
      assert (s[n - 1] == s[k]) == (t[n - 1] == t[k]);
    }
  }

  lemma {:induction false} PatternPrefix<S, T>(s: seq<S>, t: seq<T>, n: nat)
    requires SamePattern(s, t) && n <= |s|
    ensures |Values(multiset(s[..n]))| == |Values(multiset(t[..n]))|
    ensures |Repeated(multiset(s[..n]))| == |Repeated(multiset(t[..n]))|
  {
    if n == 0 {
      assert Values(multiset(s[..0])) == {} && Values(multiset(t[..0])) == {};
      assert Repeated(multiset(s[..0])) == {} && Repeated(multiset(t[..0])) == {};
    } else {
      PatternPrefix(s, t, n - 1);
      PatternCount(s, t, n - 1, n - 1);
      assert s[..n] == s[..n - 1] + [s[n - 1]] && t[..n] == t[..n - 1] + [t[n - 1]];
      GrowAlike(multiset(s[..n - 1]), s[n - 1], multiset(t[..n - 1]), t[n - 1]);
    }
  }

  lemma GrowAlike<S, T>(m: multiset<S>, x: S, n: multiset<T>, y: T)
    requires |Values(m)| == |Values(n)| && |Repeated(m)| == |Repeated(n)| && m[x] == n[y]
    ensures |Values(m + multiset{x})| == |Values(n + multiset{y})|
    ensures |Repeated(m + multiset{x})| == |Repeated(n + multiset{y})|
  {
    ValuesOf(m, x);
    ValuesOf(n, y);
    RepeatedOf(m, x);
    RepeatedOf(n, y);
  }

  lemma PatternCounts<S, T>(s: seq<S>, t: seq<T>, p: Profile)
    requires SamePattern(s, t)
    ensures Counts(multiset(s), p) <==> Counts(multiset(t), p)
  {
    PatternPrefix(s, t, |s|);
    assert s[..|s|] == s && t[..|t|] == t;
  }

  // ---------- the SQL check ----------

  /** The groups that survive HAVING count(*) > 1. */
  function Having<K>(groups: seq<(K, nat)>): seq<(K, nat)> {
    if groups == [] then []
    else Having(groups[..|groups| - 1]) + if groups[|groups| - 1].1 > 1 then [groups[|groups| - 1]] else []
  }

  /** The three sums over the duplicate groups: their rows, their rows but one each, and their number. */
  function SqlDuplicates(rows: seq<Row>): (nat, nat, nat) {
    var groups := Having(GroupBy(NormalRows(rows)));
    (Total(groups), Excess(groups), |groups|)
  }

  function Excess<K>(groups: seq<(K, nat)>): nat {
    if groups == [] then 0
    else Excess(groups[..|groups| - 1]) + if groups[|groups| - 1].1 > 0 then groups[|groups| - 1].1 - 1 else 0
  }

  lemma ListsLess<K>(groups: seq<(K, nat)>, m: multiset<K>)
    requires Lists(groups, m) && groups != []
    ensures
      var (k, c) := groups[|groups| - 1];
      && Lists(groups[..|groups| - 1], m[k := 0]) && c == m[k] > 0
      && |m| == |m[k := 0]| + c
      && |Values(m)| == |Values(m[k := 0])| + 1
      && |Repeated(m)| == |Repeated(m[k := 0])| + if c > 1 then 1 else 0
  {
    var (k, c) := groups[|groups| - 1];
    var less := m[k := 0];
    ListsInit(groups, m);
    assert Values(m) == Values(less) + {k};
    assert Repeated(m) == Repeated(less) + if c > 1 then {k} else {};
  }

  lemma HavingStep<K>(groups: seq<(K, nat)>)
    requires groups != []
    ensures
      var c := groups[|groups| - 1].1;
      var h := Having(groups[..|groups| - 1]);
      && |Having(groups)| == |h| + (if c > 1 then 1 else 0)
      && Total(Having(groups)) == Total(h) + (if c > 1 then c else 0)
      && Excess(Having(groups)) == Excess(h) + (if c > 1 then c - 1 else 0)
  {
    var last := groups[|groups| - 1];
    var h := Having(groups[..|groups| - 1]);
    if last.1 > 1 {
      assert Having(groups) == h + [last] && (h + [last])[..|h|] == h;
    } else {
      assert Having(groups) == h;
    }
  }

  lemma {:induction false} ListedDuplicates<K>(groups: seq<(K, nat)>, m: multiset<K>)
    requires Lists(groups, m)
    ensures |Having(groups)| == |Repeated(m)|
    ensures Excess(Having(groups)) == |m| - |Values(m)|
    ensures Total(Having(groups)) == Excess(Having(groups)) + |Having(groups)|
  {
    if groups == [] {
      assert m == multiset{};
      assert Values(m) == {} && Repeated(m) == {};
    } else {
      var n := |groups| - 1;
      ListsLess(groups, m);
      ListedDuplicates(groups[..n], m[groups[n].0 := 0]);
      HavingStep(groups);
    }
  }

  /** The SQL check computes the counts of the multiset of normalised rows. */
  lemma SqlDuplicatesCount(rows: seq<Row>, p: Profile)
    requires Counts(multiset(NormalRows(rows)), p)
    ensures SqlDuplicates(rows) == (p.participating, p.excess, p.groups)
  {
    var normal := NormalRows(rows);
    GroupByLists(normal);
    ListedSums(GroupBy(normal), multiset(normal), p);
  }

  lemma ListedSums<K>(groups: seq<(K, nat)>, m: multiset<K>, p: Profile)
    requires Lists(groups, m) && Counts(m, p)
    ensures Total(Having(groups)) == p.participating && Excess(Having(groups)) == p.excess
    ensures |Having(groups)| == p.groups
  {
    ListedDuplicates(groups, m);
  }

  // ---------- the two-pass profile ----------

  function Concat(batches: seq<seq<Row>>): seq<Row> {
    if batches == [] then [] else Concat(batches[..|batches| - 1]) + batches[|batches| - 1]
  }

  /** A 64-bit row hash; only equality of hashes matters. */
  datatype Hash = Hash(bits: nat)

  type RowHash = Row -> Hash

  /** The hash that the profile computes for a row. */
  function HashOf(hash: RowHash, r: Row): Hash {
    hash(StableRow(r))
  }

  function Hashes(hash: RowHash, rows: seq<Row>): seq<Hash> {
    seq(|rows|, i requires 0 <= i < |rows| => HashOf(hash, rows[i]))
  }

  type Buckets = map<Hash, map<Row, nat>>

  function CountIn(g: Buckets, h: Hash, row: Row): nat {
    if h in g && row in g[h] then g[h][row] else 0
  }

  function Bump(g: Buckets, h: Hash, row: Row): Buckets {
    var bucket := if h in g then g[h] else map[];
    g[h := bucket[row := CountIn(g, h, row) + 1]]
  }

  /** The buckets hold, for the candidate hashes only, how often every normalised row occurs in `m`. */
  ghost predicate Grouped(g: Buckets, m: multiset<Row>, hash: RowHash, candidates: set<Hash>) {
    && (forall h, row :: CountIn(g, h, row) == if h in candidates && h == HashOf(hash, row) then m[row] else 0)
    && (forall h, row :: h in g && row in g[h] ==> g[h][row] > 0)
  }

  lemma GroupedBump(g: Buckets, m: multiset<Row>, hash: RowHash, candidates: set<Hash>, r: Row)
    requires Grouped(g, m, hash, candidates)
    ensures
      var h := HashOf(hash, r);
      Grouped(if h in candidates then Bump(g, h, NormalRow(r)) else g, m + multiset{NormalRow(r)}, hash, candidates)
  {
    StableOfNormal(r);
    var h := HashOf(hash, r);
    assert HashOf(hash, NormalRow(r)) == h;
  }

  /** A row that occurs more than once has a hash that occurs more than once. */
  lemma {:induction false} HashCounts(hash: RowHash, rows: seq<Row>, v: Row)
    ensures multiset(Hashes(hash, rows))[HashOf(hash, v)] >= multiset(NormalRows(rows))[v]
  {
    if rows != [] {
      var n := |rows| - 1;
      HashCounts(hash, rows[..n], v);
      StableOfNormal(rows[n]);
      assert Hashes(hash, rows) == Hashes(hash, rows[..n]) + [HashOf(hash, rows[n])];
      assert NormalRows(rows) == NormalRows(rows[..n]) + [NormalRow(rows[n])];
    }
  }

  lemma RestSplits<T>(m: multiset<T>, left: multiset<T>)
    requires forall v :: left[v] == if v in Repeated(m) then 0 else m[v]
    ensures |Values(m)| == |left| + |Repeated(m)|
  {
    SinglesCard(left);
    assert Values(m) == Values(left) + Repeated(m);
    assert Values(left) !! Repeated(m);
  }

  /** All repeated rows of `m` have been taken out, leaving `left`. */
  lemma CountsFromRest<T>(m: multiset<T>, left: multiset<T>, p: Profile)
    requires forall v :: left[v] == if v in Repeated(m) then 0 else m[v]
    requires p.total == |m| && p.participating + |left| == |m|
    requires p.groups == |Repeated(m)| && p.excess + p.groups == p.participating && p.unique == p.total - p.excess
    ensures Counts(m, p)
  {
    RestSplits(m, left);
  }

  lemma ConcatSnoc(batches: seq<seq<Row>>, k: nat)
    requires k < |batches|
    ensures Concat(batches[..k + 1]) == Concat(batches[..k]) + batches[k]
  {
    assert batches[..k + 1][..k] == batches[..k];
  }

  method HashPass(batches: seq<seq<Row>>, hash: RowHash) returns (hashes: seq<Hash>, total: nat)
    ensures hashes == Hashes(hash, Concat(batches)) && total == |Concat(batches)|
  {
    hashes, total := [], 0;
    for k := 0 to |batches|
      invariant hashes == Hashes(hash, Concat(batches[..k])) && total == |Concat(batches[..k])|
    {
      ConcatSnoc(batches, k);
      hashes := hashes + Hashes(hash, batches[k]);
      total := total + |batches[k]|;
    }
    assert batches[..|batches|] == batches;
  }

  lemma NormalRowsSnoc(rows: seq<Row>, r: Row)
    ensures multiset(NormalRows(rows + [r])) == multiset(NormalRows(rows)) + multiset{NormalRow(r)}
  {
    assert NormalRows(rows + [r]) == NormalRows(rows) + [NormalRow(r)];
  }

  method GroupBatch(batch: seq<Row>, hash: RowHash, candidates: set<Hash>, g: Buckets,
                    ghost before: seq<Row>) returns (groups: Buckets)
    requires Grouped(g, multiset(NormalRows(before)), hash, candidates)
    ensures Grouped(groups, multiset(NormalRows(before + batch)), hash, candidates)
  {
    groups := g;
    assert before + [] == before;
    for i := 0 to |batch|
      invariant Grouped(groups, multiset(NormalRows(before + batch[..i])), hash, candidates)
    {
      var h := HashOf(hash, batch[i]);
      GroupedBump(groups, multiset(NormalRows(before + batch[..i])), hash, candidates, batch[i]);
      NormalRowsSnoc(before + batch[..i], batch[i]);
      assert before + batch[..i] + [batch[i]] == before + batch[..i + 1];
      if h in candidates {
        groups := Bump(groups, h, NormalRow(batch[i]));
      }
    }
    assert batch[..|batch|] == batch;
  }

  method GroupPass(batches: seq<seq<Row>>, hash: RowHash, candidates: set<Hash>) returns (groups: Buckets)
    ensures Grouped(groups, multiset(NormalRows(Concat(batches))), hash, candidates)
  {
    groups := map[];
    for k := 0 to |batches|
      invariant Grouped(groups, multiset(NormalRows(Concat(batches[..k]))), hash, candidates)
    {
      ConcatSnoc(batches, k);
      groups := GroupBatch(batches[k], hash, candidates, groups, Concat(batches[..k]));
    }
    assert batches[..|batches|] == batches;
  }

  /** The repeated rows counted so far, whatever the order of the dictionaries: those in buckets that are
      done, and those done in the current bucket. */
  ghost predicate Counted(g: Buckets, hash: RowHash, hs: set<Hash>, current: Hash, rows: set<Row>, seen: set<Row>) {
    forall v :: v in seen <==>
      CountIn(g, HashOf(hash, v), v) > 1 && (HashOf(hash, v) !in hs || (HashOf(hash, v) == current && v !in rows))
  }

  ghost predicate CountedOutside(g: Buckets, hash: RowHash, hs: set<Hash>, seen: set<Row>) {
    forall v :: v in seen <==> CountIn(g, HashOf(hash, v), v) > 1 && HashOf(hash, v) !in hs
  }

  /** What the running sums say about the rows counted so far. */
  ghost predicate Summed(m: multiset<Row>, seen: set<Row>, left: multiset<Row>, participating: nat, excess: nat,
                         count: nat) {
    && (forall v :: left[v] == if v in seen then 0 else m[v])
    && participating + |left| == |m| && excess + count == participating && count == |seen|
  }

  lemma SummedNext(m: multiset<Row>, seen: set<Row>, left: multiset<Row>, participating: nat, excess: nat, count: nat,
                   v: Row)
    requires Summed(m, seen, left, participating, excess, count) && v !in seen && m[v] > 1
    ensures Summed(m, seen + {v}, left[v := 0], participating + m[v], excess + m[v] - 1, count + 1)
  {
  }

  method SumBucket(g: Buckets, h: Hash, ghost m: multiset<Row>, ghost hash: RowHash, ghost hs: set<Hash>,
                   ghost seen: set<Row>, ghost left: multiset<Row>, p: nat, e: nat, c: nat)
    returns (participating: nat, excess: nat, count: nat, ghost nowSeen: set<Row>, ghost nowLeft: multiset<Row>)
    requires h in g && h in hs
    requires forall v :: v in g[h] ==> HashOf(hash, v) == h && g[h][v] == m[v]
    requires CountedOutside(g, hash, hs, seen) && Summed(m, seen, left, p, e, c)
    ensures CountedOutside(g, hash, hs - {h}, nowSeen) && Summed(m, nowSeen, nowLeft, participating, excess, count)
  {
    participating, excess, count, nowSeen, nowLeft := p, e, c, seen, left;
    var rows := g[h].Keys;
    while rows != {}
      invariant rows <= g[h].Keys
      invariant Counted(g, hash, hs, h, rows, nowSeen) && Summed(m, nowSeen, nowLeft, participating, excess, count)
      decreases |rows|
    {
      var v :| v in rows;
      rows := rows - {v};
      var n := g[h][v];
      if n > 1 {
        SummedNext(m, nowSeen, nowLeft, participating, excess, count, v);
        participating, excess, count := participating + n, excess + n - 1, count + 1;
        nowSeen, nowLeft := nowSeen + {v}, nowLeft[v := 0];
      }
    }
  }

  lemma BucketRows(g: Buckets, m: multiset<Row>, hash: RowHash, candidates: set<Hash>, h: Hash)
    requires Grouped(g, m, hash, candidates) && h in g
    ensures forall v :: v in g[h] ==> HashOf(hash, v) == h && g[h][v] == m[v]
  {
    forall v | v in g[h]
      ensures HashOf(hash, v) == h && g[h][v] == m[v]
    {
      assert CountIn(g, h, v) == g[h][v];
    }
  }

  method SumBuckets(g: Buckets, ghost m: multiset<Row>, ghost hash: RowHash, ghost candidates: set<Hash>)
    returns (participating: nat, excess: nat, count: nat, ghost left: multiset<Row>)
    requires Grouped(g, m, hash, candidates)
    requires forall v :: v in Repeated(m) ==> HashOf(hash, v) in candidates
    ensures Summed(m, Repeated(m), left, participating, excess, count)
  {
    participating, excess, count, left := 0, 0, 0, m;
    var hs := g.Keys;
    ghost var seen: set<Row> := {};
    while hs != {}
      invariant hs <= g.Keys
      invariant CountedOutside(g, hash, hs, seen) && Summed(m, seen, left, participating, excess, count)
      decreases |hs|
    {
      var h :| h in hs;
      BucketRows(g, m, hash, candidates, h);
      participating, excess, count, seen, left := SumBucket(g, h, m, hash, hs, seen, left, participating, excess, count);
      hs := hs - {h};
    }
    assert seen == Repeated(m);
  }

  /** The profile of a file read in batches of any sizes, under any hash: the counts of the multiset of
      its normalised rows. Rows with colliding hashes are told apart in the second pass. */
  method ExactDuplicateProfile(batches: seq<seq<Row>>, hash: RowHash) returns (p: Profile)
    ensures Counts(multiset(NormalRows(Concat(batches))), p)
  {
    ghost var rows := Concat(batches);
    ghost var m := multiset(NormalRows(rows));
    var hashes, total := HashPass(batches, hash);
    var candidates := set h | h in hashes && multiset(hashes)[h] > 1;
    forall v | v in Repeated(m)
      ensures HashOf(hash, v) in candidates
    {
      HashCounts(hash, rows, v);
      assert HashOf(hash, v) in multiset(hashes);
    }
    var groups: Buckets := map[];
    if candidates != {} {
      groups := GroupPass(batches, hash, candidates);
    }
    var participating, excess, count;
    ghost var left;
    participating, excess, count, left := SumBuckets(groups, m, hash, candidates);
    assert excess <= total by {
      assert participating <= |m|;
    }
    p := Profile(total, total - excess, participating, excess, count);
    CountsFromRest(m, left, p);
  }

  /** The profile of a file and the SQL check over the rows loaded from it agree, although the raw table
      may hold columns that the file does not have: only the pattern of equal rows matters. */
  lemma ProfileAgreesWithSql(file: seq<Row>, raw: seq<Row>, p: Profile)
    requires Counts(multiset(NormalRows(file)), p) && SamePattern(NormalRows(file), NormalRows(raw))
    ensures SqlDuplicates(raw) == (p.participating, p.excess, p.groups)
  {
    PatternCounts(NormalRows(file), NormalRows(raw), p);
    SqlDuplicatesCount(raw, p);
  }

  // ---------- the data frame profile ----------

  /** The rows that equal an earlier one: what duplicated() marks when it keeps the first. */
  function Duplicated<T(==)>(rows: seq<T>): nat {
    if rows == [] then 0
    else Duplicated(rows[..|rows| - 1]) + if rows[|rows| - 1] in rows[..|rows| - 1] then 1 else 0
  }

  /** The rows of a frame that occur more than once in it (`repeated`), or only once. */
  function Marked<T(==)>(rows: seq<T>, frame: multiset<T>, repeated: bool): seq<T> {
    if rows == [] then []
    else
      var last := rows[|rows| - 1];
      Marked(rows[..|rows| - 1], frame, repeated) + if (frame[last] > 1) == repeated then [last] else []
  }

  /** The profile of a data frame, from its two duplicate masks. */
  function DataframeDuplicateProfile<T(==)>(rows: seq<T>): Profile {
    var participating := Marked(rows, multiset(rows), true);
    DuplicatedAtMost(rows);
    Profile(|rows|, |rows| - Duplicated(rows), |participating|, Duplicated(rows), |Distinct(participating)|)
  }

  lemma {:induction false} DuplicatedAtMost<T>(rows: seq<T>)
    ensures Duplicated(rows) <= |rows|
  {
    if rows != [] {
      DuplicatedAtMost(rows[..|rows| - 1]);
    }
  }

  lemma {:induction false} DuplicatedIsExcess<T>(rows: seq<T>)
    ensures Duplicated(rows) == |rows| - |Values(multiset(rows))|
  {
    if rows == [] {
      assert Values(multiset(rows)) == {};
    } else {
      var n := |rows| - 1;
      DuplicatedIsExcess(rows[..n]);
      assert rows == rows[..n] + [rows[n]];
      ValuesOf(multiset(rows[..n]), rows[n]);
    }
  }

  lemma {:induction false} MarkedCount<T>(rows: seq<T>, frame: multiset<T>, repeated: bool, v: T)
    ensures multiset(Marked(rows, frame, repeated))[v] == if (frame[v] > 1) == repeated then multiset(rows)[v] else 0
  {
    if rows != [] {
      var n := |rows| - 1;
      MarkedCount(rows[..n], frame, repeated, v);
      assert rows == rows[..n] + [rows[n]];
      assert multiset(rows) == multiset(rows[..n]) + multiset{rows[n]};
    }
  }

  lemma {:induction false} MarkedSplits<T>(rows: seq<T>, frame: multiset<T>)
    ensures |Marked(rows, frame, true)| + |Marked(rows, frame, false)| == |rows|
  {
    if rows != [] {
      MarkedSplits(rows[..|rows| - 1], frame);
    }
  }

  lemma DistinctCard<T>(s: seq<T>)
    ensures |Distinct(s)| == |Values(multiset(s))|
  {
    DistinctIsDistinct(s);
    var d := Distinct(s);
    forall v | v in multiset(d)
      ensures multiset(d)[v] == 1
    {
      OnceInDistinct(d, v);
    }
    SinglesCard(multiset(d));
    assert Values(multiset(d)) == Values(multiset(s)) by {
      assert forall v :: v in multiset(d) <==> v in d;
      assert forall v :: v in multiset(s) <==> v in s;
    }
  }

  lemma {:induction false} OnceInDistinct<T>(d: seq<T>, v: T)
    requires forall i, j :: 0 <= i < |d| && 0 <= j < |d| && d[i] == d[j] ==> i == j
    ensures multiset(d)[v] <= 1
  {
    if d != [] {
      var n := |d| - 1;
      assert d == d[..n] + [d[n]];
      if d[n] == v {
        assert v !in d[..n];
      } else {
        OnceInDistinct(d[..n], v);
      }
    }
  }

  /** The two masks of a data frame give the counts of the multiset of its rows. */
  lemma DataframeProfileCounts<T>(rows: seq<T>)
    ensures Counts(multiset(rows), DataframeDuplicateProfile(rows))
  {
    var m := multiset(rows);
    var participating, left := Marked(rows, m, true), Marked(rows, m, false);
    forall v
      ensures multiset(participating)[v] == if m[v] > 1 then m[v] else 0
      ensures multiset(left)[v] == if m[v] > 1 then 0 else m[v]
    {
      MarkedCount(rows, m, true, v);
      MarkedCount(rows, m, false, v);
    }
    MarkedSplits(rows, m);
    DistinctCard(participating);
    assert Values(multiset(participating)) == Repeated(m);
    DuplicatedIsExcess(rows);
    RestSplits(m, multiset(left));
  }
}
