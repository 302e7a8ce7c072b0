/** Offset pagination over a table that may grow between page requests. */
module Paging {
  import opened Wrappers
  import opened Catalog
  import opened Lifecycle
  import opened Invariants

  const PAGE := 100

  /** The server's answer to limit and offset. */
  function Page<T>(table: seq<T>, limit: nat, offset: nat): seq<T> {
    if offset >= |table| then []
    else if offset + limit <= |table| then table[offset..offset + limit]
    else table[offset..]
  }

  /** The ordered table that request number `k` sees; it stops changing after the last snapshot. */
  function At<T>(snapshots: seq<seq<T>>, k: nat): seq<T>
    requires snapshots != []
  {
    if k < |snapshots| then snapshots[k] else snapshots[|snapshots| - 1]
  }

  function Left<T>(snapshots: seq<seq<T>>, k: nat): nat {
    if k + 1 < |snapshots| then |snapshots| - 1 - k else 0
  }

  /** The items that requests `k`, `k + 1`, ... collect. */
  function PagesFrom<T>(snapshots: seq<seq<T>>, k: nat): seq<T>
    requires snapshots != []
    decreases Left(snapshots, k), |snapshots[|snapshots| - 1]| - PAGE * k
  {
    var page := Page(At(snapshots, k), PAGE, PAGE * k);
    if |page| < PAGE then page else page + PagesFrom(snapshots, k + 1)
  }

  function RequestsFrom<T>(snapshots: seq<seq<T>>, k: nat): nat
    requires snapshots != []
    decreases Left(snapshots, k), |snapshots[|snapshots| - 1]| - PAGE * k
  {
    if |Page(At(snapshots, k), PAGE, PAGE * k)| < PAGE then 1 else 1 + RequestsFrom(snapshots, k + 1)
  }

  /** The items and requests of the first `k` rounds, completed by the rest, are those of the whole loop. */
  ghost predicate Collected<T>(snapshots: seq<seq<T>>, items: seq<T>, k: nat)
    requires snapshots != []
  {
    items + PagesFrom(snapshots, k) == PagesFrom(snapshots, 0) && k + RequestsFrom(snapshots, k) == RequestsFrom(snapshots, 0)
  }

  lemma CollectNext<T>(snapshots: seq<seq<T>>, items: seq<T>, k: nat, page: seq<T>)
    requires snapshots != [] && Collected(snapshots, items, k) && page == Page(At(snapshots, k), PAGE, PAGE * k)
    ensures |page| < PAGE ==> items + page == PagesFrom(snapshots, 0) && k + 1 == RequestsFrom(snapshots, 0)
    ensures |page| >= PAGE ==> Collected(snapshots, items + page, k + 1)
  {
    if |page| >= PAGE {
      assert items + page + PagesFrom(snapshots, k + 1) == items + (page + PagesFrom(snapshots, k + 1));
    }
  }

  /** The client's loop. */
  method AllPages<T>(snapshots: seq<seq<T>>) returns (items: seq<T>, requests: nat)
    requires snapshots != []
    ensures items == PagesFrom(snapshots, 0)
    ensures requests == RequestsFrom(snapshots, 0)
  {
    items, requests := [], 0;
    var offset := 0;
    assert [] + PagesFrom(snapshots, 0) == PagesFrom(snapshots, 0);
    while true
      invariant offset == PAGE * requests && Collected(snapshots, items, requests)
      decreases Left(snapshots, requests), |snapshots[|snapshots| - 1]| - offset
    {
      var page := Page(At(snapshots, requests), PAGE, offset);
      CollectNext(snapshots, items, requests, page);
      items := items + page;
      requests := requests + 1;
      if |page| < PAGE {
        return;
      }
      offset := offset + PAGE;
    }
  }

  // ---------- an unchanged table ----------

  lemma {:induction false} UnchangedFrom<T>(table: seq<T>, k: nat)
    requires PAGE * k <= |table|
    ensures PagesFrom([table], k) == table[PAGE * k..]
    ensures RequestsFrom([table], k) == (|table| - PAGE * k) / PAGE + 1
    decreases |table| - PAGE * k
  {
    if PAGE * k + PAGE <= |table| {
      UnchangedFrom(table, k + 1);
      assert table[PAGE * k..] == table[PAGE * k..PAGE * k + PAGE] + table[PAGE * k + PAGE..];
    }
  }

  /** Over a table that does not change, the result is the table, after floor(n/100)+1 requests. */
  lemma UnchangedTable<T>(table: seq<T>)
    ensures PagesFrom([table], 0) == table && RequestsFrom([table], 0) == |table| / PAGE + 1
  {
    UnchangedFrom(table, 0);
  }

  // ---------- a growing table ----------

  /** `b` is `a` with rows inserted at any positions. */
  predicate Grown<T(==)>(a: seq<T>, b: seq<T>) {
    if a == [] then true
    else if b == [] then false
    else if a[0] == b[0] then Grown(a[1..], b[1..])
    else Grown(a, b[1..])
  }

  ghost predicate OnlyGrows<T>(snapshots: seq<seq<T>>) {
    forall k :: 0 <= k < |snapshots| - 1 ==> Grown(snapshots[k], snapshots[k + 1])
  }

  /** An inserted row only moves other rows to later positions. */
  lemma {:induction false} GrownMovesBack<T>(a: seq<T>, b: seq<T>, i: nat) returns (j: nat)
    requires Grown(a, b) && i < |a|
    ensures i <= j < |b| && b[j] == a[i]
    decreases |b|
  {
    if a[0] == b[0] {
      if i == 0 {
        j := 0;
      } else {
        j := GrownMovesBack(a[1..], b[1..], i - 1);
        j := j + 1;
      }
    } else {
      j := GrownMovesBack(a, b[1..], i);
      j := j + 1;
    }
  }

  /** A row that is not before the current window will be returned. */
  lemma {:induction false} ReturnedFrom<T>(snapshots: seq<seq<T>>, k: nat, i: nat)
    requires snapshots != [] && OnlyGrows(snapshots)
    requires PAGE * k <= i < |At(snapshots, k)|
    ensures At(snapshots, k)[i] in PagesFrom(snapshots, k)
    decreases Left(snapshots, k), |snapshots[|snapshots| - 1]| - PAGE * k
  {
    var table := At(snapshots, k);
    var page := Page(table, PAGE, PAGE * k);
    if i < PAGE * k + PAGE {
      assert page[i - PAGE * k] == table[i];
      assert table[i] in page;
    } else {
      assert |page| == PAGE;
      var j := i;
      if k + 1 < |snapshots| {
        j := GrownMovesBack(snapshots[k], snapshots[k + 1], i);
      }
      ReturnedFrom(snapshots, k + 1, j);
    }
  }

  /** If rows are only inserted between the page requests, at any position, every row that was there at
      the start is returned. */
  lemma GrowingTable<T>(snapshots: seq<seq<T>>, i: nat)
    requires snapshots != [] && OnlyGrows(snapshots) && i < |snapshots[0]|
    ensures snapshots[0][i] in PagesFrom(snapshots, 0)
  {
    ReturnedFrom(snapshots, 0, i);
  }

  // ---------- any table ----------

  predicate InWindow(k: nat, i: nat) {
    PAGE * k <= i < PAGE * k + PAGE
  }

  /** Request `k` gets a full page, so that request `k + 1` follows. */
  predicate Full<T>(snapshots: seq<seq<T>>, k: nat)
    requires snapshots != []
  {
    |At(snapshots, k)| >= PAGE * k + PAGE
  }

  /** Starting with request `k`, request `j` is made and finds the row in its window. */
  ghost predicate Caught<T>(snapshots: seq<seq<T>>, k: nat, x: T, j: nat)
    requires snapshots != []
  {
    && k <= j && (forall l :: k <= l < j ==> Full(snapshots, l))
    && exists i :: 0 <= i < |At(snapshots, j)| && InWindow(j, i) && At(snapshots, j)[i] == x
  }

  /** Starting with request `k`, the row is caught by some request. */
  ghost predicate IsCaught<T>(snapshots: seq<seq<T>>, k: nat, x: T)
    requires snapshots != []
  {
    exists j: nat :: Caught(snapshots, k, x, j)
  }

  lemma OnPage<T>(snapshots: seq<seq<T>>, k: nat, x: T)
    requires snapshots != []
    ensures x in Page(At(snapshots, k), PAGE, PAGE * k) <==> Caught(snapshots, k, x, k)
    ensures |Page(At(snapshots, k), PAGE, PAGE * k)| >= PAGE <==> Full(snapshots, k)
  {
    var table := At(snapshots, k);
    var page := Page(table, PAGE, PAGE * k);
    if x in page {
      var p :| 0 <= p < |page| && page[p] == x;
      assert table[PAGE * k + p] == x && InWindow(k, PAGE * k + p);
    }
    if i :| 0 <= i < |table| && InWindow(k, i) && table[i] == x {
      assert page[i - PAGE * k] == x;
    }
  }

  lemma OnPages<T>(snapshots: seq<seq<T>>, k: nat, x: T)
    requires snapshots != []
    ensures
      var page := Page(At(snapshots, k), PAGE, PAGE * k);
      x in PagesFrom(snapshots, k) <==> x in page || (|page| >= PAGE && x in PagesFrom(snapshots, k + 1))
  {
  }

  lemma CaughtLater<T>(snapshots: seq<seq<T>>, k: nat, x: T)
    requires snapshots != []
    ensures IsCaught(snapshots, k, x) <==> Caught(snapshots, k, x, k) || (Full(snapshots, k) && IsCaught(snapshots, k + 1, x))
  {
    if IsCaught(snapshots, k, x) {
      var j: nat :| Caught(snapshots, k, x, j);
      if j > k {
        assert Caught(snapshots, k + 1, x, j);
      }
    }
    if Full(snapshots, k) && IsCaught(snapshots, k + 1, x) {
      var j: nat :| Caught(snapshots, k + 1, x, j);
      assert Caught(snapshots, k, x, j);
    }
  }

  lemma {:induction false} ReturnedIffCaught<T>(snapshots: seq<seq<T>>, k: nat, x: T)
    requires snapshots != []
    ensures x in PagesFrom(snapshots, k) <==> IsCaught(snapshots, k, x)
    decreases Left(snapshots, k), |snapshots[|snapshots| - 1]| - PAGE * k
  {
    OnPage(snapshots, k, x);
    CaughtLater(snapshots, k, x);
    OnPages(snapshots, k, x);
    if Full(snapshots, k) {
      ReturnedIffCaught(snapshots, k + 1, x);
    }
  }

  /** However the table changes between the requests: a row is returned exactly when some request that is
      made, because all pages before it were full, finds it in its window. */
  lemma ReturnedExactly<T>(snapshots: seq<seq<T>>, x: T)
    requires snapshots != []
    ensures x in PagesFrom(snapshots, 0) <==> IsCaught(snapshots, 0, x)
  {
    ReturnedIffCaught(snapshots, 0, x);
  }

  // ---------- rows that slip ----------

  /** Where the table has the row. */
  ghost function Pos<T>(table: seq<T>, x: T): (i: nat)
    requires x in table
    ensures i < |table| && table[i] == x
  {
    var i: nat :| i < |table| && table[i] == x;
    i
  }

  predicate Stays<T(==)>(snapshots: seq<seq<T>>, x: T) {
    snapshots != [] && forall k :: 0 <= k < |snapshots| ==> x in snapshots[k]
  }

  ghost function PosAt<T>(snapshots: seq<seq<T>>, x: T, k: nat): nat
    requires Stays(snapshots, x)
  {
    Pos(At(snapshots, k), x)
  }

  /** The row is ahead of every window up to request `k`, and behind the next one. */
  ghost predicate SlipsAt<T>(snapshots: seq<seq<T>>, x: T, k: nat)
    requires Stays(snapshots, x)
  {
    (forall j :: 0 <= j <= k ==> PosAt(snapshots, x, j) >= PAGE * j + PAGE) && PosAt(snapshots, x, k + 1) < PAGE * (k + 1)
  }

  ghost predicate NeverSlips<T>(snapshots: seq<seq<T>>, x: T)
    requires Stays(snapshots, x)
  {
    forall k: nat :: !SlipsAt(snapshots, x, k)
  }

  lemma {:induction false} ReturnedUnlessSlipped<T>(snapshots: seq<seq<T>>, x: T, k: nat)
    requires Stays(snapshots, x) && NeverSlips(snapshots, x)
    requires PosAt(snapshots, x, k) >= PAGE * k && forall j :: 0 <= j < k ==> PosAt(snapshots, x, j) >= PAGE * j + PAGE
    ensures x in PagesFrom(snapshots, k)
    decreases Left(snapshots, k), |snapshots[|snapshots| - 1]| - PAGE * k
  {
    OnPage(snapshots, k, x);
    if PosAt(snapshots, x, k) < PAGE * k + PAGE {
      assert InWindow(k, PosAt(snapshots, x, k));
    } else {
      assert !SlipsAt(snapshots, x, k);
      ReturnedUnlessSlipped(snapshots, x, k + 1);
    }
  }

  /** However the table changes otherwise: a row that stays and never slips is returned. */
  lemma ReturnedIfNeverSlips<T>(snapshots: seq<seq<T>>, x: T)
    requires Stays(snapshots, x) && NeverSlips(snapshots, x)
    ensures x in PagesFrom(snapshots, 0)
  {
    ReturnedUnlessSlipped(snapshots, x, 0);
  }

  predicate NoRepeats<T(==)>(table: seq<T>) {
    forall i, j :: 0 <= i < j < |table| ==> table[i] != table[j]
  }

  /** The next snapshot is this one without some of its rows. */
  predicate LosesAfter<T(==)>(snapshots: seq<seq<T>>, k: nat) {
    k + 1 < |snapshots| ==> Grown(snapshots[k + 1], snapshots[k])
  }

  /** Between the requests the table only loses rows. */
  ghost predicate OnlyLoses<T>(snapshots: seq<seq<T>>) {
    (forall k :: 0 <= k < |snapshots| ==> NoRepeats(snapshots[k])) && forall k: nat :: LosesAfter(snapshots, k)
  }

  lemma MovesForward<T>(snapshots: seq<seq<T>>, x: T, k: nat)
    requires Stays(snapshots, x) && OnlyLoses(snapshots)
    ensures PosAt(snapshots, x, k + 1) <= PosAt(snapshots, x, k)
  {
    assert LosesAfter(snapshots, k);
    if k + 1 < |snapshots| {
      var i := Pos(snapshots[k], x);
      var j := GrownMovesBack(snapshots[k + 1], snapshots[k], Pos(snapshots[k + 1], x));
      assert snapshots[k][j] == snapshots[k][i] && NoRepeats(snapshots[k]);
    }
  }

  lemma {:induction false} MovesForwardTo<T>(snapshots: seq<seq<T>>, x: T, k: nat, l: nat)
    requires Stays(snapshots, x) && OnlyLoses(snapshots) && k <= l
    ensures PosAt(snapshots, x, l) <= PosAt(snapshots, x, k)
    decreases l
  {
    if k < l {
      MovesForwardTo(snapshots, x, k, l - 1);
      MovesForward(snapshots, x, l - 1);
    }
  }

  lemma SlippedIsMissed<T>(snapshots: seq<seq<T>>, x: T, k: nat, j: nat)
    requires Stays(snapshots, x) && OnlyLoses(snapshots) && SlipsAt(snapshots, x, k)
    ensures !Caught(snapshots, 0, x, j)
  {
    if j > k {
      MovesForwardTo(snapshots, x, k + 1, j);
    }
    var table := At(snapshots, j);
    assert NoRepeats(table);
    forall i | 0 <= i < |table| && table[i] == x
      ensures i == PosAt(snapshots, x, j)
    {
    }
  }

  /** When rows are only lost, a row that stays is returned exactly when it never slips, that is, unless
      the losses before it pull it from beyond one window to before the next. */
  lemma LosingTable<T>(snapshots: seq<seq<T>>, x: T)
    requires Stays(snapshots, x) && OnlyLoses(snapshots)
    ensures x in PagesFrom(snapshots, 0) <==> NeverSlips(snapshots, x)
  {
    if NeverSlips(snapshots, x) {
      ReturnedIfNeverSlips(snapshots, x);
    } else {
      var k: nat :| SlipsAt(snapshots, x, k);
      forall j: nat
        ensures !Caught(snapshots, 0, x, j)
      {
        SlippedIsMissed(snapshots, x, k, j);
      }
      ReturnedExactly(snapshots, x);
    }
  }

  // ---------- the source list ----------

  datatype SourceFilter = SourceFilter(
    service: Option<Service>,
    status: Option<SourceStatus>,
    year: Option<nat>,
    month: Option<nat>)

  predicate Selected(f: SourceFilter, s: SourceFile) {
    && (f.service.Some? ==> s.meta.service == f.service)
    && (f.status.Some? ==> s.status == f.status.value)
    && (f.year.Some? ==> s.meta.year == f.year)
    && (f.month.Some? ==> s.meta.month == f.month)
  }

  /** The ids below a bound that are in a set, in descending order. */
  function Descending(ids: set<nat>, bound: nat): seq<nat> {
    if bound == 0 then []
    else (if bound - 1 in ids then [bound - 1] else []) + Descending(ids, bound - 1)
  }

  function SelectedIds(t: Tables, f: SourceFilter): set<nat> {
    set s | s in t.sources && Selected(f, t.sources[s])
  }

  /** The ordered query behind the source list, before limit and offset. */
  function SourceList(t: Tables, f: SourceFilter): seq<nat> {
    Descending(SelectedIds(t, f), t.nextSource)
  }

  /** The list holds exactly the selected ids, newest first. */
  lemma {:induction false} DescendingIsSorted(ids: set<nat>, bound: nat)
    ensures forall x :: x in Descending(ids, bound) <==> x in ids && x < bound
    ensures forall i :: 0 <= i < |Descending(ids, bound)| ==>
      Descending(ids, bound)[i] in ids && Descending(ids, bound)[i] < bound
    ensures forall i, j :: 0 <= i < j < |Descending(ids, bound)| ==> Descending(ids, bound)[i] > Descending(ids, bound)[j]
  {
    if bound > 0 {
      DescendingIsSorted(ids, bound - 1);
    }
  }

  /** Every source that fits the filter is in the list once, newest first, and no other. */
  lemma SourceListIs(t: Tables, f: SourceFilter, id: nat)
    requires forall s :: s in t.sources ==> s < t.nextSource
    ensures id in SourceList(t, f) <==>
      && id in t.sources
      && (f.service.Some? ==> t.sources[id].meta.service.Some? && t.sources[id].meta.service.value == f.service.value)
      && (f.status.Some? ==> t.sources[id].status == f.status.value)
      && (f.year.Some? ==> t.sources[id].meta.year.Some? && t.sources[id].meta.year.value == f.year.value)
      && (f.month.Some? ==> t.sources[id].meta.month.Some? && t.sources[id].meta.month.value == f.month.value)
    ensures forall i, j :: 0 <= i < j < |SourceList(t, f)| ==> SourceList(t, f)[i] > SourceList(t, f)[j]
  {
    DescendingIsSorted(SelectedIds(t, f), t.nextSource);
  }

  lemma GrownBoth<T>(a: seq<T>, b: seq<T>, x: T)
    requires Grown(a, b)
    ensures Grown([x] + a, [x] + b)
  {
    assert ([x] + a)[1..] == a && ([x] + b)[1..] == b;
  }

  lemma GrownMore<T>(a: seq<T>, b: seq<T>, x: T)
    requires Grown(a, b) && (a != [] ==> a[0] != x)
    ensures Grown(a, [x] + b)
  {
    assert ([x] + b)[1..] == b;
  }

  lemma {:induction false} DescendingGrows(ids: set<nat>, more: set<nat>, bound: nat, higher: nat)
    requires ids <= more && bound <= higher
    ensures Grown(Descending(ids, bound), Descending(more, higher))
    decreases higher
  {
    if higher > 0 {
      var x: nat := higher - 1;
      if bound == higher && x in ids {
        DescendingGrows(ids, more, x, x);
        GrownBoth(Descending(ids, x), Descending(more, x), x);
      } else {
        var lower: nat := if bound == higher then x else bound;
        DescendingGrows(ids, more, lower, x);
        DescendingIsSorted(ids, lower);
        assert Descending(ids, bound) == Descending(ids, lower);
        if x in more {
          GrownMore(Descending(ids, lower), Descending(more, x), x);
        } else {
          assert Descending(more, higher) == Descending(more, x);
        }
      }
    }
  }

  /** While ingestion runs, a source list that does not filter by status only grows; so all of its rows
      are returned, however many sources are registered between the page requests. */
  lemma SourceListGrows(t: Tables, u: Tables, f: SourceFilter)
    requires Evolves(t, u) && f.status.None?
    ensures Grown(SourceList(t, f), SourceList(u, f))
  {
    DescendingGrows(SelectedIds(t, f), SelectedIds(u, f), t.nextSource, u.nextSource);
  }

  lemma PagingOverIngestion(tables: seq<Tables>, f: SourceFilter, id: nat)
    requires tables != [] && f.status.None?
    requires forall k :: 0 <= k < |tables| - 1 ==> Evolves(tables[k], tables[k + 1])
    requires id in tables[0].sources && id < tables[0].nextSource && Selected(f, tables[0].sources[id])
    ensures id in PagesFrom(seq(|tables|, k requires 0 <= k < |tables| => SourceList(tables[k], f)), 0)
  {
    var snapshots := seq(|tables|, k requires 0 <= k < |tables| => SourceList(tables[k], f));
    forall k | 0 <= k < |snapshots| - 1
      ensures Grown(snapshots[k], snapshots[k + 1])
    {
      SourceListGrows(tables[k], tables[k + 1], f);
    }
    DescendingIsSorted(SelectedIds(tables[0], f), tables[0].nextSource);
    assert id in snapshots[0];
    var i :| 0 <= i < |snapshots[0]| && snapshots[0][i] == id;
    GrowingTable(snapshots, i);
  }
}
