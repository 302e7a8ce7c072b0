/** The relational operators that the warehouse and the quality queries are made of. */
module Relational {
  import opened Wrappers

  /** The rows of the right side that a left row matches. */
  function Hits<L, R>(l: L, rs: seq<R>, on: (L, R) -> bool): seq<R> {
    if rs == [] then []
    else Hits(l, rs[..|rs| - 1], on) + if on(l, rs[|rs| - 1]) then [rs[|rs| - 1]] else []
  }

  /** What a left outer join makes of one left row: one row for every match, or one without. */
  function Joined<L, R>(l: L, rs: seq<R>, on: (L, R) -> bool, put: (L, Option<R>) -> L): seq<L> {
    var hits := Hits(l, rs, on);
    if hits == [] then [put(l, None)]
    else seq(|hits|, i requires 0 <= i < |hits| => put(l, Some(hits[i])))
  }

  function LeftJoin<L, R>(ls: seq<L>, rs: seq<R>, on: (L, R) -> bool, put: (L, Option<R>) -> L): seq<L> {
    if ls == [] then []
    else LeftJoin(ls[..|ls| - 1], rs, on, put) + Joined(ls[|ls| - 1], rs, on, put)
  }

  ghost predicate AtMostOneHit<L, R>(l: L, rs: seq<R>, on: (L, R) -> bool) {
    forall i, j :: 0 <= i < |rs| && 0 <= j < |rs| && on(l, rs[i]) && on(l, rs[j]) ==> i == j
  }

  /** `found` is the one matching row, or there is none. */
  ghost predicate Finds<L, R>(l: L, rs: seq<R>, on: (L, R) -> bool, found: Option<R>) {
    match found
    case Some(r) => r in rs && on(l, r)
    case None => forall i :: 0 <= i < |rs| ==> !on(l, rs[i])
  }

  lemma {:induction false} HitsOfNone<L, R>(l: L, rs: seq<R>, on: (L, R) -> bool)
    requires forall i :: 0 <= i < |rs| ==> !on(l, rs[i])
    ensures Hits(l, rs, on) == []
  {
    if rs != [] {
      HitsOfNone(l, rs[..|rs| - 1], on);
    }
  }

  lemma {:induction false} HitsOfOne<L, R>(l: L, rs: seq<R>, on: (L, R) -> bool, k: nat)
    requires k < |rs| && on(l, rs[k])
    requires forall i :: 0 <= i < |rs| && on(l, rs[i]) ==> i == k
    ensures Hits(l, rs, on) == [rs[k]]
  {
    var n := |rs| - 1;
    if k == n {
      HitsOfNone(l, rs[..n], on);
    } else {
      HitsOfOne(l, rs[..n], on, k);
    }
  }

  lemma JoinedOne<L, R>(l: L, rs: seq<R>, on: (L, R) -> bool, put: (L, Option<R>) -> L, found: Option<R>)
    requires AtMostOneHit(l, rs, on) && Finds(l, rs, on, found)
    ensures Joined(l, rs, on, put) == [put(l, found)]
  {
    match found
    case Some(r) =>
      var k :| 0 <= k < |rs| && rs[k] == r;
      HitsOfOne(l, rs, on, k);
    case None =>
      HitsOfNone(l, rs, on);
  }

  /** A left join whose rows match at most once keeps the grain: row for row, with the match attached. */
  lemma LeftJoinKeepsGrain<L, R>(ls: seq<L>, rs: seq<R>, on: (L, R) -> bool,
                                 put: (L, Option<R>) -> L, found: seq<Option<R>>)
    requires |found| == |ls|
    requires forall k :: 0 <= k < |ls| ==> AtMostOneHit(ls[k], rs, on) && Finds(ls[k], rs, on, found[k])
    ensures |LeftJoin(ls, rs, on, put)| == |ls|
    ensures forall k :: 0 <= k < |ls| ==> LeftJoin(ls, rs, on, put)[k] == put(ls[k], found[k])
  {
    var rows := seq(|ls|, k requires 0 <= k < |ls| => put(ls[k], found[k]));
    forall k | 0 <= k < |ls|
      ensures Joined(ls[k], rs, on, put) == [rows[k]]
    {
      JoinedOne(ls[k], rs, on, put, found[k]);
    }
    LeftJoinSingles(ls, rs, on, put, rows);
  }

  lemma {:induction false} LeftJoinSingles<L, R>(ls: seq<L>, rs: seq<R>, on: (L, R) -> bool,
                                                 put: (L, Option<R>) -> L, rows: seq<L>)
    requires |rows| == |ls|
    requires forall k {:trigger Joined(ls[k], rs, on, put)} :: 0 <= k < |ls| ==> Joined(ls[k], rs, on, put) == [rows[k]]
    ensures LeftJoin(ls, rs, on, put) == rows
  {
    if ls != [] {
      var n := |ls| - 1;
      LeftJoinSingles(ls[..n], rs, on, put, rows[..n]);
      LeftJoinOneMore(ls[..n], ls[n], rs, on, put, rows[..n], rows[n]);
      assert ls == ls[..n] + [ls[n]] && rows == rows[..n] + [rows[n]];
    }
  }

  lemma LeftJoinOneMore<L, R>(ls: seq<L>, l: L, rs: seq<R>, on: (L, R) -> bool, put: (L, Option<R>) -> L,
                              rows: seq<L>, row: L)
    requires LeftJoin(ls, rs, on, put) == rows && Joined(l, rs, on, put) == [row]
    ensures LeftJoin(ls + [l], rs, on, put) == rows + [row]
  {
    assert (ls + [l])[..|ls|] == ls;
  }

  /** The distinct values of a sequence, in order of first appearance. */
  function Distinct<T(==)>(s: seq<T>): seq<T> {
    if s == [] then []
    else
      var rest := Distinct(s[..|s| - 1]);
      if s[|s| - 1] in s[..|s| - 1] then rest else rest + [s[|s| - 1]]
  }

  lemma {:induction false} DistinctIsDistinct<T>(s: seq<T>)
    ensures forall x :: x in Distinct(s) <==> x in s
    ensures forall i :: 0 <= i < |Distinct(s)| ==> Distinct(s)[i] in s
    ensures forall i, j :: 0 <= i < |Distinct(s)| && 0 <= j < |Distinct(s)| && Distinct(s)[i] == Distinct(s)[j] ==> i == j
  {
    if s != [] {
      var n := |s| - 1;
      DistinctIsDistinct(s[..n]);
      assert s == s[..n] + [s[n]];
    }
  }

  // ---------- inner joins ----------

  function InnerJoin<L, R>(ls: seq<L>, rs: seq<R>, on: (L, R) -> bool): seq<(L, R)> {
    if ls == [] then []
    else
      var l := ls[|ls| - 1];
      var hits := Hits(l, rs, on);
      InnerJoin(ls[..|ls| - 1], rs, on) + seq(|hits|, i requires 0 <= i < |hits| => (l, hits[i]))
  }

  lemma {:induction false} HitsAppend<L, R>(l: L, a: seq<R>, b: seq<R>, on: (L, R) -> bool)
    ensures Hits(l, a + b, on) == Hits(l, a, on) + Hits(l, b, on)
  {
    if b == [] {
      assert a + b == a;
    } else {
      HitsAppend(l, a, b[..|b| - 1], on);
      assert (a + b)[..|a + b| - 1] == a + b[..|b| - 1];
    }
  }

  // ---------- selection and grouping ----------

  function CountIf<T>(s: seq<T>, p: T -> bool): nat {
    if s == [] then 0 else CountIf(s[..|s| - 1], p) + if p(s[|s| - 1]) then 1 else 0
  }

  lemma {:induction false} CountIfBounded<T>(s: seq<T>, p: T -> bool)
    ensures CountIf(s, p) <= |s|
  {
    if s != [] {
      CountIfBounded(s[..|s| - 1], p);
    }
  }

  lemma {:induction false} CountIfAppend<T>(a: seq<T>, b: seq<T>, p: T -> bool)
    ensures CountIf(a + b, p) == CountIf(a, p) + CountIf(b, p)
  {
    if b == [] {
      assert a + b == a;
    } else {
      CountIfAppend(a, b[..|b| - 1], p);
      assert (a + b)[..|a + b| - 1] == a + b[..|b| - 1];
    }
  }

  lemma {:induction false} CountIfUniform<T>(s: seq<T>, p: T -> bool, holds: bool)
    requires forall k :: 0 <= k < |s| ==> p(s[k]) == holds
    ensures CountIf(s, p) == if holds then |s| else 0
  {
    if s != [] {
      CountIfUniform(s[..|s| - 1], p, holds);
    }
  }

  /** Counting joined rows by a condition on the left row: when every left row has one match, or two for
      the rows of `twice`, the count is that of the left rows, with the rows of `twice` counted again. */
  lemma {:induction false} InnerJoinCount<L(!new), R(!new)>(ls: seq<L>, rs: seq<R>, on: (L, R) -> bool, p: L -> bool,
                                               joined: ((L, R)) -> bool, twice: L -> bool, again: L -> bool)
    requires forall k :: 0 <= k < |ls| ==> |Hits(ls[k], rs, on)| == if twice(ls[k]) then 2 else 1
    requires forall pair :: joined(pair) == p(pair.0)
    requires forall l :: again(l) == (p(l) && twice(l))
    ensures CountIf(InnerJoin(ls, rs, on), joined) == CountIf(ls, p) + CountIf(ls, again)
  {
    if ls != [] {
      var n := |ls| - 1;
      InnerJoinCount(ls[..n], rs, on, p, joined, twice, again);
      var hits := Hits(ls[n], rs, on);
      var last := seq(|hits|, i requires 0 <= i < |hits| => (ls[n], hits[i]));
      CountIfUniform(last, joined, p(ls[n]));
      CountIfAppend(InnerJoin(ls[..n], rs, on), last, joined);
    }
  }

  lemma {:induction false} HitsCount<L, R>(l: L, rs: seq<R>, on: (L, R) -> bool, z: R)
    ensures multiset(Hits(l, rs, on))[z] == if on(l, z) then multiset(rs)[z] else 0
  {
    if rs != [] {
      var n := |rs| - 1;
      HitsCount(l, rs[..n], on, z);
      assert rs == rs[..n] + [rs[n]];
    }
  }

  /** The joined rows of one left row that have this right row. */
  lemma {:induction false} PairsCount<L, R(!new)>(l: L, hits: seq<R>, z: R, holds: bool, q: ((L, R)) -> bool)
    requires forall r: R :: q((l, r)) == (holds && r == z)
    ensures CountIf(seq(|hits|, i requires 0 <= i < |hits| => (l, hits[i])), q) == if holds then multiset(hits)[z] else 0
  {
    if hits != [] {
      var n := |hits| - 1;
      var pairs := seq(|hits|, i requires 0 <= i < |hits| => (l, hits[i]));
      PairsCount(l, hits[..n], z, holds, q);
      assert pairs[..n] == seq(n, i requires 0 <= i < n => (l, hits[..n][i]));
      assert hits == hits[..n] + [hits[n]];
    }
  }

  /** `n` times `c`, by addition. */
  function Times(n: nat, c: nat): nat {
    if n == 0 then 0 else Times(n - 1, c) + c
  }

  lemma {:induction false} TimesOnce(n: nat)
    ensures Times(n, 0) == 0 && Times(n, 1) == n
  {
    if n > 0 {
      TimesOnce(n - 1);
    }
  }

  /** Joined rows with one right row: as many as left rows match it, for every copy of it. */
  lemma {:induction false} InnerJoinCountOf<L(!new), R(!new)>(ls: seq<L>, rs: seq<R>, on: (L, R) -> bool, z: R,
                                              p: L -> bool,
                                                        q: ((L, R)) -> bool, mine: L -> bool)
    requires forall l, r: R :: q((l, r)) == (p(l) && r == z)
    requires forall l :: mine(l) == (p(l) && on(l, z))
    ensures CountIf(InnerJoin(ls, rs, on), q) == Times(CountIf(ls, mine), multiset(rs)[z])
  {
    if ls != [] {
      var n := |ls| - 1;
      InnerJoinCountOf(ls[..n], rs, on, z, p, q, mine);
      JoinOneMore(ls[..n], ls[n], rs, on, z, p(ls[n]), q);
      assert ls == ls[..n] + [ls[n]];
    }
  }

  lemma JoinOneMore<L, R(!new)>(ls: seq<L>, l: L, rs: seq<R>, on: (L, R) -> bool, z: R, holds: bool,
                         q: ((L, R)) -> bool)
    requires forall r: R :: q((l, r)) == (holds && r == z)
    ensures CountIf(InnerJoin(ls + [l], rs, on), q)
         == CountIf(InnerJoin(ls, rs, on), q) + if holds && on(l, z) then multiset(rs)[z] else 0
  {
    var hits := Hits(l, rs, on);
    HitsCount(l, rs, on, z);
    PairsCount(l, hits, z, holds, q);
    assert (ls + [l])[..|ls|] == ls;
    CountIfAppend(InnerJoin(ls, rs, on), seq(|hits|, i requires 0 <= i < |hits| => (l, hits[i])), q);
  }


  lemma {:induction false} OneIndex<T>(s: seq<T>, k: nat)
    requires k < |s| && forall i :: 0 <= i < |s| && s[i] == s[k] ==> i == k
    ensures multiset(s)[s[k]] == 1
  {
    var n := |s| - 1;
    assert s == s[..n] + [s[n]];
    if k < n {
      OneIndex(s[..n], k);
    } else {
      assert s[n] !in s[..n];
    }
  }

  lemma {:induction false} CountIfSame<S, T>(s: seq<S>, p: S -> bool, t: seq<T>, q: T -> bool)
    requires |s| == |t| && forall k :: 0 <= k < |s| ==> p(s[k]) == q(t[k])
    ensures CountIf(s, p) == CountIf(t, q)
  {
    if s != [] {
      CountIfSame(s[..|s| - 1], p, t[..|t| - 1], q);
    }
  }

  /** The group keys of the selected rows, in row order. */
  function KeysIf<T, K>(s: seq<T>, p: T -> bool, key: T -> K): seq<K> {
    if s == [] then []
    else KeysIf(s[..|s| - 1], p, key) + if p(s[|s| - 1]) then [key(s[|s| - 1])] else []
  }

  lemma {:induction false} KeysIfLength<T, K>(s: seq<T>, p: T -> bool, key: T -> K)
    ensures |KeysIf(s, p, key)| == CountIf(s, p)
  {
    if s != [] {
      KeysIfLength(s[..|s| - 1], p, key);
    }
  }

  lemma {:induction false} KeysIfCount<T(!new), K>(s: seq<T>, p: T -> bool, key: T -> K, k: K, q: T -> bool)
    requires forall x :: q(x) == (p(x) && key(x) == k)
    ensures multiset(KeysIf(s, p, key))[k] == CountIf(s, q)
  {
    if s != [] {
      KeysIfCount(s[..|s| - 1], p, key, k, q);
    }
  }

  /** Grouping: every distinct key once, with the number of its rows. */
  function GroupBy<K(==)>(keys: seq<K>): seq<(K, nat)> {
    var d := Distinct(keys);
    seq(|d|, i requires 0 <= i < |d| => (d[i], multiset(keys)[d[i]]))
  }

  function Total<K>(groups: seq<(K, nat)>): nat {
    if groups == [] then 0 else Total(groups[..|groups| - 1]) + groups[|groups| - 1].1
  }

  /** The groups list exactly the values of `m`, each once and with its multiplicity. */
  ghost predicate Lists<K>(groups: seq<(K, nat)>, m: multiset<K>) {
    && (forall i :: 0 <= i < |groups| ==> groups[i].0 in m && groups[i].1 == m[groups[i].0])
    && (forall i, j :: 0 <= i < |groups| && 0 <= j < |groups| && groups[i].0 == groups[j].0 ==> i == j)
    && (forall k :: k in m ==> exists i :: 0 <= i < |groups| && groups[i].0 == k)
  }

  lemma GroupByLists<K>(keys: seq<K>)
    ensures Lists(GroupBy(keys), multiset(keys))
  {
    DistinctIsDistinct(keys);
    var d, groups := Distinct(keys), GroupBy(keys);
    forall i | 0 <= i < |groups|
      ensures groups[i].0 in multiset(keys) && groups[i].1 == multiset(keys)[groups[i].0]
    {
      assert d[i] in keys;
    }
    forall k | k in multiset(keys)
      ensures exists i :: 0 <= i < |groups| && groups[i].0 == k
    {
      assert k in keys && k in d;
      var i :| 0 <= i < |d| && d[i] == k;
      assert groups[i].0 == k;
    }
  }

  lemma ListsInit<K>(groups: seq<(K, nat)>, m: multiset<K>)
    requires Lists(groups, m) && groups != []
    ensures
      var last := groups[|groups| - 1];
      Lists(groups[..|groups| - 1], m[last.0 := 0]) && last.0 in m && last.1 == m[last.0]
  {
    var n := |groups| - 1;
    var less := m[groups[n].0 := 0];
    forall x | x in less
      ensures exists i :: 0 <= i < n && groups[..n][i].0 == x
    {
      var i :| 0 <= i < |groups| && groups[i].0 == x;
      assert groups[..n][i].0 == x;
    }
  }

  lemma {:induction false} TotalOfListed<K>(groups: seq<(K, nat)>, m: multiset<K>)
    requires Lists(groups, m)
    ensures Total(groups) == |m|
  {
    if groups == [] {
      assert m == multiset{};
    } else {
      var n := |groups| - 1;
      ListsInit(groups, m);
      TotalOfListed(groups[..n], m[groups[n].0 := 0]);
    }
  }

  /** The group counts sum to the number of rows. */
  lemma GroupsConserve<K>(keys: seq<K>)
    ensures Total(GroupBy(keys)) == |keys|
  {
    GroupByLists(keys);
    TotalOfListed(GroupBy(keys), multiset(keys));
  }

  /** The groups whose key satisfies a condition. */
  function Where<K>(groups: seq<(K, nat)>, p: K -> bool): seq<(K, nat)> {
    if groups == [] then []
    else
      var last := groups[|groups| - 1];
      Where(groups[..|groups| - 1], p) + if p(last.0) then [last] else []
  }

  lemma ListedAt<K>(groups: seq<(K, nat)>, m: multiset<K>, all: seq<(K, nat)>, x: K)
    requires Lists(groups, m) && x in m && groups <= all
    ensures exists i :: 0 <= i < |all| && all[i].0 == x
  {
    var i :| 0 <= i < |groups| && groups[i].0 == x;
    assert all[i] == groups[i];
  }

  lemma ListsSnoc<K>(groups: seq<(K, nat)>, m: multiset<K>, k: K)
    requires Lists(groups, m[k := 0]) && k in m
    ensures Lists(groups + [(k, m[k])], m)
  {
    var all, less := groups + [(k, m[k])], m[k := 0];
    forall i | 0 <= i < |groups|
      ensures all[i].0 in m && all[i].0 != k && all[i].1 == m[all[i].0]
    {
      assert groups[i].0 in less && groups[i].1 == less[groups[i].0];
    }
    forall x | x in m
      ensures exists i :: 0 <= i < |all| && all[i].0 == x
    {
      if x == k {
        assert all[|groups|].0 == x;
      } else {
        ListedAt(groups, less, all, x);
      }
    }
  }

  lemma {:induction false} WhereLists<K>(groups: seq<(K, nat)>, m: multiset<K>, p: K -> bool, chosen: multiset<K>)
    requires Lists(groups, m) && forall k :: chosen[k] == if p(k) then m[k] else 0
    ensures Lists(Where(groups, p), chosen)
  {
    if groups == [] {
      assert chosen == multiset{};
    } else {
      var n := |groups| - 1;
      var (k, c) := groups[n];
      ListsInit(groups, m);
      WhereLists(groups[..n], m[k := 0], p, chosen[k := 0]);
      if p(k) {
        ListsSnoc(Where(groups[..n], p), chosen, k);
      } else {
        assert chosen[k := 0] == chosen;
      }
    }
  }

  lemma {:induction false} ChosenKeys<K>(keys: seq<K>, p: K -> bool, k: K)
    ensures multiset(KeysIf(keys, p, (x: K) => x))[k] == if p(k) then multiset(keys)[k] else 0
  {
    if keys != [] {
      var n := |keys| - 1;
      ChosenKeys(keys[..n], p, k);
      assert keys == keys[..n] + [keys[n]];
    }
  }

  /** The rows in the groups that satisfy a condition are the rows whose key satisfies it. */
  lemma WhereTotal<K>(keys: seq<K>, p: K -> bool)
    ensures Total(Where(GroupBy(keys), p)) == CountIf(keys, p)
  {
    var chosen := KeysIf(keys, p, (x: K) => x);
    forall k
      ensures multiset(chosen)[k] == if p(k) then multiset(keys)[k] else 0
    {
      ChosenKeys(keys, p, k);
    }
    GroupByLists(keys);
    WhereLists(GroupBy(keys), multiset(keys), p, multiset(chosen));
    TotalOfListed(Where(GroupBy(keys), p), multiset(chosen));
    KeysIfLength(keys, p, (x: K) => x);
  }

  lemma {:induction false} CountIfSplits<T>(s: seq<T>, p: T -> bool, q: T -> bool)
    requires forall k :: 0 <= k < |s| ==> q(s[k]) == !p(s[k])
    ensures CountIf(s, p) + CountIf(s, q) == |s|
  {
    if s != [] {
      CountIfSplits(s[..|s| - 1], p, q);
    }
  }

  lemma SameMember<T>(xs: seq<T>, ys: seq<T>, k: nat) returns (i: nat)
    requires multiset(xs) == multiset(ys) && k < |xs|
    ensures i < |ys| && ys[i] == xs[k]
  {
    assert xs[k] in multiset(xs) && xs[k] in multiset(ys);
    i :| 0 <= i < |ys| && ys[i] == xs[k];
  }
}
