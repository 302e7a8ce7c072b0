/** The nearest-rank percentile over observations, with the percentile as an exact fraction p/q. */
module Percentile {
  import opened Wrappers

  predicate Sorted(s: seq<int>) {
    forall i, j :: 0 <= i <= j < |s| ==> s[i] <= s[j]
  }

  /** Inserts into a sorted sequence, after equal values. */
  function Insert(s: seq<int>, x: int): (r: seq<int>)
    ensures multiset(r) == multiset(s) + multiset{x}
  {
    if s == [] || s[|s| - 1] <= x then s + [x]
    else
      assert s == s[..|s| - 1] + [s[|s| - 1]];
      Insert(s[..|s| - 1], x) + [s[|s| - 1]]
  }

  lemma {:induction false} InsertSorted(s: seq<int>, x: int)
    requires Sorted(s)
    ensures Sorted(Insert(s, x)) && |Insert(s, x)| == |s| + 1
    ensures Insert(s, x)[|s|] == if s == [] || s[|s| - 1] <= x then x else s[|s| - 1]
  {
    if s == [] || s[|s| - 1] <= x {
      SnocSorted(s, x);
    } else {
      var n := |s| - 1;
      InsertSorted(s[..n], x);
      SnocSorted(Insert(s[..n], x), s[n]);
    }
  }

  lemma SnocSorted(s: seq<int>, x: int)
    requires Sorted(s) && (s == [] || s[|s| - 1] <= x)
    ensures Sorted(s + [x])
  {
  }

  function SortedCopy(s: seq<int>): (r: seq<int>)
    ensures multiset(r) == multiset(s)
  {
    if s == [] then []
    else
      assert s == s[..|s| - 1] + [s[|s| - 1]];
      Insert(SortedCopy(s[..|s| - 1]), s[|s| - 1])
  }

  lemma {:induction false} SortedCopyIsSorted(s: seq<int>)
    ensures Sorted(SortedCopy(s)) && |SortedCopy(s)| == |s|
  {
    if s != [] {
      SortedCopyIsSorted(s[..|s| - 1]);
      InsertSorted(SortedCopy(s[..|s| - 1]), s[|s| - 1]);
    }
    assert |multiset(SortedCopy(s))| == |multiset(s)|;
  }

  datatype PercentileError = NoObservations | BadPercentile

  /** ceil(a/q) for positive a: how often q has to be added up to reach a. */
  function Ceil(a: int, q: nat): int
    requires q > 0
    decreases if a > 0 then a else 0
  {
    if a <= 0 then 0 else 1 + Ceil(a - q, q)
  }

  /** ceil(p/q * n), the one-based rank. */
  function Rank(p: int, q: nat, n: nat): int
    requires q > 0
  {
    Ceil(p * n, q)
  }

  function NearestRank(values: seq<int>, p: int, q: nat): Result<int, PercentileError>
    requires q > 0
  {
    if values == [] then Err(NoObservations)
    else if !(0 < p <= q) then Err(BadPercentile)
    else
      RankInRange(p, q, |values|);
      SortedCopyIsSorted(values);
      Ok(SortedCopy(values)[Rank(p, q, |values|) - 1])
  }

  lemma {:induction false} Ceiling(a: int, q: nat)
    requires q > 0 && a + q > 0
    ensures Ceil(a, q) * q >= a > (Ceil(a, q) - 1) * q
    decreases if a > 0 then a else 0
  {
    if a > 0 {
      Ceiling(a - q, q);
      Distribute(Ceil(a - q, q), q);
    }
  }

  lemma Distribute(c: int, q: int)
    ensures (1 + c) * q == c * q + q && (c - 1) * q == c * q - q
  {
  }

  /** When a percentile is refused. */
  lemma PercentileErrors(values: seq<int>, p: int, q: nat)
    requires q > 0
    ensures NearestRank(values, p, q) == Err(NoObservations) <==> |values| == 0
    ensures NearestRank(values, p, q) == Err(BadPercentile) <==> |values| > 0 && (p <= 0 || p > q)
  {
  }

  lemma Cancel(x: int, y: int, q: nat)
    requires q > 0 && x * q < y * q
    ensures x < y
  {
    if x >= y {
      ScaleUp(x, y, q);
    }
  }

  lemma ScaleUp(a: int, b: int, q: nat)
    requires a >= b
    ensures a * q >= b * q
  {
    assert (a - b) * q >= 0;
  }

  lemma RankInRange(p: int, q: nat, n: nat)
    requires 0 < p <= q && n > 0
    ensures 1 <= Rank(p, q, n) <= n
    ensures Rank(p, q, n) * q >= p * n > (Rank(p, q, n) - 1) * q
  {
    Ceiling(p * n, q);
    ScaleUp(q, p, n);
    ScaleUp(p, 1, n);
    Cancel(Rank(p, q, n) - 1, n, q);
    Cancel(0, Rank(p, q, n), q);
  }

  function AtMost(s: seq<int>, v: int): nat {
    if s == [] then 0 else AtMost(s[..|s| - 1], v) + if s[|s| - 1] <= v then 1 else 0
  }

  function Below(s: seq<int>, v: int): nat {
    AtMost(s, v - 1)
  }

  lemma {:induction false} AtMostSorted(s: seq<int>, v: int, k: nat)
    requires Sorted(s) && k <= |s|
    ensures (forall i :: 0 <= i < k ==> s[i] <= v) ==> AtMost(s, v) >= k
    ensures (forall i :: k <= i < |s| ==> s[i] > v) ==> AtMost(s, v) <= k
  {
    if s != [] {
      var n := |s| - 1;
      AtMostSorted(s[..n], v, if k <= n then k else n);
    }
  }

  lemma {:induction false} AtMostAppend(a: seq<int>, b: seq<int>, v: int)
    ensures AtMost(a + b, v) == AtMost(a, v) + AtMost(b, v)
  {
    if b == [] {
      assert a + b == a;
    } else {
      AtMostAppend(a, b[..|b| - 1], v);
      assert (a + b)[..|a + b| - 1] == a + b[..|b| - 1];
    }
  }

  /** Taking out one occurrence of the last element of a permutation. */
  lemma TakeOut(s: seq<int>, t: seq<int>) returns (k: nat)
    requires s != [] && multiset(s) == multiset(t)
    ensures k < |t| && t[k] == s[|s| - 1] && multiset(s[..|s| - 1]) == multiset(t[..k] + t[k + 1..])
    ensures t == t[..k] + [t[k]] + t[k + 1..]
  {
    var x := s[|s| - 1];
    assert s == s[..|s| - 1] + [x];
    assert x in multiset(t);
    k :| 0 <= k < |t| && t[k] == x;
    assert t == t[..k] + [t[k]] + t[k + 1..];
    assert multiset(s) == multiset(s[..|s| - 1]) + multiset{x};
    assert multiset(t) == multiset(t[..k]) + multiset{x} + multiset(t[k + 1..]);
    assert multiset(s[..|s| - 1]) == multiset(s) - multiset{x};
    assert multiset(t[..k] + t[k + 1..]) == multiset(t) - multiset{x};
  }

  lemma {:induction false} AtMostPermuted(s: seq<int>, t: seq<int>, v: int)
    requires multiset(s) == multiset(t)
    ensures AtMost(s, v) == AtMost(t, v)
    decreases |s|
  {
    if s == [] {
      assert |multiset(t)| == 0;
    } else {
      var k := TakeOut(s, t);
      AtMostPermuted(s[..|s| - 1], t[..k] + t[k + 1..], v);
      AtMostAppend(t[..k], t[k + 1..], v);
      AtMostAppend(t[..k] + [t[k]], t[k + 1..], v);
      AtMostAppend(t[..k], [t[k]], v);
    }
  }

  lemma SameLast(s: seq<int>, t: seq<int>)
    requires Sorted(s) && Sorted(t) && multiset(s) == multiset(t) && s != []
    ensures |t| == |s| && t[|t| - 1] == s[|s| - 1]
  {
    var n := |s| - 1;
    assert |multiset(t)| == |multiset(s)|;
    assert s[n] in multiset(t) && t[n] in multiset(s);
  }

  lemma WithoutLast(s: seq<int>)
    requires s != []
    ensures multiset(s[..|s| - 1]) == multiset(s) - multiset{s[|s| - 1]}
  {
    assert s == s[..|s| - 1] + [s[|s| - 1]];
  }

  lemma {:induction false} SortedIsUnique(s: seq<int>, t: seq<int>)
    requires Sorted(s) && Sorted(t) && multiset(s) == multiset(t)
    ensures s == t
    decreases |s|
  {
    if s == [] {
      assert |multiset(t)| == 0;
    } else {
      var n := |s| - 1;
      SameLast(s, t);
      WithoutLast(s);
      WithoutLast(t);
      SortedIsUnique(s[..n], t[..n]);
      SameSnoc(s, t);
    }
  }

  lemma SameSnoc(s: seq<int>, t: seq<int>)
    requires |s| == |t| > 0 && s[..|s| - 1] == t[..|t| - 1] && s[|s| - 1] == t[|t| - 1]
    ensures s == t
  {
    assert s == s[..|s| - 1] + [s[|s| - 1]] && t == t[..|t| - 1] + [t[|t| - 1]];
  }

  /** The answer does not depend on the order of the observations. */
  lemma OrderDoesNotMatter(values: seq<int>, others: seq<int>, p: int, q: nat)
    requires q > 0 && multiset(values) == multiset(others)
    ensures NearestRank(values, p, q) == NearestRank(others, p, q)
  {
    assert |multiset(values)| == |multiset(others)|;
    SortedCopyIsSorted(values);
    SortedCopyIsSorted(others);
    SortedIsUnique(SortedCopy(values), SortedCopy(others));
  }

  /** At least p/q of the observations are at most this value, fewer than p/q lie strictly below it, and
      it is one of them. */
  ghost predicate IsPercentile(values: seq<int>, v: int, p: int, q: nat) {
    v in values && AtMost(values, v) * q >= p * |values| && Below(values, v) * q < p * |values|
  }

  lemma NearestRankMeaning(values: seq<int>, p: int, q: nat)
    requires values != [] && 0 < p <= q
    ensures NearestRank(values, p, q).Ok? && IsPercentile(values, NearestRank(values, p, q).value, p, q)
  {
    SortedCopyIsSorted(values);
    RankInRange(p, q, |values|);
    IsRanked(values, SortedCopy(values), p, q, Rank(p, q, |values|));
  }

  /** The observation at the rank in the sorted copy has the meaning of the percentile. */
  lemma IsRanked(values: seq<int>, ordered: seq<int>, p: int, q: nat, rank: nat)
    requires Sorted(ordered) && multiset(ordered) == multiset(values) && 1 <= rank <= |ordered|
    requires rank * q >= p * |values| > (rank - 1) * q
    ensures IsPercentile(values, ordered[rank - 1], p, q)
  {
    var v := ordered[rank - 1];
    assert v in multiset(ordered) && v in multiset(values);
    RankMeans(values, ordered, rank, v, p * |values|, q);
  }

  lemma RankMeans(values: seq<int>, ordered: seq<int>, rank: nat, v: int, share: int, q: nat)
    requires Sorted(ordered) && multiset(ordered) == multiset(values) && 1 <= rank <= |ordered|
    requires ordered[rank - 1] == v
    requires rank * q >= share > (rank - 1) * q
    ensures AtMost(values, v) * q >= share && Below(values, v) * q < share
  {
    RankCounts(values, ordered, rank, v);
    ScaleUp(AtMost(values, v), rank, q);
    ScaleUp(rank - 1, Below(values, v), q);
  }

  lemma RankCounts(values: seq<int>, ordered: seq<int>, rank: nat, v: int)
    requires Sorted(ordered) && multiset(ordered) == multiset(values) && 1 <= rank <= |ordered|
    requires ordered[rank - 1] == v
    ensures AtMost(values, v) >= rank && Below(values, v) <= rank - 1
  {
    AtMostSorted(ordered, v, rank);
    AtMostSorted(ordered, v - 1, rank - 1);
    AtMostPermuted(ordered, values, v);
    AtMostPermuted(ordered, values, v - 1);
  }
}
