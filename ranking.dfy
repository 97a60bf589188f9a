/**
 * Ordering and numbering of the per-key averages: a stable sort by mean,
 * descending, followed by 1-based display indices.
 */
module Ranking {

  /** One aggregate record: a group key and its mean rounded to two places. */
  datatype Aggregate = Aggregate(key: string, mean: real)

  /** One line of the report body: display index, group key, mean. */
  datatype RankedRow = RankedRow(rank: nat, key: string, mean: real)

  predicate SortedDesc(s: seq<Aggregate>)
  {
    forall i, j :: 0 <= i < j < |s| ==> s[i].mean >= s[j].mean
  }

  /**
   * Puts `x` in front of the first element of `t` whose mean is not larger,
   * so that `x` stays before every element of equal mean that followed it.
   */
  function Insert(x: Aggregate, t: seq<Aggregate>): (r: seq<Aggregate>)
    ensures |r| == |t| + 1
    ensures multiset(r) == multiset(t) + multiset{x}
    ensures forall i :: 0 <= i < |r| ==> r[i] == x || r[i] in t
  {
    if t == [] || x.mean >= t[0].mean then [x] + t
    else
      assert t == [t[0]] + t[1..];
      [t[0]] + Insert(x, t[1..])
  }

  lemma {:induction false} InsertSorted(x: Aggregate, t: seq<Aggregate>)
    requires SortedDesc(t)
    ensures SortedDesc(Insert(x, t))
  {
    if t != [] && x.mean < t[0].mean {
      var rest := Insert(x, t[1..]);
      InsertSorted(x, t[1..]);
      forall i | 0 <= i < |rest| ensures t[0].mean >= rest[i].mean {
        if rest[i] != x {
          var k :| 1 <= k < |t| && t[k] == rest[i];
        }
      }
    }
  }

  /** `sorted(items, key=mean, reverse=True)`: stable, by mean descending. */
  function SortByMeanDesc(s: seq<Aggregate>): (r: seq<Aggregate>)
    ensures multiset(r) == multiset(s)
    ensures SortedDesc(r)
  {
    if s == [] then []
    else
      assert s == [s[0]] + s[1..];
      InsertSorted(s[0], SortByMeanDesc(s[1..]));
      Insert(s[0], SortByMeanDesc(s[1..]))
  }

  predicate DistinctKeys(s: seq<Aggregate>)
  {
    forall i, j :: 0 <= i < j < |s| ==> s[i].key != s[j].key
  }

  lemma {:induction false} InsertKeepsDistinctKeys(x: Aggregate, t: seq<Aggregate>)
    requires DistinctKeys(t)
    requires forall y :: y in t ==> y.key != x.key
    ensures DistinctKeys(Insert(x, t))
  {
    if t != [] && x.mean < t[0].mean {
      var rest := Insert(x, t[1..]);
      InsertKeepsDistinctKeys(x, t[1..]);
      forall i | 0 <= i < |rest| ensures rest[i].key != t[0].key {
        if rest[i] != x {
          var k :| 1 <= k < |t| && t[k] == rest[i];
        }
      }
    }
  }

  /** Sorting a list with distinct keys yields a list with distinct keys. */
  lemma {:induction false} SortKeepsDistinctKeys(s: seq<Aggregate>)
    requires DistinctKeys(s)
    ensures DistinctKeys(SortByMeanDesc(s))
  {
    if s != [] {
      var rest := SortByMeanDesc(s[1..]);
      SortKeepsDistinctKeys(s[1..]);
      forall y | y in rest ensures y.key != s[0].key {
        assert y in multiset(s[1..]);
        var k :| 0 <= k < |s[1..]| && s[1..][k] == y;
        assert s[k + 1] == y;
      }
      InsertKeepsDistinctKeys(s[0], rest);
    }
  }

  /** The subsequence of `s` whose mean equals `v`, in the order of `s`. */
  function WithMean(s: seq<Aggregate>, v: real): seq<Aggregate>
  {
    if s == [] then []
    else if s[0].mean == v then [s[0]] + WithMean(s[1..], v)
    else WithMean(s[1..], v)
  }

  lemma {:induction false} InsertStable(x: Aggregate, t: seq<Aggregate>, v: real)
    ensures WithMean(Insert(x, t), v) == if x.mean == v then [x] + WithMean(t, v) else WithMean(t, v)
  {
    if t == [] || x.mean >= t[0].mean {
      assert ([x] + t)[1..] == t;
    } else {
      InsertStable(x, t[1..], v);
      assert ([t[0]] + Insert(x, t[1..]))[1..] == Insert(x, t[1..]);
    }
  }

  /**
   * Stability: among items of equal mean the sort keeps the input order, so
   * the items of every mean form the same subsequence before and after.
   */
  lemma {:induction false} SortStable(s: seq<Aggregate>, v: real)
    ensures WithMean(SortByMeanDesc(s), v) == WithMean(s, v)
  {
    if s != [] {
      SortStable(s[1..], v);
      InsertStable(s[0], SortByMeanDesc(s[1..]), v);
    }
  }

  /** `showindex=range(1, len + 1)`: the i-th row of the table is numbered i + 1. */
  function Ranked(items: seq<Aggregate>): (r: seq<RankedRow>)
  {
    seq(|items|, i requires 0 <= i < |items| => RankedRow(i + 1, items[i].key, items[i].mean))
  }

  /**
   * The display indices are N strictly increasing numbers in 1..N, hence
   * exactly 1..N without gaps or repeats, and the rows carry the items unchanged.
   */
  lemma RankedDense(items: seq<Aggregate>)
    ensures |Ranked(items)| == |items|
    ensures forall i :: 0 <= i < |items| ==> 1 <= Ranked(items)[i].rank <= |items|
    ensures forall i, j :: 0 <= i < j < |items| ==> Ranked(items)[i].rank < Ranked(items)[j].rank
    ensures forall i :: 0 <= i < |items| ==>
      Aggregate(Ranked(items)[i].key, Ranked(items)[i].mean) == items[i]
  {
  }
}
