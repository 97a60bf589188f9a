/**
 * The non-rendering part of the report: per-key running sums and counts,
 * rounded means, the stable descending sort and the display indices.
 */
module Aggregator {
  import opened Common
  import opened Decimal
  import opened Ranking

  /** What one call produces: nothing but the diagnostic, or the table's header and rows. */
  datatype ReportOutcome = NoData | Table(header: seq<string>, rows: seq<RankedRow>)

  function KeysOf(s: seq<Pair>): (ks: seq<string>)
    ensures |ks| == |s| && forall i :: 0 <= i < |s| ==> ks[i] == s[i].key
  {
    seq(|s|, i requires 0 <= i < |s| => s[i].key)
  }

  lemma KeysOfInit(s: seq<Pair>)
    requires s != []
    ensures KeysOf(s) == KeysOf(Init(s)) + [Last(s).key]
  {
  }

  /** Index of the first pair whose key is `k`. */
  function FirstIndex(s: seq<Pair>, k: string): (r: nat)
    requires k in KeysOf(s)
    ensures r < |s| && s[r].key == k
    ensures forall q :: 0 <= q < r ==> s[q].key != k
  {
    KeysOfInit(s);
    if k in KeysOf(Init(s)) then FirstIndex(Init(s), k) else |s| - 1
  }

  /** The distinct keys of `s` in order of first appearance: the key order of the sum dictionary. */
  function KeysInOrder(s: seq<Pair>): (ks: seq<string>)
  {
    if s == [] then []
    else
      var ks := KeysInOrder(Init(s));
      if Last(s).key in ks then ks else ks + [Last(s).key]
  }

  /** Number of pairs with key `k`. */
  function CountFor(s: seq<Pair>, k: string): nat
  {
    if s == [] then 0 else CountFor(Init(s), k) + (if Last(s).key == k then 1 else 0)
  }

  /** Sum of the values of the pairs with key `k`. */
  function SumFor(s: seq<Pair>, k: string): real
  {
    if s == [] then 0.0 else SumFor(Init(s), k) + (if Last(s).key == k then Last(s).value else 0.0)
  }

  /** `round(sum / count, 2)` for key `k`. */
  function Mean(s: seq<Pair>, k: string): real
    requires CountFor(s, k) > 0
  {
    Round2(SumFor(s, k) / CountFor(s, k) as real)
  }

  /**
   * The keys in first-appearance order are each key of the input exactly once,
   * and a key listed before another first occurs earlier in the input.
   */
  lemma {:induction false} KeysInOrderSpec(s: seq<Pair>)
    ensures forall k :: k in KeysInOrder(s) <==> k in KeysOf(s)
    ensures forall i, j :: 0 <= i < j < |KeysInOrder(s)| ==> KeysInOrder(s)[i] != KeysInOrder(s)[j]
    ensures forall i, j :: 0 <= i < j < |KeysInOrder(s)| ==>
      FirstIndex(s, KeysInOrder(s)[i]) < FirstIndex(s, KeysInOrder(s)[j])
  {
    if s != [] {
      KeysInOrderSpec(Init(s));
      KeysOfInit(s);
      var ks, ks0 := KeysInOrder(s), KeysInOrder(Init(s));
      forall i | 0 <= i < |ks0| ensures FirstIndex(s, ks0[i]) == FirstIndex(Init(s), ks0[i]) {
      }
    }
  }

  /** The count of a key is its multiplicity among the input keys. */
  lemma {:induction false} CountIsMultiplicity(s: seq<Pair>, k: string)
    ensures CountFor(s, k) == multiset(KeysOf(s))[k]
  {
    if s != [] {
      CountIsMultiplicity(Init(s), k);
      KeysOfInit(s);
    }
  }

  lemma CountPositive(s: seq<Pair>, k: string)
    ensures CountFor(s, k) > 0 <==> k in KeysOf(s)
  {
    CountIsMultiplicity(s, k);
  }

  /** Aggregating two batches one after the other adds their sums and counts. */
  lemma {:induction false} SumCountAdditive(a: seq<Pair>, b: seq<Pair>, k: string)
    ensures SumFor(a + b, k) == SumFor(a, k) + SumFor(b, k)
    ensures CountFor(a + b, k) == CountFor(a, k) + CountFor(b, k)
  {
    if b != [] {
      assert Init(a + b) == a + Init(b);
      assert Last(a + b) == Last(b);
      SumCountAdditive(a, Init(b), k);
    } else {
      assert a + b == a;
    }
  }

  /** Values of other keys contribute nothing: with no pair of key `k` the sum is 0. */
  lemma {:induction false} SumOfAbsentKey(s: seq<Pair>, k: string)
    requires CountFor(s, k) == 0
    ensures SumFor(s, k) == 0.0
  {
    if s != [] {
      SumOfAbsentKey(Init(s), k);
    }
  }

  lemma {:induction false} SumOfSingleton(s: seq<Pair>, k: string, i: nat)
    requires i < |s| && s[i].key == k && CountFor(s, k) == 1
    ensures SumFor(s, k) == s[i].value
  {
    if i == |s| - 1 {
      SumOfAbsentKey(Init(s), k);
    } else {
      CountPositive(Init(s), k);
      assert KeysOf(Init(s))[i] == k;
      SumOfSingleton(Init(s), k, i);
    }
  }

  /** A key seen once averages to its own value, rounded to two places. */
  lemma MeanOfSingleton(s: seq<Pair>, k: string, i: nat)
    requires i < |s| && s[i].key == k && CountFor(s, k) == 1
    ensures Mean(s, k) == Round2(s[i].value)
  {
    SumOfSingleton(s, k, i);
  }

  /** `n` copies of `x` added up, so that bounds on a running sum stay linear. */
  function Times(n: nat, x: real): real
  {
    if n == 0 then 0.0 else Times(n - 1, x) + x
  }

  lemma {:induction false} TimesIsProduct(n: nat, x: real)
    ensures Times(n, x) == n as real * x
  {
    if n > 0 {
      TimesIsProduct(n - 1, x);
    }
  }

  /** With every value of `k` between `lo` and `hi`, the sum lies between count times each bound. */
  lemma {:induction false} SumBounds(s: seq<Pair>, k: string, lo: real, hi: real)
    requires forall i :: 0 <= i < |s| && s[i].key == k ==> lo <= s[i].value <= hi
    ensures Times(CountFor(s, k), lo) <= SumFor(s, k) <= Times(CountFor(s, k), hi)
  {
    if s != [] {
      SumBounds(Init(s), k, lo, hi);
      if Last(s).key == k {
        assert s[|s| - 1] == Last(s);
      }
    }
  }

  /** A sum between `n` copies of `lo` and of `hi` averages, over `n`, to between the two. */
  lemma DivisionBounds(n: nat, sum: real, lo: real, hi: real)
    requires n > 0 && Times(n, lo) <= sum <= Times(n, hi)
    ensures lo <= sum / n as real <= hi
  {
    TimesIsProduct(n, lo);
    TimesIsProduct(n, hi);
    var c := n as real;
    assert sum == (sum / c) * c;
  }

  lemma UnroundedMeanBounds(s: seq<Pair>, k: string, lo: real, hi: real)
    requires CountFor(s, k) > 0
    requires forall i :: 0 <= i < |s| && s[i].key == k ==> lo <= s[i].value <= hi
    ensures lo <= SumFor(s, k) / CountFor(s, k) as real <= hi
  {
    SumBounds(s, k, lo, hi);
    DivisionBounds(CountFor(s, k), SumFor(s, k), lo, hi);
  }

  /** The mean of a key lies between its smallest and largest values, both rounded. */
  lemma MeanBetween(s: seq<Pair>, k: string, lo: real, hi: real)
    requires CountFor(s, k) > 0
    requires forall i :: 0 <= i < |s| && s[i].key == k ==> lo <= s[i].value <= hi
    ensures Round2(lo) <= Mean(s, k) <= Round2(hi)
  {
    var m := SumFor(s, k) / CountFor(s, k) as real;
    assert lo <= m <= hi by { UnroundedMeanBounds(s, k, lo, hi); }
    Round2Monotone(lo, m);
    Round2Monotone(m, hi);
  }

  /** The aggregate records in the key order of the sum dictionary. */
  function Aggregates(s: seq<Pair>): (r: seq<Aggregate>)
    ensures |r| == |KeysInOrder(s)|
    ensures forall i :: 0 <= i < |r| ==>
      && r[i].key == KeysInOrder(s)[i]
      && CountFor(s, r[i].key) > 0
      && r[i].mean == Mean(s, r[i].key)
    ensures DistinctKeys(r)
  {
    KeysInOrderSpec(s);
    var ks := KeysInOrder(s);
    assert forall i :: 0 <= i < |ks| ==> CountFor(s, ks[i]) > 0 by {
      forall i | 0 <= i < |ks| ensures CountFor(s, ks[i]) > 0 { CountPositive(s, ks[i]); }
    }
    seq(|ks|, i requires 0 <= i < |ks| => Aggregate(ks[i], Mean(s, ks[i])))
  }

  /** The whole of what `create_report` computes before rendering. */
  function Report(data: seq<Pair>, header: seq<string>): (r: ReportOutcome)
    ensures r.NoData? <==> data == []
    ensures r.Table? ==> r.header == header && |r.rows| == |KeysInOrder(data)|
  {
    if data == [] then NoData else Table(header, Ranked(SortByMeanDesc(Aggregates(data))))
  }

  function Unranked(rows: seq<RankedRow>): seq<Aggregate>
  {
    seq(|rows|, i requires 0 <= i < |rows| => Aggregate(rows[i].key, rows[i].mean))
  }


  /** Each row of a non-empty report is one key of the data with its rounded mean, in order of decreasing mean. */
  lemma ReportRows(data: seq<Pair>, header: seq<string>)
    requires data != []
    ensures Report(data, header).Table? && Report(data, header).header == header
    ensures var rows := Report(data, header).rows;
      && |rows| == |KeysInOrder(data)|
      && (forall i :: 0 <= i < |rows| ==> 1 <= rows[i].rank <= |rows|)
      && (forall i, j :: 0 <= i < j < |rows| ==> rows[i].rank < rows[j].rank)
      && (forall i, j :: 0 <= i < j < |rows| ==> rows[i].mean >= rows[j].mean)
      && (forall i :: 0 <= i < |rows| ==>
            CountFor(data, rows[i].key) > 0 && rows[i].mean == Mean(data, rows[i].key))
  {
    var aggs := Aggregates(data);
    var sorted := SortByMeanDesc(aggs);
    RankedDense(sorted);
    forall i | 0 <= i < |sorted|
      ensures CountFor(data, sorted[i].key) > 0 && sorted[i].mean == Mean(data, sorted[i].key)
    {
      assert sorted[i] in multiset(aggs);
      var p :| 0 <= p < |aggs| && aggs[p] == sorted[i];
    }
  }

  /** Every key of the data has a row. */
  lemma ReportCoversKeys(data: seq<Pair>, header: seq<string>, k: string)
    requires k in KeysOf(data)
    ensures exists i :: 0 <= i < |Report(data, header).rows| && Report(data, header).rows[i].key == k
  {
    var aggs := Aggregates(data);
    var sorted := SortByMeanDesc(aggs);
    var rows := Ranked(sorted);
    assert Report(data, header).rows == rows;
    KeysInOrderSpec(data);
    var p :| 0 <= p < |KeysInOrder(data)| && KeysInOrder(data)[p] == k;
    assert aggs[p] in multiset(sorted);
    var i :| 0 <= i < |sorted| && sorted[i] == aggs[p];
    assert rows[i].key == k;
  }

  /** No key has two rows. */
  lemma ReportKeysDistinct(data: seq<Pair>, header: seq<string>)
    requires data != []
    ensures var rows := Report(data, header).rows;
      forall i, j :: 0 <= i < j < |rows| ==> rows[i].key != rows[j].key
  {
    var sorted := SortByMeanDesc(Aggregates(data));
    SortKeepsDistinctKeys(Aggregates(data));
    RankedDense(sorted);
  }

  /**
   * The rows are a permutation of the aggregate records, and for every mean
   * the records with that mean keep their first-appearance order.
   */
  lemma ReportStable(data: seq<Pair>, header: seq<string>, v: real)
    requires data != []
    ensures var rows := Report(data, header).rows;
      && multiset(Unranked(rows)) == multiset(Aggregates(data))
      && WithMean(Unranked(rows), v) == WithMean(Aggregates(data), v)
  {
    var sorted := SortByMeanDesc(Aggregates(data));
    RankedDense(sorted);
    assert Unranked(Ranked(sorted)) == sorted;
    SortStable(Aggregates(data), v);
  }

  /**
   * The accumulation pass of `create_report`: walks the pairs once, keeping a
   * running sum and count per key; `keys` is the dictionaries' insertion order.
   */
  method Accumulate(data: seq<Pair>) returns (sums: map<string, real>, counts: map<string, nat>, keys: seq<string>)
    ensures keys == KeysInOrder(data)
    ensures forall k :: k in sums <==> k in KeysOf(data)
    ensures forall k :: k in counts <==> k in KeysOf(data)
    ensures forall k :: k in sums ==> sums[k] == SumFor(data, k) && counts[k] == CountFor(data, k)
  {
    sums, counts, keys := map[], map[], [];
    for i := 0 to |data|
      invariant keys == KeysInOrder(data[..i])
      invariant forall k :: k in sums <==> k in keys
      invariant forall k :: k in counts <==> k in keys
      invariant forall k :: k in sums ==> sums[k] == SumFor(data[..i], k) && counts[k] == CountFor(data[..i], k)
    {
      var name, value := data[i].key, data[i].value;
      assert Init(data[..i + 1]) == data[..i] && Last(data[..i + 1]) == data[i];
      if name in sums {
        sums := sums[name := sums[name] + value];
      } else {
        KeysInOrderSpec(data[..i]);
        CountPositive(data[..i], name);
        SumOfAbsentKey(data[..i], name);
        sums := sums[name := value];
        keys := keys + [name];
      }
      counts := counts[name := if name in counts then counts[name] + 1 else 1];
    }
    assert data[..|data|] == data;
    KeysInOrderSpec(data);
  }

  /**
   * The second pass of `create_report`: replaces the sum of every key by the
   * mean rounded to two places; no key is added or dropped.
   */
  method Average(sums: map<string, real>, counts: map<string, nat>, keys: seq<string>) returns (means: map<string, real>)
    requires forall i, j :: 0 <= i < j < |keys| ==> keys[i] != keys[j]
    requires forall k :: k in sums <==> k in keys
    requires forall k :: k in keys ==> k in counts && counts[k] > 0
    ensures means.Keys == sums.Keys
    ensures forall k :: k in means ==> means[k] == Round2(sums[k] / counts[k] as real)
  {
    means := sums;
    for j := 0 to |keys|
      invariant means.Keys == sums.Keys
      invariant forall m :: 0 <= m < j ==> means[keys[m]] == Round2(sums[keys[m]] / counts[keys[m]] as real)
      invariant forall m :: j <= m < |keys| ==> means[keys[m]] == sums[keys[m]]
    {
      var key := keys[j];
      means := means[key := Round2(means[key] / counts[key] as real)];
    }
    forall k | k in means ensures means[k] == Round2(sums[k] / counts[k] as real) {
      var m :| 0 <= m < |keys| && keys[m] == k;
    }
  }

  /**
   * `create_report` up to the table it hands to the renderer: no data gives
   * only the diagnostic; otherwise the ranked rows of the sorted averages.
   */
  method CreateReport(data: seq<Pair>, header: seq<string>) returns (out: ReportOutcome)
    ensures out.NoData? <==> data == []
    ensures out == Report(data, header)
  {
    if |data| == 0 {
      return NoData;
    }
    var sums, counts, keys := Accumulate(data);
    KeysInOrderSpec(data);
    forall k | k in keys ensures counts[k] > 0 {
      CountPositive(data, k);
    }
    var means := Average(sums, counts, keys);
    var items := seq(|keys|, m requires 0 <= m < |keys| => Aggregate(keys[m], means[keys[m]]));
    assert items == Aggregates(data);
    out := Table(header, Ranked(SortByMeanDesc(items)));
  }
}
