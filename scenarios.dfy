/** The example of the repository's tests, worked through the model. */
module Scenarios {
  import opened Common
  import opened Decimal
  import opened Ranking
  import opened Aggregator
  import opened Extractor

  /** The rows of the test file: a header row and five phones. */
  predicate IsPhoneFile(rows: seq<Row>)
  {
    && |rows| == 6
    && rows[0] == ["name", "brand", "price", "rating"]
    && rows[1] == ["iphone 15 pro", "apple", "999", "4.9"]
    && rows[2] == ["galaxy s23 ultra", "samsung", "1199", "4.8"]
    && rows[3] == ["redmi note 12", "xiaomi", "199", "4.6"]
    && rows[4] == ["iphone 14", "apple", "799", "4.7"]
    && rows[5] == ["galaxy a54", "samsung", "349", "4.2"]
  }

  /** The pairs the tests expect from those rows. */
  predicate IsPhonePairs(data: seq<Pair>)
  {
    && |data| == 5
    && data[0] == Pair("apple", 4.9)
    && data[1] == Pair("samsung", 4.8)
    && data[2] == Pair("xiaomi", 4.6)
    && data[3] == Pair("apple", 4.7)
    && data[4] == Pair("samsung", 4.2)
  }

  lemma ScanSnoc(rows: seq<Row>, row: Row, st: ScanState)
    requires Scan(rows, 1, 3) == Success(st)
    ensures Scan(rows + [row], 1, 3) == Step(st, row, |rows|, 1, 3)
  {
    var all := rows + [row];
    assert Init(all) == rows && Last(all) == row && |all| - 1 == |rows|;
  }

  lemma DataStep(st: ScanState, row: Row, at: nat, v: real)
    requires |row| == 4 && |row[0]| != 4 && ParseDecimal(row[3]) == Some(v)
    ensures Step(st, row, at, 1, 3) == Success(ScanState(st.pairs + [Pair(row[1], v)], st.header))
  {
    HeaderCellIff(row[0]);
  }

  /** A rating of the form "d.d" parses to the number it spells. */
  lemma ParseRating(whole: char, tenth: char)
    requires IsDigit(whole) && IsDigit(tenth)
    ensures ParseDecimal([whole, '.', tenth]) ==
      Some((whole as int - '0' as int) as real + (tenth as int - '0' as int) as real / 10.0)
  {
    var s := [whole, '.', tenth];
    assert FindDot(s) == 1;
    assert s[..1] == [whole] && s[2..] == [tenth];
    assert DigitsValue([whole]) == whole as int - '0' as int by { assert [whole][..0] == []; }
    assert DigitsValue([tenth]) == tenth as int - '0' as int by { assert [tenth][..0] == []; }
  }

  /** The number a rating cell "d.d" spells. */
  function Tenths(cell: string): real
    requires |cell| == 3 && IsDigit(cell[0]) && IsDigit(cell[2])
  {
    (cell[0] as int - '0' as int) as real + (cell[2] as int - '0' as int) as real / 10.0
  }

  lemma PhoneRowStep(prefix: seq<Row>, row: Row, data: seq<Pair>, h: Option<seq<string>>)
    requires Scan(prefix, 1, 3) == Success(ScanState(data, h))
    requires |row| == 4 && |row[0]| != 4
    requires |row[3]| == 3 && row[3][1] == '.' && IsDigit(row[3][0]) && IsDigit(row[3][2])
    ensures Scan(prefix + [row], 1, 3) == Success(ScanState(data + [Pair(row[1], Tenths(row[3]))], h))
  {
    var r := row[3];
    assert r == [r[0], '.', r[2]];
    ParseRating(r[0], r[2]);
    ScanSnoc(prefix, row, ScanState(data, h));
    DataStep(ScanState(data, h), row, |prefix|, Tenths(r));
  }

  predicate RowShape(row: Row)
  {
    |row| == 4 && |row[0]| != 4 && |row[3]| == 3 && row[3][1] == '.' && IsDigit(row[3][0]) && IsDigit(row[3][2])
  }

  lemma PhoneShapes(rows: seq<Row>)
    requires IsPhoneFile(rows)
    ensures forall j :: 1 <= j < 6 ==> RowShape(rows[j])
  {
  }

  /** A header row followed by data rows of the shape above: one pair per data row. */
  lemma {:induction false} ScanShaped(rows: seq<Row>, h: seq<string>) returns (data: seq<Pair>)
    requires |rows| >= 1 && IsHeaderRow(rows[0]) && |rows[0]| == 4 && h == [rows[0][1], rows[0][3]]
    requires forall j :: 1 <= j < |rows| ==> RowShape(rows[j])
    ensures |data| == |rows| - 1
    ensures forall j :: 1 <= j < |rows| ==> RowShape(rows[j]) && data[j - 1] == Pair(rows[j][1], Tenths(rows[j][3]))
    ensures Scan(rows, 1, 3) == Success(ScanState(data, Some(h)))
  {
    if |rows| == 1 {
      ScanSnoc([], rows[0], ScanState([], None));
      assert [] + [rows[0]] == rows;
      data := [];
    } else {
      var prev := ScanShaped(Init(rows), h);
      PhoneRowStep(Init(rows), Last(rows), prev, Some(h));
      assert Init(rows) + [Last(rows)] == rows;
      data := prev + [Pair(Last(rows)[1], Tenths(Last(rows)[3]))];
    }
  }

  /** Columns 1 and 3 of the test rows give the five (brand, rating) pairs and the header ["brand", "rating"]. */
  lemma ExtractPhones(rows: seq<Row>) returns (data: seq<Pair>)
    requires IsPhoneFile(rows)
    ensures IsPhonePairs(data)
    ensures Extract(rows, 1, 3) == Success(Extracted(data, ["brand", "rating"]))
  {
    PhoneShapes(rows);
    HeaderCellIff(rows[0][0]);
    data := ScanShaped(rows, ["brand", "rating"]);
    PhonePairValues(rows, data);
  }

  lemma PhonePairValues(rows: seq<Row>, data: seq<Pair>)
    requires IsPhoneFile(rows)
    requires |data| == 5
    requires forall j :: 1 <= j < 6 ==> RowShape(rows[j]) && data[j - 1] == Pair(rows[j][1], Tenths(rows[j][3]))
    ensures IsPhonePairs(data)
  {
    assert data[0] == Pair(rows[1][1], Tenths(rows[1][3]));
    assert data[1] == Pair(rows[2][1], Tenths(rows[2][3]));
    assert data[2] == Pair(rows[3][1], Tenths(rows[3][3]));
    assert data[3] == Pair(rows[4][1], Tenths(rows[4][3]));
    assert data[4] == Pair(rows[5][1], Tenths(rows[5][3]));
  }

  lemma AggregateSnoc(s: seq<Pair>, p: Pair, k: string)
    ensures KeysInOrder(s + [p]) == if p.key in KeysInOrder(s) then KeysInOrder(s) else KeysInOrder(s) + [p.key]
    ensures SumFor(s + [p], k) == SumFor(s, k) + (if p.key == k then p.value else 0.0)
    ensures CountFor(s + [p], k) == CountFor(s, k) + (if p.key == k then 1 else 0)
  {
    assert Init(s + [p]) == s && Last(s + [p]) == p;
  }

  /** Sums, counts and first-appearance order of the five test pairs. */
  lemma PhoneTotals(data: seq<Pair>)
    requires IsPhonePairs(data)
    ensures KeysInOrder(data) == ["apple", "samsung", "xiaomi"]
    ensures SumFor(data, "apple") == 9.6 && CountFor(data, "apple") == 2
    ensures SumFor(data, "samsung") == 9.0 && CountFor(data, "samsung") == 2
    ensures SumFor(data, "xiaomi") == 4.6 && CountFor(data, "xiaomi") == 1
  {
    var s0, s1, s2, s3, s4 := data[..0], data[..1], data[..2], data[..3], data[..4];
    assert s0 == [] && s1 == s0 + [data[0]] && s2 == s1 + [data[1]] && s3 == s2 + [data[2]];
    assert s4 == s3 + [data[3]] && data == s4 + [data[4]];
    PhoneTotalsFor(data, "apple");
    PhoneTotalsFor(data, "samsung");
    PhoneTotalsFor(data, "xiaomi");
  }

  lemma PhoneTotalsFor(data: seq<Pair>, key: string)
    requires IsPhonePairs(data)
    ensures KeysInOrder(data) == ["apple", "samsung", "xiaomi"]
    ensures SumFor(data, key) ==
      (if data[0].key == key then data[0].value else 0.0) + (if data[1].key == key then data[1].value else 0.0)
      + (if data[2].key == key then data[2].value else 0.0) + (if data[3].key == key then data[3].value else 0.0)
      + (if data[4].key == key then data[4].value else 0.0)
    ensures CountFor(data, key) ==
      (if data[0].key == key then 1 else 0) + (if data[1].key == key then 1 else 0)
      + (if data[2].key == key then 1 else 0) + (if data[3].key == key then 1 else 0)
      + (if data[4].key == key then 1 else 0)
  {
    var s0, s1, s2, s3, s4 := data[..0], data[..1], data[..2], data[..3], data[..4];
    assert s0 == [] && s1 == s0 + [data[0]] && s2 == s1 + [data[1]] && s3 == s2 + [data[2]];
    assert s4 == s3 + [data[3]] && data == s4 + [data[4]];
    AggregateSnoc(s0, data[0], key);
    AggregateSnoc(s1, data[1], key);
    AggregateSnoc(s2, data[2], key);
    AggregateSnoc(s3, data[3], key);
    AggregateSnoc(s4, data[4], key);
  }

  /** The aggregate records of the test pairs, before sorting: apple 4.8, samsung 4.5, xiaomi 4.6. */
  lemma PhoneAggregates(data: seq<Pair>)
    requires IsPhonePairs(data)
    ensures Aggregates(data) == [Aggregate("apple", 4.8), Aggregate("samsung", 4.5), Aggregate("xiaomi", 4.6)]
  {
    PhoneTotals(data);
    assert 9.6 / 2.0 == 480 as real / 100.0 && 9.0 / 2.0 == 450 as real / 100.0 && 4.6 / 1.0 == 460 as real / 100.0;
    Round2OfHundredths(480);
    Round2OfHundredths(450);
    Round2OfHundredths(460);
  }

  /** The stable descending sort moves xiaomi (4.6) ahead of samsung (4.5). */
  lemma SortPhones(aggs: seq<Aggregate>)
    requires aggs == [Aggregate("apple", 4.8), Aggregate("samsung", 4.5), Aggregate("xiaomi", 4.6)]
    ensures SortByMeanDesc(aggs) == [Aggregate("apple", 4.8), Aggregate("xiaomi", 4.6), Aggregate("samsung", 4.5)]
  {
    var x, y, z := aggs[0], aggs[1], aggs[2];
    assert aggs[2..][1..] == [];
    assert SortByMeanDesc(aggs[2..]) == [z];
    assert aggs[1..][1..] == aggs[2..];
    assert Insert(y, [z]) == [z] + Insert(y, []);
    assert SortByMeanDesc(aggs[1..]) == [z, y];
    assert SortByMeanDesc(aggs) == Insert(x, [z, y]);
  }

  /**
   * The report of the five test pairs: apple 4.8, xiaomi 4.6, samsung 4.5, numbered 1 to 3.
   */
  lemma ReportPhones(data: seq<Pair>)
    requires IsPhonePairs(data)
    ensures Report(data, ["brand", "rating"]) ==
      Table(["brand", "rating"],
            [RankedRow(1, "apple", 4.8), RankedRow(2, "xiaomi", 4.6), RankedRow(3, "samsung", 4.5)])
  {
    var aggs := Aggregates(data);
    PhoneAggregates(data);
    SortPhones(aggs);
    RankPhones(SortByMeanDesc(aggs));
  }

  lemma RankPhones(sorted: seq<Aggregate>)
    requires sorted == [Aggregate("apple", 4.8), Aggregate("xiaomi", 4.6), Aggregate("samsung", 4.5)]
    ensures Ranked(sorted) == [RankedRow(1, "apple", 4.8), RankedRow(2, "xiaomi", 4.6), RankedRow(3, "samsung", 4.5)]
  {
  }

  /** Both stages on the test file, with the header as the tests expect it. */
  lemma PipelinePhones(rows: seq<Row>)
    requires IsPhoneFile(rows)
    ensures ExtractIntended(rows, 1, 3).Success?
    ensures var ex := ExtractIntended(rows, 1, 3).value;
      Report(ex.pairs, ex.header) ==
        Table(["brand", "rating"],
              [RankedRow(1, "apple", 4.8), RankedRow(2, "xiaomi", 4.6), RankedRow(3, "samsung", 4.5)])
  {
    var data := ExtractPhones(rows);
    ExtractIntendedAgrees(rows, 1, 3);
    ReportPhones(data);
  }

  /** Without data the report is only the diagnostic, whatever the header. */
  lemma ReportEmpty(header: seq<string>)
    ensures Report([], header) == NoData
  {
  }
}
