/**
 * `get_data4report`: projects every data row onto a (key, value) pair and
 * remembers the labels of the last header row.
 */
module Extractor {
  import opened Common
  import opened Decimal

  /** One CSV record: its cells, as text. */
  type Row = seq<string>

  /** Upper-casing, restricted to the ASCII letters. */
  function UpperChar(c: char): char
  {
    if 'a' <= c <= 'z' then (c as int - 32) as char else c
  }

  function Upper(s: string): (r: string)
    ensures |r| == |s|
  {
    seq(|s|, i requires 0 <= i < |s| => UpperChar(s[i]))
  }

  /** The header sentinel: the first cell upper-cases to "NAME". */
  predicate IsHeaderCell(cell: string)
  {
    Upper(cell) == "NAME"
  }

  predicate IsHeaderRow(row: Row)
  {
    |row| > 0 && IsHeaderCell(row[0])
  }

  /** The sentinel is "name" in any mix of upper and lower case, and nothing else. */
  lemma HeaderCellIff(cell: string)
    ensures IsHeaderCell(cell) <==>
      |cell| == 4 && cell[0] in "Nn" && cell[1] in "Aa" && cell[2] in "Mm" && cell[3] in "Ee"
  {
    if |cell| == 4 && cell[0] in "Nn" && cell[1] in "Aa" && cell[2] in "Mm" && cell[3] in "Ee" {
      assert Upper(cell) == "NAME";
    }
    if IsHeaderCell(cell) {
      assert Upper(cell)[0] == 'N' && Upper(cell)[1] == 'A' && Upper(cell)[2] == 'M' && Upper(cell)[3] == 'E';
    }
  }

  /** Python's `row[i]`: a negative index counts from the end; out of range is None (IndexError). */
  function PyIndex(row: Row, i: int): Option<string>
  {
    if 0 <= i < |row| then Some(row[i])
    else if -|row| <= i < 0 then Some(row[|row| + i])
    else None
  }

  /** The exceptions the function can raise, each with the index of the offending row. */
  datatype ExtractError =
    | IndexError(at: nat)   // a cell the row does not have
    | ValueError(at: nat)   // a value cell that is not a number
    | UnboundHeader         // no header row was seen: the header variable was never assigned

  /** The two local variables of the loop: the pairs so far and the header, if one was assigned. */
  datatype ScanState = ScanState(pairs: seq<Pair>, header: Option<seq<string>>)

  datatype Extracted = Extracted(pairs: seq<Pair>, header: seq<string>)

  /** One iteration of the loop, on the row at position `at`. */
  function Step(st: ScanState, row: Row, at: nat, c1: int, c2: int): Result<ScanState, ExtractError>
  {
    if |row| == 0 then Failure(IndexError(at))
    else if IsHeaderCell(row[0]) then
      if PyIndex(row, c1).None? || PyIndex(row, c2).None? then Failure(IndexError(at))
      else Success(ScanState(st.pairs, Some([PyIndex(row, c1).value, PyIndex(row, c2).value])))
    else if PyIndex(row, c1).None? || PyIndex(row, c2).None? then Failure(IndexError(at))
    else
      match ParseDecimal(PyIndex(row, c2).value)
      case None => Failure(ValueError(at))
      case Some(v) => Success(ScanState(st.pairs + [Pair(PyIndex(row, c1).value, v)], st.header))
  }

  /** The loop over all of `source`, stopping at the first exception. */
  function Scan(source: seq<Row>, c1: int, c2: int): Result<ScanState, ExtractError>
  {
    if source == [] then Success(ScanState([], None))
    else
      match Scan(Init(source), c1, c2)
      case Failure(e) => Failure(e)
      case Success(st) => Step(st, Last(source), |source| - 1, c1, c2)
  }

  /** The loop yields at most one pair per row, a two-cell header, and errors at row positions. */
  lemma {:induction false} ScanBounds(source: seq<Row>, c1: int, c2: int)
    ensures var r := Scan(source, c1, c2);
      && (r.Success? ==> |r.value.pairs| <= |source|)
      && (r.Success? && r.value.header.Some? ==> |r.value.header.value| == 2)
      && (r.Failure? ==> !r.error.UnboundHeader? && r.error.at < |source|)
  {
    if source != [] {
      ScanBounds(Init(source), c1, c2);
    }
  }

  /** The function as written: returning the header fails when no header row was seen. */
  function Extract(source: seq<Row>, c1: int, c2: int): (r: Result<Extracted, ExtractError>)
    ensures source == [] ==> r == Failure(UnboundHeader)
    ensures r.Success? ==> |r.value.header| == 2 && |r.value.pairs| <= |source|
    ensures r.Failure? && !r.error.UnboundHeader? ==> r.error.at < |source|
  {
    ScanBounds(source, c1, c2);
    match Scan(source, c1, c2)
    case Failure(e) => Failure(e)
    case Success(st) =>
      if st.header.None? then Failure(UnboundHeader) else Success(Extracted(st.pairs, st.header.value))
  }

  /** The function as its tests expect it: with no header row the header is empty. */
  function ExtractIntended(source: seq<Row>, c1: int, c2: int): (r: Result<Extracted, ExtractError>)
    ensures source == [] ==> r == Success(Extracted([], []))
    ensures r.Success? ==> (|r.value.header| == 0 || |r.value.header| == 2) && |r.value.pairs| <= |source|
    ensures r.Failure? ==> !r.error.UnboundHeader? && r.error.at < |source|
  {
    ScanBounds(source, c1, c2);
    match Scan(source, c1, c2)
    case Failure(e) => Failure(e)
    case Success(st) =>
      Success(Extracted(st.pairs, if st.header.Some? then st.header.value else []))
  }

  /** A row the loop gets through: it has the needed cells, and a data row's value parses. */
  predicate RowOk(row: Row, c1: int, c2: int)
  {
    && |row| > 0
    && PyIndex(row, c1).Some?
    && PyIndex(row, c2).Some?
    && (IsHeaderCell(row[0]) || ParseDecimal(PyIndex(row, c2).value).Some?)
  }

  /** The pair a well-formed data row stands for. */
  function Project(row: Row, c1: int, c2: int): Pair
    requires RowOk(row, c1, c2) && !IsHeaderRow(row)
  {
    Pair(PyIndex(row, c1).value, ParseDecimal(PyIndex(row, c2).value).value)
  }

  /** The rows of `source` that are not header rows, in order. */
  function DataRows(source: seq<Row>): (r: seq<Row>)
    ensures forall row :: row in r ==> row in source && !IsHeaderRow(row)
  {
    if source == [] then []
    else if IsHeaderRow(Last(source)) then DataRows(Init(source))
    else DataRows(Init(source)) + [Last(source)]
  }

  /** Once the loop has raised, later rows change nothing. */
  lemma {:induction false} ScanFailurePersists(source: seq<Row>, i: nat, c1: int, c2: int)
    requires i <= |source| && Scan(source[..i], c1, c2).Failure?
    ensures Scan(source, c1, c2) == Scan(source[..i], c1, c2)
  {
    if i < |source| {
      assert Init(source)[..i] == source[..i];
      ScanFailurePersists(Init(source), i, c1, c2);
    } else {
      assert source[..i] == source;
    }
  }

  /**
   * The loop completes exactly when every row is well formed; then each data
   * row yields one pair, in input order, and nothing else does.
   */
  lemma {:induction false} ScanPairs(source: seq<Row>, c1: int, c2: int)
    ensures Scan(source, c1, c2).Success? <==> forall i :: 0 <= i < |source| ==> RowOk(source[i], c1, c2)
    ensures Scan(source, c1, c2).Success? ==>
      var pairs, rows := Scan(source, c1, c2).value.pairs, DataRows(source);
      && |pairs| == |rows|
      && forall j :: 0 <= j < |rows| ==> RowOk(rows[j], c1, c2) && pairs[j] == Project(rows[j], c1, c2)
  {
    ScanCompletes(source, c1, c2);
    if source != [] && Scan(source, c1, c2).Success? {
      ScanPairs(Init(source), c1, c2);
      var st0 := Scan(Init(source), c1, c2).value;
      StepOutcome(st0, Last(source), |source| - 1, c1, c2);
      var pairs, rows := Scan(source, c1, c2).value.pairs, DataRows(source);
      if !IsHeaderRow(Last(source)) {
        assert pairs == st0.pairs + [Project(Last(source), c1, c2)];
        assert rows == DataRows(Init(source)) + [Last(source)];
      }
    }
  }

  /** One iteration gets through exactly the well-formed rows, adding a pair for a data row. */
  lemma StepOutcome(st: ScanState, row: Row, at: nat, c1: int, c2: int)
    ensures Step(st, row, at, c1, c2).Success? <==> RowOk(row, c1, c2)
    ensures Step(st, row, at, c1, c2).Success? ==>
      Step(st, row, at, c1, c2).value.pairs ==
        if IsHeaderRow(row) then st.pairs else st.pairs + [Project(row, c1, c2)]
  {
  }

  lemma {:induction false} ScanCompletes(source: seq<Row>, c1: int, c2: int)
    ensures Scan(source, c1, c2).Success? <==> forall i :: 0 <= i < |source| ==> RowOk(source[i], c1, c2)
  {
    if source != [] {
      ScanCompletes(Init(source), c1, c2);
      if Scan(Init(source), c1, c2).Success? {
        StepOutcome(Scan(Init(source), c1, c2).value, Last(source), |source| - 1, c1, c2);
      }
      assert forall i :: 0 <= i < |source| - 1 ==> source[i] == Init(source)[i];
    }
  }

  /**
   * When the loop raises, it does so at the first row that is not well formed,
   * with ValueError exactly when that row has its cells but the value does not parse.
   */
  lemma {:induction false} ScanFirstError(source: seq<Row>, c1: int, c2: int)
    requires Scan(source, c1, c2).Failure?
    ensures var e := Scan(source, c1, c2).error;
      && !e.UnboundHeader?
      && e.at < |source|
      && (forall i :: 0 <= i < e.at ==> RowOk(source[i], c1, c2))
      && !RowOk(source[e.at], c1, c2)
      && (e.ValueError? <==>
            |source[e.at]| > 0 && !IsHeaderRow(source[e.at])
            && PyIndex(source[e.at], c1).Some? && PyIndex(source[e.at], c2).Some?)
  {
    if Scan(Init(source), c1, c2).Failure? {
      ScanFirstError(Init(source), c1, c2);
    } else {
      ScanPairs(Init(source), c1, c2);
    }
  }

  /**
   * The header is assigned exactly when some row is a header row, and then it
   * holds the labels of the last one: later headers overwrite earlier ones.
   */
  lemma {:induction false} ScanHeaderIsLast(source: seq<Row>, c1: int, c2: int) returns (h: int)
    requires Scan(source, c1, c2).Success?
    ensures var header := Scan(source, c1, c2).value.header;
      && (header.None? <==> forall i :: 0 <= i < |source| ==> !IsHeaderRow(source[i]))
      && (header.Some? ==>
            && 0 <= h < |source| && IsHeaderRow(source[h])
            && PyIndex(source[h], c1).Some? && PyIndex(source[h], c2).Some?
            && header.value == [PyIndex(source[h], c1).value, PyIndex(source[h], c2).value]
            && forall j :: h < j < |source| ==> !IsHeaderRow(source[j]))
  {
    h := -1;
    if source != [] {
      var st0 := Scan(Init(source), c1, c2).value;
      var st := Scan(source, c1, c2).value;
      h := ScanHeaderIsLast(Init(source), c1, c2);
      if IsHeaderRow(Last(source)) {
        h := |source| - 1;
        assert st.header.Some?;
      } else {
        assert st.header == st0.header;
        assert forall i :: 0 <= i < |source| - 1 ==> source[i] == Init(source)[i];
      }
    }
  }

  /** An input without any header row makes the function as written fail, even with data rows. */
  lemma NoHeaderIsUnbound(source: seq<Row>, c1: int, c2: int)
    requires forall i :: 0 <= i < |source| ==> RowOk(source[i], c1, c2) && !IsHeaderRow(source[i])
    ensures Extract(source, c1, c2) == Failure(UnboundHeader)
  {
    ScanPairs(source, c1, c2);
    var _ := ScanHeaderIsLast(source, c1, c2);
  }

  /** In particular the empty source fails, where the tests expect two empty lists. */
  lemma EmptySourceIsUnbound(c1: int, c2: int)
    ensures Extract([], c1, c2) == Failure(UnboundHeader)
  {
  }

  /**
   * The intended extraction differs from the written one only where that one
   * fails for want of a header: there it yields the pairs and an empty header.
   */
  lemma ExtractIntendedAgrees(source: seq<Row>, c1: int, c2: int)
    ensures Extract(source, c1, c2) != Failure(UnboundHeader) ==>
      ExtractIntended(source, c1, c2) == Extract(source, c1, c2)
    ensures Extract(source, c1, c2) == Failure(UnboundHeader) ==>
      ExtractIntended(source, c1, c2).Success? && ExtractIntended(source, c1, c2).value.header == []
    ensures ExtractIntended([], c1, c2) == Success(Extracted([], []))
  {
    assert Scan(source, c1, c2).Failure? ==> Scan(source, c1, c2).error != UnboundHeader by {
      if Scan(source, c1, c2).Failure? { ScanFirstError(source, c1, c2); }
    }
  }

  /**
   * `get_data4report`: one pass over the rows, appending a pair per data row
   * and overwriting the header at each header row; an exception ends it.
   */
  method GetData4Report(source: seq<Row>, col1: int, col2: int) returns (r: Result<Extracted, ExtractError>)
    ensures r == Extract(source, col1, col2)
  {
    var data: seq<Pair> := [];
    var header: Option<seq<string>> := None;
    for i := 0 to |source|
      invariant Scan(source[..i], col1, col2) == Success(ScanState(data, header))
    {
      var row := source[i];
      assert Init(source[..i + 1]) == source[..i] && Last(source[..i + 1]) == row;
      if |row| == 0 {
        ScanFailurePersists(source, i + 1, col1, col2);
        return Failure(IndexError(i));
      }
      if Upper(row[0]) == "NAME" {
        var key, value := PyIndex(row, col1), PyIndex(row, col2);
        if key.None? || value.None? {
          ScanFailurePersists(source, i + 1, col1, col2);
          return Failure(IndexError(i));
        }
        header := Some([key.value, value.value]);
      } else {
        var key := PyIndex(row, col1);
        var cell := PyIndex(row, col2);
        if key.None? || cell.None? {
          ScanFailurePersists(source, i + 1, col1, col2);
          return Failure(IndexError(i));
        }
        var value := ParseDecimal(cell.value);
        if value.None? {
          ScanFailurePersists(source, i + 1, col1, col2);
          return Failure(ValueError(i));
        }
        data := data + [Pair(key.value, value.value)];
      }
    }
    assert source[..|source|] == source;
    if header.None? {
      return Failure(UnboundHeader);
    }
    return Success(Extracted(data, header.value));
  }
}
