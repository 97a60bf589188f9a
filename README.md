# Average rating by brand — a verified model

The program reads product rows from CSV files and reports, for each brand, the
average of its ratings. The brands are ranked from the highest average to the
lowest. This project models the two functions that do the work, in `main.py`:

- `get_data4report` (module `Extractor`). It walks the rows. A row whose first
  cell upper-cases to `NAME` is a header row, and two of its cells become the
  report header. Any other row becomes a `(key, value)` pair: the value is the
  float that the second chosen cell spells. The loop is the method
  `GetData4Report`, proved against the left-recursive specification `Scan`.
  The model covers Python's negative indexes. It also covers the three ways
  the function can raise:
  - `IndexError`: a missing cell;
  - `ValueError`: a value that is not a number;
  - `UnboundHeader`: the header variable is never assigned.
- `create_report` up to the table it hands to the renderer (module
  `Aggregator`). Without data it produces only the diagnostic (`NoData`).
  Otherwise it makes three passes:
  - `Accumulate` keeps a running sum and count per key, in dictionary
    insertion order.
  - `Average` replaces each sum by `round(sum / count, 2)`.
  - The result is sorted by mean, descending and stably (`Ranking.SortByMeanDesc`),
    then numbered 1..N (`Ranking.Ranked`).

Module `Decimal` models `float()` for plain decimal text and `round(x, 2)`.
Module `Scenarios` works the repository's test data through the model. The
five phone rows give apple 4.8, xiaomi 4.6 and samsung 4.5, ranked 1 to 3.

Ratings are exact reals. `round` is round-half-to-even on the exact value.
Sums and counts are unbounded.

The code and its tests disagree about input without a header row. The code
fails there, because `header4report` is never assigned. The tests expect an
empty header. The model follows the code (`Extractor.Extract`) and records the
difference under Findings. The intended variant (`Extractor.ExtractIntended`)
is what the end-to-end scenario uses.

## Model

| member | source | states |
|---|---|---|
| Extractor.GetData4Report | main.py:42-49 | The loop returns exactly the specified extraction: the pairs and the last header, or the first exception raised, with the offending row's index |
| Extractor.Extract | main.py:42-49 | The function as written: the empty input fails on the unassigned header; a success carries a two-cell header and at most one pair per row; any other exception names a row of the input |
| Extractor.ExtractIntended | tests/test_main.py:59 | The function as the tests expect it: the empty input gives two empty lists; a success carries an empty or two-cell header and at most one pair per row; it never fails for want of a header |
| Extractor.ScanPairs | main.py:44-48 | The loop completes if and only if every row is well formed. Then it yields one pair per non-header row, in input order, with the key cell and the parsed value, and nothing for header rows |
| Extractor.ScanCompletes | main.py:44-48 | The loop gets through the input exactly when every row has the indexed cells and every data row's value parses |
| Extractor.StepOutcome | main.py:45-48 | One iteration succeeds exactly on a well-formed row; a header row leaves the pairs alone and a data row appends its projection |
| Extractor.ScanBounds | main.py:44-48 | The loop yields at most one pair per row, a header of the two chosen cells, and only IndexError or ValueError at a row position |
| Extractor.ScanFailurePersists | main.py:44-48 | After an exception, later rows change nothing: the outcome is the one at the failing prefix |
| Extractor.ScanFirstError | main.py:45-48 | An exception comes from the first malformed row, and it is a ValueError exactly when that row has both cells but its value does not parse (otherwise an IndexError) |
| Extractor.ScanHeaderIsLast | main.py:45-46 | The header is assigned if and only if some row is a header row, and then it holds the two chosen cells of the last one |
| Extractor.HeaderCellIff | main.py:45 | A first cell marks a header row if and only if it is "name" in any mix of upper and lower case |
| Extractor.NoHeaderIsUnbound | main.py:44-49 | Well-formed input with no header row makes the function as written fail on returning the unassigned header |
| Extractor.EmptySourceIsUnbound | main.py:43-49 | The empty input makes the function as written fail on the unassigned header |
| Extractor.ExtractIntendedAgrees | tests/test_main.py:38-67 | The intended extraction agrees with the written one wherever that one does not fail for want of a header; there it succeeds with an empty header, and on empty input it gives two empty lists |
| Extractor.DataRows | main.py:47-48 | Every row that contributes a pair is a row of the input and is not a header row |
| Decimal.ParseDecimalOfNat | main.py:48 | `float()` of a whole number's decimal digits, with or without a leading minus, gives that number back |
| Decimal.ParseDecimalOfFixedPoint | main.py:48 | `float()` of a whole number's digits, a point and fraction digits gives the whole number plus the fraction's digits over the matching power of ten |
| Decimal.ParseDecimal | main.py:48 | The conversion succeeds only on non-empty text; a value read after a leading minus is not positive, any other value is not negative |
| Decimal.ParseDecimalNegation | main.py:48 | A leading minus negates the value of any parseable text that has no sign of its own |
| Decimal.ParseUnsigned | main.py:48 | A parsed unsigned decimal is never negative |
| Decimal.RoundHalfEven | main.py:69 | The result is within one half of the argument, and on a tie it is even |
| Decimal.RoundHalfEvenUnique | main.py:69 | Those two properties determine the rounded value |
| Decimal.RoundHalfEvenMonotone | main.py:69 | Rounding preserves order |
| Decimal.Round2 | main.py:69 | `round(x, 2)` is within 0.005 of x |
| Decimal.Round2OfHundredths | main.py:69 | A number with at most two decimals is unchanged by `round(x, 2)` |
| Decimal.Round2Idempotent | main.py:69 | Rounding twice is rounding once |
| Decimal.Round2Monotone | main.py:69 | `round(x, 2)` never reverses the order of two numbers |
| Aggregator.Accumulate | main.py:57-67 | After the loop, the sum and count dictionaries hold exactly the keys of the data. Each key maps to the sum of its values and to its number of occurrences. The key order is first appearance |
| Aggregator.Average | main.py:68-69 | Every sum is replaced by the rounded quotient of sum by count, and no key is added or dropped |
| Aggregator.CreateReport | main.py:52-77 | Empty data, and only empty data, yields the diagnostic. Otherwise the result is the header with the ranked, sorted, rounded means |
| Aggregator.Report | main.py:52-77 | What `create_report` computes: the diagnostic exactly for empty data, otherwise the given header with one row per distinct key |
| Aggregator.KeysInOrderSpec | main.py:57-67 | The dictionary key order lists each key of the data exactly once, in order of first appearance |
| Aggregator.FirstIndex | main.py:59-64 | The index returned is the first occurrence of the key |
| Aggregator.CountIsMultiplicity | main.py:65-67 | The count of a key is its multiplicity among the data's keys |
| Aggregator.CountPositive | main.py:65-67 | A key has a positive count if and only if it occurs in the data |
| Aggregator.SumCountAdditive | main.py:59-67 | Sums and counts over two concatenated batches are the sums of the batches' sums and counts |
| Aggregator.SumOfAbsentKey | main.py:60-64 | A key with no occurrence contributes a zero sum, so starting a key at its first value agrees with starting at zero |
| Aggregator.MeanOfSingleton | main.py:59-69 | A key seen once averages to its own value, rounded to two places |
| Aggregator.SumBounds | main.py:59-64 | When all of a key's values lie between lo and hi, its sum lies between count times lo and count times hi |
| Aggregator.UnroundedMeanBounds | main.py:69 | The unrounded average of a key lies between its smallest and largest values |
| Aggregator.MeanBetween | main.py:59-69 | The rounded mean of a key lies between its smallest and largest values, each rounded |
| Aggregator.Aggregates | main.py:68-72 | One record per key, in dictionary order, each with a positive count and the rounded mean of its values; the keys are distinct |
| Aggregator.ReportRows | main.py:71-77 | A non-empty report carries the given header and has one row per distinct key. The ranks are 1..N, strictly increasing, and the means do not increase down the table. Each row's mean is the rounded average of its key |
| Aggregator.ReportCoversKeys | main.py:71-77 | Every key of the data has a row |
| Aggregator.ReportKeysDistinct | main.py:71-77 | No key has two rows |
| Aggregator.ReportStable | main.py:72 | The rows are a permutation of the averaged records, and records with equal means keep their dictionary order |
| Ranking.Insert | main.py:72 | Insertion adds exactly one element to the multiset |
| Ranking.InsertSorted | main.py:72 | Inserting into a descending sequence keeps it descending |
| Ranking.SortByMeanDesc | main.py:72 | The sorted records are a permutation of the input, in descending order of mean |
| Ranking.InsertKeepsDistinctKeys | main.py:72 | Inserting a record with a new key keeps the keys distinct |
| Ranking.SortKeepsDistinctKeys | main.py:72 | Sorting keeps keys distinct |
| Ranking.InsertStable | main.py:72 | Insertion places the new record ahead of every record with an equal mean |
| Ranking.SortStable | main.py:72 | For every mean, the records with that mean appear in their original order (Python's sort is stable, also with `reverse=True`) |
| Ranking.RankedDense | main.py:77 | The index column numbers the rows 1..N, strictly increasing, and each row carries its record |
| Scenarios.ExtractPhones | tests/test_main.py:38-67 | Columns 1 and 3 of the six test rows give the five expected (brand, rating) pairs and the header ["brand", "rating"] |
| Scenarios.PhoneTotals | tests/test_main.py:74-80 | The five test pairs give apple sum 9.6 over 2, samsung 9.0 over 2, xiaomi 4.6 over 1, keyed in that order |
| Scenarios.PhoneAggregates | tests/test_main.py:74-96 | Their rounded means are apple 4.8, samsung 4.5, xiaomi 4.6 |
| Scenarios.SortPhones | tests/test_main.py:83-89 | The descending sort puts xiaomi ahead of samsung |
| Scenarios.ReportPhones | tests/test_main.py:70-96 | The report of the test pairs is apple 4.8, xiaomi 4.6, samsung 4.5, ranked 1 to 3 under the header ["brand", "rating"] |
| Scenarios.PipelinePhones | tests/test_main.py:38-96 | Extraction followed by the report turns the test rows into that table |
| Scenarios.ReportEmpty | tests/test_main.py:98-104 | Empty data gives only the diagnostic, whatever the header |

## Left out

- `parse_args`, `read_csv` and the `__main__` block (main.py:11-39, 85-92): they are command-line parsing and file input. The model takes the concatenated rows as a parameter.
- Rendering with `tabulate`, writing the report file and printing it: these are formatting and output. The model stops at the table's header and ranked rows (`ReportOutcome`).
- The diagnostic text printed for empty data: only its occurrence is modelled (`NoData`). Its wording also differs between the code ("отчета") and the tests ("отчёта").
- Binary floating point: values are exact reals, and `round(x, 2)` rounds the exact quotient half to even. CPython rounds the nearest double, so a result can differ in the last place where the binary value falls on the other side of a tie.
- Decimal.ParseDecimal: models `float()` only for an optional sign, digits, and an optional '.' with digits. Surrounding whitespace, exponents, `inf`/`nan` and underscores, which `float()` accepts, give a ValueError in the model.
- Extractor.Upper: models `str.upper()` on ASCII letters only. Other characters are left unchanged, and no Unicode case mapping is done.

## Findings

| source | as written | input that shows it | evidently intended | confidence | as-written member | corrected member |
|---|---|---|---|---|---|---|
| main.py:49 | `header4report` is assigned only inside the loop, so input with no header row raises UnboundLocalError on return | the empty row list, which tests/test_main.py:59 pairs with `([], [])` | return the pairs and an empty header when no header row was seen | not executed | Extractor.EmptySourceIsUnbound | Extractor.ExtractIntendedAgrees |
