# covid_gender preprocessing, modelled in Dafny

The script `scripts/preprocess_data.py` prepares a correlation between the share of
men in a US county and the share of its phones that stayed at home. It has three stages:

- **Census.** It reads the census population table, one row per subgroup. It keys every row
  by county (state code followed by county code) and adds the males and the females up per
  county. It then writes each county's proportion of males.
- **Distancing.** It reads the mobility table, one row per census block group. It keys every
  row by the county part of the block group code and adds the device counts and the
  completely-at-home device counts up per county. It then writes each county's proportion of
  devices that stayed at home.
- **Merge.** It reads both per-county files back and pads their county codes to five
  characters. It then writes a row for every county of the census file that the distancing
  file also has.

The model follows that structure, one module per concern:

| file | module | what it holds |
|---|---|---|
| `wrappers.dfy` | `Wrappers` | `Option` and `Result` |
| `dicts.dfy` | `Dicts` | Python's insertion-ordered `dict` as `Dict<V>`: the key order plus a `map` |
| `keys.dfy` | `Keys` | `str(n)` of a natural number, `str.zfill`, `s[:n]`, and the three county keys with their lemmas |
| `intparse.dfy` | `IntParse` | Python's `int(s)` on a string, as an `Option` |
| `aggregate.dfy` | `Aggregate` | per-key sums, the summing loop, exact ratios |
| `census.dfy` | `Census` | the census stage |
| `distancing.dfy` | `Distancing` | the distancing stage |
| `merge.dfy` | `Merge` | the merge stage, and how the stage outputs come back through the files |

The loops of the script become methods with loop invariants:

- the parse loop;
- the two summing loops;
- the two ratio loops;
- the block-group key loop;
- the merge's write loop.

Each method's postcondition ties its result to a specification function: the records that
parse, the sum over the rows of a county, or the inner join. The properties are then lemmas
about those functions. The list and dict comprehensions are functions.

Each ratio is an exact `real` quotient. The census stage divides Python integers, so a county
whose males and females add up to zero raises `ZeroDivisionError` and stops the script;
`PreprocessCensusData` returns `Failure(ZeroPopulation(county))` for it. The distancing stage
divides numpy integers, which do not raise: a zero device total gives infinity or
not-a-number. `ProportionStayedAtHome` returns `None` for that county rather than requiring a
non-zero total.

A 12-digit block group code starts with the 2-digit state code and the 3-digit county code, so
its county key is meant to be its first five digits, e.g. `"010010001001"` gives `"01001"`.
The code as written does something else for states 01-09 (see Findings). The model keeps both.
The distancing stage takes a `Distancing.KeyRule`: `AsWritten` is `str(code)[:5]`, which the
script runs, and `Corrected` pads the code back to twelve digits first. Every stage member and
lemma is stated for either rule, except the Autauga example (one lemma per rule) and the
reload lemma of the merge (corrected rule only). The code does not
check that codes are numeric or of the right width, and the model follows the code:
`Keys.CountyKey` concatenates any two strings.

## Model

| member | source | states |
|---|---|---|
| Keys.ZFill | scripts/preprocess_data.py:205-208 | `str.zfill`: the result has length `max(len, width)`; a string at least `width` long is returned unchanged; otherwise zeros are inserted in front, after a leading sign if there is one |
| Keys.ZFillShortKey | scripts/preprocess_data.py:205-208 | an unsigned key no longer than the width pads to exactly `'0' * (width - len)` followed by the key |
| Keys.ZFillIdempotent | scripts/preprocess_data.py:205-208 | padding an already padded key changes nothing |
| Keys.ZFillPreservesValue | scripts/preprocess_data.py:205-208 | padding a digit string keeps it a digit string with the same numeric value |
| Keys.ZFillSameCounty | scripts/preprocess_data.py:205-208 | two digit strings no longer than the width pad to the same key exactly when they have the same numeric value |
| Keys.ZFillRestoresDigits | scripts/preprocess_data.py:205-208 | padding `str(int(s))` back to `len(s)` restores the digit string `s`, so the leading zeros lost by reading a code as a number come back |
| Keys.Decimal | scripts/preprocess_data.py:144 | `str(n)` of a natural number is a canonical digit string: no leading zero except for 0 itself |
| Keys.DecimalValue | scripts/preprocess_data.py:144 | `str(n)` reads back as `n` |
| Keys.CanonicalDecimal | scripts/preprocess_data.py:144 | every canonical digit string is `str(n)` of its own value |
| Keys.Take | scripts/preprocess_data.py:144 | `s[:n]` has length `min(n, len(s))` and is a prefix of `s` |
| Keys.CountyKey | scripts/preprocess_data.py:78-82 | the census county key is the state code followed by the county code: its length is the sum of the two lengths, it starts with the state code and ends with the county code |
| Keys.CountyKeyInjective | scripts/preprocess_data.py:78-82 | when state codes have equal width, two rows get the same key exactly when both codes agree |
| Keys.CountyKeyAmbiguousWithoutWidths | scripts/preprocess_data.py:78-82 | without fixed widths the concatenation is ambiguous: state "1" with county "0010" and state "10" with county "010" both give "10010" |
| Keys.BlockGroupCountyKeyAsWritten | scripts/preprocess_data.py:143-145 | the key as written: the first `min(5, len)` characters of `str(code)`, a prefix of it |
| Keys.LeadingZeroStateMisKeyed | scripts/preprocess_data.py:143-145 | for a 12-digit block group code of a state 01-09, the key as written is digits 2-6 of the code, not its county digits 1-5 |
| Keys.AutaugaBlockGroupMisKeyed | scripts/preprocess_data.py:143-145 | block group 010010001001 is keyed "10010" by the code as written |
| Keys.BlockGroupCountyKey | scripts/preprocess_data.py:143-145 | the corrected key is five digits and a prefix of the code padded to its twelve digits |
| Keys.BlockGroupCountyKeyIsCountyPrefix | scripts/preprocess_data.py:143-145 | for every 12-digit block group code, the corrected key is exactly its first five digits, the county |
| IntParse.ParseInt | scripts/preprocess_data.py:50-51 | `int(cell)`: a number comes only from a cell whose stripped text ends in a digit, and a negative number only from one that starts with '-' |
| IntParse.IntToString | scripts/preprocess_data.py:205-208 | `str(n)` of an integer: a leading '-' exactly when `n` is negative, followed by the canonical digits whose value is the magnitude of `n` |
| IntParse.ParseIntDigits | scripts/preprocess_data.py:50-51 | `int(s)` of a non-empty digit string is its value |
| IntParse.ParseIntNegative | scripts/preprocess_data.py:50-51 | a minus sign followed by a non-empty digit string `d` parses to minus the value of `d` |
| IntParse.ParseIntRoundTrip | scripts/preprocess_data.py:50-51 | `int(str(n)) == n` for every integer |
| IntParse.ParseIntIgnoresSurroundingSpace | scripts/preprocess_data.py:50-51 | `int` ignores any run of whitespace before the number and any run after it (spaces, tabs, newlines), so a padded cell parses to what the bare cell does |
| IntParse.ParseIntNeedsDigit | scripts/preprocess_data.py:50-51 | a cell without a digit makes `int` raise |
| Census.ParseCensusRow | scripts/preprocess_data.py:45-58 | the `try` body on one row: a record exactly when the row reaches the female column and both count cells parse; the record keeps the state and county codes as they stand in the row and holds the two numbers the count cells spell |
| Census.ParseCensusRowRoundTrip | scripts/preprocess_data.py:45-58 | a row whose count cells hold `str(m)` and `str(f)` yields the record with counts `m` and `f` and the row's two codes |
| Census.ParseCensusRowSkipsNonNumeric | scripts/preprocess_data.py:45-61 | a row whose male or female cell has no digit in it (blank, "N/A") raises and is skipped |
| Census.ParseCensusRows | scripts/preprocess_data.py:43-61 | the parse loop gives four lists of equal length, position by position the fields of the rows that parse, in row order |
| Census.SkippedRowAddsNothing | scripts/preprocess_data.py:45-61 | a row that raises contributes nothing, wherever it sits |
| Census.ParsedRowAddsItsRecord | scripts/preprocess_data.py:45-61 | a row that parses contributes exactly its record, at its place |
| Census.ParsedRecordsAppend | scripts/preprocess_data.py:45-61 | parsing two runs of rows one after the other gives the records of the first run, then those of the second |
| Census.CountyKeys | scripts/preprocess_data.py:78-82 | the key comprehension gives one key per parsed row, and each key splits back, at the width of its state code, into that state code and that county code |
| Census.ColumnsOfRecords | scripts/preprocess_data.py:78-82 | the key comprehension and the count lists are the key column and count columns of the parsed records |
| Dicts.FromKeys | scripts/preprocess_data.py:86-89 | `{fips: 0 for fips in keys}`: a valid dict holding every key exactly once, in order of first appearance, each with the given value |
| Dicts.Dict.Put | scripts/preprocess_data.py:105 | `d[k] = v`: the value of `k` becomes `v`; a new key is appended to the iteration order and an existing key keeps its position; the dict stays valid |
| Dicts.Dict.Items | scripts/preprocess_data.py:119 | `d.items()`: one pair per key, in the dict's iteration order, each with that key's value |
| Aggregate.SumPairsByKey | scripts/preprocess_data.py:86-96 | the summing loop: both dicts have exactly the row keys, in order of first appearance; each key's total is the sum of that column over the rows with that key; each dict's totals add up to the column's grand total |
| Aggregate.AddRow | scripts/preprocess_data.py:95-96 | `totals[k] += v` for row i: the key set is unchanged and every key's counter becomes its sum over rows 0..i |
| Aggregate.SumForSplit | scripts/preprocess_data.py:90-96 | a county's sum over two runs of rows is its sum over the first run plus its sum over the second |
| Aggregate.SumForAbsent | scripts/preprocess_data.py:90-96 | a key no row has sums to zero |
| Aggregate.GrandTotal | scripts/preprocess_data.py:86-96 | the per-county sums over the distinct keys add up to the sum over all rows |
| Aggregate.TotalOverIsSumOverCounties | scripts/preprocess_data.py:86-96 | adding a dict's totals up in its order is adding up the per-county sums |
| Aggregate.SumForNonNegative | scripts/preprocess_data.py:90-96 | non-negative counts give a non-negative county total |
| Aggregate.SumForMonotone | scripts/preprocess_data.py:151-160 | when every row's first count is at most its second, so is every county's total |
| Aggregate.Ratio | scripts/preprocess_data.py:102 | the exact quotient: times the denominator it gives the numerator, and it lies in [0, 1] when 0 <= numerator <= denominator |
| Census.CountyTotals | scripts/preprocess_data.py:43-96 | parse and sum together: the totals dicts have the keys of the parsed records in order of first appearance, and each value is the county's male or female total |
| Census.ProportionMale | scripts/preprocess_data.py:99-105 | `males / (males + females)`: times the population it gives the males, and it lies in [0, 1] when neither count is negative |
| Census.ProportionsMale | scripts/preprocess_data.py:98-105 | the ratio loop assigns `d[k] = proportion` in row order, so the dict's order is derived from those insertions: it succeeds exactly when no county's total is zero; otherwise it stops at the first row key, in row order, whose total is zero; on success every county gets exactly one proportion, in order of first appearance |
| Census.PreprocessCensusData | scripts/preprocess_data.py:10-121 | an empty table fails for the missing header; otherwise the stage succeeds exactly when every county has a non-zero population, writes one row per county in order of first appearance with its proportion of males, or else names a county whose population is zero |
| Census.CensusProportions | scripts/preprocess_data.py:98-121 | from the county totals of the parsed records: the rows written when every county is populated, one per county in order of first appearance with its proportion of males, or else a county whose population is zero |
| Census.PopulatedByTotals | scripts/preprocess_data.py:98-105 | the loop's zero test on the dict totals is the same as asking every county of the records to have a non-zero population |
| Census.ItemsAreCensusOutput | scripts/preprocess_data.py:118-121 | writing the items of the proportions dict gives the census output rows |
| Census.CensusProportionsAreFractions | scripts/preprocess_data.py:99-105 | when no count is negative, every proportion of males written lies in [0, 1] |
| Distancing.ExtractCountyKeys | scripts/preprocess_data.py:142-145 | the key loop gives one key per mobility row, in row order, under either key rule: with the rule as written each key is a prefix of `str(code)`, i.e. `str(code)[:5]`; with the corrected rule each is five digits, the county part of the code padded to twelve digits |
| Distancing.ProportionStayedAtHome | scripts/preprocess_data.py:167-168 | `home / devices`: undefined (numpy's infinity or not-a-number) exactly when there are no devices; otherwise times the devices it gives the home count, and it lies in [0, 1] when 0 <= home <= devices |
| Distancing.ProportionsStayedAtHome | scripts/preprocess_data.py:164-171 | the ratio loop assigns `d[k] = proportion` while walking the device dict, so the new dict has the device dict's keys in the same order, each with its county's proportion |
| Distancing.PreprocessDistancingData | scripts/preprocess_data.py:125-183 | for either key rule (the script runs the rule as written), the stage writes one row per county key in order of first appearance, with the proportion of its devices that stayed at home |
| Distancing.DistancingProportionsAreFractions | scripts/preprocess_data.py:164-171 | under either key rule, when every row has 0 <= home <= devices, every proportion written lies in [0, 1] |
| Distancing.AutaugaScenario | scripts/preprocess_data.py:140-171 | with the corrected key, two Autauga block groups with 100 and 50 devices, 20 and 10 at home, make one county "01001" with 150 devices, 30 at home and a proportion of 0.2 |
| Distancing.AutaugaScenarioAsWritten | scripts/preprocess_data.py:140-160 | with the key as written, the same two block groups are both keyed "10010", which gets their 150 devices and 30 at home, while Autauga's own code "01001" gets no row and no devices |
| Distancing.TwoRowsOneCounty | scripts/preprocess_data.py:151-160 | under either key rule, two mobility rows with the same key are both keyed by it, and its device and at-home totals are the sums of the two rows' counts |
| Distancing.OtherCountyGetsNothing | scripts/preprocess_data.py:151-160 | two rows with the same key give no row and no devices to any other key |
| Merge.PaddedKey | scripts/preprocess_data.py:205-208 | `str(fips).zfill(5)`: at least five characters; for a non-negative code, digits of the same value; exactly five for codes below 100000 |
| Merge.PaddedKeyRestoresCountyKey | scripts/preprocess_data.py:205-208 | a five-digit county code read as an integer and padded is the code again |
| Merge.ReloadRestoresKeys | scripts/preprocess_data.py:199-208 | a table with five-digit county codes, read back with integer codes and padded, is the table again |
| Merge.DistancingKeysSurviveReload | scripts/preprocess_data.py:199-208 | with the corrected key rule, the distancing stage's output survives being written, read back and padded |
| Merge.CensusKeysSurviveReload | scripts/preprocess_data.py:199-208 | with two-digit state codes and three-digit county codes, the census stage's output survives being written, read back and padded |
| Merge.PadKeys | scripts/preprocess_data.py:205-208 | the padding comprehension keeps every row and its value and pads its county code |
| Merge.ToDict | scripts/preprocess_data.py:211-218 | the dict comprehension has exactly the table's county codes, in order of first appearance |
| Merge.LaterRowWins | scripts/preprocess_data.py:211-218 | when two rows share a county code, the dict keeps the value of the last one |
| Merge.InnerJoin | scripts/preprocess_data.py:229-237 | every merged row is a county of the census order that the distancing dict has, with its census value and its distancing value |
| Merge.MergeTables | scripts/preprocess_data.py:229-237 | the write loop produces the inner join of the census dict, in its order, with the distancing dict |
| Merge.InnerJoinMembers | scripts/preprocess_data.py:229-237 | a county is merged exactly when the census dict has it and the distancing dict has it too; other census counties are dropped |
| Merge.InnerJoinFollowsOrder | scripts/preprocess_data.py:229-237 | the merged rows follow the census order, so no county is written twice |
| Merge.JoinOfDictsIsMerge | scripts/preprocess_data.py:211-237 | the inner join of the two dicts built from the tables has no county twice, follows the census table's first-appearance order, holds a county exactly when both tables have it, and carries each table's last value for it |
| Merge.MergeCensusAndDistancingData | scripts/preprocess_data.py:187-237 | the merge stage writes each county present in both padded tables exactly once, in census order of first appearance, with the last census value and the last distancing value for that county |

## Left out

- File reading and writing is not modelled: `open`, `csv.reader`, `csv.writer`, `pd.read_csv` and the file paths. Each stage takes its table as a sequence of rows and returns the rows it would write.
- Reading the census file with `errors="ignore"` is not modelled. The rows are given as already-decoded strings.
- The merge reads each county column back as integers, which is modelled as `(int, value)` rows. `Merge.Reload` describes that read for a column of digit strings. The float values are carried through unchanged.
- The per-row `print(e)` in the parse loop is left out, as is `__main__`.
- `analyze_merged_data` and `spearmanr` are left out. They are a floating-point statistics routine that is outside the pipeline.
- Floating-point rounding of the two divisions is not modelled. Each proportion is an exact rational number.
- Distancing.ProportionStayedAtHome: numpy's infinity and not-a-number, and their warnings, are collapsed into one `None`.
- Integers are unbounded. numpy's int64 wrap-around when summing device counts is not modelled.
- IntParse.ParseInt: Python's `int` also accepts underscores between digits and non-ASCII digits and spaces. The model accepts only ASCII digits with an optional sign and surrounding ASCII whitespace, so those inputs are treated as rows that raise.
- Census.ParseCensusRows: only the two errors the row body can raise are modelled, a missing column and a count that does not parse. The `except Exception` clause catches those.
- Census.PreprocessCensusData: a `ZeroDivisionError` ends the run. The model returns the failing county instead of the proportions computed before it, since the script writes no file in that case.
- Merge.DistancingKeysSurviveReload: stated for the corrected key rule only. Under the rule as written, a key of a code below 10000 is shorter than five characters, and padding it changes it.

## Findings

| source | as written | input that shows it | evidently intended | confidence | as-written member | corrected member |
|---|---|---|---|---|---|---|
| scripts/preprocess_data.py:143-145 | `str(full_fips_code)[:5]` on a block group code that `pd.read_csv` has parsed as an integer, so the leading zero of states 01-09 is gone | block group 010010001001 (Autauga County, Alabama) is read as 10010001001 and keyed "10010" instead of "01001" | pad the code back to its twelve digits before taking the first five, so the key is the county | high; not executed | Keys.LeadingZeroStateMisKeyed | Keys.BlockGroupCountyKeyIsCountyPrefix |
