/**
 * The census stage: parse the rows of the population table (state code, county
 * code, number of males, number of females), key each row by county, add the
 * counts up per county and turn each county's totals into the proportion of males.
 */
module Census {
  import opened Wrappers
  import opened Dicts
  import opened Keys
  import opened IntParse
  import opened Aggregate

  /** Column positions in the census table. */
  const StateColumn: nat := 1
  const CountyColumn: nat := 2
  const MaleColumn: nat := 8
  const FemaleColumn: nat := 9

  /** The four fields the script keeps from a census row. */
  datatype CensusRecord = CensusRecord(stateFips: string, countyFips: string, males: int, females: int)

  /** Why the census stage stops without output. */
  datatype CensusError =
    | MissingHeader                      // the table has no header row to skip
    | ZeroPopulation(countyFips: string) // a county's males and females add up to zero

  /**
   * The body of the `try` block for one row: `None` where indexing the row or
   * parsing one of the two counts raises. A record keeps the two codes exactly
   * as they stand in the row, and holds the numbers the two count cells spell.
   */
  function ParseCensusRow(row: seq<string>): (r: Option<CensusRecord>)
    ensures r.Some? <==> |row| > FemaleColumn && ParseInt(row[MaleColumn]).Some? && ParseInt(row[FemaleColumn]).Some?
    ensures r.Some? ==> r.value.stateFips == row[StateColumn] && r.value.countyFips == row[CountyColumn]
    ensures r.Some? ==> ParseInt(row[MaleColumn]) == Some(r.value.males) && ParseInt(row[FemaleColumn]) == Some(r.value.females)
  {
    if |row| <= FemaleColumn then None
    else
      match (ParseInt(row[MaleColumn]), ParseInt(row[FemaleColumn]))
      case (Some(males), Some(females)) =>
        Some(CensusRecord(row[StateColumn], row[CountyColumn], males, females))
      case _ => None
  }

  /** `f` applied to every row, in order. */
  function MapRows<A, B>(f: A -> B, rows: seq<A>): (results: seq<B>)
    ensures |results| == |rows|
    decreases |rows|
  {
    if |rows| == 0 then [] else MapRows(f, rows[..|rows| - 1]) + [f(rows[|rows| - 1])]
  }

  /** The parse result of every row. */
  function ParseResults(rows: seq<seq<string>>): (results: seq<Option<CensusRecord>>)
    ensures |results| == |rows|
  {
    MapRows(ParseCensusRow, rows)
  }

  /** The records inside the results that are present, in order. */
  function Present(results: seq<Option<CensusRecord>>): seq<CensusRecord>
    decreases |results|
  {
    if |results| == 0 then []
    else
      Present(results[..|results| - 1])
      + match results[|results| - 1] case Some(record) => [record] case None => []
  }

  /** The records of the rows that parse, in row order. */
  function ParsedRecords(rows: seq<seq<string>>): seq<CensusRecord>
  {
    Present(ParseResults(rows))
  }

  /** The county key of every record: state code followed by county code. */
  function RecordKeys(records: seq<CensusRecord>): (keys: seq<string>)
    ensures |keys| == |records|
  {
    seq(|records|, i requires 0 <= i < |records| => CountyKey(records[i].stateFips, records[i].countyFips))
  }

  function MaleCounts(records: seq<CensusRecord>): (counts: seq<int>)
    ensures |counts| == |records|
  {
    seq(|records|, i requires 0 <= i < |records| => records[i].males)
  }

  function FemaleCounts(records: seq<CensusRecord>): (counts: seq<int>)
    ensures |counts| == |records|
  {
    seq(|records|, i requires 0 <= i < |records| => records[i].females)
  }

  /** Total males of the records keyed `k`. */
  function MalesIn(records: seq<CensusRecord>, k: string): int
  {
    SumFor(RecordKeys(records), MaleCounts(records), k)
  }

  /** Total females of the records keyed `k`. */
  function FemalesIn(records: seq<CensusRecord>, k: string): int
  {
    SumFor(RecordKeys(records), FemaleCounts(records), k)
  }

  /**
   * `males / (males + females)` as an exact quotient: the share of males in the
   * county's population, between 0 and 1 when neither count is negative.
   */
  function ProportionMale(males: int, females: int): (p: real)
    requires males + females != 0
    ensures p * (males + females) as real == males as real
    ensures 0 <= males && 0 <= females ==> 0.0 <= p <= 1.0
  {
    Ratio(males, males + females)
  }

  /**
   * The parse loop: for each row, read both codes and both counts and only then
   * append all four, so a row that raises adds nothing and the four lists stay in step.
   */
  method ParseCensusRows(rows: seq<seq<string>>)
    returns (stateCodes: seq<string>, countyCodes: seq<string>, males: seq<int>, females: seq<int>)
    ensures |stateCodes| == |countyCodes| == |males| == |females| == |ParsedRecords(rows)|
    ensures forall i | 0 <= i < |stateCodes| ::
              ParsedRecords(rows)[i] == CensusRecord(stateCodes[i], countyCodes[i], males[i], females[i])
  {
    ghost var results := ParseResults(rows);
    ghost var records: seq<CensusRecord> := [];
    stateCodes, countyCodes, males, females := [], [], [], [];
    var i := 0;
    while i < |rows|
      invariant 0 <= i <= |rows|
      invariant records == Present(results[..i])
      invariant |stateCodes| == |countyCodes| == |males| == |females| == |records|
      invariant forall j | 0 <= j < |records| ::
                  records[j] == CensusRecord(stateCodes[j], countyCodes[j], males[j], females[j])
    {
      var parsed := ParseRowAt(rows, i);
      PresentStep(results, i);
      if parsed.Some? {
        records := records + [parsed.value];
        stateCodes := stateCodes + [parsed.value.stateFips];
        countyCodes := countyCodes + [parsed.value.countyFips];
        males := males + [parsed.value.males];
        females := females + [parsed.value.females];
      }
      i := i + 1;
    }
    assert results[..i] == results;
  }

  /** The `try` body on row `i`. */
  method ParseRowAt(rows: seq<seq<string>>, i: nat) returns (parsed: Option<CensusRecord>)
    requires i < |rows|
    ensures parsed == ParseResults(rows)[i]
  {
    parsed := ParseCensusRow(rows[i]);
    MapRowsAt(ParseCensusRow, rows, i);
  }

  /**
   * The key list `[s + c for s, c in zip(stateCodes, countyCodes)]`: every key
   * splits back, at the width of its state code, into its state and county code.
   */
  function CountyKeys(stateCodes: seq<string>, countyCodes: seq<string>): (keys: seq<string>)
    requires |stateCodes| == |countyCodes|
    ensures |keys| == |stateCodes|
    ensures forall i | 0 <= i < |keys| ::
              && |keys[i]| == |stateCodes[i]| + |countyCodes[i]|
              && keys[i][..|stateCodes[i]|] == stateCodes[i]
              && keys[i][|stateCodes[i]|..] == countyCodes[i]
  {
    seq(|stateCodes|, i requires 0 <= i < |stateCodes| => CountyKey(stateCodes[i], countyCodes[i]))
  }

  /**
   * The proportion loop: walks the row keys (with repeats) and stores each
   * county's share of males; the first county whose total is zero stops the
   * stage (Python raises `ZeroDivisionError`).
   */
  method ProportionsMale(keys: seq<string>, maleTotals: Dict<int>, femaleTotals: Dict<int>)
    returns (result: Result<Dict<real>, string>)
    requires forall k | k in keys :: k in maleTotals.entries && k in femaleTotals.entries
    ensures result.Success? <==> forall k | k in keys :: maleTotals.entries[k] + femaleTotals.entries[k] != 0
    ensures result.Failure? ==>
              exists i | 0 <= i < |keys| ::
                && keys[i] == result.error
                && maleTotals.entries[keys[i]] + femaleTotals.entries[keys[i]] == 0
                && forall k | k in keys[..i] :: maleTotals.entries[k] + femaleTotals.entries[k] != 0
    ensures result.Success? ==>
              && result.value.Valid()
              && result.value.order == Dedup(keys)
              && (forall k :: k in result.value.entries <==> k in keys)
              && forall k | k in keys ::
                   result.value.entries[k] == ProportionMale(maleTotals.entries[k], femaleTotals.entries[k])
  {
    var shares: Dict<real> := Dict([], map[]);
    for i := 0 to |keys|
      invariant shares.Valid() && shares.order == Dedup(keys[..i])
      invariant forall k :: k in shares.entries <==> k in keys[..i]
      invariant forall k | k in shares.entries ::
                  k in maleTotals.entries && k in femaleTotals.entries
                  && maleTotals.entries[k] + femaleTotals.entries[k] != 0
                  && shares.entries[k] == ProportionMale(maleTotals.entries[k], femaleTotals.entries[k])
    {
      var k := keys[i];
      var numMales, numFemales := maleTotals.entries[k], femaleTotals.entries[k];
      if numMales + numFemales == 0 {
        return Failure(k);
      }
      PutNextKey(shares, keys, i, ProportionMale(numMales, numFemales));
      shares := shares.Put(k, ProportionMale(numMales, numFemales));
    }
    assert keys[..|keys|] == keys;
    return Success(shares);
  }

  /** No county of the records has males and females adding up to zero. */
  ghost predicate AllPopulated(records: seq<CensusRecord>)
  {
    forall k | k in RecordKeys(records) :: MalesIn(records, k) + FemalesIn(records, k) != 0
  }

  /**
   * `rows` is the census output for `records`: one row per county, in order of
   * first appearance, holding the county's proportion of males.
   */
  ghost predicate IsCensusOutput(records: seq<CensusRecord>, rows: seq<(string, real)>)
  {
    var counties := Dedup(RecordKeys(records));
    && |rows| == |counties|
    && forall i | 0 <= i < |rows| ::
         && rows[i].0 == counties[i]
         && MalesIn(records, counties[i]) + FemalesIn(records, counties[i]) != 0
         && rows[i].1 == ProportionMale(MalesIn(records, counties[i]), FemalesIn(records, counties[i]))
  }

  /**
   * The census stage from the table as read (header row first) to the rows of
   * the output file.
   */
  method PreprocessCensusData(table: seq<seq<string>>) returns (result: Result<seq<(string, real)>, CensusError>)
    ensures table == [] <==> result == Failure(MissingHeader)
    ensures table != [] ==> (result.Success? <==> AllPopulated(ParsedRecords(table[1..])))
    ensures table != [] && result.Success? ==> IsCensusOutput(ParsedRecords(table[1..]), result.value)
    ensures table != [] && result.Failure? ==>
              && result.error.ZeroPopulation?
              && var records := ParsedRecords(table[1..]);
                 && result.error.countyFips in RecordKeys(records)
                 && MalesIn(records, result.error.countyFips) + FemalesIn(records, result.error.countyFips) == 0
  {
    if |table| == 0 {
      return Failure(MissingHeader);
    }
    var keys, maleTotals, femaleTotals := CountyTotals(table[1..]);
    result := CensusProportions(ParsedRecords(table[1..]), keys, maleTotals, femaleTotals);
  }

  /** The ratio loop on the county totals of `records`, and the rows it writes. */
  method CensusProportions(ghost records: seq<CensusRecord>, keys: seq<string>, maleTotals: Dict<int>, femaleTotals: Dict<int>)
    returns (result: Result<seq<(string, real)>, CensusError>)
    requires keys == RecordKeys(records)
    requires maleTotals.Valid() && maleTotals.order == Dedup(keys)
    requires forall k | k in keys ::
               && k in maleTotals.entries && maleTotals.entries[k] == MalesIn(records, k)
               && k in femaleTotals.entries && femaleTotals.entries[k] == FemalesIn(records, k)
    ensures result.Success? <==> AllPopulated(records)
    ensures result.Success? ==> IsCensusOutput(records, result.value)
    ensures result.Failure? ==>
              && result.error.ZeroPopulation?
              && result.error.countyFips in keys
              && MalesIn(records, result.error.countyFips) + FemalesIn(records, result.error.countyFips) == 0
  {
    PopulatedByTotals(records, keys, maleTotals, femaleTotals);
    var proportions := ProportionsMale(keys, maleTotals, femaleTotals);
    match proportions
    case Failure(k) =>
      result := Failure(ZeroPopulation(k));
    case Success(d) =>
      result := Success(d.Items());
      ItemsAreCensusOutput(records, d);
  }

  /** Every county is populated exactly when no county's totals add up to zero. */
  lemma PopulatedByTotals(records: seq<CensusRecord>, keys: seq<string>, maleTotals: Dict<int>, femaleTotals: Dict<int>)
    requires keys == RecordKeys(records)
    requires forall k | k in keys ::
               && k in maleTotals.entries && maleTotals.entries[k] == MalesIn(records, k)
               && k in femaleTotals.entries && femaleTotals.entries[k] == FemalesIn(records, k)
    ensures AllPopulated(records) <==> forall k | k in keys :: maleTotals.entries[k] + femaleTotals.entries[k] != 0
  {
  }

  /** Parses the data rows and sums the males and the females of each county. */
  method CountyTotals(rows: seq<seq<string>>) returns (keys: seq<string>, maleTotals: Dict<int>, femaleTotals: Dict<int>)
    ensures keys == RecordKeys(ParsedRecords(rows))
    ensures maleTotals.Valid() && femaleTotals.Valid()
    ensures maleTotals.order == femaleTotals.order == Dedup(keys)
    ensures forall k :: k in maleTotals.entries <==> k in keys
    ensures forall k :: k in femaleTotals.entries <==> k in keys
    ensures forall k | k in keys ::
              && maleTotals.entries[k] == MalesIn(ParsedRecords(rows), k)
              && femaleTotals.entries[k] == FemalesIn(ParsedRecords(rows), k)
  {
    ghost var records := ParsedRecords(rows);
    var stateCodes, countyCodes, males, females := ParseCensusRows(rows);
    keys := CountyKeys(stateCodes, countyCodes);
    ColumnsOfRecords(records, stateCodes, countyCodes, males, females);
    maleTotals, femaleTotals := SumPairsByKey(keys, males, females);
  }

  /** The four parsed columns are the columns of the parsed records. */
  lemma ColumnsOfRecords(records: seq<CensusRecord>, stateCodes: seq<string>, countyCodes: seq<string>,
                         males: seq<int>, females: seq<int>)
    requires |stateCodes| == |countyCodes| == |males| == |females| == |records|
    requires forall i | 0 <= i < |records| :: records[i] == CensusRecord(stateCodes[i], countyCodes[i], males[i], females[i])
    ensures CountyKeys(stateCodes, countyCodes) == RecordKeys(records)
    ensures males == MaleCounts(records) && females == FemaleCounts(records)
  {
  }

  lemma ItemsAreCensusOutput(records: seq<CensusRecord>, d: Dict<real>)
    requires d.Valid() && d.order == Dedup(RecordKeys(records))
    requires forall k | k in RecordKeys(records) ::
               MalesIn(records, k) + FemalesIn(records, k) != 0
               && d.entries[k] == ProportionMale(MalesIn(records, k), FemalesIn(records, k))
    ensures IsCensusOutput(records, d.Items())
  {
  }

  /** Where no count is negative, every proportion in the census output lies in [0, 1]. */
  lemma CensusProportionsAreFractions(records: seq<CensusRecord>, rows: seq<(string, real)>)
    requires IsCensusOutput(records, rows)
    requires forall i | 0 <= i < |records| :: records[i].males >= 0 && records[i].females >= 0
    ensures forall i | 0 <= i < |rows| :: 0.0 <= rows[i].1 <= 1.0
  {
    forall i | 0 <= i < |rows| ensures 0.0 <= rows[i].1 <= 1.0 {
      var k := Dedup(RecordKeys(records))[i];
      SumForNonNegative(RecordKeys(records), MaleCounts(records), k);
      SumForNonNegative(RecordKeys(records), FemaleCounts(records), k);
    }
  }

  // ---------------------------------------------------------------------------
  // Row parsing

  lemma PresentStep(results: seq<Option<CensusRecord>>, i: nat)
    requires i < |results|
    ensures Present(results[..i + 1]) == Present(results[..i]) + match results[i] case Some(record) => [record] case None => []
  {
    assert results[..i + 1][..i] == results[..i];
  }

  lemma {:induction false} PresentAppend(results1: seq<Option<CensusRecord>>, results2: seq<Option<CensusRecord>>)
    ensures Present(results1 + results2) == Present(results1) + Present(results2)
    decreases |results2|
  {
    if |results2| == 0 {
      assert results1 + results2 == results1;
    } else {
      var n := |results2|;
      assert (results1 + results2)[..|results1| + n - 1] == results1 + results2[..n - 1];
      assert (results1 + results2)[|results1| + n - 1] == results2[n - 1];
      PresentAppend(results1, results2[..n - 1]);
    }
  }

  lemma {:induction false} MapRowsAt<A, B>(f: A -> B, rows: seq<A>, i: nat)
    requires i < |rows|
    ensures MapRows(f, rows)[i] == f(rows[i])
    decreases |rows|
  {
    if i < |rows| - 1 {
      MapRowsAt(f, rows[..|rows| - 1], i);
    }
  }

  lemma {:induction false} MapRowsAppend<A, B>(f: A -> B, rows1: seq<A>, rows2: seq<A>)
    ensures MapRows(f, rows1 + rows2) == MapRows(f, rows1) + MapRows(f, rows2)
    decreases |rows2|
  {
    if |rows2| == 0 {
      assert rows1 + rows2 == rows1;
    } else {
      var n := |rows2|;
      assert (rows1 + rows2)[..|rows1| + n - 1] == rows1 + rows2[..n - 1];
      assert (rows1 + rows2)[|rows1| + n - 1] == rows2[n - 1];
      MapRowsAppend(f, rows1, rows2[..n - 1]);
    }
  }

  /** Parsing two batches of rows one after the other is parsing their concatenation. */
  lemma ParsedRecordsAppend(rows1: seq<seq<string>>, rows2: seq<seq<string>>)
    ensures ParsedRecords(rows1 + rows2) == ParsedRecords(rows1) + ParsedRecords(rows2)
  {
    MapRowsAppend(ParseCensusRow, rows1, rows2);
    PresentAppend(ParseResults(rows1), ParseResults(rows2));
  }

  /** One more row adds its record if it parses and nothing otherwise. */
  lemma ParsedRecordsSnoc(rows: seq<seq<string>>, row: seq<string>)
    ensures ParsedRecords(rows + [row])
            == ParsedRecords(rows) + match ParseCensusRow(row) case Some(record) => [record] case None => []
  {
    MapRowsAppend(ParseCensusRow, rows, [row]);
    assert [row][..0] == [];
    var results := MapRows(ParseCensusRow, rows);
    var last := MapRows(ParseCensusRow, [row]);
    assert last == [ParseCensusRow(row)];
    assert (results + last)[..|results|] == results;
  }

  /** A row that fails to parse, wherever it stands, changes nothing in the parsed records. */
  lemma SkippedRowAddsNothing(before: seq<seq<string>>, row: seq<string>, after: seq<seq<string>>)
    requires ParseCensusRow(row).None?
    ensures ParsedRecords(before + [row] + after) == ParsedRecords(before + after)
  {
    ParsedRecordsAppend(before + [row], after);
    ParsedRecordsSnoc(before, row);
    ParsedRecordsAppend(before, after);
  }

  /** A row that parses contributes exactly its own record, with all four fields. */
  lemma ParsedRowAddsItsRecord(before: seq<seq<string>>, row: seq<string>, after: seq<seq<string>>)
    requires ParseCensusRow(row).Some?
    ensures ParsedRecords(before + [row] + after)
            == ParsedRecords(before) + [ParseCensusRow(row).value] + ParsedRecords(after)
  {
    ParsedRecordsAppend(before + [row], after);
    ParsedRecordsSnoc(before, row);
  }

  /** A row whose count cells hold `str(m)` and `str(f)` yields those two counts and its two codes. */
  lemma ParseCensusRowRoundTrip(row: seq<string>, m: int, f: int)
    requires |row| > FemaleColumn
    requires row[MaleColumn] == IntToString(m) && row[FemaleColumn] == IntToString(f)
    ensures ParseCensusRow(row) == Some(CensusRecord(row[StateColumn], row[CountyColumn], m, f))
  {
    ParseIntRoundTrip(m);
    ParseIntRoundTrip(f);
  }

  /** A row whose male or female cell holds no digit at all (blank, "N/A") is skipped. */
  lemma ParseCensusRowSkipsNonNumeric(row: seq<string>, column: nat)
    requires column == MaleColumn || column == FemaleColumn
    requires column < |row|
    requires forall i | 0 <= i < |row[column]| :: !IsDigit(row[column][i])
    ensures ParseCensusRow(row) == None
  {
    ParseIntNeedsDigit(row[column]);
  }
}
