/**
 * The distancing stage: key every mobility row by the county of its census block
 * group, add the device counts up per county and turn each county's totals into
 * the proportion of devices that stayed completely at home.
 */
module Distancing {
  import opened Wrappers
  import opened Dicts
  import opened Keys
  import opened Aggregate

  /** The three columns the script reads from a mobility row. */
  datatype MobilityRow = MobilityRow(originCensusBlockGroup: nat, deviceCount: int, completelyHomeDeviceCount: int)

  /**
   * How a block group code becomes a county key. `AsWritten` is the script's
   * `str(code)[:5]` on the integer the CSV reader produced, which drops the
   * leading zero of states 01-09; `Corrected` pads the code back to its twelve
   * digits first. The stage below is stated for either rule.
   */
  datatype KeyRule = AsWritten | Corrected

  function RowKey(rule: KeyRule, blockGroup: nat): string
  {
    match rule
    case AsWritten => BlockGroupCountyKeyAsWritten(blockGroup)
    case Corrected => BlockGroupCountyKey(blockGroup)
  }

  /** The key loop: the county key of every row, in row order. */
  method ExtractCountyKeys(rule: KeyRule, rows: seq<MobilityRow>) returns (keys: seq<string>)
    ensures |keys| == |rows|
    ensures forall i | 0 <= i < |rows| :: keys[i] == RowKey(rule, rows[i].originCensusBlockGroup)
    ensures rule.AsWritten? ==> forall i | 0 <= i < |rows| :: keys[i] <= Decimal(rows[i].originCensusBlockGroup)
    ensures rule.Corrected? ==> forall i | 0 <= i < |rows| :: |keys[i]| == CountyKeyWidth && AllDigits(keys[i])
  {
    keys := [];
    for i := 0 to |rows|
      invariant |keys| == i
      invariant forall j | 0 <= j < i :: keys[j] == RowKey(rule, rows[j].originCensusBlockGroup)
    {
      keys := keys + [RowKey(rule, rows[i].originCensusBlockGroup)];
    }
  }

  /** The county key of every row. */
  function MobilityKeys(rule: KeyRule, rows: seq<MobilityRow>): (keys: seq<string>)
    ensures |keys| == |rows|
  {
    seq(|rows|, i requires 0 <= i < |rows| => RowKey(rule, rows[i].originCensusBlockGroup))
  }

  function DeviceCounts(rows: seq<MobilityRow>): (counts: seq<int>)
    ensures |counts| == |rows|
  {
    seq(|rows|, i requires 0 <= i < |rows| => rows[i].deviceCount)
  }

  function HomeCounts(rows: seq<MobilityRow>): (counts: seq<int>)
    ensures |counts| == |rows|
  {
    seq(|rows|, i requires 0 <= i < |rows| => rows[i].completelyHomeDeviceCount)
  }

  /** Total devices of the rows keyed `k`. */
  function DevicesIn(rule: KeyRule, rows: seq<MobilityRow>, k: string): int
  {
    SumFor(MobilityKeys(rule, rows), DeviceCounts(rows), k)
  }

  /** Total devices that stayed completely at home, over the rows keyed `k`. */
  function HomeIn(rule: KeyRule, rows: seq<MobilityRow>, k: string): int
  {
    SumFor(MobilityKeys(rule, rows), HomeCounts(rows), k)
  }

  /**
   * `home / devices` as an exact quotient. The division is numpy's, which does not
   * raise on a zero divisor: `None` stands for the infinity or not-a-number it
   * yields then.
   */
  function ProportionStayedAtHome(home: int, devices: int): (p: Option<real>)
    ensures p.None? <==> devices == 0
    ensures p.Some? ==> p.value * devices as real == home as real
    ensures p.Some? && 0 <= home <= devices ==> 0.0 <= p.value <= 1.0
  {
    if devices == 0 then None else Some(Ratio(home, devices))
  }

  /**
   * The ratio loop: walks the device totals in their order and stores each
   * county's proportion, so the result has the same keys in the same order.
   */
  method ProportionsStayedAtHome(deviceTotals: Dict<int>, homeTotals: Dict<int>)
    returns (proportions: Dict<Option<real>>)
    requires deviceTotals.Valid()
    requires forall k | k in deviceTotals.entries :: k in homeTotals.entries
    ensures proportions.Valid() && proportions.order == deviceTotals.order
    ensures forall k :: k in proportions.entries <==> k in deviceTotals.entries
    ensures forall k | k in deviceTotals.entries ::
              proportions.entries[k] == ProportionStayedAtHome(homeTotals.entries[k], deviceTotals.entries[k])
  {
    var order := deviceTotals.order;
    proportions := Dict([], map[]);
    for i := 0 to |order|
      invariant proportions.Valid() && proportions.order == order[..i]
      invariant forall k | k in proportions.entries ::
                  k in deviceTotals.entries
                  && proportions.entries[k] == ProportionStayedAtHome(homeTotals.entries[k], deviceTotals.entries[k])
    {
      var k := order[i];
      assert order[..i + 1] == order[..i] + [k];
      proportions := proportions.Put(k, ProportionStayedAtHome(homeTotals.entries[k], deviceTotals.entries[k]));
    }
    assert order[..|order|] == order;
  }

  /**
   * `rows` is the distancing output for the mobility rows: one row per county,
   * in order of first appearance, holding the county's proportion of devices
   * that stayed at home.
   */
  ghost predicate IsDistancingOutput(rule: KeyRule, mobility: seq<MobilityRow>, rows: seq<(string, Option<real>)>)
  {
    var counties := Dedup(MobilityKeys(rule, mobility));
    && |rows| == |counties|
    && forall i | 0 <= i < |rows| ::
         rows[i] == (counties[i], ProportionStayedAtHome(HomeIn(rule, mobility, counties[i]), DevicesIn(rule, mobility, counties[i])))
  }

  /**
   * The distancing stage from the mobility rows to the rows of the output file;
   * the script runs it with `AsWritten`.
   */
  method PreprocessDistancingData(rule: KeyRule, mobility: seq<MobilityRow>) returns (rows: seq<(string, Option<real>)>)
    ensures IsDistancingOutput(rule, mobility, rows)
  {
    var keys := ExtractCountyKeys(rule, mobility);
    assert keys == MobilityKeys(rule, mobility);
    var deviceTotals, homeTotals := SumPairsByKey(keys, DeviceCounts(mobility), HomeCounts(mobility));
    var proportions := ProportionsStayedAtHome(deviceTotals, homeTotals);
    rows := proportions.Items();
  }

  /**
   * Where every row counts no more devices at home than devices, and no
   * negative count, every county with devices gets a proportion in [0, 1].
   */
  lemma DistancingProportionsAreFractions(rule: KeyRule, mobility: seq<MobilityRow>, rows: seq<(string, Option<real>)>)
    requires IsDistancingOutput(rule, mobility, rows)
    requires forall i | 0 <= i < |mobility| ::
               0 <= mobility[i].completelyHomeDeviceCount <= mobility[i].deviceCount
    ensures forall i | 0 <= i < |rows| :: rows[i].1.Some? ==> 0.0 <= rows[i].1.value <= 1.0
  {
    forall i | 0 <= i < |rows| ensures rows[i].1.Some? ==> 0.0 <= rows[i].1.value <= 1.0 {
      var keys := MobilityKeys(rule, mobility);
      var k := Dedup(keys)[i];
      SumForNonNegative(keys, HomeCounts(mobility), k);
      SumForMonotone(keys, HomeCounts(mobility), DeviceCounts(mobility), k);
    }
  }

  /**
   * Two block groups of Autauga County (01001) with 100 and 50 devices, 20 and 10
   * of them at home: with the corrected key, one county "01001" with 150 devices,
   * 30 at home and a proportion of 0.2.
   */
  lemma AutaugaScenario()
    ensures var mobility := [MobilityRow(DigitsValue("010010001001"), 100, 20), MobilityRow(DigitsValue("010010001002"), 50, 10)];
            && MobilityKeys(Corrected, mobility) == ["01001", "01001"]
            && DevicesIn(Corrected, mobility, "01001") == 150 && HomeIn(Corrected, mobility, "01001") == 30
            && ProportionStayedAtHome(HomeIn(Corrected, mobility, "01001"), DevicesIn(Corrected, mobility, "01001")) == Some(0.2)
  {
    var b1, b2 := DigitsValue("010010001001"), DigitsValue("010010001002");
    AutaugaKeys();
    TwoRowsOneCounty(Corrected, MobilityRow(b1, 100, 20), MobilityRow(b2, 50, 10), "01001");
    assert ProportionStayedAtHome(30, 150) == Some(0.2);
  }

  /**
   * The same two block groups as the script keys them: both land on "10010",
   * which is not Autauga's code, and "01001" gets no rows at all.
   */
  lemma AutaugaScenarioAsWritten()
    ensures var mobility := [MobilityRow(DigitsValue("010010001001"), 100, 20), MobilityRow(DigitsValue("010010001002"), 50, 10)];
            && MobilityKeys(AsWritten, mobility) == ["10010", "10010"]
            && DevicesIn(AsWritten, mobility, "10010") == 150 && HomeIn(AsWritten, mobility, "10010") == 30
            && "01001" !in MobilityKeys(AsWritten, mobility)
            && DevicesIn(AsWritten, mobility, "01001") == 0
  {
    var b1, b2 := DigitsValue("010010001001"), DigitsValue("010010001002");
    AutaugaKeysAsWritten();
    TwoRowsOneCounty(AsWritten, MobilityRow(b1, 100, 20), MobilityRow(b2, 50, 10), "10010");
    OtherCountyGetsNothing(AsWritten, MobilityRow(b1, 100, 20), MobilityRow(b2, 50, 10), "10010", "01001");
  }

  /** Two rows keyed `k` give no row and no devices to any other key. */
  lemma OtherCountyGetsNothing(rule: KeyRule, r1: MobilityRow, r2: MobilityRow, k: string, other: string)
    requires RowKey(rule, r1.originCensusBlockGroup) == k
    requires RowKey(rule, r2.originCensusBlockGroup) == k
    requires other != k
    ensures other !in MobilityKeys(rule, [r1, r2])
    ensures DevicesIn(rule, [r1, r2], other) == 0
  {
    assert MobilityKeys(rule, [r1, r2]) == [k, k];
    SumForAbsent(MobilityKeys(rule, [r1, r2]), DeviceCounts([r1, r2]), other);
  }

  /** Two rows of the same county are summed into that county. */
  lemma TwoRowsOneCounty(rule: KeyRule, r1: MobilityRow, r2: MobilityRow, k: string)
    requires RowKey(rule, r1.originCensusBlockGroup) == k
    requires RowKey(rule, r2.originCensusBlockGroup) == k
    ensures MobilityKeys(rule, [r1, r2]) == [k, k]
    ensures DevicesIn(rule, [r1, r2], k) == r1.deviceCount + r2.deviceCount
    ensures HomeIn(rule, [r1, r2], k) == r1.completelyHomeDeviceCount + r2.completelyHomeDeviceCount
  {
    assert MobilityKeys(rule, [r1, r2]) == [k, k];
    assert DeviceCounts([r1, r2]) == [r1.deviceCount, r2.deviceCount];
    assert HomeCounts([r1, r2]) == [r1.completelyHomeDeviceCount, r2.completelyHomeDeviceCount];
    TwoRowSum(k, r1.deviceCount, r2.deviceCount);
    TwoRowSum(k, r1.completelyHomeDeviceCount, r2.completelyHomeDeviceCount);
  }

  lemma AutaugaKeys()
    ensures RowKey(Corrected, DigitsValue("010010001001")) == "01001"
    ensures RowKey(Corrected, DigitsValue("010010001002")) == "01001"
  {
    BlockGroupCountyKeyIsCountyPrefix("010010001001");
    BlockGroupCountyKeyIsCountyPrefix("010010001002");
    assert "010010001001"[..CountyKeyWidth] == "01001" == "010010001002"[..CountyKeyWidth];
  }

  lemma AutaugaKeysAsWritten()
    ensures RowKey(AsWritten, DigitsValue("010010001001")) == "10010"
    ensures RowKey(AsWritten, DigitsValue("010010001002")) == "10010"
  {
    MisKeyedAs("010010001001", "10010");
    MisKeyedAs("010010001002", "10010");
  }

  lemma MisKeyedAs(code: string, key: string)
    requires |code| == BlockGroupWidth && AllDigits(code) && code[0] == '0' && code[1] != '0'
    requires code[1..6] == key
    ensures RowKey(AsWritten, DigitsValue(code)) == key
  {
    LeadingZeroStateMisKeyed(code);
  }

  lemma TwoRowSum(k: string, a: int, b: int)
    ensures SumFor([k, k], [a, b], k) == a + b
  {
    assert [k, k][..1] == [k] && [a, b][..1] == [a];
    assert SumFor([k], [a], k) == a by { assert [k][..0] == [] && [a][..0] == []; }
  }
}
