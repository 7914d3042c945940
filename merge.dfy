/**
 * The merge stage: read the two per-county tables back, pad their county codes
 * to five characters, index each table by county, and keep the counties of the
 * census table, in its order, that the distancing table also has.
 */
module Merge {
  import opened Dicts
  import opened Keys
  import opened IntParse
  import opened Wrappers
  import Census
  import Distancing

  /** One row of the merged file. */
  datatype MergedRow<M, H> = MergedRow(countyFips: string, proportionMale: M, proportionStayedAtHome: H)

  /**
   * `str(fips).zfill(5)`: pandas reads the county column back as integers, which
   * drops leading zeros; padding restores a five-character code.
   */
  function PaddedKey(fips: int): (key: string)
    ensures |key| >= CountyKeyWidth
    ensures 0 <= fips ==> AllDigits(key) && DigitsValue(key) == fips
    ensures 0 <= fips < 100000 ==> |key| == CountyKeyWidth
  {
    var key := ZFill(IntToString(fips), CountyKeyWidth);
    if fips >= 0 then
      DecimalValue(fips);
      ZFillPreservesValue(Decimal(fips), CountyKeyWidth);
      DecimalWidth(fips);
      key
    else key
  }

  /** The county column of a table. */
  function KeyColumn<V>(rows: seq<(string, V)>): (keys: seq<string>)
    ensures |keys| == |rows|
    ensures forall i | 0 <= i < |rows| :: keys[i] == rows[i].0
  {
    seq(|rows|, i requires 0 <= i < |rows| => rows[i].0)
  }

  /** The list comprehension that pads the county column of a table. */
  function PadKeys<V>(rows: seq<(int, V)>): (padded: seq<(string, V)>)
    ensures |padded| == |rows|
    ensures forall i | 0 <= i < |rows| :: padded[i] == (PaddedKey(rows[i].0), rows[i].1)
  {
    seq(|rows|, i requires 0 <= i < |rows| => (PaddedKey(rows[i].0), rows[i].1))
  }

  /** A table as pandas reads it back from a file whose county column holds digit strings. */
  function Reload<V>(rows: seq<(string, V)>): (reloaded: seq<(int, V)>)
    requires forall i | 0 <= i < |rows| :: AllDigits(rows[i].0)
    ensures |reloaded| == |rows|
  {
    seq(|rows|, i requires 0 <= i < |rows| => (DigitsValue(rows[i].0) as int, rows[i].1))
  }

  /** The value of the last row keyed `k`. */
  function LastValue<V>(rows: seq<(string, V)>, k: string): V
    requires k in KeyColumn(rows)
    decreases |rows|
  {
    var n := |rows| - 1;
    if rows[n].0 == k then rows[n].1
    else
      KeyColumnPrefix(rows, k);
      LastValue(rows[..n], k)
  }

  /** The dict comprehension `{fips: v for fips, v in zip(...)}`. */
  function ToDict<V>(rows: seq<(string, V)>): (d: Dict<V>)
    ensures d.Valid() && d.order == Dedup(KeyColumn(rows))
    ensures forall k :: k in d.entries <==> k in KeyColumn(rows)
    decreases |rows|
  {
    if |rows| == 0 then Dict([], map[])
    else
      var n := |rows| - 1;
      assert KeyColumn(rows) == KeyColumn(rows[..n]) + [rows[n].0];
      DedupSnoc(KeyColumn(rows[..n]), rows[n].0);
      ToDict(rows[..n]).Put(rows[n].0, rows[n].1)
  }

  /** The counties of the census order that the distancing dict also holds, with both values. */
  function InnerJoin<M, H>(order: seq<string>, census: map<string, M>, distancing: map<string, H>)
    : (merged: seq<MergedRow<M, H>>)
    requires forall k | k in order :: k in census
    ensures |merged| <= |order|
    ensures forall i | 0 <= i < |merged| ::
              var k := merged[i].countyFips;
              k in order && k in distancing && merged[i] == MergedRow(k, census[k], distancing[k])
    decreases |order|
  {
    if |order| == 0 then []
    else
      var k := order[|order| - 1];
      InnerJoin(order[..|order| - 1], census, distancing)
      + if k in distancing then [MergedRow(k, census[k], distancing[k])] else []
  }

  /** The county column of the merged rows. */
  function MergedKeys<M, H>(merged: seq<MergedRow<M, H>>): (keys: seq<string>)
    ensures |keys| == |merged|
  {
    seq(|merged|, i requires 0 <= i < |merged| => merged[i].countyFips)
  }

  /**
   * The write loop: walks the census dict in its order and writes a row for
   * each county the distancing dict has; the `KeyError` of the others is
   * swallowed, so they are dropped.
   */
  method MergeTables<M, H>(census: Dict<M>, distancing: Dict<H>) returns (merged: seq<MergedRow<M, H>>)
    requires census.Valid()
    ensures merged == InnerJoin(census.order, census.entries, distancing.entries)
  {
    merged := [];
    for i := 0 to |census.order|
      invariant merged == InnerJoin(census.order[..i], census.entries, distancing.entries)
    {
      var k := census.order[i];
      assert census.order[..i + 1][..i] == census.order[..i];
      if k in distancing.entries {
        merged := merged + [MergedRow(k, census.entries[k], distancing.entries[k])];
      }
    }
    assert census.order[..|census.order|] == census.order;
  }

  /**
   * `merged` is the merge of the two padded tables: each county present in both
   * exactly once, in the census table's order of first appearance, with the last
   * census value and the last distancing value given for it.
   */
  ghost predicate IsMergeOf<M, H>(merged: seq<MergedRow<M, H>>, census: seq<(string, M)>, distancing: seq<(string, H)>)
  {
    && Distinct(MergedKeys(merged))
    && FollowsOrder(MergedKeys(merged), Dedup(KeyColumn(census)))
    && (forall k :: k in MergedKeys(merged) <==> k in KeyColumn(census) && k in KeyColumn(distancing))
    && forall i | 0 <= i < |merged| ::
         && merged[i].countyFips in KeyColumn(census)
         && merged[i].countyFips in KeyColumn(distancing)
         && merged[i].proportionMale == LastValue(census, merged[i].countyFips)
         && merged[i].proportionStayedAtHome == LastValue(distancing, merged[i].countyFips)
  }

  /**
   * The merge stage from the two tables as read back (county codes as integers)
   * to the rows of the merged file.
   */
  method MergeCensusAndDistancingData<M, H>(census: seq<(int, M)>, distancing: seq<(int, H)>)
    returns (merged: seq<MergedRow<M, H>>)
    ensures IsMergeOf(merged, PadKeys(census), PadKeys(distancing))
  {
    var censusRows := PadKeys(census);
    var distancingRows := PadKeys(distancing);
    var censusByCounty := ToDict(censusRows);
    var distancingByCounty := ToDict(distancingRows);
    merged := MergeTables(censusByCounty, distancingByCounty);
    JoinOfDictsIsMerge(censusRows, distancingRows);
  }

  /** Joining the dicts of the two tables is their merge. */
  lemma JoinOfDictsIsMerge<M, H>(census: seq<(string, M)>, distancing: seq<(string, H)>)
    ensures IsMergeOf(InnerJoin(ToDict(census).order, ToDict(census).entries, ToDict(distancing).entries), census, distancing)
  {
    var censusByCounty, distancingByCounty := ToDict(census), ToDict(distancing);
    InnerJoinFollowsOrder(censusByCounty.order, censusByCounty.entries, distancingByCounty.entries);
    JoinOfDictsKeys(census, distancing);
    JoinOfDictsValues(census, distancing);
  }

  lemma JoinOfDictsKeys<M, H>(census: seq<(string, M)>, distancing: seq<(string, H)>)
    ensures var merged := InnerJoin(ToDict(census).order, ToDict(census).entries, ToDict(distancing).entries);
            forall k :: k in MergedKeys(merged) <==> k in KeyColumn(census) && k in KeyColumn(distancing)
  {
    var censusByCounty, distancingByCounty := ToDict(census), ToDict(distancing);
    forall k ensures k in MergedKeys(InnerJoin(censusByCounty.order, censusByCounty.entries, distancingByCounty.entries))
                     <==> k in KeyColumn(census) && k in KeyColumn(distancing) {
      InnerJoinMembers(censusByCounty.order, censusByCounty.entries, distancingByCounty.entries, k);
    }
  }

  lemma JoinOfDictsValues<M, H>(census: seq<(string, M)>, distancing: seq<(string, H)>)
    ensures var merged := InnerJoin(ToDict(census).order, ToDict(census).entries, ToDict(distancing).entries);
            forall i | 0 <= i < |merged| ::
              && merged[i].countyFips in KeyColumn(census)
              && merged[i].countyFips in KeyColumn(distancing)
              && merged[i].proportionMale == LastValue(census, merged[i].countyFips)
              && merged[i].proportionStayedAtHome == LastValue(distancing, merged[i].countyFips)
  {
    var censusByCounty, distancingByCounty := ToDict(census), ToDict(distancing);
    var merged := InnerJoin(censusByCounty.order, censusByCounty.entries, distancingByCounty.entries);
    forall i | 0 <= i < |merged|
      ensures merged[i].countyFips in KeyColumn(census) && merged[i].countyFips in KeyColumn(distancing)
      ensures merged[i].proportionMale == LastValue(census, merged[i].countyFips)
      ensures merged[i].proportionStayedAtHome == LastValue(distancing, merged[i].countyFips)
    {
      LaterRowWins(census, merged[i].countyFips);
      LaterRowWins(distancing, merged[i].countyFips);
    }
  }

  // ---------------------------------------------------------------------------
  // Join lemmas
  // ---------------------------------------------------------------------------

  /** A county is merged exactly when the census order has it and the distancing dict does too. */
  lemma {:induction false} InnerJoinMembers<M, H>(order: seq<string>, census: map<string, M>, distancing: map<string, H>, k: string)
    requires forall k | k in order :: k in census
    ensures k in MergedKeys(InnerJoin(order, census, distancing)) <==> k in order && k in distancing
    decreases |order|
  {
    if |order| > 0 {
      var prefix := order[..|order| - 1];
      var last := order[|order| - 1];
      var merged := InnerJoin(order, census, distancing);
      var before := InnerJoin(prefix, census, distancing);
      InnerJoinMembers(prefix, census, distancing, k);
      assert merged[..|before|] == before;
      if k in order && k in distancing {
        if k == last {
          assert MergedKeys(merged)[|before|] == k;
        } else {
          assert k in prefix by { assert order == prefix + [last]; }
          var j :| 0 <= j < |before| && MergedKeys(before)[j] == k;
          assert MergedKeys(merged)[j] == k;
        }
      }
    }
  }

  /**
   * The merged rows follow the census order: over a duplicate-free order, a
   * later merged row comes from a later position, so no county is merged twice.
   */
  lemma {:induction false} InnerJoinFollowsOrder<M, H>(order: seq<string>, census: map<string, M>, distancing: map<string, H>)
    requires forall k | k in order :: k in census
    requires Distinct(order)
    ensures FollowsOrder(MergedKeys(InnerJoin(order, census, distancing)), order)
    ensures Distinct(MergedKeys(InnerJoin(order, census, distancing)))
    decreases |order|
  {
    var merged := InnerJoin(order, census, distancing);
    if |order| > 0 {
      var n := |order| - 1;
      var prefix := order[..n];
      var before := InnerJoin(prefix, census, distancing);
      assert Distinct(prefix);
      InnerJoinFollowsOrder(prefix, census, distancing);
      assert merged[..|before|] == before;
      forall i | 0 <= i < |before|
        ensures merged[i].countyFips in prefix
        ensures IndexOf(order, merged[i].countyFips) == IndexOf(prefix, merged[i].countyFips) < n
      {
        IndexOfPrefix(order, n, merged[i].countyFips);
      }
      if |merged| > |before| {
        assert order[n] !in prefix;
        IndexOfUnique(order, order[n], n);
      }
      var keys, keysBefore := MergedKeys(merged), MergedKeys(before);
      forall i, j | 0 <= i < j < |keys|
        ensures keys[i] in order && keys[j] in order && IndexOf(order, keys[i]) < IndexOf(order, keys[j])
      {
        if j < |before| {
          assert keys[i] == keysBefore[i] && keys[j] == keysBefore[j];
          assert IndexOf(prefix, keysBefore[i]) < IndexOf(prefix, keysBefore[j]);
        } else {
          assert j == |before| && merged[j].countyFips == order[n];
          assert IndexOf(order, merged[j].countyFips) == n;
          assert IndexOf(order, merged[i].countyFips) < n;
        }
      }
    }
    forall i, j | 0 <= i < j < |merged| ensures MergedKeys(merged)[i] != MergedKeys(merged)[j] {
      assert IndexOf(order, MergedKeys(merged)[i]) < IndexOf(order, MergedKeys(merged)[j]);
    }
  }

  /** The last row keyed `k` is the one the dict comprehension keeps. */
  lemma {:induction false} LaterRowWins<V>(rows: seq<(string, V)>, k: string)
    requires k in KeyColumn(rows)
    ensures ToDict(rows).entries[k] == LastValue(rows, k)
    decreases |rows|
  {
    var n := |rows| - 1;
    if rows[n].0 != k {
      KeyColumnPrefix(rows, k);
      LaterRowWins(rows[..n], k);
    }
  }

  /**
   * Writing a table whose county codes are five-digit strings, reading it back
   * as integers and padding restores every code: the padding undoes the loss
   * of leading zeros.
   */
  lemma ReloadRestoresKeys<V>(rows: seq<(string, V)>)
    requires forall i | 0 <= i < |rows| :: |rows[i].0| == CountyKeyWidth && AllDigits(rows[i].0)
    ensures PadKeys(Reload(rows)) == rows
  {
    forall i | 0 <= i < |rows| ensures PadKeys(Reload(rows))[i] == rows[i] {
      PaddedKeyRestoresCountyKey(rows[i].0);
    }
  }

  /** A county code of five digits survives being read as an integer and padded. */
  lemma PaddedKeyRestoresCountyKey(key: string)
    requires |key| == CountyKeyWidth && AllDigits(key)
    ensures PaddedKey(DigitsValue(key)) == key
  {
    ZFillRestoresDigits(key);
  }

  // ---------------------------------------------------------------------------
  // From the stage outputs to the merge inputs
  // ---------------------------------------------------------------------------

  /**
   * The county codes the distancing stage writes come back unchanged through
   * reading them as integers and padding them.
   */
  lemma DistancingKeysSurviveReload(mobility: seq<Distancing.MobilityRow>, rows: seq<(string, Option<real>)>)
    requires Distancing.IsDistancingOutput(Distancing.Corrected, mobility, rows)
    ensures forall i | 0 <= i < |rows| :: AllDigits(rows[i].0)
    ensures PadKeys(Reload(rows)) == rows
  {
    var keys := Distancing.MobilityKeys(Distancing.Corrected, mobility);
    forall i | 0 <= i < |rows| ensures |rows[i].0| == CountyKeyWidth && AllDigits(rows[i].0) {
      assert rows[i].0 in keys;
    }
    ReloadRestoresKeys(rows);
  }

  /**
   * Where every census row has a two-digit state code and a three-digit county
   * code, the county codes the census stage writes come back unchanged through
   * reading them as integers and padding them.
   */
  lemma CensusKeysSurviveReload(records: seq<Census.CensusRecord>, rows: seq<(string, real)>)
    requires Census.IsCensusOutput(records, rows)
    requires forall i | 0 <= i < |records| ::
               && |records[i].stateFips| == 2 && AllDigits(records[i].stateFips)
               && |records[i].countyFips| == 3 && AllDigits(records[i].countyFips)
    ensures forall i | 0 <= i < |rows| :: AllDigits(rows[i].0)
    ensures PadKeys(Reload(rows)) == rows
  {
    var keys := Census.RecordKeys(records);
    forall i | 0 <= i < |rows| ensures |rows[i].0| == CountyKeyWidth && AllDigits(rows[i].0) {
      assert rows[i].0 in keys;
      var j :| 0 <= j < |keys| && keys[j] == rows[i].0;
      assert keys[j] == records[j].stateFips + records[j].countyFips;
    }
    ReloadRestoresKeys(rows);
  }

  /** `keys` appear in `order`, each at a later first position than the one before. */
  ghost predicate FollowsOrder(keys: seq<string>, order: seq<string>)
  {
    forall i, j | 0 <= i < j < |keys| :: keys[i] in order && keys[j] in order && IndexOf(order, keys[i]) < IndexOf(order, keys[j])
  }

  /** The first position of `k` in `s`. */
  function IndexOf(s: seq<string>, k: string): (r: nat)
    requires k in s
    ensures r < |s| && s[r] == k && k !in s[..r]
  {
    if s[0] == k then 0
    else
      assert s == [s[0]] + s[1..];
      var r := 1 + IndexOf(s[1..], k);
      assert s[..r] == [s[0]] + s[1..][..r - 1];
      r
  }

  lemma IndexOfUnique(s: seq<string>, k: string, r: nat)
    requires r < |s| && s[r] == k && k !in s[..r]
    ensures IndexOf(s, k) == r
  {
  }

  lemma IndexOfPrefix(s: seq<string>, n: nat, k: string)
    requires n <= |s| && k in s[..n]
    ensures IndexOf(s, k) == IndexOf(s[..n], k)
  {
    var r := IndexOf(s[..n], k);
    assert s[..r] == s[..n][..r];
    IndexOfUnique(s, k, r);
  }

  lemma KeyColumnPrefix<V>(rows: seq<(string, V)>, k: string)
    requires |rows| > 0 && k in KeyColumn(rows) && rows[|rows| - 1].0 != k
    ensures k in KeyColumn(rows[..|rows| - 1])
  {
    var i :| 0 <= i < |rows| && KeyColumn(rows)[i] == k;
    assert KeyColumn(rows[..|rows| - 1])[i] == k;
  }
}
