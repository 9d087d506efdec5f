/**
 * `MissedDealsPatterns`: a grouping selector over four fixed lists of
 * pattern rows, with a fallback to the niche list for any other key.
 */
module MissedDealsPatterns {

  datatype PatternRow = PatternRow(name: string, count: nat, percent: nat)

  /** The values of the grouping `<select>`. */
  const GroupingOptions: seq<string> := ["niche", "property", "owner", "value"]

  const InitialGrouping: string := "niche"

  const NicheRows: seq<PatternRow> := [
    PatternRow("Pre-foreclosure", 32, 20), PatternRow("Estate", 28, 17),
    PatternRow("Divorce", 24, 15), PatternRow("Bankruptcy", 20, 12),
    PatternRow("Tax Lien", 18, 11), PatternRow("Vacant", 16, 10)]

  const PropertyRows: seq<PatternRow> := [
    PatternRow("Single Family", 45, 28), PatternRow("Multi-Family", 32, 20),
    PatternRow("Condo", 24, 15), PatternRow("Townhouse", 20, 12),
    PatternRow("Mobile Home", 15, 9), PatternRow("Land", 12, 7)]

  const OwnerRows: seq<PatternRow> := [
    PatternRow("Absentee", 38, 24), PatternRow("Owner Occupied", 30, 19),
    PatternRow("Corporate", 28, 17), PatternRow("Trust", 22, 14),
    PatternRow("Estate", 18, 11), PatternRow("Government", 10, 6)]

  const ValueRows: seq<PatternRow> := [
    PatternRow("$0-100K", 42, 26), PatternRow("$100-200K", 35, 22),
    PatternRow("$200-300K", 28, 17), PatternRow("$300-500K", 20, 12),
    PatternRow("$500K-1M", 15, 9), PatternRow("$1M+", 8, 5)]

  /** `patternData`, keyed by grouping. */
  const PatternData: map<string, seq<PatternRow>> :=
    map["niche" := NicheRows, "property" := PropertyRows, "owner" := OwnerRows, "value" := ValueRows]

  /** `patternData[grouping] || patternData.niche`: every stored list is a
      (truthy) array, so the fallback applies exactly to unknown keys. */
  function CurrentRows(grouping: string): (rows: seq<PatternRow>)
    ensures grouping in GroupingOptions ==> rows == PatternData[grouping]
    ensures grouping !in GroupingOptions ==> rows == NicheRows
  {
    if grouping in PatternData then PatternData[grouping] else PatternData["niche"]
  }

  /** Rows listed from the most to the least frequent pattern. */
  predicate ByCountDescending(rows: seq<PatternRow>) {
    forall i, j :: 0 <= i < j < |rows| ==> rows[i].count >= rows[j].count
  }

  predicate DistinctLabels(rows: seq<PatternRow>) {
    forall i, j :: 0 <= i < j < |rows| ==> rows[i].name != rows[j].name
  }

  /** Six patterns with distinct names, listed from the most frequent down,
      each with a bar width of at most 100%. */
  predicate TopPatterns(rows: seq<PatternRow>) {
    && |rows| == 6
    && ByCountDescending(rows)
    && DistinctLabels(rows)
    && forall i :: 0 <= i < |rows| ==> rows[i].percent <= 100
  }

  /** `n` is not the name of any of `rows`. */
  predicate NotNamed(rows: seq<PatternRow>, n: string)
    decreases |rows|
  {
    rows == [] || (rows[0].name != n && NotNamed(rows[1..], n))
  }

  /** `TopPatterns` without its length, checked row by row against the next
      rows only, which is how it is established for the literal lists. */
  predicate RowByRow(rows: seq<PatternRow>)
    decreases |rows|
  {
    || rows == []
    || (&& rows[0].percent <= 100
        && NotNamed(rows[1..], rows[0].name)
        && (|rows| == 1 || rows[0].count >= rows[1].count)
        && RowByRow(rows[1..]))
  }

  lemma {:induction false} NotNamedAt(rows: seq<PatternRow>, n: string, j: nat)
    requires NotNamed(rows, n) && j < |rows|
    ensures rows[j].name != n
    decreases |rows|
  {
    if j > 0 {
      NotNamedAt(rows[1..], n, j - 1);
    }
  }

  /** The row-by-row checks give the pairwise properties. */
  lemma {:induction false} RowByRowIsTop(rows: seq<PatternRow>)
    requires RowByRow(rows)
    ensures ByCountDescending(rows) && DistinctLabels(rows)
    ensures forall i :: 0 <= i < |rows| ==> rows[i].percent <= 100
    decreases |rows|
  {
    if rows != [] {
      var tail := rows[1..];
      RowByRowIsTop(tail);
      forall j | 0 < j < |rows|
        ensures rows[0].count >= rows[j].count && rows[0].name != rows[j].name
      {
        NotNamedAt(tail, rows[0].name, j - 1);
        if j > 1 {
          assert tail[0].count >= tail[j - 1].count;
        }
      }
      forall i, j | 0 <= i < j < |rows|
        ensures rows[i].count >= rows[j].count && rows[i].name != rows[j].name
      {
        if i > 0 {
          assert rows[i] == tail[i - 1] && rows[j] == tail[j - 1];
        }
      }
      forall i | 0 <= i < |rows| ensures rows[i].percent <= 100 {
        if i > 0 {
          assert rows[i] == tail[i - 1];
        }
      }
    }
  }

  lemma NicheChecked() ensures RowByRow(NicheRows) {}
  lemma PropertyChecked() ensures RowByRow(PropertyRows) {}
  lemma OwnerChecked() ensures RowByRow(OwnerRows) {}
  lemma ValueChecked() ensures RowByRow(ValueRows) {}

  /** Whatever the selector holds, the card lists top patterns. */
  lemma CurrentRowsAreTopPatterns(grouping: string)
    ensures TopPatterns(CurrentRows(grouping))
  {
    CurrentRowsChecked(grouping);
    RowByRowIsTop(CurrentRows(grouping));
  }

  lemma CurrentRowsChecked(grouping: string)
    ensures |CurrentRows(grouping)| == 6 && RowByRow(CurrentRows(grouping))
  {
    if grouping == "property" {
      PropertyChecked();
    } else if grouping == "owner" {
      OwnerChecked();
    } else if grouping == "value" {
      ValueChecked();
    } else {
      NicheChecked();
    }
  }

  /** The initial grouping and any key the selector cannot produce both show
      the niche list. */
  lemma FallbackIsNiche(grouping: string)
    requires grouping !in PatternData
    ensures CurrentRows(grouping) == CurrentRows(InitialGrouping)
  {
  }
}
