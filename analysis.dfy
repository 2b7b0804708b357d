/**
 * The selection logic of `get_ai_analysis` (web_app.py, lines 97-116):
 * the winning alternative, the most important criterion, and the
 * consistency report.  The prose of the report and the simulated delay
 * are not modelled; the report is reduced to its verdict and the list of
 * matrices it names.
 */
module Analysis {
  import opened Wrappers

  /** A dict's items in insertion order: (name, weight or CR). */
  type Items = seq<(string, real)>

  /** The consistency threshold of the report (line 108). */
  const Threshold: real := 0.1

  /** A matrix the report flags: CR strictly above the threshold. */
  predicate Flagged(cr: real)
  {
    cr > Threshold
  }

  /** `[name for name, cr in cr_data.items() if cr > 0.1]` */
  function InconsistentMatrices(crData: Items): (names: seq<string>)
    ensures |names| <= |crData|
    ensures forall n :: n in names <==> exists i :: 0 <= i < |crData| && crData[i].0 == n && Flagged(crData[i].1)
  {
    if crData == [] then []
    else
      var rest := InconsistentMatrices(crData[1..]);
      assert forall i :: 1 <= i < |crData| ==> crData[i] == crData[1..][i - 1];
      if Flagged(crData[0].1) then [crData[0].0] + rest else rest
  }

  /** The flagged names keep the order of the CR table. */
  lemma {:induction false} InconsistentMatricesAppend(a: Items, b: Items)
    ensures InconsistentMatrices(a + b) == InconsistentMatrices(a) + InconsistentMatrices(b)
  {
    if a != [] {
      InconsistentMatricesAppend(a[1..], b);
      assert (a + b)[1..] == a[1..] + b;
      assert (a + b)[0] == a[0];
      assert a + b != [];
      var head := if Flagged(a[0].1) then [a[0].0] else [];
      assert InconsistentMatrices(a) == head + InconsistentMatrices(a[1..]);
      assert InconsistentMatrices(a + b) == head + InconsistentMatrices(a[1..] + b);
      assert head + (InconsistentMatrices(a[1..]) + InconsistentMatrices(b))
          == (head + InconsistentMatrices(a[1..])) + InconsistentMatrices(b);
    } else {
      assert a + b == b;
    }
  }

  datatype ConsistencyReport = Perfect | Low(matrices: seq<string>)

  /** The report: "perfect" exactly when no matrix is flagged. */
  function ReportConsistency(crData: Items): (r: ConsistencyReport)
    ensures r.Perfect? <==> forall i :: 0 <= i < |crData| ==> !Flagged(crData[i].1)
    ensures r.Low? ==> r.matrices != [] && r.matrices == InconsistentMatrices(crData)
  {
    var inconsistent := InconsistentMatrices(crData);
    assert inconsistent == [] <==> forall i :: 0 <= i < |crData| ==> !Flagged(crData[i].1) by {
      if inconsistent != [] {
        assert inconsistent[0] in inconsistent;
      }
      assert forall i :: 0 <= i < |crData| && Flagged(crData[i].1) ==> crData[i].0 in inconsistent;
    }
    if inconsistent == [] then Perfect else Low(inconsistent)
  }

  /**
   * The index of the first item of greatest weight: what `max(d, key=d.get)`
   * returns, and what a stable sort by descending weight puts first.
   */
  function FirstMax(items: Items): (k: nat)
    requires |items| > 0
    ensures k < |items|
    ensures forall j :: 0 <= j < |items| ==> items[j].1 <= items[k].1
    ensures forall j :: 0 <= j < k ==> items[j].1 < items[k].1
  {
    if |items| == 1 then 0
    else
      var k := FirstMax(items[..|items| - 1]);
      if items[|items| - 1].1 > items[k].1 then |items| - 1 else k
  }

  datatype AnalysisResult = AnalysisResult(
    winner: string,
    winnerWeight: real,
    bestCriterion: string,
    bestCriterionWeight: real,
    report: ConsistencyReport)

  /** `item` is the first of greatest weight among `items`. */
  predicate IsFirstMax(items: Items, item: (string, real))
  {
    exists k :: 0 <= k < |items| && items[k] == item
      && (forall j :: 0 <= j < |items| ==> items[j].1 <= items[k].1)
      && (forall j :: 0 <= j < k ==> items[j].1 < items[k].1)
  }

  /**
   * `get_ai_analysis(final_weights, criteria_weights, cr_data)`.  With no
   * alternatives or no criteria the source fails on `sorted(...)[0]` or on
   * `max` of an empty dict: no result.
   */
  function GetAiAnalysis(finalWeights: Items, criteriaWeights: Items, crData: Items): (r: Option<AnalysisResult>)
    ensures r.None? <==> finalWeights == [] || criteriaWeights == []
    ensures r.Some? ==> IsFirstMax(finalWeights, (r.value.winner, r.value.winnerWeight))
    ensures r.Some? ==> IsFirstMax(criteriaWeights, (r.value.bestCriterion, r.value.bestCriterionWeight))
    ensures r.Some? ==> (r.value.report.Perfect? <==> forall i :: 0 <= i < |crData| ==> !Flagged(crData[i].1))
    ensures r.Some? && r.value.report.Low? ==> r.value.report.matrices == InconsistentMatrices(crData)
    ensures r.Some? ==> r.value.report == ReportConsistency(crData)
  {
    if finalWeights == [] || criteriaWeights == [] then None
    else
      var w := finalWeights[FirstMax(finalWeights)];
      var c := criteriaWeights[FirstMax(criteriaWeights)];
      Some(AnalysisResult(w.0, w.1, c.0, c.1, ReportConsistency(crData)))
  }

  /** Two items of greatest weight: the earlier one wins. */
  lemma FirstMaxTieBreak(items: Items, i: nat, j: nat)
    requires i < j < |items| && items[i].1 == items[j].1
    requires forall k :: 0 <= k < |items| ==> items[k].1 <= items[i].1
    ensures FirstMax(items) <= i
  {
  }
}
