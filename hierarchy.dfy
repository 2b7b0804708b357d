/**
 * The bookkeeping of `calculate_ahp` (web_app.py, lines 119-151) around
 * the AHP library: the comparison dictionaries handed to it, built from
 * the flat judgment map with the default 1, and the per-alternative
 * profiles read back from its local weights.
 */
module Hierarchy {
  import opened Json
  import opened Wrappers
  import opened Collections
  import opened ProjectLists
  import opened JudgmentKeys
  import opened Session

  type Pair = (string, string)

  /** The pairs of `x` with each element of `rest`, in order. */
  function PairsWith(x: string, rest: seq<string>): (ps: seq<Pair>)
    ensures |ps| == |rest|
    ensures forall j :: 0 <= j < |rest| ==> ps[j] == (x, rest[j])
  {
    seq(|rest|, j requires 0 <= j < |rest| => (x, rest[j]))
  }

  /** `itertools.combinations(items, 2)` */
  function Pairs(items: seq<string>): seq<Pair>
  {
    if items == [] then [] else PairsWith(items[0], items[1..]) + Pairs(items[1..])
  }

  /** n items give n(n-1)/2 pairs. */
  lemma {:induction false} PairsCount(items: seq<string>)
    ensures 2 * |Pairs(items)| == |items| * (|items| - 1)
  {
    if items != [] {
      var n := |items|;
      PairsCount(items[1..]);
      assert 2 * |Pairs(items)| == 2 * (n - 1) + (n - 1) * (n - 2);
      assert 2 * (n - 1) + (n - 1) * (n - 2) == n * (n - 1);
    }
  }

  /** The pairs are exactly (items[i], items[j]) with i < j. */
  lemma {:induction false} PairsMembership(items: seq<string>, p: Pair)
    ensures p in Pairs(items) <==> exists i, j :: 0 <= i < j < |items| && p == (items[i], items[j])
  {
    if items != [] {
      var rest := items[1..];
      PairsMembership(rest, p);
      if p in Pairs(items) {
        if p in PairsWith(items[0], rest) {
          var j :| 0 <= j < |rest| && PairsWith(items[0], rest)[j] == p;
          assert p == (items[0], items[j + 1]);
        } else {
          assert p in Pairs(rest);
          var i, j :| 0 <= i < j < |rest| && p == (rest[i], rest[j]);
          assert p == (items[i + 1], items[j + 1]);
        }
      }
      if exists i, j :: 0 <= i < j < |items| && p == (items[i], items[j]) {
        var i, j :| 0 <= i < j < |items| && p == (items[i], items[j]);
        if i == 0 {
          assert PairsWith(items[0], rest)[j - 1] == p;
        } else {
          assert p == (rest[i - 1], rest[j - 1]);
        }
      }
    }
  }

  /** Distinct items give distinct pairs. */
  lemma {:induction false} PairsDistinct(items: seq<string>)
    requires Distinct(items)
    ensures Distinct(Pairs(items))
  {
    if items != [] {
      var rest := items[1..];
      var head, tail := PairsWith(items[0], rest), Pairs(rest);
      PairsDistinct(rest);
      forall i, j | 0 <= i < j < |head + tail| ensures (head + tail)[i] != (head + tail)[j] {
        if j < |head| {
          assert head[i].1 == items[i + 1] && head[j].1 == items[j + 1];
        } else if i < |head| {
          assert tail[j - |head|] in tail;
          PairsMembership(rest, tail[j - |head|]);
          var a, b :| 0 <= a < b < |rest| && tail[j - |head|] == (rest[a], rest[b]);
          assert tail[j - |head|].0 == items[a + 1] != items[0];
        }
      }
    }
  }

  /** The dictionary `{pair: data.get(context_a_b, 1) for pair in combinations(items, 2)}`. */
  function Comparisons(context: string, items: seq<string>, data: Object): map<Pair, Value>
  {
    map p | p in Pairs(items) :: GetOrOne(data, Key(context, p.0, p.1))
  }

  /**
   * One entry per pair (items[i], items[j]) with i < j, holding the stored
   * judgment or 1; n(n-1)/2 entries when the items are distinct.
   */
  lemma ComparisonsShape(context: string, items: seq<string>, data: Object)
    ensures forall p :: p in Comparisons(context, items, data) <==>
              exists i, j :: 0 <= i < j < |items| && p == (items[i], items[j])
    ensures forall i, j :: 0 <= i < j < |items| ==>
              Comparisons(context, items, data)[(items[i], items[j])] == GetOrOne(data, Key(context, items[i], items[j]))
    ensures Distinct(items) ==> 2 * |Comparisons(context, items, data)| == |items| * (|items| - 1)
  {
    forall p ensures p in Pairs(items) <==> exists i, j :: 0 <= i < j < |items| && p == (items[i], items[j]) {
      PairsMembership(items, p);
    }
    if Distinct(items) {
      var comps := Comparisons(context, items, data);
      PairsDistinct(items);
      PairsCount(items);
      CardinalityIffDistinct(Pairs(items));
      assert comps.Keys == ToSet(Pairs(items));
    }
  }

  /** The loop over `combinations(items, 2)` that fills one comparison dictionary. */
  method BuildComparisons(context: string, items: seq<string>, data: Object) returns (comps: map<Pair, Value>)
    ensures comps == Comparisons(context, items, data)
  {
    comps := map[];
    var pairs := Pairs(items);
    for t := 0 to |pairs|
      invariant comps == map p | p in pairs[..t] :: GetOrOne(data, Key(context, p.0, p.1))
    {
      var pair := pairs[t];
      comps := comps[pair := GetOrOne(data, Key(context, pair.0, pair.1))];
      assert forall p :: p in pairs[..t + 1] <==> p in pairs[..t] || p == pair by {
        assert pairs[..t + 1] == pairs[..t] + [pair];
      }
    }
    assert pairs[..|pairs|] == pairs;
  }

  /** What `calculate_ahp` hands to the AHP library. */
  datatype HierarchyInput = HierarchyInput(
    criteria: seq<string>,
    alternatives: seq<string>,
    criteriaComps: map<Pair, Value>,
    childNames: seq<string>,
    childrenComps: map<string, map<Pair, Value>>)

  /** The two list texts are present and are strings. */
  predicate HasListTexts(session: Object)
  {
    && CriteriaInputKey in session && session[CriteriaInputKey].Text?
    && AlternativesInputKey in session && session[AlternativesInputKey].Text?
  }

  /**
   * The loop of `calculate_ahp` that gives every criterion its dictionary
   * over the alternatives; `childNames` is that dictionary's key order,
   * each criterion at its first occurrence.
   */
  method BuildChildrenComparisons(criteria: seq<string>, alternatives: seq<string>, session: Object)
    returns (childNames: seq<string>, childrenComps: map<string, map<Pair, Value>>)
    ensures childNames == Dedup(criteria)
    ensures childrenComps.Keys == ToSet(criteria)
    ensures forall c :: c in childrenComps ==> childrenComps[c] == Comparisons(c, alternatives, session)
  {
    childrenComps := map[];
    childNames := [];
    for t := 0 to |criteria|
      invariant childNames == Dedup(criteria[..t])
      invariant childrenComps.Keys == ToSet(criteria[..t])
      invariant forall c :: c in childrenComps ==> childrenComps[c] == Comparisons(c, alternatives, session)
    {
      var crit := criteria[t];
      var tempDict := BuildComparisons(crit, alternatives, session);
      ChildrenStep(criteria, t);
      if crit !in childrenComps {
        childNames := childNames + [crit];
      }
      childrenComps := childrenComps[crit := tempDict];
    }
    assert criteria[..|criteria|] == criteria;
  }

  /** One more criterion: a new key is appended to the key order, a repeated one changes nothing. */
  lemma ChildrenStep(criteria: seq<string>, t: nat)
    requires t < |criteria|
    ensures Dedup(criteria[..t + 1]) ==
      if criteria[t] in ToSet(criteria[..t]) then Dedup(criteria[..t]) else Dedup(criteria[..t]) + [criteria[t]]
    ensures ToSet(criteria[..t + 1]) == ToSet(criteria[..t]) + {criteria[t]}
  {
    var prefix, crit := criteria[..t], criteria[t];
    assert criteria[..t + 1] == prefix + [crit];
    DedupSnoc(prefix, crit);
    ToSetSnoc(prefix, crit);
  }

  /**
   * The dictionary building of `calculate_ahp(session)`.  A missing or
   * non-text list raises inside the `try` block: no result.  The root
   * matrix compares the criteria under context "crit"; each criterion gets
   * a matrix over the alternatives under its own name.
   */
  method BuildHierarchyInput(session: Object) returns (r: Option<HierarchyInput>)
    ensures r.None? <==> !HasListTexts(session)
    ensures r.Some? ==>
      && r.value.criteria == ParseLines(session[CriteriaInputKey].s)
      && r.value.alternatives == ParseLines(session[AlternativesInputKey].s)
      && r.value.criteriaComps == Comparisons(CriteriaContext, r.value.criteria, session)
      && r.value.childNames == Dedup(r.value.criteria)
      && r.value.childrenComps.Keys == ToSet(r.value.criteria)
      && forall c :: c in r.value.childrenComps ==>
           r.value.childrenComps[c] == Comparisons(c, r.value.alternatives, session)
  {
    if !HasListTexts(session) {
      return None;
    }
    var criteria := ParseLines(session[CriteriaInputKey].s);
    var alternatives := ParseLines(session[AlternativesInputKey].s);
    var criteriaComps := BuildComparisons(CriteriaContext, criteria, session);
    var childNames, childrenComps := BuildChildrenComparisons(criteria, alternatives, session);
    r := Some(HierarchyInput(criteria, alternatives, criteriaComps, childNames, childrenComps));
  }

  /** `child.local_weights.get(alt, 0)` */
  function WeightOrZero(weights: map<string, real>, alt: string): real
  {
    if alt in weights then weights[alt] else 0.0
  }

  /** The profile of `alt`: its local weight under each child, in child order. */
  function Profile(alt: string, children: seq<map<string, real>>): (p: seq<real>)
    ensures |p| == |children|
    ensures forall j :: 0 <= j < |children| ==> p[j] == WeightOrZero(children[j], alt)
  {
    seq(|children|, j requires 0 <= j < |children| => WeightOrZero(children[j], alt))
  }

  /**
   * The profiles loop of `calculate_ahp`, given the local weights of the
   * child nodes in child order.
   */
  method BuildProfiles(alternatives: seq<string>, children: seq<map<string, real>>)
    returns (profiles: map<string, seq<real>>)
    ensures profiles.Keys == ToSet(alternatives)
    ensures forall a :: a in profiles ==> profiles[a] == Profile(a, children)
  {
    profiles := map[];
    for t := 0 to |alternatives|
      invariant profiles.Keys == ToSet(alternatives[..t])
      invariant forall a :: a in profiles ==> profiles[a] == Profile(a, children)
    {
      var alt := alternatives[t];
      profiles := profiles[alt := []];
      for k := 0 to |children|
        invariant alt in profiles && profiles[alt] == Profile(alt, children[..k])
        invariant profiles.Keys == ToSet(alternatives[..t]) + {alt}
        invariant forall a :: a in profiles && a != alt ==> profiles[a] == Profile(a, children)
      {
        profiles := profiles[alt := profiles[alt] + [WeightOrZero(children[k], alt)]];
        assert children[..k + 1][..k] == children[..k];
      }
      assert children[..|children|] == children;
      assert alternatives[..t + 1] == alternatives[..t] + [alt];
      ToSetSnoc(alternatives[..t], alt);
    }
    assert alternatives[..|alternatives|] == alternatives;
  }

  /**
   * When every local weight lies in [0, 1], so does every profile entry:
   * the radar chart's radial axis (web_app.py, line 168) fits them all.
   */
  lemma ProfileInUnitRange(alt: string, children: seq<map<string, real>>)
    requires forall j, a :: 0 <= j < |children| && a in children[j] ==> 0.0 <= children[j][a] <= 1.0
    ensures forall j :: 0 <= j < |children| ==> 0.0 <= Profile(alt, children)[j] <= 1.0
  {
  }

  /** An alternative no child weighs has the all-zero profile. */
  lemma UnweighedAlternativeProfile(alt: string, children: seq<map<string, real>>)
    requires forall j :: 0 <= j < |children| ==> alt !in children[j]
    ensures Profile(alt, children) == seq(|children|, j => 0.0)
  {
  }
}
