/**
 * Merging the ballots of several experts (web_app.py, lines 73-94): every
 * judgment key of every ballot is grouped with the values the other
 * ballots give it, each group is reduced by the geometric mean, and the
 * two list texts are taken from the first ballot.
 */
module Aggregation {
  import opened Json
  import opened Wrappers
  import opened PyStr
  import opened JudgmentKeys
  import opened Session

  /** Keys that hold a judgment: with a separator, and not one of the list keys. */
  predicate IsJudgmentKey(key: string)
  {
    '_' in key && !StartsWith(key, "criteria_") && !StartsWith(key, "alternatives_")
  }

  /** What one ballot adds to the group of `key`. */
  function Contribution(ballot: Object, key: string): (vs: seq<Value>)
    ensures |vs| == if key in ballot then 1 else 0
  {
    if key in ballot then [ballot[key]] else []
  }

  /** The group of `key`: the value of every ballot that has it, in ballot order. */
  function Collect(ballots: seq<Object>, key: string): (vs: seq<Value>)
    ensures |vs| <= |ballots|
  {
    if ballots == [] then []
    else Collect(ballots[..|ballots| - 1], key) + Contribution(ballots[|ballots| - 1], key)
  }

  /** Every key some ballot holds. */
  function KeysOf(ballots: seq<Object>): set<string>
  {
    if ballots == [] then {} else KeysOf(ballots[..|ballots| - 1]) + ballots[|ballots| - 1].Keys
  }

  /** The groups of the keys that `keep` admits. */
  function GroupedBy(ballots: seq<Object>, keep: string -> bool): map<string, seq<Value>>
  {
    map k | k in KeysOf(ballots) && keep(k) :: Collect(ballots, k)
  }

  /** `all_judgments` after all ballots are read. */
  function Grouped(ballots: seq<Object>): map<string, seq<Value>>
  {
    GroupedBy(ballots, IsJudgmentKey)
  }

  /**
   * `aggregated_data` before the list texts are added; `mean(vs)` is None
   * where `np.prod` raises on the group (a text or null value), and then
   * there is no result.
   */
  function MergedJudgments(ballots: seq<Object>, mean: seq<Value> -> Option<Value>): Option<Object>
  {
    var groups := Grouped(ballots);
    if forall k :: k in groups ==> mean(groups[k]).Some? then
      Some(map k | k in groups && mean(groups[k]).Some? :: mean(groups[k]).value)
    else None
  }

  lemma {:induction false} KeysOfMembership(ballots: seq<Object>, key: string)
    ensures key in KeysOf(ballots) <==> exists i :: 0 <= i < |ballots| && key in ballots[i]
  {
    if ballots != [] {
      var init := ballots[..|ballots| - 1];
      KeysOfMembership(init, key);
      assert forall i :: 0 <= i < |init| ==> init[i] == ballots[i];
    }
  }

  /** A key no ballot holds has an empty group. */
  lemma {:induction false} CollectAbsent(ballots: seq<Object>, key: string)
    requires key !in KeysOf(ballots)
    ensures Collect(ballots, key) == []
  {
    if ballots != [] {
      CollectAbsent(ballots[..|ballots| - 1], key);
    }
  }

  /** Exactly the judgment keys that some ballot holds are grouped. */
  lemma GroupedMembership(ballots: seq<Object>, key: string)
    ensures key in Grouped(ballots) <==> IsJudgmentKey(key) && exists i :: 0 <= i < |ballots| && key in ballots[i]
  {
    KeysOfMembership(ballots, key);
  }

  /** A ballot without the key contributes nothing to its group, not an implicit 1. */
  lemma {:induction false} CollectSkipsBallotWithout(a: seq<Object>, ballot: Object, b: seq<Object>, key: string)
    requires key !in ballot
    ensures Collect(a + [ballot] + b, key) == Collect(a + b, key)
  {
    if b == [] {
      assert (a + [ballot])[..|a|] == a;
      assert a + [ballot] + b == a + [ballot];
      assert a + b == a;
    } else {
      var b', last := b[..|b| - 1], b[|b| - 1];
      CollectSkipsBallotWithout(a, ballot, b', key);
      assert a + [ballot] + b == (a + [ballot] + b') + [last];
      assert a + b == (a + b') + [last];
      assert (a + [ballot] + b)[..|a + [ballot] + b| - 1] == a + [ballot] + b';
      assert (a + b)[..|a + b| - 1] == a + b';
    }
  }

  /** When every ballot holds the key, its group has one value per ballot, in ballot order. */
  lemma {:induction false} CollectAllHold(ballots: seq<Object>, key: string)
    requires forall i :: 0 <= i < |ballots| ==> key in ballots[i]
    ensures |Collect(ballots, key)| == |ballots|
    ensures forall i :: 0 <= i < |ballots| ==> Collect(ballots, key)[i] == ballots[i][key]
  {
    if ballots != [] {
      var init := ballots[..|ballots| - 1];
      CollectAllHold(init, key);
    }
  }

  /** When each group's mean is the entry of `expected` under the same key, the merge is `expected`. */
  lemma MergedIs(ballots: seq<Object>, mean: seq<Value> -> Option<Value>, expected: Object)
    requires forall k :: k in Grouped(ballots) <==> k in expected
    requires forall k :: k in Grouped(ballots) ==> mean(Grouped(ballots)[k]) == Some(expected[k])
    ensures MergedJudgments(ballots, mean) == Some(expected)
  {
    var groups := Grouped(ballots);
    assert forall k :: k in groups ==> mean(groups[k]).Some?;
    var merged := map k | k in groups && mean(groups[k]).Some? :: mean(groups[k]).value;
    forall k
      ensures k in merged <==> k in expected
    {
    }
    forall k | k in merged
      ensures merged[k] == expected[k]
    {
    }
    assert merged == expected;
  }

  /** A single ballot is merged into its own judgments, when the mean of one number is that number. */
  lemma SingleBallot(ballot: Object, mean: seq<Value> -> Option<Value>)
    requires forall k :: k in ballot && IsJudgmentKey(k) ==> ballot[k].Num?
    requires forall vs: seq<Value> :: |vs| == 1 && vs[0].Num? ==> mean(vs) == Some(vs[0])
    ensures MergedJudgments([ballot], mean) == Some(map k | k in ballot && IsJudgmentKey(k) :: ballot[k])
  {
    var expected := map k | k in ballot && IsJudgmentKey(k) :: ballot[k];
    var groups := Grouped([ballot]);
    forall k
      ensures k in groups <==> k in expected
    {
      IdenticalKeys([ballot], ballot, k);
    }
    forall k | k in groups
      ensures mean(groups[k]) == Some(expected[k])
    {
      IdenticalKeys([ballot], ballot, k);
      CollectAllHold([ballot], k);
      var vs := Collect([ballot], k);
      assert |vs| == 1 && vs[0] == ballot[k];
    }
    MergedIs([ballot], mean, expected);
  }

  /**
   * Identical ballots with positive judgments are merged into that
   * ballot's judgments, when the mean of equal positive numbers is that
   * number (as the geometric mean's is).
   */
  lemma IdenticalBallots(ballots: seq<Object>, ballot: Object, mean: seq<Value> -> Option<Value>)
    requires |ballots| > 0 && forall i :: 0 <= i < |ballots| ==> ballots[i] == ballot
    requires forall k :: k in ballot && IsJudgmentKey(k) ==> ballot[k].Num? && ballot[k].x > 0.0
    requires forall vs: seq<Value> :: |vs| > 0 && vs[0].Num? && vs[0].x > 0.0 && (forall i :: 0 <= i < |vs| ==> vs[i] == vs[0]) ==> mean(vs) == Some(vs[0])
    ensures MergedJudgments(ballots, mean) == Some(map k | k in ballot && IsJudgmentKey(k) :: ballot[k])
  {
    var groups := Grouped(ballots);
    var expected := map k | k in ballot && IsJudgmentKey(k) :: ballot[k];
    forall k
      ensures k in groups <==> k in expected
    {
      IdenticalKeys(ballots, ballot, k);
    }
    forall k | k in groups
      ensures mean(groups[k]) == Some(expected[k])
    {
      var vs := GroupOfIdentical(ballots, ballot, k);
      assert mean(vs) == Some(vs[0]);
    }
    MergedIs(ballots, mean, expected);
  }

  /** A text judgment in any ballot makes the merge fail, when `np.prod` fails on text. */
  lemma TextJudgmentFails(ballots: seq<Object>, mean: seq<Value> -> Option<Value>, i: nat, key: string)
    requires i < |ballots| && key in ballots[i] && IsJudgmentKey(key) && ballots[i][key].Text?
    requires forall vs: seq<Value>, v :: v in vs && v.Text? ==> mean(vs).None?
    ensures MergedJudgments(ballots, mean).None?
  {
    GroupedMembership(ballots, key);
    CollectHolds(ballots, i, key);
  }

  /** The value of every ballot that holds the key is in its group. */
  lemma {:induction false} CollectHolds(ballots: seq<Object>, i: nat, key: string)
    requires i < |ballots| && key in ballots[i]
    ensures ballots[i][key] in Collect(ballots, key)
  {
    var init := ballots[..|ballots| - 1];
    if i < |init| {
      CollectHolds(init, i, key);
    }
  }

  /** Identical ballots group exactly the judgment keys of that ballot. */
  lemma IdenticalKeys(ballots: seq<Object>, ballot: Object, key: string)
    requires |ballots| > 0 && forall i :: 0 <= i < |ballots| ==> ballots[i] == ballot
    ensures key in Grouped(ballots) <==> key in ballot && IsJudgmentKey(key)
  {
    GroupedMembership(ballots, key);
    assert key in ballot ==> key in ballots[0];
  }

  /** The group of a key in identical ballots repeats that ballot's value. */
  lemma GroupOfIdentical(ballots: seq<Object>, ballot: Object, key: string) returns (vs: seq<Value>)
    requires |ballots| > 0 && forall i :: 0 <= i < |ballots| ==> ballots[i] == ballot
    requires key in ballot
    ensures vs == Collect(ballots, key)
    ensures |vs| > 0 && vs[0] == ballot[key] && forall i :: 0 <= i < |vs| ==> vs[i] == vs[0]
  {
    CollectAllHold(ballots, key);
    vs := Collect(ballots, key);
  }

  /**
   * The invariant of the inner loop: `groups` holds the groups of the
   * earlier ballots `prev`, with `ballot` read for the keys in `done`.
   */
  ghost predicate GroupsAfter(groups: map<string, seq<Value>>, prev: seq<Object>, ballot: Object, done: set<string>, keep: string -> bool)
    requires done <= ballot.Keys
  {
    && (forall k :: k in groups <==> (k in KeysOf(prev) || k in done) && keep(k))
    && (forall k :: k in groups ==> groups[k] == if k in done then Collect(prev, k) + [ballot[k]] else Collect(prev, k))
  }

  lemma GroupsAfterNone(prev: seq<Object>, ballot: Object, keep: string -> bool)
    ensures GroupsAfter(GroupedBy(prev, keep), prev, ballot, {}, keep)
  {
  }

  /** Reading a judgment key of `ballot` appends its value to the key's group, made empty first if missing. */
  lemma GroupsAfterAppend(groups: map<string, seq<Value>>, prev: seq<Object>, ballot: Object, done: set<string>, key: string, keep: string -> bool)
    requires done <= ballot.Keys && key in ballot && key !in done && keep(key)
    requires GroupsAfter(groups, prev, ballot, done, keep)
    ensures var g := if key in groups then groups else groups[key := []];
            GroupsAfter(g[key := g[key] + [ballot[key]]], prev, ballot, done + {key}, keep)
  {
    if key !in groups {
      CollectAbsent(prev, key);
    }
  }

  /** Reading a key that is not kept leaves the groups as they are. */
  lemma GroupsAfterSkip(groups: map<string, seq<Value>>, prev: seq<Object>, ballot: Object, done: set<string>, key: string, keep: string -> bool)
    requires done <= ballot.Keys && key in ballot && key !in done && !keep(key)
    requires GroupsAfter(groups, prev, ballot, done, keep)
    ensures GroupsAfter(groups, prev, ballot, done + {key}, keep)
  {
  }

  lemma GroupsAfterAll(groups: map<string, seq<Value>>, prev: seq<Object>, ballot: Object, keep: string -> bool)
    requires GroupsAfter(groups, prev, ballot, ballot.Keys, keep)
    ensures groups == GroupedBy(prev + [ballot], keep)
  {
    KeysOfSnoc(prev, ballot);
    var h := GroupedBy(prev + [ballot], keep);
    forall k
      ensures k in groups <==> k in h
    {
    }
    forall k | k in h
      ensures groups[k] == h[k]
    {
      CollectSnoc(prev, ballot, k);
    }
  }

  lemma KeysOfSnoc(prev: seq<Object>, ballot: Object)
    ensures KeysOf(prev + [ballot]) == KeysOf(prev) + ballot.Keys
  {
    var all := prev + [ballot];
    assert all[..|all| - 1] == prev;
  }

  lemma CollectSnoc(prev: seq<Object>, ballot: Object, key: string)
    ensures Collect(prev + [ballot], key) == if key in ballot then Collect(prev, key) + [ballot[key]] else Collect(prev, key)
  {
    var all := prev + [ballot];
    assert all[..|all| - 1] == prev;
    assert Collect(prev, key) + [] == Collect(prev, key);
  }

  /**
   * One pass of the outer loop of `aggregate_expert_data`: the judgment
   * keys of `ballot` are appended to their groups.
   */
  method GroupBallot(groups: map<string, seq<Value>>, ghost prev: seq<Object>, ballot: Object)
    returns (groups': map<string, seq<Value>>)
    requires groups == Grouped(prev)
    ensures groups' == Grouped(prev + [ballot])
  {
    groups' := groups;
    var pending := ballot.Keys;
    GroupsAfterNone(prev, ballot, IsJudgmentKey);
    while pending != {}
      invariant pending <= ballot.Keys
      invariant GroupsAfter(groups', prev, ballot, ballot.Keys - pending, IsJudgmentKey)
      decreases pending
    {
      var key :| key in pending;
      ghost var done := ballot.Keys - pending;
      if '_' in key && !StartsWith(key, "criteria_") && !StartsWith(key, "alternatives_") {
        GroupsAfterAppend(groups', prev, ballot, done, key, IsJudgmentKey);
        if key !in groups' {
          groups' := groups'[key := []];
        }
        groups' := groups'[key := groups'[key] + [ballot[key]]];
      } else {
        GroupsAfterSkip(groups', prev, ballot, done, key, IsJudgmentKey);
      }
      pending := pending - {key};
      assert ballot.Keys - pending == done + {key};
    }
    GroupsAfterAll(groups', prev, ballot, IsJudgmentKey);
  }

  /**
   * The second loop of `aggregate_expert_data`: each group reduced to its
   * mean, failing as soon as one mean fails.
   */
  method MeanOfGroups(groups: map<string, seq<Value>>, mean: seq<Value> -> Option<Value>) returns (merged: Option<Object>)
    ensures merged.None? <==> exists k :: k in groups && mean(groups[k]).None?
    ensures merged.Some? ==> merged.value.Keys == groups.Keys
    ensures merged.Some? ==> forall k :: k in groups ==> mean(groups[k]) == Some(merged.value[k])
  {
    var acc: Object := map[];
    var pending := groups.Keys;
    while pending != {}
      invariant pending <= groups.Keys
      invariant acc.Keys == groups.Keys - pending
      invariant forall k :: k in acc ==> mean(groups[k]) == Some(acc[k])
      decreases pending
    {
      var key :| key in pending;
      var m := mean(groups[key]);
      if m.None? {
        return None;
      }
      acc := acc[key := m.value];
      pending := pending - {key};
    }
    merged := Some(acc);
  }

  /**
   * `aggregate_expert_data(ballots)` with `mean` for the geometric mean.
   * A group whose mean fails raises from `np.prod`, an empty upload list
   * fails on `expert_files[0]` (IndexError), and a first ballot without
   * one of the list texts raises a KeyError: no result.
   */
  method AggregateExpertData(ballots: seq<Object>, mean: seq<Value> -> Option<Value>) returns (r: Option<Object>)
    ensures r.None? <==> MergedJudgments(ballots, mean).None? || ballots == []
                         || CriteriaInputKey !in ballots[0] || AlternativesInputKey !in ballots[0]
    ensures r.Some? ==> r.value.Keys == Grouped(ballots).Keys + {CriteriaInputKey, AlternativesInputKey}
    ensures r.Some? ==> r.value[CriteriaInputKey] == ballots[0][CriteriaInputKey]
                        && r.value[AlternativesInputKey] == ballots[0][AlternativesInputKey]
    ensures r.Some? ==> forall k :: k in Grouped(ballots) ==> mean(Grouped(ballots)[k]) == Some(r.value[k])
  {
    var allJudgments: map<string, seq<Value>> := map[];
    var i := 0;
    assert ballots[..0] == [];
    while i < |ballots|
      invariant 0 <= i <= |ballots|
      invariant allJudgments == Grouped(ballots[..i])
    {
      allJudgments := GroupBallot(allJudgments, ballots[..i], ballots[i]);
      assert ballots[..i + 1] == ballots[..i] + [ballots[i]];
      i := i + 1;
    }
    assert ballots[..i] == ballots;

    var means := MeanOfGroups(allJudgments, mean);
    if means.None? {
      return None;
    }
    var aggregated := means.value;
    if ballots == [] {
      return None;
    }
    var base := ballots[0];
    if CriteriaInputKey !in base || AlternativesInputKey !in base {
      return None;
    }
    aggregated := aggregated[CriteriaInputKey := base[CriteriaInputKey]];
    aggregated := aggregated[AlternativesInputKey := base[AlternativesInputKey]];
    ListKeysAreNotJudgments();
    r := Some(aggregated);
  }

  /** The list texts are never grouped as judgments. */
  lemma ListKeysAreNotJudgments()
    ensures !IsJudgmentKey(CriteriaInputKey) && !IsJudgmentKey(AlternativesInputKey)
  {
  }

  /** Criteria judgments are always grouped. */
  lemma CriteriaKeysAreJudgments(a: string, b: string)
    ensures IsJudgmentKey(Key(CriteriaContext, a, b))
  {
    var k := Key(CriteriaContext, a, b);
    assert k[0] == 'c' && k[4] == '_';
    assert !StartsWith(k, "criteria_") && !StartsWith(k, "alternatives_");
  }

  /**
   * The alternative judgments of a criterion named "criteria" carry the
   * list-key prefix, so they are dropped from the merge.
   */
  lemma CriterionNamedCriteriaDropped(a: string, b: string)
    ensures !IsJudgmentKey(Key("criteria", a, b))
  {
  }
}
