/**
 * Python list and dict facts the application leans on: `len(set(xs))`
 * as a duplicate test, and the first-occurrence key order of a dict
 * filled by repeated assignment.
 */
module Collections {

  /** No element occurs twice. */
  predicate Distinct<T(==)>(xs: seq<T>)
  {
    forall i, j :: 0 <= i < j < |xs| ==> xs[i] != xs[j]
  }

  /** `set(xs)` */
  function ToSet<T>(xs: seq<T>): set<T>
  {
    set x | x in xs
  }

  lemma ToSetSnoc<T>(xs: seq<T>, x: T)
    ensures ToSet(xs + [x]) == ToSet(xs) + {x}
  {
    assert forall y :: y in xs + [x] <==> y in xs || y == x;
  }

  /** `len(set(xs)) == len(xs)` holds exactly when no element repeats. */
  lemma {:induction false} CardinalityIffDistinct<T>(xs: seq<T>)
    ensures |ToSet(xs)| <= |xs|
    ensures |ToSet(xs)| == |xs| <==> Distinct(xs)
  {
    if xs == [] {
      assert ToSet(xs) == {};
    } else {
      var init, x := xs[..|xs| - 1], xs[|xs| - 1];
      assert xs == init + [x];
      CardinalityIffDistinct(init);
      ToSetSnoc(init, x);
      if x in init {
        assert ToSet(xs) == ToSet(init);
        var k :| 0 <= k < |init| && init[k] == x;
        assert xs[k] == xs[|xs| - 1];
      } else {
        assert x !in ToSet(init);
        assert |ToSet(xs)| == |ToSet(init)| + 1;
        assert Distinct(xs) <==> Distinct(init) by {
          if Distinct(init) {
            forall i, j | 0 <= i < j < |xs| ensures xs[i] != xs[j] {
              if j == |xs| - 1 {
                assert xs[i] == init[i];
              }
            }
          }
        }
      }
    }
  }

  /**
   * The key order of a dict filled by `d[x] = ...` for each `x` of `xs`
   * in turn: each element at its first occurrence.
   */
  function Dedup<T(==)>(xs: seq<T>): (r: seq<T>)
    ensures Distinct(r)
    ensures ToSet(r) == ToSet(xs)
  {
    if xs == [] then []
    else
      var d := Dedup(xs[..|xs| - 1]);
      var x := xs[|xs| - 1];
      assert xs == xs[..|xs| - 1] + [x];
      ToSetSnoc(xs[..|xs| - 1], x);
      ToSetSnoc(d, x);
      if x in d then d else d + [x]
  }

  /** Appending an element: kept when new, dropped when it already occurred. */
  lemma DedupSnoc<T>(xs: seq<T>, x: T)
    ensures Dedup(xs + [x]) == if x in ToSet(xs) then Dedup(xs) else Dedup(xs) + [x]
  {
    var ys := xs + [x];
    assert ys[..|ys| - 1] == xs && ys[|ys| - 1] == x;
    assert x in Dedup(xs) <==> x in ToSet(Dedup(xs));
  }

  /** Repeated assignment over distinct keys keeps their order. */
  lemma {:induction false} DedupOfDistinct<T>(xs: seq<T>)
    requires Distinct(xs)
    ensures Dedup(xs) == xs
  {
    if xs != [] {
      var init := xs[..|xs| - 1];
      DedupOfDistinct(init);
      assert xs[|xs| - 1] !in init;
      assert xs == init + [xs[|xs| - 1]];
    }
  }

  lemma HeadTail<T>(xs: seq<T>)
    requires xs != []
    ensures [xs[0]] + xs[1..] == xs
  {
  }

  lemma ConcatAssoc<T>(a: seq<T>, b: seq<T>, c: seq<T>)
    ensures a + (b + c) == (a + b) + c
  {
  }

  lemma TailOfConcat<T>(a: seq<T>, b: seq<T>)
    requires a != []
    ensures (a + b)[1..] == a[1..] + b
  {
  }
}
