/**
 * Judgment keys (web_app.py, lines 43, 126, 131): a judgment of item `a`
 * against item `b` in comparison context `prefix` is stored under the
 * flat key `prefix + "_" + a + "_" + b`.  The context is "crit" for the
 * criteria matrix and the criterion's own name for its alternatives.
 */
module JudgmentKeys {
  import opened PyStr

  /** The context marker of the root (criteria) comparisons. */
  const CriteriaContext: string := "crit"

  function Key(prefix: string, a: string, b: string): (k: string)
    ensures '_' in k
    ensures StartsWith(k, prefix + "_")
    ensures |k| == |prefix| + |a| + |b| + 2
  {
    assert (prefix + "_" + a + "_" + b)[|prefix|] == '_';
    prefix + "_" + a + "_" + b
  }

  /** Splitting at the first separator is unambiguous when the head has none. */
  lemma {:induction false} FirstSeparator(x: string, y: string, x': string, y': string)
    requires '_' !in x && '_' !in x'
    requires x + "_" + y == x' + "_" + y'
    ensures x == x' && y == y'
  {
    var s := x + "_" + y;
    assert s[|x|] == '_' && s[|x'|] == '_';
    assert x == s[..|x|] == x';
    assert y == s[|x| + 1..] == y';
  }

  /**
   * Keys identify their judgment when the context and the first item hold
   * no separator (the second item may).
   */
  lemma KeyInjective(p: string, a: string, b: string, p': string, a': string, b': string)
    requires '_' !in p && '_' !in a && '_' !in p' && '_' !in a'
    requires Key(p, a, b) == Key(p', a', b')
    ensures p == p' && a == a' && b == b'
  {
    assert Key(p, a, b) == p + "_" + (a + "_" + b);
    assert Key(p', a', b') == p' + "_" + (a' + "_" + b');
    FirstSeparator(p, a + "_" + b, p', a' + "_" + b');
    FirstSeparator(a, b, a', b');
  }

  /** Without that condition two different judgments share one key. */
  lemma KeyCollision(p: string, x: string, y: string, z: string)
    ensures Key(p, x + "_" + y, z) == Key(p, x, y + "_" + z)
  {
  }
}
