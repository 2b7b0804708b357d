/**
 * The Python string primitives the web application relies on:
 * `str.isspace`, `str.strip`, `str.split(sep)`, `sep.join` and
 * `str.startswith`.
 */
module PyStr {

  /** The characters for which Python's `str.isspace` holds. */
  predicate IsSpace(c: char)
  {
    c == ' ' || c == '\t' || c == '\n' || c == '\r' || c == '\U{0b}' || c == '\U{0c}'
    || ('\U{1c}' <= c <= '\U{1f}') || c == '\U{85}' || c == '\U{a0}' || c == '\U{1680}'
    || ('\U{2000}' <= c <= '\U{200a}') || c == '\U{2028}' || c == '\U{2029}'
    || c == '\U{202f}' || c == '\U{205f}' || c == '\U{3000}'
  }

  /** Every character of `s[lo..hi]` is whitespace. */
  predicate SpaceBetween(s: string, lo: int, hi: int)
  {
    forall i :: lo <= i < hi && 0 <= i < |s| ==> IsSpace(s[i])
  }

  /** Neither starts nor ends with whitespace. */
  predicate Stripped(s: string)
  {
    s == [] || (!IsSpace(s[0]) && !IsSpace(s[|s| - 1]))
  }

  /** `s.lstrip()`: drops the leading whitespace. */
  function StripLeft(s: string): (r: string)
    ensures |r| <= |s| && r == s[|s| - |r|..]
    ensures SpaceBetween(s, 0, |s| - |r|)
    ensures r == [] || !IsSpace(r[0])
  {
    if s != [] && IsSpace(s[0]) then
      var r := StripLeft(s[1..]);
      assert forall i :: 1 <= i < |s| - |r| ==> s[i] == s[1..][i - 1];
      r
    else s
  }

  /** `s.rstrip()`: drops the trailing whitespace. */
  function StripRight(s: string): (r: string)
    ensures |r| <= |s| && r == s[..|r|]
    ensures SpaceBetween(s, |r|, |s|)
    ensures r == [] || !IsSpace(r[|r| - 1])
  {
    if s != [] && IsSpace(s[|s| - 1]) then
      var r := StripRight(s[..|s| - 1]);
      assert forall i :: |r| <= i < |s| - 1 ==> s[i] == s[..|s| - 1][i];
      r
    else s
  }

  /**
   * `s.strip()`: the slice of `s` left when the leading and trailing
   * whitespace is dropped.  It neither starts nor ends with whitespace,
   * and it is empty exactly when `s` is all whitespace.
   */
  function Strip(s: string): (r: string)
    ensures Stripped(r)
    ensures exists i :: 0 <= i <= |s| - |r| && r == s[i..i + |r|] && SpaceBetween(s, 0, i) && SpaceBetween(s, i + |r|, |s|)
    ensures r == [] <==> SpaceBetween(s, 0, |s|)
  {
    var left := StripLeft(s);
    var r := StripRight(left);
    var i := |s| - |left|;
    SlicesOfSuffix(s, i, |r|);
    SpaceInSuffix(s, i, left, |r|);
    assert r == [] ==> SpaceBetween(s, 0, |s|) by {
      if r == [] {
        SpaceJoin(s, 0, i, |s|);
      }
    }
    assert r != [] ==> r[0] == s[i];
    r
  }

  lemma SlicesOfSuffix<T>(s: seq<T>, i: nat, n: nat)
    requires i + n <= |s|
    ensures s[i..][..n] == s[i..i + n]
  {
  }

  /** Whitespace at the end of a suffix of `s` is whitespace at the end of `s`. */
  lemma SpaceInSuffix(s: string, i: nat, suffix: string, n: nat)
    requires i + n <= |s| && suffix == s[i..]
    requires SpaceBetween(suffix, n, |suffix|)
    ensures SpaceBetween(s, i + n, |s|)
  {
    forall k | i + n <= k < |s|
      ensures IsSpace(s[k])
    {
      assert s[k] == suffix[k - i];
    }
  }

  lemma SpaceJoin(s: string, lo: int, mid: int, hi: int)
    requires SpaceBetween(s, lo, mid) && SpaceBetween(s, mid, hi)
    ensures SpaceBetween(s, lo, hi)
  {
  }

  /** Stripping removes characters, it never brings one in. */
  lemma StripAvoids(s: string, c: char)
    requires c !in s
    ensures c !in Strip(s)
  {
    var left := StripLeft(s);
    SliceAvoids(s, |s| - |left|, |s|, c);
    SliceAvoids(left, 0, |StripRight(left)|, c);
  }

  lemma SliceAvoids<T>(s: seq<T>, lo: nat, hi: nat, c: T)
    requires lo <= hi <= |s| && c !in s
    ensures c !in s[lo..hi]
  {
  }

  lemma StripOfStripped(s: string)
    requires Stripped(s)
    ensures Strip(s) == s
  {
  }

  /** `s.split(sep)` with an explicit separator: never empty, "" gives [""]. */
  function Split(s: string, sep: char): (parts: seq<string>)
    ensures |parts| >= 1
  {
    if s == [] then [[]]
    else
      var rest := Split(s[1..], sep);
      if s[0] == sep then [[]] + rest
      else [[s[0]] + rest[0]] + rest[1..]
  }

  /** No piece of a split contains the separator. */
  lemma {:induction false} SplitAvoids(s: string, sep: char)
    ensures forall i :: 0 <= i < |Split(s, sep)| ==> sep !in Split(s, sep)[i]
  {
    if s != [] {
      var rest := Split(s[1..], sep);
      SplitAvoids(s[1..], sep);
      if s[0] != sep {
        var parts := [[s[0]] + rest[0]] + rest[1..];
        forall i | 0 <= i < |parts|
          ensures sep !in parts[i]
        {
          if i > 0 {
            assert parts[i] == rest[i];
          }
        }
      } else {
        var parts := [[]] + rest;
        forall i | 0 <= i < |parts|
          ensures sep !in parts[i]
        {
          if i > 0 {
            assert parts[i] == rest[i - 1];
          }
        }
      }
    }
  }

  /** `sep.join(parts)` */
  function Join(parts: seq<string>, sep: char): string
  {
    if |parts| == 0 then []
    else if |parts| == 1 then parts[0]
    else parts[0] + [sep] + Join(parts[1..], sep)
  }

  /** Joining the pieces of a split gives back the original text. */
  lemma {:induction false} JoinSplit(s: string, sep: char)
    ensures Join(Split(s, sep), sep) == s
  {
    if s != [] {
      var rest := Split(s[1..], sep);
      JoinSplit(s[1..], sep);
      if s[0] == sep {
        assert ([[]] + rest)[1..] == rest;
      } else {
        var parts := [[s[0]] + rest[0]] + rest[1..];
        if |rest| > 1 {
          assert parts[1..] == rest[1..];
        }
      }
    }
  }

  /** Text without the separator is a single piece. */
  lemma {:induction false} SplitWithoutSeparator(s: string, sep: char)
    requires sep !in s
    ensures Split(s, sep) == [s]
  {
    if s != [] {
      SplitWithoutSeparator(s[1..], sep);
      assert s[0] != sep;
      assert [s[0]] + s[1..] == s;
    }
  }

  /** Splitting distributes over a separator in the middle. */
  lemma SplitCons(c: char, t: string, sep: char)
    ensures Split([c] + t, sep) ==
      if c == sep then [[]] + Split(t, sep)
      else [[c] + Split(t, sep)[0]] + Split(t, sep)[1..]
  {
    assert ([c] + t)[1..] == t;
  }

  /** Splitting distributes over a separator in the middle. */
  lemma {:induction false} SplitAppend(a: string, b: string, sep: char)
    ensures Split(a + [sep] + b, sep) == Split(a, sep) + Split(b, sep)
  {
    if a == [] {
      SplitCons(sep, b, sep);
      assert a + [sep] + b == [sep] + b;
    } else {
      var c, t := a[0], a[1..];
      SplitAppend(t, b, sep);
      assert a + [sep] + b == [c] + (t + [sep] + b);
      assert a == [c] + t;
      SplitConsStep(c, t, t + [sep] + b, Split(b, sep), sep);
    }
  }

  /** One step of SplitAppend: prepending a character to both sides. */
  lemma SplitConsStep(c: char, t: string, u: string, tail: seq<string>, sep: char)
    requires Split(u, sep) == Split(t, sep) + tail
    ensures Split([c] + u, sep) == Split([c] + t, sep) + tail
  {
    if c == sep {
      SplitConsSeparator(t, u, tail, sep);
    } else {
      SplitConsOther(c, t, u, tail, sep);
    }
  }

  lemma SplitConsSeparator(t: string, u: string, tail: seq<string>, sep: char)
    requires Split(u, sep) == Split(t, sep) + tail
    ensures Split([sep] + u, sep) == Split([sep] + t, sep) + tail
  {
    SplitCons(sep, u, sep);
    SplitCons(sep, t, sep);
    assert [[]] + (Split(t, sep) + tail) == ([[]] + Split(t, sep)) + tail;
  }

  lemma SplitConsOther(c: char, t: string, u: string, tail: seq<string>, sep: char)
    requires c != sep
    requires Split(u, sep) == Split(t, sep) + tail
    ensures Split([c] + u, sep) == Split([c] + t, sep) + tail
  {
    SplitCons(c, u, sep);
    SplitCons(c, t, sep);
    var ra, ru := Split(t, sep), Split(u, sep);
    var first: seq<string> := [[c] + ra[0]];
    assert ru[0] == ra[0];
    assert ru[1..] == ra[1..] + tail;
    assert first + (ra[1..] + tail) == (first + ra[1..]) + tail;
  }

  /** Splitting the join of separator-free pieces gives back the pieces. */
  lemma {:induction false} SplitJoin(parts: seq<string>, sep: char)
    requires |parts| >= 1
    requires forall i :: 0 <= i < |parts| ==> sep !in parts[i]
    ensures Split(Join(parts, sep), sep) == parts
  {
    if |parts| == 1 {
      SplitWithoutSeparator(parts[0], sep);
    } else {
      SplitJoin(parts[1..], sep);
      SplitWithoutSeparator(parts[0], sep);
      SplitAppend(parts[0], Join(parts[1..], sep), sep);
      assert [parts[0]] + parts[1..] == parts;
    }
  }

  /** `s.startswith(prefix)` */
  predicate StartsWith(s: string, prefix: string)
  {
    |prefix| <= |s| && s[..|prefix|] == prefix
  }
}
