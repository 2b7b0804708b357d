/**
 * The criteria and alternative lists (web_app.py, lines 34-40 and
 * 121-122): newline-separated text in a text area, read back as the
 * stripped non-empty lines, and rejected when a label repeats.
 */
module ProjectLists {
  import opened PyStr
  import opened Collections
  import opened Wrappers

  /** What one line contributes: its stripped text, unless that is empty. */
  function LineLabel(line: string): (r: seq<string>)
    ensures |r| <= 1
    ensures forall i :: 0 <= i < |r| ==> r[i] != [] && Stripped(r[i])
  {
    var t := Strip(line);
    if t == [] then [] else [t]
  }

  /** `[line.strip() for line in lines if line.strip()]` */
  function CleanLines(lines: seq<string>): (r: seq<string>)
    ensures |r| <= |lines|
    ensures forall i :: 0 <= i < |r| ==> r[i] != [] && Stripped(r[i])
  {
    if lines == [] then []
    else
      var head, rest := LineLabel(lines[0]), CleanLines(lines[1..]);
      LabelsAppend(head, rest);
      head + rest
  }

  /** Joining two lists of clean labels gives a list of clean labels. */
  lemma LabelsAppend(a: seq<string>, b: seq<string>)
    requires forall i :: 0 <= i < |a| ==> a[i] != [] && Stripped(a[i])
    requires forall i :: 0 <= i < |b| ==> b[i] != [] && Stripped(b[i])
    ensures forall i :: 0 <= i < |a + b| ==> (a + b)[i] != [] && Stripped((a + b)[i])
  {
    forall i | 0 <= i < |a + b|
      ensures (a + b)[i] != [] && Stripped((a + b)[i])
    {
      if i < |a| {
        assert (a + b)[i] == a[i];
      } else {
        assert (a + b)[i] == b[i - |a|];
      }
    }
  }

  /** The labels are exactly the non-empty stripped lines. */
  lemma {:induction false} CleanLinesMembership(lines: seq<string>, x: string)
    ensures x in CleanLines(lines) <==> x != [] && exists l :: l in lines && Strip(l) == x
  {
    if lines != [] {
      CleanLinesMembership(lines[1..], x);
      assert forall l :: l in lines <==> l == lines[0] || l in lines[1..];
    }
  }

  /** A character no line holds is in no label. */
  lemma {:induction false} CleanLinesAvoid(lines: seq<string>, c: char)
    requires forall i :: 0 <= i < |lines| ==> c !in lines[i]
    ensures forall i :: 0 <= i < |CleanLines(lines)| ==> c !in CleanLines(lines)[i]
  {
    if lines != [] {
      var head, rest := LineLabel(lines[0]), CleanLines(lines[1..]);
      CleanLinesAvoid(lines[1..], c);
      LineLabelAvoids(lines[0], c);
      AvoidsAppend(head, rest, c);
    }
  }

  lemma LineLabelAvoids(line: string, c: char)
    requires c !in line
    ensures forall i :: 0 <= i < |LineLabel(line)| ==> c !in LineLabel(line)[i]
  {
    StripAvoids(line, c);
  }

  lemma AvoidsAppend<T>(a: seq<seq<T>>, b: seq<seq<T>>, c: T)
    requires forall i :: 0 <= i < |a| ==> c !in a[i]
    requires forall i :: 0 <= i < |b| ==> c !in b[i]
    ensures forall i :: 0 <= i < |a + b| ==> c !in (a + b)[i]
  {
    forall i | 0 <= i < |a + b|
      ensures c !in (a + b)[i]
    {
      if i >= |a| {
        assert (a + b)[i] == b[i - |a|];
      }
    }
  }

  lemma {:induction false} CleanLinesAppend(a: seq<string>, b: seq<string>)
    ensures CleanLines(a + b) == CleanLines(a) + CleanLines(b)
  {
    if a == [] {
      assert a + b == b;
    } else {
      CleanLinesAppend(a[1..], b);
      TailOfConcat(a, b);
      assert (a + b)[0] == a[0];
      ConcatAssoc(LineLabel(a[0]), CleanLines(a[1..]), CleanLines(b));
    }
  }

  /** The labels of a text area, in input order. */
  function ParseLines(text: string): (r: seq<string>)
    ensures forall i :: 0 <= i < |r| ==> r[i] != [] && Stripped(r[i]) && '\n' !in r[i]
  {
    SplitAvoids(text, '\n');
    CleanLinesAvoid(Split(text, '\n'), '\n');
    CleanLines(Split(text, '\n'))
  }

  /** Blank lines and surrounding whitespace never make a label. */
  lemma ParseLinesMembership(text: string, x: string)
    ensures x in ParseLines(text) <==> x != [] && exists l :: l in Split(text, '\n') && Strip(l) == x
  {
    CleanLinesMembership(Split(text, '\n'), x);
  }

  /** Parsing works line by line: a newline separates the labels of its two sides. */
  lemma ParseLinesAppend(a: string, b: string)
    ensures ParseLines(a + "\n" + b) == ParseLines(a) + ParseLines(b)
  {
    SplitAppend(a, b, '\n');
    CleanLinesAppend(Split(a, '\n'), Split(b, '\n'));
  }

  /**
   * Writing a list of labels one per line and parsing it back returns the
   * list, whenever each label is non-empty, stripped and on one line.
   */
  lemma {:induction false} ParseJoinedLines(xs: seq<string>)
    requires forall i :: 0 <= i < |xs| ==> xs[i] != [] && Stripped(xs[i]) && '\n' !in xs[i]
    ensures ParseLines(Join(xs, '\n')) == xs
  {
    if xs == [] {
      assert Join(xs, '\n') == [];
      assert Split([], '\n') == [[]];
      assert Strip([]) == [];
      assert CleanLines([[]]) == [] + CleanLines([]);
    } else {
      SplitJoin(xs, '\n');
      CleanLinesOfStripped(xs);
    }
  }

  lemma {:induction false} CleanLinesOfStripped(xs: seq<string>)
    requires forall i :: 0 <= i < |xs| ==> xs[i] != [] && Stripped(xs[i])
    ensures CleanLines(xs) == xs
  {
    if xs != [] {
      StripOfStripped(xs[0]);
      CleanLinesOfStripped(xs[1..]);
      assert CleanLines(xs) == [xs[0]] + CleanLines(xs[1..]);
      HeadTail(xs);
    }
  }

  /** `len(xs) != len(set(xs))`: some label occurs twice. */
  function HasDuplicates(xs: seq<string>): (b: bool)
    ensures b <==> !Distinct(xs)
  {
    CardinalityIffDistinct(xs);
    |xs| != |ToSet(xs)|
  }

  /**
   * `get_lists_from_state`: both lists, or no lists at all when either one
   * repeats a label.
   */
  function GetListsFromState(criteriaInput: string, alternativesInput: string): (r: Option<(seq<string>, seq<string>)>)
    ensures r.None? <==> !Distinct(ParseLines(criteriaInput)) || !Distinct(ParseLines(alternativesInput))
    ensures r.Some? ==> r.value == (ParseLines(criteriaInput), ParseLines(alternativesInput))
  {
    var criteria := ParseLines(criteriaInput);
    var alternatives := ParseLines(alternativesInput);
    if HasDuplicates(criteria) || HasDuplicates(alternatives) then None
    else Some((criteria, alternatives))
  }
}
