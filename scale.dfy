/**
 * Saaty's 1-9 comparison scale as the judgment sliders present it
 * (web_app.py, lines 22-31), and the choice of the slider position that
 * best shows a stored judgment value.
 */
module SaatyScale {

  /** One slider position: "B k times more important" ... "A k times more important". */
  datatype ScaleLabel = BNine | BSeven | BFive | BThree | Equal | AThree | AFive | ASeven | ANine

  /** The slider options, left to right; also the key order of the value table. */
  const Labels: seq<ScaleLabel> := [BNine, BSeven, BFive, BThree, Equal, AThree, AFive, ASeven, ANine]

  /** The text shown for a slider position. */
  function LabelText(l: ScaleLabel): string
  {
    match l
    case BNine => "B в 9 раз важнее"
    case BSeven => "B в 7 раз важнее"
    case BFive => "B в 5 раз важнее"
    case BThree => "B в 3 раза важнее"
    case Equal => "Равная важность"
    case AThree => "A в 3 раза важнее"
    case AFive => "A в 5 раз важнее"
    case ASeven => "A в 7 раз важнее"
    case ANine => "A в 9 раз важнее"
  }

  /** The judgment value stored for a slider position. */
  function ScaleValue(l: ScaleLabel): real
  {
    match l
    case BNine => 1.0 / 9.0
    case BSeven => 1.0 / 7.0
    case BFive => 1.0 / 5.0
    case BThree => 1.0 / 3.0
    case Equal => 1.0
    case AThree => 3.0
    case AFive => 5.0
    case ASeven => 7.0
    case ANine => 9.0
  }

  /** The texts name the positions unambiguously, so the value table is well defined. */
  lemma LabelTextInjective(l: ScaleLabel, m: ScaleLabel)
    requires LabelText(l) == LabelText(m)
    ensures l == m
  {
    assert LabelText(l)[0] == LabelText(m)[0];
    assert LabelText(l)[2] == LabelText(m)[2];
  }

  /** The options are listed in strictly increasing value, each exactly once. */
  lemma ScaleIncreasing(i: int, j: int)
    requires 0 <= i < j < |Labels|
    ensures ScaleValue(Labels[i]) < ScaleValue(Labels[j])
  {
  }

  function Distance(a: real, b: real): (d: real)
    ensures d >= 0.0
    ensures d == 0.0 <==> a == b
  {
    if a >= b then a - b else b - a
  }

  /**
   * Python's `min(range(len(vals)), key=lambda i: abs(vals[i] - x))`: an
   * index at minimal distance from `x`, the first one on a tie.
   */
  function FirstNearest(vals: seq<real>, x: real): (i: nat)
    requires |vals| > 0
    ensures i < |vals|
    ensures forall j :: 0 <= j < |vals| ==> Distance(vals[i], x) <= Distance(vals[j], x)
    ensures forall j :: 0 <= j < i ==> Distance(vals[i], x) < Distance(vals[j], x)
  {
    if |vals| == 1 then 0
    else
      var k := FirstNearest(vals[..|vals| - 1], x);
      if Distance(vals[|vals| - 1], x) < Distance(vals[k], x) then |vals| - 1 else k
  }

  /** The scale values in slider order. */
  function Values(): (vs: seq<real>)
    ensures |vs| == |Labels|
    ensures forall i :: 0 <= i < |Labels| ==> vs[i] == ScaleValue(Labels[i])
  {
    seq(|Labels|, i requires 0 <= i < |Labels| => ScaleValue(Labels[i]))
  }

  /** Where a label stands among the slider options. */
  function Position(l: ScaleLabel): (i: nat)
    ensures i < |Labels| && Labels[i] == l
  {
    match l
    case BNine => 0
    case BSeven => 1
    case BFive => 2
    case BThree => 3
    case Equal => 4
    case AThree => 5
    case AFive => 6
    case ASeven => 7
    case ANine => 8
  }

  /** Distinct positions carry distinct values. */
  lemma ScaleValueInjective(l: ScaleLabel, m: ScaleLabel)
    requires ScaleValue(l) == ScaleValue(m)
    ensures l == m
  {
    if Position(l) < Position(m) {
      ScaleIncreasing(Position(l), Position(m));
    } else if Position(m) < Position(l) {
      ScaleIncreasing(Position(m), Position(l));
    }
  }

  /**
   * The slider position shown for a stored value `x`: a label whose value
   * is nearest to `x`, the leftmost one when two are equally near.
   */
  function NearestLabel(x: real): (l: ScaleLabel)
    ensures forall m: ScaleLabel :: Distance(ScaleValue(l), x) <= Distance(ScaleValue(m), x)
    ensures forall m: ScaleLabel ::
      Distance(ScaleValue(m), x) == Distance(ScaleValue(l), x) ==> Position(l) <= Position(m)
  {
    var vs := Values();
    var k := FirstNearest(vs, x);
    assert forall m: ScaleLabel :: vs[Position(m)] == ScaleValue(m);
    Labels[k]
  }

  /** A value exactly on the scale is shown at its own position. */
  lemma ExactValueShowsOwnLabel(l: ScaleLabel)
    ensures NearestLabel(ScaleValue(l)) == l
  {
    var n := NearestLabel(ScaleValue(l));
    assert Distance(ScaleValue(n), ScaleValue(l)) <= Distance(ScaleValue(l), ScaleValue(l));
    ScaleValueInjective(n, l);
  }

  /** The default judgment 1 is shown as "equal importance". */
  lemma DefaultShowsEqual()
    ensures NearestLabel(1.0) == Equal
  {
    ExactValueShowsOwnLabel(Equal);
  }

  /** Midway between two positions the left one wins: 2 shows as "equal importance". */
  lemma TieGoesLeft()
    ensures NearestLabel(2.0) == Equal
  {
    var n := NearestLabel(2.0);
    assert Distance(ScaleValue(n), 2.0) <= Distance(ScaleValue(Equal), 2.0) == 1.0;
    assert Distance(ScaleValue(AThree), 2.0) == 1.0;
    assert n == Equal || n == AThree;
    assert Position(n) <= Position(Equal);
  }
}
