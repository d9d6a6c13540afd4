/** Fig2: the user-defined irradiance classes (breakpoints, colours, legend labels) and the
    classification of a grid cell's irradiance into one of them. */
module Classes {
  import opened Wrappers

  /** `custom_bins`: the inner breakpoints in MJ/m²; the outer classes are open-ended. */
  const Breakpoints: seq<int> := [2500, 3000, 3500, 4000, 4500, 5000, 6000, 7000, 8000]

  /** `custom_colors`: one colour per class, lowest class first. */
  const Colours: seq<string> := [
    "#3a0ca3", "#4361ee", "#4cc9f0", "#00f5d4", "#9ef01a",
    "#ccff33", "#ffff00", "#ffb700", "#ff7b00", "#ff0000"
  ]

  /** `legend_labels`: one label per class, lowest class first. */
  const Labels: seq<string> := [
    "<2500", "2500-3000", "3000-3500", "3500-4000", "4000-4500",
    "4500-5000", "5000-6000", "6000-7000", "7000-8000", ">8000"
  ]

  predicate StrictlyIncreasing(bs: seq<int>) {
    forall i, j :: 0 <= i < j < |bs| ==> bs[i] < bs[j]
  }

  /** Which class a value lying exactly on a breakpoint joins: the one below it
      (intervals closed above) or the one above it (intervals closed below). */
  datatype Boundary = ClosedAbove | ClosedBelow

  /** The value lies beyond breakpoint `b`, in a class above it. */
  predicate Passed(v: real, b: int, side: Boundary) {
    match side
    case ClosedAbove => v > b as real
    case ClosedBelow => v >= b as real
  }

  /** The class of `v`: the number of breakpoints it has passed. */
  function ClassIndex(v: real, bs: seq<int>, side: Boundary): (c: nat)
    ensures c <= |bs|
  {
    if |bs| == 0 then 0
    else (if Passed(v, bs[0], side) then 1 else 0) + ClassIndex(v, bs[1..], side)
  }

  /** Class `c` is the interval between breakpoints `c - 1` and `c`, and `v` lies in it. */
  predicate InClass(v: real, bs: seq<int>, side: Boundary, c: int) {
    0 <= c <= |bs|
    && (c > 0 ==> Passed(v, bs[c - 1], side))
    && (c < |bs| ==> !Passed(v, bs[c], side))
  }

  lemma PassedBelow(v: real, a: int, b: int, side: Boundary)
    requires a <= b && Passed(v, b, side)
    ensures Passed(v, a, side)
  {
  }

  lemma NotPassedAbove(v: real, a: int, b: int, side: Boundary)
    requires a <= b && !Passed(v, a, side)
    ensures !Passed(v, b, side)
  {
  }

  /** A value short of the first breakpoint passes none of them. */
  lemma {:induction false} NotPassedFirst(v: real, bs: seq<int>, side: Boundary)
    requires StrictlyIncreasing(bs) && |bs| > 0 && !Passed(v, bs[0], side)
    ensures ClassIndex(v, bs, side) == 0
  {
    if |bs| > 1 {
      NotPassedAbove(v, bs[0], bs[1], side);
      assert StrictlyIncreasing(bs[1..]) by {
        forall i, j | 0 <= i < j < |bs| - 1 ensures bs[1..][i] < bs[1..][j] {
          assert bs[1..][i] == bs[i + 1] && bs[1..][j] == bs[j + 1];
        }
      }
      NotPassedFirst(v, bs[1..], side);
    }
  }

  /** A value beyond the last breakpoint passes all of them. */
  lemma {:induction false} PassedLast(v: real, bs: seq<int>, side: Boundary)
    requires StrictlyIncreasing(bs) && |bs| > 0 && Passed(v, bs[|bs| - 1], side)
    ensures ClassIndex(v, bs, side) == |bs|
  {
    PassedBelow(v, bs[0], bs[|bs| - 1], side);
    if |bs| > 1 {
      assert StrictlyIncreasing(bs[1..]) by {
        forall i, j | 0 <= i < j < |bs| - 1 ensures bs[1..][i] < bs[1..][j] {
          assert bs[1..][i] == bs[i + 1] && bs[1..][j] == bs[j + 1];
        }
      }
      PassedLast(v, bs[1..], side);
    }
  }

  /** With increasing breakpoints the passed ones form a prefix, so the count names the
      interval the value lies in: every value falls into some class. */
  lemma {:induction false} ClassIndexInClass(v: real, bs: seq<int>, side: Boundary)
    requires StrictlyIncreasing(bs)
    ensures InClass(v, bs, side, ClassIndex(v, bs, side))
  {
    if |bs| > 0 {
      var rest := bs[1..];
      assert StrictlyIncreasing(rest) by {
        forall i, j | 0 <= i < j < |rest| ensures rest[i] < rest[j] {
          assert rest[i] == bs[i + 1] && rest[j] == bs[j + 1];
        }
      }
      ClassIndexInClass(v, rest, side);
      var c := ClassIndex(v, rest, side);
      if Passed(v, bs[0], side) {
        assert ClassIndex(v, bs, side) == c + 1;
        if c > 0 {
          assert bs[c] == rest[c - 1];
        }
        if c + 1 < |bs| {
          assert bs[c + 1] == rest[c];
        }
      } else {
        NotPassedFirst(v, bs, side);
      }
    }
  }

  /** The classes do not overlap: a value lies in at most one of them. */
  lemma InClassUnique(v: real, bs: seq<int>, side: Boundary, c: int, d: int)
    requires StrictlyIncreasing(bs)
    requires InClass(v, bs, side, c) && InClass(v, bs, side, d)
    ensures c == d
  {
    if c < d {
      PassedBelow(v, bs[c], bs[d - 1], side);
    } else if d < c {
      PassedBelow(v, bs[d], bs[c - 1], side);
    }
  }

  /** A larger value never falls into a lower class. */
  lemma {:induction false} ClassIndexMonotone(v: real, w: real, bs: seq<int>, side: Boundary)
    requires v <= w
    ensures ClassIndex(v, bs, side) <= ClassIndex(w, bs, side)
  {
    if |bs| > 0 {
      ClassIndexMonotone(v, w, bs[1..], side);
    }
  }

  /** Below the first breakpoint is the lowest class; above the last is the highest. */
  lemma ClassIndexExtremes(v: real, bs: seq<int>, side: Boundary)
    requires StrictlyIncreasing(bs) && |bs| > 0
    ensures v < bs[0] as real ==> ClassIndex(v, bs, side) == 0
    ensures v > bs[|bs| - 1] as real ==> ClassIndex(v, bs, side) == |bs|
  {
    if v < bs[0] as real {
      NotPassedFirst(v, bs, side);
    }
    if v > bs[|bs| - 1] as real {
      PassedLast(v, bs, side);
    }
  }

  /** Classification by binary search over the breakpoints. */
  method Classify(v: real, bs: seq<int>, side: Boundary) returns (c: nat)
    requires StrictlyIncreasing(bs)
    ensures InClass(v, bs, side, c)
    ensures c == ClassIndex(v, bs, side)
  {
    var lo, hi := 0, |bs|;
    while lo < hi
      invariant 0 <= lo <= hi <= |bs|
      invariant forall i :: 0 <= i < lo ==> Passed(v, bs[i], side)
      invariant forall i :: hi <= i < |bs| ==> !Passed(v, bs[i], side)
    {
      var mid := (lo + hi) / 2;
      if Passed(v, bs[mid], side) {
        forall i | 0 <= i <= mid ensures Passed(v, bs[i], side) {
          PassedBelow(v, bs[i], bs[mid], side);
        }
        lo := mid + 1;
      } else {
        forall i | mid <= i < |bs| ensures !Passed(v, bs[i], side) {
          if Passed(v, bs[i], side) {
            PassedBelow(v, bs[mid], bs[i], side);
          }
        }
        hi := mid;
      }
    }
    c := lo;
    ClassIndexInClass(v, bs, side);
    InClassUnique(v, bs, side, c, ClassIndex(v, bs, side));
  }

  /** The constants agree: nine increasing breakpoints give ten classes, one colour and one
      label each. */
  lemma ConstantsAgree()
    ensures StrictlyIncreasing(Breakpoints)
    ensures |Colours| == |Breakpoints| + 1 && |Labels| == |Breakpoints| + 1
  {
  }

  /** The colour a cell with irradiance `v` is painted when every class occurs in the layer. */
  function ColourOf(v: real, side: Boundary): (colour: string)
    ensures colour in Colours
  {
    ConstantsAgree();
    Colours[ClassIndex(v, Breakpoints, side)]
  }

  function Digit(d: nat): char
    requires d < 10
  {
    (48 + d) as char
  }

  /** Decimal digits of a natural number. */
  function Decimal(n: nat): (s: string)
    ensures |s| > 0
    decreases n
  {
    if n < 10 then [Digit(n)] else Decimal(n / 10) + [Digit(n % 10)]
  }

  lemma FourDigits(n: nat)
    requires 1000 <= n < 10000
    ensures Decimal(n) == [Digit(n / 10 / 10 / 10), Digit(n / 10 / 10 % 10), Digit(n / 10 % 10), Digit(n % 10)]
  {
    assert Decimal(n / 10 / 10) == Decimal(n / 10 / 10 / 10) + [Digit(n / 10 / 10 % 10)];
    assert Decimal(n / 10) == Decimal(n / 10 / 10) + [Digit(n / 10 % 10)];
  }

  /** The label of a class names its interval: "<b0" for the lowest, "a-b" for an inner one,
      ">bn" for the highest. */
  predicate LabelNames(text: string, bs: seq<int>, c: nat)
    requires |bs| > 0 && c <= |bs| && forall i :: 0 <= i < |bs| ==> bs[i] >= 0
  {
    if c == 0 then text == "<" + Decimal(bs[0])
    else if c == |bs| then text == ">" + Decimal(bs[|bs| - 1])
    else text == Decimal(bs[c - 1]) + "-" + Decimal(bs[c])
  }

  lemma LabelNamesClass0()
    ensures LabelNames(Labels[0], Breakpoints, 0)
  {
    FourDigits(2500);
  }

  lemma LabelNamesClass1()
    ensures LabelNames(Labels[1], Breakpoints, 1)
  {
    FourDigits(2500); FourDigits(3000);
  }

  lemma LabelNamesClass2()
    ensures LabelNames(Labels[2], Breakpoints, 2)
  {
    FourDigits(3000); FourDigits(3500);
  }

  lemma LabelNamesClass3()
    ensures LabelNames(Labels[3], Breakpoints, 3)
  {
    FourDigits(3500); FourDigits(4000);
  }

  lemma LabelNamesClass4()
    ensures LabelNames(Labels[4], Breakpoints, 4)
  {
    FourDigits(4000); FourDigits(4500);
  }

  lemma LabelNamesClass5()
    ensures LabelNames(Labels[5], Breakpoints, 5)
  {
    FourDigits(4500); FourDigits(5000);
  }

  lemma LabelNamesClass6()
    ensures LabelNames(Labels[6], Breakpoints, 6)
  {
    FourDigits(5000); FourDigits(6000);
  }

  lemma LabelNamesClass7()
    ensures LabelNames(Labels[7], Breakpoints, 7)
  {
    FourDigits(6000); FourDigits(7000);
  }

  lemma LabelNamesClass8()
    ensures LabelNames(Labels[8], Breakpoints, 8)
  {
    FourDigits(7000); FourDigits(8000);
  }

  lemma LabelNamesClass9()
    ensures LabelNames(Labels[9], Breakpoints, 9)
  {
    FourDigits(8000);
  }

  /** Every legend label spells out the interval of its class. */
  lemma LabelsNameTheirClasses()
    ensures forall c :: 0 <= c < |Labels| ==> c <= |Breakpoints| && LabelNames(Labels[c], Breakpoints, c)
  {
    forall c | 0 <= c < |Labels| ensures c <= |Breakpoints| && LabelNames(Labels[c], Breakpoints, c) {
      if c == 0 { LabelNamesClass0(); }
      else if c == 1 { LabelNamesClass1(); }
      else if c == 2 { LabelNamesClass2(); }
      else if c == 3 { LabelNamesClass3(); }
      else if c == 4 { LabelNamesClass4(); }
      else if c == 5 { LabelNamesClass5(); }
      else if c == 6 { LabelNamesClass6(); }
      else if c == 7 { LabelNamesClass7(); }
      else if c == 8 { LabelNamesClass8(); }
      else { LabelNamesClass9(); }
    }
  }

  /** A legend entry: a colour patch with its label. */
  datatype Patch = Patch(colour: string, caption: string)

  /** The manual legend: one patch per colour, labelled with the label at the same position;
      a label list shorter than the colour list raises an index error. */
  function LegendHandles(colours: seq<string>, labels: seq<string>): (r: Result<seq<Patch>>)
    ensures r.Err? <==> |labels| < |colours|
    ensures r.Ok? ==> |r.value| == |colours|
    ensures r.Ok? ==> forall i :: 0 <= i < |colours| ==> r.value[i] == Patch(colours[i], labels[i])
  {
    if |labels| < |colours| then Err("list index out of range")
    else Ok(seq(|colours|, i requires 0 <= i < |colours| => Patch(colours[i], labels[i])))
  }

  /** The manual legend built from the constants has one patch per class, in class order. */
  lemma LegendIsComplete()
    ensures LegendHandles(Colours, Labels).Ok?
    ensures |LegendHandles(Colours, Labels).value| == |Breakpoints| + 1
    ensures forall c :: 0 <= c <= |Breakpoints| ==> LegendHandles(Colours, Labels).value[c] == Patch(Colours[c], Labels[c])
  {
    ConstantsAgree();
  }

  /** The legend has an entry for every class, and the entry of a value's class shows the
      colour that value is painted and a label naming the interval the value lies in. */
  lemma LegendDescribesValue(v: real, side: Boundary, legend: seq<Patch>)
    requires LegendHandles(Colours, Labels) == Ok(legend)
    ensures InClass(v, Breakpoints, side, ClassIndex(v, Breakpoints, side))
    ensures ClassIndex(v, Breakpoints, side) < |legend|
    ensures legend[ClassIndex(v, Breakpoints, side)] == Patch(ColourOf(v, side), Labels[ClassIndex(v, Breakpoints, side)])
    ensures LabelNames(Labels[ClassIndex(v, Breakpoints, side)], Breakpoints, ClassIndex(v, Breakpoints, side))
  {
    LegendIsComplete();
    ClassIndexInClass(v, Breakpoints, side);
    LabelsNameTheirClasses();
  }
}
