/** The detection normaliser of `diagnoseXray`: every detection the AI
    service reports becomes `{ class, confidence, box }`, whatever shape its
    box came in. Three box shapes are recognised: an array `[x, y, width,
    height]`, an object with corners `{x1, y1, x2, y2}`, and an object with
    a size `{x, y, width | w, height | h}`. Every recognised shape ends as
    one canonical box `{x, y, width, height, x2, y2}` with whole-number
    coordinates; anything else ends as the empty object `{}`. */
module Detection {
  import opened Common
  import opened Rounding

  /** A number the normaliser computes: `Math.round` of a coordinate the
      box has, or `NaN` where it reads a coordinate the box lacks (an array
      index past its end, a corner key that is missing). */
  datatype Num = Int(n: int) | NaN

  /** `+` and `-` on such numbers: `NaN` absorbs everything. */
  function Add(a: Num, b: Num): (r: Num)
    ensures r.Int? <==> a.Int? && b.Int?
  {
    if a.Int? && b.Int? then Int(a.n + b.n) else NaN
  }

  function Sub(a: Num, b: Num): (r: Num)
    ensures r.Int? <==> a.Int? && b.Int?
  {
    if a.Int? && b.Int? then Int(a.n - b.n) else NaN
  }

  /** `Math.round(v)` where `v` may be missing (`undefined`, which rounds to `NaN`). */
  function RoundOpt(v: Option<real>): (r: Num)
    ensures r.Int? <==> v.Some?
    ensures v.Some? ==> r.n as real - 0.5 <= v.value <= r.n as real + 0.5
  {
    if v.Some? then Int(MathRound(v.value)) else NaN
  }

  /** The value under `det.bbox` or `det.box`, as far as the normaliser can
      tell them apart: nothing truthy (`undefined`, `null`, `0`, `""`), an
      array, a plain object with numeric fields, or some other truthy value
      (a non-empty string, a non-zero number, `true`). */
  datatype RawBox = Absent | ArrayBox(items: seq<real>) | ObjectBox(fields: map<string, real>) | Scalar

  /** A detection as the AI response carries it. `klass` is the `class` key and
      `labelText` the `label` key; labels the response lacks are "" (falsy
      either way); a missing confidence is `None`. */
  datatype RawDetection = RawDetection(bbox: RawBox, box: RawBox, className: string,
                                       klass: string, labelText: string, confidence: Option<real>)

  datatype Box = EmptyBox | Box(x: Num, y: Num, width: Num, height: Num, x2: Num, y2: Num)

  datatype NormalizedDetection = NormalizedDetection(klass: string, confidence: real, box: Box)

  const DefaultLabel: string := "Phát hiện vùng gãy"

  /** `det.bbox || det.box`. */
  function BoxSource(det: RawDetection): RawBox {
    if det.bbox.Absent? then det.box else det.bbox
  }

  /** Element `i` of an array box; `undefined` past its end. */
  function Item(items: seq<real>, i: nat): Option<real> {
    if i < |items| then Some(items[i]) else None
  }

  /** Field `k` of an object box; `undefined` when absent. */
  function Field(fields: map<string, real>, k: string): Option<real> {
    if k in fields then Some(fields[k]) else None
  }

  /** `fields[a] || fields[b] || 0`: the first of the two that is present and
      non-zero, else zero. */
  function FirstNonZero(fields: map<string, real>, a: string, b: string): (r: real)
    ensures a in fields && fields[a] != 0.0 ==> r == fields[a]
    ensures (a !in fields || fields[a] == 0.0) && b in fields && fields[b] != 0.0 ==> r == fields[b]
    ensures (a !in fields || fields[a] == 0.0) && (b !in fields || fields[b] == 0.0) ==> r == 0.0
  {
    if a in fields && fields[a] != 0.0 then fields[a]
    else if b in fields && fields[b] != 0.0 then fields[b]
    else 0.0
  }

  predicate IsCornerForm(fields: map<string, real>) {
    "x1" in fields && "y1" in fields
  }

  predicate IsSizeForm(fields: map<string, real>) {
    "x" in fields && "y" in fields
  }

  /** The shapes the normaliser recognises; the corner test comes first. */
  predicate Recognised(b: RawBox) {
    b.ArrayBox? || (b.ObjectBox? && (IsCornerForm(b.fields) || IsSizeForm(b.fields)))
  }

  /** The canonical box built from the box source. */
  function NormalizeBox(b: RawBox): (r: Box)
    ensures r.EmptyBox? <==> !Recognised(b)
    ensures b.ArrayBox? ==> r.Box? && r.x2 == Add(r.x, r.width) && r.y2 == Add(r.y, r.height)
    ensures b.ObjectBox? && IsCornerForm(b.fields) ==> r.Box? && r.width == Sub(r.x2, r.x) && r.height == Sub(r.y2, r.y)
  {
    match b
    case ArrayBox(items) =>
      var x := RoundOpt(Item(items, 0));
      var y := RoundOpt(Item(items, 1));
      var width := RoundOpt(Item(items, 2));
      var height := RoundOpt(Item(items, 3));
      Box(x, y, width, height, Add(x, width), Add(y, height))
    case ObjectBox(fields) =>
      if IsCornerForm(fields) then
        var x := RoundOpt(Field(fields, "x1"));
        var y := RoundOpt(Field(fields, "y1"));
        var x2 := RoundOpt(Field(fields, "x2"));
        var y2 := RoundOpt(Field(fields, "y2"));
        Box(x, y, Sub(x2, x), Sub(y2, y), x2, y2)
      else if IsSizeForm(fields) then
        var x := RoundOpt(Field(fields, "x"));
        var y := RoundOpt(Field(fields, "y"));
        var width := Int(MathRound(FirstNonZero(fields, "width", "w")));
        var height := Int(MathRound(FirstNonZero(fields, "height", "h")));
        Box(x, y, width, height, Add(x, width), Add(y, height))
      else EmptyBox
    case _ => EmptyBox
  }

  /** One detection: the label falls back through `class_name`, `class`,
      `label` to the fracture label, and the confidence (`0` when missing)
      is rounded to one decimal. */
  function NormalizeOne(det: RawDetection): (r: NormalizedDetection)
    ensures r.klass != ""
    ensures r.box == NormalizeBox(BoxSource(det))
    ensures HasDecimals(r.confidence, 1)
  {
    NormalizedDetection(FirstTruthy([det.className, det.klass, det.labelText], DefaultLabel),
                        ToFixed(if det.confidence.Some? then det.confidence.value else 0.0, 1),
                        NormalizeBox(BoxSource(det)))
  }

  /** `(prediction.detections || []).map(…)`. */
  function NormalizeAll(detections: Option<seq<RawDetection>>): (r: seq<NormalizedDetection>)
    ensures detections.None? ==> r == []
    ensures detections.Some? ==> |r| == |detections.value| &&
                                 forall i | 0 <= i < |r| :: r[i] == NormalizeOne(detections.value[i])
  {
    if detections.None? then []
    else
      NormalizeEachPointwise(detections.value);
      NormalizeEach(detections.value)
  }

  function NormalizeEach(dets: seq<RawDetection>): seq<NormalizedDetection> {
    if |dets| == 0 then [] else [NormalizeOne(dets[0])] + NormalizeEach(dets[1..])
  }

  // ---------------------------------------------------------------------------
  // Properties of the normaliser

  /** Normalisation never fails and never reorders: one output per input
      detection, the `i`-th built from the `i`-th alone. */
  lemma {:induction false} NormalizeEachPointwise(dets: seq<RawDetection>)
    ensures |NormalizeEach(dets)| == |dets|
    ensures forall i | 0 <= i < |dets| :: NormalizeEach(dets)[i] == NormalizeOne(dets[i])
  {
    if |dets| > 0 {
      NormalizeEachPointwise(dets[1..]);
      assert forall i | 1 <= i < |dets| :: dets[1..][i - 1] == dets[i];
    }
  }

  /** In every canonical box, `x2 = x + width` and `y2 = y + height`,
      whichever shape it came from and whatever `Math.round` returned. */
  lemma BoxEndsAreSums(b: RawBox)
    ensures var r := NormalizeBox(b);
            r.Box? ==> r.x2 == Add(r.x, r.width) && r.y2 == Add(r.y, r.height)
  {
    if b.ObjectBox? && IsCornerForm(b.fields) {
      var r := NormalizeBox(b);
      assert r.x.Int? && r.y.Int?;
    }
  }

  /** The box is the empty object exactly when the box source has none of
      the three recognised shapes (in particular when both `bbox` and `box`
      are missing). */
  lemma EmptyExactlyWhenUnrecognised(b: RawBox)
    ensures NormalizeBox(b).EmptyBox? <==> !Recognised(b)
  {
  }

  /** An array box reads `[x, y, width, height]` by position. */
  lemma ArrayForm(items: seq<real>)
    requires |items| >= 4
    ensures var r := NormalizeBox(ArrayBox(items));
            r == Box(Int(MathRound(items[0])), Int(MathRound(items[1])),
                     Int(MathRound(items[2])), Int(MathRound(items[3])),
                     Int(MathRound(items[0]) + MathRound(items[2])),
                     Int(MathRound(items[1]) + MathRound(items[3])))
  {
  }

  /** A corner box (both `x1` and `y1` present) derives its size from the
      corners: `width = x2 - x`, `height = y2 - y`, with `x`, `y` the rounded
      `x1`, `y1`. A corner box wins over a size box when it has both. */
  lemma CornerForm(fields: map<string, real>)
    requires IsCornerForm(fields)
    ensures var r := NormalizeBox(ObjectBox(fields));
            r.Box? && r.x == Int(MathRound(fields["x1"])) && r.y == Int(MathRound(fields["y1"])) &&
            r.x2 == RoundOpt(Field(fields, "x2")) && r.y2 == RoundOpt(Field(fields, "y2")) &&
            r.width == Sub(r.x2, r.x) && r.height == Sub(r.y2, r.y)
  {
  }

  /** A size box without corners takes `width`, else `w`, else 0 (a zero
      width counts as missing), and likewise for the height. */
  lemma SizeForm(fields: map<string, real>)
    requires !IsCornerForm(fields) && IsSizeForm(fields)
    ensures var r := NormalizeBox(ObjectBox(fields));
            r.Box? && r.x == Int(MathRound(fields["x"])) && r.y == Int(MathRound(fields["y"])) &&
            r.width == Int(MathRound(FirstNonZero(fields, "width", "w"))) &&
            r.height == Int(MathRound(FirstNonZero(fields, "height", "h"))) &&
            r.width.Int? && r.height.Int? && r.x2.Int? && r.y2.Int?
  {
  }

  /** `[10.4, 20.6, 30.5, 40.49]` becomes x 10, y 21, width 31, height 40,
      x2 41, y2 61 (`Math.round` takes halves up). */
  lemma ArrayExample()
    ensures NormalizeBox(ArrayBox([10.4, 20.6, 30.5, 40.49])) ==
            Box(Int(10), Int(21), Int(31), Int(40), Int(41), Int(61))
  {
    assert MathRound(10.4) == 10 && MathRound(20.6) == 21;
    assert MathRound(30.5) == 31 && MathRound(40.49) == 40;
  }

  /** A short array leaves `NaN` where it has no element, and `NaN` spreads
      into the end it takes part in. */
  lemma ShortArrayExample()
    ensures NormalizeBox(ArrayBox([5.0, 6.0])) == Box(Int(5), Int(6), NaN, NaN, NaN, NaN)
  {
    assert MathRound(5.0) == 5 && MathRound(6.0) == 6;
  }

  /** `{x: 1, y: 2, width: 0, w: 7}` has width 7: the zero width is skipped. */
  lemma ZeroWidthExample()
    ensures NormalizeBox(ObjectBox(map["x" := 1.0, "y" := 2.0, "width" := 0.0, "w" := 7.0])) ==
            Box(Int(1), Int(2), Int(7), Int(0), Int(8), Int(2))
  {
    var f := map["x" := 1.0, "y" := 2.0, "width" := 0.0, "w" := 7.0];
    assert !IsCornerForm(f) && IsSizeForm(f);
    assert FirstNonZero(f, "width", "w") == 7.0 && FirstNonZero(f, "height", "h") == 0.0;
    assert MathRound(1.0) == 1 && MathRound(2.0) == 2 && MathRound(7.0) == 7 && MathRound(0.0) == 0;
  }

  /** The label is the first non-empty of `class_name`, `class`, `label`,
      else the fracture label; it is never empty. */
  lemma LabelChain(det: RawDetection)
    ensures var l := NormalizeOne(det).klass;
            l != "" &&
            (det.className != "" ==> l == det.className) &&
            (det.className == "" && det.klass != "" ==> l == det.klass) &&
            (det.className == "" && det.klass == "" && det.labelText != "" ==> l == det.labelText) &&
            (det.className == "" && det.klass == "" && det.labelText == "" ==> l == DefaultLabel)
  {
    var cs := [det.className, det.klass, det.labelText];
    var l := FirstTruthy(cs, DefaultLabel);
    if det.className == "" && det.klass != "" {
      assert cs[1] != "" && forall j | 0 <= j < 1 :: cs[j] == "";
    }
    if det.className == "" && det.klass == "" && det.labelText != "" {
      assert cs[2] != "" && forall j | 0 <= j < 2 :: cs[j] == "";
    }
  }

  /** A missing confidence becomes 0; a present one becomes the number with
      one decimal nearest to it (a tie going away from zero), so a
      percentage stays a percentage. */
  lemma ConfidenceRounded(det: RawDetection)
    ensures det.confidence.None? ==> NormalizeOne(det).confidence == 0.0
    ensures HasDecimals(NormalizeOne(det).confidence, 1)
    ensures det.confidence.Some? && det.confidence.value >= 0.0 ==>
              Scale(det.confidence.value, 1) - 0.5 < Scale(NormalizeOne(det).confidence, 1) <=
              Scale(det.confidence.value, 1) + 0.5
    ensures det.confidence.Some? && det.confidence.value < 0.0 ==>
              Scale(det.confidence.value, 1) - 0.5 <= Scale(NormalizeOne(det).confidence, 1) <
              Scale(det.confidence.value, 1) + 0.5
    ensures det.confidence.Some? && 0.0 <= det.confidence.value <= 100.0 ==>
              0.0 <= NormalizeOne(det).confidence <= 100.0
  {
    ScaleZero(1);
  }
}
