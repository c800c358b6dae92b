/** The fracture-detection service: the letterbox padding split, the
    decoding of the model's output rows into candidate boxes (threshold,
    rescaling, clamping), greedy non-maximum suppression over
    intersection-over-union, and the JSON result `predict` derives from the
    surviving detections. Coordinates are exact reals; ONNX inference,
    image resizing and drawing are not part of this model. */
module AiService {
  import opened Common
  import opened Rounding
  import opened Sorting

  const ConfidenceThreshold: real := 0.15
  const IouThreshold: real := 0.45
  const InputSize: int := 640
  const FractureLabel: string := "Phát hiện vùng gãy"
  const NormalLabel: string := "Xương bình thường"
  /** The model has one class (`CLASS_NAMES` has the single key 0). */
  const NumClasses: nat := 1

  /** `CLASS_NAMES.get(id, f"Class {id}")`. */
  function ClassName(id: nat): string {
    if id == 0 then FractureLabel else "Class " + NatToString(id)
  }

  function Max(a: real, b: real): real { if a >= b then a else b }
  function Min(a: real, b: real): real { if a <= b then a else b }

  /** `max(lo, min(v, hi))`. */
  function Clamp(v: real, lo: real, hi: real): (r: real)
    requires lo <= hi
    ensures lo <= r <= hi
    ensures lo <= v <= hi ==> r == v
  {
    Max(lo, Min(v, hi))
  }

  /** A box by its corners, as the service emits it. */
  datatype Corners = Corners(x1: real, y1: real, x2: real, y2: real)

  /** One detection before suppression: `{class_id, class_name, confidence, bbox}`. */
  datatype Candidate = Candidate(classId: nat, className: string, confidence: real, bbox: Corners)

  function Conf(c: Candidate): real { c.confidence }

  predicate WellFormed(b: Corners) { b.x1 <= b.x2 && b.y1 <= b.y2 }

  // ---------------------------------------------------------------------------
  // Intersection over union

  /** The overlap's extent on each axis: negative when the boxes are apart. */
  function OverlapWidth(a: Corners, b: Corners): real { Min(a.x2, b.x2) - Max(a.x1, b.x1) }
  function OverlapHeight(a: Corners, b: Corners): real { Min(a.y2, b.y2) - Max(a.y1, b.y1) }

  predicate Disjoint(a: Corners, b: Corners) {
    OverlapWidth(a, b) < 0.0 || OverlapHeight(a, b) < 0.0
  }

  function Intersection(a: Corners, b: Corners): real {
    OverlapWidth(a, b) * OverlapHeight(a, b)
  }

  function Area(b: Corners): real {
    Max(0.0, (b.x2 - b.x1) * (b.y2 - b.y1))
  }

  function Union(a: Corners, b: Corners): real {
    Area(a) + Area(b) - Intersection(a, b)
  }

  /** `calculate_iou`: never negative, and 0 for boxes apart on some axis. */
  function Iou(a: Corners, b: Corners): (r: real)
    ensures r >= 0.0
    ensures Disjoint(a, b) ==> r == 0.0
  {
    if Disjoint(a, b) then 0.0
    else if Union(a, b) > 0.0 then Intersection(a, b) / Union(a, b)
    else 0.0
  }

  /** The score is 0 when the boxes do not overlap on some axis, and when
      the union is not positive. */
  lemma IouZeroCases(a: Corners, b: Corners)
    ensures OverlapWidth(a, b) < 0.0 ==> Iou(a, b) == 0.0
    ensures OverlapHeight(a, b) < 0.0 ==> Iou(a, b) == 0.0
    ensures Union(a, b) <= 0.0 ==> Iou(a, b) == 0.0
  {
  }

  lemma {:induction false} IouSymmetric(a: Corners, b: Corners)
    ensures Iou(a, b) == Iou(b, a)
  {
    assert OverlapWidth(a, b) == OverlapWidth(b, a);
    assert OverlapHeight(a, b) == OverlapHeight(b, a);
    assert Intersection(a, b) == Intersection(b, a);
    assert Union(a, b) == Union(b, a);
  }

  lemma MulMonotone(a: real, b: real, c: real, d: real)
    requires 0.0 <= a <= b && 0.0 <= c <= d
    ensures 0.0 <= a * c <= b * d
  {
    assert (b - a) * c >= 0.0;
    assert b * (d - c) >= 0.0;
  }

  /** An overlap is no larger than the first box. */
  lemma IntersectionWithinArea(a: Corners, b: Corners)
    requires WellFormed(a) && !Disjoint(a, b)
    ensures 0.0 <= Intersection(a, b) <= Area(a)
  {
    var w, h := OverlapWidth(a, b), OverlapHeight(a, b);
    var aw, ah := a.x2 - a.x1, a.y2 - a.y1;
    assert w <= aw && h <= ah;
    MulMonotone(w, aw, h, ah);
    assert Area(a) == aw * ah;
  }

  /** An overlap is no larger than either box. */
  lemma IntersectionWithinAreas(a: Corners, b: Corners)
    requires WellFormed(a) && WellFormed(b) && !Disjoint(a, b)
    ensures 0.0 <= Intersection(a, b) <= Area(a)
    ensures Intersection(a, b) <= Area(b)
  {
    IntersectionWithinArea(a, b);
    assert OverlapWidth(a, b) == OverlapWidth(b, a) && OverlapHeight(a, b) == OverlapHeight(b, a);
    IntersectionWithinArea(b, a);
  }

  lemma RatioAtMostOne(x: real, y: real)
    requires 0.0 <= x <= y && y > 0.0
    ensures 0.0 <= x / y <= 1.0
  {
  }

  /** For boxes whose corners are in order the score is a ratio in [0, 1]. */
  lemma {:induction false} IouInUnitInterval(a: Corners, b: Corners)
    requires WellFormed(a) && WellFormed(b)
    ensures 0.0 <= Iou(a, b) <= 1.0
  {
    if !Disjoint(a, b) {
      IntersectionWithinAreas(a, b);
      if Union(a, b) > 0.0 {
        RatioAtMostOne(Intersection(a, b), Union(a, b));
      }
    }
  }

  // ---------------------------------------------------------------------------
  // Greedy non-maximum suppression
  //
  // The selection is stated for any overlap score; `ApplyNms` uses `Iou`.

  /** The candidates of `s` that survive `kept`: their overlap with it is
      below the threshold (the inner `for det in detections` loop). */
  function Survivors(s: seq<Candidate>, kept: Candidate, overlap: (Corners, Corners) -> real, thr: real)
    : (r: seq<Candidate>)
    ensures |r| <= |s|
    ensures forall d | d in r :: d in s && overlap(kept.bbox, d.bbox) < thr
  {
    if |s| == 0 then []
    else
      var init := Survivors(s[..|s| - 1], kept, overlap, thr);
      var last := s[|s| - 1];
      assert s == s[..|s| - 1] + [last];
      if overlap(kept.bbox, last.bbox) < thr then
        assert forall d | d in init :: d in s[..|s| - 1];
        init + [last]
      else init
  }

  /** Dropping candidates keeps the confidence order. */
  lemma {:induction false} SurvivorsSorted(s: seq<Candidate>, kept: Candidate,
                                           overlap: (Corners, Corners) -> real, thr: real)
    requires SortedDesc(s, Conf)
    ensures SortedDesc(Survivors(s, kept, overlap, thr), Conf)
    decreases |s|
  {
    if |s| > 0 {
      var init := s[..|s| - 1];
      var last := s[|s| - 1];
      assert SortedDesc(init, Conf);
      SurvivorsSorted(init, kept, overlap, thr);
      var r := Survivors(init, kept, overlap, thr);
      if overlap(kept.bbox, last.bbox) < thr {
        forall i | 0 <= i < |r| ensures Conf(r[i]) >= Conf(last) {
          assert r[i] in init;
        }
        assert Survivors(s, kept, overlap, thr) == r + [last];
      }
    }
  }

  /** Nothing below the threshold is dropped. */
  lemma {:induction false} SurvivorsComplete(s: seq<Candidate>, kept: Candidate,
                                             overlap: (Corners, Corners) -> real, thr: real, d: Candidate)
    requires d in s && overlap(kept.bbox, d.bbox) < thr
    ensures d in Survivors(s, kept, overlap, thr)
    decreases |s|
  {
    var last := s[|s| - 1];
    assert s == s[..|s| - 1] + [last];
    if d != last {
      SurvivorsComplete(s[..|s| - 1], kept, overlap, thr, d);
    }
  }

  /** Greedy suppression over a list already in confidence order: keep the
      head, drop everything it suppresses, repeat on the rest. */
  function GreedyNms(s: seq<Candidate>, overlap: (Corners, Corners) -> real, thr: real): (r: seq<Candidate>)
    ensures |r| <= |s|
    ensures |s| > 0 ==> |r| > 0 && r[0] == s[0]
    decreases |s|
  {
    if |s| == 0 then []
    else
      var rest := Survivors(s[1..], s[0], overlap, thr);
      var tail := GreedyNms(rest, overlap, thr);
      assert s == [s[0]] + s[1..];
      [s[0]] + tail
  }

  /** One round of the outer loop: the head is kept and the rest is
      suppressed by it. */
  lemma GreedyStep(keep: seq<Candidate>, work: seq<Candidate>, overlap: (Corners, Corners) -> real, thr: real)
    requires |work| > 0
    ensures keep + GreedyNms(work, overlap, thr)
            == (keep + [work[0]]) + GreedyNms(Survivors(work[1..], work[0], overlap, thr), overlap, thr)
  {
  }

  /** Suppression keeps only input detections. */
  lemma {:induction false} GreedyKeepsInputs(s: seq<Candidate>, overlap: (Corners, Corners) -> real, thr: real)
    ensures forall d | d in GreedyNms(s, overlap, thr) :: d in s
    decreases |s|
  {
    if |s| > 0 {
      var rest := Survivors(s[1..], s[0], overlap, thr);
      GreedyKeepsInputs(rest, overlap, thr);
      assert s == [s[0]] + s[1..];
      assert GreedyNms(s, overlap, thr) == [s[0]] + GreedyNms(rest, overlap, thr);
    }
  }

  /** Suppression keeps the confidence order of its input. */
  lemma {:induction false} GreedySorted(s: seq<Candidate>, overlap: (Corners, Corners) -> real, thr: real)
    requires SortedDesc(s, Conf)
    ensures SortedDesc(GreedyNms(s, overlap, thr), Conf)
    decreases |s|
  {
    if |s| > 0 {
      var rest := Survivors(s[1..], s[0], overlap, thr);
      assert SortedDesc(s[1..], Conf);
      SurvivorsSorted(s[1..], s[0], overlap, thr);
      GreedySorted(rest, overlap, thr);
      GreedyKeepsInputs(rest, overlap, thr);
      var r := GreedyNms(s, overlap, thr);
      var tail := GreedyNms(rest, overlap, thr);
      assert r == [s[0]] + tail;
      forall j | 1 <= j < |r| ensures Conf(r[0]) >= Conf(r[j]) {
        assert r[j] in tail;
        assert r[j] in s[1..];
      }
    }
  }

  /** Every earlier detection of `r` overlaps every later one less than the threshold. */
  predicate PairwiseBelow(r: seq<Candidate>, overlap: (Corners, Corners) -> real, thr: real) {
    forall i, j | 0 <= i < j < |r| :: overlap(r[i].bbox, r[j].bbox) < thr
  }

  /** Every two kept detections overlap less than the threshold, the
      earlier one measured against the later. */
  lemma {:induction false} GreedyPairwiseBelow(s: seq<Candidate>, overlap: (Corners, Corners) -> real, thr: real)
    ensures PairwiseBelow(GreedyNms(s, overlap, thr), overlap, thr)
    decreases |s|
  {
    if |s| > 0 {
      var rest := Survivors(s[1..], s[0], overlap, thr);
      var tail := GreedyNms(rest, overlap, thr);
      GreedyPairwiseBelow(rest, overlap, thr);
      GreedyKeepsInputs(rest, overlap, thr);
      forall k | 0 <= k < |tail| ensures overlap(s[0].bbox, tail[k].bbox) < thr {
        assert tail[k] in rest;
      }
      var r := GreedyNms(s, overlap, thr);
      assert r == [s[0]] + tail;
      forall i, j | 0 <= i < j < |r| ensures overlap(r[i].bbox, r[j].bbox) < thr {
        if i > 0 {
          assert overlap(tail[i - 1].bbox, tail[j - 1].bbox) < thr;
        }
      }
    }
  }

  /** `d` is kept in `r`, or something kept in `r` overlaps it by at least the threshold. */
  predicate Covered(d: Candidate, r: seq<Candidate>, overlap: (Corners, Corners) -> real, thr: real) {
    d in r || exists k | k in r :: overlap(k.bbox, d.bbox) >= thr
  }

  /** Covering is kept when more is kept. */
  lemma CoveredExtends(d: Candidate, t: seq<Candidate>, r: seq<Candidate>, overlap: (Corners, Corners) -> real, thr: real)
    requires Covered(d, t, overlap, thr) && forall k | k in t :: k in r
    ensures Covered(d, r, overlap, thr)
  {
    if d !in t {
      var k :| k in t && overlap(k.bbox, d.bbox) >= thr;
      assert k in r;
    }
  }

  /** Every input detection is kept, or some kept detection overlaps it by
      at least the threshold (suppression is never without a reason). */
  lemma {:induction false} GreedyCovers(s: seq<Candidate>, overlap: (Corners, Corners) -> real, thr: real)
    ensures forall d | d in s :: Covered(d, GreedyNms(s, overlap, thr), overlap, thr)
    decreases |s|
  {
    if |s| > 0 {
      var rest := Survivors(s[1..], s[0], overlap, thr);
      var t := GreedyNms(rest, overlap, thr);
      GreedyCovers(rest, overlap, thr);
      var r := GreedyNms(s, overlap, thr);
      assert r == [s[0]] + t;
      forall d | d in s ensures Covered(d, r, overlap, thr) {
        if d == s[0] {
          assert d in r;
        } else if overlap(s[0].bbox, d.bbox) >= thr {
          assert s[0] in r;
        } else {
          assert d in s[1..] by { assert s == [s[0]] + s[1..]; }
          SurvivorsComplete(s[1..], s[0], overlap, thr, d);
          CoveredExtends(d, t, r, overlap, thr);
        }
      }
    }
  }

  /** `apply_nms`: sort by confidence (highest first, stable), then keep
      greedily by IoU. */
  method ApplyNms(detections: seq<Candidate>, thr: real) returns (keep: seq<Candidate>)
    ensures keep == GreedyNms(SortDesc(detections, Conf), Iou, thr)
    ensures detections == [] <==> keep == []
    ensures |keep| <= |detections| && forall k | k in keep :: k in detections
    ensures SortedDesc(keep, Conf)
    ensures |detections| > 0 ==>
              keep[0] in detections && forall d | d in detections :: d.confidence <= keep[0].confidence
    ensures forall i, j | 0 <= i < |keep| && 0 <= j < |keep| && i != j :: Iou(keep[i].bbox, keep[j].bbox) < thr
    ensures forall d | d in detections :: Covered(d, keep, Iou, thr)
  {
    var sorted := SortDesc(detections, Conf);
    if |detections| == 0 {
      return [];
    }
    var work := sorted;
    keep := [];
    while |work| > 0
      invariant keep + GreedyNms(work, Iou, thr) == GreedyNms(sorted, Iou, thr)
      decreases |work|
    {
      var head := work[0];
      GreedyStep(keep, work, Iou, thr);
      keep := keep + [head];
      work := work[1..];
      // An empty remainder ends the loop (the source breaks out there).
      if |work| > 0 {
        work := SuppressOverlapping(work, head, thr);
      }
    }
    NmsProperties(detections, sorted, keep, thr);
  }

  /** One pass of the inner loop of `apply_nms`: the detections whose IoU
      with the last kept one is below the threshold, in their order. */
  method SuppressOverlapping(detections: seq<Candidate>, kept: Candidate, thr: real)
    returns (next: seq<Candidate>)
    ensures next == Survivors(detections, kept, Iou, thr)
    ensures forall d | d in next :: d in detections && Iou(kept.bbox, d.bbox) < thr
    ensures forall d | d in detections && Iou(kept.bbox, d.bbox) < thr :: d in next
  {
    next := [];
    for i := 0 to |detections|
      invariant next == Survivors(detections[..i], kept, Iou, thr)
    {
      assert detections[..i + 1] == detections[..i] + [detections[i]];
      if Iou(kept.bbox, detections[i].bbox) < thr {
        next := next + [detections[i]];
      }
    }
    assert detections[..|detections|] == detections;
    forall d | d in detections && Iou(kept.bbox, d.bbox) < thr ensures d in next {
      SurvivorsComplete(detections, kept, Iou, thr, d);
    }
  }

  /** What `ApplyNms` promises beyond its defining equation. */
  lemma NmsProperties(detections: seq<Candidate>, sorted: seq<Candidate>, keep: seq<Candidate>, thr: real)
    requires |detections| > 0
    requires sorted == SortDesc(detections, Conf) && keep == GreedyNms(sorted, Iou, thr)
    ensures keep != [] && forall k | k in keep :: k in detections
    ensures SortedDesc(keep, Conf)
    ensures keep[0] in detections && forall d | d in detections :: d.confidence <= keep[0].confidence
    ensures forall i, j | 0 <= i < |keep| && 0 <= j < |keep| && i != j :: Iou(keep[i].bbox, keep[j].bbox) < thr
    ensures forall d | d in detections :: Covered(d, keep, Iou, thr)
  {
    SortDescHeadIsMax(detections, Conf);
    GreedySorted(sorted, Iou, thr);
    GreedyPairwiseBelow(sorted, Iou, thr);
    GreedyCovers(sorted, Iou, thr);
    forall i, j | 0 <= i < |keep| && 0 <= j < |keep| && i != j ensures Iou(keep[i].bbox, keep[j].bbox) < thr {
      if j < i {
        IouSymmetric(keep[i].bbox, keep[j].bbox);
      }
    }
    forall d | d in detections ensures d in sorted {
      assert d in multiset(detections);
    }
    GreedyKeepsInputs(sorted, Iou, thr);
    forall k | k in keep ensures k in detections {
      assert k in multiset(sorted);
    }
  }

  // ---------------------------------------------------------------------------
  // Letterbox padding

  /** `pad // 2` on one side and the rest on the other. Python's `//` floors,
      which is Dafny's `/` for a positive divisor. */
  function PadSplit(newSize: int, unpadded: int): (pad: (int, int))
    ensures pad.0 + pad.1 + unpadded == newSize
    ensures pad.0 <= pad.1 <= pad.0 + 1
  {
    var total := newSize - unpadded;
    (total / 2, total - total / 2)
  }

  /** What `letterbox_image_and_metadata` computes besides the pixels. */
  datatype Letterbox = Letterbox(ratio: real, unpadW: int, unpadH: int,
                                 padLeft: int, padTop: int, padRight: int, padBottom: int,
                                 origW: nat, origH: nat)

  /** `int(round(side * r))` on the exact value. */
  function ScaledSide(side: nat, ratio: real): int {
    RoundHalfEven(side as real * ratio)
  }

  lemma ScaledSideFits(side: nat, longest: nat)
    requires 0 < side <= longest
    ensures 0 <= ScaledSide(side, InputSize as real / longest as real) <= InputSize
  {
    var r := InputSize as real / longest as real;
    assert r * longest as real == InputSize as real;
    assert side as real * r <= longest as real * r;
    assert side as real * r >= 0.0;
  }

  function LetterboxOf(w0: nat, h0: nat): (m: Letterbox)
    requires w0 > 0 && h0 > 0
    ensures m.ratio > 0.0 && m.origW == w0 && m.origH == h0
    ensures m.padLeft + m.padRight + m.unpadW == InputSize
    ensures m.padTop + m.padBottom + m.unpadH == InputSize
    ensures 0 <= m.padLeft <= m.padRight <= m.padLeft + 1
    ensures 0 <= m.padTop <= m.padBottom <= m.padTop + 1
  {
    var longest := if h0 >= w0 then h0 else w0;
    var r := InputSize as real / longest as real;
    ScaledSideFits(w0, longest);
    ScaledSideFits(h0, longest);
    var uw, uh := ScaledSide(w0, r), ScaledSide(h0, r);
    var (pl, pr) := PadSplit(InputSize, uw);
    var (pt, pb) := PadSplit(InputSize, uh);
    Letterbox(r, uw, uh, pl, pt, pr, pb, w0, h0)
  }

  // ---------------------------------------------------------------------------
  // Decoding the model output

  /** `np.argmax`: the first position of the largest value. */
  function ArgMax(s: seq<real>): (k: nat)
    requires |s| > 0
    ensures k < |s|
    ensures forall j | 0 <= j < |s| :: s[j] <= s[k]
    ensures forall j | 0 <= j < k :: s[j] < s[k]
  {
    if |s| == 1 then 0
    else
      var k := ArgMax(s[..|s| - 1]);
      if s[|s| - 1] > s[k] then |s| - 1 else k
  }

  /** The largest of the first four values of the rows (`np.max(output[..., :4])`),
      or None when there is none. */
  function MaxCoord(rows: seq<seq<real>>): Option<real> {
    if |rows| == 0 then None
    else
      var last := rows[|rows| - 1];
      var head := last[..if |last| < 4 then |last| else 4];
      var rest := MaxCoord(rows[..|rows| - 1]);
      if |head| == 0 then rest
      else
        var m := head[ArgMax(head)];
        match rest
        case None => Some(m)
        case Some(v) => Some(Max(v, m))
  }

  /** `coords_normalized`: an empty output counts as normalised (its maximum is 0.0). */
  predicate CoordsNormalised(rows: seq<seq<real>>) {
    match MaxCoord(rows)
    case None => true
    case Some(m) => m <= 1.0 + 0.000001
  }

  /** The row's box in model-input pixels: `(x_center, y_center, w, h)`,
      scaled by the input size when the output is normalised. */
  function InputBox(row: seq<real>, normalised: bool): (b: (real, real, real, real))
    requires |row| >= 4
  {
    var scale := if normalised then InputSize as real else 1.0;
    (row[0] * scale, row[1] * scale, row[2] * scale, row[3] * scale)
  }

  /** The row's box in the original image, before clamping: the letterbox
      padding taken off the centre, centre and size divided by the ratio,
      then turned into corners. */
  function OriginalBox(row: seq<real>, meta: Letterbox, normalised: bool): (b: Corners)
    requires |row| >= 4 && meta.ratio > 0.0
  {
    var (xc, yc, w, h) := InputBox(row, normalised);
    var xo := (xc - meta.padLeft as real) / meta.ratio;
    var yo := (yc - meta.padTop as real) / meta.ratio;
    var wo, ho := w / meta.ratio, h / meta.ratio;
    Corners(xo - wo / 2.0, yo - ho / 2.0, xo + wo / 2.0, yo + ho / 2.0)
  }

  /** Each corner clamped into the original image. */
  function ClampToImage(b: Corners, meta: Letterbox): (r: Corners)
    ensures 0.0 <= r.x1 <= meta.origW as real && 0.0 <= r.x2 <= meta.origW as real
    ensures 0.0 <= r.y1 <= meta.origH as real && 0.0 <= r.y2 <= meta.origH as real
    ensures (0.0 <= b.x1 <= meta.origW as real && 0.0 <= b.x2 <= meta.origW as real &&
             0.0 <= b.y1 <= meta.origH as real && 0.0 <= b.y2 <= meta.origH as real) ==> r == b
  {
    Corners(Clamp(b.x1, 0.0, meta.origW as real), Clamp(b.y1, 0.0, meta.origH as real),
            Clamp(b.x2, 0.0, meta.origW as real), Clamp(b.y2, 0.0, meta.origH as real))
  }

  /** The box undoes the letterbox: mapped back into the model input
      (times the ratio, plus the padding), its centre and size are the
      row's. */
  lemma OriginalBoxUndoesLetterbox(row: seq<real>, meta: Letterbox, normalised: bool)
    requires |row| >= 4 && meta.ratio > 0.0
    ensures var b := OriginalBox(row, meta, normalised);
            var (xc, yc, w, h) := InputBox(row, normalised);
            (b.x1 + b.x2) / 2.0 * meta.ratio + meta.padLeft as real == xc &&
            (b.y1 + b.y2) / 2.0 * meta.ratio + meta.padTop as real == yc &&
            (b.x2 - b.x1) * meta.ratio == w && (b.y2 - b.y1) * meta.ratio == h
  {
    var b := OriginalBox(row, meta, normalised);
    var (xc, yc, w, h) := InputBox(row, normalised);
    var r := meta.ratio;
    var xo := (xc - meta.padLeft as real) / r;
    var yo := (yc - meta.padTop as real) / r;
    assert (b.x1 + b.x2) / 2.0 == xo && (b.y1 + b.y2) / 2.0 == yo;
    assert xo * r == xc - meta.padLeft as real;
    assert yo * r == yc - meta.padTop as real;
    assert b.x2 - b.x1 == w / r && b.y2 - b.y1 == h / r;
    assert (w / r) * r == w && (h / r) * r == h;
  }

  /** The candidate one output row yields, if any: a row long enough whose
      best class reaches the threshold, with that class, its score as a
      percentage clamped into [0, 100], and the box in the original image
      clamped into it. */
  function CandidateOf(row: seq<real>, meta: Letterbox, normalised: bool, confThr: real): (c: Option<Candidate>)
    requires meta.ratio > 0.0
    ensures |row| < 4 + NumClasses ==> c.None?
    ensures |row| >= 4 + NumClasses ==>
              (c.Some? <==> row[4 + ArgMax(row[4..4 + NumClasses])] >= confThr)
    ensures c.Some? ==>
              var k := ArgMax(row[4..4 + NumClasses]);
              c.value.classId == k && c.value.className == ClassName(k) &&
              c.value.confidence == Clamp(row[4 + k] * 100.0, 0.0, 100.0) &&
              c.value.bbox == ClampToImage(OriginalBox(row, meta, normalised), meta)
    ensures c.Some? ==> c.value.classId < NumClasses && row[4 + c.value.classId] >= confThr
    ensures c.Some? ==> 0.0 <= c.value.bbox.x1 <= meta.origW as real && 0.0 <= c.value.bbox.x2 <= meta.origW as real
    ensures c.Some? ==> 0.0 <= c.value.bbox.y1 <= meta.origH as real && 0.0 <= c.value.bbox.y2 <= meta.origH as real
    ensures c.Some? ==> 0.0 <= c.value.confidence <= 100.0
  {
    if |row| < 4 + NumClasses then None
    else
      var confs := row[4..4 + NumClasses];
      var classId := ArgMax(confs);
      var conf := confs[classId];
      if conf < confThr then None
      else
        var box := ClampToImage(OriginalBox(row, meta, normalised), meta);
        Some(Candidate(classId, ClassName(classId), Clamp(conf * 100.0, 0.0, 100.0), box))
  }

  /** The candidates of all rows, in row order (the loop of `postprocess_output`). */
  function Candidates(rows: seq<seq<real>>, meta: Letterbox, normalised: bool, confThr: real): (r: seq<Candidate>)
    requires meta.ratio > 0.0
    ensures |r| <= |rows|
    ensures forall i | 0 <= i < |rows| && CandidateOf(rows[i], meta, normalised, confThr).Some? ::
              CandidateOf(rows[i], meta, normalised, confThr).value in r
    ensures forall c | c in r :: exists i | 0 <= i < |rows| :: CandidateOf(rows[i], meta, normalised, confThr) == Some(c)
  {
    if |rows| == 0 then []
    else
      var prefix := rows[..|rows| - 1];
      var init := Candidates(prefix, meta, normalised, confThr);
      assert forall i | 0 <= i < |prefix| :: prefix[i] == rows[i];
      match CandidateOf(rows[|rows| - 1], meta, normalised, confThr)
      case None => init
      case Some(c) => init + [c]
  }

  /** The candidates of consecutive runs of rows come in the order of the
      runs: a row's candidate follows those of all earlier rows. */
  lemma {:induction false} CandidatesAppend(rows1: seq<seq<real>>, rows2: seq<seq<real>>, meta: Letterbox,
                                            normalised: bool, confThr: real)
    requires meta.ratio > 0.0
    ensures Candidates(rows1 + rows2, meta, normalised, confThr) ==
            Candidates(rows1, meta, normalised, confThr) + Candidates(rows2, meta, normalised, confThr)
    decreases |rows2|
  {
    if |rows2| == 0 {
      assert rows1 + rows2 == rows1;
    } else {
      var last := rows2[|rows2| - 1];
      var front := rows2[..|rows2| - 1];
      assert (rows1 + rows2)[..|rows1 + rows2| - 1] == rows1 + front;
      assert (rows1 + rows2)[|rows1 + rows2| - 1] == last;
      CandidatesAppend(rows1, front, meta, normalised, confThr);
    }
  }

  /** Every decoded candidate lies inside the original image and carries a
      percentage. */
  lemma {:induction false} CandidatesInBounds(rows: seq<seq<real>>, meta: Letterbox, normalised: bool, confThr: real)
    requires meta.ratio > 0.0
    ensures forall c | c in Candidates(rows, meta, normalised, confThr) ::
              0.0 <= c.bbox.x1 <= meta.origW as real && 0.0 <= c.bbox.x2 <= meta.origW as real &&
              0.0 <= c.bbox.y1 <= meta.origH as real && 0.0 <= c.bbox.y2 <= meta.origH as real &&
              0.0 <= c.confidence <= 100.0
  {
    if |rows| > 0 {
      CandidatesInBounds(rows[..|rows| - 1], meta, normalised, confThr);
    }
  }

  /** `postprocess_output`. */
  method PostprocessOutput(rows: seq<seq<real>>, meta: Letterbox, confThr: real, iouThr: real)
    returns (detections: seq<Candidate>)
    requires meta.ratio > 0.0
    ensures detections == GreedyNms(SortDesc(Candidates(rows, meta, CoordsNormalised(rows), confThr), Conf), Iou, iouThr)
    ensures |detections| <= |rows|
    ensures forall c | c in detections ::
              0.0 <= c.bbox.x1 <= meta.origW as real && 0.0 <= c.bbox.x2 <= meta.origW as real &&
              0.0 <= c.bbox.y1 <= meta.origH as real && 0.0 <= c.bbox.y2 <= meta.origH as real &&
              0.0 <= c.confidence <= 100.0
  {
    var normalised := CoordsNormalised(rows);
    var found := [];
    for i := 0 to |rows|
      invariant found == Candidates(rows[..i], meta, normalised, confThr)
    {
      assert rows[..i + 1][..i] == rows[..i];
      var c := CandidateOf(rows[i], meta, normalised, confThr);
      if c.Some? {
        found := found + [c.value];
      }
    }
    assert rows[..|rows|] == rows;
    detections := ApplyNms(found, iouThr);
    CandidatesInBounds(rows, meta, normalised, confThr);
    forall c | c in detections ensures c in found {
      assert c in multiset(detections);
    }
  }

  // ---------------------------------------------------------------------------
  // The response of `predict`

  /** One entry of `formatted_detections`: the box in corner form. */
  datatype FormattedDetection = FormattedDetection(klass: string, classId: nat, confidence: real,
                                                   x1: real, y1: real, x2: real, y2: real)

  datatype PredictResponse = PredictResponse(result: string, confidence: real, details: string,
                                             totalDetections: nat, detections: seq<FormattedDetection>,
                                             annotatedImage: string)

  /** `max(d['confidence'] for d in detections)`. */
  function MaxConfidence(dets: seq<Candidate>): (m: real)
    requires |dets| > 0
    ensures exists i | 0 <= i < |dets| :: m == dets[i].confidence
    ensures forall i | 0 <= i < |dets| :: dets[i].confidence <= m
  {
    if |dets| == 1 then dets[0].confidence
    else
      var m := MaxConfidence(dets[1..]);
      assert forall i | 1 <= i < |dets| :: dets[i] == dets[1..][i - 1];
      Max(dets[0].confidence, m)
  }

  function Format(d: Candidate): FormattedDetection {
    FormattedDetection(FractureLabel, d.classId, PyRound(d.confidence, 2),
                       d.bbox.x1, d.bbox.y1, d.bbox.x2, d.bbox.y2)
  }

  /** The result `predict` answers with for the surviving detections; the
      annotated image is the base64 text of the drawn image behind a data-URL
      prefix, which makes it non-empty. */
  function PredictResult(dets: seq<Candidate>, encodedImage: string): (p: PredictResponse)
    ensures p.result == FractureLabel <==> |dets| > 0
    ensures |dets| == 0 ==> p.result == NormalLabel && p.confidence == 0.0
    ensures |dets| > 0 ==> p.confidence == PyRound(MaxConfidence(dets), 2)
    ensures p.totalDetections == |dets| && |p.detections| == |dets|
    ensures forall i | 0 <= i < |dets| ::
              p.detections[i].klass == FractureLabel && p.detections[i].classId == dets[i].classId &&
              p.detections[i].confidence == PyRound(dets[i].confidence, 2) &&
              p.detections[i].x1 == dets[i].bbox.x1 && p.detections[i].y1 == dets[i].bbox.y1 &&
              p.detections[i].x2 == dets[i].bbox.x2 && p.detections[i].y2 == dets[i].bbox.y2
    ensures p.annotatedImage != ""
  {
    var n := |dets|;
    var formatted := seq(n, i requires 0 <= i < n => Format(dets[i]));
    var image := "data:image/jpeg;base64," + encodedImage;
    if n > 0 then
      PredictResponse(FractureLabel, PyRound(MaxConfidence(dets), 2),
                      "Phát hiện " + NatToString(n) + " vùng bất thường", n, formatted, image)
    else
      PredictResponse(NormalLabel, PyRound(0.0, 2), "Không phát hiện dấu hiệu xương gãy", 0, formatted, image)
  }

  /** The confidence of a fracture answer is the largest confidence among
      its formatted detections. */
  lemma PredictTopConfidence(dets: seq<Candidate>, encodedImage: string)
    requires |dets| > 0
    ensures var p := PredictResult(dets, encodedImage);
            (exists i | 0 <= i < |p.detections| :: p.confidence == p.detections[i].confidence) &&
            forall i | 0 <= i < |p.detections| :: p.detections[i].confidence <= p.confidence
  {
    var p := PredictResult(dets, encodedImage);
    var m := MaxConfidence(dets);
    var k :| 0 <= k < |dets| && m == dets[k].confidence;
    assert p.confidence == p.detections[k].confidence;
    forall i | 0 <= i < |p.detections| ensures p.detections[i].confidence <= p.confidence {
      PyRoundMonotone(dets[i].confidence, m, 2);
    }
  }

  /** With percentages in, every confidence of the response is a percentage. */
  lemma PredictConfidencesArePercent(dets: seq<Candidate>, encodedImage: string)
    requires forall d | d in dets :: 0.0 <= d.confidence <= 100.0
    ensures var p := PredictResult(dets, encodedImage);
            0.0 <= p.confidence <= 100.0 &&
            forall i | 0 <= i < |p.detections| :: 0.0 <= p.detections[i].confidence <= 100.0
  {
    var p := PredictResult(dets, encodedImage);
    forall i | 0 <= i < |p.detections| ensures 0.0 <= p.detections[i].confidence <= 100.0 {
      assert dets[i] in dets;
    }
  }

  /** What the `/predict` route answers: an error text or the result. */
  datatype PredictBody = ErrorBody(error: string) | ResultBody(response: PredictResponse)

  /** The upload as the route sees it: the multipart part named `file`. */
  datatype UploadPart = UploadPart(filename: string)

  /** The `/predict` route. The decoded image size, the raw model output and
      the encoded annotated image come from libraries the model does not
      see; a failure of decoding or inference is the `Fail` outcome, which
      the route's `except` turns into a 500. */
  method Predict(modelLoaded: bool, file: Option<UploadPart>, imageSize: Outcome<(nat, nat)>,
                 output: Outcome<seq<seq<real>>>, encodedImage: string)
    returns (status: int, body: PredictBody)
    ensures !modelLoaded ==> status == 500 && body.ErrorBody?
    ensures modelLoaded && (file.None? || file.value.filename == "") ==> status == 400 && body.ErrorBody?
    ensures status == 200 <==> body.ResultBody?
    ensures status == 200 <==> modelLoaded && file.Some? && file.value.filename != "" &&
                               imageSize.Ok? && imageSize.value.0 > 0 && imageSize.value.1 > 0 && output.Ok?
    ensures body.ResultBody? ==>
              var meta := LetterboxOf(imageSize.value.0, imageSize.value.1);
              var rows := output.value;
              var dets := GreedyNms(SortDesc(Candidates(rows, meta, CoordsNormalised(rows), ConfidenceThreshold), Conf),
                                    Iou, IouThreshold);
              body.response == PredictResult(dets, encodedImage)
  {
    if !modelLoaded {
      return 500, ErrorBody("Model not loaded");
    }
    if file.None? {
      return 400, ErrorBody("No file uploaded");
    }
    if file.value.filename == "" {
      return 400, ErrorBody("Empty filename");
    }
    if imageSize.Fail? || imageSize.value.0 == 0 || imageSize.value.1 == 0 || output.Fail? {
      return 500, ErrorBody("Prediction error");
    }
    var meta := LetterboxOf(imageSize.value.0, imageSize.value.1);
    var detections := PostprocessOutput(output.value, meta, ConfidenceThreshold, IouThreshold);
    return 200, ResultBody(PredictResult(detections, encodedImage));
  }
}
