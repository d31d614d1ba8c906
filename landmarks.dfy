/**
 * The arithmetic of the hand-sign models: the landmark normalisation of the
 * number model (`NumberModel.pre_process_landmark`), the label the number
 * model reports, and the safe crop of the alphabet model. Landmark
 * coordinates are the integer pixel positions `calc_landmark_list` produces;
 * the division is exact over `real`.
 */
module Landmarks {
  import opened Wrappers

  /** One landmark, `[x, y]` in pixels. */
  datatype Point = Point(x: int, y: int)

  function Abs(n: int): nat {
    if n < 0 then -n else n
  }

  /** A point expressed relative to `base`. */
  function Offset(p: Point, base: Point): Point {
    Point(p.x - base.x, p.y - base.y)
  }

  /** Every point expressed relative to `base`. */
  function Relative(points: seq<Point>, base: Point): (r: seq<Point>)
    ensures |r| == |points|
    ensures forall i :: 0 <= i < |points| ==> r[i] == Offset(points[i], base)
  {
    seq(|points|, i requires 0 <= i < |points| => Offset(points[i], base))
  }

  /** `itertools.chain.from_iterable`: x0, y0, x1, y1, ... */
  function Flatten(points: seq<Point>): seq<int>
    decreases |points|
  {
    if points == [] then [] else [points[0].x, points[0].y] + Flatten(points[1..])
  }

  /** The flattened list has two entries per point, x before y. */
  lemma {:induction false} FlattenSpec(points: seq<Point>)
    ensures |Flatten(points)| == 2 * |points|
    ensures forall i :: 0 <= i < |points| ==>
      Flatten(points)[2 * i] == points[i].x && Flatten(points)[2 * i + 1] == points[i].y
    decreases |points|
  {
    if points != [] {
      FlattenSpec(points[1..]);
      var f := Flatten(points);
      forall i | 0 <= i < |points|
        ensures f[2 * i] == points[i].x && f[2 * i + 1] == points[i].y
      {
        if i > 0 {
          assert f[2 * i] == Flatten(points[1..])[2 * (i - 1)];
          assert f[2 * i + 1] == Flatten(points[1..])[2 * (i - 1) + 1];
        }
      }
    }
  }

  /** `max(map(abs, values))`, defined for a non-empty list only. */
  function MaxAbs(values: seq<int>): nat
    requires |values| > 0
    decreases |values|
  {
    if |values| == 1 then Abs(values[0])
    else
      var rest := MaxAbs(values[1..]);
      if Abs(values[0]) > rest then Abs(values[0]) else rest
  }

  /** The maximum bounds every absolute value and is attained by one. */
  lemma {:induction false} MaxAbsSpec(values: seq<int>)
    requires |values| > 0
    ensures forall i :: 0 <= i < |values| ==> Abs(values[i]) <= MaxAbs(values)
    ensures exists i :: 0 <= i < |values| && Abs(values[i]) == MaxAbs(values)
    decreases |values|
  {
    if |values| > 1 {
      MaxAbsSpec(values[1..]);
      var k :| 0 <= k < |values[1..]| && Abs(values[1..][k]) == MaxAbs(values[1..]);
      assert values[1..][k] == values[k + 1];
      forall i | 0 < i < |values| ensures Abs(values[i]) <= MaxAbs(values) {
        assert values[i] == values[1..][i - 1];
      }
    } else {
      assert Abs(values[0]) == MaxAbs(values);
    }
  }

  /** `normalize_`: each value divided by the maximum, or 0 when that is 0. */
  function Scaled(values: seq<int>, maxValue: nat): seq<real> {
    seq(|values|, i requires 0 <= i < |values| =>
      if maxValue != 0 then values[i] as real / maxValue as real else 0.0)
  }

  /** The whole normalisation as a function of the input list; there is no
      result for an empty list, on which `max` raises. */
  function PreProcessed(points: seq<Point>): Option<seq<real>> {
    if points == [] then None
    else
      var flat := Flatten(Relative(points, points[0]));
      FlattenSpec(Relative(points, points[0]));
      Some(Scaled(flat, MaxAbs(flat)))
  }

  /** `pre_process_landmark`: copies the list, makes every point relative to
      the first one in place, then flattens and normalises. */
  method PreProcessLandmark(landmarkList: seq<Point>) returns (r: Option<seq<real>>)
    ensures r == PreProcessed(landmarkList)
  {
    var temp := landmarkList;
    var baseX, baseY := 0, 0;
    var index := 0;
    while index < |temp|
      invariant 0 <= index <= |temp| == |landmarkList|
      invariant index > 0 ==> baseX == landmarkList[0].x && baseY == landmarkList[0].y
      invariant forall i :: 0 <= i < index ==> temp[i] == Offset(landmarkList[i], landmarkList[0])
      invariant forall i :: index <= i < |temp| ==> temp[i] == landmarkList[i]
    {
      if index == 0 {
        baseX, baseY := temp[index].x, temp[index].y;
      }
      temp := temp[index := temp[index].(x := temp[index].x - baseX)];
      temp := temp[index := temp[index].(y := temp[index].y - baseY)];
      index := index + 1;
    }
    var flat := Flatten(temp);
    FlattenSpec(temp);
    if |flat| == 0 {
      return None;
    }
    assert temp == Relative(landmarkList, landmarkList[0]);
    r := Some(Scaled(flat, MaxAbs(flat)));
  }

  /** n points give 2n values in the order x0, y0, x1, y1, ..., each the
      coordinate relative to point 0 over the largest such magnitude; the
      first two are 0. */
  lemma PreProcessedShape(points: seq<Point>)
    requires points != []
    ensures PreProcessed(points).Some?
    ensures var v := PreProcessed(points).value;
      |v| == 2 * |points| && v[0] == 0.0 && v[1] == 0.0
    ensures var v, m := PreProcessed(points).value, MaxAbs(Flatten(Relative(points, points[0])));
      forall i :: 0 <= i < |points| ==>
        v[2 * i] == (if m != 0 then (points[i].x - points[0].x) as real / m as real else 0.0) &&
        v[2 * i + 1] == (if m != 0 then (points[i].y - points[0].y) as real / m as real else 0.0)
  {
    FlattenSpec(Relative(points, points[0]));
  }

  /** Every value lies in [-1, 1]; one has magnitude 1 unless all points
      coincide, in which case all values are 0. */
  lemma PreProcessedRange(points: seq<Point>)
    requires points != []
    ensures PreProcessed(points).Some?
    ensures var v := PreProcessed(points).value;
      forall i :: 0 <= i < |v| ==> -1.0 <= v[i] <= 1.0
    ensures var v := PreProcessed(points).value;
      (forall i :: 0 <= i < |v| ==> v[i] == 0.0) <==> (forall i :: 0 <= i < |points| ==> points[i] == points[0])
    ensures var v := PreProcessed(points).value;
      (exists i :: 0 <= i < |points| && points[i] != points[0]) ==> exists i :: 0 <= i < |v| && (v[i] == 1.0 || v[i] == -1.0)
  {
    var rel := Relative(points, points[0]);
    var flat := Flatten(rel);
    FlattenSpec(rel);
    MaxAbsSpec(flat);
    var m := MaxAbs(flat);
    var v := PreProcessed(points).value;
    assert v == Scaled(flat, m);
    forall i | 0 <= i < |v| ensures -1.0 <= v[i] <= 1.0 {
      if m != 0 {
        UnitRatio(flat[i], m);
      }
    }
    if m == 0 {
      forall i | 0 <= i < |points| ensures points[i] == points[0] {
        assert Abs(flat[2 * i]) <= 0 && Abs(flat[2 * i + 1]) <= 0;
      }
    } else {
      var k :| 0 <= k < |flat| && Abs(flat[k]) == m;
      UnitRatio(flat[k], m);
      assert v[k] == 1.0 || v[k] == -1.0;
      var p := k / 2;
      assert k == 2 * p || k == 2 * p + 1;
      assert points[p] != points[0];
      assert v[k] != 0.0;
    }
  }

  /** a / m lies in [-1, 1] when |a| <= m, and has magnitude 1 exactly when |a| = m. */
  lemma UnitRatio(a: int, m: nat)
    requires 0 < m && Abs(a) <= m
    ensures -1.0 <= a as real / m as real <= 1.0
    ensures a as real / m as real == 0.0 <==> a == 0
    ensures Abs(a) == m ==> (a as real / m as real == 1.0 || a as real / m as real == -1.0)
  {
    var q := a as real / m as real;
    assert q * m as real == a as real;
    if a == m {
      assert q == 1.0;
    } else if -a == m {
      assert q == -1.0;
    }
  }

  /** Moving the whole hand does not change the features. */
  lemma PreProcessedTranslation(points: seq<Point>, dx: int, dy: int)
    ensures PreProcessed(seq(|points|, i requires 0 <= i < |points| => Point(points[i].x + dx, points[i].y + dy)))
         == PreProcessed(points)
  {
    var moved := seq(|points|, i requires 0 <= i < |points| => Point(points[i].x + dx, points[i].y + dy));
    if points != [] {
      assert Relative(moved, moved[0]) == Relative(points, points[0]);
    }
  }

  /** Every coordinate multiplied by k. */
  function ScaledBy(points: seq<Point>, k: nat): (r: seq<Point>)
    ensures |r| == |points|
    ensures forall i :: 0 <= i < |points| ==> r[i] == Point(k * points[i].x, k * points[i].y)
  {
    seq(|points|, i requires 0 <= i < |points| => Point(k * points[i].x, k * points[i].y))
  }

  /** Enlarging the hand by a whole factor does not change the features. */
  lemma PreProcessedScale(points: seq<Point>, k: nat)
    requires k > 0
    ensures PreProcessed(ScaledBy(points, k)) == PreProcessed(points)
  {
    if points != [] {
      var flat := Flatten(Relative(points, points[0]));
      var flatBig := Flatten(Relative(ScaledBy(points, k), ScaledBy(points, k)[0]));
      FlattenScaled(points, k);
      MaxAbsScale(flat, flatBig, k);
      var m := MaxAbs(flat);
      assert MaxAbs(flatBig) == k * m;
      assert m != 0 <==> k * m != 0;
      forall i | 0 <= i < |flat|
        ensures Scaled(flatBig, k * m)[i] == Scaled(flat, m)[i]
      {
        if m != 0 {
          RatioScale(flat[i], m, k);
        }
      }
      assert Scaled(flatBig, k * m) == Scaled(flat, m);
    }
  }

  /** The flattened relative coordinates of the enlarged hand are those of
      the hand, times k. */
  lemma FlattenScaled(points: seq<Point>, k: nat)
    requires points != []
    ensures var flat := Flatten(Relative(points, points[0]));
      var flatBig := Flatten(Relative(ScaledBy(points, k), ScaledBy(points, k)[0]));
      |flat| > 0 && |flatBig| == |flat| && forall i :: 0 <= i < |flat| ==> flatBig[i] == k * flat[i]
  {
    var big := ScaledBy(points, k);
    var rel, relBig := Relative(points, points[0]), Relative(big, big[0]);
    forall p | 0 <= p < |points|
      ensures relBig[p] == ScaledBy(rel, k)[p]
    {
      Distribute(k, points[p].x, points[0].x);
      Distribute(k, points[p].y, points[0].y);
    }
    assert relBig == ScaledBy(rel, k);
    FlattenMul(rel, k);
  }

  /** Flattening commutes with scaling. */
  lemma FlattenMul(points: seq<Point>, k: nat)
    ensures |Flatten(ScaledBy(points, k))| == |Flatten(points)| == 2 * |points|
    ensures forall i :: 0 <= i < |Flatten(points)| ==> Flatten(ScaledBy(points, k))[i] == k * Flatten(points)[i]
  {
    var big := ScaledBy(points, k);
    FlattenSpec(points);
    FlattenSpec(big);
    forall i | 0 <= i < |Flatten(points)| ensures Flatten(big)[i] == k * Flatten(points)[i] {
      var p := i / 2;
      if i == 2 * p {
        assert Flatten(big)[2 * p] == big[p].x;
      } else {
        assert i == 2 * p + 1;
        assert Flatten(big)[2 * p + 1] == big[p].y;
      }
    }
  }

  lemma Distribute(k: nat, a: int, b: int)
    ensures k * a - k * b == k * (a - b)
  {
  }

  /** Scaling every value by k scales the largest magnitude by k. */
  lemma {:induction false} MaxAbsScale(values: seq<int>, scaled: seq<int>, k: nat)
    requires |values| > 0 && |scaled| == |values|
    requires forall i :: 0 <= i < |values| ==> scaled[i] == k * values[i]
    ensures MaxAbs(scaled) == k * MaxAbs(values)
    decreases |values|
  {
    assert Abs(scaled[0]) == k * Abs(values[0]) by {
      if values[0] < 0 {
        assert k * values[0] == -(k * -values[0]);
      }
    }
    if |values| > 1 {
      MaxAbsScale(values[1..], scaled[1..], k);
      if Abs(values[0]) > MaxAbs(values[1..]) {
        MulMonotone(k, Abs(values[0]), MaxAbs(values[1..]));
      } else {
        MulMonotone(k, MaxAbs(values[1..]), Abs(values[0]));
      }
    }
  }

  lemma MulMonotone(k: nat, a: nat, b: nat)
    requires a >= b
    ensures k * a >= k * b
    ensures k > 0 && a > b ==> k * a > k * b
  {
  }

  lemma RatioScale(a: int, m: nat, k: nat)
    requires m > 0 && k > 0
    ensures (k * a) as real / (k * m) as real == a as real / m as real
  {
    assert (k * a) as real == k as real * a as real;
    assert (k * m) as real == k as real * m as real;
  }

  /** What the KNN classifier did for one detected hand. */
  datatype KnnOutcome = Predicted(text: string) | Raised

  /** The label reported for one hand: the classifier's label, or "?" when
      it raised. */
  function HandLabel(o: KnnOutcome): string {
    match o
    case Predicted(text) => text
    case Raised => "?"
  }

  /** The label `NumberModel.predict` reports, given whether a classifier
      was trained and the classifier's outcome for each detected hand.
      Without a classifier it is "Error" whatever is seen; with one it is
      "Error" only when the classifier said so for the last hand, and it is
      empty exactly when no hand is seen or the last hand's label is empty. */
  function NumberLabel(hasKnn: bool, hands: seq<KnnOutcome>): (reported: string)
    ensures !hasKnn ==> reported == "Error"
    ensures hasKnn && reported == "Error" ==> hands != [] && hands[|hands| - 1] == Predicted("Error")
    ensures hasKnn ==> (reported == "" <==> hands == [] || hands[|hands| - 1] == Predicted(""))
  {
    if !hasKnn then "Error"
    else if hands == [] then ""
    else HandLabel(hands[|hands| - 1])
  }

  /** `NumberModel.predict`'s label bookkeeping: "Error" without a
      classifier; otherwise the hands are classified in turn and each
      overwrites the label. */
  method NumberPredict(hasKnn: bool, hands: seq<KnnOutcome>) returns (predictionLabel: string)
    ensures predictionLabel == NumberLabel(hasKnn, hands)
  {
    if !hasKnn {
      return "Error";
    }
    predictionLabel := "";
    var i := 0;
    while i < |hands|
      invariant 0 <= i <= |hands|
      invariant predictionLabel == (if i == 0 then "" else HandLabel(hands[i - 1]))
    {
      if hands[i].Predicted? {
        predictionLabel := hands[i].text;
      } else {
        predictionLabel := "?";
      }
      i := i + 1;
    }
  }

  /** The margin `AlphabetModel` keeps around the detected hand. */
  const CropOffset: int := 20

  /** Rows `y1 <= r < y2` and columns `x1 <= c < x2` of the image. */
  datatype Crop = Crop(y1: int, y2: int, x1: int, x2: int)

  predicate InCrop(c: Crop, row: int, col: int) {
    c.y1 <= row < c.y2 && c.x1 <= col < c.x2
  }

  /** The pixel lies in the image of `height` rows and `width` columns. */
  predicate InImage(height: nat, width: nat, row: int, col: int) {
    0 <= row < height && 0 <= col < width
  }

  /** The pixel lies in the bounding box `(x, y, w, h)` widened by the margin
      on every side. */
  predicate InMarginBox(x: int, y: int, w: int, h: int, row: int, col: int) {
    y - CropOffset <= row < y + h + CropOffset && x - CropOffset <= col < x + w + CropOffset
  }

  /** The safe crop of the alphabet model: the bounding box widened by the
      margin and clipped to the image. Its bounds never leave the image, and
      the pixels it selects are exactly those of the widened box that lie in
      the image. */
  function CropBounds(x: int, y: int, w: int, h: int, height: nat, width: nat): (c: Crop)
    ensures 0 <= c.y1 && c.y2 <= height && 0 <= c.x1 && c.x2 <= width
    ensures forall row, col :: InCrop(c, row, col) <==>
      InImage(height, width, row, col) && InMarginBox(x, y, w, h, row, col)
  {
    var y1 := if 0 > y - CropOffset then 0 else y - CropOffset;
    var y2 := if height < y + h + CropOffset then height else y + h + CropOffset;
    var x1 := if 0 > x - CropOffset then 0 else x - CropOffset;
    var x2 := if width < x + w + CropOffset then width else x + w + CropOffset;
    Crop(y1, y2, x1, x2)
  }

  /** The crop is empty (`imgCrop.size == 0`) exactly when the widened box
      and the image have no pixel in common. */
  lemma CropEmptyIff(x: int, y: int, w: int, h: int, height: nat, width: nat)
    ensures var c := CropBounds(x, y, w, h, height, width);
      (c.y1 < c.y2 && c.x1 < c.x2) <==>
      exists row, col :: InImage(height, width, row, col) && InMarginBox(x, y, w, h, row, col)
  {
    var c := CropBounds(x, y, w, h, height, width);
    if c.y1 < c.y2 && c.x1 < c.x2 {
      assert InCrop(c, c.y1, c.x1);
    }
  }
}
