/**
 The marker geometry of app/api/inventory_orders_vision_routes.py, over the reals: boxes, their
 overlap over union, centres, and the relation under which two detections are one marker.
 */
module VisionMarkers {
  import opened Options

  /** A number as it arrives: absent, not finite, or usable. */
  datatype Num = Missing | NotFinite | Finite(value: real)

  datatype Box = Box(x: real, y: real, width: real, height: real) {
    /** The boxes `VisionBox` lets through. */
    predicate Proper() {
      width > 0.0 && height > 0.0
    }

    ghost predicate Inside(px: real, py: real) {
      x < px < x + width && y < py < y + height
    }
  }

  datatype Point = Point(x: real, y: real)

  /** Where a detection is: the box in its dictionary and in flat fields, and three kinds of centre. */
  datatype Place = Place(
    boxX: Num, boxY: Num, boxWidth: Num, boxHeight: Num,
    flatX: Num, flatY: Num, flatWidth: Num, flatHeight: Num,
    centerX: Num, centerY: Num, x: Num, y: Num, coordinatesX: Num, coordinatesY: Num)

  function FirstFinite(a: Num, b: Num): Num {
    if a.Finite? then a else b
  }

  function VisionBox(p: Place): (box: Option<Box>)
    ensures box.Some? ==> box.value.Proper()
  {
    var x, y := FirstFinite(p.boxX, p.flatX), FirstFinite(p.boxY, p.flatY);
    var width, height := FirstFinite(p.boxWidth, p.flatWidth), FirstFinite(p.boxHeight, p.flatHeight);
    if !x.Finite? || !y.Finite? || !width.Finite? || !height.Finite? then None
    else if width.value <= 0.0 || height.value <= 0.0 then None
    else Some(Box(x.value, y.value, width.value, height.value))
  }

  function VisionCenter(p: Place): Option<Point> {
    var x := FirstFinite(FirstFinite(p.centerX, p.x), p.coordinatesX);
    var y := FirstFinite(FirstFinite(p.centerY, p.y), p.coordinatesY);
    if x.Finite? && y.Finite? then Some(Point(x.value, y.value))
    else
      var box := VisionBox(p);
      if box.Some? then
        Some(Point(box.value.x + box.value.width / 2.0, box.value.y + box.value.height / 2.0))
      else None
  }

  /** `v` is the first usable one of two readings. */
  ghost predicate Reads(first: Num, second: Num, v: real) {
    first == Finite(v) || (!first.Finite? && second == Finite(v))
  }

  ghost predicate ReadsOfThree(first: Num, second: Num, third: Num, v: real) {
    Reads(first, second, v) || (!first.Finite? && !second.Finite? && third == Finite(v))
  }

  /** Each field of a box comes from the dictionary or else from the flat field, and its size is positive. */
  lemma BoxHasItsReadings(p: Place, box: Box)
    ensures VisionBox(p) == Some(box) <==>
      && Reads(p.boxX, p.flatX, box.x) && Reads(p.boxY, p.flatY, box.y)
      && Reads(p.boxWidth, p.flatWidth, box.width) && Reads(p.boxHeight, p.flatHeight, box.height)
      && box.width > 0.0 && box.height > 0.0
  {
  }

  /** A centre is read where both coordinates are, and is else the middle of the box. */
  lemma CenterHasItsReadings(p: Place, center: Point)
    ensures VisionCenter(p) == Some(center) <==>
      || (ReadsOfThree(p.centerX, p.x, p.coordinatesX, center.x)
          && ReadsOfThree(p.centerY, p.y, p.coordinatesY, center.y))
      || ((!(p.centerX.Finite? || p.x.Finite? || p.coordinatesX.Finite?)
           || !(p.centerY.Finite? || p.y.Finite? || p.coordinatesY.Finite?))
          && exists box ::
               && VisionBox(p) == Some(box)
               && center.x - box.x == box.x + box.width - center.x
               && center.y - box.y == box.y + box.height - center.y)
  {
    var box := VisionBox(p);
    if box.Some? {
      assert VisionBox(p) == Some(box.value);
    }
  }

  // ---------- overlap over union ----------

  function Min(a: real, b: real): real {
    if b < a then b else a
  }

  function Max(a: real, b: real): real {
    if a < b then b else a
  }

  /** The length two intervals share. */
  function Shared(a: real, length: real, b: real, other: real): real {
    Max(0.0, Min(a + length, b + other) - Max(a, b))
  }

  function Overlap(left: Box, right: Box): real {
    Shared(left.x, left.width, right.x, right.width) * Shared(left.y, left.height, right.y, right.height)
  }

  function Area(box: Box): real {
    box.width * box.height
  }

  function Iou(left: Box, right: Box): real {
    IouOfAreas(Overlap(left, right), Area(left), Area(right))
  }

  function IouOfAreas(overlap: real, leftArea: real, rightArea: real): real {
    if overlap <= 0.0 then 0.0
    else
      var union := leftArea + rightArea - overlap;
      if union <= 0.0 then 0.0 else overlap / union
  }

  lemma SharedIsSymmetric(a: real, length: real, b: real, other: real)
    ensures Shared(a, length, b, other) == Shared(b, other, a, length)
  {
  }

  lemma OverlapIsSymmetric(left: Box, right: Box)
    ensures Overlap(left, right) == Overlap(right, left)
  {
    SharedIsSymmetric(left.x, left.width, right.x, right.width);
    SharedIsSymmetric(left.y, left.height, right.y, right.height);
  }

  lemma IouIsSymmetric(left: Box, right: Box)
    ensures Iou(left, right) == Iou(right, left)
  {
    OverlapIsSymmetric(left, right);
  }

  lemma ProductIsMonotone(a: real, b: real, c: real, d: real)
    requires 0.0 <= a <= c && 0.0 <= b <= d
    ensures 0.0 <= a * b <= c * d
  {
    assert a * b <= c * b;
    assert c * b <= c * d;
  }

  lemma OverlapIsWithin(left: Box, right: Box)
    requires left.Proper() && right.Proper()
    ensures 0.0 <= Overlap(left, right) <= Area(left)
    ensures Overlap(left, right) <= Area(right)
  {
    var w := Shared(left.x, left.width, right.x, right.width);
    var h := Shared(left.y, left.height, right.y, right.height);
    ProductIsMonotone(w, h, left.width, left.height);
    ProductIsMonotone(w, h, right.width, right.height);
  }

  lemma AreaIsPositive(box: Box)
    requires box.Proper()
    ensures Area(box) > 0.0
  {
  }

  lemma FactorIsNonNegative(factor: real, whole: real)
    requires whole > 0.0 && factor * whole >= 0.0
    ensures factor >= 0.0
  {
  }

  lemma ShareIsFraction(part: real, whole: real)
    requires 0.0 < part <= whole
    ensures 0.0 < part / whole <= 1.0
    ensures part / whole == 1.0 <==> part == whole
  {
    var share := part / whole;
    assert share * whole == part;
    assert (1.0 - share) * whole == whole - part;
    FactorIsNonNegative(share, whole);
    FactorIsNonNegative(1.0 - share, whole);
  }

  /** Areas of proper boxes keep the guards on overlap and union from mattering. */
  lemma FractionOfAreas(overlap: real, leftArea: real, rightArea: real)
    requires 0.0 <= overlap <= leftArea && overlap <= rightArea && leftArea > 0.0
    ensures 0.0 <= IouOfAreas(overlap, leftArea, rightArea) <= 1.0
    ensures IouOfAreas(overlap, leftArea, rightArea) == 0.0 <==> overlap == 0.0
    ensures IouOfAreas(overlap, leftArea, rightArea) == 1.0 <==> overlap == leftArea == rightArea
  {
    if overlap > 0.0 {
      ShareIsFraction(overlap, leftArea + rightArea - overlap);
    }
  }

  lemma IouIsAFraction(left: Box, right: Box)
    requires left.Proper() && right.Proper()
    ensures 0.0 <= Iou(left, right) <= 1.0
    ensures Iou(left, right) == 0.0 <==> Overlap(left, right) == 0.0
    ensures Iou(left, right) == 1.0 <==> Overlap(left, right) == Area(left) == Area(right)
  {
    OverlapIsWithin(left, right);
    AreaIsPositive(left);
    FractionOfAreas(Overlap(left, right), Area(left), Area(right));
  }

  /** Zero exactly when the interiors have no point in common. */
  lemma IouIsZeroIffDisjoint(left: Box, right: Box)
    requires left.Proper() && right.Proper()
    ensures Iou(left, right) == 0.0 <==> !exists px, py :: left.Inside(px, py) && right.Inside(px, py)
  {
    IouIsAFraction(left, right);
    var w := Shared(left.x, left.width, right.x, right.width);
    var h := Shared(left.y, left.height, right.y, right.height);
    if w > 0.0 && h > 0.0 {
      assert w * h > 0.0;
      var px := Max(left.x, right.x) + w / 2.0;
      var py := Max(left.y, right.y) + h / 2.0;
      assert left.Inside(px, py) && right.Inside(px, py);
    } else {
      assert w * h == 0.0;
      forall px, py
        ensures !(left.Inside(px, py) && right.Inside(px, py))
      {
      }
    }
  }

  /** The box of the points two boxes share, when they share any. */
  ghost predicate IsCommonBox(left: Box, right: Box, common: Box) {
    common.Proper() && forall px, py :: common.Inside(px, py) <==> left.Inside(px, py) && right.Inside(px, py)
  }

  /** The value is the area of the common box over the area the two boxes cover together. */
  ghost predicate IsIntersectionOverUnion(left: Box, right: Box, common: Box, value: real) {
    var shared := common.width * common.height;
    value * (left.width * left.height + right.width * right.height - shared) == shared
  }

  lemma CommonBoxOfOverlap(left: Box, right: Box) returns (common: Box)
    requires left.Proper() && right.Proper() && Overlap(left, right) > 0.0
    ensures IsCommonBox(left, right, common)
    ensures Overlap(left, right) == common.width * common.height
  {
    var w := Shared(left.x, left.width, right.x, right.width);
    var h := Shared(left.y, left.height, right.y, right.height);
    common := Box(Max(left.x, right.x), Max(left.y, right.y), w, h);
    if w <= 0.0 || h <= 0.0 {
      assert false;
    }
  }

  lemma ShareOfUnion(overlap: real, leftArea: real, rightArea: real)
    requires 0.0 < overlap && leftArea + rightArea - overlap > 0.0
    ensures IouOfAreas(overlap, leftArea, rightArea) * (leftArea + rightArea - overlap) == overlap
  {
    var union := leftArea + rightArea - overlap;
    assert overlap / union * union == overlap;
  }

  /** Boxes that overlap have a common box, and the score is its share of the union. */
  lemma IouIsIntersectionOverUnion(left: Box, right: Box)
    requires left.Proper() && right.Proper() && Iou(left, right) != 0.0
    ensures exists common :: IsCommonBox(left, right, common)
                             && IsIntersectionOverUnion(left, right, common, Iou(left, right))
  {
    IouIsAFraction(left, right);
    OverlapIsWithin(left, right);
    AreaIsPositive(right);
    var common := CommonBoxOfOverlap(left, right);
    ShareOfUnion(Overlap(left, right), Area(left), Area(right));
    assert IsIntersectionOverUnion(left, right, common, Iou(left, right));
  }

  lemma SmallerFactorSmallerProduct(a: real, b: real, c: real, d: real)
    requires 0.0 <= a < c && 0.0 <= b <= d && d > 0.0
    ensures a * b < c * d
  {
    assert a * b <= a * d;
    assert a * d < c * d;
  }

  lemma ProductsAgreeOnlyAtTheTop(a: real, b: real, c: real, d: real)
    requires 0.0 <= a <= c && 0.0 <= b <= d && c > 0.0 && d > 0.0 && a * b == c * d
    ensures a == c && b == d
  {
    if a < c {
      SmallerFactorSmallerProduct(a, b, c, d);
    }
    if b < d {
      SmallerFactorSmallerProduct(b, a, d, c);
    }
  }

  /** One exactly when the boxes are the same. */
  lemma IouIsOneIffEqual(left: Box, right: Box)
    requires left.Proper() && right.Proper()
    ensures Iou(left, right) == 1.0 <==> left == right
  {
    IouIsAFraction(left, right);
    OverlapIsWithin(left, right);
    AreaIsPositive(left);
    if Iou(left, right) == 1.0 {
      var w := Shared(left.x, left.width, right.x, right.width);
      var h := Shared(left.y, left.height, right.y, right.height);
      ProductsAgreeOnlyAtTheTop(w, h, left.width, left.height);
      ProductsAgreeOnlyAtTheTop(w, h, right.width, right.height);
    }
  }

  // ---------- the marker relation ----------

  function Abs(r: real): real {
    if r < 0.0 then -r else r
  }

  /** Coordinates up to 1.5 are taken for fractions of the image, larger ones for pixels. */
  function Threshold(left: Point, right: Point): real {
    if Max(Max(Abs(left.x), Abs(left.y)), Max(Abs(right.x), Abs(right.y))) <= 1.5 then 0.12 else 72.0
  }

  predicate CentersAreClose(left: Point, right: Point) {
    var dx, dy := left.x - right.x, left.y - right.y;
    dx * dx + dy * dy <= Threshold(left, right) * Threshold(left, right)
  }

  ghost predicate IsFraction(p: Point) {
    -1.5 <= p.x <= 1.5 && -1.5 <= p.y <= 1.5
  }

  ghost function SquaredDistance(left: Point, right: Point): real {
    (left.x - right.x) * (left.x - right.x) + (left.y - right.y) * (left.y - right.y)
  }

  lemma ThresholdIsForFractionsOrPixels(left: Point, right: Point)
    ensures Threshold(left, right) == if IsFraction(left) && IsFraction(right) then 0.12 else 72.0
  {
  }

  /** The squared distance is at most 0.12 squared between fractions and else 72 squared. */
  lemma CloseIff(left: Point, right: Point)
    ensures CentersAreClose(left, right) <==>
      SquaredDistance(left, right) <= if IsFraction(left) && IsFraction(right) then 0.0144 else 5184.0
  {
    ThresholdIsForFractionsOrPixels(left, right);
    assert 0.12 * 0.12 == 0.0144 && 72.0 * 72.0 == 5184.0;
  }

  predicate SamePlace(left: Place, right: Place) {
    var leftBox, rightBox := VisionBox(left), VisionBox(right);
    if leftBox.Some? && rightBox.Some? && Iou(leftBox.value, rightBox.value) >= 0.45 then true
    else
      var leftCenter, rightCenter := VisionCenter(left), VisionCenter(right);
      if leftCenter.Some? && rightCenter.Some? then CentersAreClose(leftCenter.value, rightCenter.value)
      else leftBox.None? && rightBox.None? && leftCenter.None? && rightCenter.None?
  }

  /** Boxes that share enough, centres that are close, or no place at all on either side. */
  lemma SamePlaceIff(left: Place, right: Place)
    ensures SamePlace(left, right) <==>
      || (exists l, r :: VisionBox(left) == Some(l) && VisionBox(right) == Some(r) && Iou(l, r) >= 0.45)
      || (exists l, r :: VisionCenter(left) == Some(l) && VisionCenter(right) == Some(r) && CentersAreClose(l, r))
      || (VisionCenter(left).None? && VisionCenter(right).None?)
  {
    var leftBox, rightBox := VisionBox(left), VisionBox(right);
    if leftBox.Some? && rightBox.Some? && Iou(leftBox.value, rightBox.value) >= 0.45 {
      assert VisionBox(left) == Some(leftBox.value) && VisionBox(right) == Some(rightBox.value);
    }
    var leftCenter, rightCenter := VisionCenter(left), VisionCenter(right);
    if leftCenter.Some? && rightCenter.Some? && CentersAreClose(leftCenter.value, rightCenter.value) {
      assert VisionCenter(left) == Some(leftCenter.value) && VisionCenter(right) == Some(rightCenter.value);
    }
  }

  lemma SamePlaceIsReflexive(p: Place)
    ensures SamePlace(p, p)
  {
    var box := VisionBox(p);
    if box.Some? {
      IouIsOneIffEqual(box.value, box.value);
    }
  }

  lemma CloseIsSymmetric(left: Point, right: Point)
    ensures CentersAreClose(left, right) == CentersAreClose(right, left)
  {
    var dx, dy := left.x - right.x, left.y - right.y;
    assert (right.x - left.x) * (right.x - left.x) == dx * dx;
    assert (right.y - left.y) * (right.y - left.y) == dy * dy;
  }

  lemma SamePlaceIsSymmetric(left: Place, right: Place)
    ensures SamePlace(left, right) == SamePlace(right, left)
  {
    var leftBox, rightBox := VisionBox(left), VisionBox(right);
    if leftBox.Some? && rightBox.Some? {
      IouIsSymmetric(leftBox.value, rightBox.value);
    }
    var leftCenter, rightCenter := VisionCenter(left), VisionCenter(right);
    if leftCenter.Some? && rightCenter.Some? {
      CloseIsSymmetric(leftCenter.value, rightCenter.value);
    }
  }

  /** A detection known by its centre only. */
  function AtPoint(x: real): Place {
    Place(Missing, Missing, Missing, Missing, Missing, Missing, Missing, Missing,
          Finite(x), Finite(0.0), Missing, Missing, Missing, Missing)
  }

  /** The relation is not transitive: two steps of 0.1 are close, the step of 0.2 is not. */
  lemma SamePlaceIsNotTransitive()
    ensures SamePlace(AtPoint(0.0), AtPoint(0.1)) && SamePlace(AtPoint(0.1), AtPoint(0.2))
    ensures !SamePlace(AtPoint(0.0), AtPoint(0.2))
  {
    assert (0.0 - 0.1) * (0.0 - 0.1) <= 0.12 * 0.12;
    assert (0.1 - 0.2) * (0.1 - 0.2) <= 0.12 * 0.12;
    assert (0.0 - 0.2) * (0.0 - 0.2) > 0.12 * 0.12;
  }
}
