/** Where a dragged wire lands (`getDropTarget`): the input port under the
    pointer, otherwise the nearest input port within 18 screen pixels. */
module DropTarget {
  import opened Wrappers
  import opened Viewport
  import opened Graph

  /** `DROP_RADIUS`, in screen pixels. */
  const DropRadius: real := 18.0

  /** An input port and its centre in content coordinates (`portCenter`). */
  datatype Candidate = Candidate(port: PortId, centre: Point)

  /** Squared distance `dx*dx + dy*dy`. */
  function Dist2(a: Point, b: Point): (r: real)
    ensures r >= 0.0
  {
    (a.x - b.x) * (a.x - b.x) + (a.y - b.y) * (a.y - b.y)
  }

  /** Candidate `i` is the first one at the least distance from `p`. */
  ghost predicate IsFirstNearest(cands: seq<Candidate>, p: Point, i: int) {
    && 0 <= i < |cands|
    && (forall j | 0 <= j < |cands| :: Dist2(cands[i].centre, p) <= Dist2(cands[j].centre, p))
    && (forall j | 0 <= j < i :: Dist2(cands[i].centre, p) < Dist2(cands[j].centre, p))
  }

  /** The scan over the inputs in document order, keeping a candidate only
      when it is strictly closer than the best so far. */
  function Nearest(cands: seq<Candidate>, p: Point): (r: Option<nat>)
    ensures r.None? <==> cands == []
    ensures r.Some? ==> IsFirstNearest(cands, p, r.value)
  {
    if cands == [] then None
    else
      var last := |cands| - 1;
      match Nearest(cands[..last], p)
      case None => Some(last)
      case Some(i) =>
        if Dist2(cands[last].centre, p) < Dist2(cands[i].centre, p) then Some(last) else Some(i)
  }

  /** The squared distance once drawn at `scale`, in screen pixels. */
  function ScreenDist2(a: Point, b: Point, scale: real): real {
    Dist2(a, b) * (scale * scale)
  }

  /** The tolerance is a fixed distance on screen: within `18 / scale`
      content units exactly when within 18 pixels once drawn. */
  lemma ToleranceOnScreen(a: Point, b: Point, scale: real)
    requires scale > 0.0
    ensures Dist2(a, b) <= (DropRadius / scale) * (DropRadius / scale)
            <==> ScreenDist2(a, b, scale) <= DropRadius * DropRadius
  {
    var d2 := Dist2(a, b);
    var e := DropRadius / scale;
    assert e * scale == DropRadius;
    assert (e * scale) * (e * scale) == e * e * (scale * scale);
    assert (d2 <= e * e) == (d2 * (scale * scale) <= e * e * (scale * scale));
  }

  /** Some input is within the screen tolerance exactly when the nearest
      one is. */
  lemma NearestDecides(cands: seq<Candidate>, p: Point, scale: real, i: nat)
    requires scale > 0.0 && IsFirstNearest(cands, p, i)
    ensures ScreenDist2(cands[i].centre, p, scale) <= DropRadius * DropRadius
            <==> exists j | 0 <= j < |cands| :: ScreenDist2(cands[j].centre, p, scale) <= DropRadius * DropRadius
  {
    forall j | 0 <= j < |cands|
      ensures ScreenDist2(cands[i].centre, p, scale) <= ScreenDist2(cands[j].centre, p, scale)
    {
      MulMonotone(Dist2(cands[i].centre, p), Dist2(cands[j].centre, p), scale * scale);
    }
  }

  /** `getDropTarget(clientX, clientY)`: `direct` is the input port the hit
      test finds under the pointer, `cands` the inputs in document order
      and `p` the pointer in content coordinates. The source compares
      `Math.sqrt(bestD2)` with `DROP_RADIUS / scale`; both sides are
      non-negative, so comparing the squares is the same test. */
  function Find(direct: Option<PortId>, cands: seq<Candidate>, p: Point, scale: real): (r: Option<PortId>)
    requires scale > 0.0
    ensures direct.Some? ==> r == direct
    ensures direct.None? && r.Some? ==>
              exists i | 0 <= i < |cands| :: r.value == cands[i].port && IsFirstNearest(cands, p, i)
    ensures direct.None? ==>
              (r.Some? <==> exists j | 0 <= j < |cands| ::
                 ScreenDist2(cands[j].centre, p, scale) <= DropRadius * DropRadius)
  {
    if direct.Some? then direct
    else match Nearest(cands, p)
      case None => None
      case Some(i) =>
        var effective := DropRadius / scale;
        ToleranceOnScreen(cands[i].centre, p, scale);
        NearestDecides(cands, p, scale, i);
        if Dist2(cands[i].centre, p) <= effective * effective then Some(cands[i].port) else None
  }

  lemma MulMonotone(a: real, b: real, k: real)
    requires a <= b && k >= 0.0
    ensures a * k <= b * k
  {
  }
}
