/**
 * `ShotPath`: the polyline segments drawn between consecutive shots, and the
 * stroke style of each.
 */
module ShotPath {
  import opened Geo
  import opened ShotLedger

  /** One element of `pathSegments`. */
  datatype Segment = Segment(coordinates: seq<Coordinate>, isDifferentHole: bool)

  /** The stroke style of a segment's `Polyline`. */
  datatype Stroke = Stroke(color: string, width: int, dashPattern: seq<int>)

  /**
   * The segments the component draws. The guard tests `coordinates`, the loop
   * runs over `shots`; nothing is drawn when fewer than two coordinates are
   * given, and otherwise segment `i` joins shot `i` to shot `i + 1`.
   */
  method PathSegments(coordinates: seq<Coordinate>, shots: seq<Shot>) returns (segments: seq<Segment>)
    ensures |coordinates| < 2 ==> segments == []
    ensures |coordinates| == |shots| ==> |segments| == if |shots| < 2 then 0 else |shots| - 1
    ensures |coordinates| >= 2 ==> |segments| == if |shots| == 0 then 0 else |shots| - 1
    ensures |coordinates| >= 2 ==> forall i :: 0 <= i < |segments| ==>
              segments[i].coordinates == [shots[i].coordinate, shots[i + 1].coordinate]
              && (segments[i].isDifferentHole <==> shots[i].holeNumber != shots[i + 1].holeNumber)
  {
    segments := [];
    if |coordinates| < 2 {
      return;
    }
    var i := 0;
    while i < |shots| - 1
      invariant 0 <= i <= if |shots| == 0 then 0 else |shots| - 1
      invariant |segments| == i
      invariant forall k :: 0 <= k < i ==>
                  segments[k].coordinates == [shots[k].coordinate, shots[k + 1].coordinate]
                  && (segments[k].isDifferentHole <==> shots[k].holeNumber != shots[k + 1].holeNumber)
    {
      var currentShot, nextShot := shots[i], shots[i + 1];
      segments := segments + [Segment([currentShot.coordinate, nextShot.coordinate],
                                      currentShot.holeNumber != nextShot.holeNumber)];
      i := i + 1;
    }
  }

  /** The stroke of a segment: dashed `[3, 3]` and dimmer between holes, solid `[1]` within one. */
  function StrokeOf(segment: Segment): (s: Stroke)
    ensures s.width == 4
    ensures segment.isDifferentHole <==> s.dashPattern == [3, 3]
    ensures !segment.isDifferentHole <==> s.dashPattern == [1]
    ensures segment.isDifferentHole <==> s.color == "rgba(255,255,0,0.6)"
    ensures !segment.isDifferentHole <==> s.color == "rgba(255,255,0,0.8)"
  {
    if segment.isDifferentHole then Stroke("rgba(255,255,0,0.6)", 4, [3, 3])
    else Stroke("rgba(255,255,0,0.8)", 4, [1])
  }
}
