/**
 * `CenterDot` (the earlier map screen's version): the distance label from the
 * map centre and the line drawn to the same target.
 *
 * The centre is a required `Coordinate`, an object and so always truthy: the
 * component's early return for a missing centre never fires.
 */
module CenterDot {
  import opened Wrappers
  import opened Geo

  /** The distance label: rounded yards to the target, with ` from GPS` when the target is the GPS fix. */
  datatype Label = Label(yards: Yards, fromGps: bool)

  /** `getDistance`: the last shot before the GPS fix, else nothing. */
  function Distance(center: Coordinate, lastShot: Option<Coordinate>, gps: Option<Coordinate>): (r: Option<Label>)
    ensures lastShot.Some? ==> r == Some(Label(Yards(center, lastShot.value), false))
    ensures lastShot.None? && gps.Some? ==> r == Some(Label(Yards(center, gps.value), true))
    ensures r.None? <==> lastShot.None? && gps.None?
  {
    if lastShot.Some? then Some(Label(Yards(center, lastShot.value), false))
    else if gps.Some? then Some(Label(Yards(center, gps.value), true))
    else None
  }

  /** `getLineCoordinates`: the same priority, as the two ends of a line. */
  function LineCoordinates(center: Coordinate, lastShot: Option<Coordinate>, gps: Option<Coordinate>): (r: seq<Coordinate>)
    ensures lastShot.Some? ==> r == [center, lastShot.value]
    ensures lastShot.None? && gps.Some? ==> r == [center, gps.value]
    ensures lastShot.None? && gps.None? ==> r == []
  {
    if lastShot.Some? then [center, lastShot.value]
    else if gps.Some? then [center, gps.value]
    else []
  }

  /** The polyline is rendered only with a `renderPolyline` prop and a non-empty line. */
  predicate RendersPolyline(hasRenderPolyline: bool, line: seq<Coordinate>): (b: bool)
    ensures b ==> hasRenderPolyline && line != []
    ensures hasRenderPolyline && line != [] ==> b
  {
    hasRenderPolyline && |line| > 0
  }

  /**
   * The label and the line always agree: a label exists exactly when a
   * line does, and the line runs from the centre to the label's target.
   */
  lemma LineMatchesDistance(center: Coordinate, lastShot: Option<Coordinate>, gps: Option<Coordinate>)
    ensures var d, line := Distance(center, lastShot, gps), LineCoordinates(center, lastShot, gps);
            && (d.Some? <==> |line| > 0)
            && (d.Some? ==> line == [d.value.yards.from, d.value.yards.to] && d.value.yards.from == center)
  {
  }

  /** With a renderer, a polyline is drawn exactly when a distance is shown. */
  lemma PolylineWithDistance(center: Coordinate, lastShot: Option<Coordinate>, gps: Option<Coordinate>)
    ensures RendersPolyline(true, LineCoordinates(center, lastShot, gps)) <==> Distance(center, lastShot, gps).Some?
    ensures !RendersPolyline(false, LineCoordinates(center, lastShot, gps))
  {
  }
}
