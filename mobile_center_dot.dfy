/**
 * `CenterDot` of the mobile app: the distance label from the map centre,
 * without a line.
 *
 * As in the earlier version, the required centre is always truthy.
 */
module MobileCenterDot {
  import opened Wrappers
  import opened Geo
  import CenterDot

  /** `getDistance`: the last shot takes precedence over the GPS fix. */
  function Distance(center: Coordinate, lastShot: Option<Coordinate>, gps: Option<Coordinate>): (r: Option<CenterDot.Label>)
    ensures lastShot.Some? ==> r == Some(CenterDot.Label(Yards(center, lastShot.value), false))
    ensures lastShot.None? && gps.Some? ==> r == Some(CenterDot.Label(Yards(center, gps.value), true))
    ensures r.None? <==> lastShot.None? && gps.None?
  {
    match lastShot
    case Some(shot) => Some(CenterDot.Label(Yards(center, shot), false))
    case None =>
      match gps
      case Some(fix) => Some(CenterDot.Label(Yards(center, fix), true))
      case None => None
  }

  /** Both versions of the component choose the same target and label. */
  lemma SameAsEarlierVersion(center: Coordinate, lastShot: Option<Coordinate>, gps: Option<Coordinate>)
    ensures Distance(center, lastShot, gps) == CenterDot.Distance(center, lastShot, gps)
  {
  }
}
