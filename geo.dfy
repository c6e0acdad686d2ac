/**
 * Geographic values shared by the ledger, the location tracker and the views.
 *
 * The great-circle distance and its conversion to display yards are floating
 * point; the model keeps only WHICH two points a displayed distance measures.
 */
module Geo {
  /** A map position in degrees. */
  datatype Coordinate = Coordinate(latitude: real, longitude: real)

  /** A device reading: a position plus its accuracy radius in metres (smaller is better). */
  datatype UserLocation = UserLocation(latitude: real, longitude: real, accuracy: real)

  /**
   * The displayed distance from `from` to `to`: the great-circle distance
   * converted to yards and rounded, taken as a symbol.
   */
  datatype Yards = Yards(from: Coordinate, to: Coordinate)

  /** The position of a reading, without its accuracy. */
  function PositionOf(l: UserLocation): Coordinate
  {
    Coordinate(l.latitude, l.longitude)
  }
}
