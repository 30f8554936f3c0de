/**
 The records of location/location.ts: the response record `ReturnLatLon`
 and the row of the `locations` table that caches it.
 */
module Records {

  /**
   A coordinate. The source's coordinates are JavaScript numbers; the model
   never computes with or compares them. It only copies them, and writes 0/0
   into the not-found row.
   */
  type Coord = real

  const Zero: Coord := 0.0

  /** The `status` field of `ReturnLatLon`. `Unknown` is declared but never produced. */
  datatype Status = Found | NotFound | Unknown

  /** `ReturnLatLon`: the cleaned key, the provider's address, the coordinates and a status. */
  datatype LatLon = LatLon(location: string, fullAddress: string, latitude: Coord, longitude: Coord, status: Status)

  /**
   A row of the `locations` table as this code uses it. The key column is the
   map key of `Cache`; the insert writes no status and the select reads none,
   so a row has no status.
   */
  datatype Row = Row(fullAddress: string, latitude: Coord, longitude: Coord)

  /** The database cache: cleaned key to row, at most one row per key. */
  type Cache = map<string, Row>

  /** The columns the insert writes for a record: everything but the key and the status. */
  function RowOf(latlon: LatLon): Row {
    Row(latlon.fullAddress, latlon.latitude, latlon.longitude)
  }

  /** The record written back when the upstream lookup yields nothing: empty address, 0/0, `not_found`. */
  function NotFoundRecord(key: string): LatLon {
    LatLon(key, "", Zero, Zero, NotFound)
  }
}
