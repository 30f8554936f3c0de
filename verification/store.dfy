/**
 The cache accessors `getFromDB` and `witeToDB` of location/location.ts, over
 an abstract key-to-row map. A failure of the database (connection, query,
 constraint) is a boolean parameter; the source catches every such failure
 and reports it as a miss or as `false`.
 */
module Store {
  import opened Wrappers
  import opened Records
  import opened Clean

  /**
   `getFromDB`: cleans the key again, looks it up, and on a hit builds a record
   from the row with the key AS GIVEN and status `found`, whatever was stored.
   A failed read is a miss.
   */
  function GetFromDB(cache: Cache, location: string, readFails: bool): (r: Option<LatLon>)
    ensures r.Some? <==> !readFails && CleanLocation(location) in cache
    ensures r.Some? ==> r.value.location == location && r.value.status == Found
    ensures r.Some? ==> RowOf(r.value) == cache[CleanLocation(location)]
  {
    if readFails then None
    else
      var key := CleanLocation(location);
      if key in cache then
        var row := cache[key];
        Some(LatLon(location, row.fullAddress, row.latitude, row.longitude, Found))
      else None
  }

  /** What `witeToDB` leaves behind: the new cache and the boolean it returns. */
  datatype Write = Write(cache: Cache, reported: bool)

  /**
   The cache after a plain insert of `row` at `key`: an insert on a key that is
   already present, or one that fails, leaves the cache as it was.
   */
  function AfterInsert(cache: Cache, key: string, row: Row, fails: bool): Cache {
    if fails || key in cache then cache else cache[key := row]
  }

  /**
   `witeToDB`: an INSERT of the record's key, address and coordinates (never its
   status). `execResult` says whether the database call resolved to a non-null
   value; only then, and only if the insert happened, is `true` returned.
   */
  function WriteToDB(cache: Cache, latlon: LatLon, writeFails: bool, execResult: bool): (w: Write)
    ensures w.cache == AfterInsert(cache, latlon.location, RowOf(latlon), writeFails)
    ensures forall k :: k in cache ==> k in w.cache && w.cache[k] == cache[k]
    ensures w.cache.Keys <= cache.Keys + {latlon.location}
    ensures w.reported <==> execResult && !writeFails && latlon.location !in cache
  {
    if writeFails || latlon.location in cache then Write(cache, false)
    else Write(cache[latlon.location := RowOf(latlon)], execResult)
  }

  /**
   A successful insert followed by a read of any key that cleans to the
   inserted one returns the record with that key and status `found`.
   */
  lemma WriteThenRead(cache: Cache, latlon: LatLon, execResult: bool, location: string)
    requires latlon.location !in cache && CleanLocation(location) == latlon.location
    ensures GetFromDB(WriteToDB(cache, latlon, false, execResult).cache, location, false)
         == Some(latlon.(location := location, status := Found))
  {
  }

  /** An insert never replaces a row: a second write on the same key changes nothing. */
  lemma InsertOnly(cache: Cache, latlon: LatLon, writeFails: bool, execResult: bool)
    requires latlon.location in cache
    ensures WriteToDB(cache, latlon, writeFails, execResult) == Write(cache, false)
  {
  }
}
