/**
 * The UTM zone of a longitude and the hemisphere of a latitude, as the
 * delineation, processing and area modules each compute them.
 */
module Utm {
  import opened PyNum

  /** `int((lon + 180) / 6) + 1`: the zone whose 6° band holds `lon`. */
  function UtmZone(lon: real): (z: int)
    ensures -180.0 <= lon < 180.0 ==> 1 <= z <= 60
    ensures lon >= -180.0 ==> (z - 1) as real * 6.0 - 180.0 <= lon < z as real * 6.0 - 180.0
  {
    Trunc((lon + 180.0) / 6.0) + 1
  }

  /** `'N'` exactly for latitudes at or north of the equator. */
  function Hemisphere(lat: real): (h: char)
    ensures h == 'N' || h == 'S'
    ensures h == 'N' <==> lat >= 0.0
  {
    if lat >= 0.0 then 'N' else 'S'
  }

  /** `get_utm_zone(lon, lat)`: the zone number and hemisphere letter. */
  function GetUtmZone(lon: real, lat: real): (r: (int, char))
    ensures r.0 == UtmZone(lon) && r.1 == Hemisphere(lat)
  {
    (UtmZone(lon), Hemisphere(lat))
  }

  /** The EPSG code of the WGS 84 UTM zone: 32600 + zone in the north, 32700 + zone in the south. */
  function UtmEpsg(lon: real, lat: real): (code: int)
  {
    if lat >= 0.0 then 32600 + UtmZone(lon) else 32700 + UtmZone(lon)
  }

  /** For a longitude in [-180, 180) the code is 326zz or 327zz, and its last two digits give back the zone. */
  lemma UtmEpsgDecodes(lon: real, lat: real)
    requires -180.0 <= lon < 180.0
    ensures var code := UtmEpsg(lon, lat);
      && (32601 <= code <= 32660 || 32701 <= code <= 32760)
      && code % 100 == UtmZone(lon)
      && (code / 100 == 326 <==> Hemisphere(lat) == 'N')
  {
  }
}
