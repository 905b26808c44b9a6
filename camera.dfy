/** `useMapCamera` (src/hooks/useMapCamera.js) and the `MapController` that
    applies its result (src/components/Map/MapController.jsx). */
module MapCamera {
  import opened Wrappers
  import opened Js
  import opened Doctors

  /** The zoom levels of `MAP_DEFAULTS` (src/utils/constants.js). */
  const CountryZoom: int := 6
  const CityZoom: int := 12

  datatype LatLng = LatLng(lat: real, lng: real)

  /** `{ center, zoom }`; a `null` center is `None`. */
  datatype Camera = Camera(center: Option<LatLng>, zoom: int)

  /** A coordinate as a number: arithmetic turns `null` into 0. */
  function Num(x: Option<real>): real {
    if x.Some? then x.value else 0.0
  }

  /** `filteredDoctors.find(d => d.city === selectedCity)`: the index of the
      first doctor in the city, if any. */
  function FindCity(ds: seq<Doctor>, city: string): (r: Option<nat>)
    ensures r.Some? ==>
      && r.value < |ds| && ds[r.value].city == city
      && forall j :: 0 <= j < r.value ==> ds[j].city != city
    ensures r.None? ==> forall j :: 0 <= j < |ds| ==> ds[j].city != city
  {
    if ds == [] then None
    else if ds[0].city == city then Some(0)
    else match FindCity(ds[1..], city)
      case None => None
      case Some(k) => Some(k + 1)
  }

  /** The `reduce` sums, from the left. */
  function SumLat(ds: seq<Doctor>): real {
    if ds == [] then 0.0 else SumLat(ds[..|ds| - 1]) + Num(ds[|ds| - 1].latitude)
  }

  function SumLng(ds: seq<Doctor>): real {
    if ds == [] then 0.0 else SumLng(ds[..|ds| - 1]) + Num(ds[|ds| - 1].longitude)
  }

  /** The camera for the filtered doctors and the two selections. */
  function CameraFor(ds: seq<Doctor>, country: Option<string>, city: Option<string>): Camera {
    if !IsSet(country) && !IsSet(city) then Camera(None, CountryZoom)
    else if IsSet(city) && |ds| > 0 && FindCity(ds, city.value).Some? then
      var d := ds[FindCity(ds, city.value).value];
      Camera(Some(LatLng(Num(d.latitude), Num(d.longitude))), CityZoom)
    else if IsSet(country) && |ds| > 0 then
      Camera(Some(LatLng(SumLat(ds) / |ds| as real, SumLng(ds) / |ds| as real)), CountryZoom)
    else Camera(None, CountryZoom)
  }

  /** The zoom is one of the two levels; the city zoom comes with a center,
      taken from a doctor of the selected city. */
  lemma ZoomLevels(ds: seq<Doctor>, country: Option<string>, city: Option<string>)
    ensures var c := CameraFor(ds, country, city);
      && (c.zoom == CountryZoom || c.zoom == CityZoom)
      && (c.zoom == CityZoom <==>
            IsSet(city) && exists i :: 0 <= i < |ds| && ds[i].city == city.value)
      && (c.zoom == CityZoom ==> c.center.Some?)
  {
    if IsSet(city) && exists i :: 0 <= i < |ds| && ds[i].city == city.value {
      var i :| 0 <= i < |ds| && ds[i].city == city.value;
      assert FindCity(ds, city.value).Some?;
    }
  }

  /** No selection, or nothing to show: no center (the map is not moved),
      country zoom. */
  lemma NoCenter(ds: seq<Doctor>, country: Option<string>, city: Option<string>)
    ensures CameraFor(ds, country, city).center.None? <==>
      (!IsSet(country) && !IsSet(city)) || ds == [] || (!IsSet(country) && FindCity(ds, city.value).None?)
    ensures CameraFor(ds, country, city).center.None? ==> CameraFor(ds, country, city).zoom == CountryZoom
  {
  }

  /** A selected city with a doctor in it: centered on the first such
      doctor, whatever the country. */
  lemma CityCenter(ds: seq<Doctor>, country: Option<string>, city: Option<string>, i: nat)
    requires IsSet(city) && i < |ds| && ds[i].city == city.value
    requires forall j :: 0 <= j < i ==> ds[j].city != city.value
    ensures CameraFor(ds, country, city) ==
      Camera(Some(LatLng(Num(ds[i].latitude), Num(ds[i].longitude))), CityZoom)
  {
    assert FindCity(ds, city.value) == Some(i) by {
      var r := FindCity(ds, city.value);
      assert r.Some?;
      if r.value < i {
      } else if r.value > i {
      }
    }
  }

  lemma {:induction false} SumLatBounds(ds: seq<Doctor>, lo: real, hi: real)
    requires forall i :: 0 <= i < |ds| ==> lo <= Num(ds[i].latitude) <= hi
    ensures |ds| as real * lo <= SumLat(ds) <= |ds| as real * hi
  {
    if ds != [] {
      SumLatBounds(ds[..|ds| - 1], lo, hi);
    }
  }

  lemma {:induction false} SumLngBounds(ds: seq<Doctor>, lo: real, hi: real)
    requires forall i :: 0 <= i < |ds| ==> lo <= Num(ds[i].longitude) <= hi
    ensures |ds| as real * lo <= SumLng(ds) <= |ds| as real * hi
  {
    if ds != [] {
      SumLngBounds(ds[..|ds| - 1], lo, hi);
    }
  }

  /** A selected country without a city match: the mean position of the
      shown doctors, which lies within their bounding box. */
  lemma CountryCenter(ds: seq<Doctor>, country: Option<string>, city: Option<string>,
                      latLo: real, latHi: real, lngLo: real, lngHi: real)
    requires IsSet(country) && ds != []
    requires !IsSet(city) || forall j :: 0 <= j < |ds| ==> ds[j].city != city.value
    requires forall i :: 0 <= i < |ds| ==> latLo <= Num(ds[i].latitude) <= latHi
    requires forall i :: 0 <= i < |ds| ==> lngLo <= Num(ds[i].longitude) <= lngHi
    ensures var c := CameraFor(ds, country, city);
      && c.zoom == CountryZoom && c.center.Some?
      && latLo <= c.center.value.lat <= latHi
      && lngLo <= c.center.value.lng <= lngHi
  {
    SumLatBounds(ds, latLo, latHi);
    SumLngBounds(ds, lngLo, lngHi);
    MeanBounds(SumLat(ds), |ds| as real, latLo, latHi);
    MeanBounds(SumLng(ds), |ds| as real, lngLo, lngHi);
  }

  lemma MeanBounds(s: real, n: real, lo: real, hi: real)
    requires n > 0.0 && n * lo <= s <= n * hi
    ensures lo <= s / n <= hi
  {
    assert s / n - lo == (s - n * lo) / n;
    assert hi - s / n == (n * hi - s) / n;
  }

  /** `MapController`'s effect: pans and zooms only when the map exists
      and the center is non-null; `None` means the map is left as it is. */
  function MapMove(mapReady: bool, c: Camera): (m: Option<(LatLng, int)>)
    ensures m.Some? <==> mapReady && c.center.Some?
    ensures m.Some? ==> m.value == (c.center.value, c.zoom)
  {
    if !mapReady || c.center.None? then None else Some((c.center.value, c.zoom))
  }

  /** Clearing both selections yields a `null` center, so the map keeps
      whatever view it last had. */
  lemma ResetDoesNotMove(ds: seq<Doctor>, mapReady: bool)
    ensures MapMove(mapReady, CameraFor(ds, None, None)).None?
  {
  }
}
