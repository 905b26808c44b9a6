/** `useGeocode` (src/hooks/useGeocode.js): one marker's address lookup.
    The effect consults the shared cache and, on a miss, issues one
    geocoder request; the geocoder's callback is a separate step. */
module GeocodeHook {
  import opened Wrappers
  import opened Coords
  import opened Doctors
  import opened GeocodeCache

  const NotFound := "Address not found"
  const FailurePrefix := "Geocoding failed: "

  /** The guard: enabled, the geocoding library loaded, and both
      coordinates truthy (a `null` or 0 coordinate stops the effect). */
  predicate ShouldLookUp(enabled: bool, libReady: bool, lat: Option<real>, lng: Option<real>) {
    enabled && libReady && CoordTruthy(lat) && CoordTruthy(lng)
  }

  /** One hook instance: the three `useState` fields and, standing for the
      geocoder, the keys of the requests this instance issued. */
  class MarkerGeocode {
    /** Number formatting in the `${lat},${lng}` template. */
    const show: real -> string
    var address: Option<string>
    var loading: bool
    /** The error's message; `None` is `null`. */
    var error: Option<string>
    var requests: seq<string>

    constructor (show: real -> string)
      ensures this.show == show
      ensures address == None && !loading && error == None && requests == []
    {
      this.show := show;
      address := None;
      loading := false;
      error := None;
      requests := [];
    }

    /** The effect. Guarded out: nothing changes. A cache hit: the cached
        address, no request. A miss: loading, error cleared, one request. */
    method RunEffect(enabled: bool, libReady: bool, lat: Option<real>, lng: Option<real>, cache: Cache)
      modifies this
      ensures !ShouldLookUp(enabled, libReady, lat, lng) ==>
        address == old(address) && loading == old(loading) && error == old(error) && requests == old(requests)
      ensures ShouldLookUp(enabled, libReady, lat, lng) ==>
        var key := CoordKey(lat.value, lng.value, show);
        var cached := Get(cache.memory, key);
        && (cached.Some? ==>
              address == cached && loading == old(loading) && error == old(error) && requests == old(requests))
        && (cached.None? ==>
              address == old(address) && loading && error == None && requests == old(requests) + [key])
    {
      if !ShouldLookUp(enabled, libReady, lat, lng) {
        return;
      }
      var key := CoordKey(lat.value, lng.value, show);
      var cached := Get(cache.memory, key);
      if cached.Some? {
        address := cached;
        return;
      }
      loading := true;
      error := None;
      requests := requests + [key];
    }

    /** The geocoder's callback for the request made with `key`. `status`
        is the status text and `first` the formatted address of the first
        result, if there is one. Success shows and caches the address; a
        failure shows the not-found text and sets the error, and caches
        nothing. */
    method OnResult(key: string, status: string, first: Option<string>, writeOk: bool, cache: Cache)
      requires cache.Valid()
      modifies this`address, this`loading, this`error, cache
      ensures cache.Valid() && !loading
      ensures status == "OK" && first.Some? ==>
        && address == first && error == old(error)
        && cache.memory == MapSet(old(cache.memory), key, first.value)
        && cache.storage == (if writeOk then Parsed(cache.memory) else old(cache.storage))
      ensures !(status == "OK" && first.Some?) ==>
        && address == Some(NotFound) && error == Some(FailurePrefix + status)
        && cache.memory == old(cache.memory) && cache.storage == old(cache.storage)
    {
      loading := false;
      if status == "OK" && first.Some? {
        address := first;
        cache.SetInCache(key, first.value, writeOk);
      } else {
        address := Some(NotFound);
        error := Some(FailurePrefix + status);
      }
    }
  }

  /** A failed lookup is retried: after the failure callback, running the
      effect again for the same coordinates issues a second request. */
  method FailureThenRetry(h: MarkerGeocode, cache: Cache, lat: real, lng: real, status: string)
    requires cache.Valid() && status != "OK"
    requires lat != 0.0 && lng != 0.0
    requires Get(cache.memory, CoordKey(lat, lng, h.show)).None?
    modifies h, cache
    ensures h.requests == old(h.requests) + [CoordKey(lat, lng, h.show)]
    ensures h.address == Some(NotFound) && h.loading
    ensures cache.memory == old(cache.memory)
  {
    var key := CoordKey(lat, lng, h.show);
    h.OnResult(key, status, None, true, cache);
    h.RunEffect(true, true, Some(lat), Some(lng), cache);
  }

  /** No de-duplication of concurrent misses: two markers at the same
      position, both opened before either answer arrives, issue one request
      each. */
  method ConcurrentMisses(h1: MarkerGeocode, h2: MarkerGeocode, cache: Cache, lat: real, lng: real)
    requires h1 != h2 && h1.show == h2.show
    requires lat != 0.0 && lng != 0.0
    requires Get(cache.memory, CoordKey(lat, lng, h1.show)).None?
    modifies h1, h2
    ensures h1.requests == old(h1.requests) + [CoordKey(lat, lng, h1.show)]
    ensures h2.requests == old(h2.requests) + [CoordKey(lat, lng, h1.show)]
  {
    h1.RunEffect(true, true, Some(lat), Some(lng), cache);
    h2.RunEffect(true, true, Some(lat), Some(lng), cache);
  }

  /** Once an address was cached, a later effect for that position issues
      no request and shows it. */
  method HitAfterSuccess(h: MarkerGeocode, cache: Cache, lat: real, lng: real, addr: string)
    requires cache.Valid() && addr != ""
    requires lat != 0.0 && lng != 0.0
    modifies h, cache
    ensures h.requests == old(h.requests)
    ensures h.address == Some(addr)
  {
    var key := CoordKey(lat, lng, h.show);
    h.OnResult(key, "OK", Some(addr), true, cache);
    GetAfterSet(old(cache.memory), key, addr, key);
    h.RunEffect(true, true, Some(lat), Some(lng), cache);
  }
}
