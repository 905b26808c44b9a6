# Doctor finder, modelled in Dafny

A model of the two implementations of the "find a doctor" widget, with proofs about each.

- **The legacy page script** (`legacy-code.js`) works on the CMS cards already on the page. It
  reads each card into a doctor record and keeps a country→city facet map. It then:
  - fills the country and city selects;
  - shows or hides the cards and their markers;
  - builds the sorted list of the selected country's doctors;
  - asks the geocoder to recenter the map;
  - ingests cards that arrive late, each at most once, during a hydration window;
  - resolves addresses lazily through a geocode cache that also remembers failures.
- **The React pipeline** has these parts:
  - `useDoctors` turns Airtable records into doctors;
  - `useFilteredDoctors` derives the filtered list and the country and city options;
  - `useMapCamera` and `MapController` place the map;
  - `geocodeCache.js` and `useGeocode` handle marker addresses;
  - `FilterBar` and `DoctorFinder` hold the selection state and wire everything together.
- **Pagination**: both the browser's `fetchDoctors` (`src/utils/api.js`) and the Netlify proxy
  (`netlify/functions/doctors.js`) walk the Airtable listing with the `offset` protocol.
  The proxy then maps failures to HTTP statuses: 405 is section 15.5.6 of RFC 9110, and 429 is
  section 4 of RFC 6585.

Layout:

| file | contents |
|---|---|
| `wrappers.dfy` | `Option` and `Result` |
| `js.dfy` | JavaScript primitives: truthiness, `trim`, `includes`, decimal rendering of a status |
| `sequences.dfy` | sequence helpers: map, filter, subsequence, de-duplication |
| `ordering.dfy` | a stable insertion sort used for `Array.prototype.sort` with a comparator, and its proofs |
| `coords.dfy` | the `${lat},${lng}` text that keys both geocode caches and ends the directions link |
| `legacy_records.dfy` | `stripDoctorPrefix`, `toSortKey` and `readDoctorFromEl` |
| `legacy_engine.dfy` | everything `startMapLogic` keeps and its handlers; the class `Widget` holds the closure state |
| `doctors.dfy` | `useDoctors` |
| `helpers.dfy` | `src/utils/helpers.js` |
| `filtered.dfy` | `useFilteredDoctors` |
| `camera.dfy` | `useMapCamera` and `MapController` |
| `geocode_cache.dfy` | `geocodeCache.js`, with the class `Cache` |
| `geocode_hook.dfy` | `useGeocode`, with the class `MarkerGeocode` |
| `filter_bar.dfy` | what `FilterBar` derives from the selections |
| `finder.dfy` | `DoctorFinder` and its state, with the class `DoctorFinder` |
| `pagination.dfy` | the offset walk |
| `api.dfy` | `fetchDoctors` |
| `proxy.dfy` | the Netlify handler |

Library behaviour the model does not define enters as parameters:
- `Intl.Collator.compare` and `localeCompare` become a total preorder `le`/`collate`;
- `parseFloat` becomes `parse`, with `None` standing for NaN;
- `toLocaleLowerCase` becomes `lower`;
- JavaScript's number-to-string conversion becomes `show`;
- the geocoder's answer becomes `reply`, or a `status` and the first result;
- the network becomes a sequence of responses, where the `k`-th request receives the `k`-th response;
- a `localStorage` write that throws becomes `writeOk == false`.

Where the two implementations differ, each is modelled as written. These lemmas pin the
differences down:
- The legacy cache stores failed lookups as `None`, so a failure is never retried
  (`LegacyEngine.Widget.GeocodeOnce`). React caches only successes
  (`GeocodeHook.FailureThenRetry`) and does not merge concurrent misses
  (`GeocodeHook.ConcurrentMisses`).
- The legacy reader rejects NaN coordinates and an empty city or country
  (`LegacyRecords.ReadDoctorFromEl`). React drops a coordinate of 0 and keeps an empty city or
  country (`Doctors.ZeroDroppedEmptyPlaceKept`).
- The legacy list is sorted by the collator on the sort key (`LegacyEngine.BuildDoctorList`).
  React's list keeps record order (`FilteredDoctors.FilterDoctorsSpec`).
- React's camera ignores the selected doctor (`Finder.SelectionIndependent`). A reset gives a
  `null` center, so the map does not move (`MapCamera.ResetDoesNotMove`).

## Model

| member | source | states |
|---|---|---|
| LegacyRecords.MatchTitle | legacy-code.js:41 | the title alternative that matches at the start of the trimmed name consumes at least one and at most all of its characters |
| LegacyRecords.StripCutsOneTitle | legacy-code.js:40-41 | About `StripDoctorPrefix` (`ToSortKey` lower-cases its result): stripping leaves the trimmed name unchanged when no title matches. Otherwise the trimmed name splits into the first matching title, white space only, and the result, which does not start with white space. The result is always a suffix of the trimmed name |
| LegacyRecords.CutAfter | legacy-code.js:41 | what remains after the title and the `\s*` that follows it is a suffix of the trimmed name, separated from the title by white space only |
| LegacyRecords.ArabicDoctorWordNeverMatches | legacy-code.js:41 | the `دكتور` alternative is dead: `د\.?` is tried first and wins whenever `دكتور` could match |
| LegacyRecords.ArabicTitleLosesOnlyFirstLetter | legacy-code.js:40-41 | consequently stripping a name that starts with `دكتور` removes only `د` and keeps `كتور` |
| LegacyRecords.NoWordBoundaryAfterDr | legacy-code.js:41 | with no word boundary after `dr`, a name like "Drake" loses its first two letters |
| LegacyRecords.DrDotStripped | legacy-code.js:40-41 | a name starting with "Dr." and one space loses exactly those four characters |
| LegacyRecords.OnlyOneTitle | legacy-code.js:41 | at most one title is removed ("Dr. Dr. Amina" becomes "Dr. Amina") |
| LegacyRecords.FirstNonEmpty | legacy-code.js:284-289 | the `a \|\| b \|\| … \|\| ""` chain is empty exactly when every alternative is empty |
| LegacyRecords.FirstNonEmptyIsFirst | legacy-code.js:284-289 | a non-empty result is the alternative at the first non-empty position |
| LegacyRecords.DisplayNamePreference | legacy-code.js:284-291 | the display name prefers the Arabic spellings in the order nameAr, arabicName, nameArabic, name_ar, and only then the English name |
| LegacyRecords.ReadDoctorFromEl | legacy-code.js:282-325 | `null` exactly when a coordinate is NaN or the trimmed city or country is empty; otherwise the record keeps the element's identity, the trimmed non-empty place, the parsed coordinates, the display name and its sort key |
| Coords.KeySplits | legacy-code.js:258 | the cache key `${lat},${lng}` splits at its comma back into the two coordinate texts |
| Coords.KeyInjective | legacy-code.js:258 | with a comma-free, injective number rendering, two positions share a key only when they are equal |
| LegacyEngine.AddressText | legacy-code.js:597-599 | a failed or empty lookup shows the not-found text; any other address is shown as is |
| LegacyEngine.Upsert | legacy-code.js:277-280 | a new country is appended to the key order; a known one keeps the order |
| LegacyEngine.UpsertFacts | legacy-code.js:277-280 | the upserted pair is recorded, no other pair is added, every earlier pair and both insertion orders are kept, and well-formedness (keys and cities listed once) is preserved |
| LegacyEngine.FacetsWellFormed | legacy-code.js:277-280 | the facet map built from any doctors lists each country once, with a non-empty set of cities each listed once |
| LegacyEngine.FacetsExact | legacy-code.js:329-334 | About `FacetsOf`: the facet map records a (country, city) pair iff some doctor has that country and city |
| LegacyEngine.FacetsGrow | legacy-code.js:396-405 | appending doctors only extends the facet map: nothing is lost and the insertion orders only grow at the end |
| LegacyEngine.CountryOptionsListing | legacy-code.js:339-350 | the country options are sorted by the collator and free of duplicates, and they list a country iff some doctor has it |
| LegacyEngine.Harvest | legacy-code.js:329-334 | the initial harvest yields no more doctors than elements |
| LegacyEngine.HarvestIds | legacy-code.js:329-334 | every harvested record comes from one of the elements, and distinct elements give records with distinct identities |
| LegacyEngine.HarvestAll | legacy-code.js:329-334 | the harvest loop produces the harvest in document order and the facet map of exactly those doctors |
| LegacyEngine.Ingest | legacy-code.js:396-405 | a batch ingests at most one doctor per candidate |
| LegacyEngine.IngestFacts | legacy-code.js:396-405 | afterwards every candidate is in `seen`; each ingested doctor comes from a candidate not seen before, and no two come from the same element |
| LegacyEngine.IngestSeenIsNoop | legacy-code.js:397 | candidates that were all seen before change nothing |
| LegacyEngine.IngestIdempotent | legacy-code.js:396-405 | delivering the same batch again ingests nothing (at most once) |
| LegacyEngine.IngestBatches | legacy-code.js:389-412 | two successive batches never ingest the same element, whatever they deliver |
| LegacyEngine.IngestAll | legacy-code.js:396-405 | the candidate loop computes the batch's `seen` and ingested doctors, keeps the facet map exact, and sets `changed` iff some doctor was added |
| LegacyEngine.HydrateKeeps | legacy-code.js:396-411 | one batch keeps the data invariant (exact facets, distinct identities, all of them seen), only extends the facet map, and leaves the doctors alone when nothing was added |
| LegacyEngine.RerenderKeeps | legacy-code.js:408-411 | rebuilding the options and re-rendering after a batch that added doctors keeps the selections valid, the page in agreement with the grown data, and every new row pending |
| LegacyEngine.VisibleMembers | legacy-code.js:421-423 | About `Visible`: a doctor is visible iff it is harvested and matches the selected country and city, where "" matches everything |
| LegacyEngine.VisibleOrderAndNarrowing | legacy-code.js:421-423 | the visible doctors keep harvest order; with no selection they are all the doctors; choosing a city narrows the country's list |
| LegacyEngine.VisibilityFlags | legacy-code.js:426-435 | one flag per doctor, set iff no country is selected or the doctor matches the selections |
| LegacyEngine.RecenterFor | legacy-code.js:448-465 | a recentering request is made iff something is visible and a country is selected. It asks for "city, country" at zoom 12 when a city is selected, and for the country at zoom 6 otherwise |
| LegacyEngine.BuildDoctorList | legacy-code.js:508-577 | the rows are a permutation of the list, sorted by the collator on the sort key and stable; each row is numbered by its position and shows the loading text with its address pending |
| LegacyEngine.Render | legacy-code.js:417-466 | the flags, rows and recentering agree with the data and the selections: no rows without a country, otherwise the sorted visible doctors, all pending |
| LegacyEngine.OfferedCountry | legacy-code.js:361-375 | a country the select offers is a key of the facet map, and its city options hold only its cities |
| LegacyEngine.KeptCountry | legacy-code.js:351 | the rebuilt select keeps the current country iff it is non-empty and still a key; otherwise it falls back to the placeholder |
| LegacyEngine.SelectionGrows | legacy-code.js:408-411 | when the facet map grows, the current selections remain valid and the selected country is kept |
| LegacyEngine.ResolveRowKeeps | legacy-code.js:589-599 | resolving a pending row whose position is cached keeps the page and the cache in agreement |
| LegacyEngine.Widget.constructor | legacy-code.js:22 | before start-up nothing is harvested, selected, observed or cached, and the invariant holds |
| LegacyEngine.Widget.StartMapLogic | legacy-code.js:213-385 | runs once (`INIT_DONE`). Without a map container it harvests nothing and installs nothing. Otherwise it harvests in document order, marks every current element seen, lists the countries, renders with nothing selected and opens the hydration window. The invariant is kept |
| LegacyEngine.Widget.RebuildCountryOptions | legacy-code.js:339-352 | Through `WithCountryOptions`: the options become the facet keys sorted by the collator, and the country is kept or reset to the placeholder; nothing else on the page changes |
| LegacyEngine.Widget.FilterAndRender | legacy-code.js:417-466 | the options and selections are untouched, and the flags, rows and recentering request are re-derived from the data and the selections |
| LegacyEngine.Widget.OnCountryChange | legacy-code.js:361-378 | the city options become the chosen country's cities sorted by the collator (none for the placeholder), the city resets to the placeholder, the country options stay, and the page is re-rendered with every rebuilt row pending; the invariant is kept |
| LegacyEngine.Widget.OnCityChange | legacy-code.js:379 | the city is set while the selected country and both option lists stay, and the page is re-rendered with every rebuilt row pending; the invariant is kept |
| LegacyEngine.Widget.HydrateBatch | legacy-code.js:389-412 | does nothing once the window is closed. Otherwise unseen candidates are ingested at most once and appended, and the page is rebuilt only when a doctor was added, with every rebuilt row pending. The facet map only grows. The selected country, the selected city and the city options are kept, and so is the invariant |
| LegacyEngine.Widget.EndHydrationWindow | legacy-code.js:414 | after the disconnect no batch is observed; the invariant is kept |
| LegacyEngine.Widget.GeocodeOnce | legacy-code.js:257-268 | the first call for a key issues exactly one lookup and caches its outcome, a failure included. Every later call returns the cached outcome and issues nothing. Each key is looked up at most once over the widget's life |
| LegacyEngine.Widget.OnIntersect | legacy-code.js:589-599 | a pending row stops being pending and shows the cached address text for its position. On a cache miss that text is the geocoder's reply or the not-found text, and the reply is cached with one lookup logged. A resolved row is left alone, and a cached position issues no lookup |
| LegacyEngine.Widget.OnMarkerClick | legacy-code.js:663-671 | when the popup has an address element, it shows the cached address text for the marker's position. On a cache miss that text is the geocoder's reply or the not-found text, and the reply is cached with one lookup logged. Without an address element nothing is looked up and the cache is untouched |
| Doctors.OrNull | src/hooks/useDoctors.js:22-23 | `parseFloat(x) \|\| null` is `null` exactly for NaN and 0 |
| Doctors.FirstPortrait | src/hooks/useDoctors.js:27 | the photo is the first attachment's url when there is a non-empty one, else `null` |
| Doctors.MapRecord | src/hooks/useDoctors.js:19-28 | each field of the normalised doctor comes from the record field the hook reads |
| Doctors.NormalizeMembers | src/hooks/useDoctors.js:18-30 | About `Normalize`: the normalised list holds exactly the mapped records with both coordinates truthy |
| Doctors.NormalizeOrder | src/hooks/useDoctors.js:18-30 | record order is kept and nothing is added |
| Doctors.ZeroDroppedEmptyPlaceKept | src/hooks/useDoctors.js:22-30 | a record at latitude or longitude 0 is dropped; one with non-zero coordinates is kept even with an empty city and country |
| Doctors.DoctorsState.constructor | src/hooks/useDoctors.js:6-8 | starts with no doctors, loading, and no error |
| Doctors.DoctorsState.LoadDoctors | src/hooks/useDoctors.js:11-37 | on success the list becomes the normalised records and the error is cleared; on failure the error is the thrown message and the list is unchanged; loading ends either way |
| Helpers.SortAlphabeticallySpec | src/utils/helpers.js:13-15 | the sorted copy is a permutation of the input, ordered by the comparator, with equal-comparing strings in input order |
| Helpers.SortAlphabeticallyMembers | src/utils/helpers.js:13-15 | sorting keeps exactly the members and keeps a duplicate-free list duplicate-free |
| Helpers.DirectionsUrl | src/utils/helpers.js:2-4 | the link is the directions prefix followed by the `${lat},${lng}` destination |
| Helpers.DirectionsUrlRoundTrip | src/utils/helpers.js:2-4 | the destination splits back into the two coordinate texts, and with an injective rendering the link determines the position |
| Helpers.DoctorPhotoUrl | src/utils/helpers.js:7-10 | the `Photo` property when truthy, else `null` |
| FilteredDoctors.FilterDoctorsSpec | src/hooks/useFilteredDoctors.js:6-10 | About `FilterDoctors`: the filtered list is a subsequence of the doctors and holds exactly those whose country and city agree with the truthy selections |
| FilteredDoctors.NoFiltersKeepAll | src/hooks/useFilteredDoctors.js:6-10 | with no truthy selection every doctor is kept, in order |
| FilteredDoctors.CityNarrows | src/hooks/useFilteredDoctors.js:6-10 | adding a city keeps a subsequence of what the country alone keeps |
| FilteredDoctors.CountriesSpec | src/hooks/useFilteredDoctors.js:14-17 | About `Countries`: the country options are sorted and free of duplicates, and they list a country iff it is non-empty and some doctor has it |
| FilteredDoctors.CityNames | src/hooks/useFilteredDoctors.js:22-27 | the non-empty city names taken from the selected country's doctors are exactly the cities some doctor of that country has |
| FilteredDoctors.CitiesSpec | src/hooks/useFilteredDoctors.js:20-29 | About `Cities`: no city options without a country; otherwise sorted and free of duplicates, listing a city iff it is non-empty and some doctor of the selected country has it |
| MapCamera.FindCity | src/hooks/useMapCamera.js:13 | `find` returns the first doctor in the city, and nothing exactly when no doctor is in it |
| MapCamera.ZoomLevels | src/hooks/useMapCamera.js:4-35 | About `CameraFor`: the zoom is 6 or 12. It is 12 iff a city is selected and some shown doctor is in it, and then there is a center |
| MapCamera.NoCenter | src/hooks/useMapCamera.js:7-33 | the center is `null` exactly with no selection, nothing shown, or only a city that no doctor is in; a `null` center comes with zoom 6 |
| MapCamera.CityCenter | src/hooks/useMapCamera.js:12-20 | a selected city with a shown doctor in it centers on the first such doctor at zoom 12, whatever the country |
| MapCamera.CountryCenter | src/hooks/useMapCamera.js:23-30 | a selected country without a city match centers at zoom 6 on the mean position, which lies within the shown doctors' bounding box |
| MapCamera.MapMove | src/components/Map/MapController.jsx:7-11 | the map pans and zooms to the camera iff it exists and the center is not `null` |
| MapCamera.ResetDoesNotMove | src/components/Map/MapController.jsx:8 | after a reset the camera has no center, so the map keeps its last view |
| GeocodeCache.Lookup | src/utils/geocodeCache.js:22 | `Map.get` finds nothing exactly when no entry has the key |
| GeocodeCache.MapSet | src/utils/geocodeCache.js:26 | `Map.set` on a known key replaces that key's entry in place with the new value and leaves every other entry; on a new key it appends the entry last |
| GeocodeCache.LookupAfterSet | src/utils/geocodeCache.js:26 | after a set the key reads back the new value, and every other key reads as before |
| GeocodeCache.SetKeepsDistinct | src/utils/geocodeCache.js:26 | a set keeps keys unique and appends a new key at the end |
| GeocodeCache.LookupFromEntries | src/utils/geocodeCache.js:5-17 | loading stored entries makes each stored key read as its last stored value and leaves other keys as they were |
| GeocodeCache.ReloadRoundTrip | src/utils/geocodeCache.js:25-34 | loading a cache's own entries into an empty cache rebuilds it, order included |
| GeocodeCache.Get | src/utils/geocodeCache.js:21-23 | `get(key) \|\| null` is the stored value when it is non-empty, and `null` for an absent key or an empty address |
| GeocodeCache.InitialContents | src/utils/geocodeCache.js:5-19 | at module start a key reads as the stored object's value for it; a missing or unparsable item leaves the cache empty |
| GeocodeCache.Cache.constructor | src/utils/geocodeCache.js:1-19 | the memory cache starts empty, then holds what loading the stored item gives |
| GeocodeCache.Cache.LoadFromStorage | src/utils/geocodeCache.js:5-17 | the stored entries are set one by one; a missing or unparsable item adds nothing; keys stay unique |
| GeocodeCache.Cache.SetInCache | src/utils/geocodeCache.js:25-34 | memory is updated first; storage then holds the whole memory, or is left as it was when the write fails |
| GeocodeCache.GetAfterSet | src/utils/geocodeCache.js:21-34 | a non-empty value set under a key is what `getFromCache` returns for it, an empty one reads as `null`, and other keys are unaffected |
| GeocodeCache.PersistedReloads | src/utils/geocodeCache.js:25-34 | what a successful write persisted reloads into exactly the same memory cache |
| GeocodeHook.MarkerGeocode.constructor | src/hooks/useGeocode.js:6-8 | starts with no address, not loading, no error and no request |
| GeocodeHook.MarkerGeocode.RunEffect | src/hooks/useGeocode.js:12-28 | when guarded out (disabled, no library, or a `null` or 0 coordinate) nothing changes. A cache hit shows the cached address with no request. A miss starts loading, clears the error and issues exactly one request for the key |
| GeocodeHook.MarkerGeocode.OnResult | src/hooks/useGeocode.js:29-39 | loading ends. Success shows and caches the first address. Otherwise it shows "Address not found" with the failure message and caches nothing |
| GeocodeHook.FailureThenRetry | src/hooks/useGeocode.js:12-39 | a failed lookup is not cached, so the next effect for that position issues another request |
| GeocodeHook.ConcurrentMisses | src/hooks/useGeocode.js:18-29 | two markers at one uncached position each issue their own request |
| GeocodeHook.HitAfterSuccess | src/hooks/useGeocode.js:18-34 | once an address was cached, the next effect shows it and issues no request |
| FilterBar.HasFilters | src/components/Filters/FilterBar.jsx:12 | there are filters iff the summary line is shown |
| FilterBar.Summary | src/components/Filters/FilterBar.jsx:52-56 | shown iff a selection is truthy; it names the city when one is set, else the country |
| Finder.Render | src/components/DoctorFinder.jsx:17-112 | an error shows only its message. Otherwise the filter bar gets the hook's countries and cities and the two selections, over the loading view while loading. Otherwise the list and the map both show `filteredDoctors`: exactly the loaded doctors agreeing with the truthy selections. They appear under the camera computed for them, with the selected doctor passed through |
| Finder.SelectionIndependent | src/components/DoctorFinder.jsx:27-31 | the selected doctor affects neither the list, nor the filter bar, nor the camera |
| Finder.DisabledCitySelectIsEmpty | src/components/Filters/FilterBar.jsx:40 | the city select is disabled only when it has no options |
| Finder.DoctorFinder.constructor | src/components/DoctorFinder.jsx:12-14 | nothing is selected initially |
| Finder.DoctorFinder.HandleReset | src/components/DoctorFinder.jsx:33-37 | clears the country, the city and the selected doctor |
| Finder.DoctorFinder.HandleDoctorSelect | src/components/DoctorFinder.jsx:39-41 | sets only the selected doctor |
| Finder.DoctorFinder.SetCity | src/components/DoctorFinder.jsx:77 | sets only the city |
| Finder.DoctorFinder.HandleCountryChange | src/components/Filters/FilterBar.jsx:14-20 | sets the country; the city is cleared when the country differs from the rendered one and kept otherwise |
| Finder.CountryChangeNeverKeepsStaleCity | src/components/Filters/FilterBar.jsx:14-20 | after a country change, a remaining city was chosen under that same country |
| Pagination.RequestsFollowOffsets | src/utils/api.js:57-59 | About `Requests`: the first request carries no offset, and each later one carries the truthy offset of the page before it |
| Pagination.CollectPlacesPages | src/utils/api.js:73-74 | About `Collect`: each page's records appear exactly once, in page order, right after those of the earlier pages |
| Pagination.SinglePage | src/utils/api.js:73-77 | a first page without an offset is the only request, and its records are the result |
| Pagination.FailureDiscards | src/utils/api.js:68-70 | About `Outcome`: a failing response after continuing pages ends the walk with that failure and no records |
| Api.FetchDoctors | src/utils/api.js:50-82 | requests the pages with the offsets they return, until a page has no offset. It resolves with every page's records in order, or rejects at the first failure with "HTTP error! status: N" or `fetch`'s own message |
| Api.NotOkMessage | src/utils/api.js:68-70 | a response that is not ok rejects with its status number in the message |
| Api.LoadThroughApi | src/hooks/useDoctors.js:11-37 | the hook ends with the normalised records of every page, or with the thrown message and the list unchanged |
| Proxy.CaughtResponse | netlify/functions/doctors.js:69-79 | a caught error answers 429 iff its message mentions "429", and 500 otherwise |
| Proxy.Handler | netlify/functions/doctors.js:8-81 | a non-GET request gets 405, and a missing key gets 500, both without an upstream request. Otherwise the walk follows the offsets and answers with all records or a mapped error |
| Proxy.SuccessShape | netlify/functions/doctors.js:57-64 | About `WalkResponse` on `Outcome`: the answer is 200 iff the walk ended on an ok page. Then it carries every page's records and is cacheable for 300 seconds; otherwise it is an error body with 429 or 500 |
| Proxy.StatusMapping | netlify/functions/doctors.js:48-79 | an Airtable status answer becomes 429 iff its status is 429 or its status text mentions "429"; every other failure becomes 500 |

## Left out

- The DOM, Google Maps, timers, `IntersectionObserver`, `MutationObserver` and the promise
  scheduling are not modelled. Each event handler is one atomic method call, and a promise's
  settlement is its value. Markers, info windows, tooltips, fades, photos and popup content are
  left out.
- Floating point is modelled as `real`. `Number.isFinite` in `lazyResolveAddresses` holds for
  every parsed coordinate, because `Infinity` does not exist in the model.
- The `${lat},${lng}` rendering is a parameter `show`. Its commas and injectivity are premises
  of the round-trip lemmas.
- The legacy city select is not rebuilt after hydration, so its options can be stale.
  `LegacyEngine.Widget.HydrateBatch` models this as written.
- The legacy selects are taken to start at their placeholder "".
- LegacyEngine.Upsert: `countryCityMap` is a plain object, so a country named after an
  `Object.prototype` member ("constructor", "toString", "__proto__", …) finds an inherited
  value; no `Set` is created and `.add` throws a `TypeError`, which aborts the harvest in
  `startMapLogic` or the hydration callback. The model treats every country name as an own
  key, so `Harvest`, `Ingest` and `FacetsExact` describe the run in which no such name occurs.
- `Object.keys` lists integer-like keys first. `LegacyEngine.Facets` keeps plain insertion
  order, and the collator sort makes the two differ only in the order of collator-equal keys.
- MapCamera.CameraFor: a `null` coordinate counts as 0 in the center. The source would put
  `null` in the center. No doctor that `Normalize` keeps has a `null` coordinate.
- `getDoctorPhotoUrl` reads `Photo`, while normalised doctors carry `photo`.
  `Helpers.DoctorPhotoUrl` takes the property's value as an input, so the mismatch is outside
  the model.
- Values read from `localStorage` are taken to be strings.
- Api.FetchDoctors and Proxy.Handler require that the responses end the walk, because the
  source keeps requesting forever otherwise. A `response.json()` failure and a page without
  `records` are not modelled.
- The Dropdown component turns the placeholder's "" into `null`. Selections are modelled as
  `None` or a string directly.
- `testAirtableConnection`, `testGoogleMapsConnection` and `helloWorld` (`src/utils/api.js`),
  `vite.config.js`, and the purely presentational components (`DoctorList`, `DoctorCard`,
  `DoctorMap`, `DoctorMarker`, `Button`, `App`) are not part of this model.
