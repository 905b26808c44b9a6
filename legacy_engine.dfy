/** The state kept by `startMapLogic` in legacy-code.js and the handlers it
    installs: the harvested doctors, the country→city facet map, the
    selections, the rendered visibility flags and list rows, the recentering
    request, the late-hydration `seen` set and the geocode cache. */
module LegacyEngine {
  import opened Wrappers
  import opened Sequences
  import opened Ordering
  import opened Coords
  import opened LegacyRecords

  /** Zoom levels the recentering requests ask for. */
  const CityZoom: int := 12
  const CountryZoom: int := 6

  /** `TEXT.loadingAddr` and `TEXT.addrNotFound`, by page language. */
  function LoadingAddress(isAr: bool): string {
    if isAr then "جاري تحميل العنوان…" else "Loading address…"
  }

  function AddressNotFound(isAr: bool): string {
    if isAr then "لم يتم العثور على العنوان" else "Address not found"
  }

  /** `addr || TEXT.addrNotFound`: a failed or empty lookup shows the
      not-found text. */
  function AddressText(addr: Option<string>, isAr: bool): (t: string)
    ensures addr.Some? && addr.value != "" ==> t == addr.value
    ensures addr.None? || addr.value == "" ==> t == AddressNotFound(isAr)
  {
    if addr.Some? && addr.value != "" then addr.value else AddressNotFound(isAr)
  }

  // ---------------------------------------------------------------------
  // The country→city facet map (`countryCityMap`, `upsertCountryCity`).
  // ---------------------------------------------------------------------

  /** `countryCityMap`: its keys in insertion order (the order `Object.keys`
      lists them) and, for each key, its `Set` of cities in insertion order. */
  datatype Facets = Facets(order: seq<string>, cities: map<string, seq<string>>)

  const NoFacets := Facets([], map[])

  /** Keys listed once each, and each country's cities listed once each. */
  ghost predicate WellFormed(f: Facets) {
    && Distinct(f.order)
    && (forall c :: c in f.cities <==> c in f.order)
    && (forall c :: c in f.cities ==> f.cities[c] != [] && Distinct(f.cities[c]))
  }

  /** The facet map records `city` under `country`. */
  predicate HasPair(f: Facets, country: string, city: string) {
    country in f.cities && city in f.cities[country]
  }

  /** `g` keeps all of `f`: no country and no city is lost, and both
      insertion orders only grow at the end. */
  ghost predicate Extends(f: Facets, g: Facets) {
    && f.order <= g.order
    && (forall c :: c in f.cities ==> c in g.cities && f.cities[c] <= g.cities[c])
  }

  lemma ExtendsTrans(f: Facets, g: Facets, h: Facets)
    requires Extends(f, g) && Extends(g, h)
    ensures Extends(f, h)
  {
    forall c | c in f.cities
      ensures f.cities[c] <= h.cities[c]
    {
      assert f.cities[c] <= g.cities[c] <= h.cities[c];
    }
  }

  /** `upsertCountryCity`: creates the country's set on first use, then adds
      the city (a `Set` ignores a city it already holds). */
  function Upsert(f: Facets, country: string, city: string): (g: Facets)
    ensures g.order == if country in f.cities then f.order else f.order + [country]
  {
    if country in f.cities then
      var cs := f.cities[country];
      Facets(f.order, f.cities[country := if city in cs then cs else cs + [city]])
    else
      Facets(f.order + [country], f.cities[country := [city]])
  }

  /** Upserting records the pair, adds no other pair, keeps every earlier
      pair and insertion order, and keeps the map well formed. */
  lemma UpsertFacts(f: Facets, country: string, city: string)
    ensures var g := Upsert(f, country, city);
      && HasPair(g, country, city)
      && Extends(f, g)
      && (forall c, y :: HasPair(g, c, y) <==> HasPair(f, c, y) || (c == country && y == city))
      && (WellFormed(f) ==> WellFormed(g))
  {
    if country in f.cities {
      var cs := f.cities[country];
      var cs' := if city in cs then cs else cs + [city];
      assert cs <= cs';
    }
  }

  /** The facet map after upserting the pairs of `ds` in order. */
  function FacetsOf(ds: seq<Doctor>): Facets {
    if ds == [] then NoFacets
    else
      var last := ds[|ds| - 1];
      Upsert(FacetsOf(ds[..|ds| - 1]), last.country, last.city)
  }

  lemma FacetsSnoc(ds: seq<Doctor>, d: Doctor)
    ensures FacetsOf(ds + [d]) == Upsert(FacetsOf(ds), d.country, d.city)
  {
    assert (ds + [d])[..|ds|] == ds;
  }

  lemma {:induction false} FacetsWellFormed(ds: seq<Doctor>)
    ensures WellFormed(FacetsOf(ds))
  {
    if ds != [] {
      FacetsWellFormed(ds[..|ds| - 1]);
      UpsertFacts(FacetsOf(ds[..|ds| - 1]), ds[|ds| - 1].country, ds[|ds| - 1].city);
    }
  }

  /** The facet map is exact: it records a (country, city) pair iff some
      doctor has that country and city. */
  lemma {:induction false} FacetsExact(ds: seq<Doctor>, country: string, city: string)
    ensures HasPair(FacetsOf(ds), country, city) <==>
      exists i :: 0 <= i < |ds| && ds[i].country == country && ds[i].city == city
  {
    if ds != [] {
      var init := ds[..|ds| - 1];
      FacetsExact(init, country, city);
      UpsertFacts(FacetsOf(init), ds[|ds| - 1].country, ds[|ds| - 1].city);
      if exists i :: 0 <= i < |ds| && ds[i].country == country && ds[i].city == city {
        var i :| 0 <= i < |ds| && ds[i].country == country && ds[i].city == city;
        if i < |ds| - 1 {
          assert init[i] == ds[i];
        }
      }
      if exists i :: 0 <= i < |init| && init[i].country == country && init[i].city == city {
        var i :| 0 <= i < |init| && init[i].country == country && init[i].city == city;
        assert ds[i] == init[i];
      }
    }
  }

  /** Append-only: more doctors only ever extend the facet map. */
  lemma {:induction false} FacetsGrow(ds: seq<Doctor>, more: seq<Doctor>)
    ensures Extends(FacetsOf(ds), FacetsOf(ds + more))
    decreases |more|
  {
    if more == [] {
      assert ds + more == ds;
    } else {
      var m := more[..|more| - 1];
      FacetsGrow(ds, m);
      assert (ds + more)[..|ds + more| - 1] == ds + m;
      UpsertFacts(FacetsOf(ds + m), more[|more| - 1].country, more[|more| - 1].city);
      ExtendsTrans(FacetsOf(ds), FacetsOf(ds + m), FacetsOf(ds + more));
    }
  }

  /** The country options `rebuildCountryOptions` lists: each country of
      the doctors exactly once, sorted by the collator. */
  lemma CountryOptionsListing(ds: seq<Doctor>, collate: (string, string) -> bool, country: string)
    requires TotalPreorder(collate)
    ensures var r := SortBy(FacetsOf(ds).order, collate);
      && Sorted(r, collate) && Distinct(r)
      && (country in r <==> exists i :: 0 <= i < |ds| && ds[i].country == country)
  {
    var f := FacetsOf(ds);
    var r := SortBy(f.order, collate);
    FacetsWellFormed(ds);
    SortPermutes(f.order, collate);
    SortSorted(f.order, collate);
    SortDistinct(f.order, collate);
    assert country in r <==> country in multiset(f.order);
    if exists i :: 0 <= i < |ds| && ds[i].country == country {
      var i :| 0 <= i < |ds| && ds[i].country == country;
      FacetsExact(ds, country, ds[i].city);
    }
    if country in f.cities {
      var y := f.cities[country][0];
      FacetsExact(ds, country, y);
    }
  }

  // ---------------------------------------------------------------------
  // Harvest and late hydration (element identity, `seen`).
  // ---------------------------------------------------------------------

  /** How an element becomes a doctor record: `readDoctorFromEl` with the
      page's parser and lower-casing (see `Widget`). */
  type Reader = Element -> Option<Doctor>

  /** A record read from an element carries that element's identity. */
  ghost predicate KeepsId(read: Reader) {
    forall el :: read(el).Some? ==> read(el).value.elId == el.id
  }

  /** The ids of the elements of a `querySelectorAll` result. */
  function IdsOf(els: seq<Element>): set<nat> {
    if els == [] then {} else IdsOf(els[..|els| - 1]) + {els[|els| - 1].id}
  }

  /** A DOM query returns each element once: no element's id occurs
      earlier in the result. */
  predicate DistinctElements(els: seq<Element>) {
    els == [] || (els[|els| - 1].id !in IdsOf(els[..|els| - 1]) && DistinctElements(els[..|els| - 1]))
  }

  /** The ids of the elements the doctor records were read from. */
  function ElIds(ds: seq<Doctor>): set<nat> {
    if ds == [] then {} else ElIds(ds[..|ds| - 1]) + {ds[|ds| - 1].elId}
  }

  /** No two doctor records come from the same element: no record's
      element occurs earlier in the list. */
  ghost predicate DistinctIds(ds: seq<Doctor>) {
    ds == [] || (ds[|ds| - 1].elId !in ElIds(ds[..|ds| - 1]) && DistinctIds(ds[..|ds| - 1]))
  }

  lemma {:induction false} ElIdsMembers(ds: seq<Doctor>, id: nat)
    ensures id in ElIds(ds) <==> exists i :: 0 <= i < |ds| && ds[i].elId == id
    decreases |ds|
  {
    if ds != [] {
      var init := ds[..|ds| - 1];
      ElIdsMembers(init, id);
      if exists i :: 0 <= i < |init| && init[i].elId == id {
        var i :| 0 <= i < |init| && init[i].elId == id;
        assert ds[i] == init[i];
      }
      if exists i :: 0 <= i < |ds| && ds[i].elId == id {
        var i :| 0 <= i < |ds| && ds[i].elId == id;
        if i < |init| {
          assert init[i] == ds[i];
        }
      }
    }
  }

  /** The list form of `DistinctIds` agrees with the pairwise one. */
  lemma {:induction false} DistinctIdsPairwise(ds: seq<Doctor>)
    ensures DistinctIds(ds) <==> forall i, j :: 0 <= i < j < |ds| ==> ds[i].elId != ds[j].elId
    decreases |ds|
  {
    if ds != [] {
      var init := ds[..|ds| - 1];
      var n := |ds| - 1;
      DistinctIdsPairwise(init);
      ElIdsMembers(init, ds[n].elId);
      if DistinctIds(ds) {
        forall i, j | 0 <= i < j < |ds| ensures ds[i].elId != ds[j].elId {
          if j < n {
            assert init[i] == ds[i] && init[j] == ds[j];
          } else {
            assert init[i] == ds[i];
          }
        }
      }
      if forall i, j :: 0 <= i < j < |ds| ==> ds[i].elId != ds[j].elId {
        forall i, j | 0 <= i < j < |init| ensures init[i].elId != init[j].elId {
          assert init[i] == ds[i] && init[j] == ds[j];
        }
        forall i | 0 <= i < |init| ensures init[i].elId != ds[n].elId {
          assert init[i] == ds[i];
        }
      }
    }
  }

  lemma {:induction false} ElIdsAppend(a: seq<Doctor>, b: seq<Doctor>)
    ensures ElIds(a + b) == ElIds(a) + ElIds(b)
    decreases |b|
  {
    if b == [] {
      assert a + b == a;
    } else {
      assert (a + b)[..|a + b| - 1] == a + b[..|b| - 1];
      ElIdsAppend(a, b[..|b| - 1]);
    }
  }

  /** Lists with distinct records drawn from disjoint sets of elements
      concatenate to a list with distinct records. */
  lemma {:induction false} DistinctIdsAppend(a: seq<Doctor>, b: seq<Doctor>)
    requires DistinctIds(a) && DistinctIds(b) && ElIds(a) !! ElIds(b)
    ensures DistinctIds(a + b)
    decreases |b|
  {
    if b == [] {
      assert a + b == a;
    } else {
      var init := b[..|b| - 1];
      assert (a + b)[..|a + b| - 1] == a + init;
      DistinctIdsAppend(a, init);
      ElIdsAppend(a, init);
    }
  }

  /** The initial harvest: every element read once, the rejected ones
      dropped, document order kept. */
  function Harvest(els: seq<Element>, read: Reader): (ds: seq<Doctor>)
    ensures |ds| <= |els|
  {
    if els == [] then []
    else
      var prev := Harvest(els[..|els| - 1], read);
      var d := read(els[|els| - 1]);
      if d.None? then prev else prev + [d.value]
  }

  /** Every harvested doctor comes from one of the elements, and distinct
      elements give distinct doctor records. */
  lemma {:induction false} HarvestIds(els: seq<Element>, read: Reader)
    requires KeepsId(read)
    ensures ElIds(Harvest(els, read)) <= IdsOf(els)
    ensures DistinctElements(els) ==> DistinctIds(Harvest(els, read))
  {
    if els != [] {
      var init := els[..|els| - 1];
      var prev := Harvest(init, read);
      var d := read(els[|els| - 1]);
      HarvestIds(init, read);
      if d.Some? {
        assert (prev + [d.value])[..|prev|] == prev;
      }
    }
  }

  /** One batch of late-hydration candidates (`candidates.forEach`): an
      element already in `seen` is skipped; every other one is added to
      `seen` and, when it reads as a doctor, ingested. Returns the new `seen`
      and the doctors ingested, in order. */
  function Ingest(seen: set<nat>, cands: seq<Element>, read: Reader): (r: (set<nat>, seq<Doctor>))
    ensures |r.1| <= |cands|
  {
    if cands == [] then (seen, [])
    else
      var prev := Ingest(seen, cands[..|cands| - 1], read);
      var el := cands[|cands| - 1];
      if el.id in prev.0 then prev
      else
        var d := read(el);
        if d.None? then (prev.0 + {el.id}, prev.1)
        else (prev.0 + {el.id}, prev.1 + [d.value])
  }

  /** One more candidate: the batch so far, then that candidate's step. */
  lemma IngestSnoc(seen: set<nat>, cands: seq<Element>, i: nat, read: Reader)
    requires i < |cands|
    ensures var prev := Ingest(seen, cands[..i], read);
      var el := cands[i];
      Ingest(seen, cands[..i + 1], read) ==
        if el.id in prev.0 then prev
        else if read(el).None? then (prev.0 + {el.id}, prev.1)
        else (prev.0 + {el.id}, prev.1 + [read(el).value])
  {
    assert cands[..i + 1][..i] == cands[..i];
  }

  /** Afterwards every candidate is in `seen`; each ingested doctor comes
      from a candidate that was not in `seen` before, and from no other
      ingested doctor's element. */
  lemma {:induction false} IngestFacts(seen: set<nat>, cands: seq<Element>, read: Reader)
    ensures Ingest(seen, cands, read).0 == seen + IdsOf(cands)
    ensures var r := Ingest(seen, cands, read);
      KeepsId(read) ==>
        && ElIds(r.1) <= IdsOf(cands)
        && ElIds(r.1) !! seen
        && DistinctIds(r.1)
  {
    if cands != [] {
      var init := cands[..|cands| - 1];
      var el := cands[|cands| - 1];
      IngestFacts(seen, init, read);
      var prev := Ingest(seen, init, read);
      var d := read(el);
      if el.id !in prev.0 && d.Some? {
        assert (prev.1 + [d.value])[..|prev.1|] == prev.1;
      }
    }
  }

  /** Candidates that were all seen before change nothing. */
  lemma {:induction false} IngestSeenIsNoop(seen: set<nat>, cands: seq<Element>,
                                            read: Reader)
    requires IdsOf(cands) <= seen
    ensures Ingest(seen, cands, read) == (seen, [])
  {
    if cands != [] {
      IngestSeenIsNoop(seen, cands[..|cands| - 1], read);
      IngestFacts(seen, cands[..|cands| - 1], read);
    }
  }

  /** At most once: delivering the same candidates again ingests nothing. */
  lemma IngestIdempotent(seen: set<nat>, cands: seq<Element>,
                         read: Reader)
    ensures var r := Ingest(seen, cands, read);
      Ingest(r.0, cands, read) == (r.0, [])
  {
    var r := Ingest(seen, cands, read);
    IngestFacts(seen, cands, read);
    IngestSeenIsNoop(r.0, cands, read);
  }

  /** At most once across batches: two successive batches never ingest the
      same element, whatever they deliver. */
  lemma IngestBatches(seen: set<nat>, a: seq<Element>, b: seq<Element>, read: Reader)
    requires KeepsId(read)
    ensures var r1 := Ingest(seen, a, read);
      var r2 := Ingest(r1.0, b, read);
      DistinctIds(r1.1 + r2.1)
  {
    var r1 := Ingest(seen, a, read);
    var r2 := Ingest(r1.0, b, read);
    IngestFacts(seen, a, read);
    IngestFacts(r1.0, b, read);
    ElIdsAppend(r1.1, r2.1);
    DistinctIdsAppend(r1.1, r2.1);
  }

  // ---------------------------------------------------------------------
  // Filtering, the list and recentering (`filterAndRender`,
  // `buildDoctorList`).
  // ---------------------------------------------------------------------

  /** The filter of `filterAndRender`; "" stands for no selection. */
  predicate Matches(d: Doctor, country: string, city: string) {
    (country == "" || d.country == country) && (city == "" || d.city == city)
  }

  /** `visible`: the matching doctors in harvest order. */
  function Visible(ds: seq<Doctor>, country: string, city: string): seq<Doctor> {
    Filter(ds, d => Matches(d, country, city))
  }

  /** A doctor is visible iff it is one of the doctors and matches. */
  lemma VisibleMembers(ds: seq<Doctor>, country: string, city: string, d: Doctor)
    ensures d in Visible(ds, country, city) <==> d in ds && Matches(d, country, city)
  {
    FilterMembers(ds, d => Matches(d, country, city), d);
  }

  /** `visible` keeps harvest order; with no selection it is every doctor;
      choosing a city narrows the country's list. */
  lemma VisibleOrderAndNarrowing(ds: seq<Doctor>, country: string, city: string)
    ensures IsSubseq(Visible(ds, country, city), ds)
    ensures Visible(ds, "", "") == ds
    ensures IsSubseq(Visible(ds, country, city), Visible(ds, country, ""))
  {
    FilterIsSubseq(ds, d => Matches(d, country, city));
    FilterKeepsAll(ds, d => Matches(d, "", ""));
    FilterNarrows(ds, d => Matches(d, country, ""), d => Matches(d, country, city));
  }

  /** The list's order: the collator on `sortKey`. */
  function SortKeyOf(d: Doctor): string {
    d.sortKey
  }

  function SortKeyOrder(collate: (string, string) -> bool): (Doctor, Doctor) -> bool {
    ByKey(SortKeyOf, collate)
  }

  /** A list row: the doctor, its `data-doc-index`, the address text and
      the `data-addr-pending` flag. */
  datatype Row = Row(doctor: Doctor, docIndex: nat, address: string, pending: bool)

  function RowDoctors(rs: seq<Row>): (ds: seq<Doctor>)
    ensures |ds| == |rs| && forall i :: 0 <= i < |rs| ==> ds[i] == rs[i].doctor
  {
    seq(|rs|, i requires 0 <= i < |rs| => rs[i].doctor)
  }

  /** A geocoding request for the map: the address text and the zoom to
      apply when it succeeds. */
  datatype Recenter = Recenter(query: string, zoom: int)

  /** The "modest recenter" decision. */
  function RecenterFor(visible: seq<Doctor>, country: string, city: string): (r: Option<Recenter>)
    ensures r.Some? <==> visible != [] && country != ""
    ensures r.Some? ==> (r.value.zoom == CityZoom <==> city != "")
    ensures r.Some? ==> r.value.zoom == CityZoom || r.value.zoom == CountryZoom
    ensures r.Some? && city != "" ==> r.value.query == city + ", " + country
    ensures r.Some? && city == "" ==> r.value.query == country
  {
    if visible == [] then None
    else if city != "" && country != "" then Some(Recenter(city + ", " + country, CityZoom))
    else if country != "" then Some(Recenter(country, CountryZoom))
    else None
  }

  /** The keys `geocodeOnce` computed for a sequence of lookups. */
  function LookupKeys(ls: seq<(real, real)>, show: real -> string): (ks: seq<string>)
    ensures |ks| == |ls| && forall i :: 0 <= i < |ls| ==> ks[i] == CoordKey(ls[i].0, ls[i].1, show)
  {
    seq(|ls|, i requires 0 <= i < |ls| => CoordKey(ls[i].0, ls[i].1, show))
  }

  // ---------------------------------------------------------------------
  // The parts of the widget's invariant.
  // ---------------------------------------------------------------------

  /** The facet map and the country options follow the doctors. */
  ghost predicate FacetsOk(ds: seq<Doctor>, f: Facets, options: seq<string>,
                           collate: (string, string) -> bool) {
    && f == FacetsOf(ds)
    && options == SortBy(f.order, collate)
  }

  /** The selections are options the selects offer ("" is the placeholder). */
  ghost predicate SelectionOk(f: Facets, country: string, city: string, cityOptions: seq<string>) {
    && (country == "" ==> city == "" && cityOptions == [])
    && (country != "" ==>
          && country in f.cities
          && (forall y :: y in cityOptions ==> y in f.cities[country]))
    && (city == "" || city in cityOptions)
  }

  /** Every doctor comes from a distinct element, and every such element is
      in `seen`. */
  ghost predicate IdsOk(ds: seq<Doctor>, seen: set<nat>) {
    DistinctIds(ds) && ElIds(ds) <= seen
  }

  /** One lookup per cached key, and a cached key for every lookup. */
  ghost predicate CacheOk(cache: map<string, Option<string>>, lookups: seq<(real, real)>,
                          show: real -> string) {
    && Distinct(LookupKeys(lookups, show))
    && (forall k :: k in cache <==> k in LookupKeys(lookups, show))
  }

  /** What the page shows agrees with the data and the selections: card and
      marker visibility, the list rows and the recentering request of that
      render. */
  ghost predicate RenderedOk(ds: seq<Doctor>, country: string, city: string, shown: seq<bool>,
                             rows: seq<Row>, recenter: Option<Recenter>,
                             collate: (string, string) -> bool, isAr: bool) {
    && |shown| == |ds|
    && (forall i :: 0 <= i < |ds| ==> shown[i] == (country == "" || Matches(ds[i], country, city)))
    && (country == "" ==> rows == [])
    && (country != "" ==>
          RowDoctors(rows) == SortBy(Visible(ds, country, city), SortKeyOrder(collate)))
    && (forall i :: 0 <= i < |rows| ==> rows[i].docIndex == i)
    && (forall i :: 0 <= i < |rows| && rows[i].pending ==> rows[i].address == LoadingAddress(isAr))
    && recenter == RecenterFor(Visible(ds, country, city), country, city)
  }

  /** A row whose address was resolved had its coordinates looked up. */
  ghost predicate ResolvedOk(rows: seq<Row>, cache: map<string, Option<string>>, show: real -> string) {
    forall i :: 0 <= i < |rows| && !rows[i].pending ==>
      CoordKey(rows[i].doctor.lat, rows[i].doctor.lng, show) in cache
  }

  /** The data the widget has harvested: the element ids seen so far, the
      doctors in harvest order and their facet map. */
  datatype Data = Data(seen: set<nat>, doctors: seq<Doctor>, facets: Facets)

  /** What the page shows: the options and values of the two selects
      ("" is the placeholder), card and marker visibility (one flag per
      doctor), the list rows and the recentering request of the latest
      render (`None` when that render asked for none). */
  datatype Page = Page(
    countryOptions: seq<string>,
    cityOptions: seq<string>,
    selCountry: string,
    selCity: string,
    shown: seq<bool>,
    rows: seq<Row>,
    recenter: Option<Recenter>)

  /** The geocode cache and every geocoder request `geocodeOnce` issued,
      in order. */
  datatype Geo = Geo(cache: map<string, Option<string>>, lookups: seq<(real, real)>)

  ghost predicate DataOk(d: Data) {
    d.facets == FacetsOf(d.doctors) && IdsOk(d.doctors, d.seen)
  }

  ghost predicate PageOk(d: Data, p: Page, collate: (string, string) -> bool, isAr: bool) {
    && p.countryOptions == SortBy(d.facets.order, collate)
    && SelectionOk(d.facets, p.selCountry, p.selCity, p.cityOptions)
    && RenderedOk(d.doctors, p.selCountry, p.selCity, p.shown, p.rows, p.recenter, collate, isAr)
  }

  ghost predicate GeoOk(g: Geo, rows: seq<Row>, show: real -> string) {
    CacheOk(g.cache, g.lookups, show) && ResolvedOk(rows, g.cache, show)
  }

  /** A country the country select offers is a key of the facet map, and
      the city options built for it hold only its cities. */
  lemma OfferedCountry(ds: seq<Doctor>, f: Facets, options: seq<string>,
                       collate: (string, string) -> bool, c: string)
    requires FacetsOk(ds, f, options, collate) && c in options
    ensures c in f.cities
    ensures forall y :: y in SortBy(f.cities[c], collate) ==> y in f.cities[c]
  {
    SortPermutes(f.order, collate);
    assert c in multiset(f.order);
    FacetsWellFormed(ds);
    SortPermutes(f.cities[c], collate);
    forall y | y in SortBy(f.cities[c], collate) ensures y in f.cities[c] {
      assert y in multiset(SortBy(f.cities[c], collate));
    }
  }

  // ---------------------------------------------------------------------
  // The loops of `startMapLogic`, the hydration observer and
  // `filterAndRender`.
  // ---------------------------------------------------------------------

  /** The harvest loop: reads each doctor element in document order,
      keeps the records that parse and upserts each kept record's pair. */
  method HarvestAll(els: seq<Element>, read: Reader)
    returns (ds: seq<Doctor>, f: Facets)
    ensures ds == Harvest(els, read)
    ensures f == FacetsOf(ds)
  {
    ds := [];
    f := NoFacets;
    var i := 0;
    while i < |els|
      invariant 0 <= i <= |els|
      invariant ds == Harvest(els[..i], read)
      invariant f == FacetsOf(ds)
    {
      assert els[..i + 1][..i] == els[..i];
      var d := read(els[i]);
      if d.Some? {
        f := Upsert(f, d.value.country, d.value.city);
        assert (ds + [d.value])[..|ds|] == ds;
        ds := ds + [d.value];
      }
      i := i + 1;
    }
    assert els[..|els|] == els;
  }

  /** The candidate loop of one hydration batch: skips elements in `seen`,
      adds the others to it, and appends and upserts those that read as
      doctors; `changed` records whether any did. */
  method IngestAll(seen: set<nat>, ds0: seq<Doctor>, f0: Facets, cands: seq<Element>,
                   read: Reader)
    returns (sn: set<nat>, ds: seq<Doctor>, f: Facets, changed: bool)
    requires f0 == FacetsOf(ds0)
    ensures var r := Ingest(seen, cands, read);
      && sn == r.0
      && ds == ds0 + r.1
      && f == FacetsOf(ds)
      && changed == (r.1 != [])
  {
    sn := seen;
    ds := ds0;
    f := f0;
    changed := false;
    ghost var r: (set<nat>, seq<Doctor>) := (seen, []);
    assert cands[..0] == [];
    var i := 0;
    while i < |cands|
      invariant 0 <= i <= |cands|
      invariant r == Ingest(seen, cands[..i], read)
      invariant sn == r.0 && ds == ds0 + r.1 && changed == (r.1 != [])
      invariant f == FacetsOf(ds)
    {
      IngestSnoc(seen, cands, i, read);
      var el := cands[i];
      if el.id !in sn {
        sn := sn + {el.id};
        var d := read(el);
        if d.Some? {
          FacetsSnoc(ds, d.value);
          assert ds0 + (r.1 + [d.value]) == ds + [d.value];
          ds := ds + [d.value];
          f := Upsert(f, d.value.country, d.value.city);
          changed := true;
          r := (sn, r.1 + [d.value]);
        } else {
          r := (sn, r.1);
        }
      }
      i := i + 1;
    }
    assert cands[..|cands|] == cands;
  }

  /** The `doctorData.forEach` of `filterAndRender`: a card and its marker
      are shown iff no country is selected or the doctor is visible. */
  method VisibilityFlags(ds: seq<Doctor>, country: string, city: string) returns (flags: seq<bool>)
    ensures |flags| == |ds|
    ensures forall k :: 0 <= k < |ds| ==> flags[k] == (country == "" || Matches(ds[k], country, city))
  {
    var visible := Visible(ds, country, city);
    flags := [];
    var i := 0;
    while i < |ds|
      invariant 0 <= i <= |ds|
      invariant |flags| == i
      invariant forall k :: 0 <= k < i ==> flags[k] == (country == "" || Matches(ds[k], country, city))
    {
      VisibleMembers(ds, country, city, ds[i]);
      flags := flags + [ds[i] in visible || country == ""];
      i := i + 1;
    }
  }

  /** `rebuildCountryOptions`'s choice of country: the current one while it
      is a key of the facet map, otherwise the placeholder. */
  function KeptCountry(current: string, f: Facets): (c: string)
    ensures c == "" || c == current
    ensures c != "" <==> current != "" && current in f.cities
  {
    if current != "" && current in f.cities then current else ""
  }

  /** The page after `rebuildCountryOptions`: every country key sorted by
      the collator, and the selected country kept while it is a key. */
  function WithCountryOptions(p: Page, f: Facets, collate: (string, string) -> bool): Page {
    p.(countryOptions := SortBy(f.order, collate), selCountry := KeptCountry(p.selCountry, f))
  }

  /** Selections stay valid when the facet map grows. */
  lemma SelectionGrows(f: Facets, g: Facets, country: string, city: string, cityOptions: seq<string>)
    requires Extends(f, g) && SelectionOk(f, country, city, cityOptions)
    ensures SelectionOk(g, country, city, cityOptions)
    ensures KeptCountry(country, g) == country
  {
    if country != "" {
      forall y | y in cityOptions ensures y in g.cities[country] {
        var i :| 0 <= i < |f.cities[country]| && f.cities[country][i] == y;
        assert g.cities[country][i] == y;
      }
    }
  }

  /** `buildDoctorList`: one row per doctor of `list`, sorted by the
      collator on `sortKey` (a stable sort), numbered by position, each
      showing the loading text with its address pending. */
  method BuildDoctorList(list: seq<Doctor>, collate: (string, string) -> bool, isAr: bool)
    returns (rs: seq<Row>)
    requires TotalPreorder(collate)
    ensures RowDoctors(rs) == SortBy(list, SortKeyOrder(collate))
    ensures multiset(RowDoctors(rs)) == multiset(list)
    ensures Sorted(RowDoctors(rs), SortKeyOrder(collate))
    ensures Stable(RowDoctors(rs), list, SortKeyOrder(collate))
    ensures forall i :: 0 <= i < |rs| ==>
      rs[i].docIndex == i && rs[i].pending && rs[i].address == LoadingAddress(isAr)
  {
    var order := SortKeyOrder(collate);
    ByKeyPreorder(SortKeyOf, collate);
    SortSorted(list, order);
    SortStable(list, order);
    SortPermutes(list, order);
    var sorted := SortBy(list, order);
    rs := [];
    var i := 0;
    while i < |sorted|
      invariant 0 <= i <= |sorted|
      invariant |rs| == i
      invariant forall k :: 0 <= k < i ==>
        rs[k] == Row(sorted[k], k, LoadingAddress(isAr), true)
    {
      rs := rs + [Row(sorted[i], i, LoadingAddress(isAr), true)];
      i := i + 1;
    }
    assert RowDoctors(rs) == sorted;
  }

  /** The body of `filterAndRender` on given data and selections: the
      flags, the list rows (none with no country) and the recentering
      request. */
  method Render(ds: seq<Doctor>, country: string, city: string,
                collate: (string, string) -> bool, isAr: bool)
    returns (flags: seq<bool>, rs: seq<Row>, rec: Option<Recenter>)
    requires TotalPreorder(collate)
    ensures RenderedOk(ds, country, city, flags, rs, rec, collate, isAr)
    ensures forall i :: 0 <= i < |rs| ==> rs[i].pending
  {
    var visible := Visible(ds, country, city);
    flags := VisibilityFlags(ds, country, city);
    if country == "" {
      rs := [];
    } else {
      rs := BuildDoctorList(visible, collate, isAr);
    }
    rec := RecenterFor(visible, country, city);
  }

  /** One hydration batch keeps the data's invariant: the new doctors come
      from unseen, distinct elements, which the batch then marks seen. */
  lemma HydrateKeeps(d: Data, cands: seq<Element>, read: Reader)
    requires DataOk(d) && KeepsId(read)
    ensures var r := Ingest(d.seen, cands, read);
      && DataOk(Data(r.0, d.doctors + r.1, FacetsOf(d.doctors + r.1)))
      && Extends(d.facets, FacetsOf(d.doctors + r.1))
      && (r.1 == [] ==> d.doctors + r.1 == d.doctors)
  {
    var r := Ingest(d.seen, cands, read);
    IngestFacts(d.seen, cands, read);
    FacetsGrow(d.doctors, r.1);
    ElIdsAppend(d.doctors, r.1);
    DistinctIdsAppend(d.doctors, r.1);
    if r.1 == [] {
      assert d.doctors + r.1 == d.doctors;
    }
  }

  /** Re-rendering after a batch that added doctors keeps the page and the
      cache in agreement with the grown data: the selections stay valid and
      every new row is pending. */
  lemma RerenderKeeps(d: Data, p: Page, g: Geo, d2: Data, flags: seq<bool>, rs: seq<Row>,
                      rec: Option<Recenter>, collate: (string, string) -> bool, isAr: bool,
                      show: real -> string)
    requires PageOk(d, p, collate, isAr) && CacheOk(g.cache, g.lookups, show)
    requires Extends(d.facets, d2.facets)
    requires RenderedOk(d2.doctors, p.selCountry, p.selCity, flags, rs, rec, collate, isAr)
    requires forall i :: 0 <= i < |rs| ==> rs[i].pending
    ensures var p2 := p.(countryOptions := SortBy(d2.facets.order, collate),
                         shown := flags, rows := rs, recenter := rec);
      PageOk(d2, p2, collate, isAr) && GeoOk(g, rs, show)
  {
    SelectionGrows(d.facets, d2.facets, p.selCountry, p.selCity, p.cityOptions);
  }

  /** Resolving a pending row whose coordinates are cached keeps the page
      and the cache in agreement. */
  lemma ResolveRowKeeps(d: Data, p: Page, g: Geo, i: nat, text: string,
                        collate: (string, string) -> bool, isAr: bool, show: real -> string)
    requires PageOk(d, p, collate, isAr) && GeoOk(g, p.rows, show) && i < |p.rows|
    requires CoordKey(p.rows[i].doctor.lat, p.rows[i].doctor.lng, show) in g.cache
    ensures var rs := p.rows[i := Row(p.rows[i].doctor, i, text, false)];
      PageOk(d, p.(rows := rs), collate, isAr) && GeoOk(g, rs, show)
  {
    var rs := p.rows[i := Row(p.rows[i].doctor, i, text, false)];
    assert RowDoctors(rs) == RowDoctors(p.rows);
  }

  // ---------------------------------------------------------------------
  // The widget.
  // ---------------------------------------------------------------------

  /** The closure state of `startMapLogic`, its variables grouped as the
      harvested data, the page and the geocoder's cache. The collator,
      `toLocaleLowerCase`, `parseFloat` and number formatting are the
      page's, fixed at load. */
  class Widget {
    const isAr: bool
    const collate: (string, string) -> bool
    const read: Reader
    const show: real -> string

    /** `INIT_DONE`; `running` once the map container was found and the
        handlers are installed; `observing` while the hydration window is
        open. */
    var initDone: bool
    var running: bool
    var observing: bool
    var data: Data
    var page: Page
    var geo: Geo

    /** The widget's invariant: before start-up nothing is harvested,
        selected or observed; afterwards the data, the page and the cache
        agree with each other. */
    ghost predicate Valid()
      reads this
    {
      && TotalPreorder(collate)
      && KeepsId(read)
      && (!initDone ==> !running)
      && (!running ==> data.doctors == [] && !observing && page.selCountry == "")
      && DataOk(data)
      && PageOk(data, page, collate, isAr)
      && GeoOk(geo, page.rows, show)
    }

    constructor (isAr: bool, collate: (string, string) -> bool, lower: string -> string,
                 parse: string -> Option<real>, show: real -> string)
      requires TotalPreorder(collate)
      ensures Valid()
      ensures this.isAr == isAr && this.collate == collate && this.show == show
      ensures forall el :: this.read(el) == ReadDoctorFromEl(el, parse, lower)
      ensures !initDone && data == Data({}, [], NoFacets) && geo == Geo(map[], [])
    {
      this.isAr := isAr;
      this.collate := collate;
      this.read := el => ReadDoctorFromEl(el, parse, lower);
      this.show := show;
      initDone := false;
      running := false;
      observing := false;
      data := Data({}, [], NoFacets);
      page := Page([], [], "", "", [], [], None);
      geo := Geo(map[], []);
    }

    /** `startMapLogic`: runs once (`INIT_DONE`); gives up for good when the
        map container never appears; otherwise harvests the doctor elements,
        lists the countries, renders with nothing selected and opens the
        hydration window with every current element marked seen. */
    method StartMapLogic(els: seq<Element>, mapFound: bool)
      requires Valid()
      requires DistinctElements(els)
      modifies this
      ensures Valid()
      ensures old(initDone) ==> unchanged(this)
      ensures !old(initDone) ==> initDone && running == mapFound && observing == mapFound
      ensures !old(initDone) && !mapFound ==> data.doctors == [] && page.rows == []
      ensures !old(initDone) && mapFound ==>
        && data.doctors == Harvest(els, read)
        && data.seen == old(data.seen) + IdsOf(els)
        && page.selCountry == "" && page.selCity == "" && page.rows == []
        && (forall i :: 0 <= i < |page.shown| ==> page.shown[i])
    {
      if initDone {
        return;
      }
      initDone := true;
      if !mapFound {
        return;
      }
      var ds, f := HarvestAll(els, read);
      HarvestIds(els, read);
      // rebuildCountryOptions, then filterAndRender, on the harvested data
      var p2 := WithCountryOptions(page, f, collate);
      var flags, rs, rec := Render(ds, p2.selCountry, p2.selCity, collate, isAr);
      data := Data(data.seen + IdsOf(els), ds, f);
      page := p2.(shown := flags, rows := rs, recenter := rec);
      running, observing := true, true;
    }

    /** `rebuildCountryOptions`: relists every country key sorted by the
        collator and keeps the selected country if it is still a key. */
    method RebuildCountryOptions()
      modifies this`page
      ensures page == old(page).(countryOptions := SortBy(data.facets.order, collate),
                                 selCountry := KeptCountry(old(page.selCountry), data.facets))
    {
      page := WithCountryOptions(page, data.facets, collate);
    }

    /** `filterAndRender`: the visibility flags of cards and markers, the
        list (cleared with no country, rebuilt otherwise) and the
        recentering request. */
    method FilterAndRender()
      requires TotalPreorder(collate)
      modifies this`page
      ensures page.countryOptions == old(page.countryOptions) && page.cityOptions == old(page.cityOptions)
      ensures page.selCountry == old(page.selCountry) && page.selCity == old(page.selCity)
      ensures RenderedOk(data.doctors, page.selCountry, page.selCity, page.shown, page.rows,
                         page.recenter, collate, isAr)
      ensures forall i :: 0 <= i < |page.rows| ==> page.rows[i].pending
    {
      var flags, rs, rec := Render(data.doctors, page.selCountry, page.selCity, collate, isAr);
      page := page.(shown := flags, rows := rs, recenter := rec);
    }

    /** The country select's `change` handler: the city options become the
        chosen country's cities sorted by the collator (none for the
        placeholder), the city goes back to the placeholder, then
        `filterAndRender`. */
    method OnCountryChange(c: string)
      requires Valid() && running
      requires c == "" || c in page.countryOptions
      modifies this`page
      ensures Valid()
      ensures page.selCountry == c && page.selCity == ""
      ensures c == "" ==> page.cityOptions == []
      ensures c != "" ==> c in data.facets.cities && page.cityOptions == SortBy(data.facets.cities[c], collate)
      ensures page.countryOptions == old(page.countryOptions)
      ensures forall i :: 0 <= i < |page.rows| ==> page.rows[i].pending
    {
      var cityOptions := [];
      if c != "" {
        OfferedCountry(data.doctors, data.facets, page.countryOptions, collate, c);
        cityOptions := SortBy(data.facets.cities[c], collate);
      }
      page := page.(cityOptions := cityOptions, selCountry := c, selCity := "");
      FilterAndRender();
    }

    /** The city select's `change` handler. */
    method OnCityChange(y: string)
      requires Valid() && running
      requires y == "" || y in page.cityOptions
      modifies this`page
      ensures Valid()
      ensures page.selCity == y
      ensures page.selCountry == old(page.selCountry)
      ensures page.countryOptions == old(page.countryOptions) && page.cityOptions == old(page.cityOptions)
      ensures forall i :: 0 <= i < |page.rows| ==> page.rows[i].pending
    {
      page := page.(selCity := y);
      FilterAndRender();
    }

    /** The hydration observer's callback for one batch of added doctor
        elements: at-most-once ingestion through `seen`, and, when a doctor
        was added, the country options rebuilt and the page re-rendered. */
    method HydrateBatch(cands: seq<Element>)
      requires Valid()
      modifies this`data, this`page
      ensures Valid()
      ensures !old(observing) ==> data == old(data) && page == old(page)
      ensures old(observing) ==>
        var r := Ingest(old(data.seen), cands, read);
        && data.seen == r.0
        && data.doctors == old(data.doctors) + r.1
        && (r.1 == [] ==> page == old(page))
        && (r.1 != [] ==> forall i :: 0 <= i < |page.rows| ==> page.rows[i].pending)
      ensures Extends(old(data.facets), data.facets)
      ensures page.selCountry == old(page.selCountry)
      ensures page.selCity == old(page.selCity) && page.cityOptions == old(page.cityOptions)
    {
      if !observing {
        return;
      }
      var sn, ds, f, changed := IngestAll(data.seen, data.doctors, data.facets, cands, read);
      HydrateKeeps(data, cands, read);
      var p2 := page;
      if changed {
        // rebuildCountryOptions, then filterAndRender, on the grown data;
        // the selected country is still a key, so it is kept
        SelectionGrows(data.facets, f, page.selCountry, page.selCity, page.cityOptions);
        var flags, rs, rec := Render(ds, page.selCountry, page.selCity, collate, isAr);
        RerenderKeeps(data, page, geo, Data(sn, ds, f), flags, rs, rec, collate, isAr, show);
        p2 := WithCountryOptions(page, f, collate).(shown := flags, rows := rs, recenter := rec);
      }
      data, page := Data(sn, ds, f), p2;
    }

    /** The end of the hydration window (`obs.disconnect()`). */
    method EndHydrationWindow()
      requires Valid()
      modifies this`observing
      ensures Valid() && !observing
    {
      observing := false;
    }

    /** `geocodeOnce`: the first call for a key issues one lookup and
        caches its outcome, a failure (`None`) included; every later call
        with that key returns the cached outcome and issues nothing.
        `reply` is what the geocoder would answer now. */
    method GeocodeOnce(lat: real, lng: real, reply: Option<string>) returns (addr: Option<string>)
      requires Valid()
      modifies this`geo
      ensures Valid()
      ensures var key := CoordKey(lat, lng, show);
        && key in geo.cache && addr == geo.cache[key]
        && (key in old(geo.cache) ==> addr == old(geo.cache)[key] && geo == old(geo))
        && (key !in old(geo.cache) ==>
              addr == reply && geo == Geo(old(geo.cache)[key := reply], old(geo.lookups) + [(lat, lng)]))
    {
      var key := CoordKey(lat, lng, show);
      if key in geo.cache {
        return geo.cache[key];
      }
      assert LookupKeys(geo.lookups + [(lat, lng)], show) == LookupKeys(geo.lookups, show) + [key];
      geo := Geo(geo.cache[key := reply], geo.lookups + [(lat, lng)]);
      addr := reply;
    }

    /** The list's intersection observer for row `i`: a pending row stops
        being pending and shows its geocoded address, or the not-found
        text; a row already resolved is no longer observed. */
    method OnIntersect(i: nat, reply: Option<string>)
      requires Valid() && i < |page.rows|
      modifies this`page, this`geo
      ensures Valid()
      ensures !old(page.rows[i].pending) ==> page == old(page) && geo == old(geo)
      ensures old(page.rows[i].pending) ==>
        var d := old(page.rows[i].doctor);
        var key := CoordKey(d.lat, d.lng, show);
        && key in geo.cache
        && page == old(page).(rows := old(page.rows)[i := Row(d, i, AddressText(geo.cache[key], isAr), false)])
        && (key in old(geo.cache) ==> geo == old(geo))
        && (key !in old(geo.cache) ==>
              geo == Geo(old(geo.cache)[key := reply], old(geo.lookups) + [(d.lat, d.lng)])
              && page.rows[i].address == AddressText(reply, isAr))
    {
      if !page.rows[i].pending {
        return;
      }
      var d := page.rows[i].doctor;
      var addr := GeocodeOnce(d.lat, d.lng, reply);
      ResolveRowKeeps(data, page, geo, i, AddressText(addr, isAr), collate, isAr, show);
      page := page.(rows := page.rows[i := Row(d, i, AddressText(addr, isAr), false)]);
    }

    /** A marker click: when the popup template has an address element
        (`hasAddrEl`), its text comes through the same cache; without one
        nothing is looked up and the popup shows no address. */
    method OnMarkerClick(i: nat, hasAddrEl: bool, reply: Option<string>) returns (text: Option<string>)
      requires Valid() && i < |data.doctors|
      modifies this`geo
      ensures Valid()
      ensures !hasAddrEl ==> text == None && geo == old(geo)
      ensures hasAddrEl ==>
        var d := data.doctors[i];
        var key := CoordKey(d.lat, d.lng, show);
        && key in geo.cache && text == Some(AddressText(geo.cache[key], isAr))
        && (key !in old(geo.cache) ==>
              geo == Geo(old(geo.cache)[key := reply], old(geo.lookups) + [(d.lat, d.lng)])
              && text == Some(AddressText(reply, isAr)))
      ensures CoordKey(data.doctors[i].lat, data.doctors[i].lng, show) in old(geo.cache) ==>
        geo == old(geo)
    {
      if !hasAddrEl {
        return None;
      }
      var addr := GeocodeOnce(data.doctors[i].lat, data.doctors[i].lng, reply);
      text := Some(AddressText(addr, isAr));
    }
  }
}
