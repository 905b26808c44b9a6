/** `useFilteredDoctors` (src/hooks/useFilteredDoctors.js): the doctors
    matching the selections, and the country and city options. A selection
    is `null` or a string; it filters only when truthy. */
module FilteredDoctors {
  import opened Wrappers
  import opened Js
  import opened Sequences
  import opened Ordering
  import opened Doctors
  import opened Helpers

  /** The filter callback: rejected when a truthy country differs, or a
      truthy city differs. */
  predicate Keep(d: Doctor, country: Option<string>, city: Option<string>) {
    !(IsSet(country) && d.country != country.value) && !(IsSet(city) && d.city != city.value)
  }

  /** `filteredDoctors`. */
  function FilterDoctors(ds: seq<Doctor>, country: Option<string>, city: Option<string>): seq<Doctor> {
    Filter(ds, d => Keep(d, country, city))
  }

  /** The filtered list is a subsequence of the doctors, and holds exactly
      the doctors whose country and city agree with the truthy selections. */
  lemma FilterDoctorsSpec(ds: seq<Doctor>, country: Option<string>, city: Option<string>, d: Doctor)
    ensures IsSubseq(FilterDoctors(ds, country, city), ds)
    ensures d in FilterDoctors(ds, country, city) <==>
      && d in ds
      && (!IsSet(country) || d.country == country.value)
      && (!IsSet(city) || d.city == city.value)
  {
    FilterIsSubseq(ds, d => Keep(d, country, city));
    FilterMembers(ds, d => Keep(d, country, city), d);
  }

  /** With neither selection truthy, every doctor is kept, in order. */
  lemma NoFiltersKeepAll(ds: seq<Doctor>, country: Option<string>, city: Option<string>)
    requires !IsSet(country) && !IsSet(city)
    ensures FilterDoctors(ds, country, city) == ds
  {
    FilterKeepsAll(ds, d => Keep(d, country, city));
  }

  /** Narrowing: selecting a city keeps a subsequence of what the country
      alone keeps. */
  lemma CityNarrows(ds: seq<Doctor>, country: Option<string>, city: Option<string>)
    ensures IsSubseq(FilterDoctors(ds, country, city), FilterDoctors(ds, country, None))
  {
    FilterNarrows(ds, d => Keep(d, country, None), d => Keep(d, country, city));
  }

  /** `countries`: the truthy countries of all doctors, de-duplicated through
      a `Set`, sorted. The selections are not inputs. */
  function Countries(ds: seq<Doctor>, le: (string, string) -> bool): seq<string> {
    SortAlphabetically(Dedup(Filter(Map(ds, (d: Doctor) => d.country), Truthy)), le)
  }

  /** Each non-empty country of the doctors is listed exactly once, and the
      list is sorted. */
  lemma CountriesSpec(ds: seq<Doctor>, le: (string, string) -> bool, c: string)
    requires TotalPreorder(le)
    ensures Sorted(Countries(ds, le), le)
    ensures Distinct(Countries(ds, le))
    ensures c in Countries(ds, le) <==> c != "" && exists i :: 0 <= i < |ds| && ds[i].country == c
  {
    var names := Map(ds, (d: Doctor) => d.country);
    var kept := Filter(names, Truthy);
    SortAlphabeticallySpec(Dedup(kept), le);
    SortAlphabeticallyMembers(Dedup(kept), le);
    FilterMembers(names, Truthy, c);
    if c in names {
      var i :| 0 <= i < |names| && names[i] == c;
      assert ds[i].country == c;
    }
    if exists i :: 0 <= i < |ds| && ds[i].country == c {
      var i :| 0 <= i < |ds| && ds[i].country == c;
      assert names[i] == c;
    }
  }

  /** `cities`: none without a truthy country; otherwise the truthy cities
      of that country's doctors, de-duplicated, sorted. The selected city is
      not an input. */
  function Cities(ds: seq<Doctor>, country: Option<string>, le: (string, string) -> bool): seq<string> {
    if !IsSet(country) then []
    else
      var inCountry := Filter(ds, (d: Doctor) => d.country == country.value);
      SortAlphabetically(Dedup(Filter(Map(inCountry, (d: Doctor) => d.city), Truthy)), le)
  }

  /** The non-empty cities of the doctors in `country`. */
  lemma CityNames(ds: seq<Doctor>, country: string, y: string)
    ensures var inCountry := Filter(ds, (d: Doctor) => d.country == country);
      y in Filter(Map(inCountry, (d: Doctor) => d.city), Truthy) <==>
        y != "" && exists i :: 0 <= i < |ds| && ds[i].country == country && ds[i].city == y
  {
    var p := (d: Doctor) => d.country == country;
    var inCountry := Filter(ds, p);
    var names := Map(inCountry, (d: Doctor) => d.city);
    FilterMembers(names, Truthy, y);
    if y in names {
      var i :| 0 <= i < |names| && names[i] == y;
      FilterMembers(ds, p, inCountry[i]);
      var j :| 0 <= j < |ds| && ds[j] == inCountry[i];
      assert ds[j].country == country && ds[j].city == y;
    }
    if exists i :: 0 <= i < |ds| && ds[i].country == country && ds[i].city == y {
      var i :| 0 <= i < |ds| && ds[i].country == country && ds[i].city == y;
      FilterMembers(ds, p, ds[i]);
      var k :| 0 <= k < |inCountry| && inCountry[k] == ds[i];
      assert names[k] == y;
    }
  }

  /** The city options are empty without a country; otherwise each
      non-empty city of the selected country's doctors is listed exactly
      once, sorted. */
  lemma CitiesSpec(ds: seq<Doctor>, country: Option<string>, le: (string, string) -> bool, y: string)
    requires TotalPreorder(le)
    ensures !IsSet(country) ==> Cities(ds, country, le) == []
    ensures Sorted(Cities(ds, country, le), le)
    ensures Distinct(Cities(ds, country, le))
    ensures y in Cities(ds, country, le) <==>
      && IsSet(country) && y != ""
      && exists i :: 0 <= i < |ds| && ds[i].country == country.value && ds[i].city == y
  {
    if IsSet(country) {
      var inCountry := Filter(ds, (d: Doctor) => d.country == country.value);
      var kept := Filter(Map(inCountry, (d: Doctor) => d.city), Truthy);
      SortAlphabeticallySpec(Dedup(kept), le);
      SortAlphabeticallyMembers(Dedup(kept), le);
      CityNames(ds, country.value, y);
    }
  }
}
