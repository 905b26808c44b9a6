/** src/components/DoctorFinder.jsx: the three selection states, their
    handlers (with FilterBar.jsx's country handler, which calls two of the
    setters) and the wiring of the doctors, filter and camera hooks into
    what is rendered. */
module Finder {
  import opened Wrappers
  import opened Js
  import opened Ordering
  import opened Doctors
  import opened FilteredDoctors
  import opened MapCamera
  import opened FilterBar

  /** What the filter bar is given and shows. */
  datatype Bar = Bar(
    countries: seq<string>,
    cities: seq<string>,
    country: Option<string>,
    city: Option<string>,
    cityDisabled: bool,
    showReset: bool,
    summary: Option<string>)

  /** The rendered page: the error screen (the message), or the header and
      filter bar over either the loading text or the list and the map. */
  datatype View =
    | ErrorView(message: string)
    | LoadingView(bar: Bar)
    | MainView(bar: Bar, list: seq<Doctor>, mapDoctors: seq<Doctor>, camera: Camera,
               selected: Option<Doctor>)

  function BarFor(doctors: seq<Doctor>, country: Option<string>, city: Option<string>,
                  le: (string, string) -> bool): Bar {
    Bar(Countries(doctors, le), Cities(doctors, country, le), country, city,
        CityDisabled(country), HasFilters(country, city), Summary(country, city))
  }

  /** The component's render from the hooks' results. */
  function Render(doctors: seq<Doctor>, loading: bool, error: Option<string>,
                  country: Option<string>, city: Option<string>, selected: Option<Doctor>,
                  le: (string, string) -> bool): (v: View)
    ensures error.Some? <==> v.ErrorView?
    ensures error.Some? ==> v.message == error.value
    ensures error.None? ==> (loading <==> v.LoadingView?)
    ensures !v.ErrorView? ==>
      && v.bar.countries == Countries(doctors, le)
      && v.bar.cities == Cities(doctors, country, le)
      && v.bar.country == country && v.bar.city == city
    ensures v.MainView? ==>
      && v.list == v.mapDoctors == FilterDoctors(doctors, country, city)
      && (forall d :: d in v.list <==>
            d in doctors && (!IsSet(country) || d.country == country.value)
            && (!IsSet(city) || d.city == city.value))
      && v.camera == CameraFor(v.list, country, city)
      && v.selected == selected
  {
    var filtered := FilterDoctors(doctors, country, city);
    var bar := BarFor(doctors, country, city, le);
    FilterDoctorsIn(doctors, country, city);
    if error.Some? then ErrorView(error.value)
    else if loading then LoadingView(bar)
    else MainView(bar, filtered, filtered, CameraFor(filtered, country, city), selected)
  }

  /** Every doctor the page lists is a loaded one agreeing with the truthy
      selections, and every such doctor is listed. */
  lemma FilterDoctorsIn(doctors: seq<Doctor>, country: Option<string>, city: Option<string>)
    ensures forall d :: d in FilterDoctors(doctors, country, city) <==>
      d in doctors && (!IsSet(country) || d.country == country.value)
      && (!IsSet(city) || d.city == city.value)
  {
    forall d {
      FilterDoctorsSpec(doctors, country, city, d);
    }
  }

  /** The selected doctor changes neither what is listed, nor the filter
      bar, nor the camera: only the highlighted doctor. */
  lemma SelectionIndependent(doctors: seq<Doctor>, loading: bool, error: Option<string>,
                             country: Option<string>, city: Option<string>,
                             s1: Option<Doctor>, s2: Option<Doctor>, le: (string, string) -> bool)
    ensures var v1 := Render(doctors, loading, error, country, city, s1, le);
      var v2 := Render(doctors, loading, error, country, city, s2, le);
      && v1.MainView? == v2.MainView?
      && (v1.MainView? ==> v1.(selected := s2) == v2)
      && (!v1.MainView? ==> v1 == v2)
  {
  }

  /** The city select is disabled exactly when it has no options to offer
      because no country is selected. */
  lemma DisabledCitySelectIsEmpty(doctors: seq<Doctor>, country: Option<string>, city: Option<string>,
                                  le: (string, string) -> bool)
    requires TotalPreorder(le)
    ensures var b := BarFor(doctors, country, city, le);
      b.cityDisabled ==> b.cities == []
  {
    CitiesSpec(doctors, country, le, "");
  }

  /** The three `useState` fields. */
  class DoctorFinder {
    var country: Option<string>
    var city: Option<string>
    var selected: Option<Doctor>

    constructor ()
      ensures country == None && city == None && selected == None
    {
      country := None;
      city := None;
      selected := None;
    }

    /** `handleReset`. */
    method HandleReset()
      modifies this
      ensures country == None && city == None && selected == None
    {
      country := None;
      city := None;
      selected := None;
    }

    /** `handleDoctorSelect`: only the selected doctor changes. */
    method HandleDoctorSelect(d: Option<Doctor>)
      modifies this`selected
      ensures selected == d
    {
      selected := d;
    }

    /** The city select's change (`setSelectedCity`). */
    method SetCity(y: Option<string>)
      modifies this`city
      ensures city == y
    {
      city := y;
    }

    /** FilterBar's `handleCountryChange`: `setSelectedCountry(c)`, then
        `setSelectedCity(null)` when `c` differs from the country the bar
        was rendered with. The selected doctor is kept. */
    method HandleCountryChange(c: Option<string>)
      modifies this`country, this`city
      ensures country == c
      ensures c != old(country) ==> city == None
      ensures c == old(country) ==> city == old(city)
    {
      var rendered := country;
      country := c;
      if c != rendered {
        SetCity(None);
      }
    }
  }

  /** After any country change the city is either cleared or still the one
      chosen under the same country, so a city is never kept across a
      change of country. */
  method CountryChangeNeverKeepsStaleCity(f: DoctorFinder, c: Option<string>)
    modifies f
    ensures f.city.Some? ==> old(f.country) == f.country && f.city == old(f.city)
  {
    f.HandleCountryChange(c);
  }
}
