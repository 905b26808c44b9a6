/** src/components/Filters/FilterBar.jsx: what the filter bar derives from
    the two selections. The two dropdowns turn the placeholder's "" into
    `null` before calling back, so a selection is `None` or a string. */
module FilterBar {
  import opened Wrappers
  import opened Js

  const SummaryPrefix := "Showing doctors in "

  /** `hasFilters`: a truthy country or a truthy city. */
  function HasFilters(country: Option<string>, city: Option<string>): (b: bool)
    ensures b <==> Summary(country, city).Some?
  {
    IsSet(country) || IsSet(city)
  }

  /** The summary line, shown with the reset button only under
      `hasFilters`; it names the city when one is set, else the country. */
  function Summary(country: Option<string>, city: Option<string>): (s: Option<string>)
    ensures s.Some? <==> IsSet(country) || IsSet(city)
    ensures IsSet(city) ==> s == Some(SummaryPrefix + city.value)
    ensures !IsSet(city) && IsSet(country) ==> s == Some(SummaryPrefix + country.value)
  {
    if IsSet(city) then Some(SummaryPrefix + city.value)
    else if IsSet(country) then Some(SummaryPrefix + country.value)
    else None
  }

  /** The city select is disabled while no country is selected. */
  function CityDisabled(country: Option<string>): bool {
    !IsSet(country)
  }
}
