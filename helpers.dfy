/** src/utils/helpers.js: the sort used for the country and city options,
    the directions link and the photo lookup. */
module Helpers {
  import opened Wrappers
  import opened Js
  import opened Sequences
  import opened Ordering
  import opened Coords

  /** `sortAlphabetically`: a sorted copy (`[...arr].sort(...)`) by
      `localeCompare`; `le(a, b)` stands for `a.localeCompare(b) <= 0`. The
      argument is a value, so it is left as it was. */
  function SortAlphabetically(arr: seq<string>, le: (string, string) -> bool): seq<string> {
    SortBy(arr, le)
  }

  /** The copy is a permutation of the input, ordered by the comparator,
      with equal-comparing strings in their input order. */
  lemma SortAlphabeticallySpec(arr: seq<string>, le: (string, string) -> bool)
    requires TotalPreorder(le)
    ensures var r := SortAlphabetically(arr, le);
      && multiset(r) == multiset(arr)
      && Sorted(r, le)
      && Stable(r, arr, le)
  {
    SortPermutes(arr, le);
    SortSorted(arr, le);
    SortStable(arr, le);
  }

  /** Sorting keeps a list free of duplicates and keeps its members. */
  lemma SortAlphabeticallyMembers(arr: seq<string>, le: (string, string) -> bool)
    ensures forall x :: x in SortAlphabetically(arr, le) <==> x in arr
    ensures Distinct(arr) ==> Distinct(SortAlphabetically(arr, le))
  {
    SortPermutes(arr, le);
    assert forall x :: x in SortAlphabetically(arr, le) <==> x in multiset(arr);
    if Distinct(arr) {
      SortDistinct(arr, le);
    }
  }

  const DirectionsPrefix := "https://www.google.com/maps/dir/?api=1&destination="

  /** `getDirectionsUrl(lat, lng)`; `show` is JavaScript's rendering of a
      number in a template literal. */
  function DirectionsUrl(lat: real, lng: real, show: real -> string): (u: string)
    ensures IsPrefix(DirectionsPrefix, u)
    ensures u[|DirectionsPrefix|..] == CoordKey(lat, lng, show)
  {
    DirectionsPrefix + CoordKey(lat, lng, show)
  }

  /** The destination can be read back from the link: the text after the
      prefix splits at its comma into the two coordinates, and with an
      injective rendering the link determines them. */
  lemma DirectionsUrlRoundTrip(lat: real, lng: real, lat': real, lng': real, show: real -> string)
    requires CommaFree(show)
    ensures SplitAtComma(DirectionsUrl(lat, lng, show)[|DirectionsPrefix|..]) == (show(lat), show(lng))
    ensures Injective(show) ==>
      (DirectionsUrl(lat, lng, show) == DirectionsUrl(lat', lng', show) <==> lat == lat' && lng == lng')
  {
    KeySplits(lat, lng, show);
    if Injective(show) {
      KeyInjective(lat, lng, lat', lng', show);
      if DirectionsUrl(lat, lng, show) == DirectionsUrl(lat', lng', show) {
        assert CoordKey(lat, lng, show) == DirectionsUrl(lat, lng, show)[|DirectionsPrefix|..];
      }
    }
  }

  /** `getDoctorPhotoUrl(doctor)`: the object's `Photo` property when truthy,
      else `null`. `photo` is that property, `None` when absent. */
  function DoctorPhotoUrl(photo: Option<string>): (r: Option<string>)
    ensures r.Some? <==> IsSet(photo)
    ensures r.Some? ==> r == photo
  {
    if IsSet(photo) then photo else None
  }
}
