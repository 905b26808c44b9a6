/** Coordinates as text. Both implementations join a latitude and a longitude
    with a comma (`${lat},${lng}`): as the key of their geocode caches and as
    the destination of the directions link. JavaScript's Number-to-string
    conversion is not modelled; it is passed in as `show`. */
module Coords {

  /** JavaScript's rendering of a finite number never contains a comma. */
  ghost predicate CommaFree(show: real -> string) {
    forall x :: ',' !in show(x)
  }

  /** Distinct numbers render as distinct text. */
  ghost predicate Injective(show: real -> string) {
    forall x, y :: show(x) == show(y) ==> x == y
  }

  /** The text key `${lat},${lng}`. */
  function CoordKey(lat: real, lng: real, show: real -> string): string {
    show(lat) + "," + show(lng)
  }

  /** Splits a text at its first comma: the part before it and the part after
      it (the whole text and "" when there is none). */
  function SplitAtComma(s: string): (r: (string, string))
    ensures ',' !in r.0
    ensures ',' in s ==> s == r.0 + "," + r.1
    ensures ',' !in s ==> r == (s, "")
  {
    if s == [] then ("", "")
    else if s[0] == ',' then ("", s[1..])
    else
      var rest := SplitAtComma(s[1..]);
      assert s == [s[0]] + s[1..];
      ([s[0]] + rest.0, rest.1)
  }

  /** Splitting `a + "," + b` at its first comma gives back `a` and `b` when
      `a` holds no comma. */
  lemma {:induction false} SplitJoined(a: string, b: string)
    requires ',' !in a
    ensures SplitAtComma(a + "," + b) == (a, b)
    decreases |a|
  {
    var s := a + "," + b;
    if a == [] {
      assert s == [','] + b;
    } else {
      assert s[0] == a[0] && s[1..] == a[1..] + "," + b;
      assert a[0] != ',' && ',' !in a[1..];
      SplitJoined(a[1..], b);
      assert [a[0]] + a[1..] == a;
    }
  }

  /** The key can be taken apart again into the two coordinate texts. */
  lemma KeySplits(lat: real, lng: real, show: real -> string)
    requires ',' !in show(lat)
    ensures SplitAtComma(CoordKey(lat, lng, show)) == (show(lat), show(lng))
  {
    SplitJoined(show(lat), show(lng));
  }

  /** Two coordinate pairs share a key only when they are the same pair: the
      key identifies the location. */
  lemma KeyInjective(lat: real, lng: real, lat': real, lng': real, show: real -> string)
    requires CommaFree(show) && Injective(show)
    ensures CoordKey(lat, lng, show) == CoordKey(lat', lng', show) <==> lat == lat' && lng == lng'
  {
    if CoordKey(lat, lng, show) == CoordKey(lat', lng', show) {
      KeySplits(lat, lng, show);
      KeySplits(lat', lng', show);
    }
  }
}
