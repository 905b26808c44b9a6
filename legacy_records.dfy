/** Record-level logic of the legacy page script (legacy-code.js): the
    honorific stripping behind the sort key and the reading of one CMS card's
    `data-*` attributes into a doctor.

    `toLocaleLowerCase` and `parseFloat` are library calls whose internals are
    not modelled: they are passed in as `lower` and `parse` (`None` is NaN). */
module LegacyRecords {
  import opened Wrappers
  import opened Js

  /** A CMS doctor card. Its `data-*` attributes are strings, "" where the
      attribute is absent (every use reads `x || ""`, and `parseFloat` gives
      NaN for both). `id` is the element's identity. */
  datatype Element = Element(
    id: nat,
    nameAr: string, arabicName: string, nameArabic: string, name_ar: string,
    name: string,
    lat: string, lng: string,
    city: string, country: string,
    profile: string, clinic: string)

  /** The record `readDoctorFromEl` builds (DOM handles left out). */
  datatype Doctor = Doctor(
    elId: nat,
    name: string, nameAr: string, nameEn: string,
    sortKey: string,
    lat: real, lng: real,
    city: string, country: string,
    clinic: string, profileSlug: string)

  /** The Arabic letter dal and the Arabic word for "doctor". */
  const Dal: char := '\U{062F}'
  const ArabicDoctor: string := "\U{062F}\U{0643}\U{062A}\U{0648}\U{0631}"

  /** ASCII-only case folding: without the `u` flag, a case-insensitive
      regular expression folds no other letter onto `d`, `r`, `o`, `c` or `t`. */
  function AsciiLower(c: char): char {
    if 'A' <= c <= 'Z' then (c as int - 'A' as int + 'a' as int) as char else c
  }

  predicate CiPrefix(word: string, t: string) {
    |word| <= |t| && forall k :: 0 <= k < |word| ==> AsciiLower(t[k]) == word[k]
  }

  /** The alternatives of `(?:dr\.?|doctor|د\.?|دكتور)`, in the order the
      regular expression tries them. */
  datatype Title = Dr | DoctorWord | DalTitle | ArabicDoctorWord

  /** The alternative that matches at the start of `t`, with the length it
      consumes: the first one that matches wins, because the `\s*` after the
      group can always match the empty string. */
  function MatchTitle(t: string): (m: Option<(Title, nat)>)
    ensures m.Some? ==> 0 < m.value.1 <= |t|
  {
    if CiPrefix("dr", t) then
      Some((Dr, if |t| > 2 && t[2] == '.' then 3 else 2))
    else if CiPrefix("doctor", t) then
      Some((DoctorWord, 6))
    else if |t| >= 1 && t[0] == Dal then
      Some((DalTitle, if |t| > 1 && t[1] == '.' then 2 else 1))
    else if |t| >= 5 && t[..5] == ArabicDoctor then
      Some((ArabicDoctorWord, 5))
    else None
  }

  /** `stripDoctorPrefix`: trims, then removes at most one leading title and
      the white space after it. */
  function StripDoctorPrefix(s: string): (r: string)
  {
    var t := Trim(s);
    var m := MatchTitle(t);
    if m.None? then t else TrimStart(t[m.value.1..])
  }

  /** `toSortKey`: the lower-cased name without its title. */
  function ToSortKey(name: string, lower: string -> string): string {
    lower(StripDoctorPrefix(name))
  }

  /** What stripping does: the result is the trimmed name with nothing cut
      away when it does not start with a title. Otherwise the trimmed name
      is the first title that matches (its `n` characters), then white
      space only, then the result, which does not start with white space. */
  lemma StripCutsOneTitle(s: string)
    ensures var t := Trim(s);
      var r := StripDoctorPrefix(s);
      && (MatchTitle(t).None? ==> r == t)
      && (MatchTitle(t).Some? ==>
            var n := MatchTitle(t).value.1;
            && n + |r| <= |t|
            && (forall k :: n <= k < |t| - |r| ==> IsSpace(t[k]))
            && (r == [] || !IsSpace(r[0])))
    ensures var r := StripDoctorPrefix(s);
      |r| <= |Trim(s)| && r == Trim(s)[|Trim(s)| - |r|..]
  {
    var t := Trim(s);
    var r := StripDoctorPrefix(s);
    var m := MatchTitle(t);
    if m.None? {
      assert r == t == t[|t| - |r|..];
    } else {
      assert r == TrimStart(t[m.value.1..]);
      CutAfter(t, m.value.1);
    }
  }

  /** Trimming the start of what follows the first `n` characters leaves a
      suffix of `t`, with white space only between the two. */
  lemma CutAfter(t: string, n: nat)
    requires n <= |t|
    ensures var r := TrimStart(t[n..]);
      && n + |r| <= |t| && r == t[|t| - |r|..]
      && (forall k :: n <= k < |t| - |r| ==> IsSpace(t[k]))
  {
    CutIsSuffix(t, n);
    CutSkipsSpace(t, n);
  }

  /** The suffix half of `CutAfter`. */
  lemma CutIsSuffix(t: string, n: nat)
    requires n <= |t|
    ensures var r := TrimStart(t[n..]);
      n + |r| <= |t| && r == t[|t| - |r|..]
  {
    var u := t[n..];
    var r := TrimStart(u);
    assert r == u[|u| - |r|..];
  }

  /** The white-space half of `CutAfter`. */
  lemma CutSkipsSpace(t: string, n: nat)
    requires n <= |t|
    ensures var r := TrimStart(t[n..]);
      n + |r| <= |t| && forall k :: n <= k < |t| - |r| ==> IsSpace(t[k])
  {
    var u := t[n..];
    var r := TrimStart(u);
    forall k | n <= k < |t| - |r| ensures IsSpace(t[k]) {
      assert k - n < |u| - |r| && t[k] == u[k - n];
    }
  }

  /** The alternative `دكتور` is never the one that matches: `د\.?` is tried
      first and matches whenever `دكتور` could. */
  lemma ArabicDoctorWordNeverMatches(t: string)
    ensures MatchTitle(t).None? || MatchTitle(t).value.0 != ArabicDoctorWord
  {
    if |t| >= 5 && t[..5] == ArabicDoctor {
      assert t[0] == ArabicDoctor[0] == Dal;
    }
  }

  /** A string with no white space at either end is its own trim. */
  lemma TrimNoEdges(s: string)
    requires s == [] || (!IsSpace(s[0]) && !IsSpace(s[|s| - 1]))
    ensures Trim(s) == s
  {
    assert TrimStart(s) == s;
  }

  /** So a name written with the full Arabic title keeps all of it but its
      first letter: stripping keeps "كتور". */
  lemma ArabicTitleLosesOnlyFirstLetter(rest: string)
    requires rest == [] || (!IsSpace(rest[0]) && !IsSpace(rest[|rest| - 1]))
    ensures StripDoctorPrefix(ArabicDoctor + rest) == ArabicDoctor[1..] + rest
  {
    var t := ArabicDoctor + rest;
    assert t[0] == Dal && t[1] == '\U{0643}' && t[|t| - 1] == (if rest == [] then '\U{0631}' else rest[|rest| - 1]);
    assert !IsSpace(t[0]) && !IsSpace(t[|t| - 1]);
    TrimNoEdges(t);
    assert AsciiLower(t[0]) != 'd';
    assert !CiPrefix("dr", t) && !CiPrefix("doctor", t);
    assert MatchTitle(t) == Some((DalTitle, 1));
    assert t[1..] == ArabicDoctor[1..] + rest;
    assert !IsSpace(t[1]);
  }

  /** There is no word boundary after `dr`: "Drake" sorts as "ake". */
  lemma NoWordBoundaryAfterDr(s: string)
    requires |s| > 2 && s[0] == 'D' && s[1] == 'r' && s[2] != '.'
    requires !IsSpace(s[2]) && !IsSpace(s[|s| - 1])
    ensures StripDoctorPrefix(s) == s[2..]
  {
    TrimNoEdges(s);
    assert AsciiLower(s[0]) == 'd' && AsciiLower(s[1]) == 'r';
    assert CiPrefix("dr", s);
    assert MatchTitle(s) == Some((Dr, 2));
    assert s[2..][0] == s[2];
  }

  /** "Dr." and the one space after it are removed from a name with no
      white space at either end. */
  lemma DrDotStripped(s: string)
    requires |s| > 4 && s[0] == 'D' && s[1] == 'r' && s[2] == '.' && s[3] == ' '
    requires !IsSpace(s[4]) && !IsSpace(s[|s| - 1])
    ensures StripDoctorPrefix(s) == s[4..]
  {
    TrimNoEdges(s);
    assert AsciiLower(s[0]) == 'd' && AsciiLower(s[1]) == 'r';
    assert CiPrefix("dr", s);
    assert MatchTitle(s) == Some((Dr, 3));
    var u := s[3..];
    assert u[0] == ' ' && u[1..] == s[4..];
    assert TrimStart(u) == TrimStart(s[4..]);
  }

  /** Only one title is removed. */
  lemma OnlyOneTitle()
    ensures StripDoctorPrefix("Dr. Dr. Amina") == "Dr. Amina"
  {
    var s := "Dr. Dr. Amina";
    assert s[0] == 'D' && s[1] == 'r' && s[2] == '.' && s[3] == ' ' && s[4] == 'D';
    assert s[|s| - 1] == 'a';
    DrDotStripped(s);
    assert s[4..] == "Dr. Amina";
  }

  /** The first non-empty name among `names`, or "" when all are empty
      (`a || b || ... || ""`). */
  function FirstNonEmpty(names: seq<string>): (r: string)
    ensures r == "" <==> forall k :: 0 <= k < |names| ==> names[k] == ""
  {
    if names == [] then ""
    else if names[0] != "" then names[0]
    else FirstNonEmpty(names[1..])
  }

  /** A non-empty result is the name at the first non-empty position. */
  lemma {:induction false} FirstNonEmptyIsFirst(names: seq<string>)
    requires FirstNonEmpty(names) != ""
    ensures exists i :: 0 <= i < |names| && names[i] == FirstNonEmpty(names)
               && forall k :: 0 <= k < i ==> names[k] == ""
  {
    if names[0] == "" {
      var r := FirstNonEmpty(names[1..]);
      FirstNonEmptyIsFirst(names[1..]);
      var i :| 0 <= i < |names[1..]| && names[1..][i] == r
                && forall k :: 0 <= k < i ==> names[1..][k] == "";
      assert names[i + 1] == r;
      forall k | 0 <= k < i + 1 ensures names[k] == "" {
        if k > 0 { assert names[k] == names[1..][k - 1]; }
      }
    } else {
      assert names[0] == FirstNonEmpty(names);
    }
  }

  /** The Arabic name: the first non-empty of the four attribute spellings. */
  function ArabicName(el: Element): string {
    FirstNonEmpty([el.nameAr, el.arabicName, el.nameArabic, el.name_ar])
  }

  /** The display name: the Arabic name when there is one, else the English
      name. */
  function DisplayName(el: Element): string {
    var ar := ArabicName(el);
    if ar != "" then ar else el.name
  }

  /** `readDoctorFromEl`: `None` (the source's `null`) exactly when a
      coordinate does not parse or the trimmed city or country is empty;
      otherwise a doctor carrying the trimmed city and country, the parsed
      coordinates, the display name and its sort key. */
  function ReadDoctorFromEl(el: Element, parse: string -> Option<real>, lower: string -> string): (r: Option<Doctor>)
    ensures r.None? <==> parse(el.lat).None? || parse(el.lng).None? || Trim(el.city) == "" || Trim(el.country) == ""
    ensures r.Some? ==>
      && r.value.elId == el.id
      && r.value.city == Trim(el.city) && r.value.country == Trim(el.country)
      && r.value.city != "" && r.value.country != ""
      && Some(r.value.lat) == parse(el.lat) && Some(r.value.lng) == parse(el.lng)
      && r.value.name == DisplayName(el)
      && r.value.sortKey == ToSortKey(DisplayName(el), lower)
  {
    var nameAr := ArabicName(el);
    var nameEn := el.name;
    var displayName := if nameAr != "" then nameAr else nameEn;
    var lat := parse(el.lat);
    var lng := parse(el.lng);
    var city := Trim(el.city);
    var country := Trim(el.country);
    if lat.None? || lng.None? || city == "" || country == "" then None
    else Some(Doctor(el.id, displayName, nameAr, nameEn, ToSortKey(displayName, lower),
                     lat.value, lng.value, city, country, el.clinic, el.profile))
  }

  /** The display name is the first non-empty of the Arabic spellings, in
      the order nameAr, arabicName, nameArabic, name_ar, and only then the
      English name. */
  lemma DisplayNamePreference(el: Element)
    ensures el.nameAr != "" ==> DisplayName(el) == el.nameAr
    ensures el.nameAr == "" && el.arabicName != "" ==> DisplayName(el) == el.arabicName
    ensures el.nameAr == "" && el.arabicName == "" && el.nameArabic != "" ==> DisplayName(el) == el.nameArabic
    ensures el.nameAr == "" && el.arabicName == "" && el.nameArabic == "" ==>
              DisplayName(el) == (if el.name_ar != "" then el.name_ar else el.name)
  {
    var names := [el.nameAr, el.arabicName, el.nameArabic, el.name_ar];
    assert names[1..] == [el.arabicName, el.nameArabic, el.name_ar];
    assert names[1..][1..] == [el.nameArabic, el.name_ar];
    assert names[1..][1..][1..] == [el.name_ar];
    assert names[1..][1..][1..][1..] == [];
    assert FirstNonEmpty([el.name_ar]) == el.name_ar;
    assert FirstNonEmpty([el.nameArabic, el.name_ar])
        == if el.nameArabic != "" then el.nameArabic else el.name_ar;
    assert FirstNonEmpty([el.arabicName, el.nameArabic, el.name_ar])
        == if el.arabicName != "" then el.arabicName else FirstNonEmpty([el.nameArabic, el.name_ar]);
  }
}
