/** `useDoctors` (src/hooks/useDoctors.js): the Airtable records turned into
    the React pipeline's doctor records, and the hook's loading / error /
    doctors state. */
module Doctors {
  import opened Wrappers
  import opened Sequences

  /** The fields of an Airtable record the hook reads. A text field that is
      absent is "", so `x || ''` leaves every text field as it is; `Lat` and
      `Long` are kept raw for the parser; `Doctor Portrait` is the list of
      its attachments' `url`s ("" for an attachment without one, [] for an
      absent field). */
  datatype Fields = Fields(
    name: string,
    lat: string,
    long: string,
    city: string,
    country: string,
    clinic: string,
    portraitUrls: seq<string>)

  datatype AirtableRecord = AirtableRecord(id: string, fields: Fields)

  /** A normalised doctor; `null` is `None`. */
  datatype Doctor = Doctor(
    id: string,
    name: string,
    latitude: Option<real>,
    longitude: Option<real>,
    city: string,
    country: string,
    clinic: string,
    photo: Option<string>)

  /** `parseFloat(x) || null`: NaN (`None` from the parser) and 0 are both
      falsy and become `null`. */
  function OrNull(parsed: Option<real>): (r: Option<real>)
    ensures r.Some? <==> parsed.Some? && parsed.value != 0.0
    ensures r.Some? ==> r == parsed
  {
    if parsed.Some? && parsed.value != 0.0 then parsed else None
  }

  /** `record.fields['Doctor Portrait']?.[0]?.url || null`. */
  function FirstPortrait(urls: seq<string>): (r: Option<string>)
    ensures r.Some? <==> urls != [] && urls[0] != ""
    ensures r.Some? ==> r.value == urls[0]
  {
    if urls != [] && urls[0] != "" then Some(urls[0]) else None
  }

  /** The `map` step: one record to one doctor. `parse` is `parseFloat`,
      `None` standing for NaN. */
  function MapRecord(r: AirtableRecord, parse: string -> Option<real>): (d: Doctor)
    ensures d.id == r.id && d.name == r.fields.name && d.clinic == r.fields.clinic
    ensures d.city == r.fields.city && d.country == r.fields.country
    ensures d.latitude == OrNull(parse(r.fields.lat))
    ensures d.longitude == OrNull(parse(r.fields.long))
    ensures d.photo == FirstPortrait(r.fields.portraitUrls)
  {
    Doctor(r.id, r.fields.name, OrNull(parse(r.fields.lat)), OrNull(parse(r.fields.long)),
           r.fields.city, r.fields.country, r.fields.clinic, FirstPortrait(r.fields.portraitUrls))
  }

  /** A JavaScript truthiness test on a coordinate: `null` and 0 are falsy. */
  predicate CoordTruthy(x: Option<real>) {
    x.Some? && x.value != 0.0
  }

  /** The `filter` step: `doctor.latitude && doctor.longitude`. */
  predicate HasCoordinates(d: Doctor) {
    CoordTruthy(d.latitude) && CoordTruthy(d.longitude)
  }

  /** The normalised list: map, then filter. */
  function Normalize(records: seq<AirtableRecord>, parse: string -> Option<real>): seq<Doctor> {
    Filter(Map(records, r => MapRecord(r, parse)), HasCoordinates)
  }

  /** Membership: the list holds exactly the mapped records that have both
      coordinates. */
  lemma NormalizeMembers(records: seq<AirtableRecord>, parse: string -> Option<real>, d: Doctor)
    ensures d in Normalize(records, parse) <==>
      HasCoordinates(d) && exists i :: 0 <= i < |records| && d == MapRecord(records[i], parse)
  {
    var mapped := Map(records, r => MapRecord(r, parse));
    FilterMembers(mapped, HasCoordinates, d);
    if d in mapped {
      var i :| 0 <= i < |mapped| && mapped[i] == d;
      assert d == MapRecord(records[i], parse);
    }
    if exists i :: 0 <= i < |records| && d == MapRecord(records[i], parse) {
      var i :| 0 <= i < |records| && d == MapRecord(records[i], parse);
      assert mapped[i] == d;
    }
  }

  /** Record order is kept and nothing is added: the list is a
      subsequence of the mapped records, hence no longer than the input. */
  lemma NormalizeOrder(records: seq<AirtableRecord>, parse: string -> Option<real>)
    ensures IsSubseq(Normalize(records, parse), Map(records, r => MapRecord(r, parse)))
    ensures |Normalize(records, parse)| <= |records|
  {
    FilterIsSubseq(Map(records, r => MapRecord(r, parse)), HasCoordinates);
  }

  /** A doctor at latitude 0 or longitude 0 is dropped, and a record with
      usable coordinates is kept even with an empty city and country. */
  lemma ZeroDroppedEmptyPlaceKept(records: seq<AirtableRecord>, parse: string -> Option<real>, i: nat)
    requires i < |records|
    ensures parse(records[i].fields.lat) == Some(0.0) || parse(records[i].fields.long) == Some(0.0) ==>
      MapRecord(records[i], parse) !in Normalize(records, parse)
    ensures (&& parse(records[i].fields.lat).Some? && parse(records[i].fields.lat).value != 0.0
             && parse(records[i].fields.long).Some? && parse(records[i].fields.long).value != 0.0) ==>
      MapRecord(records[i], parse) in Normalize(records, parse)
  {
    NormalizeMembers(records, parse, MapRecord(records[i], parse));
  }

  /** What `fetchDoctors` settled with: the records, or the message of the
      error it threw. */
  type FetchOutcome = Result<seq<AirtableRecord>, string>

  /** The hook's three `useState` fields. */
  class DoctorsState {
    var doctors: seq<Doctor>
    var loading: bool
    /** The caught error's message; `None` is `null`. */
    var error: Option<string>

    /** The initial state: no doctors, loading, no error. */
    constructor ()
      ensures doctors == [] && loading && error == None
    {
      doctors := [];
      loading := true;
      error := None;
    }

    /** `loadDoctors`: loading on and the error cleared, then the
        normalised list on success or the error on failure (the list is
        left as it was), and loading off in both cases. */
    method LoadDoctors(outcome: FetchOutcome, parse: string -> Option<real>)
      modifies this
      ensures !loading
      ensures outcome.Success? ==> doctors == Normalize(outcome.value, parse) && error == None
      ensures outcome.Failure? ==> doctors == old(doctors) && error == Some(outcome.error)
    {
      loading := true;
      error := None;
      if outcome.Success? {
        var normalized := Normalize(outcome.value, parse);
        doctors := normalized;
      } else {
        error := Some(outcome.error);
      }
      loading := false;
    }
  }
}
