/** The Netlify function `handler` (netlify/functions/doctors.js): a GET-only
    proxy that walks every page of the Airtable listing with the server's
    API key and answers with all records, or with an error status. Status
    405 is section 15.5.6 of RFC 9110, 429 is section 4 of RFC 6585, and
    `max-age` is section 5.2.2.1 of RFC 9111. */
module Proxy {
  import opened Wrappers
  import opened Js
  import opened Doctors
  import opened Pagination

  /** The response's body: `{ error }`, or the array of records. */
  datatype Body = ErrorBody(error: string) | RecordsBody(records: seq<AirtableRecord>)

  datatype HttpResponse = HttpResponse(statusCode: nat, headers: seq<(string, string)>, body: Body)

  const AirtableErrorPrefix := "Airtable API error: "

  const SuccessHeaders: seq<(string, string)> :=
    [("Content-Type", "application/json"), ("Cache-Control", "public, max-age=300")]

  const MethodNotAllowed := HttpResponse(405, [], ErrorBody("Method not allowed"))
  const ConfigError := HttpResponse(500, [], ErrorBody("Server configuration error"))
  const RateLimited := HttpResponse(429, [], ErrorBody("Rate limited by Airtable"))
  const FetchFailed := HttpResponse(500, [], ErrorBody("Failed to fetch doctor data"))

  /** The message of the error the loop throws, or `fetch`'s own. */
  function ErrorMessage(r: Response): string
    requires !r.Ok?
  {
    match r
    case NotOk(status, statusText) => AirtableErrorPrefix + Decimal(status) + " " + statusText
    case Rejected(message) => message
  }

  /** The `catch`: 429 when the message mentions "429", 500 otherwise. */
  function CaughtResponse(message: string): (resp: HttpResponse)
    ensures resp == RateLimited || resp == FetchFailed
    ensures resp == RateLimited <==> Contains(message, "429")
  {
    if Contains(message, "429") then RateLimited else FetchFailed
  }

  /** The answer the walk's outcome leads to. */
  function WalkResponse(o: Result<seq<AirtableRecord>, Response>): HttpResponse
    requires o.Failure? ==> !o.error.Ok?
  {
    match o
    case Success(records) => HttpResponse(200, SuccessHeaders, RecordsBody(records))
    case Failure(r) => CaughtResponse(ErrorMessage(r))
  }

  /** `handler`. A method other than GET is refused before anything else,
      then a missing key, both without any upstream request; otherwise the
      `do … while (offset)` loop. `requests` are the offsets sent, in
      order. The responses must end the walk; otherwise the source keeps
      requesting forever. */
  method Handler(httpMethod: string, apiKey: Option<string>, rs: seq<Response>)
    returns (resp: HttpResponse, requests: seq<Option<string>>)
    requires httpMethod == "GET" && IsSet(apiKey) ==> Ends(rs)
    ensures httpMethod != "GET" ==> resp == MethodNotAllowed && requests == []
    ensures httpMethod == "GET" && !IsSet(apiKey) ==> resp == ConfigError && requests == []
    ensures httpMethod == "GET" && IsSet(apiKey) ==>
      && requests == Requests(rs, Stop(rs) + 1)
      && resp == WalkResponse(Outcome(rs))
  {
    requests := [];
    if httpMethod != "GET" {
      return MethodNotAllowed, requests;
    }
    if !IsSet(apiKey) {
      return ConfigError, requests;
    }
    var all: seq<AirtableRecord> := [];
    var offset: Option<string> := None;
    var k := 0;
    while true
      invariant k <= Stop(rs)
      invariant forall j :: 0 <= j < k ==> Continues(rs[j])
      invariant all == Collect(rs, k)
      invariant requests == Requests(rs, k)
      invariant k == 0 ==> offset == None
      invariant k > 0 ==> offset == rs[k - 1].page.offset
      decreases Stop(rs) - k
    {
      requests := requests + [if IsSet(offset) then offset else None];
      var response := rs[k];
      if !response.Ok? {
        return CaughtResponse(ErrorMessage(response)), requests;
      }
      all := all + response.page.records;
      offset := response.page.offset;
      k := k + 1;
      if !IsSet(offset) {
        break;
      }
    }
    resp := HttpResponse(200, SuccessHeaders, RecordsBody(all));
  }

  /** A successful walk answers 200, cacheable for 300 seconds, with every
      page's records in page order; a failed one never carries records. */
  lemma SuccessShape(rs: seq<Response>)
    requires Ends(rs)
    ensures var resp := WalkResponse(Outcome(rs));
      && (resp.statusCode == 200 <==> rs[Stop(rs)].Ok?)
      && (resp.statusCode == 200 ==>
            resp.body == RecordsBody(Collect(rs, Stop(rs) + 1))
            && ("Cache-Control", "public, max-age=300") in resp.headers)
      && (resp.statusCode != 200 ==> resp.body.ErrorBody? && (resp.statusCode == 429 || resp.statusCode == 500))
  {
    assert SuccessHeaders[1] == ("Cache-Control", "public, max-age=300");
  }

  /** Text that does not hold `t`'s first character in front of `s` adds no
      occurrence of `t`. */
  lemma {:induction false} ContainsAfterPrefix(p: string, s: string, t: string)
    requires t != [] && t[0] !in p
    ensures Contains(p + s, t) <==> Contains(s, t)
    decreases |p|
  {
    if p == [] {
      assert p + s == s;
    } else {
      assert (p + s)[1..] == p[1..] + s;
      assert (p + s)[0] == p[0];
      ContainsAfterPrefix(p[1..], s, t);
    }
  }

  /** A three-digit number's decimal text mentions "429" only when it is
      429. */
  lemma ThreeDigits429(n: nat)
    requires 100 <= n <= 999
    ensures Contains(Decimal(n), "429") <==> n == 429
  {
    var d := Decimal(n);
    assert Decimal(n / 100) == [DigitChar(n / 100)];
    assert Decimal(n / 10) == [DigitChar(n / 100), DigitChar(n / 10 % 10)];
    assert d == [DigitChar(n / 100), DigitChar(n / 10 % 10), DigitChar(n % 10)];
    assert d[1..][1..][1..] == [];
    assert !Contains(d[1..][1..][1..], "429");
    assert !IsPrefix("429", d[1..][1..]);
    assert !Contains(d[1..][1..], "429");
    assert !IsPrefix("429", d[1..]);
    assert !Contains(d[1..], "429");
    assert d[..3] == d;
    assert IsPrefix("429", d) <==> d == "429";
    if d == "429" {
      assert n / 100 == 4 && n / 10 % 10 == 2 && n % 10 == 9;
    }
  }

  /** "429" occurs in a message built as `p + d + " " + text`, with no 4 in
      `p`, only inside `d` or inside `text`. */
  lemma MentionsOnlyInParts(p: string, d: string, text: string)
    requires '4' !in p
    ensures Contains(p + d + " " + text, "429") <==> Contains(d, "429") || Contains(text, "429")
  {
    assert ' ' !in "429";
    ContainsAcrossSpace(p + d, text, "429");
    ContainsAfterPrefix(p, d, "429");
  }

  /** An Airtable status answer maps to 429 exactly when its status is 429
      or its status text mentions "429"; every other failure is a 500. */
  lemma StatusMapping(status: nat, statusText: string)
    requires 100 <= status <= 999
    ensures CaughtResponse(ErrorMessage(NotOk(status, statusText))) ==
      if status == 429 || Contains(statusText, "429") then RateLimited else FetchFailed
  {
    assert '4' !in AirtableErrorPrefix;
    MentionsOnlyInParts(AirtableErrorPrefix, Decimal(status), statusText);
    ThreeDigits429(status);
  }
}
