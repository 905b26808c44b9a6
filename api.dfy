/** `fetchDoctors` (src/utils/api.js): every page of the Airtable listing,
    or the error it throws. */
module Api {
  import opened Wrappers
  import opened Js
  import opened Doctors
  import opened Pagination

  const HttpErrorPrefix := "HTTP error! status: "

  /** The message of what `fetchDoctors` throws for a failing response:
      its own for a response that is not ok, `fetch`'s for a rejection
      (rethrown unchanged). */
  function ErrorMessage(r: Response): string
    requires !r.Ok?
  {
    match r
    case NotOk(status, _) => HttpErrorPrefix + Decimal(status)
    case Rejected(message) => message
  }

  /** The promise's settlement as the walk's outcome decides it. */
  function Settled(o: Result<seq<AirtableRecord>, Response>): FetchOutcome
    requires o.Failure? ==> !o.error.Ok?
  {
    match o
    case Success(records) => Success(records)
    case Failure(r) => Failure(ErrorMessage(r))
  }

  /** The `do … while (offset)` loop. `requests` are the offsets sent, in
      order (`None`: no `offset` parameter). The responses must end the
      walk; otherwise the source keeps requesting forever. */
  method FetchDoctors(rs: seq<Response>)
    returns (result: FetchOutcome, requests: seq<Option<string>>)
    requires Ends(rs)
    ensures requests == Requests(rs, Stop(rs) + 1)
    ensures result == Settled(Outcome(rs))
  {
    var all: seq<AirtableRecord> := [];
    var offset: Option<string> := None;
    var k := 0;
    requests := [];
    while true
      invariant k <= Stop(rs)
      invariant forall j :: 0 <= j < k ==> Continues(rs[j])
      invariant all == Collect(rs, k)
      invariant requests == Requests(rs, k)
      invariant k == 0 ==> offset == None
      invariant k > 0 ==> offset == rs[k - 1].page.offset
      decreases Stop(rs) - k
    {
      requests := requests + [if IsSet(offset) then offset else None];
      var response := rs[k];
      if !response.Ok? {
        return Failure(ErrorMessage(response)), requests;
      }
      all := all + response.page.records;
      offset := response.page.offset;
      k := k + 1;
      if !IsSet(offset) {
        break;
      }
    }
    result := Success(all);
  }

  /** A status that is not ok is reported with its number. */
  lemma NotOkMessage(rs: seq<Response>)
    requires Ends(rs) && rs[Stop(rs)].NotOk?
    ensures Settled(Outcome(rs)) == Failure(HttpErrorPrefix + Decimal(rs[Stop(rs)].status))
  {
  }

  /** What `useDoctors` ends with after `fetchDoctors` settles: the
      normalised records of every page, or the thrown message with the
      list untouched. */
  method LoadThroughApi(state: DoctorsState, rs: seq<Response>, parse: string -> Option<real>)
    requires Ends(rs)
    modifies state
    ensures !state.loading
    ensures Outcome(rs).Success? ==>
      state.doctors == Normalize(Collect(rs, Stop(rs) + 1), parse) && state.error == None
    ensures Outcome(rs).Failure? ==>
      state.doctors == old(state.doctors) && state.error == Some(ErrorMessage(rs[Stop(rs)]))
  {
    var outcome, _ := FetchDoctors(rs);
    state.LoadDoctors(outcome, parse);
  }
}
