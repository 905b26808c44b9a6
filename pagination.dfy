/** The Airtable listing protocol as both `fetchDoctors` (src/utils/api.js)
    and the proxy function (netlify/functions/doctors.js) walk it: request
    pages, each answering with records and, while more remain, an `offset`
    to send with the next request. The network is an oracle: the `k`-th
    request made receives `responses[k]`. */
module Pagination {
  import opened Wrappers
  import opened Js
  import opened Doctors

  /** One page of the listing; `offset` is `None` when absent. */
  datatype Page = Page(records: seq<AirtableRecord>, offset: Option<string>)

  /** What one `fetch` yields: an ok response with its page, a response
      that is not ok (status and status text), or a rejected promise with
      its error message. */
  datatype Response =
    | Ok(page: Page)
    | NotOk(status: nat, statusText: string)
    | Rejected(message: string)

  /** The `do … while (offset)` goes round again only after an ok page
      with a truthy offset. */
  predicate Continues(r: Response) {
    r.Ok? && IsSet(r.page.offset)
  }

  /** Some response ends the walk: a last page or a failure. */
  predicate Ends(rs: seq<Response>) {
    exists k :: 0 <= k < |rs| && !Continues(rs[k])
  }

  /** The index of the first response from `i` on that ends the walk. */
  function StopFrom(rs: seq<Response>, i: nat): (k: nat)
    requires i <= |rs| && exists k :: i <= k < |rs| && !Continues(rs[k])
    ensures i <= k < |rs| && !Continues(rs[k])
    ensures forall j :: i <= j < k ==> Continues(rs[j])
    decreases |rs| - i
  {
    if !Continues(rs[i]) then i else StopFrom(rs, i + 1)
  }

  /** The number of requests made, minus one. */
  function Stop(rs: seq<Response>): (k: nat)
    requires Ends(rs)
    ensures k < |rs| && !Continues(rs[k])
    ensures forall j :: 0 <= j < k ==> Continues(rs[j])
  {
    StopFrom(rs, 0)
  }

  /** The records of the first `n` pages, concatenated in page order. */
  function Collect(rs: seq<Response>, n: nat): seq<AirtableRecord>
    requires n <= |rs| && forall j :: 0 <= j < n ==> rs[j].Ok?
  {
    if n == 0 then [] else Collect(rs, n - 1) + rs[n - 1].page.records
  }

  /** The offsets sent with the first `n` requests: none with the first,
      the previous page's offset with each later one. */
  function Requests(rs: seq<Response>, n: nat): (q: seq<Option<string>>)
    requires n <= |rs| + 1 && forall j :: 0 <= j < n - 1 ==> Continues(rs[j])
    ensures |q| == n
  {
    if n == 0 then []
    else if n == 1 then [None]
    else
      assert Continues(rs[n - 2]);
      Requests(rs, n - 1) + [rs[n - 2].page.offset]
  }

  /** The walk's outcome: every page's records when the last response is
      an ok page; otherwise the failing response, and no records. */
  function Outcome(rs: seq<Response>): Result<seq<AirtableRecord>, Response>
    requires Ends(rs)
  {
    var k := Stop(rs);
    if rs[k].Ok? then Success(Collect(rs, k + 1)) else Failure(rs[k])
  }

  /** The requests made: the first carries no offset; request `i > 0`
      carries the offset the page before it returned, which is truthy. */
  lemma {:induction false} RequestsFollowOffsets(rs: seq<Response>, n: nat, i: nat)
    requires n <= |rs| + 1 && forall j :: 0 <= j < n - 1 ==> Continues(rs[j])
    requires i < n
    ensures i == 0 ==> Requests(rs, n)[i] == None
    ensures i > 0 ==> Requests(rs, n)[i] == rs[i - 1].page.offset && IsSet(Requests(rs, n)[i])
  {
    if n > 1 && i < n - 1 {
      RequestsFollowOffsets(rs, n - 1, i);
    }
  }

  /** The number of records in the first `j` pages. */
  function Before(rs: seq<Response>, j: nat): nat
    requires j <= |rs| && forall i :: 0 <= i < j ==> rs[i].Ok?
  {
    if j == 0 then 0 else Before(rs, j - 1) + |rs[j - 1].page.records|
  }

  /** Each page is appended exactly once, in page order: page `j`'s records
      sit in the result right after those of the pages before it. */
  lemma {:induction false} CollectPlacesPages(rs: seq<Response>, n: nat, j: nat)
    requires n <= |rs| && forall i :: 0 <= i < n ==> rs[i].Ok?
    requires j < n
    ensures |Collect(rs, n)| == Before(rs, n)
    ensures Before(rs, j) + |rs[j].page.records| <= |Collect(rs, n)|
    ensures Collect(rs, n)[Before(rs, j)..Before(rs, j) + |rs[j].page.records|] == rs[j].page.records
  {
    CollectLength(rs, n);
    if j == n - 1 {
      CollectLength(rs, n - 1);
      assert Collect(rs, n)[Before(rs, j)..] == rs[j].page.records;
    } else {
      CollectPlacesPages(rs, n - 1, j);
      var c := Collect(rs, n - 1);
      assert Collect(rs, n)[..|c|] == c;
    }
  }

  lemma {:induction false} CollectLength(rs: seq<Response>, n: nat)
    requires n <= |rs| && forall i :: 0 <= i < n ==> rs[i].Ok?
    ensures |Collect(rs, n)| == Before(rs, n)
  {
    if n > 0 {
      CollectLength(rs, n - 1);
    }
  }

  /** A first page without a truthy offset is the only request. */
  lemma SinglePage(rs: seq<Response>)
    requires |rs| > 0 && rs[0].Ok? && !IsSet(rs[0].page.offset)
    ensures Ends(rs) && Stop(rs) == 0
    ensures Outcome(rs) == Success(rs[0].page.records)
    ensures Requests(rs, Stop(rs) + 1) == [None]
  {
    assert !Continues(rs[0]);
    assert Stop(rs) == 0;
    assert Collect(rs, 0) == [];
    assert Collect(rs, 1) == rs[0].page.records;
  }

  /** A failing response anywhere before the last page discards everything
      gathered: the outcome carries no records. */
  lemma FailureDiscards(rs: seq<Response>, k: nat)
    requires k < |rs| && !rs[k].Ok?
    requires forall j :: 0 <= j < k ==> Continues(rs[j])
    ensures Ends(rs) && Stop(rs) == k && Outcome(rs) == Failure(rs[k])
  {
    assert !Continues(rs[k]);
  }
}
