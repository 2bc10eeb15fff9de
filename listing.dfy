/**
 * Listing the athlete's activities: the backup asks the activities endpoint
 * for pages 1, 2, 3, ... of 30 entries and concatenates them until a page
 * comes back empty or as an error object.
 *
 * The endpoint is a parameter: a function from the query a request carries
 * to the decoded JSON body of the response.
 */
module Listing {
  import opened Opt
  import opened Records

  /** Entries requested per page. */
  const PerPage := 30

  /** The query parameters of one request; `after` is absent when not sent. */
  datatype Request = Request(perPage: int, page: int, after: Option<int>)

  /** A decoded response body: a JSON list of activities, or an object carrying `message`. */
  datatype PageResponse = Items(activities: seq<Activity>) | ErrorObject(message: string)

  /** `after` is sent only when it is truthy: present and not zero. */
  function SentAfter(after: Option<int>): (sent: Option<int>)
    ensures sent.None? <==> after.None? || after.value == 0
    ensures sent.Some? ==> sent == after
  {
    if after.Some? && after.value != 0 then after else None
  }

  /** The query of request number `n`. */
  function RequestFor(n: int, after: Option<int>): Request {
    Request(PerPage, n, SentAfter(after))
  }

  /** The body ends the listing: an empty list, or an error object. */
  predicate StopsPaging(r: PageResponse) {
    r == Items([]) || r.ErrorObject?
  }

  /** The activities one page contributes (none for an error object). */
  function PageItems(r: PageResponse): seq<Activity> {
    if r.Items? then r.activities else []
  }

  /** Some page of the listing for this `after` ends it, so the loop of the backup stops. */
  ghost predicate Ends(server: Request -> PageResponse, after: Option<int>) {
    exists n :: n >= 1 && StopsPaging(server(RequestFor(n, after)))
  }

  /** The concatenation of pages 1 to `n`, in page order. */
  function Fetched(server: Request -> PageResponse, after: Option<int>, n: nat): seq<Activity> {
    if n == 0 then [] else Fetched(server, after, n - 1) + PageItems(server(RequestFor(n, after)))
  }

  /** Page `n` is the first page that ends the listing. */
  predicate FirstStop(server: Request -> PageResponse, after: Option<int>, n: nat) {
    && n >= 1
    && StopsPaging(server(RequestFor(n, after)))
    && forall j :: 1 <= j < n ==> !StopsPaging(server(RequestFor(j, after)))
  }

  /**
   * `get_activities`: sends requests for pages 1, 2, ... and collects the
   * entries until a page ends the listing. The endpoint must end the listing
   * at some page; otherwise the loop of the backup never stops.
   */
  method GetActivities(server: Request -> PageResponse, after: Option<int>)
    returns (activities: seq<Activity>, requests: seq<Request>)
    requires Ends(server, after)
    ensures |requests| >= 1 && FirstStop(server, after, |requests|)
    ensures forall i :: 0 <= i < |requests| ==> requests[i] == RequestFor(i + 1, after)
    ensures activities == Fetched(server, after, |requests| - 1)
  {
    ghost var stop :| stop >= 1 && StopsPaging(server(RequestFor(stop, after)));
    activities := [];
    requests := [];
    var page := 1;
    while true
      invariant 1 <= page <= stop
      invariant |requests| == page - 1
      invariant forall i :: 0 <= i < |requests| ==> requests[i] == RequestFor(i + 1, after)
      invariant forall j :: 1 <= j < page ==> !StopsPaging(server(RequestFor(j, after)))
      invariant activities == Fetched(server, after, page - 1)
      decreases stop - page
    {
      var request := Request(PerPage, page, None);
      if after.Some? && after.value != 0 {
        request := request.(after := after);
      }
      requests := requests + [request];
      var data := server(request);
      if data == Items([]) {
        return;
      }
      if data.ErrorObject? {
        return;
      }
      activities := activities + data.activities;
      page := page + 1;
    }
  }

  // ---------------------------------------------------------------------------
  // Properties of the listing

  /** When the very first page ends the listing, exactly one request is sent and nothing is collected. */
  lemma EmptyFirstPage(server: Request -> PageResponse, after: Option<int>, n: nat)
    requires StopsPaging(server(RequestFor(1, after)))
    requires FirstStop(server, after, n)
    ensures n == 1 && Fetched(server, after, n - 1) == []
  {
  }

  /** The first stop page is unique, so the number of requests is determined by the endpoint. */
  lemma FirstStopUnique(server: Request -> PageResponse, after: Option<int>, n: nat, k: nat)
    requires FirstStop(server, after, n) && FirstStop(server, after, k)
    ensures n == k
  {
  }

  /** Collecting fewer pages gives a prefix of collecting more. */
  lemma {:induction false} FetchedPrefix(server: Request -> PageResponse, after: Option<int>, m: nat, n: nat)
    requires m <= n
    ensures |Fetched(server, after, m)| <= |Fetched(server, after, n)|
    ensures Fetched(server, after, n)[..|Fetched(server, after, m)|] == Fetched(server, after, m)
    decreases n - m
  {
    if m < n {
      FetchedPrefix(server, after, m, n - 1);
      var prev := Fetched(server, after, n - 1);
      assert Fetched(server, after, n)[..|prev|] == prev;
    }
  }

  /** The entries of page `j` sit, unchanged and in order, right after those of pages 1 to `j - 1`. */
  lemma PageInPlace(server: Request -> PageResponse, after: Option<int>, j: nat, n: nat)
    requires 1 <= j <= n
    ensures var lo, hi := |Fetched(server, after, j - 1)|, |Fetched(server, after, j)|;
      && lo <= hi <= |Fetched(server, after, n)|
      && Fetched(server, after, n)[lo..hi] == PageItems(server(RequestFor(j, after)))
  {
    FetchedPrefix(server, after, j, n);
    var whole, upTo := Fetched(server, after, n), Fetched(server, after, j);
    var lo := |Fetched(server, after, j - 1)|;
    assert whole[lo..|upTo|] == upTo[lo..];
  }

  /** Pages 1 to `k` holding 30 entries each give exactly `30 * k` activities. */
  lemma {:induction false} FullPagesCount(server: Request -> PageResponse, after: Option<int>, k: nat)
    requires forall j :: 1 <= j <= k ==> |PageItems(server(RequestFor(j, after)))| == PerPage
    ensures |Fetched(server, after, k)| == PerPage * k
  {
    if k > 0 {
      FullPagesCount(server, after, k - 1);
    }
  }
}
