/**
 * `github_api`: walks the pages of a GitHub REST collection (`?per_page=100&page=1, 2, 3, ...`),
 * applies `func` to every item and gathers the results, until the first page with fewer than
 * 100 items. Status 422 ends the walk normally; any other HTTP error status, and a timeout,
 * raise `IOError` and throw away what was gathered.
 *
 * The server is a sequence of responses: `server[p - 1]` answers the request for page `p`.
 * Pages past the end of the sequence answer `200` with an empty list, as GitHub does.
 */
module Harvester {
  import opened Common

  /** The largest `per_page` the GitHub API accepts, and the page size every request asks for. */
  const PerPage: nat := 100
  /** "Unprocessable Entity": GitHub's answer to a page past the legal range of an endpoint. */
  const Unprocessable: int := 422
  const HttpErrorMessage := "Http Error"
  const TimeoutMessage := "Timeout Error"

  /** What one `requests.get` produced: a reply with a status and a decoded JSON list, or a timeout. */
  datatype Response<E> = Reply(status: int, items: seq<E>) | TimedOut

  /** Python's `IOError(message)`. */
  datatype IOError = IOError(message: string)

  /** `raise_for_status()` raises `HTTPError` for client (4xx) and server (5xx) error statuses. */
  predicate RaisesForStatus(status: int) {
    400 <= status < 600
  }

  /** The response to the request for page `page` (pages are numbered from 1). */
  function At<E>(server: seq<Response<E>>, page: nat): Response<E> {
    if 1 <= page <= |server| then server[page - 1] else Reply(200, [])
  }

  function ItemsOf<E>(r: Response<E>): seq<E> {
    if r.Reply? then r.items else []
  }

  /** A successful page holding at least a full page of items: the walk asks for the next one. */
  predicate IsFull<E>(r: Response<E>) {
    r.Reply? && !RaisesForStatus(r.status) && |r.items| >= PerPage
  }

  function MapItems<E, T>(func: E -> T, items: seq<E>): seq<T> {
    seq(|items|, i requires 0 <= i < |items| => func(items[i]))
  }

  /** The page at which a walk that has reached page `page` stops: the first page from `page` on that is not full. */
  function LastPage<E>(server: seq<Response<E>>, page: nat): (last: nat)
    requires 1 <= page
    ensures page <= last
    ensures last <= |server| + 1 || last == page
    ensures !IsFull(At(server, last))
    ensures forall p :: page <= p < last ==> IsFull(At(server, p))
    decreases if page <= |server| then |server| + 1 - page else 0
  {
    if IsFull(At(server, page)) then LastPage(server, page + 1) else page
  }

  /** `func` applied to every item of pages 1 .. upTo - 1, in page order. */
  function Gathered<E, T>(server: seq<Response<E>>, func: E -> T, upTo: nat): seq<T> {
    if upTo <= 1 then []
    else Gathered(server, func, upTo - 1) + MapItems(func, ItemsOf(At(server, upTo - 1)))
  }

  /**
   * The outcome of `github_api`: the full pages before the last page contribute all their
   * items, and the last page decides: a successful short page adds its items, 422 adds nothing,
   * any other error status or a timeout raises.
   */
  function Harvest<E, T>(server: seq<Response<E>>, func: E -> T): (r: Result<seq<T>, IOError>)
    ensures r.Failure? ==> r.error.message == TimeoutMessage || r.error.message == HttpErrorMessage
    ensures r.Success? ==> |r.value| >= PerPage * (LastPage(server, 1) - 1)
  {
    var last := LastPage(server, 1);
    var earlier := Gathered(server, func, last);
    GatheredAtLeast(server, func, last);
    match At(server, last)
    case TimedOut => Failure(IOError(TimeoutMessage))
    case Reply(status, items) =>
      if !RaisesForStatus(status) then Success(earlier + MapItems(func, items))
      else if status == Unprocessable then Success(earlier)
      else Failure(IOError(HttpErrorMessage))
  }

  /**
   * `github_api(repo, component, func, params)` against `server`. `requested` lists the page
   * numbers requested, in order.
   */
  method GitHubApi<E, T>(server: seq<Response<E>>, func: E -> T) returns (r: Result<seq<T>, IOError>, requested: seq<nat>)
    ensures r == Harvest(server, func)
    ensures |requested| == LastPage(server, 1)
    ensures forall i :: 0 <= i < |requested| ==> requested[i] == i + 1
  {
    var page := 1;
    var all: seq<T> := [];
    requested := [];
    while true
      invariant 1 <= page <= LastPage(server, 1)
      invariant all == Gathered(server, func, page)
      invariant |requested| == page - 1
      invariant forall i :: 0 <= i < |requested| ==> requested[i] == i + 1
      decreases LastPage(server, 1) - page
    {
      var response := At(server, page);
      requested := requested + [page];
      if response.TimedOut? {
        r := Failure(IOError(TimeoutMessage));
        return;
      }
      if RaisesForStatus(response.status) {
        if response.status == Unprocessable {
          break;
        }
        r := Failure(IOError(HttpErrorMessage));
        return;
      }
      var els := response.items;
      all := all + MapItems(func, els);
      if |els| < PerPage {
        break;
      }
      page := page + 1;
    }
    r := Success(all);
  }

  /** A walk whose pages `from .. n` are all full stops at page `n + 1` if that page is not full. */
  lemma {:induction false} LastPageAfterFullPages<E>(server: seq<Response<E>>, from: nat, n: nat)
    requires 1 <= from <= n + 1
    requires forall p :: from <= p <= n ==> IsFull(At(server, p))
    requires !IsFull(At(server, n + 1))
    ensures LastPage(server, from) == n + 1
    decreases n + 1 - from
  {
    if from <= n {
      LastPageAfterFullPages(server, from + 1, n);
    }
  }

  /** Every full page contributes at least `PerPage` results. */
  lemma {:induction false} GatheredAtLeast<E, T>(server: seq<Response<E>>, func: E -> T, upTo: nat)
    requires forall p :: 1 <= p < upTo ==> IsFull(At(server, p))
    ensures |Gathered(server, func, upTo)| >= if upTo <= 1 then 0 else PerPage * (upTo - 1)
  {
    if upTo > 1 {
      GatheredAtLeast(server, func, upTo - 1);
      assert IsFull(At(server, upTo - 1));
    }
  }

  /** Full pages contribute exactly `PerPage` items each. */
  lemma {:induction false} GatheredFullPages<E, T>(server: seq<Response<E>>, func: E -> T, upTo: nat)
    requires forall p :: 1 <= p < upTo ==> At(server, p).Reply? && |At(server, p).items| == PerPage
    ensures |Gathered(server, func, upTo)| == if upTo <= 1 then 0 else PerPage * (upTo - 1)
  {
    if upTo > 1 {
      GatheredFullPages(server, func, upTo - 1);
    }
  }

  /**
   * N full pages of exactly 100 items followed by a successful page of k < 100 items: the walk
   * requests pages 1 .. N + 1 (never N + 2, whatever the server would answer there) and
   * returns 100 * N + k items.
   */
  lemma {:induction false} FullPagesThenShortPage<E, T>(server: seq<Response<E>>, func: E -> T, n: nat)
    requires |server| >= n + 1
    requires forall i :: 0 <= i < n ==> server[i].Reply? && !RaisesForStatus(server[i].status) && |server[i].items| == PerPage
    requires server[n].Reply? && !RaisesForStatus(server[n].status) && |server[n].items| < PerPage
    ensures LastPage(server, 1) == n + 1
    ensures Harvest(server, func).Success?
    ensures |Harvest(server, func).value| == PerPage * n + |server[n].items|
  {
    LastPageAfterFullPages(server, 1, n);
    GatheredFullPages(server, func, n + 1);
  }

  /**
   * A 422 on page p after full pages 1 .. p - 1 ends the walk without error, keeping exactly
   * the items of the earlier pages.
   */
  lemma {:induction false} StopsOnUnprocessable<E, T>(server: seq<Response<E>>, func: E -> T, p: nat)
    requires 1 <= p
    requires forall q :: 1 <= q < p ==> IsFull(At(server, q))
    requires At(server, p).Reply? && At(server, p).status == Unprocessable
    ensures LastPage(server, 1) == p
    ensures Harvest(server, func) == Success(Gathered(server, func, p))
  {
    LastPageAfterFullPages(server, 1, p - 1);
  }

  /** 422 on the very first page: an empty result and no error. */
  lemma UnprocessableFirstPage<E, T>(server: seq<Response<E>>, func: E -> T)
    requires |server| >= 1 && server[0].Reply? && server[0].status == Unprocessable
    ensures Harvest(server, func) == Success([])
  {
    StopsOnUnprocessable(server, func, 1);
  }

  /** The page on which a walk stops: reached through full pages only, and not full itself. */
  predicate StopsAt<E>(server: seq<Response<E>>, p: nat) {
    1 <= p && !IsFull(At(server, p)) && forall q :: 1 <= q < p ==> IsFull(At(server, q))
  }

  /**
   * Error classification: the walk raises exactly when the page it stops on timed out or
   * carries an error status other than 422, and the message says which.
   */
  lemma {:induction false} HarvestFailsIff<E, T>(server: seq<Response<E>>, func: E -> T)
    ensures Harvest(server, func) == Failure(IOError(TimeoutMessage))
            <==> exists p: nat :: StopsAt(server, p) && At(server, p).TimedOut?
    ensures Harvest(server, func) == Failure(IOError(HttpErrorMessage))
            <==> exists p: nat :: StopsAt(server, p) && At(server, p).Reply?
                             && RaisesForStatus(At(server, p).status) && At(server, p).status != Unprocessable
  {
    var last := LastPage(server, 1);
    assert StopsAt(server, last);
    forall p: nat | StopsAt(server, p) ensures p == last {
      LastPageAfterFullPages(server, 1, p - 1);
    }
  }
}
