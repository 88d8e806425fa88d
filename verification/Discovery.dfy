/** Bounded discovery of one location: every route's pages in order, stopping
    early when a route is exhausted, when a page fails, or when the site refuses
    for good. The server is arbitrary. */
module Discovery {
  import opened Common
  import opened Text
  import opened Retry

  const MAX_DISCOVERY_PAGES := 20
  const MAX_ROUTES := 16

  datatype Listing = Listing(id: string, url: string, address: string, rest: string)

  datatype PageResult = PageResult(listings: seq<Listing>, totalPages: int, totalResults: int)

  // `filtersOk` is the verdict of validating the filters.
  datatype Route = Route(name: string, maxPages: int, filtersOk: bool)

  datatype Options = Options(routes: seq<Route>, maxPages: int, pageDelay: int, retries: int, backoff: Duration)

  datatype OptionsError = BadMaxPages | BadPageDelay | BadRetries | BadBackoff | TooManyRoutes | EmptyName
    | DuplicateName | BadRoutePages | BadFilters

  datatype Result<+T> = Ok(value: T) | Err(error: OptionsError)

  datatype Issue = Issue(route: string, page: nat, error: Error)

  datatype Coverage = Coverage(route: string, pagesFetched: nat, totalPages: int, totalResults: int,
                               uniqueListings: nat, complete: bool)

  // ----- Options -----

  function PagesOf(o: Options): int {
    if o.maxPages == 0 then 1 else o.maxPages
  }

  function RoutesOf(o: Options): seq<Route> {
    if o.routes == [] then [Route("default", 0, true)] else o.routes
  }

  function Trimmed(r: Route): Route {
    r.(name := TrimSpace(r.name))
  }

  function CheckRoutes(routes: seq<Route>, seen: set<string>, maxPages: int): Option<OptionsError> {
    if routes == [] then None
    else
      var r := Trimmed(routes[0]);
      if r.name == "" then Some(EmptyName)
      else if r.name in seen then Some(DuplicateName)
      else if r.maxPages < 0 || r.maxPages > maxPages then Some(BadRoutePages)
      else if !r.filtersOk then Some(BadFilters)
      else CheckRoutes(routes[1..], seen + {r.name}, maxPages)
  }

  function TrimmedAll(routes: seq<Route>): (r: seq<Route>)
    ensures |r| == |routes|
  {
    seq(|routes|, i requires 0 <= i < |routes| => Trimmed(routes[i]))
  }

  // The page limit and the routes to run, with trimmed names.
  function Validate(o: Options): Result<(int, seq<Route>)> {
    var maxPages, routes := PagesOf(o), RoutesOf(o);
    if maxPages < 1 || maxPages > MAX_DISCOVERY_PAGES then Err(BadMaxPages)
    else if o.pageDelay < 0 then Err(BadPageDelay)
    else if o.retries < 0 then Err(BadRetries)
    else if o.backoff < 0 then Err(BadBackoff)
    else if |routes| > MAX_ROUTES then Err(TooManyRoutes)
    else
      match CheckRoutes(routes, {}, maxPages)
      case Some(error) => Err(error)
      case None => Ok((maxPages, TrimmedAll(routes)))
  }

  lemma {:induction false} CheckedRoutes(routes: seq<Route>, seen: set<string>, maxPages: int)
    requires CheckRoutes(routes, seen, maxPages).None?
    ensures forall i {:trigger routes[i]} :: 0 <= i < |routes| ==>
              0 <= routes[i].maxPages <= maxPages && TrimSpace(routes[i].name) != ""
                && TrimSpace(routes[i].name) !in seen
    ensures forall i, j :: 0 <= i < j < |routes| ==> TrimSpace(routes[i].name) != TrimSpace(routes[j].name)
  {
    if routes != [] {
      CheckedRoutes(routes[1..], seen + {TrimSpace(routes[0].name)}, maxPages);
      assert forall i :: 0 < i < |routes| ==> routes[i] == routes[1..][i - 1];
    }
  }

  // What is wrong with route i: its name, which none before it may have, its
  // page limit, or its filters.
  ghost function RouteError(routes: seq<Route>, i: nat, maxPages: int): Option<OptionsError>
    requires i < |routes|
  {
    if TrimSpace(routes[i].name) == "" then Some(EmptyName)
    else if exists j :: 0 <= j < i && TrimSpace(routes[j].name) == TrimSpace(routes[i].name) then Some(DuplicateName)
    else if !(0 <= routes[i].maxPages <= maxPages) then Some(BadRoutePages)
    else if !routes[i].filtersOk then Some(BadFilters)
    else None
  }

  // The error is that of the first route that has one.
  ghost predicate FirstError(routes: seq<Route>, n: nat, maxPages: int, error: Option<OptionsError>) {
    match error
    case None => NoError(routes, n, |routes|, maxPages)
    case Some(_) => exists i :: n <= i < |routes| && ErrorAt(routes, n, i, maxPages, error)
  }

  ghost predicate NoError(routes: seq<Route>, n: nat, m: nat, maxPages: int)
    requires m <= |routes|
  {
    forall i {:trigger RouteError(routes, i, maxPages)} :: n <= i < m ==> RouteError(routes, i, maxPages).None?
  }

  ghost predicate ErrorAt(routes: seq<Route>, n: nat, i: nat, maxPages: int, error: Option<OptionsError>)
    requires i < |routes|
  {
    RouteError(routes, i, maxPages) == error && NoError(routes, n, i, maxPages)
  }

  lemma {:induction false} CheckFinds(routes: seq<Route>, n: nat, seen: set<string>, maxPages: int)
    requires n <= |routes| && seen == set j | 0 <= j < n :: TrimSpace(routes[j].name)
    ensures FirstError(routes, n, maxPages, CheckRoutes(routes[n..], seen, maxPages))
    decreases |routes| - n
  {
    if n < |routes| {
      var name := TrimSpace(routes[n].name);
      assert routes[n..][0] == routes[n] && routes[n..][1..] == routes[n + 1..];
      assert name in seen <==> exists j :: 0 <= j < n && TrimSpace(routes[j].name) == name;
      assert CheckRoutes(routes[n..], seen, maxPages)
          == if RouteError(routes, n, maxPages).Some? then RouteError(routes, n, maxPages)
             else CheckRoutes(routes[n + 1..], seen + {name}, maxPages);
      if RouteError(routes, n, maxPages).None? { CheckFinds(routes, n + 1, seen + {name}, maxPages); }
      FirstErrorFrom(routes, n, maxPages, CheckRoutes(routes[n..], seen, maxPages));
    }
  }

  lemma FirstErrorFrom(routes: seq<Route>, n: nat, maxPages: int, error: Option<OptionsError>)
    requires n < |routes|
    requires var here := RouteError(routes, n, maxPages);
             if here.Some? then error == here else FirstError(routes, n + 1, maxPages, error)
    ensures FirstError(routes, n, maxPages, error)
  {
    if RouteError(routes, n, maxPages).Some? {
      assert ErrorAt(routes, n, n, maxPages, error);
    } else if error.Some? {
      var i :| n + 1 <= i < |routes| && ErrorAt(routes, n + 1, i, maxPages, error);
      assert ErrorAt(routes, n, i, maxPages, error);
    }
  }

  // The options are refused for the first reason that applies, and accepted if
  // none does: then with one page and one route where none are given.
  lemma OptionsLaw(o: Options)
    ensures var maxPages := if o.maxPages == 0 then 1 else o.maxPages;
            var routes := if o.routes == [] then [Route("default", 0, true)] else o.routes;
            if !(1 <= maxPages <= 20) then Validate(o) == Err(BadMaxPages)
            else if o.pageDelay < 0 then Validate(o) == Err(BadPageDelay)
            else if o.retries < 0 then Validate(o) == Err(BadRetries)
            else if o.backoff < 0 then Validate(o) == Err(BadBackoff)
            else if |routes| > 16 then Validate(o) == Err(TooManyRoutes)
            else
              match Validate(o)
              case Err(error) => FirstError(routes, 0, maxPages, Some(error))
              case Ok((limit, trimmed)) =>
                && FirstError(routes, 0, maxPages, None) && limit == maxPages && |trimmed| == |routes|
                && forall i {:trigger trimmed[i]} :: 0 <= i < |routes| ==>
                     trimmed[i] == routes[i].(name := TrimSpace(routes[i].name))
  {
    var routes := RoutesOf(o);
    assert routes[0..] == routes;
    CheckFinds(routes, 0, {}, PagesOf(o));
  }

  // How many pages of a route are fetched at most.
  function Cap(r: Route, maxPages: int): int {
    if r.maxPages > 0 then r.maxPages else maxPages
  }

  function Caps(routes: seq<Route>, maxPages: int): int {
    if routes == [] then 0 else Cap(routes[0], maxPages) + Caps(routes[1..], maxPages)
  }

  // ----- Keys -----

  // A listing without ID, URL or address is known by its place.
  function Key(l: Listing, place: string, lower: string -> string): string {
    if TrimSpace(l.id) != "" then "id:" + TrimSpace(l.id)
    else if TrimSpace(l.url) != "" then "url:" + TrimSpace(l.url)
    else if TrimSpace(l.address) != "" then "address:" + lower(TrimSpace(l.address))
    else place
  }

  function Place(route: string, page: nat, index: nat): string {
    route + ":" + Decimal(page) + ":" + Decimal(index)
  }

  datatype Item = Item(key: string, listing: Listing)

  function ItemsOfPage(route: string, page: nat, listings: seq<Listing>, lower: string -> string): (r: seq<Item>)
    ensures |r| == |listings|
  {
    if listings == [] then []
    else
      var n := |listings| - 1;
      ItemsOfPage(route, page, listings[..n], lower)
        + [Item(Key(listings[n], Place(route, page, n), lower), listings[n])]
  }

  function KeysOf(items: seq<Item>): set<string> {
    if items == [] then {} else KeysOf(items[..|items| - 1]) + {items[|items| - 1].key}
  }

  // The items whose key does not occur before them.
  function FirstOccurrences(items: seq<Item>): seq<Item> {
    if items == [] then []
    else
      var n := |items| - 1;
      FirstOccurrences(items[..n]) + (if items[n].key in KeysOf(items[..n]) then [] else [items[n]])
  }

  function ListingsOf(items: seq<Item>): (r: seq<Listing>)
    ensures |r| == |items|
  {
    seq(|items|, i requires 0 <= i < |items| => items[i].listing)
  }

  // ----- One route -----

  datatype Fetched = Fetched(page: nat, result: PageResult)

  // How a route ended: exhausted, out of pages, a page refused, or the caller gone.
  datatype End = Exhausted | OutOfPages | Failed(page: nat, error: Error) | Aborted

  // `attempts` and `requests` are the totals of the run so far; `pauses` counts
  // the pauses that this route has waited for, or begun to.
  datatype RouteRun = RouteRun(pages: seq<Fetched>, end: End, attempts: nat, requests: nat, pauses: nat)

  // `pageCancelled(r)` is whether the caller gives up in the pause before request r.
  datatype World = World(bootstrap: Server<string>, server: Server<PageResult>, pageCancelled: nat -> bool,
                         lower: string -> string)

  function ItemsOf(route: string, pages: seq<Fetched>, lower: string -> string): seq<Item> {
    if pages == [] then []
    else
      var n := |pages| - 1;
      ItemsOf(route, pages[..n], lower) + ItemsOfPage(route, pages[n].page, pages[n].result.listings, lower)
  }

  // Whether the page fetched after `before` shows the route to be exhausted.
  predicate Exhausts(route: string, before: seq<Fetched>, f: Fetched, lower: string -> string) {
    || (f.result.totalPages > 0 && f.page >= f.result.totalPages)
    || f.result.listings == []
    || (f.result.totalPages <= 0
        && KeysOf(ItemsOfPage(route, f.page, f.result.listings, lower)) <= KeysOf(ItemsOf(route, before, lower)))
  }

  // The pauses before a request that follows this many others.
  function PauseBefore(requests: nat, pageDelay: int): nat {
    if requests > 0 && pageDelay > 0 then 1 else 0
  }

  function Waited(pauses: nat, run: RouteRun): RouteRun {
    run.(pauses := run.pauses + pauses)
  }

  function RunRoute(w: World, p: Policy, pageDelay: int, route: Route, cap: int, pages: seq<Fetched>, attempts: nat,
                    requests: nat): RouteRun
    decreases cap - |pages|
  {
    var page, wait := |pages| + 1, PauseBefore(requests, pageDelay);
    if page > cap then RouteRun(pages, OutOfPages, attempts, requests, 0)
    else if wait > 0 && w.pageCancelled(requests) then RouteRun(pages, Aborted, attempts, requests, wait)
    else
      var (answer, next) := Request(w.server, p, attempts, 0);
      match answer
      case Refused(error) => RouteRun(pages, Failed(page, error), next, requests + 1, wait)
      case Granted(result) =>
        var f := Fetched(page, result);
        if Exhausts(route.name, pages, f, w.lower) then RouteRun(pages + [f], Exhausted, next, requests + 1, wait)
        else Waited(wait, RunRoute(w, p, pageDelay, route, cap, pages + [f], next, requests + 1))
  }

  // Pages are numbered from 1 without gaps.
  predicate Numbered(pages: seq<Fetched>) {
    forall i {:trigger pages[i]} :: 0 <= i < |pages| ==> pages[i].page == i + 1
  }

  lemma {:induction false} PagesNumbered(w: World, p: Policy, pageDelay: int, route: Route, cap: int,
                                         pages: seq<Fetched>, attempts: nat, requests: nat)
    requires Numbered(pages)
    ensures Numbered(RunRoute(w, p, pageDelay, route, cap, pages, attempts, requests).pages)
    decreases cap - |pages|
  {
    var (answer, next) := Request(w.server, p, attempts, 0);
    if |pages| < cap && answer.Granted? {
      var f := Fetched(|pages| + 1, answer.value);
      assert Numbered(pages + [f]);
      if !Exhausts(route.name, pages, f, w.lower) {
        PagesNumbered(w, p, pageDelay, route, cap, pages + [f], next, requests + 1);
      }
    }
  }

  // Pages 1..k, k within the cap; one request for each, and one for the page
  // that failed, if one did.
  lemma {:induction false} RouteWithinCap(w: World, p: Policy, pageDelay: int, route: Route, cap: int,
                                          pages: seq<Fetched>, attempts: nat, requests: nat)
    requires Numbered(pages) && |pages| <= cap
    ensures var run := RunRoute(w, p, pageDelay, route, cap, pages, attempts, requests);
            && Numbered(run.pages) && |pages| <= |run.pages| <= cap
            && run.requests - requests == |run.pages| - |pages| + (if run.end.Failed? then 1 else 0)
            && (run.end.Failed? ==> run.end.page == |run.pages| + 1 <= cap)
            && (run.end.OutOfPages? ==> |run.pages| == cap) && (run.end.Aborted? ==> |run.pages| < cap)
  {
    PagesNumbered(w, p, pageDelay, route, cap, pages, attempts, requests);
    PagesCounted(w, p, pageDelay, route, cap, pages, attempts, requests);
  }

  lemma {:induction false} PagesCounted(w: World, p: Policy, pageDelay: int, route: Route, cap: int,
                                        pages: seq<Fetched>, attempts: nat, requests: nat)
    requires |pages| <= cap
    ensures var run := RunRoute(w, p, pageDelay, route, cap, pages, attempts, requests);
            && |pages| <= |run.pages| <= cap
            && run.requests - requests == |run.pages| - |pages| + (if run.end.Failed? then 1 else 0)
            && (run.end.Failed? ==> run.end.page == |run.pages| + 1 <= cap)
            && (run.end.OutOfPages? ==> |run.pages| == cap) && (run.end.Aborted? ==> |run.pages| < cap)
    decreases cap - |pages|
  {
    var (answer, next) := Request(w.server, p, attempts, 0);
    if |pages| < cap && answer.Granted? {
      var f := Fetched(|pages| + 1, answer.value);
      if !Exhausts(route.name, pages, f, w.lower) {
        PagesCounted(w, p, pageDelay, route, cap, pages + [f], next, requests + 1);
      }
    }
  }

  // So many attempts for so many requests: one each at least, k at most.
  predicate Tries(attempts: int, requests: int, k: nat) {
    0 <= requests <= attempts <= k * requests
  }

  lemma TriesAdd(k: nat, more: int, others: int, attempts: int)
    requires Tries(attempts, others, k) && 1 <= more <= k
    ensures Tries(attempts + more, others + 1, k)
  {
    assert k * (others + 1) == k * others + k;
  }

  // Each request takes between one attempt and one more than the retries.
  lemma {:induction false} AttemptsBounded(w: World, p: Policy, k: nat, pageDelay: int, route: Route, cap: int,
                                           pages: seq<Fetched>, attempts: nat, requests: nat)
    requires k == p.retries + 1
    ensures var run := RunRoute(w, p, pageDelay, route, cap, pages, attempts, requests);
            Tries(run.attempts - attempts, run.requests - requests, k)
    decreases cap - |pages|
  {
    var page, run := |pages| + 1, RunRoute(w, p, pageDelay, route, cap, pages, attempts, requests);
    assert Tries(0, 0, k) by { assert k * 0 == 0; }
    if page <= cap && !(PauseBefore(requests, pageDelay) > 0 && w.pageCancelled(requests)) {
      var (answer, next) := Request(w.server, p, attempts, 0);
      var rest := RouteRun(pages, run.end, next, requests + 1, 0);
      if answer.Granted? && !Exhausts(route.name, pages, Fetched(page, answer.value), w.lower) {
        var more := pages + [Fetched(page, answer.value)];
        AttemptsBounded(w, p, k, pageDelay, route, cap, more, next, requests + 1);
        rest := RunRoute(w, p, pageDelay, route, cap, more, next, requests + 1);
      }
      assert run.attempts == rest.attempts && run.requests == rest.requests;
      TriesAdd(k, next - attempts, rest.requests - (requests + 1), rest.attempts - next);
    }
  }

  // How many pauses come between this many requests.
  function PausesBetween(requests: int, pageDelay: int): nat {
    if pageDelay > 0 then Max(requests - 1, 0) else 0
  }

  // A route pauses once before each of its requests but the first of the run,
  // and once more if the caller gave up in a pause.
  lemma {:induction false} RoutePauses(w: World, p: Policy, pageDelay: int, route: Route, cap: int, pages: seq<Fetched>,
                                       attempts: nat, requests: nat)
    ensures var run := RunRoute(w, p, pageDelay, route, cap, pages, attempts, requests);
            && run.requests >= requests && (run.end.Aborted? ==> run.requests > 0 && pageDelay > 0)
            && run.pauses + PausesBetween(requests, pageDelay)
               == PausesBetween(run.requests, pageDelay) + (if run.end.Aborted? then 1 else 0)
    decreases cap - |pages|
  {
    var (answer, next) := Request(w.server, p, attempts, 0);
    if |pages| < cap && answer.Granted? {
      var f := Fetched(|pages| + 1, answer.value);
      if !Exhausts(route.name, pages, f, w.lower) {
        RoutePauses(w, p, pageDelay, route, cap, pages + [f], next, requests + 1);
      }
    }
  }

  // ----- All routes -----

  // A refusal that retrying did not cure ends the discovery, as does the caller.
  predicate StopsRun(run: RouteRun) {
    run.end.Aborted? || (run.end.Failed? && Retryable(run.end.error))
  }

  function RunRoutes(w: World, p: Policy, pageDelay: int, maxPages: int, routes: seq<Route>, attempts: nat,
                     requests: nat): seq<RouteRun>
  {
    if routes == [] then []
    else
      var run := RunRoute(w, p, pageDelay, routes[0], Cap(routes[0], maxPages), [], attempts, requests);
      [run] + if StopsRun(run) then []
        else RunRoutes(w, p, pageDelay, maxPages, routes[1..], run.attempts, run.requests)
  }

  function RequestsOf(runs: seq<RouteRun>, before: nat): nat {
    if runs == [] then before else runs[|runs| - 1].requests
  }

  function AttemptsOf(runs: seq<RouteRun>, before: nat): nat {
    if runs == [] then before else runs[|runs| - 1].attempts
  }

  function PausesOf(runs: seq<RouteRun>): nat {
    if runs == [] then 0 else PausesOf(runs[..|runs| - 1]) + runs[|runs| - 1].pauses
  }

  // The caller gave up in a pause.
  predicate GivenUp(runs: seq<RouteRun>) {
    runs != [] && runs[|runs| - 1].end.Aborted?
  }

  // The routes run are a prefix of the routes given; the rest are left out
  // only after the last one stopped the run.
  lemma {:induction false} RoutesArePrefix(w: World, p: Policy, pageDelay: int, maxPages: int, routes: seq<Route>,
                                           attempts: nat, requests: nat)
    ensures var runs := RunRoutes(w, p, pageDelay, maxPages, routes, attempts, requests);
            && |runs| <= |routes| && (routes != [] ==> runs != [])
            && (forall i {:trigger runs[i]} :: 0 <= i < |runs| - 1 ==> !StopsRun(runs[i]))
            && (|runs| < |routes| ==> StopsRun(runs[|runs| - 1]))
  {
    if routes != [] {
      var run := RunRoute(w, p, pageDelay, routes[0], Cap(routes[0], maxPages), [], attempts, requests);
      if !StopsRun(run) {
        RoutesArePrefix(w, p, pageDelay, maxPages, routes[1..], run.attempts, run.requests);
        var rest := RunRoutes(w, p, pageDelay, maxPages, routes[1..], run.attempts, run.requests);
        assert forall i :: 0 < i < |rest| + 1 ==> ([run] + rest)[i] == rest[i - 1];
      }
    }
  }

  // Each route fetches pages 1..k with k within its own cap.
  lemma {:induction false} EachRouteWithinCap(w: World, p: Policy, pageDelay: int, maxPages: int, routes: seq<Route>,
                                              attempts: nat, requests: nat, i: nat)
    requires maxPages >= 0
    requires i < |RunRoutes(w, p, pageDelay, maxPages, routes, attempts, requests)|
    ensures var run := RunRoutes(w, p, pageDelay, maxPages, routes, attempts, requests)[i];
            && i < |routes|
            && var cap := if routes[i].maxPages > 0 then routes[i].maxPages else maxPages;
               && Numbered(run.pages) && |run.pages| <= cap
               && (run.end.Failed? ==> run.end.page == |run.pages| + 1 <= cap)
               && (run.end.OutOfPages? ==> |run.pages| == cap)
  {
    RouteWithinCap(w, p, pageDelay, routes[0], Cap(routes[0], maxPages), [], attempts, requests);
    if i > 0 {
      var run := RunRoute(w, p, pageDelay, routes[0], Cap(routes[0], maxPages), [], attempts, requests);
      EachRouteWithinCap(w, p, pageDelay, maxPages, routes[1..], run.attempts, run.requests, i - 1);
    }
  }

  // All requests together stay within the sum of the caps, and so does one
  // more if the caller gave up before making it.
  lemma {:induction false} RequestsWithinCaps(w: World, p: Policy, pageDelay: int, maxPages: int, routes: seq<Route>,
                                              attempts: nat, requests: nat)
    requires maxPages >= 0
    ensures var runs := RunRoutes(w, p, pageDelay, maxPages, routes, attempts, requests);
            0 <= RequestsOf(runs, requests) - requests + (if GivenUp(runs) then 1 else 0) <= Caps(routes, maxPages)
  {
    if routes != [] {
      var cap := Cap(routes[0], maxPages);
      var run := RunRoute(w, p, pageDelay, routes[0], cap, [], attempts, requests);
      var rest := if StopsRun(run) then []
        else RunRoutes(w, p, pageDelay, maxPages, routes[1..], run.attempts, run.requests);
      RouteWithinCap(w, p, pageDelay, routes[0], cap, [], attempts, requests);
      CapsNotNegative(routes[1..], maxPages);
      if !StopsRun(run) { RequestsWithinCaps(w, p, pageDelay, maxPages, routes[1..], run.attempts, run.requests); }
      assert RunRoutes(w, p, pageDelay, maxPages, routes, attempts, requests) == [run] + rest;
      TotalsOfRest(run, rest, requests);
    }
  }

  // All pauses together: one between every two requests, and one more if the
  // caller gave up in it.
  lemma {:induction false} PausesCounted(w: World, p: Policy, pageDelay: int, maxPages: int, routes: seq<Route>,
                                         attempts: nat, requests: nat)
    ensures var runs := RunRoutes(w, p, pageDelay, maxPages, routes, attempts, requests);
            var made := RequestsOf(runs, requests);
            && made >= requests && (GivenUp(runs) ==> made > 0 && pageDelay > 0)
            && PausesOf(runs) + PausesBetween(requests, pageDelay)
               == PausesBetween(made, pageDelay) + (if GivenUp(runs) then 1 else 0)
  {
    if routes != [] {
      var run := RunRoute(w, p, pageDelay, routes[0], Cap(routes[0], maxPages), [], attempts, requests);
      var rest := if StopsRun(run) then []
        else RunRoutes(w, p, pageDelay, maxPages, routes[1..], run.attempts, run.requests);
      RoutePauses(w, p, pageDelay, routes[0], Cap(routes[0], maxPages), [], attempts, requests);
      if !StopsRun(run) { PausesCounted(w, p, pageDelay, maxPages, routes[1..], run.attempts, run.requests); }
      assert RunRoutes(w, p, pageDelay, maxPages, routes, attempts, requests) == [run] + rest;
      TotalsOfRest(run, rest, requests);
      PausesOfRest(run, rest);
    }
  }

  lemma {:induction false} PausesOfRest(run: RouteRun, rest: seq<RouteRun>)
    ensures PausesOf([run] + rest) == run.pauses + PausesOf(rest)
  {
    if rest == [] {
      assert [run] + rest == [run] && [run][..0] == [];
    } else {
      assert ([run] + rest)[..|rest|] == [run] + rest[..|rest| - 1];
      PausesOfRest(run, rest[..|rest| - 1]);
    }
  }

  lemma TotalsOfRest(run: RouteRun, rest: seq<RouteRun>, before: nat)
    ensures RequestsOf([run] + rest, before) == RequestsOf(rest, run.requests)
    ensures AttemptsOf([run] + rest, before) == AttemptsOf(rest, run.attempts)
    ensures GivenUp([run] + rest) == if rest == [] then run.end.Aborted? else GivenUp(rest)
  {
    if rest != [] { assert ([run] + rest)[|rest|] == rest[|rest| - 1]; }
  }

  // Each request takes between one attempt and one more than the retries.
  ghost predicate AttemptsFit(k: nat, runs: seq<RouteRun>, attempts: nat, requests: nat) {
    var made := RequestsOf(runs, requests) - requests;
    made <= AttemptsOf(runs, attempts) - attempts <= k * made
  }

  lemma {:induction false} AllAttemptsBounded(w: World, p: Policy, k: nat, pageDelay: int, maxPages: int,
                                              routes: seq<Route>, attempts: nat, requests: nat)
    requires k == p.retries + 1
    ensures AttemptsFit(k, RunRoutes(w, p, pageDelay, maxPages, routes, attempts, requests), attempts, requests)
  {
    assert AttemptsFit(k, [], attempts, requests) by { assert k * 0 == 0; }
    if routes != [] {
      var run := RunRoute(w, p, pageDelay, routes[0], Cap(routes[0], maxPages), [], attempts, requests);
      var rest := if StopsRun(run) then []
        else RunRoutes(w, p, pageDelay, maxPages, routes[1..], run.attempts, run.requests);
      AttemptsBounded(w, p, k, pageDelay, routes[0], Cap(routes[0], maxPages), [], attempts, requests);
      if !StopsRun(run) { AllAttemptsBounded(w, p, k, pageDelay, maxPages, routes[1..], run.attempts, run.requests); }
      assert RunRoutes(w, p, pageDelay, maxPages, routes, attempts, requests) == [run] + rest;
      AttemptsAdd(k, run, rest, attempts, requests);
    }
  }

  lemma AttemptsAdd(k: nat, run: RouteRun, rest: seq<RouteRun>, attempts: nat, requests: nat)
    requires Tries(run.attempts - attempts, run.requests - requests, k)
    requires rest == [] || AttemptsFit(k, rest, run.attempts, run.requests)
    ensures AttemptsFit(k, [run] + rest, attempts, requests)
  {
    TotalsOfRest(run, rest, requests);
    TotalsOfRest(run, rest, attempts);
    assert k * 0 == 0;
    BoundsAdd(k, run.requests - requests, run.attempts - attempts,
              RequestsOf(rest, run.requests) - run.requests, AttemptsOf(rest, run.attempts) - run.attempts);
  }

  lemma BoundsAdd(k: int, a: int, x: int, b: int, y: int)
    requires a <= x <= k * a && b <= y <= k * b
    ensures a + b <= x + y <= k * (a + b)
  {
    assert k * (a + b) == k * a + k * b;
  }

  lemma {:induction false} CapsNotNegative(routes: seq<Route>, maxPages: int)
    requires maxPages >= 0
    ensures Caps(routes, maxPages) >= 0
  {
    if routes != [] { CapsNotNegative(routes[1..], maxPages); }
  }

  // ----- The result -----

  function AllItems(routes: seq<Route>, runs: seq<RouteRun>, lower: string -> string): seq<Item>
    requires |runs| <= |routes|
  {
    if runs == [] then []
    else
      var n := |runs| - 1;
      AllItems(routes, runs[..n], lower) + ItemsOf(routes[n].name, runs[n].pages, lower)
  }

  function CoverageOf(route: string, run: RouteRun, lower: string -> string): Coverage {
    var k := |run.pages|;
    Coverage(route, k, if k == 0 then 0 else run.pages[k - 1].result.totalPages,
             if k == 0 then 0 else run.pages[k - 1].result.totalResults,
             |KeysOf(ItemsOf(route, run.pages, lower))|, run.end.Exhausted?)
  }

  function CoveragesOf(routes: seq<Route>, runs: seq<RouteRun>, lower: string -> string): (r: seq<Coverage>)
    requires |runs| <= |routes|
    ensures |r| == |runs|
  {
    if runs == [] then []
    else
      var n := |runs| - 1;
      CoveragesOf(routes, runs[..n], lower) + [CoverageOf(routes[n].name, runs[n], lower)]
  }

  function IssuesOf(routes: seq<Route>, runs: seq<RouteRun>): seq<Issue>
    requires |runs| <= |routes|
  {
    if runs == [] then []
    else
      var n := |runs| - 1;
      IssuesOf(routes, runs[..n])
        + (if runs[n].end.Failed? then [Issue(routes[n].name, runs[n].end.page, runs[n].end.error)] else [])
  }

  datatype DiscoveryResult = DiscoveryResult(listings: seq<Listing>, coverage: seq<Coverage>, issues: seq<Issue>)

  function Summary(routes: seq<Route>, runs: seq<RouteRun>, lower: string -> string): DiscoveryResult
    requires |runs| <= |routes|
  {
    DiscoveryResult(ListingsOf(FirstOccurrences(AllItems(routes, runs, lower))), CoveragesOf(routes, runs, lower),
                    IssuesOf(routes, runs))
  }

  datatype Outcome = Found(result: DiscoveryResult) | Invalid(error: OptionsError) | NoProfile(refusal: Error) | GaveUp

  // What became of one location, how many page requests and attempts (those
  // for the bootstrap page included) it took, and the pauses before pages.
  datatype Report = Report(outcome: Outcome, requests: nat, attempts: nat, pauses: nat)

  function PolicyOf(o: Options): Policy
    requires o.retries >= 0
  {
    Policy(o.retries, o.backoff)
  }

  function Discover(w: World, o: Options): Report {
    match Validate(o)
    case Err(error) => Report(Invalid(error), 0, 0, 0)
    case Ok((maxPages, routes)) =>
      var (profile, tries) := Request(w.bootstrap, PolicyOf(o), 0, 0);
      if profile.Refused? then Report(NoProfile(profile.error), 0, tries, 0)
      else
        var runs := RunRoutes(w, PolicyOf(o), o.pageDelay, maxPages, routes, 0, 0);
        RoutesArePrefix(w, PolicyOf(o), o.pageDelay, maxPages, routes, 0, 0);
        var outcome := if GivenUp(runs) then GaveUp else Found(Summary(routes, runs, w.lower));
        Report(outcome, RequestsOf(runs, 0), tries + AttemptsOf(runs, 0), PausesOf(runs))
  }

  lemma {:induction false} KeysOfAppend(items: seq<Item>, more: seq<Item>)
    ensures KeysOf(items + more) == KeysOf(items) + KeysOf(more)
  {
    if more == [] {
      assert items + more == items;
    } else {
      var n := |more| - 1;
      KeysOfAppend(items, more[..n]);
      assert (items + more)[..|items| + n] == items + more[..n];
    }
  }

  lemma {:induction false} KeysOfMember(items: seq<Item>, i: nat)
    requires i < |items|
    ensures items[i].key in KeysOf(items)
  {
    if i < |items| - 1 { KeysOfMember(items[..|items| - 1], i); }
  }

  // First occurrences have distinct keys, and all the keys.
  lemma {:induction false} FirstOccurrencesKeys(items: seq<Item>)
    ensures var firsts := FirstOccurrences(items);
            && KeysOf(firsts) == KeysOf(items) && |firsts| == |KeysOf(items)|
            && (forall i, j :: 0 <= i < j < |firsts| ==> firsts[i].key != firsts[j].key)
  {
    if items != [] {
      var n := |items| - 1;
      var before := FirstOccurrences(items[..n]);
      FirstOccurrencesKeys(items[..n]);
      if items[n].key in KeysOf(items[..n]) {
        assert FirstOccurrences(items) == before;
      } else {
        assert (before + [items[n]])[..|before|] == before;
        forall i | 0 <= i < |before| ensures before[i].key in KeysOf(before) { KeysOfMember(before, i); }
      }
    }
  }

  // The positions at which the first occurrences stand.
  function Positions(items: seq<Item>): seq<nat> {
    if items == [] then []
    else
      var n := |items| - 1;
      Positions(items[..n]) + (if items[n].key in KeysOf(items[..n]) then [] else [n])
  }

  // Each stands where its key occurs first, and they keep the fetch order.
  lemma {:induction false} FirstOccurrencesInOrder(items: seq<Item>)
    ensures var firsts, positions := FirstOccurrences(items), Positions(items);
            && |firsts| == |positions|
            && (forall k {:trigger positions[k]} :: 0 <= k < |positions| ==>
                  positions[k] < |items| && firsts[k] == items[positions[k]]
                    && firsts[k].key !in KeysOf(items[..positions[k]]))
            && (forall j, k :: 0 <= j < k < |positions| ==> positions[j] < positions[k])
  {
    if items != [] {
      var n := |items| - 1;
      FirstOccurrencesInOrder(items[..n]);
      var before := Positions(items[..n]);
      forall k {:trigger before[k]} | 0 <= k < |before|
        ensures items[..before[k]] == items[..n][..before[k]] && before[k] < n
      {
      }
    }
  }

  // No issue follows a refusal that ended the discovery, and each route has
  // at most one.
  lemma {:induction false} IssuesInOrder(routes: seq<Route>, runs: seq<RouteRun>)
    requires |runs| <= |routes| && forall i {:trigger runs[i]} :: 0 <= i < |runs| - 1 ==> !StopsRun(runs[i])
    ensures var issues := IssuesOf(routes, runs);
            && |issues| <= |runs|
            && (forall i {:trigger issues[i]} :: 0 <= i < |issues| - 1 ==> !Retryable(issues[i].error))
            && (forall i {:trigger issues[i]} :: 0 <= i < |issues| ==> FromRoute(issues[i], routes, |runs|))
    ensures (forall i {:trigger runs[i]} :: 0 <= i < |runs| ==> !StopsRun(runs[i])) ==>
              forall i {:trigger IssuesOf(routes, runs)[i]} :: 0 <= i < |IssuesOf(routes, runs)| ==>
                  !Retryable(IssuesOf(routes, runs)[i].error)
    ensures DistinctNames(routes) ==> DistinctIssues(IssuesOf(routes, runs))
  {
    if runs != [] {
      var n := |runs| - 1;
      IssuesInOrder(routes, runs[..n]);
      var before := IssuesOf(routes, runs[..n]);
      assert forall i {:trigger before[i]} :: 0 <= i < |before| ==> FromRoute(before[i], routes, n);
    }
  }

  ghost predicate FromRoute(issue: Issue, routes: seq<Route>, m: nat)
    requires m <= |routes|
  {
    exists n :: 0 <= n < m && issue.route == routes[n].name
  }

  predicate DistinctNames(routes: seq<Route>) {
    forall i, j :: 0 <= i < j < |routes| ==> routes[i].name != routes[j].name
  }

  predicate DistinctIssues(issues: seq<Issue>) {
    forall i, j :: 0 <= i < j < |issues| ==> issues[i].route != issues[j].route
  }

  // ----- The loops -----

  // The variables of the item loop, after these items of the page; `all` are
  // the items of the pages before it.
  ghost predicate Noted(all: seq<Item>, items: seq<Item>, before: set<string>, seen: set<string>,
                        routeSeen: set<string>, found: seq<Listing>)
  {
    seen == KeysOf(all + items) && routeSeen == before + KeysOf(items)
      && found == ListingsOf(FirstOccurrences(all + items))
  }

  lemma NotedMore(all: seq<Item>, items: seq<Item>, before: set<string>, seen: set<string>, routeSeen: set<string>,
                  found: seq<Listing>, item: Item)
    requires Noted(all, items, before, seen, routeSeen, found)
    ensures Noted(all, items + [item], before, seen + {item.key}, routeSeen + {item.key},
                  if item.key in seen then found else found + [item.listing])
  {
    var grown := all + items + [item];
    ConcatAssociates(all, items, [item]);
    assert grown[..|grown| - 1] == all + items && (items + [item])[..|items|] == items;
  }

  // Note one listing: is it new to the route, is it new to the location.
  method Note(item: Item, ghost all: seq<Item>, ghost items: seq<Item>, ghost before: set<string>,
              seen: set<string>, routeSeen: set<string>, found: seq<Listing>)
    returns (seen': set<string>, routeSeen': set<string>, found': seq<Listing>, isNew: nat)
    requires Noted(all, items, before, seen, routeSeen, found)
    ensures Noted(all, items + [item], before, seen', routeSeen', found') && isNew == |routeSeen'| - |routeSeen|
  {
    NotedMore(all, items, before, seen, routeSeen, found, item);
    seen', routeSeen', found', isNew := seen, routeSeen, found, 0;
    assert item.key in routeSeen ==> routeSeen + {item.key} == routeSeen;
    assert item.key in seen ==> seen + {item.key} == seen;
    if item.key !in routeSeen {
      routeSeen' := routeSeen + {item.key};
      isNew := 1;
    }
    if item.key in seen { return; }
    seen' := seen + {item.key};
    found' := found + [item.listing];
  }

  lemma ItemsOfPrefix(route: string, page: nat, listings: seq<Listing>, i: nat, lower: string -> string)
    requires i < |listings|
    ensures ItemsOfPage(route, page, listings[..i + 1], lower)
         == ItemsOfPage(route, page, listings[..i], lower)
            + [Item(Key(listings[i], Place(route, page, i), lower), listings[i])]
  {
    assert listings[..i + 1][..i] == listings[..i];
  }

  // What one page adds.
  method AddPage(route: string, page: nat, listings: seq<Listing>, lower: string -> string, ghost all: seq<Item>,
                 seen: set<string>, routeSeen: set<string>, found: seq<Listing>)
    returns (seen': set<string>, routeSeen': set<string>, found': seq<Listing>, newOnPage: nat)
    requires seen == KeysOf(all) && found == ListingsOf(FirstOccurrences(all))
    ensures Noted(all, ItemsOfPage(route, page, listings, lower), routeSeen, seen', routeSeen', found')
    ensures newOnPage == |routeSeen'| - |routeSeen|
  {
    seen', routeSeen', found', newOnPage := seen, routeSeen, found, 0;
    assert all + [] == all;
    for i := 0 to |listings|
      invariant Noted(all, ItemsOfPage(route, page, listings[..i], lower), routeSeen, seen', routeSeen', found')
      invariant newOnPage == |routeSeen'| - |routeSeen|
    {
      ItemsOfPrefix(route, page, listings, i, lower);
      var item := Item(Key(listings[i], Place(route, page, i), lower), listings[i]);
      var isNew;
      seen', routeSeen', found', isNew :=
        Note(item, all, ItemsOfPage(route, page, listings[..i], lower), routeSeen, seen', routeSeen', found');
      newOnPage := newOnPage + isNew;
    }
    assert listings[..|listings|] == listings;
  }

  // Where a route stands after one more page.
  lemma ContinueRoute(w: World, p: Policy, pageDelay: int, route: Route, cap: int, pages: seq<Fetched>, attempts: nat,
                      requests: nat, f: Fetched, next: nat, past: nat, waited: nat, whole: RouteRun)
    requires f.page == |pages| + 1 <= cap && !(PauseBefore(requests, pageDelay) > 0 && w.pageCancelled(requests))
    requires Request(w.server, p, attempts, 0) == (Granted(f.result), next)
             && waited == past + PauseBefore(requests, pageDelay)
    requires whole == Waited(past, RunRoute(w, p, pageDelay, route, cap, pages, attempts, requests))
    ensures whole == if Exhausts(route.name, pages, f, w.lower)
                     then RouteRun(pages + [f], Exhausted, next, requests + 1, waited)
                     else Waited(waited, RunRoute(w, p, pageDelay, route, cap, pages + [f], next, requests + 1))
  {
  }

  lemma ItemsOfAppend(route: string, pages: seq<Fetched>, f: Fetched, lower: string -> string)
    ensures ItemsOf(route, pages + [f], lower)
            == ItemsOf(route, pages, lower) + ItemsOfPage(route, f.page, f.result.listings, lower)
  {
    assert (pages + [f])[..|pages|] == pages;
  }

  lemma SubsetByCount(a: set<string>, b: set<string>)
    ensures |a + b| == |a| <==> b <= a
  {
    if b <= a {
      assert a + b == a;
    } else {
      var x :| x in b && x !in a;
      assert a + b == a + (b - a) && |a + (b - a)| == |a| + |b - a| && x in b - a;
    }
  }

  // Take in the page fetched after `pages`.
  method TakePage(route: string, f: Fetched, lower: string -> string, ghost all: seq<Item>, ghost pages: seq<Fetched>,
                  seen: set<string>, routeSeen: set<string>, found: seq<Listing>)
    returns (seen': set<string>, routeSeen': set<string>, found': seq<Listing>, newOnPage: nat)
    requires routeSeen == KeysOf(ItemsOf(route, pages, lower))
    requires seen == KeysOf(all + ItemsOf(route, pages, lower))
             && found == ListingsOf(FirstOccurrences(all + ItemsOf(route, pages, lower)))
    ensures routeSeen' == KeysOf(ItemsOf(route, pages + [f], lower)) && newOnPage == |routeSeen'| - |routeSeen|
    ensures seen' == KeysOf(all + ItemsOf(route, pages + [f], lower))
    ensures found' == ListingsOf(FirstOccurrences(all + ItemsOf(route, pages + [f], lower)))
    ensures Exhausts(route, pages, f, lower) == ((f.result.totalPages > 0 && f.page >= f.result.totalPages)
                                                 || |f.result.listings| == 0
                                                 || (newOnPage == 0 && f.result.totalPages <= 0))
  {
    ghost var before := ItemsOf(route, pages, lower);
    ghost var items := ItemsOfPage(route, f.page, f.result.listings, lower);
    ItemsOfAppend(route, pages, f, lower);
    ConcatAssociates(all, before, items);
    KeysOfAppend(before, items);
    SubsetByCount(routeSeen, KeysOf(items));
    seen', routeSeen', found', newOnPage :=
      AddPage(route, f.page, f.result.listings, lower, all + before, seen, routeSeen, found);
  }

  lemma CoverageMore(route: string, pages: seq<Fetched>, f: Fetched, lower: string -> string, attempts: nat,
                     requests: nat, next: nat)
    ensures var c := CoverageOf(route, RouteRun(pages, OutOfPages, attempts, requests, 0), lower);
            var d := CoverageOf(route, RouteRun(pages + [f], OutOfPages, next, requests + 1, 0), lower);
            && d
               == Coverage(route, c.pagesFetched + 1, f.result.totalPages, f.result.totalResults, d.uniqueListings,
                           false)
            && d.uniqueListings == |KeysOf(ItemsOf(route, pages + [f], lower))|
            && c.uniqueListings == |KeysOf(ItemsOf(route, pages, lower))|
  {
  }

  // The page loop of one route.
  method FetchRoute(w: World, p: Policy, pageDelay: int, route: Route, cap: int, ghost all: seq<Item>,
                    attempts: nat, requests: nat, seen: set<string>, found: seq<Listing>)
    returns (run: RouteRun, coverage: Coverage, seen': set<string>, found': seq<Listing>)
    requires seen == KeysOf(all) && found == ListingsOf(FirstOccurrences(all))
    ensures run == RunRoute(w, p, pageDelay, route, cap, [], attempts, requests)
    ensures coverage == CoverageOf(route.name, run, w.lower)
    ensures var items := ItemsOf(route.name, run.pages, w.lower);
            seen' == KeysOf(all + items) && found' == ListingsOf(FirstOccurrences(all + items))
  {
    seen', found' := seen, found;
    coverage := Coverage(route.name, 0, 0, 0, 0, false);
    var pages: seq<Fetched> := [];
    var routeSeen: set<string> := {};
    var a, r, waited := attempts, requests, 0;
    ghost var whole := RunRoute(w, p, pageDelay, route, cap, [], attempts, requests);
    assert all + [] == all;
    while |pages| + 1 <= cap
      invariant whole == Waited(waited, RunRoute(w, p, pageDelay, route, cap, pages, a, r))
      invariant routeSeen == KeysOf(ItemsOf(route.name, pages, w.lower))
      invariant coverage == CoverageOf(route.name, RouteRun(pages, OutOfPages, a, r, 0), w.lower)
      invariant seen' == KeysOf(all + ItemsOf(route.name, pages, w.lower))
                && found' == ListingsOf(FirstOccurrences(all + ItemsOf(route.name, pages, w.lower)))
      decreases cap - |pages|
    {
      ghost var past := waited;
      if r > 0 && pageDelay > 0 {
        waited := waited + 1;
        if w.pageCancelled(r) {
          run := RouteRun(pages, Aborted, a, r, waited);
          return;
        }
      }
      var answer, next := RequestWithRetry(w.server, p, a);
      if answer.Refused? {
        run := RouteRun(pages, Failed(|pages| + 1, answer.error), next, r + 1, waited);
        return;
      }
      var f := Fetched(|pages| + 1, answer.value);
      ContinueRoute(w, p, pageDelay, route, cap, pages, a, r, f, next, past, waited, whole);
      var newOnPage;
      seen', routeSeen, found', newOnPage := TakePage(route.name, f, w.lower, all, pages, seen', routeSeen, found');
      CoverageMore(route.name, pages, f, w.lower, a, r, next);
      pages, a, r := pages + [f], next, r + 1;
      coverage := Coverage(route.name, coverage.pagesFetched + 1, f.result.totalPages, f.result.totalResults,
                           coverage.uniqueListings + newOnPage, false);
      if (f.result.totalPages > 0 && f.page >= f.result.totalPages)
         || |f.result.listings| == 0 || (newOnPage == 0 && f.result.totalPages <= 0) {
        coverage := coverage.(complete := true);
        run := RouteRun(pages, Exhausted, a, r, waited);
        return;
      }
    }
    run := RouteRun(pages, OutOfPages, a, r, waited);
  }

  method CheckRoutesInOrder(routes: seq<Route>, maxPages: int) returns (error: Option<OptionsError>)
    ensures error == CheckRoutes(routes, {}, maxPages)
  {
    var seen: set<string> := {};
    for i := 0 to |routes|
      invariant CheckRoutes(routes, {}, maxPages) == CheckRoutes(routes[i..], seen, maxPages)
    {
      var name := TrimSpace(routes[i].name);
      assert routes[i..][1..] == routes[i + 1..];
      if name == "" { return Some(EmptyName); }
      if name in seen { return Some(DuplicateName); }
      seen := seen + {name};
      if routes[i].maxPages < 0 || routes[i].maxPages > maxPages { return Some(BadRoutePages); }
      if !routes[i].filtersOk { return Some(BadFilters); }
    }
    return None;
  }

  lemma CoveragesAppend(routes: seq<Route>, runs: seq<RouteRun>, run: RouteRun, lower: string -> string)
    requires |runs| < |routes|
    ensures CoveragesOf(routes, runs + [run], lower)
            == CoveragesOf(routes, runs, lower) + [CoverageOf(routes[|runs|].name, run, lower)]
  {
    assert (runs + [run])[..|runs|] == runs;
  }

  lemma SummaryAppend(routes: seq<Route>, runs: seq<RouteRun>, run: RouteRun, lower: string -> string)
    requires |runs| < |routes|
    ensures AllItems(routes, runs + [run], lower)
            == AllItems(routes, runs, lower) + ItemsOf(routes[|runs|].name, run.pages, lower)
    ensures CoveragesOf(routes, runs + [run], lower)
            == CoveragesOf(routes, runs, lower) + [CoverageOf(routes[|runs|].name, run, lower)]
    ensures IssuesOf(routes, runs + [run]) == IssuesOf(routes, runs)
            + if run.end.Failed? then [Issue(routes[|runs|].name, run.end.page, run.end.error)] else []
  {
    assert (runs + [run])[..|runs|] == runs;
    CoveragesAppend(routes, runs, run, lower);
  }

  // The variables of the route loop hold what the runs so far amount to.
  ghost predicate Gathered(routes: seq<Route>, runs: seq<RouteRun>, lower: string -> string,
                           seen: set<string>, result: DiscoveryResult)
    requires |runs| <= |routes|
  {
    seen == KeysOf(AllItems(routes, runs, lower)) && result == Summary(routes, runs, lower)
  }

  method TakeRoute(w: World, p: Policy, pageDelay: int, cap: int, routes: seq<Route>, ghost runs: seq<RouteRun>,
                   route: Route, attempts: nat, requests: nat, seen: set<string>, result: DiscoveryResult)
    returns (run: RouteRun, seen': set<string>, result': DiscoveryResult)
    requires |runs| < |routes| && route == routes[|runs|] && Gathered(routes, runs, w.lower, seen, result)
    ensures run == RunRoute(w, p, pageDelay, route, cap, [], attempts, requests)
    ensures Gathered(routes, runs + [run], w.lower, seen', result')
  {
    var covered, found;
    run, covered, seen', found :=
      FetchRoute(w, p, pageDelay, route, cap, AllItems(routes, runs, w.lower), attempts, requests, seen,
                 result.listings);
    SummaryAppend(routes, runs, run, w.lower);
    var issues := if run.end.Failed? then [Issue(route.name, run.end.page, run.end.error)] else [];
    result' := DiscoveryResult(found, result.coverage + [covered], result.issues + issues);
  }

  // The totals of these runs.
  ghost predicate Totals(runs: seq<RouteRun>, attempts: nat, requests: nat, pauses: nat) {
    attempts == AttemptsOf(runs, 0) && requests == RequestsOf(runs, 0) && pauses == PausesOf(runs)
  }

  // Where the route loop stands after these runs, none of which stopped it.
  ghost predicate Reached(w: World, p: Policy, pageDelay: int, maxPages: int, routes: seq<Route>, runs: seq<RouteRun>,
                          attempts: nat, requests: nat) {
    && |runs| <= |routes|
    && RunRoutes(w, p, pageDelay, maxPages, routes, 0, 0)
       == runs + RunRoutes(w, p, pageDelay, maxPages, routes[|runs|..], attempts, requests)
  }

  lemma NextRoute(w: World, p: Policy, pageDelay: int, maxPages: int, routes: seq<Route>, runs: seq<RouteRun>,
                  attempts: nat, requests: nat, run: RouteRun)
    requires Reached(w, p, pageDelay, maxPages, routes, runs, attempts, requests) && |runs| < |routes|
    requires run == RunRoute(w, p, pageDelay, routes[|runs|], Cap(routes[|runs|], maxPages), [], attempts, requests)
    ensures if StopsRun(run) then RunRoutes(w, p, pageDelay, maxPages, routes, 0, 0) == runs + [run]
            else Reached(w, p, pageDelay, maxPages, routes, runs + [run], run.attempts, run.requests)
  {
    var left := routes[|runs|..];
    assert left[1..] == routes[|runs| + 1..];
    var rest := if StopsRun(run) then []
      else RunRoutes(w, p, pageDelay, maxPages, left[1..], run.attempts, run.requests);
    assert RunRoutes(w, p, pageDelay, maxPages, left, attempts, requests) == [run] + rest;
    ConcatAssociates(runs, [run], rest);
  }

  lemma TotalsMore(runs: seq<RouteRun>, run: RouteRun, attempts: nat, requests: nat, pauses: nat)
    requires Totals(runs, attempts, requests, pauses)
    ensures Totals(runs + [run], run.attempts, run.requests, pauses + run.pauses)
  {
    assert (runs + [run])[..|runs|] == runs;
  }

  // The route loop.
  method DiscoverRoutes(w: World, p: Policy, pageDelay: int, maxPages: int, routes: seq<Route>)
    returns (result: DiscoveryResult, gaveUp: bool, attempts: nat, requests: nat, pauses: nat)
    ensures var runs := RunRoutes(w, p, pageDelay, maxPages, routes, 0, 0);
            && |runs| <= |routes| && result == Summary(routes, runs, w.lower)
            && gaveUp == GivenUp(runs) && Totals(runs, attempts, requests, pauses)
  {
    result := DiscoveryResult([], [], []);
    var seen: set<string> := {};
    ghost var runs: seq<RouteRun> := [];
    attempts, requests, pauses := 0, 0, 0;
    assert routes[0..] == routes;
    for i := 0 to |routes|
      invariant |runs| == i && Reached(w, p, pageDelay, maxPages, routes, runs, attempts, requests)
      invariant Gathered(routes, runs, w.lower, seen, result) && Totals(runs, attempts, requests, pauses)
      invariant !GivenUp(runs)
    {
      var run;
      run, seen, result :=
        TakeRoute(w, p, pageDelay, Cap(routes[i], maxPages), routes, runs, routes[i], attempts, requests, seen, result);
      NextRoute(w, p, pageDelay, maxPages, routes, runs, attempts, requests, run);
      TotalsMore(runs, run, attempts, requests, pauses);
      attempts, requests, pauses, runs := run.attempts, run.requests, pauses + run.pauses, runs + [run];
      if StopsRun(run) {
        return result, run.end.Aborted?, attempts, requests, pauses;
      }
    }
    assert RunRoutes(w, p, pageDelay, maxPages, routes, 0, 0) == runs;
    gaveUp := false;
  }

  method DiscoverLocation(w: World, o: Options) returns (report: Report)
    ensures report == Discover(w, o)
  {
    var maxPages, routes := PagesOf(o), RoutesOf(o);
    if maxPages < 1 || maxPages > MAX_DISCOVERY_PAGES { return Report(Invalid(BadMaxPages), 0, 0, 0); }
    if o.pageDelay < 0 { return Report(Invalid(BadPageDelay), 0, 0, 0); }
    if o.retries < 0 { return Report(Invalid(BadRetries), 0, 0, 0); }
    if o.backoff < 0 { return Report(Invalid(BadBackoff), 0, 0, 0); }
    if |routes| > MAX_ROUTES { return Report(Invalid(TooManyRoutes), 0, 0, 0); }
    var error := CheckRoutesInOrder(routes, maxPages);
    if error.Some? { return Report(Invalid(error.value), 0, 0, 0); }
    routes := TrimmedAll(routes);
    var profile, tries := RequestWithRetry(w.bootstrap, PolicyOf(o), 0);
    if profile.Refused? { return Report(NoProfile(profile.error), 0, tries, 0); }
    var result, gaveUp, attempts, requests, pauses := DiscoverRoutes(w, PolicyOf(o), o.pageDelay, maxPages, routes);
    return Report(if gaveUp then GaveUp else Found(result), requests, tries + attempts, pauses);
  }
}
