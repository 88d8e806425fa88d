/** The command line's plan of a search: the options it builds, the page limits
    it overrides per location, and the cost it announces before it starts. The
    plan is compared with what Discovery then does. */
module Plan {
  import opened Common
  import opened Text
  import opened Retry
  import opened Discovery
  import Listings = DiscoveryListings

  // ----- Building the options -----

  datatype SortSpec = SortSpec(value: string, maxPages: nat)

  // The parsed flags. Parsing yields at least one bed range and one sort.
  datatype Config = Config(
    maxPages: int, pageDelay: int, retries: int, backoff: Duration, bedLabels: seq<string>, sorts: seq<SortSpec>,
    supplementalNoLaundry: bool, supplementalPages: int, keywords: seq<string>, filtersOk: bool)

  datatype ConfigError = MaxPages | PageDelay | SupplementalPages | SortPages | TooMany

  datatype Built = Good(options: Options) | Bad(error: ConfigError)

  function OrOne(n: int): int {
    if n == 0 then 1 else n
  }

  function SortRoutes(bed: string, sorts: seq<SortSpec>, filtersOk: bool): (r: seq<Route>)
    ensures |r| == |sorts|
  {
    if sorts == [] then []
    else
      var spec := sorts[|sorts| - 1];
      SortRoutes(bed, sorts[..|sorts| - 1], filtersOk)
      + [Route("beds-" + bed + "-sort-" + (if spec.value == "" then "default" else spec.value), spec.maxPages,
               filtersOk)]
  }

  function MainRoutes(beds: seq<string>, c: Config): (r: seq<Route>)
    ensures |r| == |beds| * |c.sorts|
  {
    if beds == [] then [] else MainRoutes(beds[..|beds| - 1], c) + SortRoutes(beds[|beds| - 1], c.sorts, c.filtersOk)
  }

  function SupplementalRoutes(beds: seq<string>, pages: int, filtersOk: bool): (r: seq<Route>)
    ensures |r| == |beds|
  {
    if beds == [] then []
    else
      SupplementalRoutes(beds[..|beds| - 1], pages, filtersOk)
      + [Route("beds-" + beds[|beds| - 1] + "-supplemental-unindexed-laundry", pages, filtersOk)]
  }

  function KeywordRoutes(n: nat, pages: int, filtersOk: bool): (r: seq<Route>)
    ensures |r| == n
  {
    if n == 0 then []
    else KeywordRoutes(n - 1, pages, filtersOk) + [Route("exact-2-keyword-" + Decimal(n), pages, filtersOk)]
  }

  // Every bed range with every sort, then one extra route per bed range, then
  // one per keyword.
  function AllRoutes(c: Config): seq<Route> {
    MainRoutes(c.bedLabels, c)
    + (if c.supplementalNoLaundry then SupplementalRoutes(c.bedLabels, OrOne(c.supplementalPages), c.filtersOk) else [])
    + KeywordRoutes(|c.keywords|, OrOne(c.supplementalPages), c.filtersOk)
  }

  lemma {:induction false} SortRouteAt(bed: string, sorts: seq<SortSpec>, filtersOk: bool, j: nat)
    requires j < |sorts|
    ensures SortRoutes(bed, sorts, filtersOk)[j]
            == Route("beds-" + bed + "-sort-" + (if sorts[j].value == "" then "default" else sorts[j].value),
                     sorts[j].maxPages, filtersOk)
  {
    if j < |sorts| - 1 { SortRouteAt(bed, sorts[..|sorts| - 1], filtersOk, j); }
  }

  lemma RowsFit(rows: nat, more: nat, width: nat)
    ensures 0 <= rows * width && (rows + more) * width == rows * width + more * width && 0 <= more * width
  {
  }

  lemma Position(i: nat, j: nat, beds: nat, sorts: nat)
    requires i < beds && j < sorts
    ensures 0 <= i * sorts + j < beds * sorts
    ensures i < beds - 1 ==> i * sorts + j < (beds - 1) * sorts
    ensures beds * sorts == (beds - 1) * sorts + sorts
  {
    RowsFit(beds - 1, 1, sorts);
    RowsFit(i, 1, sorts);
    if i < beds - 1 { RowsFit(i + 1, beds - 2 - i, sorts); }
  }

  lemma {:induction false} MainRouteAt(beds: seq<string>, c: Config, i: nat, j: nat)
    requires i < |beds| && j < |c.sorts|
    ensures 0 <= i * |c.sorts| + j < |beds| * |c.sorts|
    ensures MainRoutes(beds, c)[i * |c.sorts| + j]
            == Route("beds-" + beds[i] + "-sort-" + (if c.sorts[j].value == "" then "default" else c.sorts[j].value),
                     c.sorts[j].maxPages, c.filtersOk)
  {
    var n := |beds| - 1;
    Position(i, j, |beds|, |c.sorts|);
    if i < n {
      MainRouteAt(beds[..n], c, i, j);
    } else {
      SortRouteAt(beds[n], c.sorts, c.filtersOk, j);
    }
  }

  lemma {:induction false} SupplementalRouteAt(beds: seq<string>, pages: int, filtersOk: bool, i: nat)
    requires i < |beds|
    ensures SupplementalRoutes(beds, pages, filtersOk)[i]
            == Route("beds-" + beds[i] + "-supplemental-unindexed-laundry", pages, filtersOk)
  {
    if i < |beds| - 1 { SupplementalRouteAt(beds[..|beds| - 1], pages, filtersOk, i); }
  }

  lemma {:induction false} KeywordRouteAt(n: nat, pages: int, filtersOk: bool, k: nat)
    requires k < n
    ensures KeywordRoutes(n, pages, filtersOk)[k] == Route("exact-2-keyword-" + Decimal(k + 1), pages, filtersOk)
  {
    if k < n - 1 { KeywordRouteAt(n - 1, pages, filtersOk, k); }
  }

  lemma MiddlePart(a: seq<Route>, b: seq<Route>, c: seq<Route>, k: nat)
    requires k < |b|
    ensures |a| + k < |a + b + c| && (a + b + c)[|a| + k] == b[k]
  {
  }

  lemma LastPart(a: seq<Route>, b: seq<Route>, c: seq<Route>, k: nat)
    requires k < |c|
    ensures (a + b + c)[|a + b + c| - |c| + k] == c[k]
  {
  }

  // The routes in order: each bed range with each sort, with that sort's own
  // page limit;
  lemma MainRouteInOrder(c: Config, i: nat, j: nat)
    requires i < |c.bedLabels| && j < |c.sorts|
    ensures 0 <= i * |c.sorts| + j < |AllRoutes(c)|
    ensures AllRoutes(c)[i * |c.sorts| + j]
            == Route("beds-" + c.bedLabels[i] + "-sort-"
                     + (if c.sorts[j].value == "" then "default" else c.sorts[j].value),
                     c.sorts[j].maxPages, c.filtersOk)
  {
    MainRouteAt(c.bedLabels, c, i, j);
  }

  // then each bed range once more, with the supplemental limit;
  lemma SupplementalRouteInOrder(c: Config, i: nat)
    requires c.supplementalNoLaundry && i < |c.bedLabels|
    ensures var n := |c.bedLabels| * |c.sorts| + i;
            && 0 <= n < |AllRoutes(c)|
            && AllRoutes(c)[n] == Route("beds-" + c.bedLabels[i] + "-supplemental-unindexed-laundry",
                                        if c.supplementalPages == 0 then 1 else c.supplementalPages, c.filtersOk)
  {
    var pages := OrOne(c.supplementalPages);
    var main, more := MainRoutes(c.bedLabels, c), SupplementalRoutes(c.bedLabels, pages, c.filtersOk);
    SupplementalRouteAt(c.bedLabels, pages, c.filtersOk, i);
    MiddlePart(main, more, KeywordRoutes(|c.keywords|, pages, c.filtersOk), i);
  }

  // and last each keyword.
  lemma KeywordRouteInOrder(c: Config, k: nat)
    requires k < |c.keywords|
    ensures var n := |AllRoutes(c)| - |c.keywords| + k;
            && |AllRoutes(c)| == |c.bedLabels| * |c.sorts| + (if c.supplementalNoLaundry then |c.bedLabels| else 0)
                                 + |c.keywords|
            && AllRoutes(c)[n] == Route("exact-2-keyword-" + Decimal(k + 1),
                                        if c.supplementalPages == 0 then 1 else c.supplementalPages, c.filtersOk)
  {
    var pages := OrOne(c.supplementalPages);
    var main, last := MainRoutes(c.bedLabels, c), KeywordRoutes(|c.keywords|, pages, c.filtersOk);
    var more := if c.supplementalNoLaundry then SupplementalRoutes(c.bedLabels, pages, c.filtersOk) else [];
    KeywordRouteAt(|c.keywords|, pages, c.filtersOk, k);
    LastPart(main, more, last, k);
  }

  // ----- The names the command gives -----

  predicate Plain(route: Route) {
    "beds-" <= route.name || "exact-2-keyword-" <= route.name
  }

  lemma {:induction false} PlainSorts(bed: string, sorts: seq<SortSpec>, filtersOk: bool)
    ensures forall r :: r in SortRoutes(bed, sorts, filtersOk) ==> Plain(r)
  {
    if sorts != [] { PlainSorts(bed, sorts[..|sorts| - 1], filtersOk); }
  }

  lemma {:induction false} PlainMains(beds: seq<string>, c: Config)
    ensures forall r :: r in MainRoutes(beds, c) ==> Plain(r)
  {
    if beds != [] {
      PlainMains(beds[..|beds| - 1], c);
      PlainSorts(beds[|beds| - 1], c.sorts, c.filtersOk);
    }
  }

  lemma {:induction false} PlainSupplements(beds: seq<string>, pages: int, filtersOk: bool)
    ensures forall r :: r in SupplementalRoutes(beds, pages, filtersOk) ==> Plain(r)
  {
    if beds != [] { PlainSupplements(beds[..|beds| - 1], pages, filtersOk); }
  }

  lemma {:induction false} PlainKeywords(n: nat, pages: int, filtersOk: bool)
    ensures forall r :: r in KeywordRoutes(n, pages, filtersOk) ==> Plain(r)
  {
    if n > 0 { PlainKeywords(n - 1, pages, filtersOk); }
  }

  lemma {:induction false} TrimRightKeepsFirst(s: string)
    requires s != [] && !IsSpace(s[0])
    ensures TrimRight(s) != [] && TrimRight(s)[0] == s[0]
  {
    if IsSpace(s[|s| - 1]) { TrimRightKeepsFirst(s[..|s| - 1]); }
  }

  lemma PlainIsApart(route: Route)
    requires Plain(route)
    ensures Listings.Apart(TrimSpace(route.name))
  {
    TrimRightKeepsFirst(route.name);
    var name := TrimSpace(route.name) + ":";
    assert name[0] == route.name[0] && name[0] in "be";
  }

  // With the routes the command builds, no listing is lost and none returned
  // twice, whatever the site and the location's page override.
  lemma CommandKeepsListings(c: Config, o: Options, location: string, overrides: map<string, int>, w: World)
    requires c.bedLabels != [] && c.sorts != []
    requires o == Options(AllRoutes(c), OrOne(c.maxPages), c.pageDelay, c.retries, c.backoff)
    requires Discover(w, WithOverride(o, location, overrides, w.lower)).outcome.Found?
    ensures var p := WithOverride(o, location, overrides, w.lower);
            Listings.KeepsFirsts(Discover(w, p).outcome.result.listings,
                                 Listings.AllFetched(Listings.RunsOf(w, p)), w.lower)
  {
    var p := WithOverride(o, location, overrides, w.lower);
    CommandIsApart(c, p.routes);
    AtLeastOne(|c.bedLabels|, |c.sorts|);
    Listings.ApartIsEnough(p, w.lower);
    Listings.ListingsAreFirsts(w, p);
  }

  lemma CommandIsApart(c: Config, routes: seq<Route>)
    requires |routes| == |AllRoutes(c)|
    requires forall k :: 0 <= k < |routes| ==> routes[k].name == AllRoutes(c)[k].name
    ensures forall k :: 0 <= k < |routes| ==> Listings.Apart(TrimSpace(routes[k].name))
  {
    PlainMains(c.bedLabels, c);
    PlainSupplements(c.bedLabels, OrOne(c.supplementalPages), c.filtersOk);
    PlainKeywords(|c.keywords|, OrOne(c.supplementalPages), c.filtersOk);
    forall k | 0 <= k < |routes| ensures Listings.Apart(TrimSpace(routes[k].name)) {
      assert AllRoutes(c)[k] in AllRoutes(c);
      PlainIsApart(AllRoutes(c)[k]);
    }
  }

  predicate CapsUpTo(routes: seq<Route>, maxPages: int) {
    forall k {:trigger routes[k]} :: 0 <= k < |routes| ==> 0 <= routes[k].maxPages <= maxPages
  }

  method BuildSortRoutes(bed: string, c: Config, maxPages: int) returns (ok: bool, routes: seq<Route>)
    ensures ok ==> routes == SortRoutes(bed, c.sorts, c.filtersOk) && CapsUpTo(routes, maxPages)
    ensures !ok <==> exists j :: 0 <= j < |c.sorts| && c.sorts[j].maxPages > maxPages
  {
    routes := [];
    for j := 0 to |c.sorts|
      invariant routes == SortRoutes(bed, c.sorts[..j], c.filtersOk) && CapsUpTo(routes, maxPages)
      invariant forall i :: 0 <= i < j ==> c.sorts[i].maxPages <= maxPages
    {
      var spec := c.sorts[j];
      assert c.sorts[..j + 1][..j] == c.sorts[..j];
      if spec.maxPages > maxPages { return false, []; }
      var sortLabel := if spec.value == "" then "default" else spec.value;
      routes := routes + [Route("beds-" + bed + "-sort-" + sortLabel, spec.maxPages, c.filtersOk)];
    }
    assert c.sorts[..|c.sorts|] == c.sorts;
    ok := true;
  }

  method BuildMainRoutes(c: Config, maxPages: int) returns (ok: bool, routes: seq<Route>)
    ensures ok ==> routes == MainRoutes(c.bedLabels, c) && CapsUpTo(routes, maxPages)
    ensures !ok <==> c.bedLabels != [] && exists j :: 0 <= j < |c.sorts| && c.sorts[j].maxPages > maxPages
  {
    routes := [];
    for i := 0 to |c.bedLabels|
      invariant routes == MainRoutes(c.bedLabels[..i], c) && CapsUpTo(routes, maxPages)
      invariant i > 0 ==> forall j :: 0 <= j < |c.sorts| ==> c.sorts[j].maxPages <= maxPages
    {
      assert c.bedLabels[..i + 1][..i] == c.bedLabels[..i];
      var sorted, more := BuildSortRoutes(c.bedLabels[i], c, maxPages);
      if !sorted { return false, []; }
      routes := routes + more;
    }
    assert c.bedLabels[..|c.bedLabels|] == c.bedLabels;
    ok := true;
  }

  method BuildSupplementalRoutes(beds: seq<string>, pages: int, filtersOk: bool) returns (routes: seq<Route>)
    requires pages >= 0
    ensures routes == SupplementalRoutes(beds, pages, filtersOk) && CapsUpTo(routes, pages)
  {
    routes := [];
    for i := 0 to |beds|
      invariant routes == SupplementalRoutes(beds[..i], pages, filtersOk) && CapsUpTo(routes, pages)
    {
      assert beds[..i + 1][..i] == beds[..i];
      routes := routes + [Route("beds-" + beds[i] + "-supplemental-unindexed-laundry", pages, filtersOk)];
    }
    assert beds[..|beds|] == beds;
  }

  method BuildKeywordRoutes(keywords: seq<string>, pages: int, filtersOk: bool) returns (routes: seq<Route>)
    requires pages >= 0
    ensures routes == KeywordRoutes(|keywords|, pages, filtersOk) && CapsUpTo(routes, pages)
  {
    routes := [];
    for i := 0 to |keywords|
      invariant routes == KeywordRoutes(i, pages, filtersOk) && CapsUpTo(routes, pages)
    {
      routes := routes + [Route("exact-2-keyword-" + Decimal(i + 1), pages, filtersOk)];
    }
  }

  // What each refusal means.
  predicate Breaks(c: Config, e: ConfigError) {
    match e
    case MaxPages => !(1 <= OrOne(c.maxPages) <= MAX_DISCOVERY_PAGES)
    case PageDelay => c.pageDelay < 0
    case SupplementalPages => !(1 <= OrOne(c.supplementalPages) <= OrOne(c.maxPages))
    case SortPages => exists j :: 0 <= j < |c.sorts| && c.sorts[j].maxPages > OrOne(c.maxPages)
    case TooMany =>
      |c.bedLabels| * |c.sorts| + (if c.supplementalNoLaundry then |c.bedLabels| else 0) + |c.keywords| > MAX_ROUTES
  }

  // Which refusal is given when several apply.
  function Rank(e: ConfigError): nat {
    match e
    case MaxPages => 0
    case PageDelay => 1
    case SupplementalPages => 2
    case SortPages => 3
    case TooMany => 4
  }

  // Good options exactly when no reason to refuse applies, and otherwise the
  // first reason that does.
  method BuildLocationDiscoveryOptions(c: Config) returns (built: Built)
    requires c.bedLabels != [] && c.sorts != []
    ensures built.Bad? ==> Breaks(c, built.error) && forall e :: Rank(e) < Rank(built.error) ==> !Breaks(c, e)
    ensures built.Good? <==> forall e :: !Breaks(c, e)
    ensures built.Good? ==>
              && BuiltByCommand(built.options)
              && built.options == Options(AllRoutes(c), OrOne(c.maxPages), c.pageDelay, c.retries, c.backoff)
  {
    var maxPages := OrOne(c.maxPages);
    if maxPages < 1 || maxPages > MAX_DISCOVERY_PAGES { return Bad(MaxPages); }
    if c.pageDelay < 0 { return Bad(PageDelay); }
    var supplementalPages := OrOne(c.supplementalPages);
    if supplementalPages < 1 || supplementalPages > maxPages { return Bad(SupplementalPages); }
    var ok, routes := BuildMainRoutes(c, maxPages);
    if !ok { return Bad(SortPages); }
    var supplemental: seq<Route> := [];
    if c.supplementalNoLaundry { supplemental := BuildSupplementalRoutes(c.bedLabels, supplementalPages, c.filtersOk); }
    var keyword := BuildKeywordRoutes(c.keywords, supplementalPages, c.filtersOk);
    routes := routes + supplemental + keyword;
    if |routes| > MAX_ROUTES { return Bad(TooMany); }
    AtLeastOne(|c.bedLabels|, |c.sorts|);
    return Good(Options(routes, maxPages, c.pageDelay, c.retries, c.backoff));
  }

  lemma AtLeastOne(a: nat, b: nat)
    requires a >= 1 && b >= 1
    ensures a * b >= 1
  {
  }

  // What the builder guarantees, and the run relies on.
  predicate BuiltByCommand(o: Options) {
    && 1 <= o.maxPages <= MAX_DISCOVERY_PAGES && 1 <= |o.routes| <= MAX_ROUTES && o.pageDelay >= 0
    && forall i {:trigger o.routes[i]} :: 0 <= i < |o.routes| ==> 0 <= o.routes[i].maxPages <= o.maxPages
  }

  // ----- Overrides -----

  function Clamp(r: Route, pages: int): Route {
    if r.maxPages > pages then r.(maxPages := pages) else r
  }

  function ClampAll(routes: seq<Route>, pages: int): (r: seq<Route>)
    ensures |r| == |routes|
  {
    seq(|routes|, i requires 0 <= i < |routes| => Clamp(routes[i], pages))
  }

  function OverrideKey(location: string, lower: string -> string): string {
    lower(TrimSpace(location))
  }

  function WithOverride(o: Options, location: string, overrides: map<string, int>, lower: string -> string): Options {
    var key := OverrideKey(location, lower);
    if key !in overrides then o else o.(maxPages := overrides[key], routes := ClampAll(o.routes, overrides[key]))
  }

  // The clone's routes are clamped in place; the original is not touched.
  method ApplyLocationPageOverride(o: Options, location: string, overrides: map<string, int>, lower: string -> string)
    returns (clone: Options)
    ensures clone == WithOverride(o, location, overrides, lower)
  {
    var key := OverrideKey(location, lower);
    if key !in overrides { return o; }
    var pages := overrides[key];
    var routes := o.routes;
    for i := 0 to |routes|
      invariant |routes| == |o.routes|
      invariant forall k :: 0 <= k < |routes| ==> routes[k] == if k < i then Clamp(o.routes[k], pages) else o.routes[k]
    {
      if routes[i].maxPages > pages { routes := routes[i := routes[i].(maxPages := pages)]; }
    }
    return o.(maxPages := pages, routes := routes);
  }

  predicate OverridesOk(overrides: map<string, int>, maxPages: int) {
    forall key :: key in overrides ==> 1 <= overrides[key] <= maxPages
  }

  // A route's own limit, or the common one.
  function PageLimit(o: Options, i: nat): int
    requires i < |o.routes|
  {
    if o.routes[i].maxPages > 0 then o.routes[i].maxPages else o.maxPages
  }

  // An override lowers each route's cap to itself, and to nothing less.
  lemma OverrideLowersCaps(o: Options, location: string, overrides: map<string, int>, lower: string -> string)
    requires BuiltByCommand(o) && OverridesOk(overrides, o.maxPages)
    ensures var p := WithOverride(o, location, overrides, lower); var key := lower(TrimSpace(location));
            && BuiltByCommand(p) && |p.routes| == |o.routes| && p == o.(maxPages := p.maxPages, routes := p.routes)
            && forall i {:trigger p.routes[i]} {:trigger o.routes[i]} :: 0 <= i < |o.routes| ==>
                 && p.routes[i] == o.routes[i].(maxPages := p.routes[i].maxPages)
                 && PageLimit(p, i)
                    == if key in overrides then Min(PageLimit(o, i), overrides[key]) else PageLimit(o, i)
  {
  }

  // ----- The estimate -----

  datatype Estimate = Estimate(requests: int, pacing: int)

  // The first page needs no pause.
  function Paced(requests: int, pageDelay: int): int {
    Max(requests - 1, 0) * pageDelay
  }

  function PlanOf(o: Options): int {
    Caps(o.routes, o.maxPages)
  }

  // One location: its pages and the rendered bootstrap page.
  function LocationPlan(location: string, o: Options, overrides: map<string, int>, lower: string -> string): Estimate {
    var p := WithOverride(o, location, overrides, lower);
    Estimate(PlanOf(p) + 1, Paced(PlanOf(p), p.pageDelay))
  }

  function EstimateOf(locations: seq<string>, discovery: bool, o: Options, overrides: map<string, int>,
                      lower: string -> string): Estimate
  {
    if locations == [] then Estimate(0, 0)
    else
      var n := |locations| - 1;
      var before := EstimateOf(locations[..n], discovery, o, overrides, lower);
      if !discovery then Estimate(before.requests + 1, before.pacing)
      else
        var plan := LocationPlan(locations[n], o, overrides, lower);
        Estimate(before.requests + plan.requests, before.pacing + plan.pacing)
  }

  function EstimateAll(locations: seq<string>, discovery: bool, o: Options, overrides: map<string, int>,
                       locationDelay: int, lower: string -> string): Estimate
  {
    var e := EstimateOf(locations, discovery, o, overrides, lower);
    e.(pacing := e.pacing + Paced(|locations|, locationDelay))
  }

  method EstimateRoutes(o: Options) returns (requests: int)
    ensures requests == PlanOf(o)
  {
    requests := 0;
    for i := 0 to |o.routes|
      invariant requests + Caps(o.routes[i..], o.maxPages) == PlanOf(o)
    {
      assert o.routes[i..][1..] == o.routes[i + 1..];
      var pages := o.maxPages;
      if o.routes[i].maxPages > 0 { pages := o.routes[i].maxPages; }
      requests := requests + pages;
    }
  }

  lemma PacedIs(requests: int, pageDelay: int)
    ensures Paced(requests, pageDelay) == if requests > 1 then (requests - 1) * pageDelay else 0
  {
    if requests <= 1 { assert 0 * pageDelay == 0; }
  }

  lemma EstimateStep(locations: seq<string>, i: nat, o: Options, overrides: map<string, int>, lower: string -> string)
    requires i < |locations|
    ensures var before := EstimateOf(locations[..i], true, o, overrides, lower);
            var plan := LocationPlan(locations[i], o, overrides, lower);
            EstimateOf(locations[..i + 1], true, o, overrides, lower)
            == Estimate(before.requests + plan.requests, before.pacing + plan.pacing)
  {
    assert locations[..i + 1][..i] == locations[..i];
  }

  method EstimateMultiLocationSearchPlan(locations: seq<string>, discovery: bool, o: Options,
                                         overrides: map<string, int>, locationDelay: int, lower: string -> string)
    returns (estimate: Estimate)
    ensures estimate == EstimateAll(locations, discovery, o, overrides, locationDelay, lower)
  {
    estimate := Estimate(0, 0);
    if |locations| == 0 { return; }
    for i := 0 to |locations|
      invariant estimate == EstimateOf(locations[..i], discovery, o, overrides, lower)
    {
      assert locations[..i + 1][..i] == locations[..i];
      if !discovery {
        estimate := estimate.(requests := estimate.requests + 1);
        continue;
      }
      var p := ApplyLocationPageOverride(o, locations[i], overrides, lower);
      var requests := EstimateRoutes(p);
      PacedIs(requests, p.pageDelay);
      estimate := estimate.(requests := estimate.requests + requests + 1);
      if requests > 1 { estimate := estimate.(pacing := estimate.pacing + (requests - 1) * p.pageDelay); }
      EstimateStep(locations, i, o, overrides, lower);
    }
    assert locations[..|locations|] == locations;
    PacedIs(|locations|, locationDelay);
    if |locations| > 1 { estimate := estimate.(pacing := estimate.pacing + (|locations| - 1) * locationDelay); }
  }

  // ----- The plan against the run -----

  // The condition under which the estimator counts what validation fills in.
  predicate Explicit(o: Options) {
    o.routes != []
      && (o.maxPages != 0 || forall i {:trigger o.routes[i]} :: 0 <= i < |o.routes| ==> o.routes[i].maxPages > 0)
  }

  lemma {:induction false} CapsTrimmed(routes: seq<Route>, maxPages: int)
    ensures Caps(TrimmedAll(routes), maxPages) == Caps(routes, maxPages)
  {
    if routes != [] {
      assert TrimmedAll(routes)[1..] == TrimmedAll(routes[1..]);
      CapsTrimmed(routes[1..], maxPages);
    }
  }

  // With limits of their own, routes do not need the common one; a route
  // without is counted as nothing when there is no common one.
  lemma {:induction false} CapsWithoutMaximum(routes: seq<Route>)
    ensures Caps(routes, 0) <= Caps(routes, 1)
    ensures Caps(routes, 0) == Caps(routes, 1)
            <==> forall i {:trigger routes[i]} :: 0 <= i < |routes| ==> routes[i].maxPages > 0
  {
    if routes != [] {
      CapsWithoutMaximum(routes[1..]);
      assert forall i :: 0 < i < |routes| ==> routes[i] == routes[1..][i - 1];
    }
  }

  lemma PlanOfValid(o: Options)
    requires Validate(o).Ok?
    ensures var (maxPages, routes) := Validate(o).value;
            && PlanOf(o) <= Caps(routes, maxPages) && maxPages >= 1
            && (Explicit(o) <==> PlanOf(o) == Caps(routes, maxPages))
  {
    CapsTrimmed(RoutesOf(o), PagesOf(o));
    CapsWithoutMaximum(o.routes);
    if o.routes == [] {
      var r := [Route("default", 0, true)];
      assert r[1..] == [] && Caps(r, PagesOf(o)) == PagesOf(o);
    }
  }

  lemma PlanCoversRequests(w: World, o: Options)
    requires Validate(o).Ok? && Explicit(o)
    ensures Discover(w, o).requests <= PlanOf(o)
  {
    var (maxPages, routes) := Validate(o).value;
    PlanOfValid(o);
    CapsNotNegative(routes, maxPages);
    RequestsWithinCaps(w, PolicyOf(o), o.pageDelay, maxPages, routes, 0, 0);
  }

  lemma AttemptsPerRequest(w: World, o: Options, k: nat)
    requires Validate(o).Ok? && k == o.retries + 1
    ensures Discover(w, o).attempts <= k * (Discover(w, o).requests + 1)
  {
    var (maxPages, routes) := Validate(o).value;
    var tries := Request(w.bootstrap, PolicyOf(o), 0, 0).1;
    AllAttemptsBounded(w, PolicyOf(o), k, o.pageDelay, maxPages, routes, 0, 0);
    if Request(w.bootstrap, PolicyOf(o), 0, 0).0.Granted? {
      AddUp(k, Discover(w, o).attempts - tries, Discover(w, o).requests, tries, 1);
    }
  }

  // The pauses of a run, the one that the caller gave up in included, are no
  // more than those between the planned requests.
  lemma PlanCoversPauses(w: World, o: Options)
    requires Validate(o).Ok? && Explicit(o)
    ensures Discover(w, o).pauses <= PausesBetween(PlanOf(o), o.pageDelay)
  {
    var (maxPages, routes) := Validate(o).value;
    PlanOfValid(o);
    CapsNotNegative(routes, maxPages);
    RequestsWithinCaps(w, PolicyOf(o), o.pageDelay, maxPages, routes, 0, 0);
    PausesCounted(w, PolicyOf(o), o.pageDelay, maxPages, routes, 0, 0);
  }

  // A discovery whose options are explicit never makes more page requests, or
  // pauses longer before them, than planned; counting every retry, it makes
  // at most k = retries+1 times the planned requests, bootstrap page included.
  lemma PlanCoversRun(w: World, o: Options, k: nat)
    requires Validate(o).Ok? && Explicit(o) && k == o.retries + 1
    ensures var report := Discover(w, o);
            && report.requests <= PlanOf(o)
            && report.pauses * o.pageDelay <= Paced(PlanOf(o), o.pageDelay)
            && report.attempts <= k * (PlanOf(o) + 1)
  {
    PlanCoversRequests(w, o);
    PlanCoversPauses(w, o);
    AttemptsPerRequest(w, o, k);
    PacedPauses(Discover(w, o).pauses, PlanOf(o), o.pageDelay);
    AtMost(k, Discover(w, o).requests + 1, PlanOf(o) + 1);
  }

  lemma PacedPauses(pauses: nat, planned: int, pageDelay: nat)
    requires pauses <= PausesBetween(planned, pageDelay)
    ensures pauses * pageDelay <= Paced(planned, pageDelay)
    ensures pauses == PausesBetween(planned, pageDelay) ==> pauses * pageDelay == Paced(planned, pageDelay)
  {
    if pageDelay > 0 { AtMost(pageDelay, pauses, Max(planned - 1, 0)); }
  }

  lemma AtMost(k: nat, a: int, b: int)
    requires a <= b
    ensures k * a <= k * b
  {
  }

  predicate AllRunOut(runs: seq<RouteRun>) {
    forall i {:trigger runs[i]} :: 0 <= i < |runs| ==> runs[i].end.OutOfPages?
  }

  // When no route stops early, exactly the planned requests are made.
  lemma {:induction false} NoEarlyStopMeetsCaps(w: World, p: Policy, pageDelay: int, maxPages: int, routes: seq<Route>,
                                                attempts: nat, requests: nat, runs: seq<RouteRun>)
    requires maxPages >= 0 && runs == RunRoutes(w, p, pageDelay, maxPages, routes, attempts, requests)
             && AllRunOut(runs)
    ensures RequestsOf(runs, requests) == requests + Caps(routes, maxPages)
  {
    if routes != [] {
      var cap := Cap(routes[0], maxPages);
      var run := RunRoute(w, p, pageDelay, routes[0], cap, [], attempts, requests);
      assert run == runs[0];
      RouteWithinCap(w, p, pageDelay, routes[0], cap, [], attempts, requests);
      NoEarlyStopMeetsCaps(w, p, pageDelay, maxPages, routes[1..], run.attempts, run.requests, runs[1..]);
    }
  }

  // The site hands out the bootstrap page, and no route stops before its cap.
  predicate RunsInFull(w: World, o: Options) {
    Validate(o).Ok?
    && var (maxPages, routes) := Validate(o).value;
       Request(w.bootstrap, PolicyOf(o), 0, 0).0.Granted?
       && AllRunOut(RunRoutes(w, PolicyOf(o), o.pageDelay, maxPages, routes, 0, 0))
  }

  lemma PlanMetWithoutEarlyStop(w: World, o: Options)
    requires RunsInFull(w, o)
    ensures Explicit(o) <==> Discover(w, o).requests == PlanOf(o)
    ensures Explicit(o) ==> Discover(w, o).pauses * o.pageDelay == Paced(PlanOf(o), o.pageDelay)
  {
    var (maxPages, routes) := Validate(o).value;
    var runs := RunRoutes(w, PolicyOf(o), o.pageDelay, maxPages, routes, 0, 0);
    PlanOfValid(o);
    NoEarlyStopMeetsCaps(w, PolicyOf(o), o.pageDelay, maxPages, routes, 0, 0, runs);
    PausesCounted(w, PolicyOf(o), o.pageDelay, maxPages, routes, 0, 0);
    if Explicit(o) { PacedPauses(Discover(w, o).pauses, PlanOf(o), o.pageDelay); }
  }

  // A site that always has another page.
  const ENDLESS := World(Server(_ => Granted("profile"), (_, _) => false),
                         Server(_ => Granted(PageResult([Listing("1", "", "", "")], MAX_DISCOVERY_PAGES + 1, 0)),
                                (_, _) => false),
                         _ => false, s => s)

  lemma {:induction false} EndlessRoute(p: Policy, pageDelay: int, route: Route, cap: int, pages: seq<Fetched>,
                                        attempts: nat, requests: nat)
    requires cap <= MAX_DISCOVERY_PAGES
    ensures RunRoute(ENDLESS, p, pageDelay, route, cap, pages, attempts, requests).end.OutOfPages?
    decreases cap - |pages|
  {
    if |pages| + 1 <= cap {
      var page := PageResult([Listing("1", "", "", "")], MAX_DISCOVERY_PAGES + 1, 0);
      assert Request(ENDLESS.server, p, attempts, 0) == (Granted(page), attempts + 1);
      EndlessRoute(p, pageDelay, route, cap, pages + [Fetched(|pages| + 1, page)], attempts + 1, requests + 1);
    }
  }

  lemma {:induction false} EndlessRuns(p: Policy, pageDelay: int, maxPages: int, routes: seq<Route>, attempts: nat,
                                       requests: nat, i: nat)
    requires forall k {:trigger routes[k]} :: 0 <= k < |routes| ==> Cap(routes[k], maxPages) <= MAX_DISCOVERY_PAGES
    requires i < |RunRoutes(ENDLESS, p, pageDelay, maxPages, routes, attempts, requests)|
    ensures RunRoutes(ENDLESS, p, pageDelay, maxPages, routes, attempts, requests)[i].end.OutOfPages?
  {
    var run := RunRoute(ENDLESS, p, pageDelay, routes[0], Cap(routes[0], maxPages), [], attempts, requests);
    EndlessRoute(p, pageDelay, routes[0], Cap(routes[0], maxPages), [], attempts, requests);
    if i > 0 {
      EndlessRuns(p, pageDelay, maxPages, routes[1..], run.attempts, run.requests, i - 1);
    }
  }

  lemma EndlessMeetsCaps(o: Options)
    requires Validate(o).Ok?
    ensures var (maxPages, routes) := Validate(o).value; Discover(ENDLESS, o).requests == Caps(routes, maxPages)
  {
    var (maxPages, routes) := Validate(o).value;
    CheckedRoutes(RoutesOf(o), {}, maxPages);
    var runs := RunRoutes(ENDLESS, PolicyOf(o), o.pageDelay, maxPages, routes, 0, 0);
    forall i {:trigger runs[i]} | 0 <= i < |runs| ensures runs[i].end.OutOfPages? {
      EndlessRuns(PolicyOf(o), o.pageDelay, maxPages, routes, 0, 0, i);
    }
    NoEarlyStopMeetsCaps(ENDLESS, PolicyOf(o), o.pageDelay, maxPages, routes, 0, 0, runs);
  }

  // The plan covers every run exactly when the options are explicit: with no
  // routes, or with neither a common nor an own page limit, the estimator
  // counts nothing where validation puts one page.
  lemma PlanExact(o: Options)
    requires Validate(o).Ok?
    ensures Explicit(o) <==> forall w {:trigger Discover(w, o)} :: Discover(w, o).requests <= PlanOf(o)
  {
    PlanOfValid(o);
    if Explicit(o) {
      forall w ensures Discover(w, o).requests <= PlanOf(o) { PlanCoversRequests(w, o); }
    } else {
      EndlessMeetsCaps(o);
      assert Discover(ENDLESS, o).requests > PlanOf(o);
    }
  }

  // An input for which the plan falls short: no routes were given.
  lemma PlanFallsShort()
    ensures var o := Options([], 0, 0, 0, 0); Validate(o).Ok? && PlanOf(o) == 0 && Discover(ENDLESS, o).requests == 1
  {
    var o := Options([], 0, 0, 0, 0);
    assert RoutesOf(o)[0] == Route("default", 0, true) && RoutesOf(o)[1..] == [];
    assert TrimSpace("default") == "default";
    EndlessMeetsCaps(o);
    PlanOfValid(o);
  }

  // ----- The plan for all locations -----

  // What each location meets: its result is in the cache or its address is
  // unusable; or it is searched on some site, with this report, unless the
  // caller gives up in the pause before.
  datatype Visit = Skipped | Live(world: World, report: Report, cancelled: bool)

  // What a search has cost so far, and how many locations were live.
  datatype Cost = Cost(requests: int, attempts: int, pagePause: int, locationPauses: nat, live: nat, cancelled: bool)

  function ReportFor(location: string, w: World, o: Options, overrides: map<string, int>,
                     lower: string -> string): Report
  {
    Discover(w, WithOverride(o, location, overrides, lower))
  }

  // The reports are those of the discoveries.
  ghost predicate Reported(locations: seq<string>, visits: seq<Visit>, o: Options, overrides: map<string, int>,
                           lower: string -> string)
  {
    && |visits| == |locations|
    && forall i {:trigger visits[i]} :: 0 <= i < |visits| && visits[i].Live? ==>
         visits[i].report == ReportFor(locations[i], visits[i].world, o, overrides, lower)
  }

  // The bootstrap page is asked for unless the options are refused.
  function Bootstraps(report: Report): nat {
    if report.outcome.Invalid? then 0 else 1
  }

  // The search of one location: a pause unless it is the first live one, then
  // the bootstrap page and the discovery.
  function CostAfter(c: Cost, visit: Visit, pageDelay: int, locationDelay: int): Cost {
    if c.cancelled || visit.Skipped? then c
    else
      var waits := c.live > 0 && locationDelay > 0;
      var c := c.(locationPauses := c.locationPauses + if waits then 1 else 0);
      if waits && visit.cancelled then c.(cancelled := true)
      else
        c.(requests := c.requests + visit.report.requests + Bootstraps(visit.report),
           attempts := c.attempts + visit.report.attempts,
           pagePause := c.pagePause + visit.report.pauses * pageDelay, live := c.live + 1)
  }

  function CostOf(visits: seq<Visit>, pageDelay: int, locationDelay: int): Cost {
    if visits == [] then Cost(0, 0, 0, 0, 0, false)
    else
      var n := |visits| - 1;
      CostAfter(CostOf(visits[..n], pageDelay, locationDelay), visits[n], pageDelay, locationDelay)
  }

  // All the time spent waiting on purpose.
  function PauseOf(c: Cost, locationDelay: int): int {
    c.pagePause + c.locationPauses * locationDelay
  }

  // The report is within this plan, k attempts allowed per request.
  predicate Fits(report: Report, plan: Estimate, pageDelay: int, k: nat) {
    && report.requests + Bootstraps(report) <= plan.requests && report.pauses * pageDelay <= plan.pacing
    && report.attempts <= k * plan.requests
  }

  lemma OptionsFit(w: World, o: Options, k: nat)
    requires BuiltByCommand(o) && k == o.retries + 1
    ensures Fits(Discover(w, o), Estimate(PlanOf(o) + 1, Paced(PlanOf(o), o.pageDelay)), o.pageDelay, k)
  {
    if Validate(o).Ok? { PlanCoversRun(w, o, k); } else { NothingFits(o, k); }
  }

  lemma NothingFits(o: Options, k: nat)
    requires BuiltByCommand(o)
    ensures 0 <= PlanOf(o) && 0 <= Paced(PlanOf(o), o.pageDelay) && 0 <= k * (PlanOf(o) + 1)
  {
    CapsNotNegative(o.routes, o.maxPages);
    PacedPauses(0, PlanOf(o), o.pageDelay);
    AtMost(k, 0, PlanOf(o) + 1);
  }

  lemma OneLocation(location: string, visit: Visit, o: Options, overrides: map<string, int>, lower: string -> string,
                    k: nat)
    requires BuiltByCommand(o) && OverridesOk(overrides, o.maxPages) && k == o.retries + 1
    ensures var plan := LocationPlan(location, o, overrides, lower);
            && 0 <= plan.requests && 0 <= plan.pacing && 0 <= k * plan.requests
            && (visit.Live? && visit.report == ReportFor(location, visit.world, o, overrides, lower) ==>
                  Fits(visit.report, plan, o.pageDelay, k))
  {
    var p := WithOverride(o, location, overrides, lower);
    OverrideLowersCaps(o, location, overrides, lower);
    NothingFits(p, k);
    if visit.Live? { OptionsFit(visit.world, p, k); }
  }

  lemma AddUp(k: int, spent: int, e: int, more: int, plan: int)
    requires spent <= k * e && more <= k * plan
    ensures spent + more <= k * (e + plan)
  {
  }

  // The cost is within this estimate, k attempts allowed per request.
  predicate Within(c: Cost, e: Estimate, k: nat) {
    c.requests <= e.requests && c.pagePause <= e.pacing && c.attempts <= k * e.requests
  }

  lemma CostWithin(c: Cost, e: Estimate, visit: Visit, plan: Estimate, pageDelay: int, locationDelay: int, k: nat)
    requires Within(c, e, k) && 0 <= plan.requests && 0 <= plan.pacing && 0 <= k * plan.requests
    requires visit.Live? ==> Fits(visit.report, plan, pageDelay, k)
    ensures Within(CostAfter(c, visit, pageDelay, locationDelay),
                   Estimate(e.requests + plan.requests, e.pacing + plan.pacing), k)
  {
    AddUp(k, c.attempts, e.requests, 0, plan.requests);
    if visit.Live? { AddUp(k, c.attempts, e.requests, visit.report.attempts, plan.requests); }
  }

  lemma ReportedBefore(locations: seq<string>, visits: seq<Visit>, o: Options, overrides: map<string, int>,
                       lower: string -> string)
    requires Reported(locations, visits, o, overrides, lower) && locations != []
    ensures var n := |locations| - 1;
            && Reported(locations[..n], visits[..n], o, overrides, lower)
            && (visits[n].Live? ==> visits[n].report == ReportFor(locations[n], visits[n].world, o, overrides, lower))
  {
  }

  lemma {:induction false} PagesWithin(locations: seq<string>, visits: seq<Visit>, o: Options,
                                       overrides: map<string, int>, locationDelay: int, lower: string -> string, k: nat)
    requires Reported(locations, visits, o, overrides, lower)
    requires BuiltByCommand(o) && OverridesOk(overrides, o.maxPages) && k == o.retries + 1
    ensures Within(CostOf(visits, o.pageDelay, locationDelay), EstimateOf(locations, true, o, overrides, lower), k)
  {
    if locations == [] {
      assert k * 0 == 0;
    } else {
      var n := |locations| - 1;
      ReportedBefore(locations, visits, o, overrides, lower);
      PagesWithin(locations[..n], visits[..n], o, overrides, locationDelay, lower, k);
      OneLocation(locations[n], visits[n], o, overrides, lower, k);
      var before, plan := EstimateOf(locations[..n], true, o, overrides, lower),
        LocationPlan(locations[n], o, overrides, lower);
      CostWithin(CostOf(visits[..n], o.pageDelay, locationDelay), before, visits[n], plan, o.pageDelay, locationDelay,
                 k);
      assert EstimateOf(locations, true, o, overrides, lower)
             == Estimate(before.requests + plan.requests, before.pacing + plan.pacing);
      assert CostOf(visits, o.pageDelay, locationDelay)
          == CostAfter(CostOf(visits[..n], o.pageDelay, locationDelay), visits[n], o.pageDelay, locationDelay);
    }
  }

  // One pause between every two live locations, and one more if given up in.
  lemma {:induction false} PausesWithin(visits: seq<Visit>, pageDelay: int, locationDelay: int)
    ensures var c := CostOf(visits, pageDelay, locationDelay);
            var met := c.live + if c.cancelled then 1 else 0;
            && met <= |visits| && (c.cancelled ==> c.live > 0 && locationDelay > 0)
            && c.locationPauses == PausesBetween(met, locationDelay)
  {
    if visits != [] { PausesWithin(visits[..|visits| - 1], pageDelay, locationDelay); }
  }

  // With options the command built, any overrides it accepted, any sites and
  // a caller who may give up at any pause, a search never makes more requests,
  // or pauses longer between pages and locations, than the estimate it
  // announced.
  lemma EstimateCoversSearch(locations: seq<string>, visits: seq<Visit>, o: Options, overrides: map<string, int>,
                             locationDelay: nat, lower: string -> string)
    requires Reported(locations, visits, o, overrides, lower)
    requires BuiltByCommand(o) && OverridesOk(overrides, o.maxPages) && o.retries >= 0
    ensures var e := EstimateAll(locations, true, o, overrides, locationDelay, lower);
            var c := CostOf(visits, o.pageDelay, locationDelay);
            c.requests <= e.requests && PauseOf(c, locationDelay) <= e.pacing
  {
    PagesWithin(locations, visits, o, overrides, locationDelay, lower, o.retries + 1);
    PausesWithin(visits, o.pageDelay, locationDelay);
    PacedPauses(CostOf(visits, o.pageDelay, locationDelay).locationPauses, |locations|, locationDelay);
  }

  // Counting every retry, it makes at most k = retries+1 times the estimate.
  lemma EstimateCoversRetries(locations: seq<string>, visits: seq<Visit>, o: Options, overrides: map<string, int>,
                              locationDelay: int, lower: string -> string, k: nat)
    requires Reported(locations, visits, o, overrides, lower)
    requires BuiltByCommand(o) && OverridesOk(overrides, o.maxPages) && k == o.retries + 1
    ensures CostOf(visits, o.pageDelay, locationDelay).attempts
         <= k * EstimateAll(locations, true, o, overrides, locationDelay, lower).requests
  {
    PagesWithin(locations, visits, o, overrides, locationDelay, lower, k);
  }

  // Every location is searched, and none of its routes stops early.
  ghost predicate InFull(locations: seq<string>, visits: seq<Visit>, o: Options, overrides: map<string, int>,
                         lower: string -> string)
  {
    && Reported(locations, visits, o, overrides, lower)
    && forall i {:trigger visits[i]} :: 0 <= i < |visits| ==>
         visits[i].Live? && !visits[i].cancelled
           && RunsInFull(visits[i].world, WithOverride(o, locations[i], overrides, lower))
  }

  lemma OneLocationInFull(w: World, location: string, o: Options, overrides: map<string, int>, lower: string -> string)
    requires BuiltByCommand(o) && OverridesOk(overrides, o.maxPages)
             && RunsInFull(w, WithOverride(o, location, overrides, lower))
    ensures var report := ReportFor(location, w, o, overrides, lower);
            LocationPlan(location, o, overrides, lower)
              == Estimate(report.requests + Bootstraps(report), report.pauses * o.pageDelay)
  {
    OverrideLowersCaps(o, location, overrides, lower);
    PlanMetWithoutEarlyStop(w, WithOverride(o, location, overrides, lower));
  }

  lemma InFullBefore(locations: seq<string>, visits: seq<Visit>, o: Options, overrides: map<string, int>,
                     lower: string -> string)
    requires InFull(locations, visits, o, overrides, lower) && locations != []
    ensures var n := |locations| - 1;
            && InFull(locations[..n], visits[..n], o, overrides, lower) && visits[n].Live? && !visits[n].cancelled
            && visits[n].report == ReportFor(locations[n], visits[n].world, o, overrides, lower)
            && RunsInFull(visits[n].world, WithOverride(o, locations[n], overrides, lower))
  {
    var n := |locations| - 1;
    assert forall i :: 0 <= i < n ==> visits[..n][i] == visits[i] && locations[..n][i] == locations[i];
  }

  lemma CostInFull(c: Cost, visit: Visit, pageDelay: int, locationDelay: int)
    requires visit.Live? && !visit.cancelled && !c.cancelled
    ensures var d := CostAfter(c, visit, pageDelay, locationDelay);
            && d.requests == c.requests + (visit.report.requests + Bootstraps(visit.report)) && d.live == c.live + 1
            && d.pagePause == c.pagePause + visit.report.pauses * pageDelay && !d.cancelled
  {
  }

  lemma {:induction false} PagesInFull(locations: seq<string>, visits: seq<Visit>, o: Options,
                                       overrides: map<string, int>, locationDelay: int, lower: string -> string)
    requires InFull(locations, visits, o, overrides, lower) && BuiltByCommand(o) && OverridesOk(overrides, o.maxPages)
    ensures var e := EstimateOf(locations, true, o, overrides, lower);
            var c := CostOf(visits, o.pageDelay, locationDelay);
            c.requests == e.requests && c.pagePause == e.pacing && c.live == |locations| && !c.cancelled
  {
    if locations != [] {
      var n := |locations| - 1;
      InFullBefore(locations, visits, o, overrides, lower);
      PagesInFull(locations[..n], visits[..n], o, overrides, locationDelay, lower);
      OneLocationInFull(visits[n].world, locations[n], o, overrides, lower);
      CostInFull(CostOf(visits[..n], o.pageDelay, locationDelay), visits[n], o.pageDelay, locationDelay);
    }
  }

  // When every location is searched and no route of any stops early, the
  // estimate is met.
  lemma EstimateIsMet(locations: seq<string>, visits: seq<Visit>, o: Options, overrides: map<string, int>,
                      locationDelay: nat, lower: string -> string)
    requires InFull(locations, visits, o, overrides, lower) && BuiltByCommand(o) && OverridesOk(overrides, o.maxPages)
    ensures var e := EstimateAll(locations, true, o, overrides, locationDelay, lower);
            var c := CostOf(visits, o.pageDelay, locationDelay);
            c.requests == e.requests && PauseOf(c, locationDelay) == e.pacing
  {
    PagesInFull(locations, visits, o, overrides, locationDelay, lower);
    PausesWithin(visits, o.pageDelay, locationDelay);
    PacedPauses(CostOf(visits, o.pageDelay, locationDelay).locationPauses, |locations|, locationDelay);
  }
}
