/** The listing filters of a search. Each is a loop that appends the listings it
    keeps. An early, lenient filter saves work before details are fetched; it is
    proved that running it first never changes what the final filter returns. */
module Filters {
  import opened Common
  import opened Text

  // Days, prices and areas are integers; bed counts are reals.
  datatype Facts = Facts(
    id: string, isBuilding: bool, livingArea: Option<int>, daysOnZillow: Option<int>, availability: string,
    totalMonthlyCost: Option<int>, status: string, sharedHousing: bool, studentHousing: bool, incomeRestricted: bool,
    laundry: string, parking: string, petPolicy: string, allowedPets: seq<string>, flexSpaces: seq<string>,
    bedrooms: Option<real>, city: string, state: string, postalCode: string, rest: string)

  datatype Listing = Listing(facts: Facts, matchStatus: string, matchReasons: seq<string>)

  datatype Options = Options(
    verifyRecency: bool, minSqft: int, maxDays: int, availableFrom: Option<int>, availableBy: Option<int>,
    unknownAvailability: string, outOfWindow: string, maxTotalCost: int, requireForRent: bool,
    excludeShared: bool, excludeStudent: bool, excludeIncomeRestricted: bool,
    laundry: string, parking: string, pets: string, flex: seq<string>, unknownLaundry: string)

  // The library calls whose results do not matter here: case mapping, date
  // parsing (relative to today), and the reading of a location query.
  datatype Library = Library(
    lower: string -> string, upper: string -> string, date: string -> Option<int>,
    cityName: string -> string, equalFold: (string, string) -> bool, queryCity: string -> (string, string))

  const ANY := "any"
  const EXCLUDE := "exclude"
  const WATCHLIST := "watchlist"
  const UNKNOWN := "unknown"

  // ----- Filters as functions -----

  function Choose(ls: seq<Listing>, judge: Listing -> Option<Listing>): seq<Listing> {
    if ls == [] then []
    else
      var n := |ls| - 1;
      Choose(ls[..n], judge) + (if judge(ls[n]).Some? then [judge(ls[n]).value] else [])
  }

  function Keep(keeps: Listing -> bool): Listing -> Option<Listing> {
    (l: Listing) => if keeps(l) then Some(l) else None
  }

  lemma ChooseAppend(ls: seq<Listing>, l: Listing, judge: Listing -> Option<Listing>)
    ensures Choose(ls + [l], judge) == Choose(ls, judge) + (if judge(l).Some? then [judge(l).value] else [])
  {
    assert (ls + [l])[..|ls|] == ls;
  }

  // A filter that only drops what the final judge would drop can go first.
  lemma {:induction false} ChooseAbsorbs(ls: seq<Listing>, early: Listing -> bool, judge: Listing -> Option<Listing>)
    requires forall l {:trigger judge(l)} :: !early(l) ==> judge(l).None?
    ensures Choose(Choose(ls, Keep(early)), judge) == Choose(ls, judge)
  {
    if ls != [] {
      var n := |ls| - 1;
      ChooseAbsorbs(ls[..n], early, judge);
      if early(ls[n]) {
        ChooseAppend(Choose(ls[..n], Keep(early)), ls[n], judge);
        assert Choose(ls, Keep(early)) == Choose(ls[..n], Keep(early)) + [ls[n]];
      } else {
        assert Choose(ls, Keep(early)) == Choose(ls[..n], Keep(early));
      }
    }
  }

  function Compose(first: Listing -> Option<Listing>, second: Listing -> Option<Listing>): Listing -> Option<Listing> {
    (l: Listing) => if first(l).Some? then second(first(l).value) else None
  }

  lemma {:induction false} ChooseThen(ls: seq<Listing>, first: Listing -> Option<Listing>,
                                      second: Listing -> Option<Listing>)
    ensures Choose(Choose(ls, first), second) == Choose(ls, Compose(first, second))
  {
    if ls != [] {
      var n := |ls| - 1;
      ChooseThen(ls[..n], first, second);
      if first(ls[n]).Some? {
        ChooseAppend(Choose(ls[..n], first), first(ls[n]).value, second);
        assert Choose(ls, first) == Choose(ls[..n], first) + [first(ls[n]).value];
      } else {
        assert Choose(ls, first) == Choose(ls[..n], first);
      }
    }
  }

  lemma {:induction false} ChooseAll(ls: seq<Listing>, judge: Listing -> Option<Listing>)
    requires forall l {:trigger judge(l)} :: judge(l) == Some(l)
    ensures Choose(ls, judge) == ls
  {
    if ls != [] {
      ChooseAll(ls[..|ls| - 1], judge);
    }
  }

  // ----- Detail filters -----

  predicate HasAdvancedFilters(o: Options) {
    || o.minSqft > 0 || o.maxDays >= 0 || o.availableFrom.Some? || o.availableBy.Some? || o.maxTotalCost > 0
    || o.requireForRent
    || o.excludeShared || o.excludeStudent || o.excludeIncomeRestricted
    || o.laundry != ANY || o.parking != ANY || o.pets != ANY || |o.flex| > 0
  }

  predicate IsForRent(status: string, lib: Library) {
    var normalized := lib.upper(TrimSpace(status));
    normalized == "FOR_RENT" || normalized == "FOR RENT" || "FOR_RENT_" <= normalized
  }

  predicate OutsideWindow(day: int, o: Options) {
    (o.availableFrom.Some? && day < o.availableFrom.value) || (o.availableBy.Some? && day > o.availableBy.value)
  }

  predicate Excluded(l: Listing, o: Options) {
    (o.excludeShared && l.facts.sharedHousing) || (o.excludeStudent && l.facts.studentHousing)
      || (o.excludeIncomeRestricted && l.facts.incomeRestricted)
  }

  predicate TermsMismatch(f: Facts, o: Options, lib: Library) {
    || (o.outOfWindow == EXCLUDE && lib.date(f.availability).Some? && OutsideWindow(lib.date(f.availability).value, o))
    || (o.maxTotalCost > 0 && f.totalMonthlyCost.Some? && f.totalMonthlyCost.value > o.maxTotalCost)
    || (o.requireForRent && TrimSpace(f.status) != "" && !IsForRent(f.status, lib))
  }

  // What the card alone shows to be out, when it is not a building's.
  predicate KnownMismatch(l: Listing, o: Options, lib: Library) {
    || (o.minSqft > 0 && l.facts.livingArea.Some? && l.facts.livingArea.value < o.minSqft)
    || (!o.verifyRecency && o.maxDays >= 0 && l.facts.daysOnZillow.Some? && l.facts.daysOnZillow.value > o.maxDays)
    || TermsMismatch(l.facts, o, lib)
    || Excluded(l, o)
  }

  predicate PassesPrefilter(l: Listing, o: Options, lib: Library) {
    l.facts.isBuilding || !KnownMismatch(l, o, lib)
  }

  function Normalize(value: string, lib: Library): string {
    lib.lower(TrimSpace(value))
  }

  function NormalizeOrUnknown(value: string, lib: Library): string {
    var normalized := Normalize(value, lib);
    if normalized == "" then UNKNOWN else normalized
  }

  predicate ParkingMatches(filter: string, value: string, lib: Library) {
    filter == ANY ||
      var value := NormalizeOrUnknown(value, lib);
      if filter == "available" then value == "available" || value == "garage" || value == "private-garage"
      else if filter == "garage" then value == "garage" || value == "private-garage"
      else value == filter
  }

  function JoinWithSpace(parts: seq<string>): string {
    if |parts| == 0 then "" else if |parts| == 1 then parts[0] else parts[0] + " " + JoinWithSpace(parts[1..])
  }

  predicate PetsMatch(filter: string, policy: string, allowedPets: seq<string>, lib: Library) {
    filter == ANY ||
      var policy := NormalizeOrUnknown(policy, lib);
      var allowed := policy == "allowed" || policy == "restricted";
      if filter == "allowed" then allowed
      else if filter == "none" then policy == "not-allowed"
      else if filter == UNKNOWN then policy == UNKNOWN
      else if filter == "dogs" || filter == "cats" then
        var text := lib.lower(JoinWithSpace(allowedPets));
        allowed && (Contains(text, filter[..3]) || Contains(text, "pets allowed") || Contains(text, "all pets"))
      else false
  }

  predicate HasAnyValue(values: seq<string>, wanted: seq<string>, lib: Library) {
    exists i, j :: 0 <= i < |values| && 0 <= j < |wanted| && Normalize(values[i], lib) == Normalize(wanted[j], lib)
  }

  predicate TwoBedPrivateGarageOnly(l: Listing, lib: Library) {
    l.facts.bedrooms == Some(2.0)
    && (exists i :: 0 <= i < |l.facts.flexSpaces| && Normalize(l.facts.flexSpaces[i], lib) == "private-garage")
    && (forall i :: 0 <= i < |l.facts.flexSpaces| ==>
        Normalize(l.facts.flexSpaces[i], lib) !in ["den", "office", "bonus", "loft", "flex"])
  }

  function MarkWatchlist(l: Listing, reason: string): Listing {
    l.(matchStatus := WATCHLIST,
       matchReasons := if reason in l.matchReasons then l.matchReasons else l.matchReasons + [reason])
  }

  function JudgeAvailability(l: Listing, o: Options, lib: Library): (r: Option<Listing>)
    ensures r.Some? ==> r.value.facts == l.facts
  {
    if o.availableFrom.None? && o.availableBy.None? then Some(l)
    else if lib.date(l.facts.availability).None? then
      if o.unknownAvailability == WATCHLIST then Some(MarkWatchlist(l, "availability needs verification")) else None
    else if OutsideWindow(lib.date(l.facts.availability).value, o) then
      if o.outOfWindow == WATCHLIST then Some(MarkWatchlist(l, "availability is outside the target window")) else None
    else Some(l)
  }

  function JudgeCost(l: Listing, o: Options): (r: Option<Listing>)
    ensures r.Some? ==> r.value.facts == l.facts
  {
    if o.maxTotalCost <= 0 then Some(l)
    else if l.facts.totalMonthlyCost.None? then Some(MarkWatchlist(l, "total monthly cost needs verification"))
    else if l.facts.totalMonthlyCost.value > o.maxTotalCost then None
    else Some(l)
  }

  function JudgeStatus(l: Listing, o: Options, lib: Library): (r: Option<Listing>)
    ensures r.Some? ==> r.value.facts == l.facts
  {
    if !o.requireForRent then Some(l)
    else if TrimSpace(l.facts.status) == "" then Some(MarkWatchlist(l, "current rental status needs verification"))
    else if !IsForRent(l.facts.status, lib) then None
    else Some(l)
  }

  function JudgeLaundry(l: Listing, o: Options, lib: Library): (r: Option<Listing>)
    ensures r.Some? ==> r.value.facts == l.facts
  {
    var laundry := NormalizeOrUnknown(l.facts.laundry, lib);
    if o.laundry == ANY || laundry == o.laundry then Some(l)
    else if laundry == UNKNOWN && o.unknownLaundry == WATCHLIST
    then Some(l.(matchStatus := WATCHLIST, matchReasons := l.matchReasons + ["laundry details are unknown"]))
    else None
  }

  function JudgeAmenities(l: Listing, o: Options, lib: Library): (r: Option<Listing>)
    ensures r.Some? ==> r.value.facts == l.facts
  {
    if !ParkingMatches(o.parking, l.facts.parking, lib) then None
    else if !PetsMatch(o.pets, l.facts.petPolicy, l.facts.allowedPets, lib) then None
    else if |o.flex| > 0 && !HasAnyValue(l.facts.flexSpaces, o.flex, lib) then None
    else if TwoBedPrivateGarageOnly(l, lib)
    then Some(MarkWatchlist(l, "private garage flex requires exclusive-use and inclusion verification"))
    else Some(l)
  }

  // Laundry first, then the rest.
  function JudgeRooms(l: Listing, o: Options, lib: Library): (r: Option<Listing>)
    ensures r.Some? ==> r.value.facts == l.facts
  {
    match JudgeLaundry(l, o, lib)
    case None => None
    case Some(l) => JudgeAmenities(l, o, lib)
  }

  function JudgeTerms(l: Listing, o: Options, lib: Library): (r: Option<Listing>)
    ensures r.Some? ==> r.value.facts == l.facts
  {
    match JudgeAvailability(l, o, lib)
    case None => None
    case Some(l) =>
      match JudgeCost(l, o)
      case None => None
      case Some(l) => JudgeStatus(l, o, lib)
  }

  // The final judgement of one listing, but for its age.
  function Judge(l: Listing, o: Options, lib: Library): (r: Option<Listing>)
    ensures r.Some? ==> r.value.facts == l.facts
  {
    if !HasAdvancedFilters(o) then Some(l)
    else if Excluded(l, o) then None
    else if o.minSqft > 0 && (l.facts.livingArea.None? || l.facts.livingArea.value < o.minSqft) then None
    else
      match JudgeTerms(Listing(l.facts, "match", []), o, lib)
      case None => None
      case Some(l) => JudgeRooms(l, o, lib)
  }

  predicate RecentEnough(l: Listing, o: Options) {
    o.maxDays < 0 || (l.facts.daysOnZillow.Some? && l.facts.daysOnZillow.value <= o.maxDays)
  }

  function Passes(o: Options, lib: Library): Listing -> bool {
    (l: Listing) => PassesPrefilter(l, o, lib)
  }

  function Judging(o: Options, lib: Library): Listing -> Option<Listing> {
    (l: Listing) => Judge(l, o, lib)
  }

  function Recent(o: Options): Listing -> bool {
    (l: Listing) => RecentEnough(l, o)
  }

  function Prefilter(ls: seq<Listing>, o: Options, lib: Library): seq<Listing> {
    Choose(ls, Keep(Passes(o, lib)))
  }

  function BeforeRecency(ls: seq<Listing>, o: Options, lib: Library): seq<Listing> {
    Choose(ls, Judging(o, lib))
  }

  function ByRecency(ls: seq<Listing>, o: Options): seq<Listing> {
    Choose(ls, Keep(Recent(o)))
  }

  function FinalFilter(ls: seq<Listing>, o: Options, lib: Library): seq<Listing> {
    ByRecency(BeforeRecency(ls, o, lib), o)
  }

  // ----- The prefilter goes first at no cost -----

  // Each reason of the prefilter is one of the final filter's.
  lemma MismatchIsRejected(l: Listing, o: Options, lib: Library)
    requires !PassesPrefilter(l, o, lib)
    ensures Judge(l, o, lib).None? || !RecentEnough(Judge(l, o, lib).value, o)
    ensures o.verifyRecency ==> Judge(l, o, lib).None?
  {
    if TermsMismatch(l.facts, o, lib) { MismatchedTermsAreRejected(Listing(l.facts, "match", []), o, lib); }
  }

  lemma MismatchedTermsAreRejected(l: Listing, o: Options, lib: Library)
    requires TermsMismatch(l.facts, o, lib)
    ensures JudgeTerms(l, o, lib).None?
  {
  }

  // Running the prefilter first never changes the result: for every list and
  // every option set, no listing is lost or altered by it.
  lemma PrefilterChangesNothing(ls: seq<Listing>, o: Options, lib: Library)
    ensures FinalFilter(Prefilter(ls, o, lib), o, lib) == FinalFilter(ls, o, lib)
  {
    var final := Compose(Judging(o, lib), Keep(Recent(o)));
    ChooseThen(ls, Judging(o, lib), Keep(Recent(o)));
    ChooseThen(Prefilter(ls, o, lib), Judging(o, lib), Keep(Recent(o)));
    forall l {:trigger final(l)} | !Passes(o, lib)(l) ensures final(l).None? {
      MismatchIsRejected(l, o, lib);
    }
    ChooseAbsorbs(ls, Passes(o, lib), final);
  }

  // When ages are verified in a second pass, that pass is given the same
  // listings, whatever the cards say about age.
  lemma PrefilterLeavesRecencyPass(ls: seq<Listing>, o: Options, lib: Library)
    requires o.verifyRecency
    ensures BeforeRecency(Prefilter(ls, o, lib), o, lib) == BeforeRecency(ls, o, lib)
  {
    forall l {:trigger Judging(o, lib)(l)} | !Passes(o, lib)(l) ensures Judging(o, lib)(l).None? {
      MismatchIsRejected(l, o, lib);
    }
    ChooseAbsorbs(ls, Passes(o, lib), Judging(o, lib));
  }

  // ----- The loops -----

  method PrefilterKnownListingMetadata(listings: seq<Listing>, o: Options, lib: Library)
    returns (filtered: seq<Listing>)
    ensures filtered == Prefilter(listings, o, lib)
  {
    filtered := [];
    for i := 0 to |listings|
      invariant filtered == Prefilter(listings[..i], o, lib)
    {
      var listing := listings[i];
      ChooseAppend(listings[..i], listing, Keep(Passes(o, lib)));
      assert listings[..i + 1] == listings[..i] + [listing];
      if listing.facts.isBuilding {
        filtered := filtered + [listing];
        continue;
      }
      if KnownMismatch(listing, o, lib) { continue; }
      filtered := filtered + [listing];
    }
    assert listings[..|listings|] == listings;
  }

  method FilterDetailedListingsBeforeRecency(listings: seq<Listing>, o: Options, lib: Library)
    returns (filtered: seq<Listing>)
    ensures filtered == BeforeRecency(listings, o, lib)
  {
    if !HasAdvancedFilters(o) {
      ChooseAll(listings, Judging(o, lib));
      return listings;
    }
    filtered := [];
    for i := 0 to |listings|
      invariant filtered == BeforeRecency(listings[..i], o, lib)
    {
      ChooseAppend(listings[..i], listings[i], Judging(o, lib));
      assert listings[..i + 1] == listings[..i] + [listings[i]];
      var judged := Judge(listings[i], o, lib);
      if judged.Some? { filtered := filtered + [judged.value]; }
    }
    assert listings[..|listings|] == listings;
  }

  method FilterListingsByRecency(listings: seq<Listing>, o: Options) returns (filtered: seq<Listing>)
    ensures filtered == ByRecency(listings, o)
  {
    if o.maxDays < 0 {
      ChooseAll(listings, Keep(Recent(o)));
      return listings;
    }
    filtered := [];
    for i := 0 to |listings|
      invariant filtered == ByRecency(listings[..i], o)
    {
      var days := listings[i].facts.daysOnZillow;
      ChooseAppend(listings[..i], listings[i], Keep(Recent(o)));
      assert listings[..i + 1] == listings[..i] + [listings[i]];
      if days.None? || days.value > o.maxDays { continue; }
      filtered := filtered + [listings[i]];
    }
    assert listings[..|listings|] == listings;
  }

  method FilterDetailedListings(listings: seq<Listing>, o: Options, lib: Library) returns (filtered: seq<Listing>)
    ensures filtered == FinalFilter(listings, o, lib) == FinalFilter(Prefilter(listings, o, lib), o, lib)
  {
    PrefilterChangesNothing(listings, o, lib);
    filtered := FilterDetailedListingsBeforeRecency(listings, o, lib);
    filtered := FilterListingsByRecency(filtered, o);
  }

  // ----- What a match means -----

  predicate TermsVerified(f: Facts, o: Options, lib: Library) {
    && (o.availableFrom.Some? || o.availableBy.Some? ==>
        lib.date(f.availability).Some? && !OutsideWindow(lib.date(f.availability).value, o))
    && (o.maxTotalCost > 0 ==> f.totalMonthlyCost.Some? && f.totalMonthlyCost.value <= o.maxTotalCost)
    && (o.requireForRent ==> TrimSpace(f.status) != "" && IsForRent(f.status, lib))
  }

  predicate RoomsVerified(l: Listing, o: Options, lib: Library) {
    var f := l.facts;
    && (o.laundry != ANY ==> NormalizeOrUnknown(f.laundry, lib) == o.laundry)
    && ParkingMatches(o.parking, f.parking, lib) && PetsMatch(o.pets, f.petPolicy, f.allowedPets, lib)
    && (|o.flex| > 0 ==> HasAnyValue(f.flexSpaces, o.flex, lib))
    && !TwoBedPrivateGarageOnly(l, lib)
  }

  // Every fact the options ask about is known and as asked.
  predicate Verified(l: Listing, o: Options, lib: Library) {
    && !Excluded(l, o)
    && (o.minSqft > 0 ==> l.facts.livingArea.Some? && l.facts.livingArea.value >= o.minSqft)
    && TermsVerified(l.facts, o, lib) && RoomsVerified(l, o, lib)
  }

  lemma MatchedTerms(l: Listing, o: Options, lib: Library)
    requires l.matchStatus == "match"
    ensures var r := JudgeTerms(l, o, lib);
            && (r.Some? && r.value.matchStatus == "match" <==> TermsVerified(l.facts, o, lib))
            && (r.Some? && r.value.matchStatus == "match" ==> r.value == l)
            && (r.Some? && r.value.matchStatus != "match" ==> r.value.matchStatus == WATCHLIST)
  {
  }

  lemma MatchedRooms(l: Listing, o: Options, lib: Library)
    ensures var r := JudgeRooms(l, o, lib);
            && (r.Some? && r.value.matchStatus == "match" <==> l.matchStatus == "match" && RoomsVerified(l, o, lib))
            && (r.Some? && r.value.matchStatus == "match" ==> r.value == l)
  {
  }

  // A listing is kept as a match exactly when every fact asked about is
  // known and as asked; whatever else is kept is on the watchlist.
  lemma MatchIffVerified(l: Listing, o: Options, lib: Library)
    requires HasAdvancedFilters(o)
    ensures Judge(l, o, lib).Some? && Judge(l, o, lib).value.matchStatus == "match" <==> Verified(l, o, lib)
  {
    var begun := Listing(l.facts, "match", []);
    MatchedTerms(begun, o, lib);
    var terms := JudgeTerms(begun, o, lib);
    if terms.Some? { MatchedRooms(terms.value, o, lib); }
  }

  // ----- The location boundary -----

  datatype Boundary = Boundary(strict: bool, allowedCities: set<string>, cityAliases: map<string, seq<string>>)

  predicate IsPostalCode(value: string) {
    |value| == 5 && forall i :: 0 <= i < 5 ==> '0' <= value[i] <= '9'
  }

  function Aliases(query: string, b: Boundary, lib: Library): seq<string> {
    var key := lib.lower(TrimSpace(query));
    if key in b.cityAliases then b.cityAliases[key] else []
  }

  function ExpectedCities(query: string, b: Boundary, lib: Library): set<string> {
    var city := lib.queryCity(query).0;
    (if city == "" then {} else {city}) + set alias | alias in Aliases(query, b, lib)
  }

  // With allowUnknown, a field the card leaves blank is given the benefit of the doubt.
  predicate InsideBoundary(l: Listing, query: string, b: Boundary, allowUnknown: bool, lib: Library) {
    var city := lib.cityName(l.facts.city);
    var state := TrimSpace(l.facts.state);
    var postalCode := TrimSpace(l.facts.postalCode);
    var expected := ExpectedCities(query, b, lib);
    && (b.allowedCities == {} || (allowUnknown && city == "") || city in b.allowedCities)
    && (lib.queryCity(query).1 == "" || (allowUnknown && state == "") || lib.equalFold(state, lib.queryCity(query).1))
    && (!b.strict ||
        if IsPostalCode(TrimSpace(query)) then (allowUnknown && postalCode == "") || postalCode == TrimSpace(query)
        else expected == {} || (allowUnknown && city == "") || city in expected)
  }

  function Inside(query: string, b: Boundary, allowUnknown: bool, lib: Library): Listing -> bool {
    (l: Listing) => (!b.strict && b.allowedCities == {}) || InsideBoundary(l, query, b, allowUnknown, lib)
  }

  function ByBoundary(ls: seq<Listing>, query: string, b: Boundary, allowUnknown: bool, lib: Library): seq<Listing> {
    Choose(ls, Keep(Inside(query, b, allowUnknown, lib)))
  }

  // The strict boundary filter after its lenient form is the strict one alone.
  lemma LenientBoundaryFirst(ls: seq<Listing>, query: string, b: Boundary, lib: Library)
    ensures ByBoundary(ByBoundary(ls, query, b, true, lib), query, b, false, lib)
            == ByBoundary(ls, query, b, false, lib)
  {
    ChooseAbsorbs(ls, Inside(query, b, true, lib), Keep(Inside(query, b, false, lib)));
  }

  method FilterListingsByLocationBoundary(listings: seq<Listing>, query: string, b: Boundary, allowUnknown: bool,
                                          lib: Library)
    returns (filtered: seq<Listing>)
    ensures filtered == ByBoundary(listings, query, b, allowUnknown, lib)
  {
    if !b.strict && b.allowedCities == {} {
      ChooseAll(listings, Keep(Inside(query, b, allowUnknown, lib)));
      return listings;
    }
    var (queryCity, queryState) := lib.queryCity(query);
    var expected := ExpectedCitiesOf(query, queryCity, b, lib);
    filtered := [];
    for i := 0 to |listings|
      invariant filtered == ByBoundary(listings[..i], query, b, allowUnknown, lib)
    {
      var listing := listings[i];
      ChooseAppend(listings[..i], listing, Keep(Inside(query, b, allowUnknown, lib)));
      assert listings[..i + 1] == listings[..i] + [listing];
      var city := lib.cityName(listing.facts.city);
      if b.allowedCities != {} && !(allowUnknown && city == "") && city !in b.allowedCities { continue; }
      var state := TrimSpace(listing.facts.state);
      if queryState != "" && !(allowUnknown && state == "") && !lib.equalFold(state, queryState) { continue; }
      if b.strict {
        if IsPostalCode(TrimSpace(query)) {
          var actual := TrimSpace(listing.facts.postalCode);
          if !(allowUnknown && actual == "") && actual != TrimSpace(query) { continue; }
        } else if expected != {} && !(allowUnknown && city == "") && city !in expected { continue; }
      }
      filtered := filtered + [listing];
    }
    assert listings[..|listings|] == listings;
  }

  method ExpectedCitiesOf(query: string, queryCity: string, b: Boundary, lib: Library) returns (expected: set<string>)
    requires queryCity == lib.queryCity(query).0
    ensures expected == ExpectedCities(query, b, lib)
  {
    expected := if queryCity != "" then {queryCity} else {};
    var aliases := Aliases(query, b, lib);
    for i := 0 to |aliases|
      invariant expected == (if queryCity == "" then {} else {queryCity}) + set alias | alias in aliases[..i]
    {
      expected := expected + {aliases[i]};
    }
    assert aliases[..|aliases|] == aliases;
  }

  // ----- Bed ranges -----

  datatype BedRange = BedRange(minBeds: real, maxBeds: real)

  predicate Open(r: BedRange) {
    r.minBeds <= 0.0 && r.maxBeds <= 0.0
  }

  predicate InRange(beds: real, r: BedRange) {
    (r.minBeds <= 0.0 || beds >= r.minBeds) && (r.maxBeds <= 0.0 || beds <= r.maxBeds)
  }

  predicate MatchesBedRanges(l: Listing, ranges: seq<BedRange>) {
    exists i ::
        0 <= i < |ranges| && (Open(ranges[i]) || (l.facts.bedrooms.Some? && InRange(l.facts.bedrooms.value, ranges[i])))
  }

  function InBedRanges(ranges: seq<BedRange>, allowUnknown: bool): Listing -> bool {
    (l: Listing) =>
      ranges == [] || l.facts.isBuilding || (allowUnknown && l.facts.bedrooms.None?) || MatchesBedRanges(l, ranges)
  }

  function ByBedRanges(ls: seq<Listing>, ranges: seq<BedRange>, allowUnknown: bool): seq<Listing> {
    Choose(ls, Keep(InBedRanges(ranges, allowUnknown)))
  }

  // The strict bed-range filter after its lenient form is the strict one alone.
  lemma LenientBedRangesFirst(ls: seq<Listing>, ranges: seq<BedRange>)
    ensures ByBedRanges(ByBedRanges(ls, ranges, true), ranges, false) == ByBedRanges(ls, ranges, false)
  {
    ChooseAbsorbs(ls, InBedRanges(ranges, true), Keep(InBedRanges(ranges, false)));
  }

  method ListingMatchesBedRanges(l: Listing, ranges: seq<BedRange>) returns (matches: bool)
    ensures matches <==> MatchesBedRanges(l, ranges)
  {
    for i := 0 to |ranges|
      invariant forall j :: 0 <= j < i ==>
                  !Open(ranges[j]) && !(l.facts.bedrooms.Some? && InRange(l.facts.bedrooms.value, ranges[j]))
    {
      var minimum, maximum := ranges[i].minBeds, ranges[i].maxBeds;
      if minimum <= 0.0 && maximum <= 0.0 { return true; }
      if l.facts.bedrooms.None? { continue; }
      if minimum > 0.0 && l.facts.bedrooms.value < minimum { continue; }
      if maximum > 0.0 && l.facts.bedrooms.value > maximum { continue; }
      return true;
    }
    return false;
  }

  method FilterListingsByBedRanges(listings: seq<Listing>, ranges: seq<BedRange>, allowUnknown: bool)
    returns (filtered: seq<Listing>)
    ensures filtered == ByBedRanges(listings, ranges, allowUnknown)
  {
    if |ranges| == 0 {
      ChooseAll(listings, Keep(InBedRanges(ranges, allowUnknown)));
      return listings;
    }
    filtered := [];
    for i := 0 to |listings|
      invariant filtered == ByBedRanges(listings[..i], ranges, allowUnknown)
    {
      ChooseAppend(listings[..i], listings[i], Keep(InBedRanges(ranges, allowUnknown)));
      assert listings[..i + 1] == listings[..i] + [listings[i]];
      var matches := ListingMatchesBedRanges(listings[i], ranges);
      if listings[i].facts.isBuilding || (allowUnknown && listings[i].facts.bedrooms.None?) || matches {
        filtered := filtered + [listings[i]];
      }
    }
    assert listings[..|listings|] == listings;
  }
}
