/** What the filters decide, in the terms of the options and the facts: which
    listings are dropped, which are kept as a match, and which go on the
    watchlist and why. */
module FilterLaws {
  import opened Common
  import opened Text
  import Pieces
  import opened Filters

  // ----- What each option asks -----

  predicate InWindow(day: int, o: Options) {
    (o.availableFrom.Some? ==> o.availableFrom.value <= day) && (o.availableBy.Some? ==> day <= o.availableBy.value)
  }

  predicate HasWindow(o: Options) {
    o.availableFrom.Some? || o.availableBy.Some?
  }

  predicate ForRent(status: string, lib: Library) {
    var s := lib.upper(TrimSpace(status));
    s in {"FOR_RENT", "FOR RENT"} || "FOR_RENT_" <= s
  }

  // A blank value is unknown.
  function Named(value: string, lib: Library): string {
    var v := lib.lower(TrimSpace(value));
    if v == "" then "unknown" else v
  }

  // A private garage is a garage, and a garage is parking.
  function ParkingFor(filter: string): set<string> {
    if filter == "available" then {"available", "garage", "private-garage"}
    else if filter == "garage" then {"garage", "private-garage"}
    else {filter}
  }

  predicate PetsSuit(filter: string, policy: string, pets: string) {
    if filter == "any" then true
    else if filter == "allowed" then policy in {"allowed", "restricted"}
    else if filter == "none" then policy == "not-allowed"
    else if filter == "unknown" then policy == "unknown"
    else
      var kind := if filter == "dogs" then "dog" else "cat";
      && filter in {"dogs", "cats"} && policy in {"allowed", "restricted"}
      && (Contains(pets, kind) || Contains(pets, "pets allowed") || Contains(pets, "all pets"))
  }

  function PetText(pets: seq<string>, lib: Library): string {
    lib.lower(if pets == [] then "" else Pieces.Join(pets, ' '))
  }

  // Some space of the listing is among those wanted.
  ghost predicate HasSpace(spaces: seq<string>, wanted: seq<string>, lib: Library) {
    exists s, w :: s in spaces && w in wanted && lib.lower(TrimSpace(s)) == lib.lower(TrimSpace(w))
  }

  // Two bedrooms, and no spare space but a private garage.
  ghost predicate GarageForRoom(f: Facts, lib: Library) {
    && f.bedrooms == Some(2.0)
    && (exists s :: s in f.flexSpaces && lib.lower(TrimSpace(s)) == "private-garage")
    && (forall s :: s in f.flexSpaces ==>
          lib.lower(TrimSpace(s)) !in {"den", "office", "bonus", "loft", "flex"})
  }

  // ----- The decision -----

  // The time to move in is known to be out, and out means dropped; or it is
  // not known, and that does.
  predicate WrongTime(f: Facts, o: Options, lib: Library) {
    var day := lib.date(f.availability);
    HasWindow(o)
    && if day.None? then o.unknownAvailability != "watchlist"
       else !InWindow(day.value, o) && o.outOfWindow != "watchlist"
  }

  predicate WrongLaundry(f: Facts, o: Options, lib: Library) {
    var laundry := Named(f.laundry, lib);
    o.laundry != "any" && laundry != o.laundry && !(laundry == "unknown" && o.unknownLaundry == "watchlist")
  }

  // The listing is dropped.
  ghost predicate Drops(f: Facts, o: Options, lib: Library) {
    || (o.excludeShared && f.sharedHousing) || (o.excludeStudent && f.studentHousing)
    || (o.excludeIncomeRestricted && f.incomeRestricted)
    || (o.minSqft > 0 && (f.livingArea.None? || f.livingArea.value < o.minSqft))
    || WrongTime(f, o, lib)
    || (o.maxTotalCost > 0 && f.totalMonthlyCost.Some? && f.totalMonthlyCost.value > o.maxTotalCost)
    || (o.requireForRent && TrimSpace(f.status) != "" && !ForRent(f.status, lib))
    || WrongLaundry(f, o, lib)
    || (o.parking != "any" && Named(f.parking, lib) !in ParkingFor(o.parking))
    || !PetsSuit(o.pets, Named(f.petPolicy, lib), PetText(f.allowedPets, lib))
    || (o.flex != [] && !HasSpace(f.flexSpaces, o.flex, lib))
  }

  function TimeDoubts(f: Facts, o: Options, lib: Library): seq<string> {
    var day := lib.date(f.availability);
    if !HasWindow(o) then []
    else if day.None? then ["availability needs verification"]
    else if !InWindow(day.value, o) then ["availability is outside the target window"]
    else []
  }

  function CostDoubts(f: Facts, o: Options): seq<string> {
    if o.maxTotalCost > 0 && f.totalMonthlyCost.None? then ["total monthly cost needs verification"] else []
  }

  function StatusDoubts(f: Facts, o: Options): seq<string> {
    if o.requireForRent && TrimSpace(f.status) == "" then ["current rental status needs verification"] else []
  }

  function LaundryDoubts(f: Facts, o: Options, lib: Library): seq<string> {
    if o.laundry != "any" && Named(f.laundry, lib) != o.laundry then ["laundry details are unknown"] else []
  }

  ghost function GarageDoubts(f: Facts, lib: Library): seq<string> {
    if GarageForRoom(f, lib) then ["private garage flex requires exclusive-use and inclusion verification"] else []
  }

  // Why a listing that is not dropped needs another look.
  ghost function Doubts(f: Facts, o: Options, lib: Library): seq<string> {
    TimeDoubts(f, o, lib) + CostDoubts(f, o) + StatusDoubts(f, o) + LaundryDoubts(f, o, lib) + GarageDoubts(f, lib)
  }

  // The listing with these doubts.
  function WithDoubts(f: Facts, doubts: seq<string>): Listing {
    Listing(f, if doubts == [] then "match" else "watchlist", doubts)
  }

  // ----- The filter decides just so -----

  lemma ParkingLaw(filter: string, value: string, lib: Library)
    ensures ParkingMatches(filter, value, lib) <==> filter == "any" || Named(value, lib) in ParkingFor(filter)
  {
  }

  lemma {:induction false} JoinedPets(pets: seq<string>)
    ensures JoinWithSpace(pets) == if pets == [] then "" else Pieces.Join(pets, ' ')
  {
    if |pets| > 1 { JoinedPets(pets[1..]); }
  }

  lemma PetsLaw(filter: string, policy: string, pets: seq<string>, lib: Library)
    ensures PetsMatch(filter, policy, pets, lib) <==> PetsSuit(filter, Named(policy, lib), PetText(pets, lib))
  {
    JoinedPets(pets);
    assert filter == "dogs" ==> filter[..3] == "dog";
    assert filter == "cats" ==> filter[..3] == "cat";
  }

  lemma SpaceLaw(spaces: seq<string>, wanted: seq<string>, lib: Library)
    ensures HasAnyValue(spaces, wanted, lib) <==> HasSpace(spaces, wanted, lib)
  {
    if HasSpace(spaces, wanted, lib) {
      var s, w :| s in spaces && w in wanted && lib.lower(TrimSpace(s)) == lib.lower(TrimSpace(w));
      var i, j :| 0 <= i < |spaces| && spaces[i] == s && 0 <= j < |wanted| && wanted[j] == w;
      assert Normalize(spaces[i], lib) == Normalize(wanted[j], lib);
    }
  }

  lemma GarageLaw(l: Listing, lib: Library)
    ensures TwoBedPrivateGarageOnly(l, lib) <==> GarageForRoom(l.facts, lib)
  {
    NamedSpace(l.facts.flexSpaces, "private-garage", lib);
    OtherSpaces(l.facts.flexSpaces, lib);
  }

  lemma NamedSpace(spaces: seq<string>, name: string, lib: Library)
    ensures (exists i :: 0 <= i < |spaces| && Normalize(spaces[i], lib) == name)
            <==> exists s :: s in spaces && lib.lower(TrimSpace(s)) == name
  {
    if s :| s in spaces && lib.lower(TrimSpace(s)) == name {
      var i :| 0 <= i < |spaces| && spaces[i] == s;
      assert Normalize(spaces[i], lib) == name;
    }
    if i: nat :| i < |spaces| && Normalize(spaces[i], lib) == name {
      assert spaces[i] in spaces;
    }
  }

  lemma OtherSpaces(spaces: seq<string>, lib: Library)
    ensures (forall i :: 0 <= i < |spaces| ==>
               Normalize(spaces[i], lib) !in ["den", "office", "bonus", "loft", "flex"])
            <==> (forall s :: s in spaces ==>
                    lib.lower(TrimSpace(s)) !in {"den", "office", "bonus", "loft", "flex"})
  {
    forall name ensures name in ["den", "office", "bonus", "loft", "flex"]
                        <==> name in {"den", "office", "bonus", "loft", "flex"} {}
  }

  // One more doubt, which the listing does not have yet.
  lemma Marked(f: Facts, doubts: seq<string>, reason: string)
    requires reason !in doubts
    ensures MarkWatchlist(WithDoubts(f, doubts), reason) == WithDoubts(f, doubts + [reason])
  {
  }

  lemma TimeLaw(f: Facts, o: Options, lib: Library)
    ensures JudgeAvailability(WithDoubts(f, []), o, lib)
            == if WrongTime(f, o, lib) then None else Some(WithDoubts(f, TimeDoubts(f, o, lib)))
  {
    var unknown, outside := "availability needs verification", "availability is outside the target window";
    Marked(f, [], unknown);
    Marked(f, [], outside);
    assert [] + [unknown] == [unknown] && [] + [outside] == [outside];
  }

  lemma CostLaw(f: Facts, doubts: seq<string>, o: Options)
    requires "total monthly cost needs verification" !in doubts
    ensures JudgeCost(WithDoubts(f, doubts), o)
            == if o.maxTotalCost > 0 && f.totalMonthlyCost.Some? && f.totalMonthlyCost.value > o.maxTotalCost then None
               else Some(WithDoubts(f, doubts + CostDoubts(f, o)))
  {
    assert doubts + [] == doubts;
  }

  lemma StatusLaw(f: Facts, doubts: seq<string>, o: Options, lib: Library)
    requires "current rental status needs verification" !in doubts
    ensures JudgeStatus(WithDoubts(f, doubts), o, lib)
            == if o.requireForRent && TrimSpace(f.status) != "" && !ForRent(f.status, lib) then None
               else Some(WithDoubts(f, doubts + StatusDoubts(f, o)))
  {
    assert doubts + [] == doubts;
  }

  lemma LaundryLaw(f: Facts, doubts: seq<string>, o: Options, lib: Library)
    ensures JudgeLaundry(WithDoubts(f, doubts), o, lib)
            == if WrongLaundry(f, o, lib) then None else Some(WithDoubts(f, doubts + LaundryDoubts(f, o, lib)))
  {
    assert doubts + [] == doubts;
  }

  lemma AmenitiesLaw(f: Facts, doubts: seq<string>, o: Options, lib: Library)
    requires "private garage flex requires exclusive-use and inclusion verification" !in doubts
    ensures JudgeAmenities(WithDoubts(f, doubts), o, lib)
            == if (o.parking != "any" && Named(f.parking, lib) !in ParkingFor(o.parking))
                  || !PetsSuit(o.pets, Named(f.petPolicy, lib), PetText(f.allowedPets, lib))
                  || (o.flex != [] && !HasSpace(f.flexSpaces, o.flex, lib)) then None
               else Some(WithDoubts(f, doubts + GarageDoubts(f, lib)))
  {
    ParkingLaw(o.parking, f.parking, lib);
    PetsLaw(o.pets, f.petPolicy, f.allowedPets, lib);
    SpaceLaw(f.flexSpaces, o.flex, lib);
    GarageLaw(WithDoubts(f, doubts), lib);
    assert doubts + [] == doubts;
  }

  lemma TermsLaw(f: Facts, o: Options, lib: Library)
    ensures JudgeTerms(WithDoubts(f, []), o, lib)
            == if WrongTime(f, o, lib)
                  || (o.maxTotalCost > 0 && f.totalMonthlyCost.Some? && f.totalMonthlyCost.value > o.maxTotalCost)
                  || (o.requireForRent && TrimSpace(f.status) != "" && !ForRent(f.status, lib)) then None
               else Some(WithDoubts(f, TimeDoubts(f, o, lib) + CostDoubts(f, o) + StatusDoubts(f, o)))
  {
    TimeLaw(f, o, lib);
    CostLaw(f, TimeDoubts(f, o, lib), o);
    StatusLaw(f, TimeDoubts(f, o, lib) + CostDoubts(f, o), o, lib);
  }

  lemma RoomsLaw(f: Facts, doubts: seq<string>, o: Options, lib: Library)
    requires "private garage flex requires exclusive-use and inclusion verification" !in doubts
    ensures JudgeRooms(WithDoubts(f, doubts), o, lib)
            == if WrongLaundry(f, o, lib)
                  || (o.parking != "any" && Named(f.parking, lib) !in ParkingFor(o.parking))
                  || !PetsSuit(o.pets, Named(f.petPolicy, lib), PetText(f.allowedPets, lib))
                  || (o.flex != [] && !HasSpace(f.flexSpaces, o.flex, lib)) then None
               else Some(WithDoubts(f, doubts + LaundryDoubts(f, o, lib) + GarageDoubts(f, lib)))
  {
    LaundryLaw(f, doubts, o, lib);
    AmenitiesLaw(f, doubts + LaundryDoubts(f, o, lib), o, lib);
  }

  // Nothing is asked of a listing.
  predicate AsksNothing(o: Options) {
    && o.minSqft <= 0 && o.maxDays < 0 && !HasWindow(o) && o.maxTotalCost <= 0 && !o.requireForRent
    && !o.excludeShared && !o.excludeStudent && !o.excludeIncomeRestricted
    && o.laundry == "any" && o.parking == "any" && o.pets == "any" && o.flex == []
  }

  // A listing is dropped exactly for one of the reasons given; if it is not,
  // it is a match without doubts, or on the watchlist with all of them.
  lemma JudgeLaw(l: Listing, o: Options, lib: Library)
    ensures Judge(l, o, lib)
            == if AsksNothing(o) then Some(l)
               else if Drops(l.facts, o, lib) then None else Some(WithDoubts(l.facts, Doubts(l.facts, o, lib)))
  {
    AskedLaw(o);
    var f := l.facts;
    TermsLaw(f, o, lib);
    RoomsLaw(f, TimeDoubts(f, o, lib) + CostDoubts(f, o) + StatusDoubts(f, o), o, lib);
  }

  lemma AskedLaw(o: Options)
    ensures HasAdvancedFilters(o) <==> !AsksNothing(o)
  {
  }

  // ----- The early filter -----

  // What a card alone can show to be out.
  predicate ShownOut(f: Facts, o: Options, lib: Library) {
    || (o.excludeShared && f.sharedHousing) || (o.excludeStudent && f.studentHousing)
    || (o.excludeIncomeRestricted && f.incomeRestricted)
    || (o.minSqft > 0 && f.livingArea.Some? && f.livingArea.value < o.minSqft)
    || (!o.verifyRecency && o.maxDays >= 0 && f.daysOnZillow.Some? && f.daysOnZillow.value > o.maxDays)
    || (o.outOfWindow == "exclude" && lib.date(f.availability).Some? && !InWindow(lib.date(f.availability).value, o))
    || (o.maxTotalCost > 0 && f.totalMonthlyCost.Some? && f.totalMonthlyCost.value > o.maxTotalCost)
    || (o.requireForRent && TrimSpace(f.status) != "" && !ForRent(f.status, lib))
  }

  // Buildings are let through, and of the rest exactly what is not out.
  lemma PrefilterLaw(l: Listing, o: Options, lib: Library)
    ensures Passes(o, lib)(l) <==> l.facts.isBuilding || !ShownOut(l.facts, o, lib)
  {
  }

  lemma RecencyLaw(l: Listing, o: Options)
    ensures Recent(o)(l) <==> (o.maxDays >= 0 ==> l.facts.daysOnZillow.Some? && l.facts.daysOnZillow.value <= o.maxDays)
  {
  }

  // ----- Lists -----

  // The listing is neither dropped nor too old.
  ghost predicate Stays(l: Listing, o: Options, lib: Library) {
    && (AsksNothing(o) || !Drops(l.facts, o, lib))
    && (o.maxDays >= 0 ==> l.facts.daysOnZillow.Some? && l.facts.daysOnZillow.value <= o.maxDays)
  }

  lemma StaysIff(l: Listing, o: Options, lib: Library)
    ensures Stays(l, o, lib) <==> Judge(l, o, lib).Some? && RecentEnough(l, o)
  {
    JudgeLaw(l, o, lib);
  }

  // The positions of the listings that stay.
  ghost function Kept(ls: seq<Listing>, o: Options, lib: Library): seq<nat> {
    if ls == [] then []
    else
      var n := |ls| - 1;
      Kept(ls[..n], o, lib) + if Stays(ls[n], o, lib) then [n] else []
  }

  lemma {:induction false} KeptMeaning(ls: seq<Listing>, o: Options, lib: Library)
    ensures var kept := Kept(ls, o, lib);
            && (forall k {:trigger kept[k]} :: 0 <= k < |kept| ==> kept[k] < |ls|)
            && (forall j, k :: 0 <= j < k < |kept| ==> kept[j] < kept[k])
            && (forall n: nat :: n < |ls| ==> (n in kept <==> Stays(ls[n], o, lib)))
  {
    if ls != [] {
      var m := |ls| - 1;
      KeptMeaning(ls[..m], o, lib);
      KeptMore(Kept(ls[..m], o, lib), ls, m, o, lib);
    }
  }

  lemma KeptMore(before: seq<nat>, ls: seq<Listing>, m: nat, o: Options, lib: Library)
    requires m < |ls|
    requires forall k {:trigger before[k]} :: 0 <= k < |before| ==> before[k] < m
    requires forall j, k :: 0 <= j < k < |before| ==> before[j] < before[k]
    requires forall n: nat :: n < m ==> (n in before <==> Stays(ls[..m][n], o, lib))
    ensures var kept := before + if Stays(ls[m], o, lib) then [m] else [];
            && (forall k {:trigger kept[k]} :: 0 <= k < |kept| ==> kept[k] <= m)
            && (forall j, k :: 0 <= j < k < |kept| ==> kept[j] < kept[k])
            && (forall n: nat :: n <= m ==> (n in kept <==> Stays(ls[n], o, lib)))
  {
    forall n: nat | n < m ensures ls[..m][n] == ls[n] {}
  }

  // What each listing kept is returned as.
  ghost predicate ReturnedAs(ls: seq<Listing>, kept: seq<nat>, o: Options, lib: Library, returned: seq<Listing>) {
    && |returned| == |kept|
    && forall k {:trigger kept[k]} {:trigger returned[k]} :: 0 <= k < |kept| ==>
         kept[k] < |ls|
         && returned[k] == if AsksNothing(o) then ls[kept[k]]
                           else WithDoubts(ls[kept[k]].facts, Doubts(ls[kept[k]].facts, o, lib))
  }

  // The final filter returns the listings that stay, in order, each as a match
  // or with its doubts.
  lemma {:induction false} FinalLaw(ls: seq<Listing>, o: Options, lib: Library)
    ensures ReturnedAs(ls, Kept(ls, o, lib), o, lib, FinalFilter(ls, o, lib))
  {
    if ls != [] {
      var n := |ls| - 1;
      FinalLaw(ls[..n], o, lib);
      FinalStep(ls, o, lib);
      ReturnedMore(ls, Kept(ls[..n], o, lib), o, lib, FinalFilter(ls[..n], o, lib));
    }
  }

  lemma ReturnedMore(ls: seq<Listing>, kept: seq<nat>, o: Options, lib: Library, returned: seq<Listing>)
    requires ls != [] && ReturnedAs(ls[..|ls| - 1], kept, o, lib, returned)
    ensures var n := |ls| - 1; var l := ls[n];
            if Stays(l, o, lib)
            then ReturnedAs(ls, kept + [n], o, lib,
                            returned + [if AsksNothing(o) then l else WithDoubts(l.facts, Doubts(l.facts, o, lib))])
            else ReturnedAs(ls, kept, o, lib, returned)
  {
    forall k {:trigger kept[k]} | 0 <= k < |kept| ensures ls[..|ls| - 1][kept[k]] == ls[kept[k]] {}
  }

  lemma FinalStep(ls: seq<Listing>, o: Options, lib: Library)
    requires ls != []
    ensures var n := |ls| - 1; var l := ls[n];
            FinalFilter(ls, o, lib)
            == FinalFilter(ls[..n], o, lib)
               + if Stays(l, o, lib)
                 then [if AsksNothing(o) then l else WithDoubts(l.facts, Doubts(l.facts, o, lib))] else []
  {
    var n := |ls| - 1;
    var judged, before := Judge(ls[n], o, lib), BeforeRecency(ls[..n], o, lib);
    StaysIff(ls[n], o, lib);
    JudgeLaw(ls[n], o, lib);
    assert Judging(o, lib)(ls[n]) == judged;
    if judged.Some? {
      ChooseAppend(before, judged.value, Keep(Recent(o)));
      assert BeforeRecency(ls, o, lib) == before + [judged.value];
    } else {
      assert BeforeRecency(ls, o, lib) == before;
    }
  }
}
