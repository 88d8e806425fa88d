/** What a discovery returns, said of the listings: each that was fetched and is
    not the same as an earlier one, in order. Listings are told apart by texts,
    so this needs route names that cannot pass for the text of an ID, a URL or
    an address; which those are is said exactly. */
module DiscoveryListings {
  import opened Common
  import opened Text
  import opened Retry
  import opened Discovery

  // ----- The same listing -----

  // By ID; without IDs by URL; with neither by address, letter case aside. A
  // listing with none of them is the same as no other.
  predicate Same(a: Listing, b: Listing, lower: string -> string) {
    if TrimSpace(a.id) != "" || TrimSpace(b.id) != "" then TrimSpace(a.id) == TrimSpace(b.id)
    else if TrimSpace(a.url) != "" || TrimSpace(b.url) != "" then TrimSpace(a.url) == TrimSpace(b.url)
    else TrimSpace(a.address) != "" && TrimSpace(b.address) != ""
         && lower(TrimSpace(a.address)) == lower(TrimSpace(b.address))
  }

  predicate Anonymous(l: Listing) {
    TrimSpace(l.id) == "" && TrimSpace(l.url) == "" && TrimSpace(l.address) == ""
  }

  predicate SeenBefore(all: seq<Listing>, n: nat, lower: string -> string)
    requires n < |all|
  {
    exists m :: 0 <= m < n && Same(all[m], all[n], lower)
  }

  // The positions of the listings that no earlier one is the same as.
  function Firsts(all: seq<Listing>, lower: string -> string): seq<nat> {
    if all == [] then []
    else
      var n := |all| - 1;
      Firsts(all[..n], lower) + if SeenBefore(all, n, lower) then [] else [n]
  }

  // The listings returned are those of these positions, in order.
  ghost predicate KeepsFirsts(kept: seq<Listing>, all: seq<Listing>, lower: string -> string) {
    var positions := Firsts(all, lower);
    && |kept| == |positions|
    && forall k {:trigger positions[k]} {:trigger kept[k]} :: 0 <= k < |kept| ==>
         positions[k] < |all| && kept[k] == all[positions[k]]
  }

  lemma SeenInPrefix(all: seq<Listing>, m: nat, n: nat, lower: string -> string)
    requires n < m <= |all|
    ensures SeenBefore(all, n, lower) == SeenBefore(all[..m], n, lower)
  {
    if SeenBefore(all, n, lower) {
      var i :| 0 <= i < n && Same(all[i], all[n], lower);
      assert all[..m][i] == all[i] && all[..m][n] == all[n];
    }
    if SeenBefore(all[..m], n, lower) {
      var i :| 0 <= i < n && Same(all[..m][i], all[..m][n], lower);
      assert Same(all[i], all[n], lower);
    }
  }

  lemma {:induction false} FirstsMeaning(all: seq<Listing>, lower: string -> string)
    ensures var positions := Firsts(all, lower);
            && (forall k {:trigger positions[k]} :: 0 <= k < |positions| ==> positions[k] < |all|)
            && (forall j, k :: 0 <= j < k < |positions| ==> positions[j] < positions[k])
            && (forall n: nat :: n < |all| ==> (n in positions <==> !SeenBefore(all, n, lower)))
  {
    if all != [] {
      var m := |all| - 1;
      FirstsMeaning(all[..m], lower);
      forall n: nat | n < m ensures SeenBefore(all, n, lower) == SeenBefore(all[..m], n, lower) {
        SeenInPrefix(all, m, n, lower);
      }
    }
  }

  lemma SameThen(a: Listing, b: Listing, c: Listing, lower: string -> string)
    requires Same(a, b, lower) && Same(b, c, lower)
    ensures Same(a, c, lower) && Same(b, a, lower)
  {
  }

  // Of those fetched that are the same, the first is returned.
  lemma {:induction false} FirstIsKept(kept: seq<Listing>, all: seq<Listing>, lower: string -> string, n: nat)
    requires KeepsFirsts(kept, all, lower) && n < |all|
    ensures exists k :: 0 <= k < |kept| && Firsts(all, lower)[k] <= n
                        && (kept[k] == all[n] || Same(kept[k], all[n], lower))
    decreases n
  {
    FirstsMeaning(all, lower);
    var positions := Firsts(all, lower);
    if SeenBefore(all, n, lower) {
      var m :| 0 <= m < n && Same(all[m], all[n], lower);
      FirstIsKept(kept, all, lower, m);
      var k :| 0 <= k < |kept| && positions[k] <= m && (kept[k] == all[m] || Same(kept[k], all[m], lower));
      if kept[k] != all[m] { SameThen(kept[k], all[m], all[n], lower); }
    } else {
      var k :| 0 <= k < |positions| && positions[k] == n;
      assert kept[k] == all[n];
    }
  }

  // No two listings returned are the same.
  lemma NoneTwice(kept: seq<Listing>, all: seq<Listing>, lower: string -> string, j: nat, k: nat)
    requires KeepsFirsts(kept, all, lower) && j < k < |kept|
    ensures !Same(kept[j], kept[k], lower)
  {
    FirstsMeaning(all, lower);
    var positions := Firsts(all, lower);
    assert positions[j] < positions[k] && positions[k] in positions;
  }

  // Each ID fetched is returned once: the listing first fetched with it.
  lemma EachIdOnce(kept: seq<Listing>, all: seq<Listing>, lower: string -> string, n: nat)
    requires KeepsFirsts(kept, all, lower) && n < |all| && TrimSpace(all[n].id) != ""
    requires forall m :: 0 <= m < n ==> TrimSpace(all[m].id) != TrimSpace(all[n].id)
    ensures exists k :: 0 <= k < |kept| && kept[k] == all[n]
                        && forall j :: 0 <= j < |kept| && j != k ==> TrimSpace(kept[j].id) != TrimSpace(all[n].id)
  {
    FirstsMeaning(all, lower);
    var positions := Firsts(all, lower);
    assert !SeenBefore(all, n, lower);
    var k :| 0 <= k < |positions| && positions[k] == n;
    forall j | 0 <= j < |kept| && j != k ensures TrimSpace(kept[j].id) != TrimSpace(all[n].id) {
      NoneTwice(kept, all, lower, if j < k then j else k, if j < k then k else j);
    }
    assert kept[k] == all[n];
  }

  // ----- Places -----

  predicate NoColon(s: string) {
    forall i :: 0 <= i < |s| ==> s[i] != ':'
  }

  lemma {:induction false} DecimalIsDigits(n: nat)
    ensures forall i :: 0 <= i < |Decimal(n)| ==> '0' <= Decimal(n)[i] <= '9'
  {
    if n >= 10 { DecimalIsDigits(n / 10); }
  }

  lemma {:induction false} DecimalIsInjective(m: nat, n: nat)
    requires Decimal(m) == Decimal(n)
    ensures m == n
  {
    var a, b := Decimal(m), Decimal(n);
    assert a[|a| - 1] == '0' + (m % 10) as char && b[|b| - 1] == '0' + (n % 10) as char;
    assert a[..|a| - 1] == (if m < 10 then [] else Decimal(m / 10));
    assert b[..|b| - 1] == (if n < 10 then [] else Decimal(n / 10));
    if m >= 10 && n >= 10 { DecimalIsInjective(m / 10, n / 10); }
  }

  lemma LastColon(a: string, x: string, b: string, y: string)
    requires a + ":" + x == b + ":" + y && NoColon(x) && NoColon(y)
    ensures a == b && x == y
  {
    var s := a + ":" + x;
    assert s[|a|] == ':' && s[|b|] == ':';
    assert forall k {:trigger s[k]} :: |a| < k < |s| ==> s[k] == x[k - |a| - 1];
    assert forall k {:trigger s[k]} :: |b| < k < |s| ==> s[k] == y[k - |b| - 1];
    assert s[..|a|] == a && s[..|b|] == b && s[|a| + 1..] == x && s[|b| + 1..] == y;
  }

  lemma PlaceIsInjective(r: string, p: nat, i: nat, r': string, p': nat, i': nat)
    requires Place(r, p, i) == Place(r', p', i')
    ensures r == r' && p == p' && i == i'
  {
    DecimalIsDigits(p);
    DecimalIsDigits(i);
    DecimalIsDigits(p');
    DecimalIsDigits(i');
    LastColon(r + ":" + Decimal(p), Decimal(i), r' + ":" + Decimal(p'), Decimal(i'));
    LastColon(r, Decimal(p), r', Decimal(p'));
    DecimalIsInjective(p, p');
    DecimalIsInjective(i, i');
  }

  // ----- Names that pass for something else -----

  // The text by which the i-th listing of a page is known, if it has no ID,
  // URL or address, is the text of one that has.
  ghost predicate Passes(name: string, page: nat, i: nat, lower: string -> string) {
    var p := name + ":" + Decimal(page) + ":" + Decimal(i);
    || ("id:" < p && !IsSpace(p[3]))
    || ("url:" < p && !IsSpace(p[4]))
    || ("address:" <= p && exists a :: TrimSpace(a) != "" && lower(TrimSpace(a)) == p[8..])
  }

  lemma TrimmedTwice(s: string)
    requires s != [] && !IsSpace(s[0]) && !IsSpace(s[|s| - 1])
    ensures TrimSpace(s) == s
  {
  }

  // Such a listing, when there is one.
  lemma Impostor(name: string, page: nat, i: nat, lower: string -> string) returns (l: Listing)
    requires Passes(name, page, i, lower)
    ensures !Anonymous(l) && Key(l, "", lower) == Place(name, page, i)
  {
    var p := Place(name, page, i);
    if "id:" < p && !IsSpace(p[3]) {
      PlaceRest(name, page, i, 3);
      l := Listing(p[3..], "", "", "");
    } else if "url:" < p && !IsSpace(p[4]) {
      PlaceRest(name, page, i, 4);
      l := Listing("", p[4..], "", "");
    } else {
      var a :| TrimSpace(a) != "" && lower(TrimSpace(a)) == p[8..];
      l := Listing("", "", a, "");
    }
  }

  // What follows the kind is trimmed if it does not begin with white space.
  lemma PlaceRest(name: string, page: nat, i: nat, k: nat)
    requires k < |Place(name, page, i)| && !IsSpace(Place(name, page, i)[k])
    ensures TrimSpace(Place(name, page, i)[k..]) == Place(name, page, i)[k..]
  {
    var p, d := Place(name, page, i), Decimal(i);
    DecimalIsDigits(i);
    assert p[|p| - 1] == d[|d| - 1] && p[k..][|p| - k - 1] == p[|p| - 1];
    TrimmedTwice(p[k..]);
  }

  lemma ImpostorPasses(name: string, page: nat, i: nat, lower: string -> string, l: Listing, place: string)
    requires !Anonymous(l) && Key(l, place, lower) == Place(name, page, i)
    ensures Passes(name, page, i, lower)
  {
    var p := Place(name, page, i);
    if TrimSpace(l.id) != "" {
      assert p[3..] == TrimSpace(l.id);
    } else if TrimSpace(l.url) != "" {
      assert p[4..] == TrimSpace(l.url);
    } else {
      assert p[8..] == lower(TrimSpace(l.address));
    }
  }

  // A name that does not begin like one of these texts never passes.
  predicate Apart(name: string) {
    !("id:" <= name + ":") && !("url:" <= name + ":") && !("address:" <= name + ":")
  }

  lemma BeginsLike(kind: string, name: string, rest: string)
    requires kind != [] && kind[|kind| - 1] == ':' && NoColon(kind[..|kind| - 1]) && kind <= name + ":" + rest
    ensures kind <= name + ":"
  {
    var p := name + ":" + rest;
    assert p[|name|] == ':';
    assert forall k {:trigger p[k]} :: 0 <= k < |kind| - 1 ==> p[k] == kind[..|kind| - 1][k];
    assert p[..|kind|] == (name + ":")[..|kind|];
  }

  lemma ApartNeverPasses(name: string, page: nat, i: nat, lower: string -> string)
    requires Apart(name)
    ensures !Passes(name, page, i, lower)
  {
    var rest := Decimal(page) + ":" + Decimal(i);
    var p := name + ":" + rest;
    assert p == name + ":" + Decimal(page) + ":" + Decimal(i);
    if "id:" <= p { BeginsLike("id:", name, rest); }
    if "url:" <= p { BeginsLike("url:", name, rest); }
    if "address:" <= p { BeginsLike("address:", name, rest); }
  }

  // ----- What was fetched -----

  function ListingsIn(pages: seq<Fetched>): seq<Listing> {
    if pages == [] then [] else ListingsIn(pages[..|pages| - 1]) + pages[|pages| - 1].result.listings
  }

  // Everything fetched, in order.
  function AllFetched(runs: seq<RouteRun>): seq<Listing> {
    if runs == [] then [] else AllFetched(runs[..|runs| - 1]) + ListingsIn(runs[|runs| - 1].pages)
  }

  // Where a listing was fetched.
  datatype Spot = Spot(route: string, page: nat, index: nat, listing: Listing)

  function SpotsOfPage(route: string, page: nat, listings: seq<Listing>): (r: seq<Spot>)
    ensures |r| == |listings|
  {
    seq(|listings|, i requires 0 <= i < |listings| => Spot(route, page, i, listings[i]))
  }

  function SpotsOf(route: string, pages: seq<Fetched>): seq<Spot> {
    if pages == [] then []
    else
      var n := |pages| - 1;
      SpotsOf(route, pages[..n]) + SpotsOfPage(route, pages[n].page, pages[n].result.listings)
  }

  function AllSpots(routes: seq<Route>, runs: seq<RouteRun>): seq<Spot>
    requires |runs| <= |routes|
  {
    if runs == [] then []
    else
      var n := |runs| - 1;
      AllSpots(routes, runs[..n]) + SpotsOf(routes[n].name, runs[n].pages)
  }

  function ItemOf(s: Spot, lower: string -> string): Item {
    Item(Key(s.listing, Place(s.route, s.page, s.index), lower), s.listing)
  }

  function ItemsFor(spots: seq<Spot>, lower: string -> string): (r: seq<Item>)
    ensures |r| == |spots|
  {
    seq(|spots|, i requires 0 <= i < |spots| => ItemOf(spots[i], lower))
  }

  function ListingsFor(spots: seq<Spot>): (r: seq<Listing>)
    ensures |r| == |spots|
  {
    seq(|spots|, i requires 0 <= i < |spots| => spots[i].listing)
  }

  lemma ItemsForAppend(a: seq<Spot>, b: seq<Spot>, lower: string -> string)
    ensures ItemsFor(a + b, lower) == ItemsFor(a, lower) + ItemsFor(b, lower)
    ensures ListingsFor(a + b) == ListingsFor(a) + ListingsFor(b)
  {
  }

  lemma {:induction false} PageItems(route: string, page: nat, listings: seq<Listing>, lower: string -> string)
    ensures ItemsOfPage(route, page, listings, lower) == ItemsFor(SpotsOfPage(route, page, listings), lower)
    ensures ListingsFor(SpotsOfPage(route, page, listings)) == listings
  {
    if listings != [] {
      var n := |listings| - 1;
      PageItems(route, page, listings[..n], lower);
      assert SpotsOfPage(route, page, listings)
          == SpotsOfPage(route, page, listings[..n]) + [Spot(route, page, n, listings[n])];
      ItemsForAppend(SpotsOfPage(route, page, listings[..n]), [Spot(route, page, n, listings[n])], lower);
    }
  }

  lemma {:induction false} RouteItems(route: string, pages: seq<Fetched>, lower: string -> string)
    ensures ItemsOf(route, pages, lower) == ItemsFor(SpotsOf(route, pages), lower)
    ensures ListingsFor(SpotsOf(route, pages)) == ListingsIn(pages)
  {
    if pages != [] {
      var n := |pages| - 1;
      RouteItems(route, pages[..n], lower);
      PageItems(route, pages[n].page, pages[n].result.listings, lower);
      ItemsForAppend(SpotsOf(route, pages[..n]), SpotsOfPage(route, pages[n].page, pages[n].result.listings), lower);
    }
  }

  lemma {:induction false} RunItems(routes: seq<Route>, runs: seq<RouteRun>, lower: string -> string)
    requires |runs| <= |routes|
    ensures AllItems(routes, runs, lower) == ItemsFor(AllSpots(routes, runs), lower)
    ensures ListingsFor(AllSpots(routes, runs)) == AllFetched(runs)
  {
    if runs != [] {
      var n := |runs| - 1;
      RunItems(routes, runs[..n], lower);
      RouteItems(routes[n].name, runs[n].pages, lower);
      ItemsForAppend(AllSpots(routes, runs[..n]), SpotsOf(routes[n].name, runs[n].pages), lower);
    }
  }

  // ----- No place twice -----

  ghost predicate DistinctSpots(spots: seq<Spot>) {
    forall i, j {:trigger spots[i], spots[j]} :: 0 <= i < j < |spots| ==>
      !(spots[i].route == spots[j].route && spots[i].page == spots[j].page && spots[i].index == spots[j].index)
  }

  lemma {:induction false} RouteSpots(route: string, pages: seq<Fetched>)
    requires Numbered(pages)
    ensures var spots := SpotsOf(route, pages);
            && DistinctSpots(spots)
            && forall i {:trigger spots[i]} :: 0 <= i < |spots| ==>
                 spots[i].route == route && 1 <= spots[i].page <= |pages|
  {
    if pages != [] { RouteSpots(route, pages[..|pages| - 1]); }
  }

  ghost predicate NumberedRuns(routes: seq<Route>, runs: seq<RouteRun>, maxPages: int) {
    && |runs| <= |routes|
    && forall k {:trigger runs[k]} :: 0 <= k < |runs| ==>
         Numbered(runs[k].pages) && |runs[k].pages| <= Cap(routes[k], maxPages)
  }

  // The spot is within the page limit of its route.
  ghost predicate Within(s: Spot, routes: seq<Route>, m: nat, maxPages: int)
    requires m <= |routes|
  {
    exists k :: 0 <= k < m && s.route == routes[k].name && 1 <= s.page <= Cap(routes[k], maxPages)
  }

  lemma {:induction false} RunSpots(routes: seq<Route>, runs: seq<RouteRun>, maxPages: int)
    requires NumberedRuns(routes, runs, maxPages) && DistinctNames(routes)
    ensures var spots := AllSpots(routes, runs);
            && DistinctSpots(spots)
            && forall i {:trigger spots[i]} :: 0 <= i < |spots| ==> Within(spots[i], routes, |runs|, maxPages)
  {
    if runs != [] {
      var n := |runs| - 1;
      RunSpots(routes, runs[..n], maxPages);
      RouteSpots(routes[n].name, runs[n].pages);
      var before, more := AllSpots(routes, runs[..n]), SpotsOf(routes[n].name, runs[n].pages);
      forall i | 0 <= i < |before|
        ensures before[i].route != routes[n].name && Within(before[i], routes, n + 1, maxPages)
      {
        assert Within(before[i], routes, n, maxPages);
      }
      forall i | 0 <= i < |more| ensures Within(more[i], routes, n + 1, maxPages) {
        assert more[i].route == routes[n].name && 1 <= more[i].page <= Cap(routes[n], maxPages);
      }
    }
  }

  // ----- Keys and listings -----

  // No place among these passes for the text of an identified listing.
  ghost predicate NonePasses(spots: seq<Spot>, lower: string -> string) {
    forall i {:trigger spots[i]} :: 0 <= i < |spots| ==>
      !Passes(spots[i].route, spots[i].page, spots[i].index, lower)
  }

  lemma SameKeys(a: Listing, b: Listing, p: string, q: string, lower: string -> string)
    ensures Same(a, b, lower) ==> Key(a, p, lower) == Key(b, q, lower)
    ensures !Anonymous(a) && !Anonymous(b) && Key(a, p, lower) == Key(b, q, lower) ==> Same(a, b, lower)
  {
    var k, l := Key(a, p, lower), Key(b, q, lower);
    assert k[0..] == k && l[0..] == l;
    if !Anonymous(a) && !Anonymous(b) && k == l {
      assert TrimSpace(a.id) != "" ==> k[0] == 'i' && k[3..] == TrimSpace(a.id);
      assert TrimSpace(b.id) != "" ==> l[0] == 'i' && l[3..] == TrimSpace(b.id);
      assert TrimSpace(a.id) == "" && TrimSpace(a.url) != "" ==> k[0] == 'u' && k[4..] == TrimSpace(a.url);
      assert TrimSpace(b.id) == "" && TrimSpace(b.url) != "" ==> l[0] == 'u' && l[4..] == TrimSpace(b.url);
      assert TrimSpace(a.id) == "" && TrimSpace(a.url) == "" ==> k[0] == 'a' && k[8..] == lower(TrimSpace(a.address));
      assert TrimSpace(b.id) == "" && TrimSpace(b.url) == "" ==> l[0] == 'a' && l[8..] == lower(TrimSpace(b.address));
    }
  }

  lemma KeysTell(spots: seq<Spot>, lower: string -> string, i: nat, j: nat)
    requires DistinctSpots(spots) && NonePasses(spots, lower) && i < j < |spots|
    ensures ItemOf(spots[i], lower).key == ItemOf(spots[j], lower).key
            <==> Same(spots[i].listing, spots[j].listing, lower)
  {
    var s, t := spots[i], spots[j];
    var p, q := Place(s.route, s.page, s.index), Place(t.route, t.page, t.index);
    SameKeys(s.listing, t.listing, p, q, lower);
    if Key(s.listing, p, lower) == Key(t.listing, q, lower) {
      if Anonymous(s.listing) && Anonymous(t.listing) {
        PlaceIsInjective(s.route, s.page, s.index, t.route, t.page, t.index);
      } else if Anonymous(s.listing) {
        ImpostorPasses(s.route, s.page, s.index, lower, t.listing, q);
      } else if Anonymous(t.listing) {
        ImpostorPasses(t.route, t.page, t.index, lower, s.listing, p);
      }
    }
  }

  lemma {:induction false} KeysOfIndex(items: seq<Item>, key: string)
    ensures key in KeysOf(items) <==> exists i :: 0 <= i < |items| && items[i].key == key
  {
    if items != [] {
      var n := |items| - 1;
      KeysOfIndex(items[..n], key);
      if i: nat :| i < n && items[..n][i].key == key { assert items[i].key == key; }
      if i: nat :| i < |items| && items[i].key == key { assert i < n ==> items[..n][i].key == key; }
    }
  }

  // The key of listing n has been seen exactly if the listing has.
  lemma SeenIff(spots: seq<Spot>, lower: string -> string, n: nat)
    requires DistinctSpots(spots) && NonePasses(spots, lower) && n < |spots|
    ensures ItemOf(spots[n], lower).key in KeysOf(ItemsFor(spots[..n], lower))
            <==> SeenBefore(ListingsFor(spots), n, lower)
  {
    var items, all := ItemsFor(spots[..n], lower), ListingsFor(spots);
    KeysOfIndex(items, ItemOf(spots[n], lower).key);
    forall m: nat | m < n ensures items[m].key == ItemOf(spots[n], lower).key <==> Same(all[m], all[n], lower) {
      KeysTell(spots, lower, m, n);
    }
    if m: nat :| m < n && Same(all[m], all[n], lower) {
      assert items[m].key == ItemOf(spots[n], lower).key;
    }
  }

  lemma KeepsMore(kept: seq<Listing>, all: seq<Listing>, l: Listing, lower: string -> string)
    requires KeepsFirsts(kept, all, lower)
    ensures KeepsFirsts(if SeenBefore(all + [l], |all|, lower) then kept else kept + [l], all + [l], lower)
  {
    assert (all + [l])[..|all|] == all;
  }

  lemma FirstOccurrencesMore(items: seq<Item>, item: Item)
    ensures ListingsOf(FirstOccurrences(items + [item]))
            == ListingsOf(FirstOccurrences(items)) + if item.key in KeysOf(items) then [] else [item.listing]
  {
    var more, firsts := items + [item], FirstOccurrences(items);
    assert more[..|items|] == items && more[|more| - 1] == item;
    if item.key in KeysOf(items) {
      assert FirstOccurrences(more) == firsts + [] == firsts;
      assert ListingsOf(firsts) + [] == ListingsOf(firsts);
    } else {
      assert FirstOccurrences(more) == firsts + [item];
    }
  }

  lemma SpotsInit(spots: seq<Spot>, lower: string -> string)
    requires spots != []
    ensures var n := |spots| - 1;
            && ItemsFor(spots, lower) == ItemsFor(spots[..n], lower) + [ItemOf(spots[n], lower)]
            && ListingsFor(spots) == ListingsFor(spots[..n]) + [spots[n].listing]
  {
  }

  lemma {:induction false} FirstsAreKept(spots: seq<Spot>, lower: string -> string)
    requires DistinctSpots(spots) && NonePasses(spots, lower)
    ensures KeepsFirsts(ListingsOf(FirstOccurrences(ItemsFor(spots, lower))), ListingsFor(spots), lower)
  {
    if spots != [] {
      var n := |spots| - 1;
      var items, all, item := ItemsFor(spots[..n], lower), ListingsFor(spots[..n]), ItemOf(spots[n], lower);
      FirstsAreKept(spots[..n], lower);
      SeenIff(spots, lower, n);
      SpotsInit(spots, lower);
      KeepsMore(ListingsOf(FirstOccurrences(items)), all, spots[n].listing, lower);
      FirstOccurrencesMore(items, item);
      assert ListingsOf(FirstOccurrences(items)) + [] == ListingsOf(FirstOccurrences(items));
    }
  }

  // ----- The result of a discovery -----

  function RunsOf(w: World, o: Options): (r: seq<RouteRun>)
    requires Validate(o).Ok?
    ensures |r| <= |Validate(o).value.1|
  {
    var (maxPages, routes) := Validate(o).value;
    RoutesArePrefix(w, PolicyOf(o), o.pageDelay, maxPages, routes, 0, 0);
    RunRoutes(w, PolicyOf(o), o.pageDelay, maxPages, routes, 0, 0)
  }

  // No place that a page may have passes for the text of a listing.
  ghost predicate NeverPasses(o: Options, lower: string -> string)
    requires Validate(o).Ok?
  {
    var (maxPages, routes) := Validate(o).value;
    forall k, page, i: nat {:trigger Passes(routes[k].name, page, i, lower)} ::
      0 <= k < |routes| && 1 <= page <= Cap(routes[k], maxPages) ==> !Passes(routes[k].name, page, i, lower)
  }

  lemma ValidRuns(w: World, o: Options)
    requires Validate(o).Ok?
    ensures var (maxPages, routes) := Validate(o).value;
            && NumberedRuns(routes, RunsOf(w, o), maxPages) && DistinctNames(routes) && maxPages >= 1
            && forall k {:trigger routes[k]} :: 0 <= k < |routes| ==> 0 <= Cap(routes[k], maxPages) <= 20
  {
    var (maxPages, routes) := Validate(o).value;
    CheckedRoutes(RoutesOf(o), {}, maxPages);
    RoutesArePrefix(w, PolicyOf(o), o.pageDelay, maxPages, routes, 0, 0);
    var runs := RunsOf(w, o);
    forall k | 0 <= k < |runs| ensures Numbered(runs[k].pages) && |runs[k].pages| <= Cap(routes[k], maxPages) {
      EachRouteWithinCap(w, PolicyOf(o), o.pageDelay, maxPages, routes, 0, 0, k);
    }
  }

  lemma ValidSpots(w: World, o: Options)
    requires Validate(o).Ok? && NeverPasses(o, w.lower)
    ensures var spots := AllSpots(Validate(o).value.1, RunsOf(w, o)); DistinctSpots(spots) && NonePasses(spots, w.lower)
  {
    ValidRuns(w, o);
    var (maxPages, routes) := Validate(o).value;
    var runs := RunsOf(w, o);
    RunSpots(routes, runs, maxPages);
    var spots := AllSpots(routes, runs);
    forall i | 0 <= i < |spots| ensures !Passes(spots[i].route, spots[i].page, spots[i].index, w.lower) {
      assert Within(spots[i], routes, |runs|, maxPages);
    }
  }

  // A discovery returns, of everything fetched, in order, each listing that is
  // not the same as one before it.
  lemma ListingsAreFirsts(w: World, o: Options)
    requires Discover(w, o).outcome.Found? && NeverPasses(o, w.lower)
    ensures KeepsFirsts(Discover(w, o).outcome.result.listings, AllFetched(RunsOf(w, o)), w.lower)
  {
    var routes, runs := Validate(o).value.1, RunsOf(w, o);
    ValidRuns(w, o);
    ValidSpots(w, o);
    RunItems(routes, runs, w.lower);
    FirstsAreKept(AllSpots(routes, runs), w.lower);
  }

  // Names that do not begin like the text of a listing are enough.
  lemma ApartIsEnough(o: Options, lower: string -> string)
    requires Validate(o).Ok? && forall k :: 0 <= k < |RoutesOf(o)| ==> Apart(TrimSpace(RoutesOf(o)[k].name))
    ensures NeverPasses(o, lower)
  {
    var (maxPages, routes) := Validate(o).value;
    forall k, page, i: nat {:trigger Passes(routes[k].name, page, i, lower)}
      | 0 <= k < |routes| && 1 <= page <= Cap(routes[k], maxPages)
      ensures !Passes(routes[k].name, page, i, lower)
    {
      assert routes[k].name == TrimSpace(RoutesOf(o)[k].name);
      ApartNeverPasses(routes[k].name, page, i, lower);
    }
  }

  lemma {:induction false} FirstsCounted(spots: seq<Spot>, lower: string -> string)
    requires DistinctSpots(spots) && NonePasses(spots, lower)
    ensures |KeysOf(ItemsFor(spots, lower))| == |Firsts(ListingsFor(spots), lower)|
  {
    FirstsAreKept(spots, lower);
    FirstOccurrencesKeys(ItemsFor(spots, lower));
  }

  lemma FoundResult(w: World, o: Options)
    requires Discover(w, o).outcome.Found?
    ensures Discover(w, o).outcome.result == Summary(Validate(o).value.1, RunsOf(w, o), w.lower)
  {
  }

  // The coverage of a route counts those of its listings that are not the same
  // as one before.
  lemma CoverageCounts(w: World, o: Options, k: nat)
    requires Discover(w, o).outcome.Found? && NeverPasses(o, w.lower) && k < |RunsOf(w, o)|
    ensures var result, pages := Discover(w, o).outcome.result, RunsOf(w, o)[k].pages;
            && |result.coverage| == |RunsOf(w, o)|
            && result.coverage[k].uniqueListings == |Firsts(ListingsIn(pages), w.lower)|
            && result.coverage[k].pagesFetched == |pages|
            && (pages != [] ==> result.coverage[k].totalPages == pages[|pages| - 1].result.totalPages
                                && result.coverage[k].totalResults == pages[|pages| - 1].result.totalResults)
            && (result.coverage[k].complete <==> RunsOf(w, o)[k].end.Exhausted?)
  {
    var (maxPages, routes) := Validate(o).value;
    var runs := RunsOf(w, o);
    FoundResult(w, o);
    ValidRuns(w, o);
    assert forall page, i: nat :: 1 <= page <= |runs[k].pages| ==> !Passes(routes[k].name, page, i, w.lower);
    RouteCounts(routes[k].name, runs[k].pages, w.lower);
    CoverageAt(routes, runs, k, w.lower);
  }

  lemma RouteCounts(route: string, pages: seq<Fetched>, lower: string -> string)
    requires Numbered(pages) && forall page, i: nat :: 1 <= page <= |pages| ==> !Passes(route, page, i, lower)
    ensures |KeysOf(ItemsOf(route, pages, lower))| == |Firsts(ListingsIn(pages), lower)|
  {
    RouteSpots(route, pages);
    RouteItems(route, pages, lower);
    FirstsCounted(SpotsOf(route, pages), lower);
  }

  lemma {:induction false} CoverageAt(routes: seq<Route>, runs: seq<RouteRun>, k: nat, lower: string -> string)
    requires k < |runs| <= |routes|
    ensures CoveragesOf(routes, runs, lower)[k] == CoverageOf(routes[k].name, runs[k], lower)
  {
    if k < |runs| - 1 { CoverageAt(routes, runs[..|runs| - 1], k, lower); }
  }

  // The routes that failed.
  function FailedRuns(runs: seq<RouteRun>): seq<nat> {
    if runs == [] then []
    else
      var n := |runs| - 1;
      FailedRuns(runs[..n]) + if runs[n].end.Failed? then [n] else []
  }

  // One issue for each of them, in order.
  ghost predicate IssuesFit(issues: seq<Issue>, routes: seq<Route>, runs: seq<RouteRun>) {
    var failed := FailedRuns(runs);
    && |issues| == |failed|
    && forall k {:trigger failed[k]} {:trigger issues[k]} :: 0 <= k < |failed| ==>
         && failed[k] < |runs| && failed[k] < |routes| && runs[failed[k]].end.Failed?
         && issues[k] == Issue(routes[failed[k]].name, runs[failed[k]].end.page, runs[failed[k]].end.error)
  }

  lemma {:induction false} IssuesListed(routes: seq<Route>, runs: seq<RouteRun>)
    requires |runs| <= |routes|
    ensures IssuesFit(IssuesOf(routes, runs), routes, runs)
  {
    if runs != [] {
      var n := |runs| - 1;
      IssuesListed(routes, runs[..n]);
      var failed, before := FailedRuns(runs[..n]), runs[..n];
      assert forall k {:trigger failed[k]} :: 0 <= k < |failed| ==> before[failed[k]] == runs[failed[k]];
    }
  }

  // The issues of a discovery are the refusals that ended its routes: the
  // route, the page after the last one fetched, and the site's error.
  lemma IssuesAreRefusals(w: World, o: Options)
    requires Discover(w, o).outcome.Found?
    ensures IssuesFit(Discover(w, o).outcome.result.issues, Validate(o).value.1, RunsOf(w, o))
    ensures forall n {:trigger RunsOf(w, o)[n]} :: 0 <= n < |RunsOf(w, o)| && RunsOf(w, o)[n].end.Failed? ==>
              RunsOf(w, o)[n].end.page == |RunsOf(w, o)[n].pages| + 1
  {
    var (maxPages, routes) := Validate(o).value;
    var runs := RunsOf(w, o);
    FoundResult(w, o);
    IssuesListed(routes, runs);
    ValidRuns(w, o);
    forall n | 0 <= n < |runs| ensures runs[n].end.Failed? ==> runs[n].end.page == |runs[n].pages| + 1 {
      EachRouteWithinCap(w, PolicyOf(o), o.pageDelay, maxPages, routes, 0, 0, n);
    }
  }

  // ----- Names that pass: a listing is lost -----

  lemma {:induction false} NotMoreKept(spots: seq<Spot>, lower: string -> string)
    ensures |FirstOccurrences(ItemsFor(spots, lower))| <= |Firsts(ListingsFor(spots), lower)|
  {
    if spots != [] {
      NotMoreKept(spots[..|spots| - 1], lower);
      KeptStep(spots, lower);
    }
  }

  // The last listing: whoever is the same as an earlier one has its key.
  lemma KeptStep(spots: seq<Spot>, lower: string -> string)
    requires spots != []
    ensures var n := |spots| - 1; var items, all := ItemsFor(spots, lower), ListingsFor(spots);
            var seen := ItemOf(spots[n], lower).key in KeysOf(ItemsFor(spots[..n], lower));
            && (SeenBefore(all, n, lower) ==> seen)
            && |FirstOccurrences(items)|
               == |FirstOccurrences(ItemsFor(spots[..n], lower))| + (if seen then 0 else 1)
            && |Firsts(all, lower)|
               == |Firsts(ListingsFor(spots[..n]), lower)| + (if SeenBefore(all, n, lower) then 0 else 1)
  {
    var n := |spots| - 1;
    var all := ListingsFor(spots);
    assert ItemsFor(spots, lower)[..n] == ItemsFor(spots[..n], lower) && all[..n] == ListingsFor(spots[..n]);
    if SeenBefore(all, n, lower) {
      var m :| 0 <= m < n && Same(all[m], all[n], lower);
      SameKeys(all[m], all[n], Place(spots[m].route, spots[m].page, spots[m].index),
               Place(spots[n].route, spots[n].page, spots[n].index), lower);
      KeysOfMember(ItemsFor(spots[..n], lower), m);
    }
  }

  // Listing c is not the same as one before, but its key has been seen.
  ghost predicate Lost(spots: seq<Spot>, lower: string -> string, c: nat)
    requires c < |spots|
  {
    && ItemOf(spots[c], lower).key in KeysOf(ItemsFor(spots[..c], lower))
    && !SeenBefore(ListingsFor(spots), c, lower)
  }

  lemma {:induction false} FewerKept(spots: seq<Spot>, lower: string -> string, c: nat)
    requires c < |spots| && Lost(spots, lower, c)
    ensures |FirstOccurrences(ItemsFor(spots, lower))| < |Firsts(ListingsFor(spots), lower)|
  {
    var n := |spots| - 1;
    KeptStep(spots, lower);
    if c == n {
      NotMoreKept(spots[..n], lower);
    } else {
      LostInPrefix(spots, lower, n, c);
      FewerKept(spots[..n], lower, c);
    }
  }

  lemma LostInPrefix(spots: seq<Spot>, lower: string -> string, n: nat, c: nat)
    requires c < n <= |spots| && Lost(spots, lower, c)
    ensures Lost(spots[..n], lower, c)
  {
    assert spots[..n][..c] == spots[..c];
    assert ListingsFor(spots)[..n] == ListingsFor(spots[..n]);
    SeenInPrefix(ListingsFor(spots), n, c, lower);
  }

  // A site that gives this page whatever it is asked.
  function Constant(page: PageResult, lower: string -> string): World {
    World(Server(_ => Granted("profile"), (_, _) => false), Server(_ => Granted(page), (_, _) => false), _ => false,
          lower)
  }

  predicate AllEqual(pages: seq<Fetched>, result: PageResult) {
    forall i {:trigger pages[i]} :: 0 <= i < |pages| ==> pages[i].result == result
  }

  lemma {:induction false} ConstantRoute(page: PageResult, lower: string -> string, p: Policy, pageDelay: int,
                                         route: Route, cap: int, pages: seq<Fetched>, attempts: nat, requests: nat)
    requires page.listings != [] && page.totalPages > cap && |pages| <= cap && AllEqual(pages, page)
    ensures var run := RunRoute(Constant(page, lower), p, pageDelay, route, cap, pages, attempts, requests);
            run.end.OutOfPages? && AllEqual(run.pages, page) && |run.pages| == cap
    decreases cap - |pages|
  {
    if |pages| + 1 <= cap {
      assert Request(Constant(page, lower).server, p, attempts, 0) == (Granted(page), attempts + 1);
      ConstantRoute(page, lower, p, pageDelay, route, cap, pages + [Fetched(|pages| + 1, page)], attempts + 1,
                    requests + 1);
    }
  }

  lemma {:induction false} ConstantRuns(page: PageResult, lower: string -> string, p: Policy, pageDelay: int,
                                        maxPages: int, routes: seq<Route>, attempts: nat, requests: nat)
    requires page.listings != [] && page.totalPages > 20
    requires forall k {:trigger routes[k]} :: 0 <= k < |routes| ==> 0 <= Cap(routes[k], maxPages) <= 20
    ensures var runs := RunRoutes(Constant(page, lower), p, pageDelay, maxPages, routes, attempts, requests);
            && |runs| == |routes|
            && forall k {:trigger runs[k]} :: 0 <= k < |runs| ==>
                 && runs[k].end.OutOfPages? && AllEqual(runs[k].pages, page)
                 && |runs[k].pages| == Cap(routes[k], maxPages)
  {
    if routes != [] {
      var w := Constant(page, lower);
      var run := RunRoute(w, p, pageDelay, routes[0], Cap(routes[0], maxPages), [], attempts, requests);
      ConstantRoute(page, lower, p, pageDelay, routes[0], Cap(routes[0], maxPages), [], attempts, requests);
      ConstantRuns(page, lower, p, pageDelay, maxPages, routes[1..], run.attempts, run.requests);
      var rest := RunRoutes(w, p, pageDelay, maxPages, routes[1..], run.attempts, run.requests);
      assert forall k :: 0 < k <= |rest| ==> ([run] + rest)[k] == rest[k - 1];
    }
  }

  lemma {:induction false} SpotOfPage(route: string, pages: seq<Fetched>, page: nat, i: nat)
    requires Numbered(pages) && 1 <= page <= |pages| && i < |pages[page - 1].result.listings|
    ensures Spot(route, page, i, pages[page - 1].result.listings[i]) in SpotsOf(route, pages)
  {
    var n := |pages| - 1;
    if page <= n {
      SpotOfPage(route, pages[..n], page, i);
    } else {
      assert SpotsOfPage(route, page, pages[n].result.listings)[i] == Spot(route, page, i, pages[n].result.listings[i]);
    }
  }

  lemma {:induction false} SpotOfRun(routes: seq<Route>, runs: seq<RouteRun>, k: nat, s: Spot)
    requires k < |runs| <= |routes| && s in SpotsOf(routes[k].name, runs[k].pages)
    ensures s in AllSpots(routes, runs)
  {
    if k < |runs| - 1 { SpotOfRun(routes, runs[..|runs| - 1], k, s); }
  }

  lemma {:induction false} FirstPageFirst(route: string, pages: seq<Fetched>)
    requires pages != []
    ensures SpotsOfPage(route, pages[0].page, pages[0].result.listings) <= SpotsOf(route, pages)
  {
    var n := |pages| - 1;
    var first, before, more := SpotsOfPage(route, pages[0].page, pages[0].result.listings), SpotsOf(route, pages[..n]),
                               SpotsOfPage(route, pages[n].page, pages[n].result.listings);
    assert SpotsOf(route, pages) == before + more;
    if n > 0 {
      FirstPageFirst(route, pages[..n]);
      PrefixMore(first, before, more);
    } else {
      assert before == [] && [] + more == more;
    }
  }

  lemma {:induction false} FirstRunFirst(routes: seq<Route>, runs: seq<RouteRun>)
    requires runs != [] && |runs| <= |routes|
    ensures SpotsOf(routes[0].name, runs[0].pages) <= AllSpots(routes, runs)
  {
    var n := |runs| - 1;
    var first, before, more := SpotsOf(routes[0].name, runs[0].pages), AllSpots(routes, runs[..n]),
                               SpotsOf(routes[n].name, runs[n].pages);
    assert AllSpots(routes, runs) == before + more;
    if n > 0 {
      FirstRunFirst(routes, runs[..n]);
      PrefixMore(first, before, more);
    } else {
      assert before == [] && [] + more == more;
    }
  }

  lemma PrefixMore(a: seq<Spot>, b: seq<Spot>, c: seq<Spot>)
    requires a <= b
    ensures a <= b + c
  {
  }

  // The page that shows what a name can hide: anonymous listings, and after
  // the i-th an identified one with the text of its place.
  function Trap(i: nat, l: Listing): (r: seq<Listing>)
    ensures |r| == i + 2
  {
    seq(i + 1, _ => Listing("", "", "", "")) + [l]
  }

  lemma TrapLoses(spots: seq<Spot>, lower: string -> string, s: Spot, i: nat, l: Listing)
    requires s in spots && Anonymous(s.listing) && !Anonymous(l)
    requires Key(l, "", lower) == Place(s.route, s.page, s.index)
    requires |spots| >= i + 2 && spots[i + 1].listing == l
    requires forall j {:trigger spots[j]} :: 0 <= j <= i ==> Anonymous(spots[j].listing)
    ensures exists c: nat {:trigger Lost(spots, lower, c)} :: c < |spots| && Lost(spots, lower, c)
  {
    var j :| 0 <= j < |spots| && spots[j] == s;
    var b, all := i + 1, ListingsFor(spots);
    assert ItemOf(spots[b], lower).key == ItemOf(spots[j], lower).key;
    if j < b {
      KeysOfMember(ItemsFor(spots[..b], lower), j);
      forall m | 0 <= m < b ensures !Same(all[m], all[b], lower) { assert Anonymous(spots[m].listing); }
      assert Lost(spots, lower, b);
    } else {
      assert j != b;
      KeysOfMember(ItemsFor(spots[..j], lower), b);
      assert Lost(spots, lower, j);
    }
  }

  lemma PassingLoses(o: Options, lower: string -> string, k: nat, page: nat, i: nat)
    requires Validate(o).Ok?
    requires var (maxPages, routes) := Validate(o).value;
             k < |routes| && 1 <= page <= Cap(routes[k], maxPages) && Passes(routes[k].name, page, i, lower)
    ensures exists w: World :: w.lower == lower && Discover(w, o).outcome.Found?
                        && !KeepsFirsts(Discover(w, o).outcome.result.listings, AllFetched(RunsOf(w, o)), lower)
  {
    var (maxPages, routes) := Validate(o).value;
    var l := Impostor(routes[k].name, page, i, lower);
    var shown := PageResult(Trap(i, l), 21, 0);
    var w := Constant(shown, lower);
    ValidRuns(w, o);
    ConstantRuns(shown, lower, PolicyOf(o), o.pageDelay, maxPages, routes, 0, 0);
    var runs := RunsOf(w, o);
    var c := TrapIsSprung(routes, runs, lower, k, page, i, l);
    FewerKept(AllSpots(routes, runs), lower, c);
    RunItems(routes, runs, lower);
    assert Request(w.bootstrap, PolicyOf(o), 0, 0) == (Granted("profile"), 1);
    assert Discover(w, o).outcome.Found?;
  }

  // The first page of all is the trap.
  lemma TrapIsFirst(routes: seq<Route>, runs: seq<RouteRun>, i: nat, l: Listing)
    requires runs != [] && |runs| <= |routes| && runs[0].pages != []
    requires runs[0].pages[0].result.listings == Trap(i, l)
    ensures var spots := AllSpots(routes, runs);
            && |spots| >= i + 2 && spots[i + 1].listing == l
            && forall j {:trigger spots[j]} :: 0 <= j <= i ==> Anonymous(spots[j].listing)
  {
    FirstRunFirst(routes, runs);
    FirstPageFirst(routes[0].name, runs[0].pages);
    var route, page := routes[0].name, runs[0].pages[0].page;
    PrefixOfPrefix(SpotsOfPage(route, page, Trap(i, l)), SpotsOf(route, runs[0].pages), AllSpots(routes, runs));
    TrapPrefix(AllSpots(routes, runs), route, page, i, l);
  }

  lemma TrapPrefix(spots: seq<Spot>, route: string, page: nat, i: nat, l: Listing)
    requires SpotsOfPage(route, page, Trap(i, l)) <= spots
    ensures |spots| >= i + 2 && spots[i + 1].listing == l
            && forall j {:trigger spots[j]} :: 0 <= j <= i ==> Anonymous(spots[j].listing)
  {
    var first := SpotsOfPage(route, page, Trap(i, l));
    assert forall j {:trigger spots[j]} :: 0 <= j < i + 2 ==> spots[j] == first[j];
    assert first[i + 1].listing == Trap(i, l)[i + 1] == l;
    assert forall j {:trigger spots[j]} :: 0 <= j <= i ==> spots[j].listing == Listing("", "", "", "");
  }

  lemma PrefixOfPrefix(a: seq<Spot>, b: seq<Spot>, c: seq<Spot>)
    requires a <= b <= c
    ensures a <= c
  {
    assert forall j :: 0 <= j < |a| ==> a[j] == b[j] == c[j];
  }

  lemma TrapIsSprung(routes: seq<Route>, runs: seq<RouteRun>, lower: string -> string, k: nat, page: nat, i: nat,
                     l: Listing) returns (c: nat)
    requires k < |runs| <= |routes| && 1 <= page <= |runs[k].pages| && runs[0].pages != []
    requires !Anonymous(l) && Key(l, "", lower) == Place(routes[k].name, page, i)
    requires Numbered(runs[k].pages) && runs[k].pages[page - 1].result.listings == Trap(i, l)
    requires runs[0].pages[0].result.listings == Trap(i, l)
    ensures c < |AllSpots(routes, runs)| && Lost(AllSpots(routes, runs), lower, c)
  {
    var spots := AllSpots(routes, runs);
    var s := Spot(routes[k].name, page, i, Trap(i, l)[i]);
    SpotOfPage(routes[k].name, runs[k].pages, page, i);
    SpotOfRun(routes, runs, k, s);
    TrapIsFirst(routes, runs, i, l);
    TrapLoses(spots, lower, s, i, l);
    c :| c < |spots| && Lost(spots, lower, c);
  }

  // Every site gets its listings returned once each exactly when no place
  // passes for the text of a listing. (If one does, an anonymous listing and an
  // identified one can have the same key, and one of them is lost.)
  lemma FirstsIffNeverPasses(o: Options, lower: string -> string)
    requires Validate(o).Ok?
    ensures NeverPasses(o, lower)
            <==> forall w: World {:trigger Discover(w, o)} :: w.lower == lower && Discover(w, o).outcome.Found? ==>
                   KeepsFirsts(Discover(w, o).outcome.result.listings, AllFetched(RunsOf(w, o)), lower)
  {
    if NeverPasses(o, lower) {
      forall w: World | w.lower == lower && Discover(w, o).outcome.Found?
        ensures KeepsFirsts(Discover(w, o).outcome.result.listings, AllFetched(RunsOf(w, o)), lower)
      {
        ListingsAreFirsts(w, o);
      }
    } else {
      var (maxPages, routes) := Validate(o).value;
      var k, page, i: nat :| 0 <= k < |routes| && 1 <= page <= Cap(routes[k], maxPages)
                             && Passes(routes[k].name, page, i, lower);
      PassingLoses(o, lower, k, page, i);
    }
  }

  // A route called "id" is one: its first anonymous listing is known as id:1:0,
  // as is the listing with ID 1:0.
  lemma IdPasses(lower: string -> string)
    ensures var o := Options([Route("id", 0, true)], 1, 0, 0, 0); Validate(o).Ok? && !NeverPasses(o, lower)
  {
    var o := Options([Route("id", 0, true)], 1, 0, 0, 0);
    assert RoutesOf(o)[0] == Route("id", 0, true) && RoutesOf(o)[1..] == [];
    assert TrimSpace("id") == "id";
    var routes := Validate(o).value.1;
    assert Decimal(1) == "1" && Decimal(0) == "0";
    assert routes[0].name + ":" + Decimal(1) + ":" + Decimal(0) == "id:1:0";
    assert Passes(routes[0].name, 1, 0, lower);
  }

  // ----- When a route stops -----

  // The attempts used up by n requests, and the answer to the one after them.
  function AttemptsAfter(w: World, p: Policy, attempts: nat, n: nat): nat
    decreases n
  {
    if n == 0 then attempts else AttemptsAfter(w, p, Request(w.server, p, attempts, 0).1, n - 1)
  }

  function AnswerTo(w: World, p: Policy, attempts: nat, n: nat): Answer<PageResult> {
    Request(w.server, p, AttemptsAfter(w, p, attempts, n), 0).0
  }

  // The pages from the n-th on are the answers to the requests in order.
  ghost predicate Served(w: World, p: Policy, attempts: nat, pages: seq<Fetched>, n: nat) {
    forall k {:trigger pages[k]} :: n <= k < |pages| ==>
      AnswerTo(w, p, attempts, k - n) == Granted(pages[k].result)
  }

  predicate ExhaustsAt(route: string, pages: seq<Fetched>, k: nat, lower: string -> string)
    requires k < |pages|
  {
    Exhausts(route, pages[..k], pages[k], lower)
  }

  // Of the pages from the n-th on, only the last ends the route, if any does.
  ghost predicate GoesOn(route: string, run: RouteRun, n: nat, lower: string -> string) {
    && (forall k {:trigger ExhaustsAt(route, run.pages, k, lower)} :: n <= k < |run.pages| ==>
          (ExhaustsAt(route, run.pages, k, lower) <==> k == |run.pages| - 1 && run.end.Exhausted?))
    && (run.end.Exhausted? ==> n < |run.pages|)
  }

  // From these pages on, the run is what the site answered.
  ghost predicate Answers(w: World, p: Policy, attempts: nat, requests: nat, pages: seq<Fetched>, run: RouteRun) {
    && pages <= run.pages && Served(w, p, attempts, run.pages, |pages|)
    && run.requests >= requests && run.attempts == AttemptsAfter(w, p, attempts, run.requests - requests)
    && (run.end.Failed? ==>
          && run.requests > requests
          && AnswerTo(w, p, attempts, |run.pages| - |pages|) == Refused(run.end.error))
  }

  lemma {:induction false} RouteServed(w: World, p: Policy, pageDelay: int, route: Route, cap: int,
                                       pages: seq<Fetched>, attempts: nat, requests: nat)
    ensures Answers(w, p, attempts, requests, pages,
                    RunRoute(w, p, pageDelay, route, cap, pages, attempts, requests))
    decreases cap - |pages|
  {
    var run := RunRoute(w, p, pageDelay, route, cap, pages, attempts, requests);
    var (answer, next) := Request(w.server, p, attempts, 0);
    var wait := PauseBefore(requests, pageDelay);
    if |pages| < cap && !(wait > 0 && w.pageCancelled(requests)) {
      assert AttemptsAfter(w, p, attempts, 1) == AttemptsAfter(w, p, next, 0) == next;
      if answer.Granted? {
        var f := Fetched(|pages| + 1, answer.value);
        var rest := RouteRun(pages + [f], Exhausted, next, requests + 1, wait);
        if !Exhausts(route.name, pages, f, w.lower) {
          RouteServed(w, p, pageDelay, route, cap, pages + [f], next, requests + 1);
          rest := RunRoute(w, p, pageDelay, route, cap, pages + [f], next, requests + 1);
        }
        assert run == rest.(pauses := run.pauses);
        AnswersNow(w, p, attempts, requests, pages, f, rest, run.pauses);
      }
    }
  }

  lemma AnswersNow(w: World, p: Policy, attempts: nat, requests: nat, pages: seq<Fetched>, f: Fetched, rest: RouteRun,
                   pauses: nat)
    requires Request(w.server, p, attempts, 0).0 == Granted(f.result)
    requires Answers(w, p, Request(w.server, p, attempts, 0).1, requests + 1, pages + [f], rest)
    ensures Answers(w, p, attempts, requests, pages, rest.(pauses := pauses))
  {
    ServedNow(w, p, attempts, rest.pages, pages, f);
    if rest.end.Failed? { AnswersLater(w, p, attempts, |rest.pages| - |pages|, rest.requests - requests); }
    assert AttemptsAfter(w, p, attempts, rest.requests - requests)
        == AttemptsAfter(w, p, Request(w.server, p, attempts, 0).1, rest.requests - (requests + 1));
  }

  lemma AnswersLater(w: World, p: Policy, attempts: nat, n: nat, m: nat)
    requires n > 0 && m > 0
    ensures var next := Request(w.server, p, attempts, 0).1;
            && AnswerTo(w, p, attempts, n) == AnswerTo(w, p, next, n - 1)
            && AttemptsAfter(w, p, attempts, m) == AttemptsAfter(w, p, next, m - 1)
  {
  }

  lemma ServedNow(w: World, p: Policy, attempts: nat, all: seq<Fetched>, pages: seq<Fetched>, f: Fetched)
    requires Request(w.server, p, attempts, 0).0 == Granted(f.result) && pages + [f] <= all
    requires Served(w, p, Request(w.server, p, attempts, 0).1, all, |pages| + 1)
    ensures Served(w, p, attempts, all, |pages|)
  {
    var n, next := |pages|, Request(w.server, p, attempts, 0).1;
    assert all[n] == (pages + [f])[n] == f;
    forall k {:trigger all[k]} | n < k < |all| ensures AnswerTo(w, p, attempts, k - n) == Granted(all[k].result) {
      assert AnswerTo(w, p, next, k - (n + 1)) == Granted(all[k].result);
    }
  }

  lemma {:induction false} RouteGoesOn(w: World, p: Policy, pageDelay: int, route: Route, cap: int,
                                       pages: seq<Fetched>, attempts: nat, requests: nat)
    ensures var run := RunRoute(w, p, pageDelay, route, cap, pages, attempts, requests);
            pages <= run.pages && GoesOn(route.name, run, |pages|, w.lower)
    decreases cap - |pages|
  {
    var run := RunRoute(w, p, pageDelay, route, cap, pages, attempts, requests);
    var (answer, next) := Request(w.server, p, attempts, 0);
    if |pages| < cap && !(PauseBefore(requests, pageDelay) > 0 && w.pageCancelled(requests)) && answer.Granted? {
      var f := Fetched(|pages| + 1, answer.value);
      if Exhausts(route.name, pages, f, w.lower) {
        assert run.pages == pages + [f] && run.end.Exhausted?;
        GoesOnNow(route.name, run, pages, f, w.lower);
      } else {
        RouteGoesOn(w, p, pageDelay, route, cap, pages + [f], next, requests + 1);
        var rest := RunRoute(w, p, pageDelay, route, cap, pages + [f], next, requests + 1);
        assert run.pages == rest.pages && run.end == rest.end;
        GoesOnNow(route.name, run, pages, f, w.lower);
      }
    }
  }

  lemma GoesOnNow(route: string, run: RouteRun, pages: seq<Fetched>, f: Fetched, lower: string -> string)
    requires pages + [f] <= run.pages
    requires if Exhausts(route, pages, f, lower) then run.pages == pages + [f] && run.end.Exhausted?
             else GoesOn(route, run, |pages| + 1, lower)
    ensures GoesOn(route, run, |pages|, lower)
  {
    assert run.pages[..|pages|] == (pages + [f])[..|pages|] == pages;
    assert run.pages[|pages|] == (pages + [f])[|pages|] == f;
    assert ExhaustsAt(route, run.pages, |pages|, lower) == Exhausts(route, pages, f, lower);
  }

  ghost predicate KnownIn(before: seq<Listing>, l: Listing, lower: string -> string) {
    exists b :: b in before && Same(b, l, lower)
  }

  // The page says it is the last, or is empty, or, when the site does not say
  // how many there are, shows nothing that the route has not shown before.
  ghost predicate EndsRoute(before: seq<Listing>, f: Fetched, lower: string -> string) {
    || (f.result.totalPages > 0 && f.page >= f.result.totalPages)
    || f.result.listings == []
    || (f.result.totalPages <= 0
        && forall l :: l in f.result.listings ==> KnownIn(before, l, lower))
  }

  lemma ExhaustsMeaning(route: string, pages: seq<Fetched>, f: Fetched, lower: string -> string)
    requires Numbered(pages + [f])
    requires forall page, i: nat :: 1 <= page <= |pages| + 1 ==> !Passes(route, page, i, lower)
    ensures Exhausts(route, pages, f, lower) <==> EndsRoute(ListingsIn(pages), f, lower)
  {
    var before, shown := SpotsOf(route, pages), SpotsOfPage(route, f.page, f.result.listings);
    SpotsWithPage(route, pages, f, lower);
    RouteItems(route, pages, lower);
    PageItems(route, f.page, f.result.listings, lower);
    NothingNew(before, shown, lower);
  }

  lemma SpotsWithPage(route: string, pages: seq<Fetched>, f: Fetched, lower: string -> string)
    requires Numbered(pages + [f])
    requires forall page, i: nat :: 1 <= page <= |pages| + 1 ==> !Passes(route, page, i, lower)
    ensures var spots := SpotsOf(route, pages) + SpotsOfPage(route, f.page, f.result.listings);
            DistinctSpots(spots) && NonePasses(spots, lower)
  {
    RouteSpots(route, pages + [f]);
    assert (pages + [f])[..|pages|] == pages && (pages + [f])[|pages|] == f;
    assert SpotsOf(route, pages + [f]) == SpotsOf(route, pages) + SpotsOfPage(route, f.page, f.result.listings);
  }

  lemma NothingNew(before: seq<Spot>, shown: seq<Spot>, lower: string -> string)
    requires DistinctSpots(before + shown) && NonePasses(before + shown, lower)
    ensures KeysOf(ItemsFor(shown, lower)) <= KeysOf(ItemsFor(before, lower))
            <==> forall l :: l in ListingsFor(shown) ==> KnownIn(ListingsFor(before), l, lower)
  {
    var items, keys, known := ItemsFor(shown, lower), KeysOf(ItemsFor(before, lower)), ListingsFor(before);
    forall j: nat | j < |shown| ensures items[j].key in keys <==> KnownIn(known, ListingsFor(shown)[j], lower) {
      ShownBefore(before, shown, j, lower);
    }
    KeysWithin(items, keys);
    AllKnown(ListingsFor(shown), known, lower);
  }

  lemma AllKnown(shown: seq<Listing>, known: seq<Listing>, lower: string -> string)
    ensures (forall l :: l in shown ==> KnownIn(known, l, lower))
            <==> forall j: nat :: j < |shown| ==> KnownIn(known, shown[j], lower)
  {
  }

  lemma ShownBefore(before: seq<Spot>, shown: seq<Spot>, j: nat, lower: string -> string)
    requires DistinctSpots(before + shown) && NonePasses(before + shown, lower) && j < |shown|
    ensures ItemOf(shown[j], lower).key in KeysOf(ItemsFor(before, lower))
            <==> KnownIn(ListingsFor(before), shown[j].listing, lower)
  {
    var spots, all := before + shown, ListingsFor(before);
    KeysOfIndex(ItemsFor(before, lower), ItemOf(shown[j], lower).key);
    forall m: nat | m < |before|
      ensures ItemsFor(before, lower)[m].key == ItemOf(shown[j], lower).key <==> Same(all[m], shown[j].listing, lower)
    {
      assert spots[m] == before[m] && spots[|before| + j] == shown[j];
      KeysTell(spots, lower, m, |before| + j);
    }
    if b :| b in all && Same(b, shown[j].listing, lower) {
      var m: nat :| m < |all| && all[m] == b;
      assert ItemsFor(before, lower)[m].key == ItemOf(shown[j], lower).key;
    }
  }

  lemma KeysWithin(items: seq<Item>, keys: set<string>)
    ensures KeysOf(items) <= keys <==> forall j: nat :: j < |items| ==> items[j].key in keys
  {
    forall j: nat | j < |items| ensures items[j].key in KeysOf(items) { KeysOfMember(items, j); }
    forall key | key in KeysOf(items) ensures exists j :: 0 <= j < |items| && items[j].key == key {
      KeysOfIndex(items, key);
    }
  }

  // A route fetches its pages in order, each as the site answered, until the
  // first that ends it; one that no page ends stops at the cap, or at a refusal.
  lemma RouteStops(w: World, p: Policy, pageDelay: int, route: Route, cap: nat, attempts: nat, requests: nat)
    requires forall page, i: nat :: 1 <= page <= cap ==> !Passes(route.name, page, i, w.lower)
    ensures var run := RunRoute(w, p, pageDelay, route, cap, [], attempts, requests); var n := |run.pages|;
            && Served(w, p, attempts, run.pages, 0)
            && (forall k {:trigger run.pages[k]} :: 0 <= k < n ==>
                  (EndsRoute(ListingsIn(run.pages[..k]), run.pages[k], w.lower)
                   <==> k == n - 1 && run.end.Exhausted?))
            && (run.end.Failed? ==> AnswerTo(w, p, attempts, n) == Refused(run.end.error))
            && (run.end.OutOfPages? ==> n == cap)
            && (run.end.Exhausted? ==> n > 0)
  {
    var run := RunRoute(w, p, pageDelay, route, cap, [], attempts, requests);
    RouteServed(w, p, pageDelay, route, cap, [], attempts, requests);
    RouteGoesOn(w, p, pageDelay, route, cap, [], attempts, requests);
    RouteWithinCap(w, p, pageDelay, route, cap, [], attempts, requests);
    forall k {:trigger run.pages[k]} | 0 <= k < |run.pages|
      ensures ExhaustsAt(route.name, run.pages, k, w.lower)
              <==> EndsRoute(ListingsIn(run.pages[..k]), run.pages[k], w.lower)
    {
      assert run.pages[..k] + [run.pages[k]] == run.pages[..k + 1];
      ExhaustsMeaning(route.name, run.pages[..k], run.pages[k], w.lower);
    }
  }
}
