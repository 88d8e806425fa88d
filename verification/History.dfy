/** How long a rental has been listed, read off its price history: the retained
    events are sorted by date and folded. The sort is not stable, so nothing may
    depend on how it orders events of one date. */
module History {
  import opened Common
  import opened Text

  // An instant, 0 being the zero time, and the calendar day it falls on where
  // it was written.
  datatype Date = Date(instant: int, day: int)

  const ZERO_DATE := Date(0, 0)

  // A history item: its date if it parses, its canonical text, its rental flag.
  datatype Item = Item(date: Option<Date>, text: string, rental: bool)

  datatype Event = Event(date: Date, text: string, rental: bool)

  function ContainsAny(text: string, parts: seq<string>): bool {
    exists i :: 0 <= i < |parts| && Contains(text, parts[i])
  }

  const RESETS := ["listing removed", "removed listing", "off market", "sold", "pending sale"]
  const LISTINGS := ["listed for rent", "listed for rental", "rental listing"]

  predicate IsReset(text: string) {
    ContainsAny(text, RESETS)
  }

  predicate IsListing(text: string) {
    !IsReset(text) && ContainsAny(text, LISTINGS)
  }

  predicate Retains(item: Item) {
    item.date.Some? && (item.rental || Contains(item.text, "rent") || IsReset(item.text))
  }

  function Retained(items: seq<Item>): seq<Event> {
    if items == [] then []
    else
      var item := items[|items| - 1];
      Retained(items[..|items| - 1]) + if Retains(item) then [Event(item.date.value, item.text, item.rental)] else []
  }

  // The words that take a unit off the market, and those that put it on.
  lemma Words(text: string)
    ensures IsReset(text)
            <==> Contains(text, "listing removed") || Contains(text, "removed listing") || Contains(text, "off market")
                 || Contains(text, "sold") || Contains(text, "pending sale")
    ensures IsListing(text)
            <==> !IsReset(text)
                 && (Contains(text, "listed for rent") || Contains(text, "listed for rental")
                     || Contains(text, "rental listing"))
  {
    var r, l := RESETS, LISTINGS;
    assert r[0] == "listing removed" && r[1] == "removed listing" && r[2] == "off market" && r[3] == "sold"
        && r[4] == "pending sale";
    assert l[0] == "listed for rent" && l[1] == "listed for rental" && l[2] == "rental listing";
  }

  // What is retained: the dated events of a rental, about rent, or taking the
  // unit off the market, each as it was and as often.
  lemma {:induction false} RetainedMeaning(items: seq<Item>, e: Event)
    ensures multiset(Retained(items))[e] == CountOf(items, e)
  {
    if items != [] { RetainedMeaning(items[..|items| - 1], e); }
  }

  // How many items stand for the event.
  function CountOf(items: seq<Item>, e: Event): nat {
    if items == [] then 0
    else
      var item := items[|items| - 1];
      CountOf(items[..|items| - 1], e)
      + if item.date == Some(e.date) && item.text == e.text && item.rental == e.rental
           && (item.rental || Contains(item.text, "rent") || IsReset(item.text)) then 1 else 0
  }

  // ----- The fold -----

  datatype Span = Span(listed: Date, updated: Date)

  predicate Unset(d: Date) {
    d.instant == 0
  }

  function Step(s: Span, e: Event): Span {
    if IsReset(e.text) then Span(ZERO_DATE, ZERO_DATE)
    else if IsListing(e.text) then Span(e.date, e.date)
    else if !Unset(s.listed) && e.date.instant > s.updated.instant then s.(updated := e.date)
    else s
  }

  function Fold(events: seq<Event>): Span {
    if events == [] then Span(ZERO_DATE, ZERO_DATE) else Step(Fold(events[..|events| - 1]), events[|events| - 1])
  }

  // A duration of more days than this does not fit 64 bits of nanoseconds.
  const MAX_DAYS := 106_751

  datatype Recency = Recency(listed: Date, updated: Date, days: Option<int>)

  function Report(s: Span, today: int): Option<Recency> {
    if Unset(s.listed) then None
    else
      var days := Min(today - s.listed.day, MAX_DAYS);
      Some(Recency(s.listed, if Unset(s.updated) then s.listed else s.updated, if days < 0 then None else Some(days)))
  }

  predicate Sorted(events: seq<Event>) {
    forall i, j {:trigger events[i], events[j]} :: 0 <= i < j < |events| ==>
      events[i].date.instant <= events[j].date.instant
  }

  // What the fold knows once a date is set: it is the latest listing's, every
  // reset is dated no later, and the last event has set the update.
  ghost predicate ListedOk(events: seq<Event>, s: Span) {
    && (exists i {:trigger events[i]} :: 0 <= i < |events| && IsListing(events[i].text) && events[i].date == s.listed)
    && (forall i {:trigger events[i]} :: 0 <= i < |events| && (IsListing(events[i].text) || IsReset(events[i].text)) ==>
          events[i].date.instant <= s.listed.instant)
    && s.updated.instant == events[|events| - 1].date.instant
  }

  // What undoes a listing: a reset, or a listing that carries no usable date.
  predicate Undoes(e: Event) {
    IsReset(e.text) || (IsListing(e.text) && Unset(e.date))
  }

  ghost predicate UndoneLater(events: seq<Event>, i: nat)
    requires i < |events|
  {
    exists j {:trigger events[j]} :: i <= j < |events| && Undoes(events[j])
  }

  lemma {:induction false} FoldListed(events: seq<Event>)
    requires Sorted(events)
    ensures !Unset(Fold(events).listed) ==> events != [] && ListedOk(events, Fold(events))
  {
    if events != [] {
      var n := |events| - 1;
      FoldListed(events[..n]);
      var before, s := Fold(events[..n]), Fold(events);
      if !Unset(s.listed) {
        if IsListing(events[n].text) {
          assert s == Span(events[n].date, events[n].date);
        } else {
          var i :| 0 <= i < n && IsListing(events[..n][i].text) && events[..n][i].date == before.listed;
          assert events[i].date == s.listed;
          assert forall k :: 0 <= k < n ==> events[..n][k] == events[k];
        }
      }
    }
  }

  lemma {:induction false} FoldUnlisted(events: seq<Event>, i: nat)
    requires i < |events| && IsListing(events[i].text) && Unset(Fold(events).listed)
    ensures UndoneLater(events, i)
  {
    var n := |events| - 1;
    if Undoes(events[n]) {
    } else {
      assert i < n;
      FoldUnlisted(events[..n], i);
      var j :| i <= j < n && Undoes(events[..n][j]);
      assert events[j] == events[..n][j];
    }
  }

  // ----- What is reported, for any sorted arrangement -----

  lemma LastIsLatest(events: seq<Event>)
    requires Sorted(events)
    ensures forall i {:trigger events[i]} :: 0 <= i < |events| ==>
              events[i].date.instant <= events[|events| - 1].date.instant
  {
  }

  // If a listed date is reported, it is the date of the latest listing, no
  // reset is dated after it, and the update is the date of the latest event
  // of all (or the listed date, should that be the zero time). If none is
  // reported, each listing was undone no earlier than it was made.
  lemma ReportMeaning(events: seq<Event>, today: int)
    requires Sorted(events)
    ensures match Report(Fold(events), today)
            case Some(r) =>
              && r.listed.instant != 0
              && (exists i {:trigger events[i]} ::
                  0 <= i < |events| && IsListing(events[i].text) && events[i].date == r.listed)
              && (forall i {:trigger events[i]} ::
                  0 <= i < |events| && (IsListing(events[i].text) || IsReset(events[i].text)) ==>
                    events[i].date.instant <= r.listed.instant)
              && (forall i {:trigger events[i]} :: 0 <= i < |events| && events[|events| - 1].date.instant != 0 ==>
                    events[i].date.instant <= r.updated.instant)
              && (r.updated == r.listed
                  || exists i {:trigger events[i]} :: 0 <= i < |events| && events[i].date.instant == r.updated.instant)
              && r.days == (if today < r.listed.day then None
                            else if today - r.listed.day <= 106_751 then Some(today - r.listed.day) else Some(106_751))
            case None =>
              forall i {:trigger events[i]} :: 0 <= i < |events| && IsListing(events[i].text) ==> UndoneLater(events, i)
  {
    FoldListed(events);
    if Unset(Fold(events).listed) {
      forall i {:trigger events[i]} | 0 <= i < |events| && IsListing(events[i].text) ensures UndoneLater(events, i) {
        FoldUnlisted(events, i);
      }
    } else {
      assert ListedOk(events, Fold(events));
      LastIsLatest(events);
    }
  }

  // A listing and a reset carry one date, and no listing or reset a later one.
  ghost predicate TiedAt(events: seq<Event>, on: Event, off: Event) {
    && on in events && off in events && IsListing(on.text) && IsReset(off.text)
    && on.date.instant == off.date.instant && !Unset(on.date)
    && forall e :: e in events && (IsListing(e.text) || IsReset(e.text)) ==> e.date.instant <= on.date.instant
  }

  // The latest listing and the latest reset have the same date.
  ghost predicate Tied(events: seq<Event>) {
    exists on, off :: TiedAt(events, on, off)
  }

  // The event is the latest listing, and every reset is older.
  ghost predicate Stands(events: seq<Event>, e: Event) {
    && e in events && IsListing(e.text) && !Unset(e.date)
    && (forall f :: f in events && IsListing(f.text) ==> f.date.instant <= e.date.instant)
    && (forall f :: f in events && IsReset(f.text) ==> f.date.instant < e.date.instant)
  }

  lemma StandingIsListed(events: seq<Event>, e: Event)
    requires Sorted(events) && Stands(events, e)
    ensures !Unset(Fold(events).listed)
  {
    assert forall k :: 0 <= k < |events| ==> events[k] in events;
    var i :| 0 <= i < |events| && events[i] == e;
    if Unset(Fold(events).listed) {
      FoldUnlisted(events, i);
      assert false;
    }
  }

  lemma ListedStands(events: seq<Event>)
    requires Sorted(events) && !Tied(events) && !Unset(Fold(events).listed)
    ensures exists e :: Stands(events, e)
    ensures forall e :: Stands(events, e) ==> Fold(events).listed.instant == e.date.instant
  {
    FoldListed(events);
    var i :| 0 <= i < |events| && IsListing(events[i].text) && events[i].date == Fold(events).listed;
    var on := events[i];
    forall f | f in events && (IsListing(f.text) || IsReset(f.text)) ensures f.date.instant <= on.date.instant {
      var j :| 0 <= j < |events| && events[j] == f;
    }
    forall f | f in events && IsReset(f.text) ensures f.date.instant < on.date.instant {
      assert !TiedAt(events, on, f);
    }
    assert Stands(events, on);
  }

  // Without such a tie, a date is reported exactly when a listing stands.
  lemma ListedIffStands(events: seq<Event>)
    requires Sorted(events) && !Tied(events)
    ensures !Unset(Fold(events).listed) <==> exists e :: Stands(events, e)
    ensures forall e :: Stands(events, e) ==> Fold(events).listed.instant == e.date.instant
  {
    if !Unset(Fold(events).listed) { ListedStands(events); }
    forall e | Stands(events, e) ensures !Unset(Fold(events).listed) { StandingIsListed(events, e); }
  }

  lemma SameMembers(xs: seq<Event>, ys: seq<Event>)
    requires multiset(xs) == multiset(ys)
    ensures |xs| == |ys| && forall e :: e in xs <==> e in ys
  {
    assert |multiset(xs)| == |multiset(ys)|;
    forall e ensures e in xs <==> e in ys {
      assert e in multiset(xs) <==> e in multiset(ys);
    }
  }

  lemma SameLatest(xs: seq<Event>, ys: seq<Event>)
    requires Sorted(xs) && Sorted(ys) && multiset(xs) == multiset(ys) && xs != []
    ensures ys != [] && xs[|xs| - 1].date.instant <= ys[|ys| - 1].date.instant
  {
    SameMembers(xs, ys);
    assert xs[|xs| - 1] in ys;
    var i :| 0 <= i < |ys| && ys[i] == xs[|xs| - 1];
  }

  // The instants reported are the same.
  predicate SameReport(a: Option<Recency>, b: Option<Recency>) {
    && (a.Some? <==> b.Some?)
    && (a.Some? ==>
        a.value.listed.instant == b.value.listed.instant && a.value.updated.instant == b.value.updated.instant)
  }

  // An order that the sort may leave the events in.
  ghost predicate Arranges(sorted: seq<Event>, events: seq<Event>) {
    Sorted(sorted) && multiset(sorted) == multiset(events)
  }

  lemma TiedMembers(xs: seq<Event>, ys: seq<Event>)
    requires multiset(xs) == multiset(ys)
    ensures Tied(xs) <==> Tied(ys)
  {
    SameMembers(xs, ys);
    assert forall on, off :: TiedAt(xs, on, off) <==> TiedAt(ys, on, off);
  }

  lemma SortTiesDoNotMatter(xs: seq<Event>, ys: seq<Event>, today: int)
    requires Sorted(xs) && Sorted(ys) && multiset(xs) == multiset(ys) && !Tied(xs)
    ensures SameReport(Report(Fold(xs), today), Report(Fold(ys), today))
  {
    SameMembers(xs, ys);
    TiedMembers(xs, ys);
    assert forall e :: Stands(xs, e) <==> Stands(ys, e);
    ListedIffStands(xs);
    ListedIffStands(ys);
    FoldListed(xs);
    FoldListed(ys);
    if xs != [] {
      SameLatest(xs, ys);
      SameLatest(ys, xs);
    }
  }

  // How many of the sorted events come no later than an instant.
  function UpTo(sorted: seq<Event>, instant: int): (k: nat)
    ensures k <= |sorted| && (forall i :: 0 <= i < k ==> sorted[i].date.instant <= instant)
    ensures k < |sorted| ==> sorted[k].date.instant > instant
  {
    if sorted == [] || sorted[0].date.instant > instant then 0 else 1 + UpTo(sorted[1..], instant)
  }

  function InsertedAt(sorted: seq<Event>, k: nat, e: Event): seq<Event>
    requires k <= |sorted|
  {
    sorted[..k] + [e] + sorted[k..]
  }

  lemma {:induction false} ArrangementExists(events: seq<Event>) returns (sorted: seq<Event>)
    ensures Arranges(sorted, events)
  {
    if events == [] {
      sorted := [];
    } else {
      var rest := ArrangementExists(events[1..]);
      var k := UpTo(rest, events[0].date.instant);
      sorted := InsertedAt(rest, k, events[0]);
      InsertedMembers(rest, events[0], k);
      InsertedSorted(rest, events[0], k);
      assert events == [events[0]] + events[1..];
    }
  }

  lemma Without(events: seq<Event>, e: Event) returns (rest: seq<Event>)
    requires e in events
    ensures multiset(events) == multiset(rest) + multiset{e}
  {
    var i :| 0 <= i < |events| && events[i] == e;
    rest := events[..i] + events[i + 1..];
    assert events == events[..i] + [e] + events[i + 1..];
  }

  lemma {:induction false} FoldPastOthers(events: seq<Event>, k: nat)
    requires k <= |events| && forall i :: k <= i < |events| ==> !IsListing(events[i].text) && !IsReset(events[i].text)
    ensures Fold(events).listed == Fold(events[..k]).listed
    decreases |events|
  {
    if k < |events| {
      var n := |events| - 1;
      FoldPastOthers(events[..n], k);
      assert events[..n][..k] == events[..k];
    } else {
      assert events[..k] == events;
    }
  }

  // Nothing after the pair is a listing or a reset.
  lemma PairIsLast(sorted: seq<Event>, k: nat, first: Event, second: Event, events: seq<Event>)
    requires k <= |sorted| && forall i :: k <= i < |sorted| ==> sorted[i].date.instant > first.date.instant
    requires multiset(events) == multiset(InsertedAt(InsertedAt(sorted, k, first), k + 1, second))
    requires forall e :: e in events && e.date.instant > first.date.instant ==> !IsListing(e.text) && !IsReset(e.text)
    ensures var all := InsertedAt(InsertedAt(sorted, k, first), k + 1, second);
            Fold(all).listed == Step(Fold(all[..k + 1]), second).listed
  {
    var all := InsertedAt(InsertedAt(sorted, k, first), k + 1, second);
    SameMembers(events, all);
    forall i | k + 2 <= i < |all| ensures !IsListing(all[i].text) && !IsReset(all[i].text) {
      assert all[i] == sorted[i - 2] && all[i] in all;
    }
    FoldPastOthers(all, k + 2);
    assert all[..k + 2][..k + 1] == all[..k + 1] && all[..k + 2][k + 1] == second;
  }

  // The same events with one pair put in, in this order.
  lemma PairInserted(sorted: seq<Event>, first: Event, second: Event, events: seq<Event>) returns (all: seq<Event>)
    requires Sorted(sorted) && first.date.instant == second.date.instant
    requires multiset(events) == multiset(sorted) + multiset{first} + multiset{second}
    requires forall e :: e in events && e.date.instant > first.date.instant ==> !IsListing(e.text) && !IsReset(e.text)
    ensures Arranges(all, events)
    ensures IsReset(second.text) ==> Unset(Fold(all).listed)
    ensures IsListing(second.text) ==> Fold(all).listed == second.date
  {
    var k := UpTo(sorted, first.date.instant);
    var one := InsertedAt(sorted, k, first);
    InsertedMembers(sorted, first, k);
    InsertedSorted(sorted, first, k);
    all := InsertedAt(one, k + 1, second);
    InsertedMembers(one, second, k + 1);
    InsertedSorted(one, second, k + 1);
    PairIsLast(sorted, k, first, second, events);
  }

  // With such a tie, two arrangements differ: a unit taken off and put on the
  // market on one date is reported or not, as the sort happens to order the two.
  lemma TieMatters(events: seq<Event>, today: int) returns (reported: seq<Event>, unreported: seq<Event>)
    requires Tied(events)
    ensures Arranges(reported, events) && Report(Fold(reported), today).Some?
    ensures Arranges(unreported, events) && Report(Fold(unreported), today).None?
  {
    var on, off :| TiedAt(events, on, off);
    var withoutOn := Without(events, on);
    assert off in multiset(events);
    assert off in withoutOn by { assert off in multiset(withoutOn); }
    var rest := Without(withoutOn, off);
    var sorted := ArrangementExists(rest);
    reported := PairInserted(sorted, off, on, events);
    unreported := PairInserted(sorted, on, off, events);
  }

  // However the sort arranges events of one date, the instants reported are
  // the same: exactly when the latest listing and the latest reset do not have
  // the same date.
  lemma OrderMattersIffTied(events: seq<Event>, today: int)
    ensures (forall xs, ys :: Arranges(xs, events) && Arranges(ys, events) ==>
             SameReport(Report(Fold(xs), today), Report(Fold(ys), today)))
       <==> !Tied(events)
  {
    if Tied(events) {
      var xs, ys := TieMatters(events, today);
      assert !SameReport(Report(Fold(xs), today), Report(Fold(ys), today));
    } else {
      forall xs, ys | Arranges(xs, events) && Arranges(ys, events)
        ensures SameReport(Report(Fold(xs), today), Report(Fold(ys), today))
      {
        TiedMembers(xs, events);
        SortTiesDoNotMatter(xs, ys, today);
      }
    }
  }

  lemma {:induction false} ContainsNeeds(text: string, part: string, i: nat)
    requires i < |part| && part[i] !in text
    ensures !Contains(text, part)
  {
    assert forall k :: 0 <= k < |text| ==> text[k] in text;
    if text != "" { ContainsNeeds(text[1..], part, i); }
  }

  lemma NoReset(text: string)
    requires 'o' !in text && 'p' !in text && 'm' !in text
    ensures !IsReset(text)
  {
    ContainsNeeds(text, "listing removed", 10);
    ContainsNeeds(text, "removed listing", 2);
    ContainsNeeds(text, "off market", 0);
    ContainsNeeds(text, "sold", 1);
    ContainsNeeds(text, "pending sale", 0);
  }

  lemma ContainsItself(text: string, parts: seq<string>, i: nat)
    requires i < |parts| && parts[i] == text
    ensures ContainsAny(text, parts)
  {
    assert Contains(text, parts[i]);
  }

  // There are resets and listings.
  lemma SoldIsReset(text: string)
    requires text == "sold"
    ensures IsReset(text)
  {
    ContainsItself(text, RESETS, 3);
  }

  lemma RentalListingIsListing(text: string)
    requires text == "rental listing"
    ensures IsListing(text)
  {
    NoReset(text);
    ContainsItself(text, LISTINGS, 2);
  }

  lemma PairIsTied(off: Event, on: Event)
    requires IsReset(off.text) && IsListing(on.text) && off.date.instant == on.date.instant && !Unset(on.date)
    ensures Tied([off, on])
  {
    assert TiedAt([off, on], on, off);
  }

  // A sale and a listing on one date are such a tie.
  lemma TieExample(date: Date, off: Event, on: Event)
    requires !Unset(date) && off == Event(date, "sold", true) && on == Event(date, "rental listing", true)
    ensures Tied([off, on])
  {
    SoldIsReset(off.text);
    RentalListingIsListing(on.text);
    PairIsTied(off, on);
  }

  // ----- The loops -----

  method RetainEvents(items: seq<Item>) returns (events: seq<Event>)
    ensures events == Retained(items)
  {
    events := [];
    for i := 0 to |items|
      invariant events == Retained(items[..i])
    {
      assert items[..i + 1][..i] == items[..i];
      var item := items[i];
      if item.date.None? { continue; }
      if !item.rental && !Contains(item.text, "rent") && !IsReset(item.text) { continue; }
      events := events + [Event(item.date.value, item.text, item.rental)];
    }
    assert items[..|items|] == items;
  }

  // Some arrangement in order of date; which one, for equal dates, is open.
  method SortByDate(events: seq<Event>) returns (sorted: seq<Event>)
    ensures Sorted(sorted) && multiset(sorted) == multiset(events)
  {
    sorted := [];
    for i := 0 to |events|
      invariant Sorted(sorted) && multiset(sorted) == multiset(events[..i])
    {
      assert events[..i + 1] == events[..i] + [events[i]];
      sorted := Insert(sorted, events[i]);
    }
    assert events[..|events|] == events;
  }

  method Insert(sorted: seq<Event>, e: Event) returns (more: seq<Event>)
    requires Sorted(sorted)
    ensures Sorted(more) && multiset(more) == multiset(sorted) + multiset{e}
  {
    var k := |sorted|;
    while k > 0 && sorted[k - 1].date.instant > e.date.instant
      invariant 0 <= k <= |sorted| && forall j :: k <= j < |sorted| ==> sorted[j].date.instant > e.date.instant
    {
      k := k - 1;
    }
    more := sorted[..k] + [e] + sorted[k..];
    InsertedMembers(sorted, e, k);
    InsertedSorted(sorted, e, k);
  }

  lemma InsertedMembers(sorted: seq<Event>, e: Event, k: nat)
    requires k <= |sorted|
    ensures multiset(InsertedAt(sorted, k, e)) == multiset(sorted) + multiset{e}
  {
    assert sorted == sorted[..k] + sorted[k..];
  }

  lemma InsertedSorted(sorted: seq<Event>, e: Event, k: nat)
    requires k <= |sorted| && Sorted(sorted)
    requires k > 0 ==> sorted[k - 1].date.instant <= e.date.instant
    requires k < |sorted| ==> e.date.instant <= sorted[k].date.instant
    ensures Sorted(InsertedAt(sorted, k, e))
  {
  }

  method RentalHistoryRecency(items: seq<Item>, today: int) returns (report: Option<Recency>)
    ensures exists sorted :: Arranges(sorted, Retained(items)) && report == Report(Fold(sorted), today)
  {
    var events := RetainEvents(items);
    assert Arranges(events, events) || events != [];
    if |events| == 0 { return None; }
    events := SortByDate(events);
    var listed, updated := ZERO_DATE, ZERO_DATE;
    for i := 0 to |events|
      invariant Fold(events[..i]) == Span(listed, updated)
    {
      var e := events[i];
      assert events[..i + 1][..i] == events[..i];
      if IsReset(e.text) {
        listed, updated := ZERO_DATE, ZERO_DATE;
      } else if IsListing(e.text) {
        listed, updated := e.date, e.date;
      } else if listed.instant != 0 && e.date.instant > updated.instant {
        updated := e.date;
      }
    }
    assert events[..|events|] == events;
    report := Report(Span(listed, updated), today);
  }
}
