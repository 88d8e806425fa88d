/** What becomes of each piece of a path and of a query, said of the text that
    is split again: which segments condemn the one after them, what a condemned
    segment is replaced by, and what happens to each key and value. */
module SanitizeLaws {
  import opened Common
  import opened Percent
  import opened Pieces
  import opened Sanitize

  function Decoded(s: Bytes, mode: Mode): Bytes {
    match Unescape(s, mode)
    case None => []
    case Some(d) => d
  }

  // ----- Keys and values -----

  // A value whose key is sensitive is the marker; a key like a credential is
  // the marker, and so is its value; another value is cleaned if it needs it.
  ghost predicate PairFits(r: Rules, key: Bytes, value: Bytes, once: Bytes, mode: Mode) {
    var marker, k, v := Escape(r.marker, mode), Decoded(key, mode), Decoded(value, mode);
    once == if r.sensitive(k) then key + [EQUALS] + marker
            else if r.credential(k) then marker + [EQUALS] + marker
            else if r.rewrite(v) != v then key + [EQUALS] + Escape(r.rewrite(v), mode)
            else key + [EQUALS] + value
  }

  // A matrix part or a query component. Its key ends at the first equals sign;
  // a sensitive key without a value is given the marker for one.
  ghost predicate PartFits(r: Rules, part: Bytes, once: Bytes, mode: Mode) {
    && (EQUALS !in part ==>
          var marker, k := Escape(r.marker, mode), Decoded(part, mode);
          once == if r.sensitive(k) then part + [EQUALS] + marker else if r.credential(k) then marker else part)
    && (forall key, value {:trigger key + [EQUALS] + value} ::
          part == key + [EQUALS] + value && EQUALS !in key ==> PairFits(r, key, value, once, mode))
  }

  lemma PartDecodes(r: Rules, part: Bytes, mode: Mode)
    ensures RewritePart(r, part, mode).Some? <==> Unescape(part, mode).Some?
  {
    CutShape(part);
    if Cut(part).Some? {
      var (key, value) := Cut(part).value;
      UnescapeAtEquals(key, value, mode);
    }
  }

  lemma PartLaw(r: Rules, part: Bytes, mode: Mode)
    requires RewritePart(r, part, mode).Some?
    ensures PartFits(r, part, RewritePart(r, part, mode).value, mode)
  {
    var once := RewritePart(r, part, mode).value;
    CutShape(part);
    if EQUALS !in part { CutNone(part); }
    forall key, value {:trigger key + [EQUALS] + value} | part == key + [EQUALS] + value && EQUALS !in key
      ensures PairFits(r, key, value, once, mode)
    {
      CutJoined(key, value);
    }
  }

  // ----- Paths -----

  function BaseOf(segment: Bytes): Bytes {
    Split(segment, SEMICOLON)[0]
  }

  // A base without an equals sign that is sensitive or like a credential, and
  // is not replaced itself, condemns the next.
  predicate Condemns(r: Rules, base: Bytes, condemned: bool) {
    && EQUALS !in base && !(condemned && base != [])
    && (r.sensitive(Decoded(base, PathSegment)) || r.credential(Decoded(base, PathSegment)))
  }

  // Segment i is condemned, if `start` says whether the first is.
  predicate Condemned(r: Rules, segments: seq<Bytes>, start: bool, i: nat)
    requires i <= |segments|
  {
    if i == 0 then start else Condemns(r, BaseOf(segments[i - 1]), Condemned(r, segments, start, i - 1))
  }

  // A condemned base is replaced by the marker if there is one; a name like a
  // credential is too, but a sensitive name stays, and so does any other.
  ghost predicate BaseFits(r: Rules, base: Bytes, condemned: bool, once: Bytes) {
    var marker := Escape(r.marker, PathSegment);
    if condemned && base != [] then once == marker
    else
      && (EQUALS !in base ==>
            var name := Decoded(base, PathSegment);
            once == if r.credential(name) && !r.sensitive(name) then marker else base)
      && (forall key, value {:trigger key + [EQUALS] + value} ::
            base == key + [EQUALS] + value && EQUALS !in key ==> PairFits(r, key, value, once, PathSegment))
  }

  lemma BaseLaw(r: Rules, base: Bytes, condemned: bool)
    ensures var result := RewriteBase(r, base, condemned);
            && (result.Some? <==> Unescape(base, PathSegment).Some?)
            && (result.Some? ==>
                  BaseFits(r, base, condemned, result.value.0) && result.value.1 == Condemns(r, base, condemned))
  {
    CutShape(base);
    if EQUALS !in base { CutNone(base); }
    PartDecodes(r, base, PathSegment);
    if RewritePart(r, base, PathSegment).Some? { PartLaw(r, base, PathSegment); }
  }

  predicate AllDecode(parts: seq<Bytes>, mode: Mode) {
    forall j {:trigger parts[j]} :: 0 <= j < |parts| ==> Unescape(parts[j], mode).Some?
  }

  ghost predicate AllFit(r: Rules, parts: seq<Bytes>, once: seq<Bytes>, mode: Mode) {
    && |once| == |parts|
    && forall j {:trigger parts[j]} {:trigger once[j]} :: 0 <= j < |parts| ==> PartFits(r, parts[j], once[j], mode)
  }

  lemma {:induction false} PartsDecode(r: Rules, parts: seq<Bytes>, mode: Mode)
    ensures RewriteParts(r, parts, mode).Some? <==> AllDecode(parts, mode)
  {
    if parts != [] {
      var n := |parts| - 1;
      PartsDecode(r, parts[..n], mode);
      PartDecodes(r, parts[n], mode);
      DecodeInit(parts, mode);
    }
  }

  lemma DecodeInit(parts: seq<Bytes>, mode: Mode)
    requires parts != []
    ensures var n := |parts| - 1;
            AllDecode(parts, mode) <==> AllDecode(parts[..n], mode) && Unescape(parts[n], mode).Some?
  {
    var n := |parts| - 1;
    var init := parts[..n];
    assert forall j {:trigger parts[j]} :: 0 <= j < n ==> init[j] == parts[j];
  }

  lemma {:induction false} PartsLaw(r: Rules, parts: seq<Bytes>, mode: Mode)
    requires RewriteParts(r, parts, mode).Some?
    ensures AllFit(r, parts, RewriteParts(r, parts, mode).value, mode)
  {
    if parts != [] {
      var n := |parts| - 1;
      PartsLaw(r, parts[..n], mode);
      PartLaw(r, parts[n], mode);
      FitMore(r, parts[..n], RewriteParts(r, parts[..n], mode).value, parts[n], RewritePart(r, parts[n], mode).value,
              mode);
      assert parts == parts[..n] + [parts[n]];
    }
  }

  lemma FitMore(r: Rules, parts: seq<Bytes>, once: seq<Bytes>, part: Bytes, rewritten: Bytes, mode: Mode)
    requires AllFit(r, parts, once, mode) && PartFits(r, part, rewritten, mode)
    ensures AllFit(r, parts + [part], once + [rewritten], mode)
  {
  }

  lemma FitBefore(r: Rules, parts: seq<Bytes>, once: seq<Bytes>, part: Bytes, rewritten: Bytes, mode: Mode)
    requires AllFit(r, parts, once, mode) && PartFits(r, part, rewritten, mode)
    ensures AllFit(r, [part] + parts, [rewritten] + once, mode)
  {
    var all, done := [part] + parts, [rewritten] + once;
    assert forall j {:trigger all[j]} {:trigger done[j]} :: 1 <= j < |all| ==>
        all[j] == parts[j - 1] && done[j] == once[j - 1];
  }

  lemma DecodeTail(parts: seq<Bytes>, mode: Mode)
    requires parts != []
    ensures AllDecode(parts, mode) <==> Unescape(parts[0], mode).Some? && AllDecode(parts[1..], mode)
  {
    var tail := parts[1..];
    assert forall j {:trigger parts[j]} :: 1 <= j < |parts| ==> parts[j] == tail[j - 1];
    assert forall j {:trigger tail[j]} :: 0 <= j < |tail| ==> tail[j] == parts[j + 1];
  }

  // Every piece of the segment decodes.
  predicate SegmentDecodes(segment: Bytes) {
    AllDecode(Split(segment, SEMICOLON), PathSegment)
  }

  // The base and the matrix parts, each in its place.
  ghost predicate SegmentFits(r: Rules, segment: Bytes, condemned: bool, once: Bytes) {
    var parts, rewritten := Split(segment, SEMICOLON), Split(once, SEMICOLON);
    BaseFits(r, parts[0], condemned, rewritten[0]) && AllFit(r, parts[1..], rewritten[1..], PathSegment)
  }

  lemma SegmentDecode(r: Rules, segment: Bytes, condemned: bool)
    ensures RewriteSegment(r, segment, condemned).Some? <==> SegmentDecodes(segment)
  {
    var parts := Split(segment, SEMICOLON);
    BaseLaw(r, parts[0], condemned);
    PartsDecode(r, parts[1..], PathSegment);
    DecodeTail(parts, PathSegment);
  }

  lemma SegmentLaw(r: Rules, segment: Bytes, condemned: bool)
    requires RewriteSegment(r, segment, condemned).Some?
    ensures var (once, condemns) := RewriteSegment(r, segment, condemned).value;
            SegmentFits(r, segment, condemned, once) && condemns == Condemns(r, BaseOf(segment), condemned)
  {
    var parts := Split(segment, SEMICOLON);
    BaseLaw(r, parts[0], condemned);
    PartsLaw(r, parts[1..], PathSegment);
    SegmentKeepsParts(r, segment, condemned);
    assert SegmentParts(r, segment, condemned)[1..] == RewriteParts(r, parts[1..], PathSegment).value;
  }

  lemma {:induction false} CondemnedRest(r: Rules, segments: seq<Bytes>, start: bool, i: nat)
    requires 0 < i <= |segments|
    ensures Condemned(r, segments, start, i)
            == Condemned(r, segments[1..], Condemns(r, BaseOf(segments[0]), start), i - 1)
  {
    if i > 1 { CondemnedRest(r, segments, start, i - 1); }
  }

  ghost predicate SegmentsDecode(segments: seq<Bytes>) {
    forall i {:trigger segments[i]} :: 0 <= i < |segments| ==> SegmentDecodes(segments[i])
  }

  ghost predicate SegmentsFit(r: Rules, segments: seq<Bytes>, start: bool, once: seq<Bytes>) {
    && |once| == |segments|
    && forall i {:trigger segments[i]} {:trigger once[i]} :: 0 <= i < |segments| ==>
         SegmentFits(r, segments[i], Condemned(r, segments, start, i), once[i])
  }

  lemma {:induction false} SegmentsSucceed(r: Rules, segments: seq<Bytes>, start: bool)
    ensures RewriteSegments(r, segments, start).Some? <==> SegmentsDecode(segments)
  {
    if segments != [] {
      var rewritten, later := RewriteSegment(r, segments[0], start), segments[1..];
      SegmentDecode(r, segments[0], start);
      if rewritten.Some? { SegmentsSucceed(r, later, rewritten.value.1); }
      assert forall i {:trigger segments[i]} :: 1 <= i < |segments| ==> segments[i] == later[i - 1];
      assert forall i {:trigger later[i]} :: 0 <= i < |later| ==> later[i] == segments[i + 1];
    }
  }

  lemma {:induction false} SegmentsLaw(r: Rules, segments: seq<Bytes>, start: bool)
    requires RewriteSegments(r, segments, start).Some?
    ensures SegmentsFit(r, segments, start, RewriteSegments(r, segments, start).value)
  {
    if segments != [] {
      var (first, next) := RewriteSegment(r, segments[0], start).value;
      SegmentLaw(r, segments[0], start);
      SegmentsLaw(r, segments[1..], next);
      FirstFits(r, segments, start, first, RewriteSegments(r, segments[1..], next).value);
    }
  }

  lemma FirstFits(r: Rules, segments: seq<Bytes>, start: bool, first: Bytes, rest: seq<Bytes>)
    requires segments != [] && SegmentFits(r, segments[0], start, first)
    requires SegmentsFit(r, segments[1..], Condemns(r, BaseOf(segments[0]), start), rest)
    ensures SegmentsFit(r, segments, start, [first] + rest)
  {
    var later, once := segments[1..], [first] + rest;
    forall i {:trigger segments[i]} {:trigger once[i]} | 0 <= i < |segments|
      ensures SegmentFits(r, segments[i], Condemned(r, segments, start, i), once[i])
    {
      if i > 0 {
        CondemnedRest(r, segments, start, i);
        assert segments[i] == later[i - 1] && once[i] == rest[i - 1];
      }
    }
  }

  // A path is rewritten if, and only if, every piece of it decodes. Split again
  // it has the same pieces, each as the rules say: in particular a segment
  // after a sensitive one is replaced, and clean ones are left alone.
  lemma PathLaw(r: Rules, path: Bytes)
    ensures SanitizePath(r, path).Some? <==> SegmentsDecode(Split(path, SLASH))
    ensures SanitizePath(r, path).Some? ==>
              SegmentsFit(r, Split(path, SLASH), false, Split(SanitizePath(r, path).value, SLASH))
  {
    SegmentsSucceed(r, Split(path, SLASH), false);
    if SanitizePath(r, path).Some? {
      SegmentsLaw(r, Split(path, SLASH), false);
      PathKeepsSegments(r, path);
    }
  }

  // A sensitive name condemns what follows it: of /token/abc the second
  // segment is the marker, whatever it was.
  lemma AfterSensitive(r: Rules, path: Bytes, i: nat)
    requires SanitizePath(r, path).Some? && i + 1 < |Split(path, SLASH)|
    requires var base := BaseOf(Split(path, SLASH)[i]);
             && EQUALS !in base && base != [] && r.sensitive(Decoded(base, PathSegment))
    requires !Condemned(r, Split(path, SLASH), false, i) && BaseOf(Split(path, SLASH)[i + 1]) != []
    ensures var once := Split(SanitizePath(r, path).value, SLASH);
            && |once| == |Split(path, SLASH)|
            && BaseOf(once[i]) == BaseOf(Split(path, SLASH)[i]) && BaseOf(once[i + 1]) == Escape(r.marker, PathSegment)
  {
    PathLaw(r, path);
    var segments, once := Split(path, SLASH), Split(SanitizePath(r, path).value, SLASH);
    assert SegmentFits(r, segments[i], Condemned(r, segments, false, i), once[i]);
    assert SegmentFits(r, segments[i + 1], Condemned(r, segments, false, i + 1), once[i + 1]);
  }

  // ----- Queries -----

  // The bytes between the components.
  function Delimiters(query: Bytes): Bytes {
    var e := ComponentEnd(query, 0);
    if e == |query| then [] else [query[e]] + Delimiters(query[e + 1..])
  }

  function Interleaved(components: seq<Bytes>, delimiters: Bytes): Bytes
    requires |components| == |delimiters| + 1
  {
    if delimiters == [] then components[0]
    else components[0] + [delimiters[0]] + Interleaved(components[1..], delimiters[1..])
  }

  lemma FirstComponents(query: Bytes)
    ensures var e := ComponentEnd(query, 0); var components := Components(query);
            && components != [] && components[0] == query[..e]
            && components == [query[..e]] + (if e == |query| then [] else Components(query[e + 1..]))
            && components[1..] == (if e == |query| then [] else Components(query[e + 1..]))
            && Delimiters(query) == if e == |query| then [] else [query[e]] + Delimiters(query[e + 1..])
  {
  }

  // The components are what is between ampersands and semicolons.
  ghost predicate Between(query: Bytes, components: seq<Bytes>, delimiters: Bytes) {
    && |components| == |delimiters| + 1 && Interleaved(components, delimiters) == query
    && (forall i {:trigger components[i]} :: 0 <= i < |components| ==>
          AMPERSAND !in components[i] && SEMICOLON !in components[i])
    && (forall i {:trigger delimiters[i]} :: 0 <= i < |delimiters| ==> delimiters[i] in {AMPERSAND, SEMICOLON})
  }

  lemma {:induction false} ComponentsMeaning(query: Bytes)
    ensures Between(query, Components(query), Delimiters(query))
  {
    var e := ComponentEnd(query, 0);
    FirstComponents(query);
    assert AMPERSAND !in query[..e] && SEMICOLON !in query[..e];
    if e < |query| {
      ComponentsMeaning(query[e + 1..]);
      BetweenMore(query[..e], query[e], query[e + 1..], Components(query[e + 1..]), Delimiters(query[e + 1..]));
      ThreeParts(query, e);
    } else {
      assert query[..e] == query && [query] + [] == [query];
    }
  }

  lemma BetweenMore(component: Bytes, delimiter: Byte, rest: Bytes, components: seq<Bytes>, delimiters: Bytes)
    requires Between(rest, components, delimiters) && delimiter in {AMPERSAND, SEMICOLON}
    requires AMPERSAND !in component && SEMICOLON !in component
    ensures Between(component + [delimiter] + rest, [component] + components, [delimiter] + delimiters)
  {
    assert ([component] + components)[1..] == components && ([delimiter] + delimiters)[1..] == delimiters;
  }

  lemma {:induction false} ComponentsSucceed(r: Rules, query: Bytes)
    ensures RewriteComponents(r, query).Some? <==> AllDecode(Components(query), QueryComponent)
  {
    var e := ComponentEnd(query, 0);
    FirstComponents(query);
    PartDecodes(r, query[..e], QueryComponent);
    DecodeTail(Components(query), QueryComponent);
    if e < |query| { ComponentsSucceed(r, query[e + 1..]); }
  }

  lemma {:induction false} ComponentsLaw(r: Rules, query: Bytes)
    requires RewriteComponents(r, query).Some?
    ensures var once := RewriteComponents(r, query).value;
            AllFit(r, Components(query), Components(once), QueryComponent) && Delimiters(once) == Delimiters(query)
  {
    var e := ComponentEnd(query, 0);
    var once := RewritePart(r, query[..e], QueryComponent).value;
    FirstComponents(query);
    PartLaw(r, query[..e], QueryComponent);
    ComponentAddsNoDelimiter(r, query[..e]);
    if e == |query| {
      LastFits(r, query[..e], once);
    } else {
      ComponentsLaw(r, query[e + 1..]);
      NextFits(r, query[..e], once, query[e], query[e + 1..], RewriteComponents(r, query[e + 1..]).value);
    }
  }

  lemma LastFits(r: Rules, component: Bytes, once: Bytes)
    requires PartFits(r, component, once, QueryComponent) && forall k :: 0 <= k < |once| ==> !EndsComponent(once[k])
    ensures AllFit(r, [component] + [], Components(once), QueryComponent) && Delimiters(once) == []
  {
    ResultComponents(once, [], []);
    assert once + ([] + []) == once && [component] + [] == [component];
  }

  lemma NextFits(r: Rules, component: Bytes, once: Bytes, delimiter: Byte, tail: Bytes, rest: Bytes)
    requires PartFits(r, component, once, QueryComponent) && forall k :: 0 <= k < |once| ==> !EndsComponent(once[k])
    requires EndsComponent(delimiter) && Delimiters(rest) == Delimiters(tail)
    requires AllFit(r, Components(tail), Components(rest), QueryComponent)
    ensures var all := once + [delimiter] + rest;
            && AllFit(r, [component] + Components(tail), Components(all), QueryComponent)
            && Delimiters(all) == [delimiter] + Delimiters(tail)
  {
    ResultComponents(once, [delimiter], rest);
    assert once + [delimiter] + rest == once + ([delimiter] + rest);
    FitBefore(r, Components(tail), Components(rest), component, once, QueryComponent);
  }

  // The components of a text that begins with this one.
  lemma ResultComponents(once: Bytes, delimiter: Bytes, rest: Bytes)
    requires forall k :: 0 <= k < |once| ==> !EndsComponent(once[k])
    requires (delimiter == [] && rest == []) || (|delimiter| == 1 && EndsComponent(delimiter[0]))
    ensures var all := once + (delimiter + rest);
            if delimiter == [] then Components(all) == [once] && Delimiters(all) == []
            else Components(all) == [once] + Components(rest) && Delimiters(all) == delimiter + Delimiters(rest)
  {
    var all := once + (delimiter + rest);
    EndOfFirst(once, delimiter + rest, 0);
    assert all[..|once|] == once;
    if delimiter != [] { assert all[|once| + 1..] == rest && delimiter == [all[|once|]]; }
  }

  // A query is rewritten if, and only if, every component decodes, and each
  // component as the rules say, between the same delimiters.
  lemma QueryLaw(r: Rules, query: Bytes)
    requires query != []
    ensures SanitizeQuery(r, query).Some? <==> AllDecode(Components(query), QueryComponent)
    ensures SanitizeQuery(r, query).Some? ==>
              var once := SanitizeQuery(r, query).value;
              AllFit(r, Components(query), Components(once), QueryComponent) && Delimiters(once) == Delimiters(query)
  {
    ComponentsSucceed(r, query);
    if SanitizeQuery(r, query).Some? { ComponentsLaw(r, query); }
  }
}
