/** Redaction of URL paths and queries. Keys are judged and values rewritten by
    given functions; what is proved is that rewriting a second time changes
    nothing, although a sensitive path segment also condemns the one after it,
    and that no piece is added or lost. */
module Sanitize {
  import opened Common
  import opened Percent
  import opened Pieces

  // `sensitive` keys lose their value, `credential`-like text is itself
  // replaced, `rewrite` cleans a decoded value.
  datatype Rules = Rules(marker: Bytes, sensitive: Bytes -> bool, credential: Bytes -> bool, rewrite: Bytes -> Bytes)

  function Marker(r: Rules, mode: Mode): Bytes {
    Escape(r.marker, mode)
  }

  // strings.Cut at the first equals sign.
  function Cut(s: Bytes): Option<(Bytes, Bytes)> {
    if s == [] then None
    else if s[0] == EQUALS then Some(([], s[1..]))
    else
      match Cut(s[1..])
      case None => None
      case Some((key, value)) => Some(([s[0]] + key, value))
  }

  lemma {:induction false} CutShape(s: Bytes)
    ensures match Cut(s)
            case None => EQUALS !in s
            case Some((key, value)) => s == key + [EQUALS] + value && EQUALS !in key
  {
    if s != [] && s[0] != EQUALS {
      CutShape(s[1..]);
      if Cut(s[1..]).Some? {
        var (key, value) := Cut(s[1..]).value;
        assert s == [s[0]] + s[1..] && [s[0]] + key + [EQUALS] + value == [s[0]] + (key + [EQUALS] + value);
      }
    }
  }

  lemma {:induction false} CutJoined(key: Bytes, value: Bytes)
    requires EQUALS !in key
    ensures Cut(key + [EQUALS] + value) == Some((key, value))
  {
    var s := key + [EQUALS] + value;
    if key == [] {
      assert s[1..] == value;
    } else {
      CutJoined(key[1..], value);
      assert s[1..] == key[1..] + [EQUALS] + value;
      assert [key[0]] + key[1..] == key;
    }
  }

  lemma {:induction false} CutNone(s: Bytes)
    requires EQUALS !in s
    ensures Cut(s) == None
  {
    if s != [] { CutNone(s[1..]); }
  }

  // ----- One key, with or without a value -----

  function RewritePair(r: Rules, part: Bytes, key: Bytes, value: Bytes, mode: Mode): Option<Bytes> {
    var k, v := Unescape(key, mode), Unescape(value, mode);
    if k.None? || v.None? then None
    else if r.sensitive(k.value) then Some(key + [EQUALS] + Marker(r, mode))
    else if r.credential(k.value) then Some(Marker(r, mode) + [EQUALS] + Marker(r, mode))
    else if r.rewrite(v.value) != v.value then Some(key + [EQUALS] + Escape(r.rewrite(v.value), mode))
    else Some(part)
  }

  function RewriteKey(r: Rules, key: Bytes, mode: Mode): Option<Bytes> {
    var k := Unescape(key, mode);
    if k.None? then None
    else if r.sensitive(k.value) then Some(key + [EQUALS] + Marker(r, mode))
    else if r.credential(k.value) then Some(Marker(r, mode))
    else Some(key)
  }

  // A matrix parameter of a path segment, or a component of the query.
  function RewritePart(r: Rules, part: Bytes, mode: Mode): Option<Bytes> {
    match Cut(part)
    case None => RewriteKey(r, part, mode)
    case Some((key, value)) => RewritePair(r, part, key, value, mode)
  }

  // The marker means nothing as a key or a value, and rewriting is idempotent.
  ghost predicate Harmless(r: Rules) {
    && !r.sensitive(r.marker) && !r.credential(r.marker) && r.rewrite(r.marker) == r.marker
    && (forall v {:trigger r.rewrite(v)} :: r.rewrite(r.rewrite(v)) == r.rewrite(v))
  }

  // The marker is rewritten to itself, standing alone and as a whole pair.
  ghost predicate MarkerStays(r: Rules, mode: Mode) {
    var marker := Marker(r, mode);
    RewritePart(r, marker, mode) == Some(marker)
      && RewritePart(r, marker + [EQUALS] + marker, mode) == Some(marker + [EQUALS] + marker)
  }

  // A path segment does not escape the equals sign, so there a marker that
  // holds one may be taken for a key and its value; see StableIffMarkerStays.
  ghost predicate Inert(r: Rules, mode: Mode) {
    Harmless(r) && (mode.PathSegment? ==> MarkerStays(r, PathSegment))
  }

  lemma PlainMarkerStays(r: Rules, mode: Mode)
    requires Harmless(r) && EQUALS !in Marker(r, mode)
    ensures MarkerStays(r, mode)
  {
    var marker := Marker(r, mode);
    UnescapeEscape(r.marker, mode);
    CutNone(marker);
    CutJoined(marker, marker);
  }

  lemma MarkerFacts(r: Rules, mode: Mode)
    requires Inert(r, mode)
    ensures Unescape(Marker(r, mode), mode) == Some(r.marker) && MarkerStays(r, mode)
  {
    UnescapeEscape(r.marker, mode);
    EscapedHasNoDelimiter(r.marker, mode);
    if mode.QueryComponent? { PlainMarkerStays(r, mode); }
  }

  lemma PairAgain(r: Rules, key: Bytes, value: Bytes, mode: Mode)
    requires Inert(r, mode) && EQUALS !in key
    requires Unescape(key, mode).Some? && Unescape(value, mode).Some?
    requires r.sensitive(Unescape(key, mode).value) ==> value == Marker(r, mode)
    requires !r.sensitive(Unescape(key, mode).value) ==>
               !r.credential(Unescape(key, mode).value)
                 && r.rewrite(Unescape(value, mode).value) == Unescape(value, mode).value
    ensures RewritePart(r, key + [EQUALS] + value, mode) == Some(key + [EQUALS] + value)
  {
    CutJoined(key, value);
  }

  // Rewriting a part twice is rewriting it once.
  lemma PartAgain(r: Rules, part: Bytes, mode: Mode)
    requires Inert(r, mode) && RewritePart(r, part, mode).Some?
    ensures var once := RewritePart(r, part, mode).value; RewritePart(r, once, mode) == Some(once)
  {
    var marker, once := Marker(r, mode), RewritePart(r, part, mode).value;
    MarkerFacts(r, mode);
    CutShape(part);
    match Cut(part)
    case None =>
      if r.sensitive(Unescape(part, mode).value) { PairAgain(r, part, marker, mode); }
    case Some((key, value)) =>
      var k, v := Unescape(key, mode).value, Unescape(value, mode).value;
      if r.sensitive(k) {
        PairAgain(r, key, marker, mode);
      } else if !r.credential(k) && r.rewrite(v) != v {
        UnescapeEscape(r.rewrite(v), mode);
        PairAgain(r, key, Escape(r.rewrite(v), mode), mode);
      }
  }

  // A rewritten part holds no delimiter that the part did not hold.
  lemma PartAddsNoDelimiter(r: Rules, part: Bytes, mode: Mode, c: Byte)
    requires RewritePart(r, part, mode).Some? && c !in part
    requires c == SLASH || c == SEMICOLON || (mode.QueryComponent? && c == AMPERSAND)
    ensures c !in RewritePart(r, part, mode).value
  {
    EscapedHasNoDelimiter(r.marker, mode);
    CutShape(part);
    if Cut(part).Some? {
      var v := Unescape(Cut(part).value.1, mode);
      if v.Some? { EscapedHasNoDelimiter(r.rewrite(v.value), mode); }
    }
  }

  // ----- The path -----

  // The base of a segment, and whether it condemns the next one.
  function RewriteBase(r: Rules, base: Bytes, previousSensitive: bool): Option<(Bytes, bool)> {
    var decoded := Unescape(base, PathSegment);
    if decoded.None? then None
    else if previousSensitive && base != [] then Some((Marker(r, PathSegment), false))
    else if Cut(base).Some? then
      match RewritePart(r, base, PathSegment)
      case None => None
      case Some(b) => Some((b, false))
    else
      var named, credential := r.sensitive(decoded.value), r.credential(decoded.value);
      Some((if credential && !named then Marker(r, PathSegment) else base, named || credential))
  }

  function RewriteParts(r: Rules, parts: seq<Bytes>, mode: Mode): (o: Option<seq<Bytes>>)
    ensures o.Some? ==> |o.value| == |parts|
  {
    if parts == [] then Some([])
    else
      var n := |parts| - 1;
      match RewriteParts(r, parts[..n], mode)
      case None => None
      case Some(before) =>
        match RewritePart(r, parts[n], mode)
        case None => None
        case Some(part) => Some(before + [part])
  }

  function RewriteSegment(r: Rules, segment: Bytes, previousSensitive: bool): Option<(Bytes, bool)> {
    var parts := Split(segment, SEMICOLON);
    match RewriteBase(r, parts[0], previousSensitive)
    case None => None
    case Some((base, sensitive)) =>
      match RewriteParts(r, parts[1..], PathSegment)
      case None => None
      case Some(rest) => Some((Join([base] + rest, SEMICOLON), sensitive))
  }

  function RewriteSegments(r: Rules, segments: seq<Bytes>, previousSensitive: bool): (o: Option<seq<Bytes>>)
    ensures o.Some? ==> |o.value| == |segments|
  {
    if segments == [] then Some([])
    else
      match RewriteSegment(r, segments[0], previousSensitive)
      case None => None
      case Some((segment, sensitive)) =>
        match RewriteSegments(r, segments[1..], sensitive)
        case None => None
        case Some(rest) => Some([segment] + rest)
  }

  function SanitizePath(r: Rules, path: Bytes): Option<Bytes> {
    match RewriteSegments(r, Split(path, SLASH), false)
    case None => None
    case Some(segments) => Some(Join(segments, SLASH))
  }

  // The second pass may no longer see what condemned a segment (the marker has
  // taken its place), but what was condemned is the marker by then.
  lemma BaseAgain(r: Rules, base: Bytes, first: bool, second: bool)
    requires Inert(r, PathSegment) && RewriteBase(r, base, first).Some? && (second ==> first)
    ensures var (once, sensitive) := RewriteBase(r, base, first).value; var again := RewriteBase(r, once, second);
            again.Some? && again.value.0 == once && (again.value.1 ==> sensitive)
  {
    var marker := Marker(r, PathSegment);
    MarkerFacts(r, PathSegment);
    if !(first && base != []) && Cut(base).Some? {
      PartAgain(r, base, PathSegment);
      RewrittenPairDecodes(r, base);
    }
  }

  lemma RewrittenPairDecodes(r: Rules, part: Bytes)
    requires Cut(part).Some? && RewritePart(r, part, PathSegment).Some? && Inert(r, PathSegment)
    ensures var once := RewritePart(r, part, PathSegment).value; Unescape(once, PathSegment).Some? && Cut(once).Some?
  {
    var (key, value) := Cut(part).value;
    var marker := Marker(r, PathSegment);
    MarkerFacts(r, PathSegment);
    CutShape(part);
    UnescapeAtEquals(key, value, PathSegment);
    UnescapeAtEquals(key, marker, PathSegment);
    UnescapeAtEquals(marker, marker, PathSegment);
    CutJoined(key, marker);
    CutShape(marker + [EQUALS] + marker);
    var v := Unescape(value, PathSegment).value;
    UnescapeEscape(r.rewrite(v), PathSegment);
    UnescapeAtEquals(key, Escape(r.rewrite(v), PathSegment), PathSegment);
    CutJoined(key, Escape(r.rewrite(v), PathSegment));
  }

  lemma BaseAddsNoDelimiter(r: Rules, base: Bytes, previousSensitive: bool, c: Byte)
    requires RewriteBase(r, base, previousSensitive).Some? && c !in base && (c == SLASH || c == SEMICOLON)
    ensures c !in RewriteBase(r, base, previousSensitive).value.0
  {
    EscapedHasNoDelimiter(r.marker, PathSegment);
    if Cut(base).Some? && !(previousSensitive && base != []) { PartAddsNoDelimiter(r, base, PathSegment, c); }
  }

  lemma {:induction false} PartsAgain(r: Rules, parts: seq<Bytes>, mode: Mode)
    requires Inert(r, mode) && RewriteParts(r, parts, mode).Some?
    ensures var once := RewriteParts(r, parts, mode).value; RewriteParts(r, once, mode) == Some(once)
  {
    if parts != [] {
      var n := |parts| - 1;
      PartsAgain(r, parts[..n], mode);
      PartAgain(r, parts[n], mode);
      assert RewriteParts(r, parts, mode).value[..n] == RewriteParts(r, parts[..n], mode).value;
    }
  }

  lemma {:induction false} PartsAddNoDelimiter(r: Rules, parts: seq<Bytes>, c: Byte)
    requires RewriteParts(r, parts, PathSegment).Some? && Free(parts, c) && (c == SLASH || c == SEMICOLON)
    ensures Free(RewriteParts(r, parts, PathSegment).value, c)
  {
    if parts != [] {
      var n := |parts| - 1;
      PartsAddNoDelimiter(r, parts[..n], c);
      PartAddsNoDelimiter(r, parts[n], PathSegment, c);
    }
  }

  // What a segment is rewritten to, before it is joined.
  function SegmentParts(r: Rules, segment: Bytes, previousSensitive: bool): (o: seq<Bytes>)
    requires RewriteSegment(r, segment, previousSensitive).Some?
    ensures |o| == |Split(segment, SEMICOLON)|
  {
    var parts := Split(segment, SEMICOLON);
    [RewriteBase(r, parts[0], previousSensitive).value.0] + RewriteParts(r, parts[1..], PathSegment).value
  }

  // The matrix parts of a segment stay apart, and stay as many.
  lemma SegmentKeepsParts(r: Rules, segment: Bytes, previousSensitive: bool)
    requires RewriteSegment(r, segment, previousSensitive).Some?
    ensures var once := RewriteSegment(r, segment, previousSensitive).value.0;
            Split(once, SEMICOLON) == SegmentParts(r, segment, previousSensitive)
  {
    var parts := Split(segment, SEMICOLON);
    SplitIsFree(segment, SEMICOLON);
    assert parts[0] == parts[0] && Free(parts[1..], SEMICOLON);
    BaseAddsNoDelimiter(r, parts[0], previousSensitive, SEMICOLON);
    PartsAddNoDelimiter(r, parts[1..], SEMICOLON);
    SplitJoin(SegmentParts(r, segment, previousSensitive), SEMICOLON);
  }

  lemma SegmentAgain(r: Rules, segment: Bytes, first: bool, second: bool)
    requires Inert(r, PathSegment) && RewriteSegment(r, segment, first).Some? && (second ==> first)
    ensures var (once, sensitive) := RewriteSegment(r, segment, first).value;
            var again := RewriteSegment(r, once, second);
            again.Some? && again.value.0 == once && (again.value.1 ==> sensitive)
  {
    var parts := Split(segment, SEMICOLON);
    var once := SegmentParts(r, segment, first);
    SegmentKeepsParts(r, segment, first);
    BaseAgain(r, parts[0], first, second);
    PartsAgain(r, parts[1..], PathSegment);
    assert once[1..] == RewriteParts(r, parts[1..], PathSegment).value && once == [once[0]] + once[1..];
  }

  lemma {:induction false} SegmentsAgain(r: Rules, segments: seq<Bytes>, first: bool, second: bool)
    requires Inert(r, PathSegment) && RewriteSegments(r, segments, first).Some? && (second ==> first)
    ensures var once := RewriteSegments(r, segments, first).value; RewriteSegments(r, once, second) == Some(once)
  {
    if segments != [] {
      SegmentAgain(r, segments[0], first, second);
      var (segment, sensitive) := RewriteSegment(r, segments[0], first).value;
      var once := RewriteSegments(r, segments, first).value;
      SegmentsAgain(r, segments[1..], sensitive, RewriteSegment(r, segment, second).value.1);
      assert once[1..] == RewriteSegments(r, segments[1..], sensitive).value;
    }
  }

  lemma {:induction false} JoinIsFree(parts: seq<Bytes>, c: Byte, separator: Byte)
    requires parts != [] && Free(parts, c) && c != separator
    ensures c !in Join(parts, separator)
  {
    if |parts| > 1 { JoinIsFree(parts[1..], c, separator); }
  }

  lemma {:induction false} SplitPiecesFree(s: Bytes, c: Byte, separator: Byte)
    requires c !in s
    ensures Free(Split(s, separator), c)
  {
    if s != [] { SplitPiecesFree(s[1..], c, separator); }
  }

  lemma {:induction false} SegmentsAddNoSlash(r: Rules, segments: seq<Bytes>, previousSensitive: bool)
    requires RewriteSegments(r, segments, previousSensitive).Some? && Free(segments, SLASH)
    ensures Free(RewriteSegments(r, segments, previousSensitive).value, SLASH)
  {
    if segments != [] {
      var parts := Split(segments[0], SEMICOLON);
      SplitPiecesFree(segments[0], SLASH, SEMICOLON);
      assert Free(parts[1..], SLASH);
      BaseAddsNoDelimiter(r, parts[0], previousSensitive, SLASH);
      PartsAddNoDelimiter(r, parts[1..], SLASH);
      JoinIsFree(SegmentParts(r, segments[0], previousSensitive), SLASH, SEMICOLON);
      SegmentsAddNoSlash(r, segments[1..], RewriteSegment(r, segments[0], previousSensitive).value.1);
    }
  }

  // The rewritten path has the segments it was rewritten to.
  lemma PathKeepsSegments(r: Rules, path: Bytes)
    requires SanitizePath(r, path).Some?
    ensures Split(SanitizePath(r, path).value, SLASH) == RewriteSegments(r, Split(path, SLASH), false).value
    ensures |Split(SanitizePath(r, path).value, SLASH)| == |Split(path, SLASH)|
  {
    SplitIsFree(path, SLASH);
    SegmentsAddNoSlash(r, Split(path, SLASH), false);
    SplitJoin(RewriteSegments(r, Split(path, SLASH), false).value, SLASH);
  }

  // Segment by segment, the matrix parts stay as many.
  lemma {:induction false} EachSegmentKeepsItsParts(r: Rules, segments: seq<Bytes>, previousSensitive: bool, i: nat)
    requires RewriteSegments(r, segments, previousSensitive).Some? && i < |segments|
    ensures |Split(RewriteSegments(r, segments, previousSensitive).value[i], SEMICOLON)|
            == |Split(segments[i], SEMICOLON)|
  {
    if i == 0 {
      SegmentKeepsParts(r, segments[0], previousSensitive);
    } else {
      EachSegmentKeepsItsParts(r, segments[1..], RewriteSegment(r, segments[0], previousSensitive).value.1, i - 1);
    }
  }

  // Rewriting a path twice is rewriting it once, for every path.
  lemma PathIdempotent(r: Rules, path: Bytes)
    requires Inert(r, PathSegment) && SanitizePath(r, path).Some?
    ensures var once := SanitizePath(r, path).value; SanitizePath(r, once) == Some(once)
  {
    PathKeepsSegments(r, path);
    SegmentsAgain(r, Split(path, SLASH), false, false);
  }

  // ----- The query -----

  predicate EndsComponent(b: Byte) {
    b == AMPERSAND || b == SEMICOLON
  }

  // Where the component that starts at i ends.
  function ComponentEnd(query: Bytes, i: nat): (e: nat)
    requires i <= |query|
    ensures i <= e <= |query|
    ensures forall k :: i <= k < e ==> !EndsComponent(query[k])
    ensures e < |query| ==> EndsComponent(query[e])
    decreases |query| - i
  {
    if i < |query| && !EndsComponent(query[i]) then ComponentEnd(query, i + 1) else i
  }

  function RewriteComponents(r: Rules, query: Bytes): Option<Bytes> {
    var e := ComponentEnd(query, 0);
    match RewritePart(r, query[..e], QueryComponent)
    case None => None
    case Some(component) =>
      if e == |query| then Some(component)
      else
        match RewriteComponents(r, query[e + 1..])
        case None => None
        case Some(rest) => Some(component + [query[e]] + rest)
  }

  function SanitizeQuery(r: Rules, query: Bytes): Option<Bytes> {
    if query == [] then Some([]) else RewriteComponents(r, query)
  }

  function Components(query: Bytes): seq<Bytes> {
    var e := ComponentEnd(query, 0);
    [query[..e]] + if e == |query| then [] else Components(query[e + 1..])
  }

  lemma {:induction false} EndOfFirst(component: Bytes, rest: Bytes, i: nat)
    requires (forall k :: 0 <= k < |component| ==> !EndsComponent(component[k]))
             && (rest == [] || EndsComponent(rest[0])) && i <= |component|
    ensures ComponentEnd(component + rest, i) == |component|
    decreases |component| - i
  {
    if i < |component| { EndOfFirst(component, rest, i + 1); }
  }

  lemma ComponentAddsNoDelimiter(r: Rules, component: Bytes)
    requires RewritePart(r, component, QueryComponent).Some?
             && forall k :: 0 <= k < |component| ==> !EndsComponent(component[k])
    ensures var once := RewritePart(r, component, QueryComponent).value;
            forall k :: 0 <= k < |once| ==> !EndsComponent(once[k])
  {
    PartAddsNoDelimiter(r, component, QueryComponent, AMPERSAND);
    PartAddsNoDelimiter(r, component, QueryComponent, SEMICOLON);
  }

  // Rewriting a query twice is rewriting it once, and its components stay as
  // many, each with its delimiter.
  lemma {:induction false} ComponentsAgain(r: Rules, query: Bytes)
    requires Inert(r, QueryComponent) && RewriteComponents(r, query).Some?
    ensures var once := RewriteComponents(r, query).value;
            RewriteComponents(r, once) == Some(once) && |Components(once)| == |Components(query)|
  {
    var e := ComponentEnd(query, 0);
    var once := RewritePart(r, query[..e], QueryComponent).value;
    ComponentAddsNoDelimiter(r, query[..e]);
    PartAgain(r, query[..e], QueryComponent);
    if e == |query| {
      EndOfFirst(once, [], 0);
      assert once + [] == once && once[..|once|] == once;
    } else {
      var rest := RewriteComponents(r, query[e + 1..]).value;
      var all := once + ([query[e]] + rest);
      ComponentsAgain(r, query[e + 1..]);
      EndOfFirst(once, [query[e]] + rest, 0);
      assert once + [query[e]] + rest == all && all[..|once|] == once && all[|once| + 1..] == rest;
    }
  }

  lemma QueryIdempotent(r: Rules, query: Bytes)
    requires Inert(r, QueryComponent) && SanitizeQuery(r, query).Some?
    ensures var once := SanitizeQuery(r, query).value; SanitizeQuery(r, once) == Some(once)
    ensures query != [] ==> |Components(SanitizeQuery(r, query).value)| == |Components(query)|
  {
    if query != [] { ComponentsAgain(r, query); }
  }

  // ----- Text without anything to redact -----

  ghost predicate NothingToRedact(r: Rules) {
    forall x {:trigger r.sensitive(x)} {:trigger r.credential(x)} {:trigger r.rewrite(x)} ::
      !r.sensitive(x) && !r.credential(x) && r.rewrite(x) == x
  }

  lemma PartUnchanged(r: Rules, part: Bytes, mode: Mode)
    requires NothingToRedact(r)
    ensures RewritePart(r, part, mode).Some? ==> RewritePart(r, part, mode).value == part
  {
  }

  lemma BaseUnchanged(r: Rules, base: Bytes)
    requires NothingToRedact(r)
    ensures RewriteBase(r, base, false).Some? ==> RewriteBase(r, base, false).value == (base, false)
  {
    PartUnchanged(r, base, PathSegment);
  }

  lemma {:induction false} PartsUnchanged(r: Rules, parts: seq<Bytes>, mode: Mode)
    requires NothingToRedact(r)
    ensures RewriteParts(r, parts, mode).Some? ==> RewriteParts(r, parts, mode).value == parts
  {
    if parts != [] {
      var n := |parts| - 1;
      PartsUnchanged(r, parts[..n], mode);
      PartUnchanged(r, parts[n], mode);
      assert parts == parts[..n] + [parts[n]];
    }
  }

  lemma SegmentUnchanged(r: Rules, segment: Bytes)
    requires NothingToRedact(r)
    ensures RewriteSegment(r, segment, false).Some? ==> RewriteSegment(r, segment, false).value == (segment, false)
  {
    var parts := Split(segment, SEMICOLON);
    BaseUnchanged(r, parts[0]);
    PartsUnchanged(r, parts[1..], PathSegment);
    JoinSplit(segment, SEMICOLON);
    FirstAndRest(parts);
  }

  lemma ThreeParts<T>(s: seq<T>, e: nat)
    requires e < |s|
    ensures s[..e] + [s[e]] + s[e + 1..] == s
  {
  }

  lemma FirstAndRest<T>(parts: seq<T>)
    requires parts != []
    ensures [parts[0]] + parts[1..] == parts
  {
  }

  lemma {:induction false} SegmentsUnchanged(r: Rules, segments: seq<Bytes>)
    requires NothingToRedact(r)
    ensures RewriteSegments(r, segments, false).Some? ==> RewriteSegments(r, segments, false).value == segments
  {
    if segments != [] {
      SegmentUnchanged(r, segments[0]);
      SegmentsUnchanged(r, segments[1..]);
      FirstAndRest(segments);
    }
  }

  lemma {:induction false} ComponentsUnchanged(r: Rules, query: Bytes)
    requires NothingToRedact(r)
    ensures RewriteComponents(r, query).Some? ==> RewriteComponents(r, query).value == query
  {
    var e := ComponentEnd(query, 0);
    FirstComponent(r, query, e);
    PartUnchanged(r, query[..e], QueryComponent);
    if e < |query| {
      ComponentsUnchanged(r, query[e + 1..]);
      ThreeParts(query, e);
    } else {
      assert query[..e] == query;
    }
  }

  // Where nothing is sensitive, paths and queries that decode are left alone.
  lemma CleanTextUnchanged(r: Rules, path: Bytes, query: Bytes)
    requires NothingToRedact(r)
    ensures SanitizePath(r, path).Some? ==> SanitizePath(r, path).value == path
    ensures SanitizeQuery(r, query).Some? ==> SanitizeQuery(r, query).value == query
  {
    SegmentsUnchanged(r, Split(path, SLASH));
    JoinSplit(path, SLASH);
    if query != [] { ComponentsUnchanged(r, query); }
  }

  // ----- Markers with an equals sign -----

  ghost predicate PathsStable(r: Rules) {
    forall path {:trigger SanitizePath(r, path)} ::
      SanitizePath(r, path).Some? ==> SanitizePath(r, SanitizePath(r, path).value) == SanitizePath(r, path)
  }

  lemma OnePart(r: Rules, part: Bytes)
    ensures RewriteParts(r, [part], PathSegment) == match RewritePart(r, part, PathSegment) case None =>
            None case Some(p) => Some([p])
  {
    assert [part][..0] == [] && RewriteParts(r, [], PathSegment) == Some([]);
    var once := RewritePart(r, part, PathSegment);
    if once.Some? { assert [] + [once.value] == [once.value]; }
  }

  lemma OneSegment(r: Rules, segment: Bytes)
    requires SLASH !in segment
    ensures SanitizePath(r, segment) == match RewriteSegment(r, segment, false) case None =>
            None case Some((once, _)) => Some(once)
  {
    SplitWithout(segment, SLASH);
    assert [segment][1..] == [];
    var once := RewriteSegment(r, segment, false);
    if once.Some? {
      assert [once.value.0] + [] == [once.value.0];
      assert RewriteSegments(r, [segment], false) == Some([once.value.0]);
    }
  }

  // A matrix part behind an empty base.
  lemma MatrixPart(r: Rules, part: Bytes)
    requires SLASH !in part && SEMICOLON !in part && RewritePart(r, part, PathSegment).Some?
    ensures var segment := [SEMICOLON] + part; var once := RewriteSegment(r, segment, false);
            && once.Some? && |Split(once.value.0, SEMICOLON)| == 2
            && Split(once.value.0, SEMICOLON)[1] == RewritePart(r, part, PathSegment).value
  {
    var segment := [SEMICOLON] + part;
    assert segment == [] + [SEMICOLON] + part;
    SplitAt([], SEMICOLON, part);
    SplitWithout(part, SEMICOLON);
    assert Split(segment, SEMICOLON)[1..] == [part];
    OnePart(r, part);
    SegmentKeepsParts(r, segment, false);
  }

  lemma RewrittenPart(r: Rules, segment: Bytes)
    requires |Split(segment, SEMICOLON)| == 2 && RewriteSegment(r, segment, false).Some?
    ensures var parts := Split(RewriteSegment(r, segment, false).value.0, SEMICOLON);
            |parts| == 2 && RewritePart(r, Split(segment, SEMICOLON)[1], PathSegment) == Some(parts[1])
  {
    var parts := Split(segment, SEMICOLON);
    assert parts[1..] == [parts[1]];
    OnePart(r, parts[1]);
    SegmentKeepsParts(r, segment, false);
  }

  // Where all paths are stable, so is every part.
  lemma StablePart(r: Rules, part: Bytes)
    requires PathsStable(r) && SLASH !in part && SEMICOLON !in part && RewritePart(r, part, PathSegment).Some?
    ensures var once := RewritePart(r, part, PathSegment).value; RewritePart(r, once, PathSegment) == Some(once)
  {
    var path := [SEMICOLON] + part;
    OneSegment(r, path);
    MatrixPart(r, part);
    var segment := RewriteSegment(r, path, false).value.0;
    SplitWithout(path, SLASH);
    SegmentsAddNoSlash(r, [path], false);
    OneSegment(r, segment);
    RewrittenPart(r, segment);
  }

  // Some name without a value is replaced by the marker.
  ghost predicate Replaces(r: Rules, name: Bytes) {
    EQUALS !in name && !r.sensitive(name) && r.credential(name)
  }

  // Under given rules, every path is stable exactly when the marker is
  // rewritten to itself; some name must be replaced, or the marker may never
  // come to stand where it could be rewritten.
  lemma StableIffMarkerStays(r: Rules, name: Bytes)
    requires Harmless(r) && Replaces(r, name)
    ensures PathsStable(r) <==> MarkerStays(r, PathSegment)
  {
    if PathsStable(r) {
      var escaped := Escape(name, PathSegment);
      UnescapeEscape(name, PathSegment);
      EscapedHasNoDelimiter(name, PathSegment);
      CutNone(escaped);
      StablePart(r, escaped);
      CutJoined(escaped, []);
      StablePart(r, escaped + [EQUALS] + []);
    }
    if MarkerStays(r, PathSegment) { InertIsStable(r); }
  }

  lemma InertIsStable(r: Rules)
    requires Inert(r, PathSegment)
    ensures PathsStable(r)
  {
    forall path {:trigger SanitizePath(r, path)} | SanitizePath(r, path).Some?
      ensures SanitizePath(r, SanitizePath(r, path).value) == SanitizePath(r, path)
    {
      PathIdempotent(r, path);
    }
  }

  lemma {:induction false} EscapeConcat(a: Bytes, b: Bytes, mode: Mode)
    ensures Escape(a + b, mode) == Escape(a, mode) + Escape(b, mode)
  {
    if a == [] {
      assert a + b == b;
    } else {
      EscapeConcat(a[1..], b, mode);
      assert (a + b)[1..] == a[1..] + b;
      ConcatAssociates(EscapeByte(a[0], mode), Escape(a[1..], mode), Escape(b, mode));
    }
  }

  // Rules under which a marker key=value is harmless as a whole, but its key
  // is sensitive.
  function KeyOfMarkerIsSensitive(key: Bytes, value: Bytes): Rules {
    Rules(key + [EQUALS] + value, k => k == key, k => k == key + [65], v => v)
  }

  // The marker is taken for a sensitive key and its value.
  lemma MarkerIsRewritten(r: Rules, key: Bytes, value: Bytes)
    requires EQUALS !in key && r.marker == key + [EQUALS] + value && r.sensitive(key)
    ensures !MarkerStays(r, PathSegment)
  {
    var marker, k, v := Marker(r, PathSegment), Escape(key, PathSegment), Escape(value, PathSegment);
    UnescapeEscape(key, PathSegment);
    UnescapeEscape(value, PathSegment);
    EscapedHasNoDelimiter(key, PathSegment);
    EscapeConcat(key + [EQUALS], value, PathSegment);
    EscapeConcat(key, [EQUALS], PathSegment);
    assert Escape([EQUALS], PathSegment) == [EQUALS];
    assert marker == k + [EQUALS] + v;
    CutJoined(k, v);
    assert |k + [EQUALS] + marker| > |marker|;
  }

  lemma MarkerKeyIsFound(key: Bytes, value: Bytes)
    requires EQUALS !in key
    ensures Harmless(KeyOfMarkerIsSensitive(key, value)) && !PathsStable(KeyOfMarkerIsSensitive(key, value))
  {
    var r := KeyOfMarkerIsSensitive(key, value);
    var name := key + [65];
    assert r.marker[|key|] == EQUALS && name[|key|] == 65 && |r.marker| > |key|;
    MarkerIsRewritten(r, key, value);
    StableIffMarkerStays(r, name);
  }

  // Exactly the markers without an equals sign keep every path stable under
  // all rules that treat the marker as harmless.
  lemma MarkerWithoutEquals(marker: Bytes)
    ensures EQUALS !in marker
            <==> forall r: Rules {:trigger PathsStable(r)} :: r.marker == marker && Harmless(r) ==> PathsStable(r)
  {
    if EQUALS !in marker {
      forall r: Rules {:trigger PathsStable(r)} | r.marker == marker && Harmless(r) ensures PathsStable(r) {
        EscapedHasNoDelimiter(marker, PathSegment);
        PlainMarkerStays(r, PathSegment);
        InertIsStable(r);
      }
    } else {
      CutShape(marker);
      var (key, value) := Cut(marker).value;
      MarkerKeyIsFound(key, value);
      assert KeyOfMarkerIsSensitive(key, value).marker == marker;
    }
  }

  // ----- The loops -----

  // What is done already, followed by what is still to come, if that succeeds.
  function Prefixed<T>(done: seq<T>, rest: Option<seq<T>>): Option<seq<T>> {
    match rest
    case None => None
    case Some(r) => Some(done + r)
  }

  lemma PrefixedMore<T>(done: seq<T>, more: seq<T>, rest: Option<seq<T>>)
    ensures Prefixed(done, Prefixed(more, rest)) == Prefixed(done + more, rest)
    ensures Prefixed([], rest) == rest && Prefixed(done, Some([])) == Some(done)
  {
    if rest.Some? { assert done + (more + rest.value) == done + more + rest.value && [] + rest.value == rest.value; }
    assert done + [] == done;
  }

  method RewritePartsInPlace(r: Rules, original: seq<Bytes>) returns (result: Option<seq<Bytes>>)
    ensures result == RewriteParts(r, original, PathSegment)
  {
    var parts := original;
    assert original[..0] == [] && parts[..0] == [];
    for i := 0 to |parts|
      invariant |parts| == |original| && parts[i..] == original[i..]
                && RewriteParts(r, original[..i], PathSegment) == Some(parts[..i])
    {
      assert original[..i + 1][..i] == original[..i] && parts[i] == original[i];
      var part := RewritePart(r, parts[i], PathSegment);
      if part.None? {
        PartsFail(r, original, i + 1);
        return None;
      }
      ghost var done := parts[..i];
      parts := parts[i := part.value];
      assert parts[..i + 1] == done + [part.value];
    }
    assert original[..|original|] == original && parts[..|parts|] == parts;
    return Some(parts);
  }

  method RewriteSegmentInPlace(r: Rules, segment: Bytes, previousSensitive: bool)
    returns (result: Option<(Bytes, bool)>)
    ensures result == RewriteSegment(r, segment, previousSensitive)
  {
    var parts := Split(segment, SEMICOLON);
    var base := RewriteBase(r, parts[0], previousSensitive);
    if base.None? { return None; }
    var matrix := RewritePartsInPlace(r, parts[1..]);
    if matrix.None? { return None; }
    return Some((Join([base.value.0] + matrix.value, SEMICOLON), base.value.1));
  }

  // A part that does not decode fails the whole list.
  lemma {:induction false} PartsFail(r: Rules, parts: seq<Bytes>, n: nat)
    requires 0 < n <= |parts| && RewriteParts(r, parts[..n], PathSegment).None?
    ensures RewriteParts(r, parts, PathSegment).None?
    decreases |parts|
  {
    if n < |parts| {
      assert parts[..|parts| - 1][..n] == parts[..n];
      PartsFail(r, parts[..|parts| - 1], n);
    } else {
      assert parts[..n] == parts;
    }
  }

  lemma SegmentsStep(r: Rules, segments: seq<Bytes>, i: nat, previousSensitive: bool)
    requires i < |segments|
    ensures var rewritten := RewriteSegment(r, segments[i], previousSensitive);
            RewriteSegments(r, segments[i..], previousSensitive)
            == if rewritten.None? then None
               else Prefixed([rewritten.value.0], RewriteSegments(r, segments[i + 1..], rewritten.value.1))
  {
    assert segments[i..][0] == segments[i] && segments[i..][1..] == segments[i + 1..];
  }

  // The segments are overwritten one by one; `previousSensitive` is carried.
  method SanitizeURLPath(r: Rules, path: Bytes) returns (result: Option<Bytes>)
    ensures result == SanitizePath(r, path)
  {
    var segments := Split(path, SLASH);
    ghost var original := segments;
    var previousSensitive := false;
    assert original[0..] == original && segments[..0] == [];
    PrefixedMore([], [], RewriteSegments(r, original, false));
    for i := 0 to |segments|
      invariant |segments| == |original| && segments[i..] == original[i..]
      invariant RewriteSegments(r, original, false)
                == Prefixed(segments[..i], RewriteSegments(r, original[i..], previousSensitive))
    {
      SegmentsStep(r, original, i, previousSensitive);
      assert segments[i] == original[i];
      var rewritten := RewriteSegmentInPlace(r, segments[i], previousSensitive);
      if rewritten.None? { return None; }
      ghost var done := segments[..i];
      segments := segments[i := rewritten.value.0];
      previousSensitive := rewritten.value.1;
      assert segments[..i + 1] == done + [rewritten.value.0];
      PrefixedMore(done, [rewritten.value.0], RewriteSegments(r, original[i + 1..], previousSensitive));
    }
    assert original[|original|..] == [] && segments[..|segments|] == segments;
    PrefixedMore(segments, [], Some([]));
    return Some(Join(segments, SLASH));
  }

  // A component rewritten, and then what follows its delimiter.
  function ComponentThen(r: Rules, component: Bytes, delimiter: Bytes, rest: Option<Bytes>): Option<Bytes> {
    match RewritePart(r, component, QueryComponent)
    case None => None
    case Some(c) => Prefixed(c + delimiter, rest)
  }

  lemma FirstComponent(r: Rules, query: Bytes, e: nat)
    requires e == ComponentEnd(query, 0)
    ensures RewriteComponents(r, query)
         == if e == |query| then ComponentThen(r, query[..e], [], Some([]))
            else ComponentThen(r, query[..e], [query[e]], RewriteComponents(r, query[e + 1..]))
  {
    var c := RewritePart(r, query[..e], QueryComponent);
    if c.Some? { assert c.value + [] + [] == c.value; }
  }

  lemma SliceOfSlice(query: Bytes, start: nat, e: nat)
    requires start <= e <= |query|
    ensures query[start..][..e - start] == query[start..e] && query[start..][e - start..] == query[e..]
  {
  }

  lemma ComponentsStep(r: Rules, query: Bytes, start: nat, e: nat)
    requires start <= |query| && e == ComponentEnd(query, start)
    ensures RewriteComponents(r, query[start..])
         == if e == |query| then ComponentThen(r, query[start..e], [], Some([]))
            else ComponentThen(r, query[start..e], [query[e]], RewriteComponents(r, query[e + 1..]))
  {
    EndInSuffix(query, start, start);
    SliceOfSlice(query, start, e);
    FirstOfSuffix(r, query[start..], e - start, query[start..e], query[e..]);
    if e < |query| { assert query[e..][1..] == query[e + 1..]; }
  }

  lemma FirstOfSuffix(r: Rules, suffix: Bytes, e: nat, component: Bytes, rest: Bytes)
    requires e == ComponentEnd(suffix, 0) && component == suffix[..e] && rest == suffix[e..]
    ensures RewriteComponents(r, suffix)
         == if rest == [] then ComponentThen(r, component, [], Some([]))
            else ComponentThen(r, component, [rest[0]], RewriteComponents(r, rest[1..]))
  {
    FirstComponent(r, suffix, e);
    if e < |suffix| { assert suffix[e..][1..] == suffix[e + 1..]; }
  }

  // What is left to do from `start`; past the end, nothing is.
  function Remaining(r: Rules, query: Bytes, start: nat): Option<Bytes> {
    if start > |query| then Some([]) else RewriteComponents(r, query[start..])
  }

  // Rewrite the component that ends at `index`, and keep its delimiter.
  method TakeComponent(r: Rules, query: Bytes, start: nat, index: nat, output: Bytes) returns (result: Option<Bytes>)
    requires start <= index <= |query| && index == ComponentEnd(query, start)
    ensures Prefixed(output, Remaining(r, query, start)) == if result.None? then None
            else Prefixed(result.value, Remaining(r, query, index + 1))
  {
    ComponentsStep(r, query, start, index);
    var component := RewritePart(r, query[start..index], QueryComponent);
    if component.None? { return None; }
    var written := component.value + if index < |query| then [query[index]] else [];
    PrefixedMore(output, written, Remaining(r, query, index + 1));
    return Some(output + written);
  }

  // One scan over the bytes; a component is rewritten when its end is reached.
  method SanitizeRawQuery(r: Rules, query: Bytes) returns (result: Option<Bytes>)
    ensures result == SanitizeQuery(r, query)
  {
    if query == [] { return Some([]); }
    var output: Bytes := [];
    var start, index := 0, 0;
    assert query[0..] == query;
    PrefixedMore([], [], Remaining(r, query, 0));
    while index <= |query|
      invariant 0 <= start <= index <= |query| + 1
      invariant index <= |query| ==> ComponentEnd(query, start) == ComponentEnd(query, index)
      invariant index > |query| ==> start > |query|
      invariant Remaining(r, query, 0) == Prefixed(output, Remaining(r, query, start))
    {
      if index < |query| && !EndsComponent(query[index]) {
        index := index + 1;
        continue;
      }
      var taken := TakeComponent(r, query, start, index, output);
      if taken.None? { return None; }
      output := taken.value;
      start := index + 1;
      index := index + 1;
    }
    PrefixedMore(output, [], Some([]));
    return Some(output);
  }

  lemma {:induction false} EndInSuffix(query: Bytes, start: nat, i: nat)
    requires start <= i <= |query|
    ensures ComponentEnd(query[start..], i - start) == ComponentEnd(query, i) - start
    decreases |query| - i
  {
    if i < |query| && !EndsComponent(query[i]) { EndInSuffix(query, start, i + 1); }
  }
}
