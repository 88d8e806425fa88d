/** The CDP event recorder as a function on values: one event in, one state and
    the body fetches it makes ready out. The class in Recorder.dfy is proved to
    compute exactly this, and the theorems about whole runs are proved here. */
module RecorderModel {
  import opened Common
  import opened Lanes

  type RequestID = string

  // Instants are integers; 0 is the zero time.Time, which means "not set".
  type Time = int
  const ZERO_TIME: Time := 0

  const DEFAULT_MAX_ENTRIES := 10_000
  const DEFAULT_MAX_RETAINED_BYTES := 134_217_728
  const MAX_FROZEN_ORPHAN_EXTRAS := 32
  const MAX_HEADER_ITEMS := 4096
  const DERIVED_ITEM_OVERHEAD := 64

  // ----- Events. Headers and texts are opaque and carry their measures. -----

  // `cookies` is the largest number of cookies in any one Cookie header.
  datatype Headers = Headers(content: string, items: nat, cookies: nat)

  datatype Text = Text(content: string, bytes: nat)

  datatype RequestExtra = RequestExtra(headers: Headers, associatedCookies: nat, bytes: nat)

  datatype ResponseExtra = ResponseExtra(headers: Headers, statusCode: int, bytes: nat)

  // `bytes` is the whole estimate reserved for the entry this request opens.
  datatype Request = Request(url: string, isHTTP: bool, queryParses: bool, verb: string, headers: Headers, bytes: nat)

  datatype Response = Response(status: int, headers: Headers, requestHeaders: Headers, encodedDataLength: real,
                               bytes: nat)

  datatype Body = Body(text: Text, encoding: string, size: nat)

  datatype FetchOutcome = Fetched(body: Body) | FetchFailed(message: string)

  datatype Event =
    | DataReceived(id: RequestID, timestamp: Option<Time>, dataLength: int, encodedLength: int)
    | RequestWillBeSent(id: RequestID, timestamp: Option<Time>, wallTime: Option<Time>, resourceType: string,
                        request: Option<Request>, redirectResponse: Option<Response>, redirectHasExtraInfo: bool)
    | RequestExtraInfo(id: RequestID, requestExtra: RequestExtra)
    | ResponseReceived(id: RequestID, timestamp: Option<Time>, resourceType: string,
                       response: Option<Response>, hasExtraInfo: bool)
    | ResponseExtraInfo(id: RequestID, responseExtra: ResponseExtra)
    | ServedFromCache(id: RequestID)
    | LoadingFinished(id: RequestID, timestamp: Option<Time>, encodedDataLength: real)
    | LoadingFailed(id: RequestID, timestamp: Option<Time>, errorText: Text, blockedReason: Text)
    | DomContentEventFired(timestamp: Option<Time>)
    | LoadEventFired(timestamp: Option<Time>)

  function MonotonicTime(timestamp: Option<Time>): Time {
    timestamp.GetOr(ZERO_TIME)
  }

  function EventTimestamp(event: Event): Option<Time> {
    match event
    case RequestExtraInfo(_, _) => None
    case ResponseExtraInfo(_, _) => None
    case ServedFromCache(_) => None
    case _ => event.timestamp
  }

  // ----- State -----

  datatype Entry = Entry(
    sequence: nat, id: RequestID, request: Request,
    requestExtra: Option<RequestExtra>, response: Option<Response>, responseExtra: Option<ResponseExtra>,
    expectation: Expectation, resourceType: string,
    startedWall: Time, startedMono: Time, lastEventMono: Time, responseMono: Time, finishedMono: Time,
    encodedDataLength: real, loadingFinished: bool, decodedBodyLength: int, encodedBodyLength: int,
    body: Option<Body>, bodyError: string, bodyFetchScheduled: bool,
    servedFromCache: bool, failure: Option<Text>, terminalFailure: bool, incomplete: bool)

  datatype Chain = Chain(hops: seq<Entry>, pendingRequest: seq<RequestExtra>, pendingResponse: seq<ResponseExtra>)

  datatype LimitError = TooManyHeaderValues | TooManyCookies | BadQuery | TooManyEntries | TooManyBytes
    | CaptureError(message: string)

  // `order` is the archive list: which chain and which hop each entry is.
  datatype State = State(
    captureStart: Time, pageStart: Time, pageStartMono: Time, domContent: Option<Time>, load: Option<Time>,
    frozen: bool, cutoff: Time,
    chains: map<RequestID, Chain>, order: seq<(RequestID, nat)>,
    maxEntries: int, maxBytes: int, retained: int, limitErr: Option<LimitError>,
    frozenRequest: map<RequestID, seq<RequestExtra>>, frozenResponse: map<RequestID, seq<ResponseExtra>>,
    orphanCount: int, postCutoff: set<RequestID>)

  datatype Task = Task(id: RequestID, hop: nat)

  // ----- Limits -----

  function Fail(s: State, error: LimitError): State {
    if s.limitErr.None? then s.(limitErr := Some(error)) else s
  }

  // The new state, and whether the bytes were granted.
  function Reserve(s: State, size: int): (State, bool) {
    if s.limitErr.Some? then (s, false)
    else if Max(size, 0) > s.maxBytes - s.retained then (Fail(s, TooManyBytes), false)
    else (s.(retained := s.retained + Max(size, 0)), true)
  }

  // The first limit that a message breaks, in the order the recorder checks:
  // header values first, then cookies.
  function Violation(items: nat, cookies: nat): Option<LimitError> {
    if items > MAX_HEADER_ITEMS then Some(TooManyHeaderValues)
    else if cookies > MAX_HEADER_ITEMS then Some(TooManyCookies)
    else None
  }

  function RequestExtraViolation(extra: RequestExtra): Option<LimitError> {
    Violation(extra.headers.items, Max(extra.headers.cookies, extra.associatedCookies))
  }

  function ResponseViolation(response: Response): Option<LimitError> {
    Violation(Max(response.headers.items, response.requestHeaders.items), response.requestHeaders.cookies)
  }

  // Response headers are counted, but their Cookie headers are not.
  function ResponseExtraViolation(extra: ResponseExtra): Option<LimitError> {
    Violation(extra.headers.items, 0)
  }

  // Check a message, then pay for it.
  function Admit(s: State, violation: Option<LimitError>, bytes: int): (State, bool) {
    if violation.Some? then (Fail(s, violation.value), false) else Reserve(s, bytes)
  }

  // ----- Entries -----

  function Observe(last: Time, value: Time): Time {
    if value != ZERO_TIME && (last == ZERO_TIME || value > last) then value else last
  }

  function AsciiLower(c: char): char {
    if 'A' <= c <= 'Z' then c - 'A' + 'a' else c
  }

  predicate IsHead(verb: string) {
    |verb| == 4 && AsciiLower(verb[0]) == 'h' && AsciiLower(verb[1]) == 'e'
    && AsciiLower(verb[2]) == 'a' && AsciiLower(verb[3]) == 'd'
  }

  predicate ResponseHasNoBody(verb: string, status: int) {
    IsHead(verb) || 100 <= status < 200 || status == 204 || status == 205 || status == 304
  }

  predicate HasNoResponseBody(e: Entry) {
    var status := if e.response.Some? then e.response.value.status else 0;
    var status := if e.responseExtra.Some? && e.responseExtra.value.statusCode != 0
      then e.responseExtra.value.statusCode else status;
    ResponseHasNoBody(e.request.verb, status)
  }

  // Finished, answered, and any extra info that was announced has come.
  predicate Complete(e: Entry) {
    e.loadingFinished && e.response.Some? && (e.expectation.Expected? ==> e.responseExtra.Some?)
  }

  predicate MissesExtraInfo(e: Entry) {
    e.expectation.Unknown? || (e.expectation.Expected? && (e.requestExtra.None? || e.responseExtra.None?))
  }

  // ----- Chains -----

  const EMPTY_CHAIN := Chain([], [], [])

  function Gates(hops: seq<Entry>): (r: seq<Expectation>)
    ensures |r| == |hops|
  {
    seq(|hops|, i requires 0 <= i < |hops| => hops[i].expectation)
  }

  function RequestLane(c: Chain): (r: Lane<RequestExtra>)
    ensures |r.held| == |c.hops|
  {
    Lane(seq(|c.hops|, i requires 0 <= i < |c.hops| => c.hops[i].requestExtra), c.pendingRequest)
  }

  function ResponseLane(c: Chain): (r: Lane<ResponseExtra>)
    ensures |r.held| == |c.hops|
  {
    Lane(seq(|c.hops|, i requires 0 <= i < |c.hops| => c.hops[i].responseExtra), c.pendingResponse)
  }

  function Reconcile(c: Chain): Chain {
    var request := Fill(Gates(c.hops), RequestLane(c));
    var response := Fill(Gates(c.hops), ResponseLane(c));
    Chain(seq(|c.hops|, i requires 0 <= i < |c.hops| =>
            c.hops[i].(requestExtra := request.held[i], responseExtra := response.held[i])),
          request.pending, response.pending)
  }

  function Last(c: Chain): Entry
    requires c.hops != []
  {
    c.hops[|c.hops| - 1]
  }

  function WithLast(c: Chain, e: Entry): Chain
    requires c.hops != []
  {
    c.(hops := c.hops[|c.hops| - 1 := e])
  }

  function ExpectLast(c: Chain, expected: bool): Chain
    requires c.hops != []
  {
    Reconcile(WithLast(c, Last(c).(expectation := if expected then Expected else NotExpected)))
  }

  predicate Due(e: Entry) {
    !e.bodyFetchScheduled && Complete(e)
  }

  function Marked(e: Entry): Entry {
    if Due(e) then e.(bodyFetchScheduled := true) else e
  }

  function MarkDue(c: Chain): Chain {
    c.(hops := seq(|c.hops|, i requires 0 <= i < |c.hops| => Marked(c.hops[i])))
  }

  // The hops that readyBodyFetchTasks hands to a worker, in hop order.
  function DueTasks(id: RequestID, hops: seq<Entry>): seq<Task> {
    if hops == [] then []
    else
      var n := |hops| - 1;
      DueTasks(id, hops[..n]) + (if Due(hops[n]) && !HasNoResponseBody(hops[n]) then [Task(id, n)] else [])
  }

  // ----- Handlers -----

  function ChainOf(s: State, id: RequestID): Chain {
    if id in s.chains then s.chains[id] else EMPTY_CHAIN
  }

  function Put(s: State, id: RequestID, c: Chain): State {
    s.(chains := s.chains[id := c])
  }

  predicate HasCapturedRequest(s: State, id: RequestID) {
    ChainOf(s, id).hops != []
  }

  function ReadyBodyFetches(s: State, id: RequestID, bodies: bool): (State, seq<Task>) {
    if !bodies || id !in s.chains then (s, [])
    else (Put(s, id, MarkDue(s.chains[id])), DueTasks(id, s.chains[id].hops))
  }

  // A failed load never announces extra info; extras that do arrive announce it.
  function SettleQueued(c: Chain): Chain {
    if c.hops != [] && Last(c).terminalFailure && Last(c).expectation.Unknown? then ExpectLast(c, true)
    else Reconcile(c)
  }

  function WithRequestExtra(c: Chain, extra: RequestExtra): Chain {
    SettleQueued(c.(pendingRequest := c.pendingRequest + [extra]))
  }

  function WithResponseExtra(c: Chain, extra: ResponseExtra): Chain {
    SettleQueued(c.(pendingResponse := c.pendingResponse + [extra]))
  }

  function OnRequestExtra(s: State, id: RequestID, extra: RequestExtra): State {
    var (s1, granted) := Admit(Put(s, id, ChainOf(s, id)), RequestExtraViolation(extra), extra.bytes);
    if !granted then s1 else Put(s1, id, WithRequestExtra(ChainOf(s, id), extra))
  }

  function OnResponseExtra(s: State, id: RequestID, extra: ResponseExtra): State {
    var (s1, granted) := Admit(Put(s, id, ChainOf(s, id)), ResponseExtraViolation(extra), extra.bytes);
    if !granted then s1 else Put(s1, id, WithResponseExtra(ChainOf(s, id), extra))
  }

  function ParkRequest(s: State, id: RequestID, extra: RequestExtra): State {
    s.(orphanCount := s.orphanCount + 1, frozenRequest := s.frozenRequest[id := FrozenRequests(s, id) + [extra]])
  }

  function ParkResponse(s: State, id: RequestID, extra: ResponseExtra): State {
    s.(orphanCount := s.orphanCount + 1, frozenResponse := s.frozenResponse[id := FrozenResponses(s, id) + [extra]])
  }

  function QueueFrozenRequest(s: State, id: RequestID, extra: RequestExtra): State {
    if s.orphanCount >= MAX_FROZEN_ORPHAN_EXTRAS then s
    else
      var (s1, granted) := Admit(s, RequestExtraViolation(extra), extra.bytes);
      if !granted then s1 else ParkRequest(s1, id, extra)
  }

  function QueueFrozenResponse(s: State, id: RequestID, extra: ResponseExtra): State {
    if s.orphanCount >= MAX_FROZEN_ORPHAN_EXTRAS then s
    else
      var (s1, granted) := Admit(s, ResponseExtraViolation(extra), extra.bytes);
      if !granted then s1 else ParkResponse(s1, id, extra)
  }

  function FrozenRequests(s: State, id: RequestID): seq<RequestExtra> {
    if id in s.frozenRequest then s.frozenRequest[id] else []
  }

  function FrozenResponses(s: State, id: RequestID): seq<ResponseExtra> {
    if id in s.frozenResponse then s.frozenResponse[id] else []
  }

  function AnsweredHop(last: Entry, e: Event): Entry
    requires e.ResponseReceived?
  {
    var at := MonotonicTime(e.timestamp);
    last.(response := e.response, responseMono := at, lastEventMono := Observe(last.lastEventMono, at),
          resourceType := if last.resourceType == "" then e.resourceType else last.resourceType)
  }

  function OnResponseReceived(s: State, e: Event): State
    requires e.ResponseReceived?
  {
    if e.response.None? || !HasCapturedRequest(s, e.id) then s
    else
      var c := s.chains[e.id];
      var (s1, granted) := Admit(s, ResponseViolation(e.response.value), e.response.value.bytes);
      if !granted then s1 else Put(s1, e.id, ExpectLast(WithLast(c, AnsweredHop(Last(c), e)), e.hasExtraInfo))
  }

  function FinishedHop(last: Entry, e: Event): Entry
    requires e.LoadingFinished?
  {
    var at := MonotonicTime(e.timestamp);
    last.(finishedMono := at, lastEventMono := Observe(last.lastEventMono, at),
          encodedDataLength := e.encodedDataLength, loadingFinished := true)
  }

  function OnLoadingFinished(s: State, e: Event): State
    requires e.LoadingFinished?
  {
    if !HasCapturedRequest(s, e.id) then s
    else Put(s, e.id, WithLast(s.chains[e.id], FinishedHop(Last(s.chains[e.id]), e)))
  }

  function FailedHop(last: Entry, e: Event): Entry
    requires e.LoadingFailed?
  {
    var at := MonotonicTime(e.timestamp);
    last.(finishedMono := at, lastEventMono := Observe(last.lastEventMono, at), terminalFailure := true)
  }

  // The failure text is kept; extras already queued announce themselves.
  function ExplainFailure(c: Chain, failure: Text): Chain
    requires c.hops != []
  {
    var named := WithLast(c, Last(c).(failure := Some(failure)));
    if Last(c).expectation.Unknown? && (c.pendingRequest != [] || c.pendingResponse != []) then ExpectLast(named, true)
    else named
  }

  function OnLoadingFailed(s: State, e: Event): State
    requires e.LoadingFailed?
  {
    if !HasCapturedRequest(s, e.id) then s
    else
      var c := WithLast(s.chains[e.id], FailedHop(Last(s.chains[e.id]), e));
      var failure := if e.errorText.content == "" then e.blockedReason else e.errorText;
      var (s1, granted) := Reserve(Put(s, e.id, c), failure.bytes + DERIVED_ITEM_OVERHEAD);
      if !granted then s1 else Put(s1, e.id, ExplainFailure(c, failure))
  }

  function MeasuredHop(last: Entry, e: Event): Entry
    requires e.DataReceived?
  {
    last.(lastEventMono := Observe(last.lastEventMono, MonotonicTime(e.timestamp)),
          decodedBodyLength := last.decodedBodyLength + Max(e.dataLength, 0),
          encodedBodyLength := last.encodedBodyLength + Max(e.encodedLength, 0))
  }

  function OnDataReceived(s: State, e: Event): State
    requires e.DataReceived?
  {
    if !HasCapturedRequest(s, e.id) then s
    else Put(s, e.id, WithLast(s.chains[e.id], MeasuredHop(Last(s.chains[e.id]), e)))
  }

  function OnServedFromCache(s: State, id: RequestID): State {
    if !HasCapturedRequest(s, id) then s
    else Put(s, id, WithLast(s.chains[id], Last(s.chains[id]).(servedFromCache := true)))
  }

  function Forget(s: State, id: RequestID): State {
    s.(orphanCount := Max(s.orphanCount - (|FrozenRequests(s, id)| + |FrozenResponses(s, id)|), 0),
       frozenRequest := s.frozenRequest - {id}, frozenResponse := s.frozenResponse - {id})
  }

  // The first base event of an ID takes over the extras parked for it.
  function Adopt(s: State, id: RequestID): State {
    var c := ChainOf(s, id);
    if c.hops != [] then s
    else Forget(Put(s, id, c.(pendingRequest := c.pendingRequest + FrozenRequests(s, id),
                              pendingResponse := c.pendingResponse + FrozenResponses(s, id))), id)
  }

  const REDIRECT_BODY_ERROR := "CDP cannot reliably retrieve redirect response bodies after request ID reuse"

  function RedirectedHop(last: Entry, response: Response, at: Time): Entry {
    last.(response := Some(last.response.GetOr(response)),
          finishedMono := if last.finishedMono == ZERO_TIME then at else last.finishedMono,
          encodedDataLength := response.encodedDataLength, loadingFinished := true)
  }

  // A redirect's own body can no longer be asked for.
  function WithoutRedirectBody(e: Entry): Entry {
    e.(bodyFetchScheduled := true, bodyError := if HasNoResponseBody(e) then e.bodyError else REDIRECT_BODY_ERROR)
  }

  function ClosedHop(last: Entry, response: Response, at: Time, bodies: bool): Entry {
    var redirected := RedirectedHop(last, response, at);
    if bodies then WithoutRedirectBody(redirected) else redirected
  }

  // A redirect answers and finishes the previous hop.
  function CloseRedirect(s: State, id: RequestID, response: Response, hasExtraInfo: bool, at: Time,
                         bodies: bool): (State, bool)
    requires HasCapturedRequest(s, id)
  {
    var c := s.chains[id];
    var (s1, granted) := if Last(c).response.None? then Admit(s, ResponseViolation(response), response.bytes)
      else (s, true);
    if !granted then (s1, false)
    else (Put(s1, id, ExpectLast(WithLast(c, ClosedHop(Last(c), response, at, bodies)), hasExtraInfo)), true)
  }

  function NewEntry(sequence: nat, e: Event, captureStart: Time): Entry
    requires e.RequestWillBeSent? && e.request.Some?
  {
    var at := MonotonicTime(e.timestamp);
    Entry(sequence, e.id, e.request.value, None, None, None, Unknown, e.resourceType,
          e.wallTime.GetOr(captureStart), at, at, ZERO_TIME, ZERO_TIME,
          0.0, false, 0, 0, None, "", false, false, None, false, false)
  }

  function AddEntry(s: State, e: Event): State
    requires e.RequestWillBeSent? && e.request.Some? && e.id in s.chains
  {
    var entry := NewEntry(|s.order| + 1, e, s.captureStart);
    var c := s.chains[e.id];
    var opensPage := s.pageStartMono == ZERO_TIME && e.resourceType == "Document";
    Put(s, e.id, c.(hops := c.hops + [entry]))
    .(order := s.order + [(e.id, |c.hops|)],
      pageStartMono := if opensPage then entry.startedMono else s.pageStartMono,
      pageStart := if opensPage then entry.startedWall else s.pageStart)
  }

  function AppendHop(s: State, e: Event): State
    requires e.RequestWillBeSent? && e.request.Some? && e.id in s.chains
  {
    var request := e.request.value;
    var violation := Violation(request.headers.items, request.headers.cookies);
    if violation.Some? then Fail(s, violation.value)
    else if !request.queryParses then Fail(s, BadQuery)
    else if |s.order| >= s.maxEntries then Fail(s, TooManyEntries)
    else
      var (s1, granted) := Reserve(s, request.bytes);
      if !granted then s1 else AddEntry(s1, e)
  }

  function OpenChain(s: State, e: Event): State
    requires e.RequestWillBeSent? && e.request.Some? && !HasCapturedRequest(s, e.id)
  {
    AppendHop(Adopt(s, e.id), e)
  }

  function FollowRedirect(s: State, e: Event, bodies: bool): State
    requires e.RequestWillBeSent? && e.request.Some? && e.redirectResponse.Some? && HasCapturedRequest(s, e.id)
  {
    var (s1, closed) := CloseRedirect(s, e.id, e.redirectResponse.value, e.redirectHasExtraInfo,
                                      MonotonicTime(e.timestamp), bodies);
    if closed then AppendHop(s1, e) else s1
  }

  // A base event for an ID already captured is a redirect or a duplicate.
  function OnRequestWillBeSent(s: State, e: Event, bodies: bool): State
    requires e.RequestWillBeSent?
  {
    if e.request.None? || !e.request.value.isHTTP then s
    else
      var s0 := s.(postCutoff := s.postCutoff - {e.id});
      if !HasCapturedRequest(s0, e.id) then OpenChain(s0, e)
      else if e.redirectResponse.None? then s0
      else FollowRedirect(s0, e, bodies)
  }

  // The cutoff filter: events that cannot be placed before the cutoff.
  predicate AfterCutoff(cutoff: Time, event: Event) {
    var timestamp := EventTimestamp(event);
    timestamp.None? || cutoff == ZERO_TIME || timestamp.value > cutoff
  }

  function Process(s: State, event: Event, bodies: bool): (State, seq<Task>) {
    match event
    case DataReceived(_, _, _, _) => (OnDataReceived(s, event), [])
    case RequestWillBeSent(_, _, _, _, _, _, _) => (OnRequestWillBeSent(s, event, bodies), [])
    case RequestExtraInfo(id, extra) => (OnRequestExtra(s, id, extra), [])
    case ResponseReceived(id, _, _, _, _) => ReadyBodyFetches(OnResponseReceived(s, event), id, bodies)
    case ResponseExtraInfo(id, extra) => ReadyBodyFetches(OnResponseExtra(s, id, extra), id, bodies)
    case ServedFromCache(id) => (OnServedFromCache(s, id), [])
    case LoadingFinished(id, _, _) => ReadyBodyFetches(OnLoadingFinished(s, event), id, bodies)
    case LoadingFailed(_, _, _, _) => (OnLoadingFailed(s, event), [])
    case DomContentEventFired(timestamp) => (s.(domContent := Some(MonotonicTime(timestamp))), [])
    case LoadEventFired(timestamp) => (s.(load := Some(MonotonicTime(timestamp))), [])
  }

  function HandleEvent(s: State, event: Event, bodies: bool): (State, seq<Task>) {
    if s.limitErr.Some? then (s, [])
    else if !s.frozen then Process(s, event, bodies)
    else
      match event
      case RequestExtraInfo(id, extra) =>
        (if HasCapturedRequest(s, id) then OnRequestExtra(s, id, extra) else QueueFrozenRequest(s, id, extra), [])
      case ResponseExtraInfo(id, extra) =>
        if HasCapturedRequest(s, id) then ReadyBodyFetches(OnResponseExtra(s, id, extra), id, bodies)
        else (QueueFrozenResponse(s, id, extra), [])
      case ServedFromCache(_) => (s, [])
      case _ =>
        if AfterCutoff(s.cutoff, event)
        then (if event.RequestWillBeSent? then s.(postCutoff := s.postCutoff + {event.id}) else s, [])
        else Process(s, event, bodies)
  }

  // Events replayed from the freeze buffer: a cache event counts unless its ID
  // has moved on to a request that the cutoff rejected.
  function HandleBufferedEvent(s: State, event: Event, bodies: bool): (State, seq<Task>) {
    match event
    case ServedFromCache(id) => (if s.limitErr.Some? || id in s.postCutoff then s else OnServedFromCache(s, id), [])
    case _ => HandleEvent(s, event, bodies)
  }

  function ReconcileAll(s: State): State {
    s.(chains := map id | id in s.chains :: Reconcile(s.chains[id]))
  }

  function FreezeAt(s: State, cutoff: Time): State {
    ReconcileAll(s.(frozen := true, cutoff := cutoff))
  }

  const BODY_OMITTED_ERROR := "response body omitted because the capture retention limit was reached"

  predicate ValidTask(s: State, task: Task) {
    task.id in s.chains && task.hop < |s.chains[task.id].hops|
  }

  function ReplaceHop(c: Chain, hop: nat, e: Entry): Chain
    requires hop < |c.hops|
  {
    c.(hops := c.hops[hop := e])
  }

  function HopOf(s: State, task: Task): Entry
    requires ValidTask(s, task)
  {
    s.chains[task.id].hops[task.hop]
  }

  function WithHop(s: State, task: Task, e: Entry): State
    requires ValidTask(s, task)
  {
    Put(s, task.id, ReplaceHop(s.chains[task.id], task.hop, e))
  }

  function SetResponseBody(s: State, task: Task, outcome: FetchOutcome): State
    requires ValidTask(s, task)
  {
    match outcome
    case FetchFailed(message) => WithHop(s, task, HopOf(s, task).(bodyError := message))
    case Fetched(body) =>
      var (s1, granted) := Reserve(s, body.text.bytes + DERIVED_ITEM_OVERHEAD);
      WithHop(s1, task,
              if granted then HopOf(s, task).(body := Some(body)) else HopOf(s, task).(bodyError := BODY_OMITTED_ERROR))
  }

  function FlagMissing(c: Chain): Chain {
    c.(hops := seq(|c.hops|, i requires 0 <= i < |c.hops| => c.hops[i].(incomplete := MissesExtraInfo(c.hops[i]))))
  }

  function MarkMissingExtraInfo(s: State): State {
    var r := ReconcileAll(s);
    r.(chains := map id | id in r.chains :: FlagMissing(r.chains[id]))
  }

  predicate SomeChainStranded(s: State) {
    exists id ::
        id in s.chains && s.chains[id].hops == []
          && (s.chains[id].pendingRequest != [] || s.chains[id].pendingResponse != [])
  }

  predicate SomeHopMisses(s: State) {
    exists id, i :: id in s.chains && 0 <= i < |s.chains[id].hops| && MissesExtraInfo(s.chains[id].hops[i])
  }

  predicate ExtraInfoDrainNeeded(s: State) {
    var r := ReconcileAll(s);
    r.frozenRequest != map[] || r.frozenResponse != map[] || SomeChainStranded(r) || SomeHopMisses(r)
  }

  function Init(captureStart: Time, targetBytes: nat): State {
    Reserve(State(captureStart, captureStart, ZERO_TIME, None, None, false, ZERO_TIME, map[], [],
                  DEFAULT_MAX_ENTRIES, DEFAULT_MAX_RETAINED_BYTES, 0, None, map[], map[], 0, {}),
            1024 + targetBytes).0
  }
}
