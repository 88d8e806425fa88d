/** The detail enricher: a pool of workers fetches property pages, sharing a
    cache and a pause that a challenge or a rate limit sets. A step is one region
    of the enricher's lock, the start or the end of a fetch, or a hand-over of
    a URL; clock readings and answers come with the step and are arbitrary. The
    sequential recency pass is a call with one worker. */
module Enrichment {
  import opened Common
  import opened Text

  type Url = string
  type Time = int

  const DEFAULT_COOLDOWN: Time := 300_000_000_000

  datatype FetchError = Challenge | RateLimited(retryAfter: Time) | SchemaDrift | OtherError

  datatype Outcome = Answered(page: string) | Refused(error: FetchError)

  // retryAfter 0 is the zero time: no retry time.
  datatype FetchResult = Page(content: string) | Failed(error: FetchError, retryAfter: Time)

  datatype Block = Block(error: FetchError, retryAfter: Time)

  predicate Retryable(error: FetchError) {
    error.Challenge? || error.RateLimited?
  }

  // `ttl` is the disk cache's time to live; 0 without a disk cache.
  function NewResult(outcome: Outcome, now: Time, ttl: Time): FetchResult {
    match outcome
    case Answered(page) => Page(page)
    case Refused(error) =>
      match error
      case RateLimited(after) => Failed(error, now + (if after > 0 then after else DEFAULT_COOLDOWN))
      case Challenge => Failed(error, now + DEFAULT_COOLDOWN)
      case SchemaDrift => Failed(error, if ttl > 0 then now + ttl else 0)
      case OtherError => Failed(error, 0)
  }

  // ----- The lock regions -----

  // pauseAfterRetryable: the block afterwards.
  function PauseAfter(blocked: Option<Block>, result: FetchResult): Option<Block> {
    if result.Page? || result.retryAfter == 0 || !Retryable(result.error) then blocked
    else if blocked.None? || result.retryAfter > blocked.value.retryAfter
    then Some(Block(result.error, result.retryAfter))
    else blocked
  }

  // activePause: an expired block is dropped.
  function ActivePause(blocked: Option<Block>, now: Time): Option<Block> {
    if blocked.None? || blocked.value.retryAfter == 0 then None
    else if blocked.value.retryAfter <= now then None
    else blocked
  }

  function BlockAfterCheck(blocked: Option<Block>, now: Time): Option<Block> {
    if blocked.Some? && blocked.value.retryAfter == 0 then blocked else ActivePause(blocked, now)
  }

  function PausedResult(block: Block): FetchResult {
    Failed(block.error, block.retryAfter)
  }

  predicate Expired(result: FetchResult, now: Time) {
    result.Failed? && result.retryAfter != 0 && result.retryAfter <= now
  }

  // cached: an expired error is dropped.
  function Lookup(cache: map<Url, FetchResult>, url: Url, now: Time): map<Url, FetchResult> {
    if url in cache && Expired(cache[url], now) then cache - {url} else cache
  }

  // ----- The pool -----

  // How a worker's URL is accounted for: paused, given up by the caller's
  // context, or really fetched.
  datatype Account = Skip | Abort | Fetch

  datatype Worker =
    | Idle
    | Got(url: Url)
    | Turn(url: Url)
    | Waited(url: Url)
    | Ready(url: Url)
    | Fetching(url: Url)
    | Storing(url: Url, result: FetchResult, account: Account)
    | Pausing(result: FetchResult)

  datatype Mode = NoCall | Scanning | Working | Reading

  // `urls` are the raw URLs of the call. The first `scanned` of them have been
  // looked at before the fetches, and the first `read` looked up after them.
  datatype Pool = Pool(
    cache: map<Url, FetchResult>, blocked: Option<Block>, mode: Mode, recency: bool,
    urls: seq<string>, scanned: nat, read: nat, seen: set<Url>, queue: seq<Url>, workers: seq<Worker>,
    total: nat, cached: nat, fetched: nat, skipped: nat)

  const EMPTY_POOL := Pool(map[], None, NoCall, false, [], 0, 0, {}, [], [], 0, 0, 0, 0)

  datatype Step =
    | StartCall(urls: seq<string>, recency: bool)
    | Scan(now: Time, disk: Option<FetchResult>)
    | EndScan(now: Time, workers: int)
    | GetJob(w: nat)
    | FirstCheck(w: nat, now: Time)
    | WaitForTurn(w: nat, cancelled: bool)
    | SecondCheck(w: nat, now: Time)
    | BeginFetch(w: nat)
    | EndFetch(w: nat, outcome: Outcome, now: Time, ttl: Time)
    | Store(w: nat)
    | Pause(w: nat)
    | EndWork
    | Read(now: Time)
    | EndCall
    | ResetPause

  predicate Enabled(p: Pool, step: Step) {
    match step
    case StartCall(_, _) => p.mode.NoCall?
    case Scan(_, _) => p.mode.Scanning? && p.scanned < |p.urls|
    case EndScan(_, _) => p.mode.Scanning? && p.scanned >= |p.urls|
    case GetJob(w) => w < |p.workers| && p.workers[w].Idle? && p.queue != []
    case FirstCheck(w, _) => w < |p.workers| && p.workers[w].Got?
    case WaitForTurn(w, _) => w < |p.workers| && p.workers[w].Turn?
    case SecondCheck(w, _) => w < |p.workers| && p.workers[w].Waited?
    case BeginFetch(w) => w < |p.workers| && p.workers[w].Ready?
    case EndFetch(w, _, _, _) => w < |p.workers| && p.workers[w].Fetching?
    case Store(w) => w < |p.workers| && p.workers[w].Storing?
    case Pause(w) => w < |p.workers| && p.workers[w].Pausing?
    case EndWork => p.mode.Working? && p.queue == [] && forall w :: 0 <= w < |p.workers| ==> p.workers[w].Idle?
    case Read(_) => p.mode.Reading? && p.read < |p.urls|
    case EndCall => p.mode.Reading? && p.read >= |p.urls|
    case ResetPause => true
  }

  function TakeOn(p: Pool, url: Url, now: Time, disk: Option<FetchResult>): Pool {
    if url == "" || url in p.seen then p
    else
      var cache := Lookup(p.cache, url, now);
      var p := p.(seen := p.seen + {url}, cache := cache);
      if url in cache then p.(cached := p.cached + 1)
      else if disk.Some? then p.(cache := cache[url := disk.value], cached := p.cached + 1)
      else p.(queue := p.queue + [url])
  }

  function ScanNext(p: Pool, now: Time, disk: Option<FetchResult>): Pool
    requires p.scanned < |p.urls|
  {
    TakeOn(p.(scanned := p.scanned + 1), TrimSpace(p.urls[p.scanned]), now, disk)
  }

  function StoreAll(cache: map<Url, FetchResult>, urls: seq<Url>, result: FetchResult): map<Url, FetchResult> {
    cache + map url | url in urls :: result
  }

  function Team(workers: int, total: nat): nat {
    Min(Max(workers, 1), total)
  }

  // The recency pass checks for a pause at each URL; the other asks once more
  // before it starts its workers, and starts none when it is paused.
  function StartWork(p: Pool, now: Time, workers: int): Pool {
    var p := p.(mode := Working, total := |p.queue|);
    if p.recency then p.(workers := [Idle])
    else
      var block := ActivePause(p.blocked, now);
      var p := p.(blocked := BlockAfterCheck(p.blocked, now));
      if block.Some?
      then p.(cache := StoreAll(p.cache, p.queue, PausedResult(block.value)), skipped := p.total,
              queue := [], workers := [])
      else p.(workers := seq(Team(workers, p.total), _ => Idle))
  }

  function Check(p: Pool, w: nat, now: Time, passed: Worker): Pool
    requires w < |p.workers| && (p.workers[w].Got? || p.workers[w].Waited?)
  {
    var block := ActivePause(p.blocked, now);
    p.(blocked := BlockAfterCheck(p.blocked, now),
       workers := p.workers[w := if block.Some? then Storing(p.workers[w].url, PausedResult(block.value), Skip)
                                 else passed])
  }

  function StoreResult(p: Pool, w: nat): Pool
    requires w < |p.workers| && p.workers[w].Storing?
  {
    var Storing(url, result, account) := p.workers[w];
    var p := p.(cache := p.cache[url := result]);
    match account
    case Skip => p.(workers := p.workers[w := Idle], skipped := p.skipped + 1)
    case Abort => p.(workers := p.workers[w := Idle], fetched := p.fetched + 1)
    case Fetch => p.(workers := p.workers[w := Pausing(result)])
  }

  function Next(p: Pool, step: Step): Pool
    requires Enabled(p, step)
  {
    match step
    case StartCall(urls, recency) =>
      p.(mode := Scanning, recency := recency, urls := urls, scanned := 0, read := 0, seen := {}, queue := [],
         workers := [], total := 0, cached := 0, fetched := 0, skipped := 0)
    case Scan(now, disk) => ScanNext(p, now, disk)
    case EndScan(now, workers) => StartWork(p, now, workers)
    case GetJob(w) => p.(queue := p.queue[1..], workers := p.workers[w := Got(p.queue[0])])
    case FirstCheck(w, now) => Check(p, w, now, Turn(p.workers[w].url))
    case WaitForTurn(w, cancelled) =>
      var url := p.workers[w].url;
      p.(workers := p.workers[w := if cancelled then Storing(url, Failed(OtherError, 0), Abort) else Waited(url)])
    case SecondCheck(w, now) => Check(p, w, now, Ready(p.workers[w].url))
    case BeginFetch(w) => p.(workers := p.workers[w := Fetching(p.workers[w].url)])
    case EndFetch(w, outcome, now, ttl) =>
      p.(workers := p.workers[w := Storing(p.workers[w].url, NewResult(outcome, now, ttl), Fetch)])
    case Store(w) => StoreResult(p, w)
    case Pause(w) =>
      p.(blocked := PauseAfter(p.blocked, p.workers[w].result), workers := p.workers[w := Idle],
         fetched := p.fetched + 1)
    case EndWork => p.(mode := Reading)
    case Read(now) => p.(read := p.read + 1, cache := Lookup(p.cache, TrimSpace(p.urls[p.read]), now))
    case EndCall => p.(mode := NoCall)
    case ResetPause => p.(blocked := None)
  }

  // Every interleaving: any list of steps, those not possible being skipped.
  function After(p: Pool, steps: seq<Step>): Pool {
    if steps == [] then p
    else
      var q := After(p, steps[..|steps| - 1]);
      var step := steps[|steps| - 1];
      if Enabled(q, step) then Next(q, step) else q
  }

  // ----- The pause -----

  function ReadyCount(workers: seq<Worker>): nat {
    if workers == [] then 0
    else ReadyCount(workers[..|workers| - 1]) + (if workers[|workers| - 1].Ready? then 1 else 0)
  }

  lemma {:induction false} ReadyCountUpdate(workers: seq<Worker>, w: nat, worker: Worker)
    requires w < |workers|
    ensures ReadyCount(workers[w := worker])
         == ReadyCount(workers) - (if workers[w].Ready? then 1 else 0) + (if worker.Ready? then 1 else 0)
  {
    var n := |workers| - 1;
    var updated := workers[w := worker];
    if w < n {
      ReadyCountUpdate(workers[..n], w, worker);
      assert updated[..n] == workers[..n][w := worker];
    } else {
      assert updated[..n] == workers[..n];
    }
  }

  lemma {:induction false} NoneReady(workers: seq<Worker>)
    requires forall w :: 0 <= w < |workers| ==> !workers[w].Ready?
    ensures ReadyCount(workers) == 0
  {
    if workers != [] { NoneReady(workers[..|workers| - 1]); }
  }

  lemma {:induction false} ReadyCountAtMost(workers: seq<Worker>)
    ensures ReadyCount(workers) <= |workers|
  {
    if workers != [] { ReadyCountAtMost(workers[..|workers| - 1]); }
  }

  // How many fetches begin when the steps are taken from p.
  function FetchesBegun(p: Pool, steps: seq<Step>): nat {
    if steps == [] then 0
    else
      var before := steps[..|steps| - 1];
      var step := steps[|steps| - 1];
      FetchesBegun(p, before) + (if step.BeginFetch? && Enabled(After(p, before), step) then 1 else 0)
  }

  // The pause is neither reset nor seen to expire at any point of the run.
  ghost predicate PauseHolds(p: Pool, steps: seq<Step>) {
    forall k {:trigger steps[..k]} :: 0 <= k <= |steps| ==> After(p, steps[..k]).blocked.Some?
  }

  predicate BlockOk(blocked: Option<Block>) {
    blocked.Some? ==> blocked.value.retryAfter != 0
  }

  lemma PauseStep(p: Pool, step: Step)
    requires Enabled(p, step) && BlockOk(p.blocked)
    ensures BlockOk(Next(p, step).blocked)
    ensures p.blocked.Some? && Next(p, step).blocked.Some? ==>
              Next(p, step).blocked.value.retryAfter >= p.blocked.value.retryAfter
  {
  }

  // While the pause holds, a fetch begins only by using up a ready worker.
  lemma ReadyStep(p: Pool, step: Step)
    requires Enabled(p, step) && BlockOk(p.blocked) && p.blocked.Some? && Next(p, step).blocked.Some?
    ensures ReadyCount(Next(p, step).workers) + (if step.BeginFetch? then 1 else 0) <= ReadyCount(p.workers)
  {
    match step
    case EndScan(_, _) => NoneReady(Next(p, step).workers);
    case GetJob(w) => ReadyCountUpdate(p.workers, w, Next(p, step).workers[w]);
    case FirstCheck(w, _) => ReadyCountUpdate(p.workers, w, Next(p, step).workers[w]);
    case WaitForTurn(w, _) => ReadyCountUpdate(p.workers, w, Next(p, step).workers[w]);
    case SecondCheck(w, _) => ReadyCountUpdate(p.workers, w, Next(p, step).workers[w]);
    case BeginFetch(w) => ReadyCountUpdate(p.workers, w, Next(p, step).workers[w]);
    case EndFetch(w, _, _, _) => ReadyCountUpdate(p.workers, w, Next(p, step).workers[w]);
    case Store(w) => ReadyCountUpdate(p.workers, w, Next(p, step).workers[w]);
    case Pause(w) => ReadyCountUpdate(p.workers, w, Next(p, step).workers[w]);
    case _ =>
  }

  lemma {:induction false} WhilePauseHolds(p: Pool, steps: seq<Step>)
    requires BlockOk(p.blocked) && PauseHolds(p, steps)
    ensures var q := After(p, steps);
            && BlockOk(q.blocked) && p.blocked.Some? && q.blocked.Some?
            && q.blocked.value.retryAfter >= p.blocked.value.retryAfter
            && FetchesBegun(p, steps) + ReadyCount(q.workers) <= ReadyCount(p.workers)
  {
    assert steps[..|steps|] == steps && steps[..0] == [];
    if steps != [] {
      var n := |steps| - 1;
      forall k | 0 <= k <= n ensures After(p, steps[..n][..k]).blocked.Some? {
        assert steps[..n][..k] == steps[..k];
      }
      WhilePauseHolds(p, steps[..n]);
      var q := After(p, steps[..n]);
      if Enabled(q, steps[n]) {
        PauseStep(q, steps[n]);
        ReadyStep(q, steps[n]);
      }
    }
  }

  // Once worker w has recorded a retryable failure, and for as long as that
  // pause holds, at most the other workers begin one more fetch each (none in
  // a pass with one worker), and the deadline never moves earlier.
  lemma PauseBound(p: Pool, w: nat, steps: seq<Step>)
    requires Enabled(p, Pause(w)) && BlockOk(p.blocked) && PauseHolds(Next(p, Pause(w)), steps)
    ensures var paused := Next(p, Pause(w));
            && FetchesBegun(paused, steps) <= |p.workers| - 1
            && paused.blocked.Some? && After(paused, steps).blocked.Some?
            && After(paused, steps).blocked.value.retryAfter >= paused.blocked.value.retryAfter
  {
    var paused := Next(p, Pause(w));
    PauseStep(p, Pause(w));
    WhilePauseHolds(paused, steps);
    ReadyCountUpdate(paused.workers, w, Ready(""));
    ReadyCountAtMost(paused.workers[w := Ready("")]);
  }

  // ----- The cache -----

  // The worker has a URL of the call whose result is not stored yet.
  predicate Holds(worker: Worker, url: Url) {
    !worker.Idle? && !worker.Pausing? && worker.url == url
  }

  ghost predicate HeldOnce(p: Pool, w: nat)
    requires w < |p.workers|
  {
    forall url {:trigger Holds(p.workers[w], url)} :: Holds(p.workers[w], url) ==>
      && url in p.seen && url !in p.cache && url !in p.queue
      && forall v {:trigger p.workers[v]} :: 0 <= v < |p.workers| && v != w ==> !Holds(p.workers[v], url)
  }

  // Each URL of the call is in one place: cached, queued or with one worker.
  ghost predicate Placed(p: Pool) {
    && (forall w {:trigger HeldOnce(p, w)} :: 0 <= w < |p.workers| ==> HeldOnce(p, w))
    && (forall i {:trigger p.queue[i]} :: 0 <= i < |p.queue| ==> p.queue[i] in p.seen && p.queue[i] !in p.cache)
    && (forall i, j {:trigger p.queue[i], p.queue[j]} :: 0 <= i < j < |p.queue| ==> p.queue[i] != p.queue[j])
    && (p.mode.Scanning? ==> p.workers == [])
    && (p.mode.NoCall? || p.mode.Reading? ==>
          p.queue == [] && forall w {:trigger p.workers[w]} :: 0 <= w < |p.workers| ==> p.workers[w].Idle?)
  }

  lemma PlacedScan(p: Pool, now: Time, disk: Option<FetchResult>)
    requires Enabled(p, Scan(now, disk)) && Placed(p)
    ensures Placed(ScanNext(p, now, disk))
  {
  }

  // A worker moves on with its URL, or lets go of it.
  ghost predicate Advances(p: Pool, q: Pool, w: nat) {
    && w < |p.workers| && |q.workers| == |p.workers|
    && (forall v {:trigger q.workers[v]} {:trigger p.workers[v]} :: 0 <= v < |p.workers| && v != w ==>
        q.workers[v] == p.workers[v])
    && (forall url {:trigger Holds(q.workers[w], url)} :: Holds(q.workers[w], url) ==> Holds(p.workers[w], url))
    && q.queue == p.queue && q.seen == p.seen && q.mode == p.mode
  }

  lemma PlacedAdvance(p: Pool, q: Pool, w: nat)
    requires Placed(p) && Advances(p, q, w) && p.mode.Working?
    requires q.cache == p.cache || (p.workers[w].Storing? && (forall url :: !Holds(q.workers[w], url))
                                    && q.cache == p.cache[p.workers[w].url := p.workers[w].result])
    ensures Placed(q)
  {
    assert HeldOnce(p, w);
    if p.workers[w].Storing? { assert Holds(p.workers[w], p.workers[w].url); }
    forall v | 0 <= v < |q.workers| ensures HeldOnce(q, v) {
      assert HeldOnce(p, v);
      forall url {:trigger Holds(q.workers[v], url)} | Holds(q.workers[v], url)
        ensures url in q.seen && url !in q.cache && url !in q.queue
        ensures forall u {:trigger q.workers[u]} :: 0 <= u < |q.workers| && u != v ==> !Holds(q.workers[u], url)
      {
        assert Holds(p.workers[v], url);
      }
    }
  }

  lemma PlacedJob(p: Pool, w: nat)
    requires Enabled(p, GetJob(w)) && Placed(p) && p.mode.Working?
    ensures Placed(Next(p, GetJob(w)))
  {
    var q := Next(p, GetJob(w));
    var first := p.queue[0];
    assert p.queue == [first] + q.queue && first !in q.queue;
    forall v | 0 <= v < |q.workers| ensures HeldOnce(q, v) {
      assert HeldOnce(p, v);
      forall url {:trigger Holds(q.workers[v], url)} | Holds(q.workers[v], url)
        ensures url in q.seen && url !in q.cache && url !in q.queue
        ensures forall u {:trigger q.workers[u]} :: 0 <= u < |q.workers| && u != v ==> !Holds(q.workers[u], url)
      {
        if v == w {
          forall u | 0 <= u < |q.workers| && u != w ensures !Holds(q.workers[u], first) { assert HeldOnce(p, u); }
        } else {
          assert Holds(p.workers[v], url);
        }
      }
    }
  }

  lemma PlacedStep(p: Pool, step: Step)
    requires Enabled(p, step) && Placed(p)
    ensures Placed(Next(p, step))
  {
    var q := Next(p, step);
    match step
    case StartCall(_, _) =>
    case Scan(now, disk) => PlacedScan(p, now, disk);
    case EndScan(_, _) =>
    case GetJob(w) => PlacedJob(p, w);
    case EndWork =>
    case Read(_) =>
    case EndCall =>
    case ResetPause => assert forall w :: 0 <= w < |q.workers| ==> HeldOnce(p, w) ==> HeldOnce(q, w);
    case _ => PlacedAdvance(p, q, step.w);
  }

  // ----- Fetched results -----

  // The worker is fetching the URL or has its answer in hand.
  predicate InFetch(worker: Worker, url: Url) {
    (worker.Fetching? && worker.url == url) || (worker.Storing? && worker.account.Fetch? && worker.url == url)
  }

  // The URL that a step looks up in the cache, before or after the fetches.
  predicate LooksUp(p: Pool, step: Step, url: Url) {
    || (step.Scan? && p.scanned < |p.urls| && url == TrimSpace(p.urls[p.scanned]))
    || (step.Read? && p.read < |p.urls| && url == TrimSpace(p.urls[p.read]))
  }

  // The step finds an error stored for the URL whose retry time has come.
  predicate FindsExpired(p: Pool, step: Step, url: Url) {
    && LooksUp(p, step, url) && url in p.cache && p.cache[url].Failed?
    && p.cache[url].retryAfter != 0 && p.cache[url].retryAfter <= step.now
  }

  predicate HasPage(p: Pool, url: Url) {
    url in p.cache && p.cache[url].Page?
  }

  // Nothing that is cached leaves the cache but an expired error, and a page
  // is never overwritten.
  lemma CacheStep(p: Pool, step: Step, url: Url)
    requires Enabled(p, step) && Placed(p) && url in p.cache
    ensures url in Next(p, step).cache || FindsExpired(p, step, url)
    ensures HasPage(p, url) ==> HasPage(Next(p, step), url)
  {
    if step.Store? {
      assert HeldOnce(p, step.w) && Holds(p.workers[step.w], p.workers[step.w].url);
    }
  }

  // The URL has been fetched, or is being fetched, and its result is still known.
  ghost predicate Known(p: Pool, url: Url) {
    url in p.cache || exists w :: 0 <= w < |p.workers| && InFetch(p.workers[w], url)
  }

  lemma KnownStep(p: Pool, step: Step, url: Url)
    requires Enabled(p, step) && Placed(p) && Known(p, url)
    ensures Known(Next(p, step), url) || FindsExpired(p, step, url)
  {
    var q := Next(p, step);
    if url in p.cache {
      CacheStep(p, step, url);
    } else {
      var w :| 0 <= w < |p.workers| && InFetch(p.workers[w], url);
      assert HeldOnce(p, w) && Holds(p.workers[w], url);
      assert url in q.cache || InFetch(q.workers[w], url);
    }
  }

  // The worker has the page in hand, to be stored.
  predicate HoldsPage(worker: Worker, url: Url) {
    InFetch(worker, url) && worker.Storing? && worker.result.Page?
  }

  ghost predicate PageKnown(p: Pool, url: Url) {
    HasPage(p, url) || exists w :: 0 <= w < |p.workers| && HoldsPage(p.workers[w], url)
  }

  lemma PageStep(p: Pool, step: Step, url: Url)
    requires Enabled(p, step) && Placed(p) && PageKnown(p, url)
    ensures PageKnown(Next(p, step), url)
  {
    var q := Next(p, step);
    if HasPage(p, url) {
      CacheStep(p, step, url);
    } else {
      var w :| 0 <= w < |p.workers| && HoldsPage(p.workers[w], url);
      assert HeldOnce(p, w) && Holds(p.workers[w], url);
      assert HasPage(q, url) || HoldsPage(q.workers[w], url);
    }
  }

  // ----- Accounting -----

  // The distinct URLs a call asks for: trimmed, the empty ones left out.
  function Wanted(urls: seq<string>): set<Url> {
    if urls == [] then {}
    else
      var url := TrimSpace(urls[|urls| - 1]);
      Wanted(urls[..|urls| - 1]) + if url == "" then {} else {url}
  }

  function Busy(workers: seq<Worker>): nat {
    if workers == [] then 0
    else Busy(workers[..|workers| - 1]) + (if workers[|workers| - 1].Idle? then 0 else 1)
  }

  lemma {:induction false} BusyUpdate(workers: seq<Worker>, w: nat, worker: Worker)
    requires w < |workers|
    ensures Busy(workers[w := worker])
            == Busy(workers) - (if workers[w].Idle? then 0 else 1) + (if worker.Idle? then 0 else 1)
  {
    var n := |workers| - 1;
    var updated := workers[w := worker];
    if w < n {
      BusyUpdate(workers[..n], w, worker);
      assert updated[..n] == workers[..n][w := worker];
    } else {
      assert updated[..n] == workers[..n];
    }
  }

  lemma {:induction false} NoneBusy(workers: seq<Worker>)
    requires forall w :: 0 <= w < |workers| ==> workers[w].Idle?
    ensures Busy(workers) == 0
  {
    if workers != [] { NoneBusy(workers[..|workers| - 1]); }
  }

  predicate Tally(p: Pool) {
    if p.mode.Scanning? then p.cached + |p.queue| == |p.seen| && p.fetched == p.skipped == 0
    else p.cached + p.total == |p.seen| && p.fetched + p.skipped + |p.queue| + Busy(p.workers) == p.total
  }

  predicate CountsOk(p: Pool) {
    && p.scanned <= |p.urls| && p.seen == Wanted(p.urls[..p.scanned]) && Tally(p)
    && (!p.mode.Scanning? ==> p.scanned == |p.urls|)
  }

  lemma TakeOnCounts(p: Pool, url: Url, now: Time, disk: Option<FetchResult>)
    requires p.cached + |p.queue| == |p.seen|
    ensures var q := TakeOn(p, url, now, disk);
            && q.cached + |q.queue| == |q.seen| && q.seen == p.seen + (if url == "" then {} else {url})
            && q.fetched == p.fetched && q.skipped == p.skipped && q.mode == p.mode && q.urls == p.urls
            && q.scanned == p.scanned
  {
  }

  lemma CountsScan(p: Pool, now: Time, disk: Option<FetchResult>)
    requires Enabled(p, Scan(now, disk)) && CountsOk(p)
    ensures CountsOk(ScanNext(p, now, disk))
  {
    TakeOnCounts(p.(scanned := p.scanned + 1), TrimSpace(p.urls[p.scanned]), now, disk);
    assert p.urls[..p.scanned + 1][..p.scanned] == p.urls[..p.scanned];
  }

  lemma CountsStart(p: Pool, now: Time, workers: int)
    requires Enabled(p, EndScan(now, workers)) && CountsOk(p)
    ensures CountsOk(StartWork(p, now, workers))
  {
    NoneBusy(StartWork(p, now, workers).workers);
  }

  lemma CountsStep(p: Pool, step: Step)
    requires Enabled(p, step) && CountsOk(p) && (p.mode.Scanning? ==> p.workers == [])
    ensures CountsOk(Next(p, step))
  {
    if step.StartCall? {
      NoneBusy(Next(p, step).workers);
    } else if step.Scan? {
      CountsScan(p, step.now, step.disk);
    } else if step.EndScan? {
      CountsStart(p, step.now, step.workers);
    } else if WorkerStep(step) {
      TallyWorker(p, step);
    }
  }

  predicate WorkerStep(step: Step) {
    !step.StartCall? && !step.Scan? && !step.EndScan? && !step.EndWork? && !step.Read? && !step.EndCall?
      && !step.ResetPause?
  }

  lemma TallyWorker(p: Pool, step: Step)
    requires Enabled(p, step) && WorkerStep(step) && Tally(p) && !p.mode.Scanning?
    ensures Tally(Next(p, step))
    ensures Next(p, step).(workers := p.workers, queue := p.queue, cache := p.cache, blocked := p.blocked,
              fetched := p.fetched, skipped := p.skipped) == p
  {
    BusyUpdate(p.workers, step.w, Next(p, step).workers[step.w]);
  }

  // ----- Every interleaving of any sequence of calls -----

  lemma {:induction false} PoolInvariant(steps: seq<Step>)
    ensures var p := After(EMPTY_POOL, steps); Placed(p) && CountsOk(p) && BlockOk(p.blocked)
  {
    if steps == [] {
      NoneBusy([]);
      assert Wanted([]) == {};
    } else {
      PoolInvariant(steps[..|steps| - 1]);
      var p := After(EMPTY_POOL, steps[..|steps| - 1]);
      var step := steps[|steps| - 1];
      if Enabled(p, step) {
        PlacedStep(p, step);
        CountsStep(p, step);
        PauseStep(p, step);
      }
    }
  }

  // ----- Refetching -----

  // The pool that step k of a run is taken from.
  function At(steps: seq<Step>, k: nat): Pool
    requires k <= |steps|
  {
    After(EMPTY_POOL, steps[..k])
  }

  // Step k of the run begins to fetch the URL.
  predicate Begins(steps: seq<Step>, k: nat, url: Url) {
    && k < |steps| && steps[k].BeginFetch? && Enabled(At(steps, k), steps[k])
    && At(steps, k).workers[steps[k].w].url == url
  }

  // Step k of the run receives a page for the URL.
  predicate Answers(steps: seq<Step>, k: nat, url: Url) {
    && k < |steps| && steps[k].EndFetch? && steps[k].outcome.Answered? && Enabled(At(steps, k), steps[k])
    && At(steps, k).workers[steps[k].w].url == url
  }

  // Step k of the run looks the URL up and finds an expired error.
  predicate Expires(steps: seq<Step>, k: nat, url: Url) {
    k < |steps| && Enabled(At(steps, k), steps[k]) && FindsExpired(At(steps, k), steps[k], url)
  }

  lemma AtNext(steps: seq<Step>, k: nat)
    requires k < |steps|
    ensures At(steps, k + 1) == if Enabled(At(steps, k), steps[k]) then Next(At(steps, k), steps[k]) else At(steps, k)
  {
    assert steps[..k + 1][..k] == steps[..k];
  }

  lemma KnownNext(steps: seq<Step>, k: nat, url: Url)
    requires k < |steps| && Known(At(steps, k), url)
    ensures Known(At(steps, k + 1), url) || Expires(steps, k, url)
  {
    AtNext(steps, k);
    PoolInvariant(steps[..k]);
    if Enabled(At(steps, k), steps[k]) { KnownStep(At(steps, k), steps[k], url); }
  }

  lemma BeginsKnown(steps: seq<Step>, i: nat, url: Url)
    requires Begins(steps, i, url)
    ensures Known(At(steps, i + 1), url)
  {
    AtNext(steps, i);
    assert InFetch(At(steps, i + 1).workers[steps[i].w], url);
  }

  lemma {:induction false} KnownSince(steps: seq<Step>, i: nat, n: nat, url: Url)
    requires i < n <= |steps| && Begins(steps, i, url)
    ensures Known(At(steps, n), url) || exists k :: i < k < n && Expires(steps, k, url)
  {
    if i == n - 1 {
      BeginsKnown(steps, i, url);
    } else {
      KnownSince(steps, i, n - 1, url);
      if Known(At(steps, n - 1), url) { KnownNext(steps, n - 1, url); }
    }
  }

  // A worker about to fetch a URL is alone with it, and no result is cached.
  lemma BeginsUnknown(steps: seq<Step>, k: nat, url: Url)
    requires Begins(steps, k, url)
    ensures !Known(At(steps, k), url) && !PageKnown(At(steps, k), url)
  {
    PoolInvariant(steps[..k]);
    var p := At(steps, k);
    assert HeldOnce(p, steps[k].w) && Holds(p.workers[steps[k].w], url);
    assert forall v :: 0 <= v < |p.workers| && v != steps[k].w ==> !Holds(p.workers[v], url);
  }

  // Between two fetches of a URL, a lookup found the error stored for it to
  // be past its retry time.
  lemma RefetchOnlyAfterExpiry(steps: seq<Step>, i: nat, j: nat, url: Url)
    requires i < j && Begins(steps, i, url) && Begins(steps, j, url)
    ensures exists k :: i < k < j && Expires(steps, k, url)
  {
    KnownSince(steps, i, j, url);
    BeginsUnknown(steps, j, url);
  }

  lemma PageKnownNext(steps: seq<Step>, k: nat, url: Url)
    requires k < |steps| && PageKnown(At(steps, k), url)
    ensures PageKnown(At(steps, k + 1), url)
  {
    AtNext(steps, k);
    PoolInvariant(steps[..k]);
    if Enabled(At(steps, k), steps[k]) { PageStep(At(steps, k), steps[k], url); }
  }

  lemma AnswersKnown(steps: seq<Step>, i: nat, url: Url)
    requires Answers(steps, i, url)
    ensures PageKnown(At(steps, i + 1), url)
  {
    AtNext(steps, i);
    assert HoldsPage(At(steps, i + 1).workers[steps[i].w], url);
  }

  lemma {:induction false} PageKnownSince(steps: seq<Step>, i: nat, n: nat, url: Url)
    requires i < n <= |steps| && Answers(steps, i, url)
    ensures PageKnown(At(steps, n), url)
  {
    if i == n - 1 {
      AnswersKnown(steps, i, url);
    } else {
      PageKnownSince(steps, i, n - 1, url);
      PageKnownNext(steps, n - 1, url);
    }
  }

  // A URL that has answered with a page is never fetched again.
  lemma NoRefetchAfterPage(steps: seq<Step>, i: nat, j: nat, url: Url)
    requires i < j && Answers(steps, i, url)
    ensures !Begins(steps, j, url)
  {
    if Begins(steps, j, url) {
      PageKnownSince(steps, i, j, url);
      BeginsUnknown(steps, j, url);
    }
  }

  // ----- The end of a call -----

  // When the fetches of a call are done, every URL it took on is counted once.
  lemma CallAccounted(steps: seq<Step>)
    requires Enabled(After(EMPTY_POOL, steps), EndWork)
    ensures var p := After(EMPTY_POOL, steps);
            p.fetched + p.skipped == p.total && p.cached + p.total == |Wanted(p.urls)|
  {
    PoolInvariant(steps);
    var p := After(EMPTY_POOL, steps);
    NoneBusy(p.workers);
    assert p.urls[..|p.urls|] == p.urls;
  }

  ghost predicate CoveredAt(p: Pool, url: Url) {
    (p.mode.Scanning? || p.mode.Working?) && url in p.seen ==>
      url in p.cache || url in p.queue || exists w :: 0 <= w < |p.workers| && Holds(p.workers[w], url)
  }

  lemma CoveredScan(p: Pool, now: Time, disk: Option<FetchResult>, url: Url)
    requires Enabled(p, Scan(now, disk)) && Placed(p) && CoveredAt(p, url)
    ensures CoveredAt(ScanNext(p, now, disk), url)
  {
  }

  lemma CoveredJob(p: Pool, w: nat, url: Url)
    requires Enabled(p, GetJob(w)) && Placed(p) && url in p.queue
    ensures CoveredAt(Next(p, GetJob(w)), url)
  {
    var q := Next(p, GetJob(w));
    assert p.queue == [p.queue[0]] + q.queue;
    assert Holds(q.workers[w], p.queue[0]);
  }

  lemma CoveredStep(p: Pool, step: Step, url: Url)
    requires Enabled(p, step) && Placed(p) && CoveredAt(p, url)
    ensures CoveredAt(Next(p, step), url)
  {
    var q := Next(p, step);
    if !q.mode.Scanning? && !q.mode.Working? {
    } else if step.StartCall? {
    } else if step.Scan? {
      CoveredScan(p, step.now, step.disk, url);
    } else if step.GetJob? && url in p.queue {
      CoveredJob(p, step.w, url);
    } else if url in p.seen && url !in p.cache && url !in p.queue {
      var w :| 0 <= w < |p.workers| && Holds(p.workers[w], url);
      assert HeldOnce(p, w);
      assert url in q.cache || Holds(q.workers[w], url);
    }
  }

  lemma {:induction false} CoveredInRun(steps: seq<Step>, url: Url)
    ensures CoveredAt(After(EMPTY_POOL, steps), url)
  {
    if steps != [] {
      var before := steps[..|steps| - 1];
      PoolInvariant(before);
      CoveredInRun(before, url);
      var p, step := After(EMPTY_POOL, before), steps[|steps| - 1];
      if Enabled(p, step) { CoveredStep(p, step, url); }
    }
  }

  // When the fetches of a call are done, every URL it asked for has a result.
  lemma CallLeavesResults(steps: seq<Step>)
    requires Enabled(After(EMPTY_POOL, steps), EndWork)
    ensures var p := After(EMPTY_POOL, steps); Wanted(p.urls) <= p.cache.Keys
  {
    var p := After(EMPTY_POOL, steps);
    PoolInvariant(steps);
    assert p.urls[..|p.urls|] == p.urls;
    forall url | url in p.seen ensures url in p.cache { CoveredInRun(steps, url); }
  }

  // The pause bound in any run: see PauseBound.
  lemma PauseBoundInRun(before: seq<Step>, w: nat, steps: seq<Step>)
    requires var p := After(EMPTY_POOL, before); Enabled(p, Pause(w)) && PauseHolds(Next(p, Pause(w)), steps)
    ensures var p := After(EMPTY_POOL, before);
            FetchesBegun(Next(p, Pause(w)), steps) <= |p.workers| - 1
  {
    PoolInvariant(before);
    PauseBound(After(EMPTY_POOL, before), w, steps);
  }

  // ----- The lookups after the fetches -----

  // The cache once the first n URLs have been looked up again.
  function ReadAll(cache: map<Url, FetchResult>, urls: seq<string>, clock: nat -> Time, n: nat): map<Url, FetchResult>
    requires n <= |urls|
  {
    if n == 0 then cache else Lookup(ReadAll(cache, urls, clock, n - 1), TrimSpace(urls[n - 1]), clock(n - 1))
  }

  // They change no result, and drop exactly the errors that have expired.
  lemma {:induction false} ReadDropsExpired(cache: map<Url, FetchResult>, urls: seq<string>, clock: nat -> Time, n: nat,
                                            url: Url)
    requires n <= |urls|
    ensures var left := ReadAll(cache, urls, clock, n);
            && (url in left <==>
                url in cache
                && !exists j :: 0 <= j < n && TrimSpace(urls[j]) == url && cache[url].Failed?
                                && cache[url].retryAfter != 0 && cache[url].retryAfter <= clock(j))
            && (url in left ==> left[url] == cache[url])
  {
    if n > 0 {
      ReadDropsExpired(cache, urls, clock, n - 1, url);
      var left := ReadAll(cache, urls, clock, n - 1);
      assert url in left && TrimSpace(urls[n - 1]) == url ==>
               (url in ReadAll(cache, urls, clock, n) <==>
                  !(cache[url].Failed? && cache[url].retryAfter != 0 && cache[url].retryAfter <= clock(n - 1)));
    }
  }
}
