/** What each step of the pool does, in plain terms, and what follows for the
    pause: which answers set it, until when, and that while it lasts each check
    ends in a skip, so that no more fetches begin than workers were past their
    last check. */
module EnrichmentPauses {
  import opened Common
  import opened Text
  import opened Enrichment

  // ----- Steps -----

  // A URL is taken on unless it is blank, seen, cached and not past its retry
  // time, or on disk.
  lemma ScanLaw(p: Pool, now: Time, disk: Option<FetchResult>)
    requires Enabled(p, Scan(now, disk))
    ensures var q, url := Next(p, Scan(now, disk)), TrimSpace(p.urls[p.scanned]);
            var known := url in p.cache
                         && !(p.cache[url].Failed? && p.cache[url].retryAfter != 0 && p.cache[url].retryAfter <= now);
            if url == "" || url in p.seen then q == p.(scanned := p.scanned + 1)
            else && q.seen == p.seen + {url} && q.scanned == p.scanned + 1
                 && q == p.(seen := q.seen, scanned := q.scanned, cache := q.cache, cached := q.cached,
                            queue := q.queue)
                 && if known then q.cache == p.cache && q.cached == p.cached + 1 && q.queue == p.queue
                    else if disk.Some?
                    then q.cache == p.cache[url := disk.value] && q.cached == p.cached + 1 && q.queue == p.queue
                    else q.cache == p.cache - {url} && q.cached == p.cached && q.queue == p.queue + [url]
  {
  }

  lemma ReadLaw(p: Pool, now: Time)
    requires Enabled(p, Read(now))
    ensures var url := TrimSpace(p.urls[p.read]);
            var stale := url in p.cache && p.cache[url].Failed?
                         && p.cache[url].retryAfter != 0 && p.cache[url].retryAfter <= now;
            Next(p, Read(now)) == p.(read := p.read + 1, cache := if stale then p.cache - {url} else p.cache)
  {
  }

  // An answer with its URL, to be stored: what was fetched, or the error and
  // when to try again.
  predicate ResultFits(outcome: Outcome, now: Time, ttl: Time, result: FetchResult) {
    match outcome
    case Answered(page) => result == Page(page)
    case Refused(Challenge) => result == Failed(Challenge, now + 300_000_000_000)
    case Refused(RateLimited(after)) =>
      result == Failed(RateLimited(after), if after > 0 then now + after else now + 300_000_000_000)
    case Refused(SchemaDrift) => result == Failed(SchemaDrift, if ttl > 0 then now + ttl else 0)
    case Refused(OtherError) => result == Failed(OtherError, 0)
  }

  lemma FetchLaw(p: Pool, w: nat, outcome: Outcome, now: Time, ttl: Time)
    requires Enabled(p, EndFetch(w, outcome, now, ttl))
    ensures var q := Next(p, EndFetch(w, outcome, now, ttl));
            && q == p.(workers := q.workers) && q.workers == p.workers[w := q.workers[w]]
            && q.workers[w].Storing? && q.workers[w].account.Fetch? && q.workers[w].url == p.workers[w].url
            && ResultFits(outcome, now, ttl, q.workers[w].result)
  {
  }

  // Each result is stored under its URL, and only there.
  lemma StoreLaw(p: Pool, w: nat)
    requires Enabled(p, Step.Store(w))
    ensures var Storing(url, result, account) := p.workers[w];
            Next(p, Step.Store(w))
            == p.(cache := p.cache[url := result],
                  workers := p.workers[w := if account.Fetch? then Pausing(result) else Idle],
                  skipped := p.skipped + if account.Skip? then 1 else 0,
                  fetched := p.fetched + if account.Abort? then 1 else 0)
  {
  }

  // A challenge or a rate limit with a time to try again.
  predicate SetsPause(result: FetchResult) {
    result.Failed? && (result.error.Challenge? || result.error.RateLimited?) && result.retryAfter != 0
  }

  // It sets the pause unless one until as late a time is set already.
  lemma PauseLaw(p: Pool, w: nat)
    requires Enabled(p, Pause(w))
    ensures var result := p.workers[w].result; var q := Next(p, Pause(w));
            && q == p.(blocked := q.blocked, workers := p.workers[w := Idle], fetched := p.fetched + 1)
            && if !SetsPause(result) || (p.blocked.Some? && result.retryAfter <= p.blocked.value.retryAfter)
               then q.blocked == p.blocked
               else q.blocked == Some(Block(result.error, result.retryAfter))
  {
  }

  predicate Paused(blocked: Option<Block>, now: Time) {
    blocked.Some? && now < blocked.value.retryAfter
  }

  // Before its time is up the pause turns the URL into a skip; after it the
  // pause is dropped, and the URL passes.
  lemma CheckLaw(p: Pool, w: nat, now: Time, second: bool)
    requires BlockOk(p.blocked)
    requires var step := if second then SecondCheck(w, now) else FirstCheck(w, now); Enabled(p, step)
    ensures var q := Next(p, if second then SecondCheck(w, now) else FirstCheck(w, now)); var url := p.workers[w].url;
            if Paused(p.blocked, now)
            then q == p.(workers := p.workers[w := Storing(
                           url, Failed(p.blocked.value.error, p.blocked.value.retryAfter), Skip)])
            else q == p.(blocked := None, workers := p.workers[w := if second then Ready(url) else Turn(url)])
  {
  }

  // The workers start together, at least one, and no more than there are URLs;
  // none does when a pause is on, but the recency pass leaves that to its
  // checks.
  lemma StartLaw(p: Pool, now: Time, workers: int)
    requires BlockOk(p.blocked) && Enabled(p, EndScan(now, workers))
    ensures var q := Next(p, EndScan(now, workers));
            && q.mode.Working? && q.total == |p.queue|
            && if p.recency then q == p.(mode := Working, total := |p.queue|, workers := [Idle])
               else if Paused(p.blocked, now)
               then && q == p.(mode := Working, total := |p.queue|, skipped := |p.queue|, queue := [], workers := [],
                               cache := q.cache)
                    && q.cache.Keys == p.cache.Keys + (set url | url in p.queue)
                    && (forall url {:trigger q.cache[url]} :: url in q.cache && url !in p.queue ==>
                          q.cache[url] == p.cache[url])
                    && (forall url {:trigger q.cache[url]} :: url in p.queue ==>
                          q.cache[url] == Failed(p.blocked.value.error, p.blocked.value.retryAfter))
               else && q == p.(mode := Working, total := |p.queue|, blocked := None, workers := q.workers)
                    && |q.workers| == (if |p.queue| == 0 then 0 else Min(|p.queue|, Max(1, workers)))
                    && forall w :: 0 <= w < |q.workers| ==> q.workers[w].Idle?
  {
  }

  // ----- How long a pause lasts -----

  // The step does not end a pause until d: no reset, and no check so late.
  predicate Leaves(p: Pool, step: Step, d: Time) {
    match step
    case ResetPause => false
    case FirstCheck(_, now) => now < d
    case SecondCheck(_, now) => now < d
    case EndScan(now, _) => p.recency || now < d
    case _ => true
  }

  ghost predicate Undisturbed(p: Pool, steps: seq<Step>, d: Time) {
    forall k {:trigger steps[..k]} :: 0 <= k < |steps| ==>
      Enabled(After(p, steps[..k]), steps[k]) ==> Leaves(After(p, steps[..k]), steps[k], d)
  }

  predicate PausedUntil(blocked: Option<Block>, d: Time) {
    blocked.Some? && blocked.value.retryAfter != 0 && d <= blocked.value.retryAfter
  }

  lemma PausedStep(p: Pool, step: Step, d: Time)
    requires Enabled(p, step) && Leaves(p, step, d) && PausedUntil(p.blocked, d)
    ensures PausedUntil(Next(p, step).blocked, d)
  {
    match step
    case FirstCheck(w, now) => CheckLaw(p, w, now, false);
    case SecondCheck(w, now) => CheckLaw(p, w, now, true);
    case EndScan(now, workers) => StartLaw(p, now, workers);
    case Pause(w) => PauseLaw(p, w);
    case _ =>
  }

  // A pause holds until its time, at every point of the run.
  lemma {:induction false} PauseLasts(p: Pool, steps: seq<Step>, d: Time)
    requires PausedUntil(p.blocked, d) && Undisturbed(p, steps, d)
    ensures PauseHolds(p, steps)
    ensures forall k {:trigger steps[..k]} :: 0 <= k <= |steps| ==> PausedUntil(After(p, steps[..k]).blocked, d)
  {
    assert steps[..|steps|] == steps;
    if steps != [] {
      var n := |steps| - 1;
      forall k | 0 <= k <= n ensures steps[..n][..k] == steps[..k] {}
      PauseLasts(p, steps[..n], d);
      forall k | 0 <= k <= n ensures PausedUntil(After(p, steps[..k]).blocked, d) {
        assert PausedUntil(After(p, steps[..n][..k]).blocked, d);
      }
      var q := After(p, steps[..n]);
      if Enabled(q, steps[n]) { PausedStep(q, steps[n], d); }
    }
  }

  // Each check in it turns its URL into a skip, with the error of the pause.
  lemma ChecksSkip(p: Pool, steps: seq<Step>, d: Time, k: nat)
    requires PausedUntil(p.blocked, d) && Undisturbed(p, steps, d)
    requires k < |steps| && (steps[k].FirstCheck? || steps[k].SecondCheck?) && Enabled(After(p, steps[..k]), steps[k])
    ensures var q, w := After(p, steps[..k]), steps[k].w;
            && q.blocked.Some?
            && Next(q, steps[k])
               == q.(workers := q.workers[w := Storing(
                       q.workers[w].url, Failed(q.blocked.value.error, q.blocked.value.retryAfter), Skip)])
  {
    PauseLasts(p, steps, d);
    var q := After(p, steps[..k]);
    assert PausedUntil(q.blocked, d) && Leaves(q, steps[k], d);
    CheckLaw(q, steps[k].w, steps[k].now, steps[k].SecondCheck?);
  }

  // ----- From the answer to the pause -----

  // The worker has the result of a fetch, stored or not, but has not passed it
  // on to the pause.
  predicate HasInHand(worker: Worker, result: FetchResult) {
    worker == Pausing(result) || (worker.Storing? && worker.account.Fetch? && worker.result == result)
  }

  lemma InHandStep(p: Pool, step: Step, w: nat, result: FetchResult)
    requires Enabled(p, step) && Placed(p) && step != Pause(w)
    requires w < |p.workers| && HasInHand(p.workers[w], result)
    ensures var q := Next(p, step); w < |q.workers| && HasInHand(q.workers[w], result)
  {
    if step.Store? { StoreLaw(p, step.w); }
  }

  // Step i of the run is the worker's answer, and step j the first after it
  // at which the worker passes its result on.
  predicate AnswersAt(steps: seq<Step>, i: nat, w: nat, outcome: Outcome, now: Time) {
    && i < |steps| && Enabled(At(steps, i), steps[i])
    && steps[i].EndFetch? && steps[i].w == w && steps[i].outcome == outcome && steps[i].now == now
  }

  ghost predicate PassesOn(steps: seq<Step>, i: nat, j: nat, w: nat) {
    && i < j < |steps| && steps[j] == Pause(w) && Enabled(At(steps, j), steps[j])
    && forall k {:trigger steps[k]} :: i < k < j ==> !(steps[k] == Pause(w) && Enabled(At(steps, k), steps[k]))
  }

  lemma {:induction false} StillInHand(steps: seq<Step>, i: nat, n: nat, w: nat, result: FetchResult)
    requires i < n <= |steps|
    requires w < |At(steps, i + 1).workers| && HasInHand(At(steps, i + 1).workers[w], result)
    requires forall k {:trigger steps[k]} :: i < k < n ==> !(steps[k] == Pause(w) && Enabled(At(steps, k), steps[k]))
    ensures w < |At(steps, n).workers| && HasInHand(At(steps, n).workers[w], result)
  {
    if i + 1 < n {
      StillInHand(steps, i, n - 1, w, result);
      AtNext(steps, n - 1);
      PoolInvariant(steps[..n - 1]);
      if Enabled(At(steps, n - 1), steps[n - 1]) { InHandStep(At(steps, n - 1), steps[n - 1], w, result); }
    }
  }

  // When to try again after a challenge or a rate limit.
  function RetryAt(error: FetchError, now: Time): Time {
    match error case RateLimited(after) => if after > 0 then now + after else now + 300_000_000_000
                case _ => now + 300_000_000_000
  }

  // A fetch refused with a challenge or a rate limit sets the pause: at least
  // until five minutes after the answer, or as long as the rate limit says.
  lemma RefusalPauses(steps: seq<Step>, i: nat, j: nat, w: nat, error: FetchError, now: Time)
    requires AnswersAt(steps, i, w, Refused(error), now) && PassesOn(steps, i, j, w)
    requires (error.Challenge? || error.RateLimited?) && RetryAt(error, now) != 0
    ensures PausedUntil(At(steps, j + 1).blocked, RetryAt(error, now))
  {
    AtNext(steps, i);
    AtNext(steps, j);
    FetchLaw(At(steps, i), w, Refused(error), now, steps[i].ttl);
    StillInHand(steps, i, j, w, Failed(error, RetryAt(error, now)));
    PoolInvariant(steps[..j]);
    PauseLaw(At(steps, j), w);
  }

  // From then on until that time, unless the pause is reset, at most one more
  // fetch begins for each of the other workers: none in the recency pass.
  lemma RefusalStopsFetches(steps: seq<Step>, i: nat, j: nat, w: nat, error: FetchError, now: Time, later: seq<Step>)
    requires AnswersAt(steps, i, w, Refused(error), now) && PassesOn(steps, i, j, w)
    requires (error.Challenge? || error.RateLimited?) && RetryAt(error, now) != 0
    requires Undisturbed(At(steps, j + 1), later, RetryAt(error, now))
    ensures FetchesBegun(At(steps, j + 1), later) <= |At(steps, j).workers| - 1
    ensures PausedUntil(After(At(steps, j + 1), later).blocked, RetryAt(error, now))
  {
    RefusalPauses(steps, i, j, w, error, now);
    PauseLasts(At(steps, j + 1), later, RetryAt(error, now));
    assert later[..|later|] == later;
    AtNext(steps, j);
    PauseBoundInRun(steps[..j], w, later);
  }
}
