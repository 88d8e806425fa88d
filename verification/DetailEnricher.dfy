/** The enricher as the program writes it: a cache and a pause behind one lock,
    and the sequential recency pass over them. The lock regions compute the
    functions of Enrichment, and the pass takes the steps of that pool with one
    worker, so its theorems hold of the pass. */
module DetailEnricher {
  import opened Common
  import opened Text
  import opened Enrichment
  import opened EnrichmentPauses
  import opened RecencyFates

  // What the lookup of URL i finds, those before it having been looked up.
  function FoundAt(results: map<Url, FetchResult>, urls: seq<string>, world: World, i: nat): Option<FetchResult>
    requires i < |urls|
  {
    var url, left := TrimSpace(urls[i]), ReadAll(results, urls, world.readClock, i + 1);
    if url in left then Some(left[url]) else None
  }

  predicate FoundSoFar(found: seq<Option<FetchResult>>, results: map<Url, FetchResult>, urls: seq<string>, world: World)
  {
    |found| <= |urls|
      && forall i {:trigger found[i]} :: 0 <= i < |found| ==> found[i] == FoundAt(results, urls, world, i)
  }

  // One more lookup, and what it finds.
  lemma ReadNext(left: map<Url, FetchResult>, results: map<Url, FetchResult>, urls: seq<string>, world: World, i: nat)
    requires i < |urls| && left == ReadAll(results, urls, world.readClock, i)
    ensures var url := TrimSpace(urls[i]); var next := Lookup(left, url, world.readClock(i));
            && next == ReadAll(results, urls, world.readClock, i + 1)
            && FoundAt(results, urls, world, i) == if url in next then Some(next[url]) else None
  {
  }

  lemma FoundMore(found: seq<Option<FetchResult>>, results: map<Url, FetchResult>, urls: seq<string>, world: World)
    requires FoundSoFar(found, results, urls, world) && |found| < |urls|
    ensures FoundSoFar(found + [FoundAt(results, urls, world, |found|)], results, urls, world)
  {
  }

  class DetailEnricher {
    var cache: map<Url, FetchResult>
    var blocked: Option<Block>

    // The pool these fields belong to, and the steps that led to it.
    ghost var pool: Pool
    ghost var steps: seq<Step>

    ghost predicate Valid()
      reads this
    {
      pool == After(EMPTY_POOL, steps) && cache == pool.cache && blocked == pool.blocked
    }

    constructor ()
      ensures Valid() && pool == EMPTY_POOL
    {
      cache, blocked, pool, steps := map[], None, EMPTY_POOL, [];
    }

    ghost method Take(step: Step)
      requires pool == After(EMPTY_POOL, steps) && Enabled(pool, step)
      modifies this`pool, this`steps
      ensures pool == Next(old(pool), step) == After(EMPTY_POOL, steps)
    {
      assert (steps + [step])[..|steps|] == steps;
      pool := Next(pool, step);
      steps := steps + [step];
    }

    // ----- The lock regions -----

    method PauseAfterRetryable(result: FetchResult) returns (changed: bool)
      modifies this`blocked
      ensures blocked == PauseAfter(old(blocked), result)
      ensures changed <==> result.Failed? && result.retryAfter != 0 && Retryable(result.error)
                           && (old(blocked).None? || result.retryAfter > old(blocked).value.retryAfter)
    {
      if result.Page? || result.retryAfter == 0 || !Retryable(result.error) { return false; }
      changed := blocked.None? || result.retryAfter > blocked.value.retryAfter;
      if changed { blocked := Some(Block(result.error, result.retryAfter)); }
    }

    method CheckPause(now: Time) returns (active: Option<Block>)
      modifies this`blocked
      ensures active == ActivePause(old(blocked), now) && blocked == BlockAfterCheck(old(blocked), now)
    {
      if blocked.None? || blocked.value.retryAfter == 0 { return None; }
      if !(blocked.value.retryAfter > now) {
        blocked := None;
        return None;
      }
      return blocked;
    }

    method Cached(url: Url, now: Time) returns (result: Option<FetchResult>)
      modifies this`cache
      ensures cache == Lookup(old(cache), url, now)
      ensures result == if url in cache then Some(cache[url]) else None
    {
      if url !in cache { return None; }
      var found := cache[url];
      if found.Failed? && found.retryAfter != 0 && !(found.retryAfter > now) {
        cache := cache - {url};
        return None;
      }
      return Some(found);
    }

    method Store(url: Url, result: FetchResult)
      modifies this`cache
      ensures cache == old(cache)[url := result]
    {
      cache := cache[url := result];
    }

    // ----- The recency pass -----

    // `results` is the cache when the fetches are done, and `found` what the
    // lookups after them return, URL by URL. `todo` are the URLs to fetch, one
    // after the other, and `fates` what became of them.
    method EnrichRecency(urls: seq<string>, world: World)
      returns (cached: nat, total: nat, fetched: nat, skipped: nat, found: seq<Option<FetchResult>>,
               ghost results: map<Url, FetchResult>, ghost todo: seq<Url>, ghost fates: seq<Fate>)
      requires Valid() && pool.mode.NoCall?
      modifies this
      ensures Valid() && pool.mode.NoCall?
      ensures fetched + skipped == total && cached + total == |Wanted(urls)| && Wanted(urls) <= results.Keys
      ensures (forall i :: 0 <= i < |todo| ==> todo[i] in Wanted(urls)) && Distinct(todo)
      ensures |todo| == |fates| == total && skipped == CountSkipped(fates)
      ensures FatesFit(old(blocked), fates, world) && ResultsFit(old(blocked), fates, world, todo, results)
      ensures cache == ReadAll(results, urls, world.readClock, |urls|)
      ensures |found| == |urls| && FoundSoFar(found, results, urls, world)
    {
      Take(StartCall(urls, true));
      var unique;
      cached, unique := ScanUrls(urls, world);
      total, todo := |unique|, unique;
      StartFetches(urls);
      fetched, skipped, fates := FetchAll(unique, world);
      FinishFetches();
      results := cache;
      found := ReadUrls(urls, world);
      Take(EndCall);
    }

    ghost method StartFetches(urls: seq<string>)
      requires Valid() && pool.mode.Scanning? && pool.recency && pool.urls == urls && pool.scanned == |urls|
      modifies this`pool, this`steps
      ensures Valid() && BlockOk(blocked)
      ensures pool == old(pool).(mode := Working, total := |old(pool.queue)|, workers := [Idle])
      ensures Distinct(pool.queue) && forall i :: 0 <= i < |pool.queue| ==> pool.queue[i] in Wanted(urls)
    {
      PoolInvariant(steps);
      assert urls[..|urls|] == urls;
      StartLaw(pool, 0, 1);
      Take(EndScan(0, 1));
    }

    ghost method FinishFetches()
      requires Valid() && Enabled(pool, EndWork)
      modifies this`pool, this`steps
      ensures Valid() && pool == old(pool).(mode := Reading)
      ensures pool.fetched + pool.skipped == pool.total && pool.cached + pool.total == |Wanted(pool.urls)|
              && Wanted(pool.urls) <= cache.Keys
    {
      CallAccounted(steps);
      CallLeavesResults(steps);
      Take(EndWork);
    }

    method ReadUrl(url: Url, now: Time) returns (result: Option<FetchResult>)
      requires Valid() && Enabled(pool, Read(now)) && url == TrimSpace(pool.urls[pool.read])
      modifies this
      ensures Valid() && pool == old(pool).(read := old(pool).read + 1, cache := cache)
      ensures cache == Lookup(old(cache), url, now) && result == if url in cache then Some(cache[url]) else None
    {
      result := Cached(url, now);
      Take(Read(now));
    }

    // Each URL is looked up once more, and an error that has expired is dropped.
    method ReadUrls(urls: seq<string>, world: World) returns (found: seq<Option<FetchResult>>)
      requires Valid() && pool.mode.Reading? && pool.urls == urls && pool.read == 0
      modifies this
      ensures Valid() && Enabled(pool, EndCall)
      ensures cache == ReadAll(old(cache), urls, world.readClock, |urls|)
      ensures |found| == |urls| && FoundSoFar(found, old(cache), urls, world)
    {
      ghost var results := cache;
      found := [];
      for i := 0 to |urls|
        invariant Valid() && pool.mode.Reading? && pool.urls == urls && pool.read == i
        invariant cache == ReadAll(results, urls, world.readClock, i)
        invariant |found| == i && FoundSoFar(found, results, urls, world)
      {
        ReadNext(cache, results, urls, world, i);
        FoundMore(found, results, urls, world);
        var result := ReadUrl(TrimSpace(urls[i]), world.readClock(i));
        found := found + [result];
      }
    }

    method ScanUrls(urls: seq<string>, world: World) returns (cached: nat, unique: seq<Url>)
      requires Valid() && pool.mode.Scanning? && pool.recency && pool.urls == urls && pool.scanned == 0
      requires pool.read == 0 && pool.seen == {} && pool.cached == 0 && pool.queue == []
               && pool.fetched == pool.skipped == 0
      modifies this
      ensures Valid() && pool.mode.Scanning? && pool.recency && pool.urls == urls && pool.scanned == |urls|
      ensures blocked == old(blocked)
      ensures cached == pool.cached && unique == pool.queue && pool.fetched == pool.skipped == 0 && pool.read == 0
    {
      cached, unique := 0, [];
      var seen: set<Url> := {};
      var i := 0;
      while i < |urls|
        invariant 0 <= i <= |urls| && Valid() && pool.mode.Scanning? && pool.recency && pool.urls == urls
                  && pool.scanned == i && blocked == old(blocked)
        invariant pool.read == 0 && seen == pool.seen && cached == pool.cached && unique == pool.queue
                  && pool.fetched == pool.skipped == 0
      {
        var url := TrimSpace(urls[i]);
        if url != "" && url !in seen {
          seen := seen + {url};
          var known := TakeOnUrl(url, world.scanClock(i), world.disk(i));
          if known { cached := cached + 1; } else { unique := unique + [url]; }
        }
        Take(Scan(world.scanClock(i), world.disk(i)));
        i := i + 1;
      }
    }

    // Whether the URL has a result without fetching.
    method TakeOnUrl(url: Url, now: Time, disk: Option<FetchResult>) returns (known: bool)
      modifies this`cache
      ensures var found := Lookup(old(cache), url, now);
              if url in found then known && cache == found
              else if disk.Some? then known && cache == found[url := disk.value]
              else !known && cache == found
    {
      var result := Cached(url, now);
      if result.Some? { return true; }
      if disk.Some? {
        Store(url, disk.value);
        return true;
      }
      return false;
    }

    method FetchAll(unique: seq<Url>, world: World) returns (fetched: nat, skipped: nat, ghost fates: seq<Fate>)
      requires Valid() && pool.mode.Working? && pool.workers == [Idle] && pool.queue == unique
      requires pool.fetched == pool.skipped == 0 && pool.read == 0
      requires Distinct(unique) && BlockOk(blocked)
      modifies this
      ensures Valid() && Enabled(pool, EndWork) && pool.urls == old(pool.urls) && pool.read == 0
      ensures fetched == pool.fetched && skipped == pool.skipped && pool.total == old(pool.total)
              && pool.cached == old(pool.cached)
      ensures |fates| == |unique| && skipped == CountSkipped(fates)
      ensures FatesFit(old(blocked), fates, world) && ResultsFit(old(blocked), fates, world, unique, cache)
    {
      fetched, skipped, fates := 0, 0, [];
      var i := 0;
      while i < |unique|
        invariant 0 <= i <= |unique| && Valid() && pool.mode.Working? && pool.workers == [Idle]
                  && pool.queue == unique[i..]
        invariant fetched == pool.fetched && skipped == pool.skipped == CountSkipped(fates)
        invariant pool.urls == old(pool.urls) && pool.read == 0 && pool.total == old(pool.total)
                  && pool.cached == old(pool.cached)
        invariant |fates| == i && BlockOk(blocked) && DoneSoFar(old(blocked), fates, world, unique, cache, blocked)
      {
        ghost var before, paused := cache, blocked;
        var counted;
        ghost var fate, result;
        counted, fate, result := EnrichNext(unique[i], i, world);
        DoneStep(old(blocked), fates, world, unique, before, paused, fate, result, blocked);
        CountMore(fates, fate);
        fates := fates + [fate];
        if counted { fetched := fetched + 1; } else { skipped := skipped + 1; }
        i := i + 1;
      }
    }

    method EnrichNext(url: Url, i: nat, world: World)
      returns (counted: bool, ghost fate: Fate, ghost result: FetchResult)
      requires Valid() && pool.mode.Working? && pool.workers == [Idle] && pool.queue != [] && pool.queue[0] == url
      requires BlockOk(blocked)
      modifies this
      ensures Valid() && BlockOk(blocked)
      ensures pool == old(pool).(queue := old(pool.queue)[1..], cache := pool.cache, blocked := pool.blocked,
                                 fetched := old(pool.fetched) + (if counted then 1 else 0),
                                 skipped := old(pool.skipped) + (if counted then 0 else 1))
      ensures counted == !fate.Skipped? && cache == old(cache)[url := result]
      ensures OneDone(world, i, old(blocked), fate, result, blocked)
    {
      Take(GetJob(0));
      counted, fate, result := EnrichOne(url, i, world);
    }

    // One URL of the pass: false when it was skipped because of a pause.
    method EnrichOne(url: Url, i: nat, world: World)
      returns (counted: bool, ghost fate: Fate, ghost result: FetchResult)
      requires Valid() && pool.mode.Working? && pool.workers == [Got(url)] && BlockOk(blocked)
      modifies this
      ensures Valid() && BlockOk(blocked)
      ensures pool == old(pool).(workers := [Idle], cache := pool.cache, blocked := pool.blocked,
                                 fetched := old(pool.fetched) + (if counted then 1 else 0),
                                 skipped := old(pool.skipped) + (if counted then 0 else 1))
      ensures counted == !fate.Skipped? && cache == old(cache)[url := result]
      ensures OneDone(world, i, old(blocked), fate, result, blocked)
    {
      var block := PassCheck(world.firstClock(i), false);
      if block.Some? {
        result := PausedResult(block.value);
        Settle(url, PausedResult(block.value), Skip);
        return false, Skipped, result;
      }
      Take(WaitForTurn(0, world.cancelled(i)));
      if world.cancelled(i) {
        Settle(url, Failed(OtherError, 0), Abort);
        return true, GivenUp, Failed(OtherError, 0);
      }
      block := PassCheck(world.secondClock(i), true);
      // With one worker, nothing sets a pause between the two checks.
      assert block.None?;
      result := FetchOne(url, world.outcome(i), world.answerClock(i), world.ttl);
      return true, Fetched(world.outcome(i)), result;
    }

    // A check of the one worker: the pause, if it is on.
    method PassCheck(now: Time, second: bool) returns (block: Option<Block>)
      requires Valid() && BlockOk(blocked) && |pool.workers| == 1
      requires if second then pool.workers[0].Waited? else pool.workers[0].Got?
      modifies this`blocked, this`pool, this`steps
      ensures Valid() && BlockOk(blocked)
      ensures block == blocked == if Paused(old(blocked), now) then old(blocked) else None
      ensures var url := old(pool.workers)[0].url;
              pool == old(pool).(blocked := blocked, workers := [
                if block.Some? then Storing(url, PausedResult(block.value), Skip)
                else if second then Ready(url) else Turn(url)])
    {
      CheckLaw(pool, 0, now, second);
      block := CheckPause(now);
      if second { Take(SecondCheck(0, now)); } else { Take(FirstCheck(0, now)); }
    }

    // Store the result of a URL that was not fetched.
    method Settle(url: Url, result: FetchResult, ghost account: Account)
      requires Valid() && pool.workers == [Storing(url, result, account)] && !account.Fetch?
      modifies this`cache, this`pool, this`steps
      ensures Valid() && cache == old(cache)[url := result]
      ensures pool == old(pool).(workers := [Idle], cache := pool.cache,
                                 fetched := old(pool.fetched) + (if account.Abort? then 1 else 0),
                                 skipped := old(pool.skipped) + (if account.Skip? then 1 else 0))
    {
      Store(url, result);
      Take(Step.Store(0));
    }

    method FetchOne(url: Url, outcome: Outcome, now: Time, ttl: Time) returns (ghost stored: FetchResult)
      requires Valid() && pool.workers == [Ready(url)] && blocked.None?
      modifies this
      ensures Valid() && BlockOk(blocked)
      ensures pool == old(pool).(workers := [Idle], cache := pool.cache, blocked := pool.blocked,
                                 fetched := old(pool.fetched) + 1)
      ensures ResultFits(outcome, now, ttl, stored) && cache == old(cache)[url := stored]
      ensures blocked == if SetsPause(stored) then Some(Block(stored.error, stored.retryAfter)) else None
    {
      Take(BeginFetch(0));
      FetchLaw(pool, 0, outcome, now, ttl);
      var result := NewResult(outcome, now, ttl);
      Take(EndFetch(0, outcome, now, ttl));
      Store(url, result);
      Take(Step.Store(0));
      PauseLaw(pool, 0);
      var _ := PauseAfterRetryable(result);
      Take(Step.Pause(0));
      stored := result;
    }
  }
}
