/** The URLs of a sequential pass, one after the other: which are skipped, given
    up or fetched, and what is stored for each. */
module RecencyFates {
  import opened Common
  import opened Enrichment
  import opened EnrichmentPauses

  // What the clock, the disk cache, the caller's context and the site answer
  // during one pass, by position in the list.
  datatype World = World(scanClock: nat -> Time, disk: nat -> Option<FetchResult>, firstClock: nat -> Time,
                         cancelled: nat -> bool, secondClock: nat -> Time, outcome: nat -> Outcome,
                         answerClock: nat -> Time, readClock: nat -> Time, ttl: Time)

  // Skipped because of a pause, given up because the caller's context ended
  // while it waited, or fetched.
  datatype Fate = Skipped | GivenUp | Fetched(outcome: Outcome)

  function CountSkipped(fates: seq<Fate>): nat {
    if fates == [] then 0
    else CountSkipped(fates[..|fates| - 1]) + (if fates[|fates| - 1].Skipped? then 1 else 0)
  }

  // URL i was refused with a challenge or a rate limit that sets a pause.
  predicate SetsPauseAt(fates: seq<Fate>, world: World, i: nat)
    requires i < |fates|
  {
    && fates[i].Fetched? && fates[i].outcome.Refused?
    && (fates[i].outcome.error.Challenge? || fates[i].outcome.error.RateLimited?) && Until(fates, world, i) != 0
  }

  function Until(fates: seq<Fate>, world: World, i: nat): Time
    requires i < |fates| && fates[i].Fetched? && fates[i].outcome.Refused?
  {
    RetryAt(fates[i].outcome.error, world.answerClock(i))
  }

  // The pause of the start, or that of URL i, is not over at any check before n.
  ghost predicate StartAlive(start: Option<Block>, world: World, n: nat) {
    start.Some?
      && forall k {:trigger world.firstClock(k)} :: 0 <= k < n ==> world.firstClock(k) < start.value.retryAfter
  }

  ghost predicate Alive(fates: seq<Fate>, world: World, i: nat, n: nat)
    requires i < |fates|
  {
    && SetsPauseAt(fates, world, i)
    && forall k {:trigger world.firstClock(k)} :: i < k < n ==> world.firstClock(k) < Until(fates, world, i)
  }

  // ... nor at check n.
  ghost predicate StillOn(fates: seq<Fate>, world: World, i: nat, n: nat)
    requires i < |fates|
  {
    Alive(fates, world, i, n) && world.firstClock(n) < Until(fates, world, i)
  }

  ghost predicate PausedAt(start: Option<Block>, fates: seq<Fate>, world: World, n: nat)
    requires n <= |fates|
  {
    StartAlive(start, world, n + 1) || exists i :: 0 <= i < n && StillOn(fates, world, i, n)
  }

  // A URL is skipped exactly when some pause set before it has lasted until
  // its turn; otherwise it is fetched, unless the caller gives up.
  ghost predicate FatesFit(start: Option<Block>, fates: seq<Fate>, world: World) {
    forall n {:trigger fates[n]} :: 0 <= n < |fates| ==>
      fates[n] == if PausedAt(start, fates, world, n) then Skipped
                  else if world.cancelled(n) then GivenUp else Fetched(world.outcome(n))
  }

  // What is stored for URL n: what was fetched, or the error and the time of
  // such a pause.
  ghost predicate ResultOfFate(start: Option<Block>, fates: seq<Fate>, world: World, n: nat, result: FetchResult)
    requires n < |fates|
  {
    match fates[n]
    case Fetched(outcome) => ResultFits(outcome, world.answerClock(n), world.ttl, result)
    case GivenUp => result == Failed(OtherError, 0)
    case Skipped =>
      || (StartAlive(start, world, n + 1) && result == Failed(start.value.error, start.value.retryAfter))
      || exists i :: 0 <= i < n && StillOn(fates, world, i, n)
                     && result == Failed(fates[i].outcome.error, Until(fates, world, i))
  }

  // The pause before URL n: as late as any that is alive, and one of them.
  ghost predicate BlockFits(start: Option<Block>, fates: seq<Fate>, world: World, blocked: Option<Block>) {
    var n := |fates|;
    && (StartAlive(start, world, n) ==> blocked.Some? && start.value.retryAfter <= blocked.value.retryAfter)
    && (forall i :: 0 <= i < n && Alive(fates, world, i, n) ==>
          blocked.Some? && Until(fates, world, i) <= blocked.value.retryAfter)
    && (blocked.Some? ==>
          || (StartAlive(start, world, n) && blocked == start)
          || exists i :: 0 <= i < n && Alive(fates, world, i, n)
                         && blocked == Some(Block(fates[i].outcome.error, Until(fates, world, i))))
  }

  // One URL: its fate, its result, and the pause afterwards.
  ghost predicate OneDone(world: World, n: nat, blocked: Option<Block>, fate: Fate, result: FetchResult,
                          after: Option<Block>)
  {
    if Paused(blocked, world.firstClock(n))
    then fate.Skipped? && result == Failed(blocked.value.error, blocked.value.retryAfter) && after == blocked
    else if world.cancelled(n) then fate.GivenUp? && result == Failed(OtherError, 0) && after.None?
    else && fate == Fetched(world.outcome(n)) && ResultFits(world.outcome(n), world.answerClock(n), world.ttl, result)
         && after == if SetsPause(result) then Some(Block(result.error, result.retryAfter)) else None
  }

  lemma MoreFates(fates: seq<Fate>, fate: Fate, world: World, i: nat, n: nat)
    requires i < |fates|
    ensures Alive(fates + [fate], world, i, n) == Alive(fates, world, i, n)
    ensures StillOn(fates + [fate], world, i, n) == StillOn(fates, world, i, n)
  {
  }

  lemma PausedNow(start: Option<Block>, fates: seq<Fate>, world: World, blocked: Option<Block>)
    requires BlockFits(start, fates, world, blocked)
    ensures PausedAt(start, fates, world, |fates|) <==> Paused(blocked, world.firstClock(|fates|))
  {
    var n := |fates|;
    if Paused(blocked, world.firstClock(n)) {
      if StartAlive(start, world, n) && blocked == start {
        assert StartAlive(start, world, n + 1);
      } else {
        var i :| 0 <= i < n && Alive(fates, world, i, n)
                 && blocked == Some(Block(fates[i].outcome.error, Until(fates, world, i)));
        assert StillOn(fates, world, i, n);
      }
    }
    if StartAlive(start, world, n + 1) {
      assert StartAlive(start, world, n) && world.firstClock(n) < start.value.retryAfter;
    } else if PausedAt(start, fates, world, n) {
      var i :| 0 <= i < n && StillOn(fates, world, i, n);
      assert Alive(fates, world, i, n);
    }
  }

  lemma MorePausedAt(start: Option<Block>, fates: seq<Fate>, fate: Fate, world: World, n: nat)
    requires n <= |fates|
    ensures PausedAt(start, fates + [fate], world, n) == PausedAt(start, fates, world, n)
  {
    if StartAlive(start, world, n + 1) {
    } else if PausedAt(start, fates, world, n) {
      var i :| 0 <= i < n && StillOn(fates, world, i, n);
      MoreFates(fates, fate, world, i, n);
    } else if PausedAt(start, fates + [fate], world, n) {
      var i :| 0 <= i < n && StillOn(fates + [fate], world, i, n);
      MoreFates(fates, fate, world, i, n);
    }
  }

  lemma FatesStep(start: Option<Block>, fates: seq<Fate>, world: World, blocked: Option<Block>, fate: Fate,
                  result: FetchResult, after: Option<Block>)
    requires FatesFit(start, fates, world) && BlockFits(start, fates, world, blocked)
    requires OneDone(world, |fates|, blocked, fate, result, after)
    ensures FatesFit(start, fates + [fate], world)
  {
    PausedNow(start, fates, world, blocked);
    forall n | 0 <= n <= |fates| ensures PausedAt(start, fates + [fate], world, n) == PausedAt(start, fates, world, n) {
      MorePausedAt(start, fates, fate, world, n);
    }
  }

  // With one more check behind it, a pause is alive if it was and is not over.
  lemma AliveNext(fates: seq<Fate>, fate: Fate, world: World, i: nat)
    requires i < |fates|
    ensures var n := |fates|;
            && (Alive(fates + [fate], world, i, n + 1) <==> StillOn(fates, world, i, n))
            && (Alive(fates, world, i, n) && world.firstClock(n) < Until(fates, world, i)
                <==> StillOn(fates, world, i, n))
  {
  }

  lemma BlockStep(start: Option<Block>, fates: seq<Fate>, world: World, blocked: Option<Block>, fate: Fate,
                  result: FetchResult, after: Option<Block>)
    requires BlockFits(start, fates, world, blocked) && OneDone(world, |fates|, blocked, fate, result, after)
    ensures BlockFits(start, fates + [fate], world, after)
  {
    var n, now, more := |fates|, world.firstClock(|fates|), fates + [fate];
    assert StartAlive(start, world, n + 1) <==> StartAlive(start, world, n) && now < start.value.retryAfter;
    forall i | 0 <= i < |more| && Alive(more, world, i, |more|)
      ensures after.Some? && Until(more, world, i) <= after.value.retryAfter
    {
      if i < n {
        AliveNext(fates, fate, world, i);
        assert Alive(fates, world, i, n);
      }
    }
    if Paused(blocked, now) {
      if !(StartAlive(start, world, n) && blocked == start) {
        var i :| 0 <= i < n && Alive(fates, world, i, n)
                 && blocked == Some(Block(fates[i].outcome.error, Until(fates, world, i)));
        AliveNext(fates, fate, world, i);
        assert Alive(more, world, i, |more|);
      }
    } else if after.Some? {
      assert Alive(more, world, n, |more|);
    }
  }

  lemma ResultStep(start: Option<Block>, fates: seq<Fate>, world: World, blocked: Option<Block>, fate: Fate,
                   result: FetchResult, after: Option<Block>)
    requires BlockFits(start, fates, world, blocked) && OneDone(world, |fates|, blocked, fate, result, after)
    ensures ResultOfFate(start, fates + [fate], world, |fates|, result)
  {
    var n, more := |fates|, fates + [fate];
    if fate.Skipped? {
      if StartAlive(start, world, n) && blocked == start {
        assert StartAlive(start, world, n + 1);
      } else {
        var i :| 0 <= i < n && Alive(fates, world, i, n)
                 && blocked == Some(Block(fates[i].outcome.error, Until(fates, world, i)));
        MoreFates(fates, fate, world, i, n);
        assert StillOn(more, world, i, n);
      }
    }
  }

  lemma ResultStays(start: Option<Block>, fates: seq<Fate>, fate: Fate, world: World, n: nat, result: FetchResult)
    requires n < |fates| && ResultOfFate(start, fates, world, n, result)
    ensures ResultOfFate(start, fates + [fate], world, n, result)
  {
    if fates[n].Skipped? {
      if !(StartAlive(start, world, n + 1) && result == Failed(start.value.error, start.value.retryAfter)) {
        var i :| 0 <= i < n && StillOn(fates, world, i, n)
                 && result == Failed(fates[i].outcome.error, Until(fates, world, i));
        MoreFates(fates, fate, world, i, n);
        assert StillOn(fates + [fate], world, i, n);
      }
    }
  }

  // ----- The pass so far -----

  ghost predicate Distinct(urls: seq<Url>) {
    forall i, j {:trigger urls[i], urls[j]} :: 0 <= i < j < |urls| ==> urls[i] != urls[j]
  }

  // Each URL done has the result of its fate in the cache.
  ghost predicate ResultsFit(start: Option<Block>, fates: seq<Fate>, world: World, todo: seq<Url>,
                             cache: map<Url, FetchResult>)
  {
    |fates| <= |todo| && forall n {:trigger todo[n]} :: 0 <= n < |fates| ==>
      todo[n] in cache && ResultOfFate(start, fates, world, n, cache[todo[n]])
  }

  lemma ResultsStep(start: Option<Block>, fates: seq<Fate>, world: World, todo: seq<Url>, cache: map<Url, FetchResult>,
                    blocked: Option<Block>, fate: Fate, result: FetchResult, after: Option<Block>)
    requires BlockFits(start, fates, world, blocked) && OneDone(world, |fates|, blocked, fate, result, after)
    requires ResultsFit(start, fates, world, todo, cache) && |fates| < |todo|
    requires Distinct(todo)
    ensures ResultsFit(start, fates + [fate], world, todo, cache[todo[|fates|] := result])
  {
    ResultStep(start, fates, world, blocked, fate, result, after);
    forall n | 0 <= n < |fates| ensures ResultOfFate(start, fates + [fate], world, n, cache[todo[n]]) {
      ResultStays(start, fates, fate, world, n, cache[todo[n]]);
    }
  }

  // What holds once some of the URLs are done.
  ghost predicate DoneSoFar(start: Option<Block>, fates: seq<Fate>, world: World, todo: seq<Url>,
                            cache: map<Url, FetchResult>, blocked: Option<Block>)
  {
    && FatesFit(start, fates, world) && BlockFits(start, fates, world, blocked)
    && ResultsFit(start, fates, world, todo, cache)
  }

  lemma DoneStep(start: Option<Block>, fates: seq<Fate>, world: World, todo: seq<Url>, cache: map<Url, FetchResult>,
                 blocked: Option<Block>, fate: Fate, result: FetchResult, after: Option<Block>)
    requires DoneSoFar(start, fates, world, todo, cache, blocked) && |fates| < |todo|
    requires OneDone(world, |fates|, blocked, fate, result, after)
    requires Distinct(todo)
    ensures DoneSoFar(start, fates + [fate], world, todo, cache[todo[|fates|] := result], after)
  {
    FatesStep(start, fates, world, blocked, fate, result, after);
    BlockStep(start, fates, world, blocked, fate, result, after);
    ResultsStep(start, fates, world, todo, cache, blocked, fate, result, after);
  }

  lemma CountMore(fates: seq<Fate>, fate: Fate)
    ensures CountSkipped(fates + [fate]) == CountSkipped(fates) + if fate.Skipped? then 1 else 0
  {
    assert (fates + [fate])[..|fates|] == fates;
  }
}
