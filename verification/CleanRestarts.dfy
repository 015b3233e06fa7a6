/** A generator that is stopped right after a checkpoint and restarted, any number of times. Exactly when
    can it send a log twice? The order in which the cache evicts differs from one restart to the next; what
    decides is only that an eviction after a stop means that the stop is out of every window's reach. */
module CleanRestarts {
  import opened Machine
  import opened DataGenerator
  import opened SeenCache
  import opened RestartCache

  // ---------- Lives with clean restarts ----------

  /** Every crash hits right after a checkpoint of all that was sent, and the restart takes up the stored
      state with a clock that has not gone back. */
  predicate CleanCrash(cfg: Config, s: State, e: Event) {
    e.Crash? ==>
      && CleanStop(s) && e.recalled == AllRecalled && s.savedLastSeen.value <= e.now
      && RecoveryOf(cfg, s, e.now, e.recalled) == Resumed
  }

  ghost predicate StopsClean(cfg: Config, s: State, events: seq<Event>)
    decreases |events|
  {
    events != [] ==>
      && CleanCrash(cfg, s, events[0])
      && (Apply(cfg, s, events[0]).Some? ==> StopsClean(cfg, Apply(cfg, s, events[0]).value, events[1..]))
  }

  ghost predicate RepeatingLife(cfg: Config, start: nat, events: seq<Event>) {
    && start / SECOND + cfg.maxSpan < TWO_64
    && Run(cfg, Boot(start), events).Some? && StopsClean(cfg, Boot(start), events)
    && SentTwice(Run(cfg, Boot(start), events).value)
  }

  ghost predicate RepeatsCleanly(cfg: Config) {
    exists start, events :: RepeatingLife(cfg, start, events)
  }

  // ---------- What the cache remembers ----------

  /** A log that was not sent yet is not cached. */
  ghost predicate UnsentUncached(cfg: Config, cache: seq<string>, e: nat) {
    forall q :: e <= q < |cfg.source| ==> cfg.source[q].id !in cache
  }

  /** Everything sent that a window could bring again is cached. */
  ghost predicate WindowCached(cfg: Config, cache: seq<string>, a: nat, e: nat, lastSeen: nat)
    requires e <= |cfg.source|
  {
    forall q :: a <= q < e && Since(lastSeen) <= cfg.source[q].timestamp ==> cfg.source[q].id in cache
  }

  /** Since the last restart at `b` the cache keeps the newest IDs in front, and it never shrinks. */
  ghost predicate CacheRemembers(cfg: Config, start: nat, b: nat, e: nat, cache: seq<string>) {
    var a := First(cfg, start);
    && a <= b <= e <= |cfg.source|
    && Distinct(cache) && |cache| == Min(cfg.capacity, e - a)
    && Recent(cfg.source, b, e, cfg.capacity) <= cache
    && UnsentUncached(cfg, cache, e)
    && WindowCached(cfg, cache, a, e, LastSeenAt(cfg, start, e))
  }

  /** What was sent is contiguous. */
  ghost predicate SentContiguously(cfg: Config, start: nat, sent: seq<Log>, lastSeen: nat) {
    var a := First(cfg, start);
    var e := a + |sent|;
    e <= |cfg.source| && sent == cfg.source[a..e] && lastSeen == LastSeenAt(cfg, start, e)
  }

  /** No log before a stop at `b` is overtaken. */
  ghost predicate NoneCrossed(cfg: Config, start: nat, b: nat) {
    forall j, e :: !Crossed(cfg, start, j, b, e)
  }

  lemma PutKeepsDistinct(cache: seq<string>, capacity: nat, id: string)
    requires Distinct(cache) && id !in cache && |cache| <= capacity && capacity > 0
    ensures var cache' := PutId(cache, capacity, id);
      && Distinct(cache') && |cache'| == Min(capacity, |cache| + 1) && cache'[0] == id
      && (forall x :: x in cache' ==> x == id || x in cache)
      && (|cache| < capacity ==> forall x :: x in cache ==> x in cache')
  {
    var cache' := PutId(cache, capacity, id);
    assert forall i :: 0 < i < |cache'| ==> cache'[i] == cache[i - 1];
    if |cache| < capacity {
      forall x | x in cache ensures x in cache' {
        var i :| 0 <= i < |cache| && cache[i] == x;
        assert cache'[i + 1] == x;
      }
    }
  }

  /** The newest IDs stay in front. */
  lemma PutKeepsRecent(source: seq<Log>, b: nat, e: nat, capacity: nat, cache: seq<string>)
    requires StableSource(source) && b <= e < |source| && capacity > 0 && |cache| <= capacity
    requires Recent(source, b, e, capacity) <= cache && source[e].id !in cache
    ensures Recent(source, b, e + 1, capacity) <= PutId(cache, capacity, source[e].id)
  {
    var recent, recent' := Recent(source, b, e, capacity), Recent(source, b, e + 1, capacity);
    var cache' := PutId(cache, capacity, source[e].id);
    assert |recent'| <= |cache'|;
    forall k | 0 <= k < |recent'| ensures recent'[k] == cache'[k] {
      if k > 0 {
        assert recent'[k] == recent[k - 1] == cache[k - 1];
      }
    }
  }

  /** If sending log `e` evicts anything after a stop at `b`, nothing before `b` is within a second of it. */
  lemma EvictionLeavesStopBehind(cfg: Config, start: nat, b: nat, e: nat, q: nat)
    requires StableSource(cfg.source) && cfg.capacity > 0 && First(cfg, start) + cfg.capacity <= e
    requires First(cfg, start) <= q < b <= e < |cfg.source| && !Crossed(cfg, start, b - 1, b, e + 1)
    ensures cfg.source[e].timestamp - cfg.source[q].timestamp > SECOND
  {
    assert cfg.source[q].timestamp <= cfg.source[b - 1].timestamp;
  }

  /** Sending log `e` keeps a log cached that is within a second of it. */
  lemma StaysCached(cfg: Config, start: nat, b: nat, e: nat, cache: seq<string>, q: nat)
    requires StableSource(cfg.source) && Narrow(cfg) && First(cfg, start) <= b <= e < |cfg.source|
    requires |cache| == Min(cfg.capacity, e - First(cfg, start)) && Distinct(cache) && cfg.source[e].id !in cache
    requires Recent(cfg.source, b, e, cfg.capacity) <= cache && NoneCrossed(cfg, start, b)
    requires First(cfg, start) <= q < e && cfg.source[q].id in cache && cfg.capacity > 0
    requires cfg.source[e].timestamp - cfg.source[q].timestamp <= SECOND
    ensures cfg.source[q].id in PutId(cache, cfg.capacity, cfg.source[e].id)
  {
    PutKeepsDistinct(cache, cfg.capacity, cfg.source[e].id);
    if |cache| == cfg.capacity {
      if q < b {
        assert !Crossed(cfg, start, b - 1, b, e + 1);
        EvictionLeavesStopBehind(cfg, start, b, e, q);
      }
      PutKeepsRecent(cfg.source, b, e, cfg.capacity, cache);
      assert e - q < cfg.capacity;
      assert Recent(cfg.source, b, e + 1, cfg.capacity)[e - q] == cfg.source[q].id;
    }
  }

  /** Sending the next log keeps every log cached that the next window could bring again. */
  lemma SendKeepsWindow(cfg: Config, start: nat, b: nat, e: nat, cache: seq<string>)
    requires StableSource(cfg.source) && Narrow(cfg) && cfg.capacity > 0
    requires First(cfg, start) <= b <= e < |cfg.source|
    requires |cache| == Min(cfg.capacity, e - First(cfg, start)) && Distinct(cache) && cfg.source[e].id !in cache
    requires Recent(cfg.source, b, e, cfg.capacity) <= cache && NoneCrossed(cfg, start, b)
    requires WindowCached(cfg, cache, First(cfg, start), e, LastSeenAt(cfg, start, e))
    ensures WindowCached(cfg, PutId(cache, cfg.capacity, cfg.source[e].id), First(cfg, start), e + 1,
                         LastSeenAt(cfg, start, e + 1))
  {
    var a, lastSeen' := First(cfg, start), LastSeenAt(cfg, start, e + 1);
    PutKeepsDistinct(cache, cfg.capacity, cfg.source[e].id);
    NewestOfMore(cfg, start, e);
    forall q | a <= q < e + 1 && Since(lastSeen') <= cfg.source[q].timestamp
      ensures cfg.source[q].id in PutId(cache, cfg.capacity, cfg.source[e].id)
    {
      if q < e {
        assert Since(LastSeenAt(cfg, start, e)) <= Since(lastSeen');
        StaysCached(cfg, start, b, e, cache, q);
      }
    }
  }

  lemma OnlyOneMore(cfg: Config, cache: seq<string>, e: nat)
    requires StableSource(cfg.source) && e < |cfg.source| && UnsentUncached(cfg, cache, e)
    requires Distinct(cache) && |cache| <= cfg.capacity && cfg.capacity > 0
    ensures UnsentUncached(cfg, PutId(cache, cfg.capacity, cfg.source[e].id), e + 1)
  {
    PutKeepsDistinct(cache, cfg.capacity, cfg.source[e].id);
  }

  lemma SendRemembers(cfg: Config, start: nat, b: nat, e: nat, cache: seq<string>, e': nat, cache': seq<string>)
    requires StableSource(cfg.source) && Narrow(cfg) && NoneCrossed(cfg, start, b)
    requires CacheRemembers(cfg, start, b, e, cache) && e < |cfg.source|
    requires e' == e + 1 && cache' == PutId(cache, cfg.capacity, cfg.source[e].id)
    ensures CacheRemembers(cfg, start, b, e', cache')
  {
    assert cfg.capacity > 0 by {
      assert cfg.source[e].timestamp - cfg.source[e].timestamp <= SECOND;
    }
    PutKeepsDistinct(cache, cfg.capacity, cfg.source[e].id);
    PutKeepsRecent(cfg.source, b, e, cfg.capacity, cache);
    SendKeepsWindow(cfg, start, b, e, cache);
    OnlyOneMore(cfg, cache, e);
  }

  lemma SendIsContiguous(cfg: Config, start: nat, sent: seq<Log>, lastSeen: nat)
    requires StableSource(cfg.source) && SentContiguously(cfg, start, sent, lastSeen)
    requires First(cfg, start) + |sent| < |cfg.source|
    ensures var log := cfg.source[First(cfg, start) + |sent|];
      SentContiguously(cfg, start, sent + [log], Max(lastSeen, log.timestamp))
  {
    OneLogMore(cfg.source, First(cfg, start), First(cfg, start) + |sent|);
    NewestOfMore(cfg, start, First(cfg, start) + |sent|);
  }

  // ---------- Whole lives ----------

  /** What a checkpoint of all that was sent holds, and where it can be. */
  ghost predicate Checkpointed(cfg: Config, s: State, start: nat) {
    var e := End(cfg, s, start);
    && Chain(cfg, start, e) && BatchInReach(cfg, s.phase, start, s.lastSeen)
    && (s.phase.SavingLastSeen? || s.phase.SavingSeen? ==> Cut(cfg, start, e))
    && s.marked <= |s.sent| && s.complete <= |s.sent|
    && (s.savedLastSeen.Some? && s.marked == |s.sent| ==> s.savedLastSeen.value == s.lastSeen)
    && (s.savedSeen.Some? && s.complete == |s.sent| ==> SameIds(s.savedSeen.value, s.cache) && Cut(cfg, start, e))
  }

  ghost predicate SameIds(ids: seq<string>, cache: seq<string>) {
    Distinct(ids) && |ids| == |cache| && forall x :: x in ids <==> x in cache
  }

  /** A process booted at `start` whose last restart, if any, was at `b`. */
  ghost predicate Knows(cfg: Config, s: State, start: nat, b: nat) {
    && StableSource(cfg.source) && NoneCrossed(cfg, start, b)
    && SentContiguously(cfg, start, s.sent, s.lastSeen)
    && CacheRemembers(cfg, start, b, End(cfg, s, start), s.cache)
    && BatchCached(cfg, s.phase, First(cfg, start), End(cfg, s, start), s.cache)
  }

  ghost predicate Alive(cfg: Config, s: State, start: nat, b: nat) {
    Knows(cfg, s, start, b) && Checkpointed(cfg, s, start)
  }

  lemma BootIsAlive(cfg: Config, start: nat)
    requires StableSource(cfg.source)
    ensures Alive(cfg, Boot(start), start, First(cfg, start))
  {
    BootContinues(cfg, start);
  }

  /** All that a new window overlaps is cached. */
  lemma FetchIsCached(cfg: Config, start: nat, e: nat, cache: seq<string>, until: nat)
    requires StableSource(cfg.source) && First(cfg, start) <= e <= |cfg.source| && LastSeenAt(cfg, start, e) <= until
    requires WindowCached(cfg, cache, First(cfg, start), e, LastSeenAt(cfg, start, e))
    ensures var since := Since(LastSeenAt(cfg, start, e));
      var logs := Fetch(cfg.source, since, until);
      logs != [] ==> BatchCached(cfg, Sending(logs, 0, OlderThan(cfg.source, since)), First(cfg, start), e, cache)
  {
    WindowOverlaps(cfg, start, e, until);
    OlderThanSplits(cfg.source, Since(LastSeenAt(cfg, start, e)));
  }

  lemma PollStaysAlive(cfg: Config, s: State, start: nat, b: nat, now: nat, fetched: bool)
    requires Alive(cfg, s, start, b) && s.phase.Polling?
    ensures Alive(cfg, PollStep(cfg, s, now, fetched), start, b)
  {
    var until := Until(cfg, s.lastSeen, now);
    PollIsInReach(cfg, s, start, now, fetched);
    if s.lastSeen <= until {
      FetchIsCached(cfg, start, End(cfg, s, start), s.cache, until);
    }
  }

  lemma HeadIsCachedIffOld(cfg: Config, s: State, start: nat, b: nat)
    requires Knows(cfg, s, start, b) && s.phase.Sending? && s.phase.batch != []
    ensures s.phase.position < |cfg.source| && s.phase.batch[0] == cfg.source[s.phase.position]
    ensures s.phase.batch[0].id in s.cache <==> s.phase.position < End(cfg, s, start)
  {
    RestIsSlice(cfg, s.phase, 0);
  }

  lemma IdleStillKnows(cfg: Config, s: State, s': State, start: nat, b: nat)
    requires Knows(cfg, s, start, b) && s' == s.(phase := s'.phase) && !s'.phase.Sending?
    ensures Knows(cfg, s', start, b)
  {
  }

  lemma SkipStillKnows(cfg: Config, s: State, s': State, start: nat, b: nat)
    requires Knows(cfg, s, start, b) && s.phase.Sending? && s.phase.batch != [] && s.phase.position < End(cfg, s, start)
    requires s' == s.(phase := Sending(s.phase.batch[1..], s.phase.sentNow, s.phase.position + 1))
    ensures Knows(cfg, s', start, b)
  {
    RestIsCached(cfg, s.phase, s.phase.sentNow, First(cfg, start), End(cfg, s, start), s.cache,
                 End(cfg, s, start), s.cache);
  }

  /** `s'` is `s` after the next log was sent. */
  predicate SentNext(cfg: Config, s: State, s': State, start: nat) {
    && End(cfg, s, start) < |cfg.source|
    && var log := cfg.source[End(cfg, s, start)];
    && s'.sent == s.sent + [log] && s'.cache == PutId(s.cache, cfg.capacity, log.id)
    && s'.lastSeen == Max(s.lastSeen, log.timestamp)
  }

  lemma SendKeepsCache(cfg: Config, s: State, s': State, start: nat, b: nat)
    requires Narrow(cfg) && Knows(cfg, s, start, b) && SentNext(cfg, s, s', start)
    ensures CacheRemembers(cfg, start, b, End(cfg, s', start), s'.cache)
  {
    SendRemembers(cfg, start, b, End(cfg, s, start), s.cache, End(cfg, s', start), s'.cache);
  }

  lemma SendKeepsSent(cfg: Config, s: State, s': State, start: nat, b: nat)
    requires Knows(cfg, s, start, b) && SentNext(cfg, s, s', start)
    ensures SentContiguously(cfg, start, s'.sent, s'.lastSeen)
  {
    SendIsContiguous(cfg, start, s.sent, s.lastSeen);
  }

  lemma SendKeepsBatch(cfg: Config, s: State, s': State, start: nat, b: nat)
    requires Knows(cfg, s, start, b) && SentNext(cfg, s, s', start) && s.phase.Sending? && s.phase.batch != []
    requires s.phase.position == End(cfg, s, start)
    requires s'.phase == Sending(s.phase.batch[1..], s.phase.sentNow + 1, s.phase.position + 1)
    ensures BatchCached(cfg, s'.phase, First(cfg, start), End(cfg, s', start), s'.cache)
  {
    RestIsCached(cfg, s.phase, s'.phase.sentNow, First(cfg, start), End(cfg, s, start), s.cache,
                 End(cfg, s', start), s'.cache);
  }

  lemma SendStillKnows(cfg: Config, s: State, s': State, start: nat, b: nat)
    requires Narrow(cfg) && Knows(cfg, s, start, b) && SentNext(cfg, s, s', start)
    requires s.phase.Sending? && s.phase.batch != [] && s.phase.position == End(cfg, s, start)
    requires s'.phase == Sending(s.phase.batch[1..], s.phase.sentNow + 1, s.phase.position + 1)
    ensures Knows(cfg, s', start, b)
  {
    SendKeepsCache(cfg, s, s', start, b);
    SendKeepsSent(cfg, s, s', start, b);
    SendKeepsBatch(cfg, s, s', start, b);
  }

  lemma NextStillKnows(cfg: Config, s: State, start: nat, b: nat, delivered: bool)
    requires Narrow(cfg) && Knows(cfg, s, start, b) && s.phase.Sending?
    ensures Knows(cfg, NextStep(cfg, s, delivered), start, b)
  {
    var s' := NextStep(cfg, s, delivered);
    if s.phase.batch == [] {
      IdleStillKnows(cfg, s, s', start, b);
    } else {
      HeadIsCachedIffOld(cfg, s, start, b);
      if s.phase.batch[0].id in s.cache {
        SkipStillKnows(cfg, s, s', start, b);
      } else if delivered {
        SendStillKnows(cfg, s, s', start, b);
      } else {
        IdleStillKnows(cfg, s, s', start, b);
      }
    }
  }

  /** What sending the next log does to the checkpoint invariant; `rest` is the phase after it. */
  lemma SendStaysCheckpointed(cfg: Config, s: State, start: nat, log: Log, cache: seq<string>, rest: Phase)
    requires Checkpointed(cfg, s, start) && End(cfg, s, start) < |cfg.source|
    requires log == cfg.source[End(cfg, s, start)] && Reachable(cfg, start, End(cfg, s, start)) && rest.Sending?
    requires BatchInReach(cfg, rest, start, Max(s.lastSeen, log.timestamp))
    ensures var lastSeen := Max(s.lastSeen, log.timestamp);
      Checkpointed(cfg, s.(sent := s.sent + [log], cache := cache, lastSeen := lastSeen, phase := rest), start)
  {
  }

  lemma NextStaysCheckpointed(cfg: Config, s: State, start: nat, b: nat, delivered: bool)
    requires Realistic(cfg) && start / SECOND + cfg.maxSpan < TWO_64
    requires Alive(cfg, s, start, b) && s.phase.Sending?
    ensures Checkpointed(cfg, NextStep(cfg, s, delivered), start)
  {
    var s', batch := NextStep(cfg, s, delivered), s.phase.batch;
    if batch != [] {
      HeadIsCachedIffOld(cfg, s, start, b);
      if batch[0].id in s.cache {
        RestInReach(cfg, s.phase, s.phase.sentNow, start, s.lastSeen, s.lastSeen);
      } else if delivered {
        HorizonGrows(cfg, s.lastSeen, s'.lastSeen);
        RestInReach(cfg, s.phase, s.phase.sentNow + 1, start, s.lastSeen, s'.lastSeen);
        SendStaysCheckpointed(cfg, s, start, batch[0], s'.cache, s'.phase);
      }
    }
  }

  /** Reloading the stored IDs, in whatever order, makes the cache remember the same logs. */
  lemma ReloadRemembers(cfg: Config, start: nat, b: nat, e: nat, cache: seq<string>, ids: seq<string>)
    requires CacheRemembers(cfg, start, b, e, cache) && SameIds(ids, cache)
    ensures CacheRemembers(cfg, start, e, e, Reload([], cfg.capacity, ids))
    ensures SameIds(ids, Reload([], cfg.capacity, ids))
  {
    ReloadKeepsAll(cfg, [], ids);
    assert Recent(cfg.source, e, e, cfg.capacity) == [];
  }

  lemma RestartStaysAlive(cfg: Config, s: State, start: nat, b: nat, e: Event)
    requires Alive(cfg, s, start, b) && e.Crash? && CleanCrash(cfg, s, e) && NoneCrossed(cfg, start, End(cfg, s, start))
    ensures Alive(cfg, Restart(cfg, s, e.now, e.recalled), start, End(cfg, s, start))
  {
    ReloadRemembers(cfg, start, b, End(cfg, s, start), s.cache, s.savedSeen.value);
  }

  /** A clean stop is never just before a crossed log. */
  lemma StopIsNotCrossed(cfg: Config, s: State, start: nat, b: nat)
    requires Alive(cfg, s, start, b) && CleanStop(s) && !Overtaken(cfg) && start / SECOND + cfg.maxSpan < TWO_64
    ensures NoneCrossed(cfg, start, End(cfg, s, start))
  {
    forall j, e ensures !Crossed(cfg, start, j, End(cfg, s, start), e) {
      assert !OvertakenAt(cfg, start, j, End(cfg, s, start), e);
    }
  }

  lemma StepStaysAlive(cfg: Config, s: State, start: nat, b: nat, e: Event) returns (b': nat)
    requires Narrow(cfg) && Realistic(cfg) && !Overtaken(cfg) && start / SECOND + cfg.maxSpan < TWO_64
    requires Alive(cfg, s, start, b) && Apply(cfg, s, e).Some? && CleanCrash(cfg, s, e)
    ensures Alive(cfg, Apply(cfg, s, e).value, start, b')
  {
    b' := b;
    match e
    case Poll(now, fetched) => PollStaysAlive(cfg, s, start, b, now, fetched);
    case Next(delivered) =>
      NextStillKnows(cfg, s, start, b, delivered);
      NextStaysCheckpointed(cfg, s, start, b, delivered);
    case Crash(now, recalled) =>
      StopIsNotCrossed(cfg, s, start, b);
      RestartStaysAlive(cfg, s, start, b, e);
      b' := End(cfg, s, start);
    case _ => SaveStaysAlive(cfg, s, start, b, e);
  }

  lemma SaveStaysAlive(cfg: Config, s: State, start: nat, b: nat, e: Event)
    requires Alive(cfg, s, start, b) && Apply(cfg, s, e).Some? && (e.SaveLastSeen? || e.SaveSeen?)
    ensures Alive(cfg, Apply(cfg, s, e).value, start, b)
  {
  }

  lemma {:induction false} RunStaysAlive(cfg: Config, s: State, start: nat, b: nat, events: seq<Event>)
    returns (b': nat)
    requires Narrow(cfg) && Realistic(cfg) && !Overtaken(cfg) && start / SECOND + cfg.maxSpan < TWO_64
    requires Alive(cfg, s, start, b) && Run(cfg, s, events).Some? && StopsClean(cfg, s, events)
    ensures Alive(cfg, Run(cfg, s, events).value, start, b')
    decreases |events|
  {
    b' := b;
    if events != [] {
      var mid := StepStaysAlive(cfg, s, start, b, events[0]);
      b' := RunStaysAlive(cfg, Apply(cfg, s, events[0]).value, start, mid, events[1..]);
    }
  }

  /** With any number of clean stops and restarts, everything that is sent is sent contiguously, in order and
      once, unless some second is too busy for the cache or some log is overtaken. */
  lemma LifeSendsOnce(cfg: Config, start: nat, events: seq<Event>)
    requires StableSource(cfg.source) && Narrow(cfg) && Realistic(cfg) && !Overtaken(cfg)
    requires start / SECOND + cfg.maxSpan < TWO_64 && Run(cfg, Boot(start), events).Some?
    requires StopsClean(cfg, Boot(start), events)
    ensures var end := Run(cfg, Boot(start), events).value;
      SentContiguously(cfg, start, end.sent, end.lastSeen) && !SentTwice(end)
  {
    BootIsAlive(cfg, start);
    assert NoneCrossed(cfg, start, First(cfg, start));
    var b := RunStaysAlive(cfg, Boot(start), start, First(cfg, start), events);
  }

  // ---------- The condition is exact ----------

  lemma {:induction false} StopAndGoOn(cfg: Config, s: State, before: seq<Event>, crash: Event, after: seq<Event>)
    requires Run(cfg, s, before).Some? && CrashFree(before) && CrashFree(after) && crash.Crash?
    requires CleanCrash(cfg, Run(cfg, s, before).value, crash)
    requires Run(cfg, Restart(cfg, Run(cfg, s, before).value, crash.now, crash.recalled), after).Some?
    ensures Run(cfg, s, before + ([crash] + after)) ==
      Run(cfg, Restart(cfg, Run(cfg, s, before).value, crash.now, crash.recalled), after)
    ensures StopsClean(cfg, s, before + ([crash] + after))
    decreases |before|
  {
    var events := before + ([crash] + after);
    if before == [] {
      assert events == [crash] + after && events[1..] == after;
      CrashFreeStopsClean(cfg, Restart(cfg, s, crash.now, crash.recalled), after);
    } else {
      assert events[0] == before[0] && events[1..] == before[1..] + ([crash] + after);
      StopAndGoOn(cfg, Apply(cfg, s, before[0]).value, before[1..], crash, after);
    }
  }

  lemma {:induction false} CrashFreeStopsClean(cfg: Config, s: State, events: seq<Event>)
    requires CrashFree(events)
    ensures StopsClean(cfg, s, events)
    decreases |events|
  {
    if events != [] && Apply(cfg, s, events[0]).Some? {
      CrashFreeStopsClean(cfg, Apply(cfg, s, events[0]).value, events[1..]);
    }
  }

  lemma OvertakenRepeatsCleanly(cfg: Config)
    requires StableSource(cfg.source) && Realistic(cfg) && Narrow(cfg) && Overtaken(cfg)
    ensures RepeatsCleanly(cfg)
  {
    OvertakenRepeats(cfg);
    var start: nat, before: seq<Event>, now: nat, after: seq<Event> :| RestartRun(cfg, start, before, now, after);
    StopAndGoOn(cfg, Boot(start), before, Crash(now, AllRecalled), after);
    assert RepeatingLife(cfg, start, before + ([Crash(now, AllRecalled)] + after));
  }

  lemma TooBusyRepeatsCleanly(cfg: Config)
    requires StableSource(cfg.source) && Realistic(cfg) && !Narrow(cfg)
    ensures RepeatsCleanly(cfg)
  {
    var start, events := TooBusyRun(cfg);
    CrashFreeStopsClean(cfg, Boot(start), events);
    assert RepeatingLife(cfg, start, events);
  }

  /** Exactly when some life with any number of clean stops and restarts, also none, sends a log twice: when
      some second of the source is too busy for the cache, or some log is overtaken across a stop. */
  lemma RepeatsIffOvertaken(cfg: Config)
    requires StableSource(cfg.source) && Realistic(cfg)
    ensures RepeatsCleanly(cfg) <==> !Narrow(cfg) || Overtaken(cfg)
  {
    if !Narrow(cfg) {
      TooBusyRepeatsCleanly(cfg);
    } else if Overtaken(cfg) {
      OvertakenRepeatsCleanly(cfg);
    } else if RepeatsCleanly(cfg) {
      var start: nat, events: seq<Event> :| RepeatingLife(cfg, start, events);
      LifeSendsOnce(cfg, start, events);
      assert false;
    }
  }
}
