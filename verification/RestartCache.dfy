/** The seen-ID cache across a restart. Reloading marks the stored IDs in the order they were listed,
    most recent first, so that afterwards the newest are the next to be evicted. Exactly when can a
    process that was stopped right after a checkpoint send a log again? */
module RestartCache {
  import opened Machine
  import opened DataGenerator
  import opened SeenCache

  // ---------- What the cache holds ----------

  /** The oldest log whose ID is stored when the logs before `b` have been sent. */
  function Oldest(cfg: Config, start: nat, b: nat): nat {
    Max(First(cfg, start), if cfg.capacity <= b then b - cfg.capacity else 0)
  }

  function Ascending(source: seq<Log>, lo: nat, hi: nat): seq<string>
    requires lo <= hi <= |source|
  {
    seq(hi - lo, k requires 0 <= k < hi - lo => source[lo + k].id)
  }

  /** How many of the reloaded IDs are left once the logs from `b` to `e` are sent. */
  function Kept(lo: nat, b: nat, e: nat, capacity: nat): nat
    requires lo <= b <= e
  {
    Min(b - lo, capacity - Min(capacity, e - b))
  }

  /** The new IDs, most recent first, and then the oldest of the reloaded ones. */
  function Mixed(source: seq<Log>, lo: nat, b: nat, e: nat, capacity: nat): seq<string>
    requires lo <= b <= e <= |source|
  {
    Recent(source, b, e, capacity) + Ascending(source, lo, lo + Kept(lo, b, e, capacity))
  }

  lemma CachedIff(source: seq<Log>, lo: nat, b: nat, e: nat, capacity: nat, q: nat)
    requires StableSource(source) && lo <= b <= e <= |source| && q < |source|
    ensures source[q].id in Mixed(source, lo, b, e, capacity) <==>
      (b <= q < e && e - q <= capacity) || lo <= q < lo + Kept(lo, b, e, capacity)
  {
    var recent, old_ := Recent(source, b, e, capacity), Ascending(source, lo, lo + Kept(lo, b, e, capacity));
    if b <= q < e && e - q <= capacity {
      assert recent[e - 1 - q] == source[q].id;
    }
    if lo <= q < lo + Kept(lo, b, e, capacity) {
      assert old_[q - lo] == source[q].id;
    }
  }

  lemma PutMixed(source: seq<Log>, lo: nat, b: nat, e: nat, capacity: nat)
    requires StableSource(source) && lo <= b <= e < |source|
    ensures source[e].id !in Mixed(source, lo, b, e, capacity)
    ensures PutId(Mixed(source, lo, b, e, capacity), capacity, source[e].id) == Mixed(source, lo, b, e + 1, capacity)
  {
    CachedIff(source, lo, b, e, capacity, e);
    PutRecent(source, b, e, capacity);
    var kept, kept' := Kept(lo, b, e, capacity), Kept(lo, b, e + 1, capacity);
    var recent, old_ := Recent(source, b, e, capacity), Ascending(source, lo, lo + kept);
    if kept' < kept {
      assert kept' == kept - 1 && |recent| + kept == capacity;
      assert (recent + old_)[..capacity - 1] == recent + old_[..kept - 1];
      assert old_[..kept - 1] == Ascending(source, lo, lo + kept');
      assert [source[e].id] + recent == Recent(source, b, e + 1, capacity);
    } else if kept > 0 {
      assert |recent| + kept < capacity;
      assert [source[e].id] + (recent + old_) == [source[e].id] + recent + old_;
    } else {
      assert recent + old_ == recent;
    }
  }

  lemma PutOlder(source: seq<Log>, lo: nat, hi: nat, capacity: nat)
    requires StableSource(source) && 0 < lo <= hi <= |source| && hi - lo < capacity
    ensures PutId(Ascending(source, lo, hi), capacity, source[lo - 1].id) == Ascending(source, lo - 1, hi)
  {
    assert source[lo - 1].id !in Ascending(source, lo, hi);
  }

  /** Reloading turns the order around. */
  lemma {:induction false} ReloadTurns(source: seq<Log>, a: nat, b: nat, capacity: nat, k: nat)
    requires StableSource(source) && a <= b <= |source| && k <= Min(capacity, b - a)
    ensures Reload(Ascending(source, b - k, b), capacity, Recent(source, a, b, capacity)[k..])
         == Ascending(source, b - Min(capacity, b - a), b)
    decreases Min(capacity, b - a) - k
  {
    var ids := Recent(source, a, b, capacity);
    if k == |ids| {
      assert ids[k..] == [];
    } else {
      assert ids[k..][0] == source[b - 1 - k].id && ids[k..][1..] == ids[k + 1..];
      PutOlder(source, b - k, b, capacity);
      ReloadTurns(source, a, b, capacity, k + 1);
    }
  }

  // ---------- What holds after a restart at `b` ----------

  function LastSeenAt(cfg: Config, start: nat, e: nat): nat
    requires e <= |cfg.source|
  {
    if First(cfg, start) < e then Max(start, cfg.source[e - 1].timestamp) else start
  }

  function End(cfg: Config, s: State, start: nat): nat {
    First(cfg, start) + |s.sent|
  }

  ghost predicate IsContinuation(cfg: Config, start: nat, b: nat, sent: seq<Log>, cache: seq<string>, lastSeen: nat) {
    var a := First(cfg, start);
    var e := a + |sent|;
    && a <= b <= e <= |cfg.source|
    && sent == cfg.source[a..e]
    && lastSeen == LastSeenAt(cfg, start, e)
    && cache == Mixed(cfg.source, Oldest(cfg, start, b), b, e, cfg.capacity)
  }

  /** A process booted at `start` and restarted when the logs before `b` had been sent; `b` is the first
      log of all if there was no restart yet. What was sent is contiguous, and all of the current batch
      that was sent is in the cache. */
  ghost predicate Continues(cfg: Config, s: State, start: nat, b: nat) {
    && StableSource(cfg.source)
    && IsContinuation(cfg, start, b, s.sent, s.cache, s.lastSeen)
    && BatchCached(cfg, s.phase, First(cfg, start), End(cfg, s, start), s.cache)
  }

  ghost predicate BatchCached(cfg: Config, phase: Phase, a: nat, e: nat, cache: seq<string>) {
    phase.Sending? ==>
      && BatchIsSlice(cfg, phase) && a <= phase.position <= e <= phase.position + |phase.batch|
      && forall q :: phase.position <= q < e ==> cfg.source[q].id in cache
  }

  /** The logs `j` before and `e - 1` after a restart at `b` lie within a second, and sending up to `e`
      evicts `j`. */
  ghost predicate Crossed(cfg: Config, start: nat, j: nat, b: nat, e: nat) {
    && Oldest(cfg, start, b) <= j < b < e <= |cfg.source|
    && cfg.source[e - 1].timestamp - cfg.source[j].timestamp <= SECOND
    && (j - Oldest(cfg, start, b)) + (e - b) >= cfg.capacity
  }

  /** Whatever a window overlaps of what was sent is still cached, unless it is crossed. */
  lemma OverlapIsCached(cfg: Config, start: nat, b: nat, e: nat, q: nat)
    requires StableSource(cfg.source) && Narrow(cfg) && First(cfg, start) <= b <= e <= |cfg.source| && q < e
    requires Since(LastSeenAt(cfg, start, e)) <= cfg.source[q].timestamp && !Crossed(cfg, start, q, b, e)
    ensures cfg.source[q].id in Mixed(cfg.source, Oldest(cfg, start, b), b, e, cfg.capacity)
  {
    OlderThanSplits(cfg.source, Since(start));
    assert First(cfg, start) <= q;
    assert cfg.source[e - 1].timestamp - cfg.source[q].timestamp <= SECOND;
    assert e - 1 - q < cfg.capacity;
    CachedIff(cfg.source, Oldest(cfg, start, b), b, e, cfg.capacity, q);
  }

  /** A window starts among what was sent and ends after it. */
  lemma WindowOverlaps(cfg: Config, start: nat, e: nat, until: nat)
    requires StableSource(cfg.source) && First(cfg, start) <= e <= |cfg.source| && LastSeenAt(cfg, start, e) <= until
    ensures var lo, hi := OlderThan(cfg.source, Since(LastSeenAt(cfg, start, e))), OlderThan(cfg.source, until + 1);
      First(cfg, start) <= lo <= e <= hi <= |cfg.source|
  {
    var lastSeen := LastSeenAt(cfg, start, e);
    OlderThanSplits(cfg.source, Since(lastSeen));
    OlderThanSplits(cfg.source, Since(start));
    OlderThanSplits(cfg.source, until + 1);
    OlderThanIsMonotone(cfg.source, Since(start), Since(lastSeen));
    OlderThanIsMonotone(cfg.source, Since(start), until + 1);
    assert e > First(cfg, start) ==> cfg.source[e - 1].timestamp <= lastSeen;
  }

  lemma PollContinues(cfg: Config, s: State, start: nat, b: nat, until: nat, fetched: bool)
    requires Narrow(cfg) && Continues(cfg, s, start, b) && s.phase.Polling?
    requires forall j :: !Crossed(cfg, start, j, b, End(cfg, s, start))
    ensures Continues(cfg, PollWindow(cfg, s, until, fetched), start, b)
  {
    var s', e := PollWindow(cfg, s, until, fetched), End(cfg, s, start);
    if s'.phase.Sending? {
      WindowOverlaps(cfg, start, e, until);
      OlderThanSplits(cfg.source, Since(s.lastSeen));
      forall q | s'.phase.position <= q < e ensures cfg.source[q].id in s.cache {
        OverlapIsCached(cfg, start, b, e, q);
      }
    }
  }

  lemma SendContinues(cfg: Config, start: nat, b: nat, sent: seq<Log>, cache: seq<string>, lastSeen: nat)
    requires StableSource(cfg.source) && IsContinuation(cfg, start, b, sent, cache, lastSeen)
    requires First(cfg, start) + |sent| < |cfg.source|
    ensures var log := cfg.source[First(cfg, start) + |sent|];
      IsContinuation(cfg, start, b, sent + [log], PutId(cache, cfg.capacity, log.id), Max(lastSeen, log.timestamp))
  {
    PutMixed(cfg.source, Oldest(cfg, start, b), b, First(cfg, start) + |sent|, cfg.capacity);
    OneLogMore(cfg.source, First(cfg, start), First(cfg, start) + |sent|);
    LastSeenOfMore(cfg, start, First(cfg, start) + |sent|);
  }

  lemma LastSeenOfMore(cfg: Config, start: nat, e: nat)
    requires StableSource(cfg.source) && First(cfg, start) <= e < |cfg.source|
    ensures Max(LastSeenAt(cfg, start, e), cfg.source[e].timestamp) == LastSeenAt(cfg, start, e + 1)
  {
    NewestOfMore(cfg, start, e);
  }

  lemma CachedIffOld(cfg: Config, s: State, start: nat, b: nat)
    requires Continues(cfg, s, start, b) && s.phase.Sending? && s.phase.batch != []
    ensures s.phase.position < |cfg.source| && s.phase.batch[0] == cfg.source[s.phase.position]
    ensures s.phase.batch[0].id in s.cache <==> s.phase.position < End(cfg, s, start)
  {
    RestIsSlice(cfg, s.phase, 0);
    if s.phase.position == End(cfg, s, start) {
      CachedIff(cfg.source, Oldest(cfg, start, b), b, End(cfg, s, start), cfg.capacity, s.phase.position);
    }
  }

  /** The rest of the batch after its first log was skipped or sent. */
  lemma RestIsCached(
      cfg: Config, phase: Phase, n: nat, a: nat, e: nat, cache: seq<string>, e': nat, cache': seq<string>)
    requires phase.Sending? && phase.batch != [] && BatchCached(cfg, phase, a, e, cache)
    requires if phase.position < e then e' == e && cache' == cache else e' == e + 1
    ensures BatchCached(cfg, Sending(phase.batch[1..], n, phase.position + 1), a, e', cache')
  {
    RestIsSlice(cfg, phase, n);
  }

  lemma NextContinues(cfg: Config, s: State, start: nat, b: nat, delivered: bool)
    requires Continues(cfg, s, start, b) && s.phase.Sending?
    ensures Continues(cfg, NextStep(cfg, s, delivered), start, b)
  {
    var s', batch := NextStep(cfg, s, delivered), s.phase.batch;
    if batch != [] {
      CachedIffOld(cfg, s, start, b);
      if batch[0].id in s.cache || delivered {
        RestIsCached(cfg, s.phase, s'.phase.sentNow, First(cfg, start), End(cfg, s, start), s.cache,
                     End(cfg, s', start), s'.cache);
      }
      if batch[0].id !in s.cache && delivered {
        SendContinues(cfg, start, b, s.sent, s.cache, s.lastSeen);
      }
    }
  }

  // ---------- Where a process can stop ----------

  /** The latest end of a window. */
  function Horizon(cfg: Config, lastSeen: nat): nat {
    AsU64(Since(lastSeen) / SECOND + cfg.maxSpan) * SECOND
  }

  /** How many logs are no newer than `u` seconds. */
  function UpTo(cfg: Config, u: nat): nat {
    OlderThan(cfg.source, u * SECOND + 1)
  }

  predicate Reachable(cfg: Config, start: nat, p: nat)
    requires p < |cfg.source|
  {
    cfg.source[p].timestamp <= Horizon(cfg, LastSeenAt(cfg, start, p))
  }

  /** No gap before `b` is too long for a window. */
  ghost predicate Chain(cfg: Config, start: nat, b: nat) {
    First(cfg, start) <= b <= |cfg.source| && forall p :: First(cfg, start) <= p < b ==> Reachable(cfg, start, p)
  }

  /** Windows end on whole seconds; some window ends right before log `b`. */
  ghost predicate Cut(cfg: Config, start: nat, b: nat) {
    exists u: nat :: start <= u * SECOND && UpTo(cfg, u) == b
  }

  ghost predicate OvertakenAt(cfg: Config, start: nat, j: nat, b: nat, e: nat) {
    && start / SECOND + cfg.maxSpan < TWO_64
    && Chain(cfg, start, b) && Cut(cfg, start, b) && Crossed(cfg, start, j, b, e)
  }

  /** Some process can checkpoint at `b`, and a log just before `b` is evicted by those just after. */
  ghost predicate Overtaken(cfg: Config) {
    exists start, j, b, e :: OvertakenAt(cfg, start, j, b, e)
  }

  /** Everything sent so far is covered by both stored keys. */
  predicate CleanStop(s: State) {
    s.savedLastSeen.Some? && s.savedSeen.Some? && s.marked == |s.sent| == s.complete
  }

  /** A process that stops right after a checkpoint, a restart that takes up the stored state with a clock
      that has not gone back, and a log that is sent twice. */
  ghost predicate RestartRun(cfg: Config, start: nat, before: seq<Event>, now: nat, after: seq<Event>) {
    && start / SECOND + cfg.maxSpan < TWO_64
    && CrashFree(before) && CrashFree(after)
    && Run(cfg, Boot(start), before).Some?
    && var s := Run(cfg, Boot(start), before).value;
    && CleanStop(s) && s.savedLastSeen.value <= now && RecoveryOf(cfg, s, now, AllRecalled) == Resumed
    && Run(cfg, Restart(cfg, s, now, AllRecalled), after).Some?
    && SentTwice(Run(cfg, Restart(cfg, s, now, AllRecalled), after).value)
  }

  ghost predicate RestartRepeats(cfg: Config) {
    exists start, before, now, after :: RestartRun(cfg, start, before, now, after)
  }

  // ---------- A clean stop is at a cut that is reached without too long a gap ----------

  ghost predicate BatchInReach(cfg: Config, phase: Phase, start: nat, lastSeen: nat) {
    phase.Sending? ==>
      && phase.position + |phase.batch| <= |cfg.source| && Cut(cfg, start, phase.position + |phase.batch|)
      && forall q :: phase.position <= q < phase.position + |phase.batch| ==>
           cfg.source[q].timestamp <= Horizon(cfg, lastSeen)
  }

  lemma HorizonGrows(cfg: Config, x: nat, y: nat)
    requires x <= y && y / SECOND + cfg.maxSpan < TWO_64
    ensures Horizon(cfg, x) <= Horizon(cfg, y)
  {
    assert Since(x) / SECOND <= Since(y) / SECOND <= y / SECOND;
  }

  lemma PollIsInReach(cfg: Config, s: State, start: nat, now: nat, fetched: bool)
    requires StableSource(cfg.source) && s.phase.Polling? && start <= s.lastSeen
    ensures BatchInReach(cfg, PollStep(cfg, s, now, fetched).phase, start, s.lastSeen)
  {
    var s' := PollStep(cfg, s, now, fetched);
    if s'.phase.Sending? {
      var u := Until(cfg, s.lastSeen, now) / SECOND;
      assert Until(cfg, s.lastSeen, now) == u * SECOND <= Horizon(cfg, s.lastSeen);
      OlderThanSplits(cfg.source, u * SECOND + 1);
      assert UpTo(cfg, u) == s'.phase.position + |s'.phase.batch|;
    }
  }

  lemma RestInReach(cfg: Config, phase: Phase, n: nat, start: nat, lastSeen: nat, lastSeen': nat)
    requires phase.Sending? && phase.batch != [] && BatchInReach(cfg, phase, start, lastSeen)
    requires Horizon(cfg, lastSeen) <= Horizon(cfg, lastSeen')
    ensures BatchInReach(cfg, Sending(phase.batch[1..], n, phase.position + 1), start, lastSeen')
  {
  }

  /** Without a restart the cache holds the most recent IDs. */
  lemma NoRestartYet(cfg: Config, start: nat, e: nat)
    requires First(cfg, start) <= e <= |cfg.source|
    ensures Oldest(cfg, start, First(cfg, start)) == First(cfg, start)
    ensures Mixed(cfg.source, First(cfg, start), First(cfg, start), e, cfg.capacity)
         == Recent(cfg.source, First(cfg, start), e, cfg.capacity)
  {
  }

  lemma BootContinues(cfg: Config, start: nat)
    requires StableSource(cfg.source)
    ensures Continues(cfg, Boot(start), start, First(cfg, start))
  {
    OlderThanSplits(cfg.source, Since(start));
    NoRestartYet(cfg, start, First(cfg, start));
  }

  lemma MixedAtStop(cfg: Config, start: nat, b: nat)
    requires First(cfg, start) <= b <= |cfg.source|
    ensures Oldest(cfg, start, b) == b - Min(cfg.capacity, b - First(cfg, start))
    ensures Mixed(cfg.source, Oldest(cfg, start, b), b, b, cfg.capacity)
         == Ascending(cfg.source, Oldest(cfg, start, b), b)
  {
    assert Recent(cfg.source, b, b, cfg.capacity) == [];
  }

  /** What a reload makes of the cache of a process that was never restarted. */
  lemma ReloadedCache(cfg: Config, start: nat, b: nat)
    requires StableSource(cfg.source) && First(cfg, start) <= b <= |cfg.source|
    ensures Reload([], cfg.capacity, Recent(cfg.source, First(cfg, start), b, cfg.capacity))
         == Mixed(cfg.source, Oldest(cfg, start, b), b, b, cfg.capacity)
  {
    var ids := Recent(cfg.source, First(cfg, start), b, cfg.capacity);
    ReloadTurns(cfg.source, First(cfg, start), b, cfg.capacity, 0);
    assert Ascending(cfg.source, b, b) == [] && ids[0..] == ids;
    MixedAtStop(cfg, start, b);
  }

  /** Restarting from a checkpoint of all that was sent. */
  lemma RestartContinues(cfg: Config, s: State, start: nat, now: nat)
    requires Continues(cfg, s, start, First(cfg, start))
    requires s.savedLastSeen == Some(s.lastSeen) && s.savedSeen == Some(s.cache) && s.lastSeen <= now
    requires RecoveryOf(cfg, s, now, AllRecalled) == Resumed
    ensures Continues(cfg, Restart(cfg, s, now, AllRecalled), start, End(cfg, s, start))
  {
    NoRestartYet(cfg, start, End(cfg, s, start));
    ReloadedCache(cfg, start, End(cfg, s, start));
  }

  // ---------- The condition is necessary ----------

  ghost predicate Leads(cfg: Config, s: State, events: seq<Event>, end: State) {
    CrashFree(events) && Run(cfg, s, events) == Some(end)
  }

  lemma LeadsOn(cfg: Config, s: State, first: seq<Event>, mid: State, second: seq<Event>, end: State)
    requires Leads(cfg, s, first, mid) && Leads(cfg, mid, second, end)
    ensures Leads(cfg, s, first + second, end)
  {
    RunOfConcat(cfg, s, first, second);
  }

  lemma LeadsByOne(cfg: Config, s: State, e: Event, end: State)
    requires Apply(cfg, s, e) == Some(end) && !e.Crash?
    ensures Leads(cfg, s, [e], end)
  {
    RunOfOne(cfg, s, e);
  }

  /** Go through the batch until the logs before `e` are sent. */
  lemma {:induction false} SendUntil(cfg: Config, s: State, start: nat, b: nat, e: nat)
    returns (events: seq<Event>, end: State)
    requires Continues(cfg, s, start, b) && s.phase.Sending?
    requires End(cfg, s, start) <= e <= s.phase.position + |s.phase.batch|
    ensures Leads(cfg, s, events, end) && Continues(cfg, end, start, b) && End(cfg, end, start) == e
    ensures end.phase.Sending? && end.phase.position == e && e + |end.phase.batch| == s.phase.position + |s.phase.batch|
    ensures end.phase.sentNow == s.phase.sentNow + (|end.sent| - |s.sent|)
    decreases e - s.phase.position
  {
    events, end := [], s;
    if s.phase.position < e {
      CachedIffOld(cfg, s, start, b);
      NextContinues(cfg, s, start, b, true);
      var next := NextStep(cfg, s, true);
      LeadsByOne(cfg, s, Next(true), next);
      events, end := SendUntil(cfg, next, start, b, e);
      LeadsOn(cfg, s, [Next(true)], next, events, end);
      events := [Next(true)] + events;
    }
  }

  /** Leave the batch, by a checkpoint if all of it is sent and by a refused send otherwise. */
  lemma LeaveBatch(cfg: Config, s: State, start: nat, b: nat) returns (events: seq<Event>, end: State)
    requires Continues(cfg, s, start, b) && s.phase.Sending?
    requires s.phase.position == End(cfg, s, start) && s.phase.sentNow > 0
    ensures Leads(cfg, s, events, end) && Continues(cfg, end, start, b) && end.phase.Polling? && end.sent == s.sent
    ensures s.phase.batch == [] ==>
      CleanStop(end) && end.savedLastSeen.value == end.lastSeen && end.savedSeen.value == end.cache
  {
    if s.phase.batch == [] {
      events := StoreAndPoll(cfg, s);
      end := Run(cfg, s, events).value;
    } else {
      CachedIffOld(cfg, s, start, b);
      events, end := [Next(false)], s.(phase := Polling);
      LeadsByOne(cfg, s, Next(false), end);
    }
  }

  lemma SendAndLeave(cfg: Config, s: State, start: nat, b: nat, e: nat) returns (events: seq<Event>, end: State)
    requires Continues(cfg, s, start, b) && s.phase.Sending? && s.phase.sentNow == 0
    requires End(cfg, s, start) < e <= s.phase.position + |s.phase.batch|
    ensures Leads(cfg, s, events, end) && Continues(cfg, end, start, b)
    ensures end.phase.Polling? && End(cfg, end, start) == e
    ensures e == s.phase.position + |s.phase.batch| ==>
      CleanStop(end) && end.savedLastSeen.value == end.lastSeen && end.savedSeen.value == end.cache
  {
    var sends, mid := SendUntil(cfg, s, start, b, e);
    events, end := LeaveBatch(cfg, mid, start, b);
    LeadsOn(cfg, s, sends, mid, events, end);
    events := sends + events;
  }

  /** A clock that ends the window at `u` seconds. */
  lemma PollUpTo(cfg: Config, s: State, u: nat)
    requires u <= Since(s.lastSeen) / SECOND + cfg.maxSpan < TWO_64 && s.phase.Polling?
    ensures Leads(cfg, s, [Poll(cfg.canonTime + u, true)], PollWindow(cfg, s, u * SECOND, true))
  {
    assert AsU64(u) == u;
    LeadsByOne(cfg, s, Poll(cfg.canonTime + u, true), PollWindow(cfg, s, u * SECOND, true));
  }

  /** The next window can end at the cut, or as late as windows can, and brings at least one new log. */
  lemma NextWindow(cfg: Config, start: nat, p: nat, b: nat, u: nat) returns (v: nat)
    requires StableSource(cfg.source) && Realistic(cfg) && start / SECOND + cfg.maxSpan < TWO_64
    requires First(cfg, start) <= p < b && Chain(cfg, start, b) && start <= u * SECOND && UpTo(cfg, u) == b
    ensures v <= Since(LastSeenAt(cfg, start, p)) / SECOND + cfg.maxSpan < TWO_64
    ensures LastSeenAt(cfg, start, p) <= v * SECOND && p < UpTo(cfg, v) <= b
  {
    var lastSeen := LastSeenAt(cfg, start, p);
    var cap := Since(lastSeen) / SECOND + cfg.maxSpan;
    assert Since(lastSeen) / SECOND <= lastSeen / SECOND;
    OlderThanSplits(cfg.source, u * SECOND + 1);
    if u <= cap {
      v := u;
    } else {
      v := cap;
      assert Reachable(cfg, start, p);
      OlderThanSplits(cfg.source, cap * SECOND + 1);
      OlderThanIsMonotone(cfg.source, cap * SECOND + 1, u * SECOND + 1);
      assert lastSeen < (Since(lastSeen) / SECOND + 2) * SECOND;
    }
  }

  lemma StartWindow(cfg: Config, s: State, start: nat, v: nat)
    requires Narrow(cfg) && Continues(cfg, s, start, First(cfg, start)) && s.phase.Polling?
    requires s.lastSeen <= v * SECOND && End(cfg, s, start) < UpTo(cfg, v)
    ensures var s' := PollWindow(cfg, s, v * SECOND, true);
      && Continues(cfg, s', start, First(cfg, start)) && s'.sent == s.sent
      && s'.phase.Sending? && s'.phase.sentNow == 0 && s'.phase.position + |s'.phase.batch| == UpTo(cfg, v)
  {
    WindowOverlaps(cfg, start, End(cfg, s, start), v * SECOND);
    PollContinues(cfg, s, start, First(cfg, start), v * SECOND, true);
  }

  /** One activation that sends everything up to the end of a window and stores it. */
  lemma OneWindow(cfg: Config, s: State, start: nat, v: nat) returns (events: seq<Event>, end: State)
    requires Narrow(cfg) && Continues(cfg, s, start, First(cfg, start)) && s.phase.Polling?
    requires v <= Since(s.lastSeen) / SECOND + cfg.maxSpan < TWO_64
    requires s.lastSeen <= v * SECOND && End(cfg, s, start) < UpTo(cfg, v)
    ensures Leads(cfg, s, events, end) && Continues(cfg, end, start, First(cfg, start)) && end.phase.Polling?
    ensures End(cfg, end, start) == UpTo(cfg, v)
    ensures CleanStop(end) && end.savedLastSeen.value == end.lastSeen && end.savedSeen.value == end.cache
  {
    var mid := PollWindow(cfg, s, v * SECOND, true);
    PollUpTo(cfg, s, v);
    StartWindow(cfg, s, start, v);
    events, end := SendAndLeave(cfg, mid, start, First(cfg, start), UpTo(cfg, v));
    LeadsOn(cfg, s, [Poll(cfg.canonTime + v, true)], mid, events, end);
    events := [Poll(cfg.canonTime + v, true)] + events;
  }

  /** A process can stop right after a checkpoint at any cut that is reached without too long a gap. */
  lemma {:induction false} ReachCut(cfg: Config, s: State, start: nat, b: nat, u: nat)
    returns (events: seq<Event>, end: State)
    requires Narrow(cfg) && Realistic(cfg) && start / SECOND + cfg.maxSpan < TWO_64
    requires Continues(cfg, s, start, First(cfg, start)) && s.phase.Polling? && End(cfg, s, start) < b
    requires Chain(cfg, start, b) && start <= u * SECOND && UpTo(cfg, u) == b
    ensures Leads(cfg, s, events, end) && Continues(cfg, end, start, First(cfg, start)) && end.phase.Polling?
    ensures End(cfg, end, start) == b
    ensures CleanStop(end) && end.savedLastSeen.value == end.lastSeen && end.savedSeen.value == end.cache
    decreases b - End(cfg, s, start)
  {
    var v := NextWindow(cfg, start, End(cfg, s, start), b, u);
    events, end := OneWindow(cfg, s, start, v);
    if End(cfg, end, start) < b {
      var mid := end;
      var rest;
      rest, end := ReachCut(cfg, mid, start, b, u);
      LeadsOn(cfg, s, events, mid, rest, end);
      events := events + rest;
    }
  }

  /** A batch with a sent log that is not cached any more sends it, or one before it, again. */
  lemma {:induction false} SendsOldAgain(cfg: Config, s: State, a: nat, j: nat) returns (events: seq<Event>, end: State)
    requires s.phase.Sending? && BatchIsSlice(cfg, s.phase) && a + |s.sent| <= |cfg.source|
    requires s.sent == cfg.source[a..a + |s.sent|] && a <= s.phase.position <= j < a + |s.sent|
    requires j < s.phase.position + |s.phase.batch| && cfg.source[j].id !in s.cache
    ensures Leads(cfg, s, events, end) && SentTwice(end)
    decreases j - s.phase.position
  {
    var pos, next := s.phase.position, NextStep(cfg, s, true);
    RestIsSlice(cfg, s.phase, s.phase.sentNow);
    LeadsByOne(cfg, s, Next(true), next);
    if s.phase.batch[0].id in s.cache {
      events, end := SendsOldAgain(cfg, next, a, j);
      LeadsOn(cfg, s, [Next(true)], next, events, end);
      events := [Next(true)] + events;
    } else {
      events, end := [Next(true)], next;
      assert end.sent[pos - a].id == end.sent[|s.sent|].id;
    }
  }

  /** The first window after a restart at `b` reaches beyond every log within a second of an older one. */
  lemma WindowReaches(cfg: Config, start: nat, j: nat, b: nat, e: nat)
    requires StableSource(cfg.source) && Realistic(cfg) && start / SECOND + cfg.maxSpan < TWO_64
    requires First(cfg, start) <= b && Crossed(cfg, start, j, b, e)
    ensures var lastSeen := LastSeenAt(cfg, start, b);
      && Since(lastSeen) <= cfg.source[e - 1].timestamp <= lastSeen + SECOND
      && lastSeen / SECOND + cfg.maxSpan < TWO_64
  {
    OlderThanSplits(cfg.source, Since(start));
    assert cfg.source[j].timestamp <= cfg.source[b - 1].timestamp <= cfg.source[e - 1].timestamp;
  }

  lemma PollStepContinues(cfg: Config, s: State, start: nat, b: nat, poll: Event)
    requires Narrow(cfg) && Continues(cfg, s, start, b) && s.phase.Polling? && End(cfg, s, start) == b && poll.Poll?
    ensures Apply(cfg, s, poll).Some? && Continues(cfg, Apply(cfg, s, poll).value, start, b)
  {
    PollContinues(cfg, s, start, b, Until(cfg, s.lastSeen, poll.now), poll.fetched);
  }

  lemma StartLateWindow(cfg: Config, s: State, start: nat, b: nat, e: nat) returns (poll: Event, next: State)
    requires Narrow(cfg) && Continues(cfg, s, start, b) && s.phase.Polling? && End(cfg, s, start) == b
    requires cfg.maxSpan >= 3 && s.lastSeen / SECOND + cfg.maxSpan < TWO_64
    requires b < e <= |cfg.source| && Since(s.lastSeen) <= cfg.source[e - 1].timestamp <= s.lastSeen + SECOND
    ensures Leads(cfg, s, [poll], next) && Continues(cfg, next, start, b) && next.sent == s.sent
    ensures next.phase.Sending? && next.phase.sentNow == 0 && e <= next.phase.position + |next.phase.batch|
  {
    poll := LatePollStartsBatch(cfg, s, e - 1);
    next := Apply(cfg, s, poll).value;
    PollStepContinues(cfg, s, start, b, poll);
    LeadsByOne(cfg, s, poll, next);
  }

  /** After a restart at `b`: send up to `e` and return to polling. */
  lemma SendPast(cfg: Config, s: State, start: nat, b: nat, j: nat, e: nat) returns (events: seq<Event>, end: State)
    requires Narrow(cfg) && Realistic(cfg) && start / SECOND + cfg.maxSpan < TWO_64
    requires Continues(cfg, s, start, b) && s.phase.Polling? && End(cfg, s, start) == b && Crossed(cfg, start, j, b, e)
    ensures Leads(cfg, s, events, end) && Continues(cfg, end, start, b)
    ensures end.phase.Polling? && End(cfg, end, start) == e
  {
    WindowReaches(cfg, start, j, b, e);
    var poll, mid := StartLateWindow(cfg, s, start, b, e);
    events, end := SendAndLeave(cfg, mid, start, b, e);
    LeadsOn(cfg, s, [poll], mid, events, end);
    events := [poll] + events;
  }

  /** Then the next window still contains `j`, which is not cached any more. */
  lemma SendCrossedAgain(cfg: Config, s: State, start: nat, b: nat, j: nat, e: nat)
    returns (events: seq<Event>, end: State)
    requires Realistic(cfg) && start / SECOND + cfg.maxSpan < TWO_64
    requires Continues(cfg, s, start, b) && s.phase.Polling? && End(cfg, s, start) == e && Crossed(cfg, start, j, b, e)
    ensures Leads(cfg, s, events, end) && SentTwice(end)
  {
    OlderThanSplits(cfg.source, Since(start));
    assert cfg.source[j].timestamp <= cfg.source[e - 1].timestamp;
    var poll := LatePollStartsBatch(cfg, s, j);
    OlderThanIsMonotone(cfg.source, Since(start), Since(s.lastSeen));
    CachedIff(cfg.source, Oldest(cfg, start, b), b, e, cfg.capacity, j);
    var mid := Apply(cfg, s, poll).value;
    LeadsByOne(cfg, s, poll, mid);
    events, end := SendsOldAgain(cfg, mid, First(cfg, start), j);
    LeadsOn(cfg, s, [poll], mid, events, end);
    events := [poll] + events;
  }

  lemma OvertakenRepeats(cfg: Config)
    requires StableSource(cfg.source) && Realistic(cfg) && Narrow(cfg) && Overtaken(cfg)
    ensures RestartRepeats(cfg)
  {
    var start: nat, j: nat, b: nat, e: nat :| OvertakenAt(cfg, start, j, b, e);
    var u: nat :| start <= u * SECOND && UpTo(cfg, u) == b;
    BootContinues(cfg, start);
    var before, s := ReachCut(cfg, Boot(start), start, b, u);
    RepeatFrom(cfg, start, before, s, j, b, e);
  }

  lemma RepeatFrom(cfg: Config, start: nat, before: seq<Event>, s: State, j: nat, b: nat, e: nat)
    requires Narrow(cfg) && Realistic(cfg) && start / SECOND + cfg.maxSpan < TWO_64
    requires Leads(cfg, Boot(start), before, s) && Continues(cfg, s, start, First(cfg, start))
    requires End(cfg, s, start) == b
    requires CleanStop(s) && s.savedLastSeen.value == s.lastSeen && s.savedSeen.value == s.cache
    requires Crossed(cfg, start, j, b, e)
    ensures RestartRepeats(cfg)
  {
    RestartContinues(cfg, s, start, s.lastSeen);
    var restarted := Restart(cfg, s, s.lastSeen, AllRecalled);
    var past, mid := SendPast(cfg, restarted, start, b, j, e);
    var again, end := SendCrossedAgain(cfg, mid, start, b, j, e);
    LeadsOn(cfg, restarted, past, mid, again, end);
    assert RestartRun(cfg, start, before, s.lastSeen, past + again);
  }

  /** Once the cache was full when the process stopped, its size does not matter any more: two logs within
      a second, one on each side of the stop, are enough. */
  lemma FullCacheIsCrossedIff(cfg: Config, start: nat, b: nat)
    requires StableSource(cfg.source) && cfg.capacity > 0 && First(cfg, start) + cfg.capacity <= b < |cfg.source|
    ensures (exists j, e :: Crossed(cfg, start, j, b, e)) <==>
      cfg.source[b].timestamp - cfg.source[b - 1].timestamp <= SECOND
  {
    if j: nat, e: nat :| Crossed(cfg, start, j, b, e) {
      assert cfg.source[j].timestamp <= cfg.source[b - 1].timestamp;
      assert cfg.source[b].timestamp <= cfg.source[e - 1].timestamp;
    }
    if cfg.source[b].timestamp - cfg.source[b - 1].timestamp <= SECOND {
      assert Crossed(cfg, start, b - 1, b, b + 1);
    }
  }

  /** Being large enough for every second of the source is not enough across a restart: two logs, a
      checkpoint between the seconds, and a third log within a second of the second. */
  lemma NarrowIsNotEnough() returns (cfg: Config)
    ensures StableSource(cfg.source) && Realistic(cfg) && Narrow(cfg) && RestartRepeats(cfg)
  {
    var a, b, c := Log("a", 10_000_000_000, []), Log("b", 10_800_000_000, []), Log("c", 11_200_000_000, []);
    cfg := Config([a, b, c], 2, 0, 60, 3600);
    var start := 9 * SECOND;
    assert cfg.source[1..] == [b, c] && cfg.source[1..][1..] == [c] && cfg.source[1..][1..][1..] == [];
    assert OlderThan([c], 11 * SECOND + 1) == 0 && OlderThan([b, c], 11 * SECOND + 1) == 1;
    assert First(cfg, start) == 0 && UpTo(cfg, 11) == 2;
    assert Reachable(cfg, start, 0) && Reachable(cfg, start, 1);
    assert OvertakenAt(cfg, start, 1, 2, 3);
    OvertakenRepeats(cfg);
  }
}
