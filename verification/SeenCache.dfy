/** The seen-ID cache of a data generator holds a bounded number of IDs. Exactly when is that enough
    for a crash-free process to send every log once? */
module SeenCache {
  import opened Machine
  import opened DataGenerator

  /** No second of the source holds more logs than the cache holds IDs. */
  ghost predicate Narrow(cfg: Config) {
    forall i, j :: 0 <= i <= j < |cfg.source| && cfg.source[j].timestamp - cfg.source[i].timestamp <= SECOND ==>
      j - i < cfg.capacity
  }

  /** The last IDs of source[a..b], most recent first. */
  function Recent(source: seq<Log>, a: nat, b: nat, capacity: nat): seq<string>
    requires a <= b <= |source|
  {
    seq(Min(capacity, b - a), k requires 0 <= k < Min(capacity, b - a) => source[b - 1 - k].id)
  }

  lemma PutRecent(source: seq<Log>, a: nat, b: nat, capacity: nat)
    requires StableSource(source) && a <= b < |source|
    ensures source[b].id !in Recent(source, a, b, capacity)
    ensures PutId(Recent(source, a, b, capacity), capacity, source[b].id) == Recent(source, a, b + 1, capacity)
  {
  }

  /** Where the window of the first poll begins. */
  function First(cfg: Config, start: nat): nat {
    OlderThan(cfg.source, Since(start))
  }

  /** What was sent is one contiguous stretch of the source, in order, and the cache holds its end. */
  ghost predicate IsStretch(cfg: Config, start: nat, sent: seq<Log>, cache: seq<string>, lastSeen: nat) {
    var a := First(cfg, start);
    var b := a + |sent|;
    && b <= |cfg.source|
    && sent == cfg.source[a..b]
    && cache == Recent(cfg.source, a, b, cfg.capacity)
    && lastSeen == (if a < b then Max(start, cfg.source[b - 1].timestamp) else start)
  }

  ghost predicate Stretch(cfg: Config, s: State, start: nat) {
    StableSource(cfg.source) && IsStretch(cfg, start, s.sent, s.cache, s.lastSeen)
  }

  /** The batch starts within the logs cached, so that it cannot bring up an evicted one. */
  ghost predicate WithinReach(cfg: Config, phase: Phase, a: nat, b: nat) {
    phase.Sending? ==>
      && BatchIsSlice(cfg, phase)
      && a <= phase.position <= b <= phase.position + |phase.batch|
      && b - phase.position <= cfg.capacity
  }

  ghost predicate BatchOnStretch(cfg: Config, s: State, start: nat) {
    WithinReach(cfg, s.phase, First(cfg, start), First(cfg, start) + |s.sent|)
  }

  /** The overlap of a new window with what was sent is at most one second long. */
  lemma OverlapIsShort(cfg: Config, lastSeen: nat, b: nat)
    requires Narrow(cfg) && StableSource(cfg.source) && 0 < b <= |cfg.source|
    requires cfg.source[b - 1].timestamp <= lastSeen
    ensures b - OlderThan(cfg.source, Since(lastSeen)) <= cfg.capacity
  {
    var lo := OlderThan(cfg.source, Since(lastSeen));
    OlderThanSplits(cfg.source, Since(lastSeen));
    if lo < b {
      assert cfg.source[b - 1].timestamp - cfg.source[lo].timestamp <= SECOND;
    }
  }

  /** No sent log is newer than `lastSeen`, no unsent one is older than the window. */
  lemma WindowCoversEnd(cfg: Config, s: State, start: nat, until: nat)
    requires Stretch(cfg, s, start) && s.lastSeen <= until
    ensures var lo, hi := OlderThan(cfg.source, Since(s.lastSeen)), OlderThan(cfg.source, until + 1);
      First(cfg, start) <= lo <= First(cfg, start) + |s.sent| <= hi <= |cfg.source|
  {
    var a, b := First(cfg, start), First(cfg, start) + |s.sent|;
    OlderThanSplits(cfg.source, Since(s.lastSeen));
    OlderThanSplits(cfg.source, Since(start));
    OlderThanSplits(cfg.source, until + 1);
    OlderThanIsMonotone(cfg.source, Since(start), Since(s.lastSeen));
    OlderThanIsMonotone(cfg.source, Since(start), until + 1);
    if a < b {
      assert Since(s.lastSeen) <= s.lastSeen;
      assert cfg.source[b - 1].timestamp <= s.lastSeen;
    }
  }

  lemma PollKeepsStretch(cfg: Config, s: State, start: nat, until: nat, fetched: bool)
    requires Narrow(cfg) && Stretch(cfg, s, start) && s.phase.Polling?
    ensures var s' := PollWindow(cfg, s, until, fetched); Stretch(cfg, s', start) && BatchOnStretch(cfg, s', start)
  {
    var s' := PollWindow(cfg, s, until, fetched);
    if s'.phase.Sending? {
      WindowCoversEnd(cfg, s, start, until);
      if |s.sent| > 0 {
        OverlapIsShort(cfg, s.lastSeen, First(cfg, start) + |s.sent|);
      }
    }
  }

  lemma RestIsSlice(cfg: Config, phase: Phase, n: nat)
    requires phase.Sending? && phase.batch != [] && BatchIsSlice(cfg, phase)
    ensures phase.batch[0] == cfg.source[phase.position]
    ensures BatchIsSlice(cfg, Sending(phase.batch[1..], n, phase.position + 1))
  {
    var rest, p := phase.batch[1..], phase.position + 1;
    assert rest == cfg.source[p..p + |rest|];
  }

  lemma OneLogMore(source: seq<Log>, a: nat, b: nat)
    requires a <= b < |source|
    ensures source[a..b] + [source[b]] == source[a..b + 1]
  {
  }

  /** In an ascending source the next log is at least as new as what was seen. */
  lemma NewestOfMore(cfg: Config, start: nat, b: nat)
    requires StableSource(cfg.source) && First(cfg, start) <= b < |cfg.source|
    ensures var before := if First(cfg, start) < b then Max(start, cfg.source[b - 1].timestamp) else start;
      Max(before, cfg.source[b].timestamp) == Max(start, cfg.source[b].timestamp)
  {
    assert b > 0 ==> cfg.source[b - 1].timestamp <= cfg.source[b].timestamp;
  }

  lemma SendExtends(cfg: Config, start: nat, sent: seq<Log>, cache: seq<string>, lastSeen: nat)
    requires StableSource(cfg.source) && IsStretch(cfg, start, sent, cache, lastSeen)
    requires First(cfg, start) + |sent| < |cfg.source|
    ensures var log := cfg.source[First(cfg, start) + |sent|];
      IsStretch(cfg, start, sent + [log], PutId(cache, cfg.capacity, log.id), Max(lastSeen, log.timestamp))
  {
    var b := First(cfg, start) + |sent|;
    PutRecent(cfg.source, First(cfg, start), b, cfg.capacity);
    OneLogMore(cfg.source, First(cfg, start), b);
    NewestOfMore(cfg, start, b);
  }

  lemma CachedIffSent(cfg: Config, s: State, start: nat)
    requires Stretch(cfg, s, start) && BatchOnStretch(cfg, s, start) && s.phase.Sending? && s.phase.batch != []
    ensures s.phase.batch[0] == cfg.source[s.phase.position]
    ensures s.phase.batch[0].id in s.cache <==> s.phase.position < First(cfg, start) + |s.sent|
  {
    var a, b, pos := First(cfg, start), First(cfg, start) + |s.sent|, s.phase.position;
    RestIsSlice(cfg, s.phase, 0);
    if pos < b {
      assert s.cache[b - 1 - pos] == cfg.source[pos].id;
    } else {
      PutRecent(cfg.source, a, b, cfg.capacity);
    }
  }

  /** The rest of the batch stays within reach, whether its first log was skipped or sent. */
  lemma RestWithinReach(cfg: Config, phase: Phase, n: nat, a: nat, b: nat, b': nat)
    requires phase.Sending? && phase.batch != [] && WithinReach(cfg, phase, a, b)
    requires b' == if phase.position < b then b else b + 1
    ensures WithinReach(cfg, Sending(phase.batch[1..], n, phase.position + 1), a, b')
  {
    RestIsSlice(cfg, phase, n);
  }

  lemma NextKeepsStretch(cfg: Config, s: State, start: nat, delivered: bool)
    requires Stretch(cfg, s, start) && BatchOnStretch(cfg, s, start) && s.phase.Sending?
    ensures var s' := NextStep(cfg, s, delivered); Stretch(cfg, s', start) && BatchOnStretch(cfg, s', start)
  {
    var s', batch := NextStep(cfg, s, delivered), s.phase.batch;
    var a, b := First(cfg, start), First(cfg, start) + |s.sent|;
    if batch != [] {
      CachedIffSent(cfg, s, start);
      if batch[0].id in s.cache {
        RestWithinReach(cfg, s.phase, s.phase.sentNow, a, b, b);
      } else if delivered {
        SendExtends(cfg, start, s.sent, s.cache, s.lastSeen);
        RestWithinReach(cfg, s.phase, s.phase.sentNow + 1, a, b, b + 1);
      }
    }
  }

  lemma {:induction false} RunKeepsStretch(cfg: Config, s: State, start: nat, events: seq<Event>)
    requires Narrow(cfg) && Stretch(cfg, s, start) && BatchOnStretch(cfg, s, start)
    requires Run(cfg, s, events).Some? && CrashFree(events)
    ensures Stretch(cfg, Run(cfg, s, events).value, start)
    decreases |events|
  {
    if events != [] {
      match events[0] {
        case Poll(now, fetched) => PollKeepsStretch(cfg, s, start, Until(cfg, s.lastSeen, now), fetched);
        case Next(delivered) => NextKeepsStretch(cfg, s, start, delivered);
        case _ =>
      }
      RunKeepsStretch(cfg, Apply(cfg, s, events[0]).value, start, events[1..]);
    }
  }

  /** If the cache is as large as the busiest second, a crash-free process sends the source from one
      second before its boot on: contiguous, in order, each log once, whatever fails on the way. */
  lemma SentIsAStretchOfTheSource(cfg: Config, boot: nat, events: seq<Event>)
    requires StableSource(cfg.source) && Narrow(cfg)
    requires Run(cfg, Boot(boot), events).Some? && CrashFree(events)
    ensures var end := Run(cfg, Boot(boot), events).value;
      var a := First(cfg, boot);
      && a + |end.sent| <= |cfg.source|
      && end.sent == cfg.source[a..a + |end.sent|]
  {
    OlderThanSplits(cfg.source, Since(boot));
    RunKeepsStretch(cfg, Boot(boot), boot, events);
  }

  // ---------- The condition is necessary ----------

  ghost predicate SentTwice(s: State) {
    exists i, j :: 0 <= i < j < |s.sent| && s.sent[i].id == s.sent[j].id
  }

  ghost predicate CanRepeat(cfg: Config) {
    exists boot, events :: RepeatingRun(cfg, boot, events)
  }

  ghost predicate RepeatingRun(cfg: Config, boot: nat, events: seq<Event>) {
    && CrashFree(events)
    && Run(cfg, Boot(boot), events).Some?
    && SentTwice(Run(cfg, Boot(boot), events).value)
  }

  /** Windows are at least three seconds long and times stay within a u64 of seconds. */
  ghost predicate Realistic(cfg: Config) {
    && cfg.maxSpan >= 3
    && forall i :: 0 <= i < |cfg.source| ==> cfg.source[i].timestamp / SECOND + cfg.maxSpan < TWO_64
  }

  /** A clock late enough that only the length cap ends the window. */
  function LateClock(cfg: Config, lastSeen: nat): nat {
    cfg.canonTime + Since(lastSeen) / SECOND + cfg.maxSpan
  }

  lemma LateWindow(cfg: Config, lastSeen: nat)
    requires cfg.maxSpan >= 3 && lastSeen / SECOND + cfg.maxSpan < TWO_64
    ensures lastSeen + SECOND <= Until(cfg, lastSeen, LateClock(cfg, lastSeen))
  {
    var secs := Since(lastSeen) / SECOND;
    assert secs <= lastSeen / SECOND;
    assert AsU64(secs + cfg.maxSpan) == secs + cfg.maxSpan;
    assert lastSeen < (secs + 2) * SECOND;
  }

  /** New logs are sent one after the other. */
  lemma {:induction false} SendNew(cfg: Config, s: State, start: nat, k: nat) returns (events: seq<Event>)
    requires Stretch(cfg, s, start) && BatchOnStretch(cfg, s, start) && s.phase.Sending?
    requires s.phase.position == First(cfg, start) + |s.sent| && k <= |s.phase.batch|
    ensures CrashFree(events)
    ensures Run(cfg, s, events).Some?
    ensures var end := Run(cfg, s, events).value;
      && Stretch(cfg, end, start) && BatchOnStretch(cfg, end, start) && end.phase.Sending?
      && end.phase.position == First(cfg, start) + |end.sent|
      && |end.sent| == |s.sent| + k && |end.phase.batch| == |s.phase.batch| - k
      && (s.phase.sentNow + k > 0 ==> end.phase.sentNow > 0)
    decreases k
  {
    if k == 0 {
      events := [];
    } else {
      NextKeepsStretch(cfg, s, start, true);
      CachedIffSent(cfg, s, start);
      var s' := NextStep(cfg, s, true);
      var rest := SendNew(cfg, s', start, k - 1);
      RunOfMore(cfg, s, Next(true), rest);
      events := [Next(true)] + rest;
    }
  }

  /** Once every log of the batch is sent, the progress is stored. */
  lemma StoreAndPoll(cfg: Config, s: State) returns (events: seq<Event>)
    requires s.phase.Sending? && s.phase.batch == [] && s.phase.sentNow > 0
    ensures CrashFree(events)
    ensures Run(cfg, s, events) == Some(s.(phase := Polling,
      savedLastSeen := Some(s.lastSeen), savedSeen := Some(s.cache), marked := |s.sent|, complete := |s.sent|))
  {
    var s1 := NextStep(cfg, s, true);
    var s2 := Apply(cfg, s1, SaveLastSeen(true)).value;
    RunOfOne(cfg, s2, SaveSeen(true));
    RunOfMore(cfg, s1, SaveLastSeen(true), [SaveSeen(true)]);
    RunOfMore(cfg, s, Next(true), [SaveLastSeen(true)] + [SaveSeen(true)]);
    events := [Next(true)] + ([SaveLastSeen(true)] + [SaveSeen(true)]);
  }

  /** End the batch after a send: either the next send fails, or the progress is stored. */
  lemma BackToPolling(cfg: Config, s: State, start: nat) returns (events: seq<Event>)
    requires Stretch(cfg, s, start) && BatchOnStretch(cfg, s, start) && s.phase.Sending? && s.phase.sentNow > 0
    requires s.phase.position == First(cfg, start) + |s.sent|
    ensures CrashFree(events)
    ensures Run(cfg, s, events).Some? && Run(cfg, s, events).value.phase.Polling?
    ensures var end := Run(cfg, s, events).value;
      end.sent == s.sent && end.cache == s.cache && end.lastSeen == s.lastSeen
  {
    if s.phase.batch != [] {
      CachedIffSent(cfg, s, start);
      RunOfOne(cfg, s, Next(false));
      events := [Next(false)];
    } else {
      events := StoreAndPoll(cfg, s);
    }
  }

  /** Any poll with a late clock starts a batch at the window's first log, if there is one. */
  lemma LatePollStartsBatch(cfg: Config, s: State, j: nat) returns (poll: Event)
    requires StableSource(cfg.source) && cfg.maxSpan >= 3 && s.lastSeen / SECOND + cfg.maxSpan < TWO_64
    requires s.phase.Polling? && j < |cfg.source|
    requires Since(s.lastSeen) <= cfg.source[j].timestamp <= s.lastSeen + SECOND
    ensures poll.Poll?
    ensures var lo := OlderThan(cfg.source, Since(s.lastSeen));
      && lo <= j && Apply(cfg, s, poll).Some?
      && var s' := Apply(cfg, s, poll).value;
      && s' == s.(phase := s'.phase) && s'.phase.Sending? && s'.phase.sentNow == 0
      && s'.phase.position == lo && j < lo + |s'.phase.batch| && BatchIsSlice(cfg, s'.phase)
  {
    var now := LateClock(cfg, s.lastSeen);
    LateWindow(cfg, s.lastSeen);
    OlderThanSplits(cfg.source, Since(s.lastSeen));
    OlderThanSplits(cfg.source, Until(cfg, s.lastSeen, now) + 1);
    poll := Poll(now, true);
  }

  /** Boot at log `i`, send up to log `j`, and return to polling. */
  lemma SendUpTo(cfg: Config, i: nat, j: nat) returns (events: seq<Event>)
    requires StableSource(cfg.source) && Realistic(cfg)
    requires i <= j < |cfg.source| && cfg.source[j].timestamp - cfg.source[i].timestamp <= SECOND
    ensures CrashFree(events)
    ensures Run(cfg, Boot(cfg.source[i].timestamp), events).Some?
    ensures var start := cfg.source[i].timestamp;
      var end := Run(cfg, Boot(start), events).value;
      && end.phase.Polling? && Stretch(cfg, end, start)
      && First(cfg, start) <= i && First(cfg, start) + |end.sent| == j + 1
  {
    var start := cfg.source[i].timestamp;
    var poll := LatePollStartsBatch(cfg, Boot(start), j);
    OlderThanSplits(cfg.source, Since(start));
    var s1 := Apply(cfg, Boot(start), poll).value;
    assert Stretch(cfg, s1, start) && BatchOnStretch(cfg, s1, start);
    var sends := SendNew(cfg, s1, start, j + 1 - First(cfg, start));
    var s2 := Run(cfg, s1, sends).value;
    var back := BackToPolling(cfg, s2, start);
    RunOfConcat(cfg, s1, sends, back);
    RunOfMore(cfg, Boot(start), poll, sends + back);
    events := [poll] + (sends + back);
  }

  /** With log `i` just evicted, the next poll sends it, or one before it, again. */
  lemma SendAgain(cfg: Config, s: State, start: nat, i: nat, j: nat) returns (again: seq<Event>)
    requires StableSource(cfg.source) && Realistic(cfg) && Stretch(cfg, s, start) && s.phase.Polling?
    requires i <= j < |cfg.source| && j - i == cfg.capacity && start == cfg.source[i].timestamp
    requires cfg.source[j].timestamp - cfg.source[i].timestamp <= SECOND
    requires First(cfg, start) <= i && First(cfg, start) + |s.sent| == j + 1
    ensures CrashFree(again)
    ensures Run(cfg, s, again).Some? && SentTwice(Run(cfg, s, again).value)
  {
    var a := First(cfg, start);
    assert s.lastSeen == cfg.source[j].timestamp;
    var poll := LatePollStartsBatch(cfg, s, j);
    OlderThanSplits(cfg.source, Since(s.lastSeen));
    OlderThanIsMonotone(cfg.source, Since(start), Since(s.lastSeen));
    var lo := OlderThan(cfg.source, Since(s.lastSeen));
    var s1 := Apply(cfg, s, poll).value;
    assert a <= lo <= i && s1.phase.batch[0] == cfg.source[lo];
    assert cfg.source[lo].id !in s.cache;
    var s2 := NextStep(cfg, s1, true);
    assert s2.sent[lo - a].id == s2.sent[|s.sent|].id;
    RunOfOne(cfg, s1, Next(true));
    RunOfMore(cfg, s, poll, [Next(true)]);
    again := [poll] + [Next(true)];
  }

  lemma WideSecondRun(cfg: Config, i: nat, j: nat) returns (events: seq<Event>)
    requires StableSource(cfg.source) && Realistic(cfg)
    requires i <= j < |cfg.source| && cfg.source[j].timestamp - cfg.source[i].timestamp <= SECOND
    requires j - i == cfg.capacity
    ensures RepeatingRun(cfg, cfg.source[i].timestamp, events)
  {
    var start := cfg.source[i].timestamp;
    var sends := SendUpTo(cfg, i, j);
    var again := SendAgain(cfg, Run(cfg, Boot(start), sends).value, start, i, j);
    RunOfConcat(cfg, Boot(start), sends, again);
    events := sends + again;
  }

  /** A process booted at the first log of a second that is too busy sends a log twice. */
  lemma TooBusyRun(cfg: Config) returns (start: nat, events: seq<Event>)
    requires StableSource(cfg.source) && Realistic(cfg) && !Narrow(cfg)
    ensures RepeatingRun(cfg, start, events) && start / SECOND + cfg.maxSpan < TWO_64
  {
    var i, j :| 0 <= i <= j < |cfg.source| && cfg.source[j].timestamp - cfg.source[i].timestamp <= SECOND
      && j - i >= cfg.capacity;
    assert cfg.source[i + cfg.capacity].timestamp <= cfg.source[j].timestamp;
    start := cfg.source[i].timestamp;
    events := WideSecondRun(cfg, i, i + cfg.capacity);
  }

  lemma NarrowNeverRepeats(cfg: Config)
    requires StableSource(cfg.source) && Narrow(cfg)
    ensures !CanRepeat(cfg)
  {
    if CanRepeat(cfg) {
      var boot, events :| RepeatingRun(cfg, boot, events);
      SentIsAStretchOfTheSource(cfg, boot, events);
      assert false;
    }
  }

  /** Exactly when the cache is too small for some second of the source, some crash-free run sends a
      log twice. */
  lemma RepeatsIffCacheTooSmall(cfg: Config)
    requires StableSource(cfg.source) && Realistic(cfg)
    ensures CanRepeat(cfg) <==> !Narrow(cfg)
  {
    if !Narrow(cfg) {
      var start, events := TooBusyRun(cfg);
    }
    if Narrow(cfg) {
      NarrowNeverRepeats(cfg);
    }
  }
}
