/** Restarting a data generator from its checkpoint: which restarts can lose logs? */
module Recovery {
  import opened Machine
  import opened DataGenerator

  /** The stored state is only ignored for a reason. */
  predicate Possible(kind: Recovery) {
    kind.Ignored? ==> !kind.markStored || !kind.idsStored || kind.recalled != AllRecalled
  }

  /** Some log since the start was never sent and lies before every window to come. */
  ghost predicate Loses(cfg: Config, start: nat, s: State) {
    exists i :: 0 <= i < |cfg.source| &&
      start <= cfg.source[i].timestamp < Since(s.lastSeen) && cfg.source[i] !in s.sent
  }

  ghost predicate LosingRun(cfg: Config, boot: nat, events: seq<Event>, kind: Recovery) {
    && StableSource(cfg.source)
    && Run(cfg, Boot(boot), events).Some? && CrashesAre(cfg, Boot(boot), events, kind)
    && Loses(cfg, boot, Run(cfg, Boot(boot), events).value)
  }

  /** With these settings, some source and history whose restarts are all of this kind lose a log. */
  ghost predicate CanLose(settings: Config, kind: Recovery) {
    exists source, boot, events :: LosingRun(settings.(source := source), boot, events, kind)
  }

  /** Windows are at least two seconds long, and the settings are far from the end of a u64. */
  predicate Sane(cfg: Config) {
    cfg.maxSpan >= 2 && cfg.maxSpan + 9 < TWO_64 && cfg.maxCatchup + 5 < TWO_64
  }

  // ---------- Restarts that take up the state are safe ----------

  lemma ResumingLosesNothing(settings: Config)
    ensures !CanLose(settings, Resumed)
  {
    if CanLose(settings, Resumed) {
      var source, boot, events :| LosingRun(settings.(source := source), boot, events, Resumed);
      NoLogIsLost(settings.(source := source), boot, events);
      assert false;
    }
  }

  // ---------- All others are not ----------

  const FIRST := Log("a", 10 * SECOND, [])
  const SECOND_LOG := Log("b", 12 * SECOND, [])

  function TwoLogs(settings: Config): Config {
    settings.(source := [FIRST, SECOND_LOG])
  }

  lemma {:induction false} LastCrash(
      cfg: Config, s: State, before: seq<Event>, now: nat, recalled: Recalled, kind: Recovery)
    requires Run(cfg, s, before).Some? && CrashFree(before)
    requires RecoveryOf(cfg, Run(cfg, s, before).value, now, recalled) == kind
    ensures CrashesAre(cfg, s, before + [Crash(now, recalled)], kind)
    ensures Run(cfg, s, before + [Crash(now, recalled)]) ==
      Some(Restart(cfg, Run(cfg, s, before).value, now, recalled))
    decreases |before|
  {
    var events := before + [Crash(now, recalled)];
    if before == [] {
      assert events == [Crash(now, recalled)] && events[1..] == [];
    } else {
      assert events[0] == before[0] && events[1..] == before[1..] + [Crash(now, recalled)];
      LastCrash(cfg, Apply(cfg, s, before[0]).value, before[1..], now, recalled, kind);
    }
  }

  /** The first log is fetched and sent, the second one is not there yet. */
  lemma FirstLogIsSent(settings: Config) returns (events: seq<Event>)
    requires Sane(settings)
    ensures var cfg := TwoLogs(settings); CrashFree(events) && Run(cfg, Boot(10 * SECOND), events).Some?
    ensures var s := Run(TwoLogs(settings), Boot(10 * SECOND), events).value;
      && s.phase == SavingLastSeen && s.sent == [FIRST] && s.lastSeen == 10 * SECOND
      && s.savedLastSeen == None && s.savedSeen == None
  {
    var cfg, s0 := TwoLogs(settings), Boot(10 * SECOND);
    assert cfg.source[1..] == [SECOND_LOG] && cfg.source[1..][1..] == [];
    assert OlderThan(cfg.source, 9 * SECOND) == 0 && OlderThan(cfg.source, 11 * SECOND + 1) == 1;
    assert Since(s0.lastSeen) == 9 * SECOND;
    var now := cfg.canonTime + 11;
    assert Until(cfg, s0.lastSeen, now) == 11 * SECOND;
    assert cfg.source[0..1] == [FIRST];
    var s1 := s0.(phase := Sending([FIRST], 0, 0));
    assert Apply(cfg, s0, Poll(now, true)) == Some(s1);
    assert [FIRST][1..] == [];
    var s2 := NextStep(cfg, s1, true);
    assert s2.phase == Sending([], 1, 1) && s2.sent == [FIRST];
    RunOfOne(cfg, s2, Next(true));
    RunOfMore(cfg, s1, Next(true), [Next(true)]);
    RunOfMore(cfg, s0, Poll(now, true), [Next(true)] + [Next(true)]);
    events := [Poll(now, true)] + ([Next(true)] + [Next(true)]);
  }

  /** What a first checkpoint leaves behind, depending on which of its writes succeed. */
  lemma FirstCheckpoint(settings: Config, markStored: bool, idsStored: bool) returns (events: seq<Event>)
    requires Sane(settings)
    ensures var cfg := TwoLogs(settings); CrashFree(events) && Run(cfg, Boot(10 * SECOND), events).Some?
    ensures var s := Run(TwoLogs(settings), Boot(10 * SECOND), events).value;
      && s.sent == [FIRST]
      && s.savedLastSeen == (if markStored then Some(10 * SECOND) else None)
      && s.savedSeen.Some? == idsStored
  {
    var cfg, s0 := TwoLogs(settings), Boot(10 * SECOND);
    var sends := FirstLogIsSent(settings);
    RunOneMore(cfg, s0, sends, SaveLastSeen(markStored));
    var marked := sends + [SaveLastSeen(markStored)];
    RunOneMore(cfg, s0, marked, SaveSeen(idsStored));
    events := marked + [SaveSeen(idsStored)];
  }

  lemma UnsafeRestartLoses(settings: Config, kind: Recovery) returns (events: seq<Event>)
    requires Sane(settings) && Possible(kind) && kind != Resumed
    ensures LosingRun(TwoLogs(settings), 10 * SECOND, events, kind)
  {
    var cfg, s0 := TwoLogs(settings), Boot(10 * SECOND);
    var markStored, idsStored := kind.TooOld? || kind.markStored, kind.TooOld? || kind.idsStored;
    var recalled := if kind.TooOld? then AllRecalled else kind.recalled;
    var now := if kind.TooOld? then (cfg.maxCatchup + 15) * SECOND else 15 * SECOND;
    var before := FirstCheckpoint(settings, markStored, idsStored);
    var s := Run(cfg, s0, before).value;
    if kind.TooOld? {
      assert now - 10 * SECOND == (cfg.maxCatchup + 5) * SECOND;
      assert AgeInSeconds(now, 10 * SECOND) == cfg.maxCatchup + 5;
    }
    assert RecoveryOf(cfg, s, now, recalled) == kind;
    LastCrash(cfg, s0, before, now, recalled, kind);
    events := before + [Crash(now, recalled)];
    var end := Restart(cfg, s, now, recalled);
    assert end.lastSeen == 15 * SECOND && end.sent == [FIRST];
    assert cfg.source[1] == SECOND_LOG && SECOND_LOG !in end.sent;
  }

  /** What a restart jumped over is not made up for by the process it starts. */
  lemma LostForGood(
      cfg: Config, boot: nat, history: seq<Event>, now: nat, recalled: Recalled, later: seq<Event>, log: Log)
    requires StableSource(cfg.source) && Run(cfg, Boot(boot), history).Some? && CrashFree(later)
    requires Run(cfg, Restart(cfg, Run(cfg, Boot(boot), history).value, now, recalled), later).Some?
    requires var restarted := Restart(cfg, Run(cfg, Boot(boot), history).value, now, recalled);
      log !in restarted.sent && log.timestamp < Since(restarted.lastSeen)
    ensures log !in Run(cfg, Restart(cfg, Run(cfg, Boot(boot), history).value, now, recalled), later).value.sent
  {
    RunKeepsForward(cfg, Boot(boot), history);
    var s := Run(cfg, Boot(boot), history).value;
    StepKeepsForward(cfg, s, Crash(now, recalled));
    SkippedStaysUnsent(cfg, Restart(cfg, s, now, recalled), log, later);
  }

  /** Restarts that do not take up the stored state, for whatever reason, can lose a log; those that do
      cannot. */
  lemma LosesIffNotResumed(settings: Config, kind: Recovery)
    requires Sane(settings) && Possible(kind)
    ensures CanLose(settings, kind) <==> kind != Resumed
  {
    if kind == Resumed {
      ResumingLosesNothing(settings);
    } else {
      var events := UnsafeRestartLoses(settings, kind);
      assert LosingRun(settings.(source := [FIRST, SECOND_LOG]), 10 * SECOND, events, kind);
    }
  }

  /** With a stored mark, a restart goes back to it, or further, exactly when it takes up the stored
      state or the clock is not ahead of the mark. */
  lemma RestartGoesBackIffResumed(cfg: Config, s: State, now: nat, recalled: Recalled)
    requires s.savedLastSeen.Some? && now / SECOND < TWO_64
    ensures Restart(cfg, s, now, recalled).lastSeen <= s.savedLastSeen.value <==>
      RecoveryOf(cfg, s, now, recalled) == Resumed || now <= s.savedLastSeen.value
  {
    var stored := s.savedLastSeen.value;
    if RecoveryOf(cfg, s, now, recalled) == TooOld {
      assert (now - stored) / SECOND >= cfg.maxCatchup + 1;
      assert now - stored >= (cfg.maxCatchup + 1) * SECOND;
    }
  }
}
