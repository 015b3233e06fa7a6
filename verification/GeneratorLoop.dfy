/** The polling loop of a data generator and its recovery from storage. An activation is a run of the
    step system, so that everything proved about runs holds of it. */
module GeneratorLoop {
  import opened Machine
  import opened DataGenerator

  /** What the world does in one round of the loop: the clock, whether the query is answered, how many
      sends the executor still accepts, and whether the two checkpoint writes succeed. */
  datatype Round = Round(now: nat, fetched: bool, accepts: nat, lastSeenStored: bool, seenStored: bool)

  // ---------- What one activation amounts to ----------

  /** Send the logs of the batch that are new, until the executor refuses one. */
  function Drain(cfg: Config, s: State, accepts: nat): State
    requires s.phase.Sending?
    decreases |s.phase.batch|
  {
    if s.phase.batch == [] then s
    else
      var s' := NextStep(cfg, s, s.phase.sentNow < accepts);
      if s'.phase.Sending? then Drain(cfg, s', accepts) else s'
  }

  lemma DrainOne(cfg: Config, s: State, accepts: nat)
    requires s.phase.Sending? && s.phase.batch != []
    ensures var s' := NextStep(cfg, s, s.phase.sentNow < accepts);
      Drain(cfg, s, accepts) == if s'.phase.Sending? then Drain(cfg, s', accepts) else s'
  {
  }

  /** The two checkpoint writes, one after the other; a failed one is only logged. */
  function Checkpoint(cfg: Config, s: State, round: Round): State {
    Apply(cfg, Apply(cfg, s.(phase := SavingLastSeen), SaveLastSeen(round.lastSeenStored)).value,
          SaveSeen(round.seenStored)).value
  }

  /** One round, and how the activation ends with it, if it does. */
  function OneRound(cfg: Config, s: State, round: Round): (State, Option<bool>) {
    var polled := PollStep(cfg, s.(phase := Polling), round.now, round.fetched);
    if Until(cfg, s.lastSeen, round.now) < s.lastSeen then (polled, Some(true))
    else if !round.fetched then (polled, Some(false))
    else if !polled.phase.Sending? then (polled, Some(true))
    else
      var drained := Drain(cfg, polled, round.accepts);
      if !drained.phase.Sending? then (drained, Some(false))
      else if drained.phase.sentNow == 0 then (drained.(phase := Polling), Some(true))
      else (Checkpoint(cfg, drained, round), None)
  }

  function Activation(cfg: Config, s: State, rounds: seq<Round>): (State, bool)
    decreases |rounds|
  {
    if rounds == [] then (s, true)
    else
      var (s', ended) := OneRound(cfg, s, rounds[0]);
      if ended.Some? then (s', ended.value) else Activation(cfg, s', rounds[1..])
  }

  // ---------- What the verdict means ----------

  /** The log was known already, or was sent since. */
  ghost predicate Handled(s: State, end: State, l: Log) {
    l.id in s.cache || exists i :: |s.sent| <= i < |end.sent| && end.sent[i].id == l.id
  }

  lemma HandledEarlier(cfg: Config, s: State, end: State, l: Log)
    requires s.phase.Sending? && s.phase.batch != [] && s.phase.batch[0].id !in s.cache
    requires Handled(NextStep(cfg, s, true), end, l) && NextStep(cfg, s, true).sent <= end.sent
    ensures Handled(s, end, l)
  {
    var head := s.phase.batch[0];
    PutIds(s.cache, cfg.capacity, head.id);
    assert end.sent[|s.sent|] == NextStep(cfg, s, true).sent[|s.sent|] == head;
  }

  /** Draining a batch handles all of it, or ends with the send after the last one that is accepted. */
  lemma {:induction false} DrainHandles(cfg: Config, s: State, accepts: nat)
    requires s.phase.Sending? && s.phase.sentNow <= accepts
    ensures var end := Drain(cfg, s, accepts);
      && s.sent <= end.sent
      && (end.phase.Sending? ==> end.phase.sentNow == s.phase.sentNow + |end.sent| - |s.sent|)
      && (end.phase.Sending? ==> forall l :: l in s.phase.batch ==> Handled(s, end, l))
      && (!end.phase.Sending? ==> s.phase.sentNow + |end.sent| - |s.sent| == accepts)
    decreases |s.phase.batch|
  {
    if s.phase.batch != [] {
      var s', end := NextStep(cfg, s, s.phase.sentNow < accepts), Drain(cfg, s, accepts);
      var head, rest := s.phase.batch[0], s.phase.batch[1..];
      if s'.phase.Sending? {
        DrainHandles(cfg, s', accepts);
        if end.phase.Sending? {
          forall l | l in s.phase.batch ensures Handled(s, end, l) {
            if l in rest && head.id !in s.cache {
              HandledEarlier(cfg, s, end, l);
            } else if l !in rest {
              assert l == head;
              assert head.id !in s.cache ==> end.sent[|s.sent|] == head;
            }
          }
        }
      }
    }
  }

  /** How a round ends: with an error exactly when the query was not answered or the executor accepted no more,
      with success when nothing was sent, and otherwise the loop goes on; unless there was an error or no window
      yet, everything in the window was known or has been sent. */
  lemma RoundVerdict(cfg: Config, s: State, round: Round)
    requires s.phase.Polling?
    ensures var (end, ended) := OneRound(cfg, s, round);
      && s.sent <= end.sent
      && (ended == Some(false) ==> !round.fetched || |end.sent| - |s.sent| == round.accepts)
      && (ended == Some(true) ==> end.sent == s.sent)
      && (ended.None? ==> |s.sent| < |end.sent|)
      && var until := Until(cfg, s.lastSeen, round.now);
      && (until < s.lastSeen ==> ended == Some(true) && end == s)
      && (until >= s.lastSeen && ended != Some(false) ==>
            && round.fetched
            && forall l :: l in Fetch(cfg.source, Since(s.lastSeen), until) ==> Handled(s, end, l))
  {
    var polled := PollStep(cfg, s, round.now, round.fetched);
    assert s.(phase := Polling) == s;
    if polled.phase.Sending? {
      DrainHandles(cfg, polled, round.accepts);
    }
  }

  /** An activation that reports success ended with a round that found nothing new; one that reports an error
      ended with an unanswered query or a refused send; the rounds before them all sent something. */
  lemma {:induction false} ActivationVerdict(cfg: Config, s: State, rounds: seq<Round>)
    requires s.phase.Polling? && rounds != []
    ensures var (end, ok) := Activation(cfg, s, rounds);
      && s.sent <= end.sent
      && (!ok ==> exists r, from :: r in rounds && LastRound(cfg, from, r, end, false))
      && (ok ==> |end.sent| - |s.sent| >= |rounds|
                 || exists r, from :: r in rounds && LastRound(cfg, from, r, end, true))
    decreases |rounds|
  {
    var (s', ended) := OneRound(cfg, s, rounds[0]);
    RoundVerdict(cfg, s, rounds[0]);
    var events := RoundIsRun(cfg, s, s, rounds[0], []);
    if ended.Some? {
      assert LastRound(cfg, s, rounds[0], s', ended.value);
    } else if rounds[1..] != [] {
      ActivationVerdict(cfg, s', rounds[1..]);
      var (end, ok) := Activation(cfg, s', rounds[1..]);
      if r, from :| r in rounds[1..] && LastRound(cfg, from, r, end, ok) {
        assert r in rounds;
      }
    }
  }

  ghost predicate LastRound(cfg: Config, from: State, r: Round, end: State, ok: bool) {
    from.phase.Polling? && OneRound(cfg, from, r) == (end, Some(ok))
  }

  // ---------- Every activation is a run ----------

  lemma {:induction false} DrainIsRun(cfg: Config, start: State, s: State, accepts: nat, before: seq<Event>)
    returns (events: seq<Event>)
    requires s.phase.Sending? && Run(cfg, start, before) == Some(s) && CrashFree(before)
    ensures Run(cfg, start, events) == Some(Drain(cfg, s, accepts)) && CrashFree(events)
    ensures !Drain(cfg, s, accepts).phase.Sending? ==> Drain(cfg, s, accepts).phase.Polling?
    ensures Drain(cfg, s, accepts).phase.Sending? ==> Drain(cfg, s, accepts).phase.batch == []
    decreases |s.phase.batch|
  {
    events := before;
    if s.phase.batch != [] {
      var e := Next(s.phase.sentNow < accepts);
      RunOneMore(cfg, start, before, e);
      events := before + [e];
      var s' := NextStep(cfg, s, s.phase.sentNow < accepts);
      if s'.phase.Sending? {
        events := DrainIsRun(cfg, start, s', accepts, events);
      }
    }
  }

  lemma CheckpointIsRun(cfg: Config, start: State, s: State, round: Round, before: seq<Event>)
    returns (events: seq<Event>)
    requires s.phase.Sending? && s.phase.batch == [] && s.phase.sentNow > 0
    requires Run(cfg, start, before) == Some(s) && CrashFree(before)
    ensures Run(cfg, start, events) == Some(Checkpoint(cfg, s, round)) && CrashFree(events)
  {
    RunOneMore(cfg, start, before, Next(true));
    var one := before + [Next(true)];
    RunOneMore(cfg, start, one, SaveLastSeen(round.lastSeenStored));
    var two := one + [SaveLastSeen(round.lastSeenStored)];
    RunOneMore(cfg, start, two, SaveSeen(round.seenStored));
    events := two + [SaveSeen(round.seenStored)];
  }

  lemma RoundIsRun(cfg: Config, start: State, s: State, round: Round, before: seq<Event>) returns (events: seq<Event>)
    requires s.phase.Polling? && Run(cfg, start, before) == Some(s) && CrashFree(before)
    ensures Run(cfg, start, events) == Some(OneRound(cfg, s, round).0) && CrashFree(events)
    ensures OneRound(cfg, s, round).0.phase.Polling?
  {
    var poll := Poll(round.now, round.fetched);
    var polled := PollStep(cfg, s, round.now, round.fetched);
    assert s.(phase := Polling) == s;
    RunOneMore(cfg, start, before, poll);
    events := before + [poll];
    if polled.phase.Sending? {
      var drained := Drain(cfg, polled, round.accepts);
      events := DrainIsRun(cfg, start, polled, round.accepts, events);
      if drained.phase.Sending? {
        if drained.phase.sentNow == 0 {
          RunOneMore(cfg, start, events, Next(true));
          events := events + [Next(true)];
        } else {
          events := CheckpointIsRun(cfg, start, drained, round, events);
        }
      }
    }
  }

  /** One activation is a crash-free run of steps from polling to polling, whichever way it ends. */
  lemma {:induction false} ActivationIsRun(cfg: Config, start: State, s: State, rounds: seq<Round>, before: seq<Event>)
    returns (events: seq<Event>)
    requires s.phase.Polling? && Run(cfg, start, before) == Some(s) && CrashFree(before)
    ensures Run(cfg, start, events) == Some(Activation(cfg, s, rounds).0) && CrashFree(events)
    ensures Activation(cfg, s, rounds).0.phase.Polling?
    decreases |rounds|
  {
    events := before;
    if rounds != [] {
      var (s', ended) := OneRound(cfg, s, rounds[0]);
      events := RoundIsRun(cfg, start, s, rounds[0], before);
      if ended.None? {
        events := ActivationIsRun(cfg, start, s', rounds[1..], events);
      }
    }
  }

  lemma {:induction false} CrashFreeIsSafe(cfg: Config, s: State, events: seq<Event>)
    requires CrashFree(events)
    ensures CrashesAre(cfg, s, events, Resumed)
    decreases |events|
  {
    if events != [] && Apply(cfg, s, events[0]).Some? {
      CrashFreeIsSafe(cfg, Apply(cfg, s, events[0]).value, events[1..]);
    }
  }

  /** Hence an activation opens no gap, whatever the clock, the source, the executor and the storage do. */
  lemma ActivationKeepsGapFree(cfg: Config, s: State, start: nat, rounds: seq<Round>)
    requires GapFree(cfg, s, start) && s.phase.Polling?
    ensures GapFree(cfg, Activation(cfg, s, rounds).0, start)
  {
    var events := ActivationIsRun(cfg, s, s, rounds, []);
    CrashFreeIsSafe(cfg, s, events);
    ResumedJumpsNowhere(cfg, s, events, start);
    RunKeepsGapFree(cfg, s, start, events);
  }

  // ---------- The loop itself ----------

  class Generator {
    const cfg: Config
    var lastSeen: nat
    var seen: seq<string>
    var sent: seq<Log>
    var savedLastSeen: Option<nat>
    var savedSeen: Option<seq<string>>
    ghost var boot: nat
    ghost var mark: nat
    ghost var restored: set<string>
    ghost var marked: nat
    ghost var complete: nat

    constructor (cfg: Config, now: nat)
      ensures this.cfg == cfg && At(Polling) == Boot(now)
    {
      this.cfg := cfg;
      lastSeen, seen, sent, savedLastSeen, savedSeen := now, [], [], None, None;
      boot, mark, restored, marked, complete := 0, now, {}, 0, 0;
    }

    /** The state as the step system sees it, at a given point of the loop. */
    ghost function At(phase: Phase): State
      reads this
    {
      State(lastSeen, seen, phase, savedLastSeen, savedSeen, sent, boot, mark, restored, marked, complete)
    }

    method MarkAlreadySeen(id: string)
      modifies this`seen
      ensures seen == PutId(old(seen), cfg.capacity, id)
    {
      seen := PutId(seen, cfg.capacity, id);
    }

    /** Recovery after a crash takes the step system's restart. */
    method UpdateFromStorage(now: nat, recalled: Recalled)
      modifies this
      ensures At(Polling) == Restart(cfg, old(At(Polling)), now, recalled)
    {
      seen := [];
      var stored := if recalled.mark then savedLastSeen else None;
      var seenIds := if recalled.ids then savedSeen else None;
      if stored.Some? && seenIds.Some? {
        lastSeen := if recalled.parsed then stored.value else now;
        if Capped(cfg, now, lastSeen) {
          lastSeen := SaturatingSub(now, cfg.maxCatchup * SECOND);
        }
        restored := set x | x in seenIds.value;
        var ids := seenIds.value;
        for i := 0 to |ids|
          invariant Reload(seen, cfg.capacity, ids[i..]) == Reload([], cfg.capacity, ids)
          modifies `seen
        {
          assert ids[i..][1..] == ids[i + 1..];
          MarkAlreadySeen(ids[i]);
        }
        assert ids[|ids|..] == [];
      } else {
        lastSeen := now;
        restored := {};
      }
      boot, mark := |sent|, lastSeen;
    }

    /** The state while a batch is sent, or after a refused send. */
    ghost function Midway(failed: bool, rest: seq<Log>, sentNow: nat, position: nat): State
      reads this
    {
      At(if failed then Polling else Sending(rest, sentNow, position))
    }

    /** One log of the batch: skipped, refused or sent. */
    method SendOne(log: Log, ghost rest: seq<Log>, ghost position: nat, sentBefore: nat, accepts: nat)
      returns (failed: bool, sentNow: nat)
      modifies this
      ensures Midway(failed, rest, sentNow, position + 1)
        == NextStep(cfg, old(At(Sending([log] + rest, sentBefore, position))), sentBefore < accepts)
    {
      assert ([log] + rest)[1..] == rest;
      failed, sentNow := false, sentBefore;
      if log.id in seen {
        return;
      }
      if sentBefore >= accepts {
        failed := true;
        return;
      }
      sent := sent + [log];
      sentNow := sentNow + 1;
      MarkAlreadySeen(log.id);
      if log.timestamp > lastSeen {
        lastSeen := log.timestamp;
      }
    }

    method SendBatch(logs: seq<Log>, position: nat, accepts: nat) returns (failed: bool, sentForProcessing: nat)
      modifies this
      ensures Midway(failed, [], sentForProcessing, position + |logs|)
        == Drain(cfg, old(At(Sending(logs, 0, position))), accepts)
    {
      failed, sentForProcessing := false, 0;
      ghost var current := At(Sending(logs, 0, position));
      ghost var goal := Drain(cfg, current, accepts);
      assert logs[0..] == logs;
      for i := 0 to |logs|
        invariant !failed && current == At(Sending(logs[i..], sentForProcessing, position + i))
        invariant Drain(cfg, current, accepts) == goal
      {
        assert logs[i..] == [logs[i]] + logs[i + 1..];
        DrainOne(cfg, current, accepts);
        current := NextStep(cfg, current, sentForProcessing < accepts);
        failed, sentForProcessing := SendOne(logs[i], logs[i + 1..], position + i, sentForProcessing, accepts);
        if failed {
          return;
        }
      }
      assert logs[|logs|..] == [];
    }

    method StoreProgress(round: Round)
      modifies this
      ensures At(Polling) == Checkpoint(cfg, old(At(Polling)), round)
    {
      if round.lastSeenStored {
        savedLastSeen := Some(lastSeen);
        marked := |sent|;
      }
      if round.seenStored {
        savedSeen := Some(seen);
        complete := |sent|;
      }
    }

    /** One round of the loop, and how the activation ends with it, if it does. */
    method ProcessRound(round: Round) returns (ended: Option<bool>)
      modifies this
      ensures (At(Polling), ended) == OneRound(cfg, old(At(Polling)), round)
    {
      var until := Until(cfg, lastSeen, round.now);
      if until < lastSeen {
        return Some(true);
      }
      if !round.fetched {
        return Some(false);
      }
      var logs := Fetch(cfg.source, Since(lastSeen), until);
      if logs == [] {
        return Some(true);
      }
      var failed, sentForProcessing := SendBatch(logs, OlderThan(cfg.source, Since(lastSeen)), round.accepts);
      if failed {
        return Some(false);
      }
      if sentForProcessing == 0 {
        return Some(true);
      }
      StoreProgress(round);
      return None;
    }

    method GetAndProcessLogs(rounds: seq<Round>) returns (ok: bool)
      modifies this
      ensures (At(Polling), ok) == Activation(cfg, old(At(Polling)), rounds)
    {
      ghost var goal := Activation(cfg, At(Polling), rounds);
      assert rounds[0..] == rounds;
      for r := 0 to |rounds|
        invariant Activation(cfg, At(Polling), rounds[r..]) == goal
      {
        assert rounds[r..][0] == rounds[r] && rounds[r..][1..] == rounds[r + 1..];
        var ended := ProcessRound(rounds[r]);
        if ended.Some? {
          return ended.value;
        }
      }
      assert rounds[|rounds|..] == [];
      return true;
    }
  }
}
