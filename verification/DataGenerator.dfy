/** Data generators: polling a log source through overlapping time windows, dropping what was already
    seen, and checkpointing the progress under two storage keys. */
module DataGenerator {
  import opened Machine

  /** Timestamps are nanoseconds since the epoch. */
  datatype Log = Log(id: string, timestamp: nat, payload: Bytes)

  const SECOND: nat := 1_000_000_000

  datatype Config = Config(source: seq<Log>, capacity: nat, canonTime: nat, maxSpan: nat, maxCatchup: nat)

  /** The source lists its logs in ascending order, each under an ID of its own. */
  ghost predicate StableSource(source: seq<Log>) {
    && (forall i, j :: 0 <= i < j < |source| ==> source[i].timestamp <= source[j].timestamp)
    && (forall i, j :: 0 <= i < j < |source| ==> source[i].id != source[j].id)
  }

  function SaturatingSub(t: nat, d: nat): nat {
    if d <= t then t - d else 0
  }

  // ---------- Queries ----------

  /** How many logs are older than `t`. */
  function OlderThan(source: seq<Log>, t: nat): nat {
    if source == [] || t <= source[0].timestamp then 0 else 1 + OlderThan(source[1..], t)
  }

  lemma {:induction false} OlderThanSplits(source: seq<Log>, t: nat)
    requires StableSource(source)
    ensures OlderThan(source, t) <= |source|
    ensures forall i :: 0 <= i < OlderThan(source, t) ==> source[i].timestamp < t
    ensures forall i :: OlderThan(source, t) <= i < |source| ==> t <= source[i].timestamp
  {
    if source != [] && source[0].timestamp < t {
      OlderThanSplits(source[1..], t);
      var n := OlderThan(source[1..], t);
      forall i | 0 <= i < 1 + n ensures source[i].timestamp < t {
        assert i > 0 ==> source[i] == source[1..][i - 1];
      }
      forall i | 1 + n <= i < |source| ensures t <= source[i].timestamp {
        assert source[i] == source[1..][i - 1];
      }
    }
  }

  lemma {:induction false} OlderThanIsMonotone(source: seq<Log>, t: nat, u: nat)
    requires t <= u
    ensures OlderThan(source, t) <= OlderThan(source, u)
  {
    if source != [] && source[0].timestamp < t {
      OlderThanIsMonotone(source[1..], t, u);
    }
  }

  /** The logs between two times, both included. */
  function Fetch(source: seq<Log>, since: nat, until: nat): seq<Log> {
    var lo, hi := OlderThan(source, since), OlderThan(source, until + 1);
    if lo < hi <= |source| then source[lo..hi] else []
  }

  lemma InWindow(source: seq<Log>, since: nat, until: nat, i: nat)
    requires StableSource(source) && i < |source|
    ensures var lo, hi := OlderThan(source, since), OlderThan(source, until + 1);
      lo <= |source| && hi <= |source| && (lo <= i < hi <==> since <= source[i].timestamp <= until)
  {
    OlderThanSplits(source, since);
    OlderThanSplits(source, until + 1);
  }

  lemma FetchedFromWindow(source: seq<Log>, since: nat, until: nat, i: nat)
    requires StableSource(source) && i < |source| && since <= source[i].timestamp <= until
    ensures source[i] in Fetch(source, since, until)
  {
    InWindow(source, since, until, i);
    assert Fetch(source, since, until)[i - OlderThan(source, since)] == source[i];
  }

  lemma WindowOfFetched(source: seq<Log>, since: nat, until: nat, j: nat)
    requires StableSource(source) && j < |Fetch(source, since, until)|
    ensures var l := Fetch(source, since, until)[j]; l in source && since <= l.timestamp <= until
  {
    var lo := OlderThan(source, since);
    InWindow(source, since, until, lo + j);
    assert Fetch(source, since, until)[j] == source[lo + j];
  }

  /** A window query answers exactly the logs of the window. */
  lemma FetchIsTheWindow(source: seq<Log>, since: nat, until: nat)
    requires StableSource(source)
    ensures forall l :: l in Fetch(source, since, until) <==> l in source && since <= l.timestamp <= until
  {
    forall l | l in source && since <= l.timestamp <= until ensures l in Fetch(source, since, until) {
      var i :| 0 <= i < |source| && source[i] == l;
      FetchedFromWindow(source, since, until, i);
    }
    forall l | l in Fetch(source, since, until) ensures l in source && since <= l.timestamp <= until {
      var j :| 0 <= j < |Fetch(source, since, until)| && Fetch(source, since, until)[j] == l;
      WindowOfFetched(source, since, until, j);
    }
  }

  /** The query window: one second of overlap at the front, capped in length, ending `canonTime` ago. */
  function Since(lastSeen: nat): nat {
    SaturatingSub(lastSeen, SECOND)
  }

  function Until(cfg: Config, lastSeen: nat, now: nat): nat {
    var canon := AsU64(now - cfg.canonTime);
    var capped := AsU64(Since(lastSeen) / SECOND + cfg.maxSpan);
    (if canon < capped then canon else capped) * SECOND
  }

  /** A window ends on the whole second that is `canonTime` before the clock, or as many seconds after its
      beginning as windows may last, whichever comes first. */
  lemma WindowIsCapped(cfg: Config, lastSeen: nat, now: nat)
    requires cfg.canonTime <= now < TWO_64 && Since(lastSeen) / SECOND + cfg.maxSpan < TWO_64
    ensures var until := Until(cfg, lastSeen, now);
      && until <= (now - cfg.canonTime) * SECOND
      && until <= Since(lastSeen) + cfg.maxSpan * SECOND
      && (until == (now - cfg.canonTime) * SECOND || until + SECOND > Since(lastSeen) + cfg.maxSpan * SECOND)
  {
    assert AsU64(now - cfg.canonTime) == now - cfg.canonTime;
    assert AsU64(Since(lastSeen) / SECOND + cfg.maxSpan) == Since(lastSeen) / SECOND + cfg.maxSpan;
  }

  lemma WindowOverlapsOneSecond(lastSeen: nat)
    ensures Since(lastSeen) <= lastSeen <= Since(lastSeen) + SECOND
    ensures SECOND <= lastSeen ==> lastSeen == Since(lastSeen) + SECOND
  {
  }

  // ---------- The cache of seen IDs ----------

  /** Least-recently-used cache, most recent first. */
  function PutId(cache: seq<string>, capacity: nat, id: string): seq<string> {
    if id in cache then [id] + Without(cache, id)
    else if |cache| < capacity then [id] + cache
    else if capacity == 0 then []
    else [id] + cache[..capacity - 1]
  }

  function Without(cache: seq<string>, id: string): seq<string> {
    if cache == [] then []
    else if cache[0] == id then Without(cache[1..], id)
    else [cache[0]] + Without(cache[1..], id)
  }

  /** The ID just marked comes first, the others keep their order, and only the last is ever evicted. */
  lemma PutIsMostRecent(cache: seq<string>, capacity: nat, id: string)
    requires capacity > 0
    ensures var cache' := PutId(cache, capacity, id);
      && cache'[0] == id
      && (id in cache ==> cache'[1..] == Without(cache, id))
      && (id !in cache ==> cache'[1..] == if |cache| < capacity then cache else cache[..capacity - 1])
  {
  }

  lemma {:induction false} WithoutKeepsTheOthers(cache: seq<string>, id: string, other: string)
    ensures other in Without(cache, id) <==> other in cache && other != id
  {
    if cache != [] {
      WithoutKeepsTheOthers(cache[1..], id, other);
    }
  }

  /** Reloading marks the stored IDs one after the other. */
  function Reload(cache: seq<string>, capacity: nat, ids: seq<string>): seq<string>
    decreases |ids|
  {
    if ids == [] then cache else Reload(PutId(cache, capacity, ids[0]), capacity, ids[1..])
  }

  // ---------- Steps ----------

  datatype Phase =
    | Polling
    | Sending(batch: seq<Log>, sentNow: nat, position: nat)
    | SavingLastSeen
    | SavingSeen

  /** `sent` is everything ever handed to the executor, over all restarts; `boot` and `restored` say
      how much of it precedes the last restart and which IDs that restart brought back; `mark` is the
      `lastSeen` it started from; `marked` and `complete` are how much had been sent when `lastSeen` and
      the IDs were last stored. */
  datatype State = State(
    lastSeen: nat,
    cache: seq<string>,
    phase: Phase,
    savedLastSeen: Option<nat>,
    savedSeen: Option<seq<string>>,
    sent: seq<Log>,
    boot: nat,
    mark: nat,
    restored: set<string>,
    marked: nat,
    complete: nat)

  /** What a restart gets out of the storage: whether each read succeeds, and whether the mark parses. */
  datatype Recalled = Recalled(mark: bool, parsed: bool, ids: bool)

  const AllRecalled := Recalled(true, true, true)

  datatype Event =
    | Poll(now: nat, fetched: bool)
    | Next(delivered: bool)
    | SaveLastSeen(ok: bool)
    | SaveSeen(ok: bool)
    | Crash(now: nat, recalled: Recalled)

  function Boot(now: nat): State {
    State(now, [], Polling, None, None, [], 0, now, {}, 0, 0)
  }

  /** Ask the source for the window that ends at `until`. */
  function PollWindow(cfg: Config, s: State, until: nat, fetched: bool): State {
    var logs := Fetch(cfg.source, Since(s.lastSeen), until);
    if until < s.lastSeen || !fetched || logs == [] then s
    else s.(phase := Sending(logs, 0, OlderThan(cfg.source, Since(s.lastSeen))))
  }

  function PollStep(cfg: Config, s: State, now: nat, fetched: bool): State {
    PollWindow(cfg, s, Until(cfg, s.lastSeen, now), fetched)
  }

  function NextStep(cfg: Config, s: State, delivered: bool): State
    requires s.phase.Sending?
  {
    var Sending(batch, n, pos) := s.phase;
    if batch == [] then s.(phase := if n == 0 then Polling else SavingLastSeen)
    else if batch[0].id in s.cache then s.(phase := Sending(batch[1..], n, pos + 1))
    else if !delivered then s.(phase := Polling)
    else s.(sent := s.sent + [batch[0]],
            cache := PutId(s.cache, cfg.capacity, batch[0].id),
            lastSeen := Max(s.lastSeen, batch[0].timestamp),
            phase := Sending(batch[1..], n + 1, pos + 1))
  }

  /** Whole seconds between two times, truncated toward zero and read as a u64. */
  function AgeInSeconds(now: nat, lastSeen: nat): nat {
    if lastSeen <= now then AsU64((now - lastSeen) / SECOND) else AsU64(-((lastSeen - now) / SECOND))
  }

  function Capped(cfg: Config, now: nat, lastSeen: nat): bool {
    AgeInSeconds(now, lastSeen) > cfg.maxCatchup
  }

  /** A restart takes up the stored state if both keys are there and can be read, and otherwise starts
      from now; a mark that does not parse counts as now. */
  function Restart(cfg: Config, s: State, now: nat, recalled: Recalled): State {
    var base := s.(phase := Polling, boot := |s.sent|);
    match (if recalled.mark then s.savedLastSeen else None, if recalled.ids then s.savedSeen else None)
    case (Some(stored), Some(ids)) =>
      var lastSeen := if recalled.parsed then stored else now;
      var from := if Capped(cfg, now, lastSeen) then SaturatingSub(now, cfg.maxCatchup * SECOND) else lastSeen;
      base.(lastSeen := from, mark := from, cache := Reload([], cfg.capacity, ids), restored := set x | x in ids)
    case _ =>
      base.(lastSeen := now, mark := now, cache := [], restored := {})
  }

  function Apply(cfg: Config, s: State, e: Event): Option<State> {
    match e
    case Poll(now, fetched) => if s.phase.Polling? then Some(PollStep(cfg, s, now, fetched)) else None
    case Next(delivered) => if s.phase.Sending? then Some(NextStep(cfg, s, delivered)) else None
    case SaveLastSeen(ok) =>
      if s.phase.SavingLastSeen?
      then Some(s.(phase := SavingSeen, savedLastSeen := if ok then Some(s.lastSeen) else s.savedLastSeen,
                   marked := if ok then |s.sent| else s.marked))
      else None
    case SaveSeen(ok) =>
      if s.phase.SavingSeen?
      then Some(s.(phase := Polling, savedSeen := if ok then Some(s.cache) else s.savedSeen,
                   complete := if ok then |s.sent| else s.complete))
      else None
    case Crash(now, recalled) => Some(Restart(cfg, s, now, recalled))
  }

  /** Each of the two writes stores what is current, or leaves what was stored before. */
  lemma StoredIsCurrent(cfg: Config, s: State, ok: bool)
    ensures s.phase.SavingLastSeen? ==>
      && Apply(cfg, s, SaveLastSeen(ok)).Some?
      && var s' := Apply(cfg, s, SaveLastSeen(ok)).value;
      && s'.savedLastSeen == (if ok then Some(s.lastSeen) else s.savedLastSeen)
      && s'.savedSeen == s.savedSeen && s'.phase == SavingSeen
    ensures s.phase.SavingSeen? ==>
      && Apply(cfg, s, SaveSeen(ok)).Some?
      && var s' := Apply(cfg, s, SaveSeen(ok)).value;
      && s'.savedSeen == (if ok then Some(s.cache) else s.savedSeen)
      && s'.savedLastSeen == s.savedLastSeen && s'.phase == Polling
  {
  }

  function Run(cfg: Config, s: State, events: seq<Event>): Option<State>
    decreases |events|
  {
    if events == [] then Some(s)
    else
      match Apply(cfg, s, events[0])
      case None => None
      case Some(s') => Run(cfg, s', events[1..])
  }

  lemma {:induction false} RunOfConcat(cfg: Config, s: State, x: seq<Event>, y: seq<Event>)
    requires Run(cfg, s, x).Some?
    ensures Run(cfg, s, x + y) == Run(cfg, Run(cfg, s, x).value, y)
    decreases |x|
  {
    if x == [] {
      assert x + y == y;
    } else {
      assert (x + y)[0] == x[0] && (x + y)[1..] == x[1..] + y;
      RunOfConcat(cfg, Apply(cfg, s, x[0]).value, x[1..], y);
    }
  }

  lemma RunOneMore(cfg: Config, s: State, events: seq<Event>, e: Event)
    requires Run(cfg, s, events).Some? && Apply(cfg, Run(cfg, s, events).value, e).Some?
    ensures Run(cfg, s, events + [e]) == Apply(cfg, Run(cfg, s, events).value, e)
  {
    RunOfConcat(cfg, s, events, [e]);
    var end := Run(cfg, s, events).value;
    assert [e][1..] == [] && Run(cfg, end, [e]) == Apply(cfg, end, e);
  }

  lemma RunOfOne(cfg: Config, s: State, e: Event)
    requires Apply(cfg, s, e).Some?
    ensures Run(cfg, s, [e]) == Apply(cfg, s, e)
  {
    assert [e][1..] == [];
  }

  lemma RunOfMore(cfg: Config, s: State, e: Event, rest: seq<Event>)
    requires Apply(cfg, s, e).Some?
    ensures Run(cfg, s, [e] + rest) == Run(cfg, Apply(cfg, s, e).value, rest)
  {
    assert ([e] + rest)[1..] == rest;
  }

  ghost predicate CrashFree(events: seq<Event>) {
    forall i :: 0 <= i < |events| ==> !events[i].Crash?
  }

  // ---------- No gaps ----------

  /** Every log from `start` up to, but not including, `upTo` was sent. */
  ghost predicate Covered(source: seq<Log>, sent: seq<Log>, start: nat, upTo: nat) {
    forall i :: 0 <= i < |source| && start <= source[i].timestamp < upTo ==> source[i] in sent
  }

  ghost predicate BatchIsSlice(cfg: Config, phase: Phase) {
    phase.Sending? ==>
      && phase.position + |phase.batch| <= |cfg.source|
      && phase.batch == cfg.source[phase.position..phase.position + |phase.batch|]
  }

  ghost predicate IdsWereSent(ids: seq<string>, sent: seq<Log>) {
    forall x :: x in ids ==> exists l :: l in sent && l.id == x
  }

  ghost predicate GapFree(cfg: Config, s: State, start: nat) {
    && StableSource(cfg.source)
    && (forall l :: l in s.sent ==> l in cfg.source)
    && BatchIsSlice(cfg, s.phase)
    && IdsWereSent(s.cache, s.sent)
    && (s.savedSeen.Some? ==> IdsWereSent(s.savedSeen.value, s.sent))
    && Covered(cfg.source, s.sent, start, s.lastSeen)
    && (s.savedLastSeen.Some? ==> Covered(cfg.source, s.sent, start, s.savedLastSeen.value))
    && (s.phase.Sending? ==>
          forall i :: 0 <= i < s.phase.position && start <= cfg.source[i].timestamp ==> cfg.source[i] in s.sent)
  }

  /** How a restart goes: from the stored state, from a capped mark, or with the stored state ignored
      because a key is missing, a read fails or the mark does not parse. */
  datatype Recovery =
    | Resumed
    | TooOld
    | Ignored(markStored: bool, idsStored: bool, recalled: Recalled)

  function RecoveryOf(cfg: Config, s: State, now: nat, recalled: Recalled): Recovery {
    if s.savedLastSeen.None? || s.savedSeen.None? || recalled != AllRecalled
    then Ignored(s.savedLastSeen.Some?, s.savedSeen.Some?, recalled)
    else if s.savedLastSeen.value <= now && AgeInSeconds(now, s.savedLastSeen.value) > cfg.maxCatchup then TooOld
    else Resumed
  }

  /** Every crash of the schedule is followed by this kind of restart. */
  ghost predicate CrashesAre(cfg: Config, s: State, events: seq<Event>, kind: Recovery)
    decreases |events|
  {
    events != [] ==>
      && (events[0].Crash? ==> RecoveryOf(cfg, s, events[0].now, events[0].recalled) == kind)
      && (Apply(cfg, s, events[0]).Some? ==> CrashesAre(cfg, Apply(cfg, s, events[0]).value, events[1..], kind))
  }

  lemma CoveredByMore(source: seq<Log>, sent: seq<Log>, more: seq<Log>, start: nat, upTo: nat)
    requires Covered(source, sent, start, upTo)
    ensures Covered(source, sent + more, start, upTo)
  {
  }

  lemma SentByMore(ids: seq<string>, sent: seq<Log>, more: seq<Log>)
    requires IdsWereSent(ids, sent)
    ensures IdsWereSent(ids, sent + more)
  {
    forall x | x in ids ensures exists l :: l in sent + more && l.id == x {
      var l :| l in sent && l.id == x;
      assert l in sent + more;
    }
  }

  lemma {:induction false} WithoutIds(cache: seq<string>, id: string)
    ensures forall x :: x in Without(cache, id) <==> x in cache && x != id
    ensures |Without(cache, id)| <= |cache|
    ensures id in cache ==> |Without(cache, id)| < |cache|
  {
    if cache != [] {
      WithoutIds(cache[1..], id);
    }
  }

  lemma PutIds(cache: seq<string>, capacity: nat, id: string)
    ensures forall x :: x in PutId(cache, capacity, id) ==> x in cache || x == id
    ensures id in cache || |cache| < capacity ==> forall x :: x in PutId(cache, capacity, id) <==> x in cache || x == id
  {
    WithoutIds(cache, id);
  }

  lemma {:induction false} ReloadIds(cache: seq<string>, capacity: nat, ids: seq<string>)
    ensures forall x :: x in Reload(cache, capacity, ids) ==> x in cache || x in ids
    decreases |ids|
  {
    if ids != [] {
      PutIds(cache, capacity, ids[0]);
      ReloadIds(PutId(cache, capacity, ids[0]), capacity, ids[1..]);
    }
  }

  /** The log that owns an ID is unique. */
  lemma SameLog(source: seq<Log>, a: Log, b: Log)
    requires StableSource(source) && a in source && b in source && a.id == b.id
    ensures a == b
  {
    var i :| 0 <= i < |source| && source[i] == a;
    var j :| 0 <= j < |source| && source[j] == b;
  }

  lemma PollKeepsGapFree(cfg: Config, s: State, start: nat, now: nat, fetched: bool)
    requires GapFree(cfg, s, start) && s.phase.Polling?
    ensures GapFree(cfg, PollStep(cfg, s, now, fetched), start)
  {
    OlderThanSplits(cfg.source, Since(s.lastSeen));
    OlderThanSplits(cfg.source, Until(cfg, s.lastSeen, now) + 1);
  }

  lemma NextKeepsGapFree(cfg: Config, s: State, start: nat, delivered: bool)
    requires GapFree(cfg, s, start) && s.phase.Sending?
    ensures GapFree(cfg, NextStep(cfg, s, delivered), start)
  {
    var s' := NextStep(cfg, s, delivered);
    var Sending(batch, n, pos) := s.phase;
    if batch != [] {
      assert batch[0] == cfg.source[pos];
      assert batch[1..] == cfg.source[pos + 1..pos + 1 + |batch[1..]|];
      if batch[0].id in s.cache {
        var l :| l in s.sent && l.id == batch[0].id;
        SameLog(cfg.source, l, batch[0]);
      } else if delivered {
        CoveredByMore(cfg.source, s.sent, [batch[0]], start, s.lastSeen);
        if s.savedLastSeen.Some? {
          CoveredByMore(cfg.source, s.sent, [batch[0]], start, s.savedLastSeen.value);
        }
        SentByMore(s.cache, s.sent, [batch[0]]);
        PutIds(s.cache, cfg.capacity, batch[0].id);
        if s.savedSeen.Some? {
          SentByMore(s.savedSeen.value, s.sent, [batch[0]]);
        }
        assert batch[0] in s'.sent;
      }
    }
  }

  /** Where a restart begins: at the stored mark, at the start of the catch-up window, or now. */
  lemma RestartMark(cfg: Config, s: State, now: nat, recalled: Recalled)
    requires now / SECOND < TWO_64
    ensures var from := Restart(cfg, s, now, recalled).lastSeen;
      match RecoveryOf(cfg, s, now, recalled)
      case Resumed => from <= s.savedLastSeen.value && (s.savedLastSeen.value <= now ==> from == s.savedLastSeen.value)
      case TooOld => s.savedLastSeen.value < from == now - cfg.maxCatchup * SECOND
      case Ignored(_, _, _) => from == now
  {
    if RecoveryOf(cfg, s, now, recalled) == TooOld {
      var stored := s.savedLastSeen.value;
      assert (now - stored) / SECOND >= cfg.maxCatchup + 1;
      assert now - stored >= (cfg.maxCatchup + 1) * SECOND;
    }
  }

  /** A clock that was set back by a second or more makes the stored mark look too old, because the negative
      age is read as a u64; the restart then goes back to the catch-up window before the new time. */
  lemma ClockSetBack(cfg: Config, s: State, now: nat)
    requires s.savedLastSeen.Some? && s.savedSeen.Some? && now < s.savedLastSeen.value
    requires (s.savedLastSeen.value - now) / SECOND + cfg.maxCatchup < TWO_64
    ensures Restart(cfg, s, now, AllRecalled).lastSeen ==
      if s.savedLastSeen.value < now + SECOND then s.savedLastSeen.value
      else SaturatingSub(now, cfg.maxCatchup * SECOND)
  {
    var d := (s.savedLastSeen.value - now) / SECOND;
    assert d > 0 ==> AsU64(-d) == TWO_64 - d;
  }

  /** The restart does not jump over anything from `start` on: it takes up the stored state, or begins no
      later than `start`, at the catch-up window of a mark that is too old or at the clock. */
  predicate JumpsBefore(cfg: Config, s: State, now: nat, recalled: Recalled, start: nat) {
    match RecoveryOf(cfg, s, now, recalled)
    case Resumed => true
    case TooOld => SaturatingSub(now, cfg.maxCatchup * SECOND) <= start
    case Ignored(_, _, _) => now <= start
  }

  lemma RestartKeepsGapFree(cfg: Config, s: State, start: nat, now: nat, recalled: Recalled)
    requires GapFree(cfg, s, start) && JumpsBefore(cfg, s, now, recalled, start)
    ensures RecoveryOf(cfg, s, now, recalled) == Resumed ==>
      Restart(cfg, s, now, recalled).lastSeen <= s.savedLastSeen.value
    ensures GapFree(cfg, Restart(cfg, s, now, recalled), start)
  {
    if s.savedSeen.Some? {
      ReloadIds([], cfg.capacity, s.savedSeen.value);
    }
  }

  lemma StepKeepsGapFree(cfg: Config, s: State, start: nat, e: Event)
    requires GapFree(cfg, s, start) && Apply(cfg, s, e).Some?
    requires e.Crash? ==> JumpsBefore(cfg, s, e.now, e.recalled, start)
    ensures GapFree(cfg, Apply(cfg, s, e).value, start)
  {
    match e
    case Poll(now, fetched) => PollKeepsGapFree(cfg, s, start, now, fetched);
    case Next(delivered) => NextKeepsGapFree(cfg, s, start, delivered);
    case Crash(now, recalled) => RestartKeepsGapFree(cfg, s, start, now, recalled);
    case _ =>
  }

  /** Every crash of the schedule is followed by such a restart. */
  ghost predicate CrashesJumpBefore(cfg: Config, s: State, events: seq<Event>, start: nat)
    decreases |events|
  {
    events != [] ==>
      && (events[0].Crash? ==> JumpsBefore(cfg, s, events[0].now, events[0].recalled, start))
      && (Apply(cfg, s, events[0]).Some? ==> CrashesJumpBefore(cfg, Apply(cfg, s, events[0]).value, events[1..], start))
  }

  lemma {:induction false} ResumedJumpsNowhere(cfg: Config, s: State, events: seq<Event>, start: nat)
    requires CrashesAre(cfg, s, events, Resumed)
    ensures CrashesJumpBefore(cfg, s, events, start)
    decreases |events|
  {
    if events != [] && Apply(cfg, s, events[0]).Some? {
      ResumedJumpsNowhere(cfg, Apply(cfg, s, events[0]).value, events[1..], start);
    }
  }

  lemma {:induction false} RunKeepsGapFree(cfg: Config, s: State, start: nat, events: seq<Event>)
    requires GapFree(cfg, s, start) && Run(cfg, s, events).Some? && CrashesJumpBefore(cfg, s, events, start)
    ensures GapFree(cfg, Run(cfg, s, events).value, start)
    decreases |events|
  {
    if events != [] {
      StepKeepsGapFree(cfg, s, start, events[0]);
      RunKeepsGapFree(cfg, Apply(cfg, s, events[0]).value, start, events[1..]);
    }
  }

  /** Whatever fails, wherever the process crashes: as long as every restart takes up the stored state,
      every log from the first boot up to `lastSeen` has been sent. */
  lemma NoLogIsLost(cfg: Config, now: nat, events: seq<Event>)
    requires StableSource(cfg.source)
    requires Run(cfg, Boot(now), events).Some? && CrashesAre(cfg, Boot(now), events, Resumed)
    ensures var end := Run(cfg, Boot(now), events).value; Covered(cfg.source, end.sent, now, end.lastSeen)
  {
    ResumedJumpsNowhere(cfg, Boot(now), events, now);
    RunKeepsGapFree(cfg, Boot(now), now, events);
  }

  /** Restarts that do not take up the stored state lose only what they jump over: if no mark that is too old
      has a catch-up window beginning after `limit`, and no ignored state meets a clock later than that, every
      log from `limit` on, up to `lastSeen`, has been sent. */
  lemma OnlyOldLogsAreLost(cfg: Config, boot: nat, events: seq<Event>, limit: nat)
    requires StableSource(cfg.source) && boot <= limit
    requires Run(cfg, Boot(boot), events).Some? && CrashesJumpBefore(cfg, Boot(boot), events, limit)
    ensures var end := Run(cfg, Boot(boot), events).value; Covered(cfg.source, end.sent, limit, end.lastSeen)
  {
    RunKeepsGapFree(cfg, Boot(boot), limit, events);
  }

  // ---------- Forward only: what a restart may send again ----------

  /** Since the last restart only logs from one second before its mark on are handled, none newer than
      `lastSeen`; the stored mark is at least as new as what the process had sent when it was stored. */
  ghost predicate Forward(cfg: Config, s: State) {
    && StableSource(cfg.source) && BatchIsSlice(cfg, s.phase)
    && s.boot <= |s.sent| && s.marked <= |s.sent| && s.mark <= s.lastSeen
    && (forall i :: s.boot <= i < |s.sent| ==> s.sent[i] in cfg.source)
    && (forall i :: s.boot <= i < |s.sent| ==> Since(s.mark) <= s.sent[i].timestamp <= s.lastSeen)
    && (s.phase.Sending? ==> forall l :: l in s.phase.batch ==> Since(s.mark) <= l.timestamp)
    && (s.marked > s.boot ==> s.savedLastSeen.Some?)
    && (s.savedLastSeen.Some? ==> forall i :: s.boot <= i < s.marked ==> s.sent[i].timestamp <= s.savedLastSeen.value)
  }

  lemma PollKeepsForward(cfg: Config, s: State, until: nat, fetched: bool)
    requires Forward(cfg, s) && s.phase.Polling?
    ensures Forward(cfg, PollWindow(cfg, s, until, fetched))
  {
    FetchIsTheWindow(cfg.source, Since(s.lastSeen), until);
    var s' := PollWindow(cfg, s, until, fetched);
    if s'.phase.Sending? {
      forall l | l in s'.phase.batch ensures Since(s.mark) <= l.timestamp {
        assert l in Fetch(cfg.source, Since(s.lastSeen), until);
      }
    }
  }

  lemma NextKeepsForward(cfg: Config, s: State, delivered: bool)
    requires Forward(cfg, s) && s.phase.Sending?
    ensures Forward(cfg, NextStep(cfg, s, delivered))
  {
    var Sending(batch, n, pos) := s.phase;
    if batch != [] {
      assert batch[0] == cfg.source[pos];
      assert batch[1..] == cfg.source[pos + 1..pos + 1 + |batch[1..]|];
    }
  }

  lemma StepKeepsForward(cfg: Config, s: State, e: Event)
    requires Forward(cfg, s) && Apply(cfg, s, e).Some?
    ensures Forward(cfg, Apply(cfg, s, e).value)
  {
    match e
    case Poll(now, fetched) => PollKeepsForward(cfg, s, Until(cfg, s.lastSeen, now), fetched);
    case Next(delivered) => NextKeepsForward(cfg, s, delivered);
    case _ =>
  }

  lemma {:induction false} RunKeepsForward(cfg: Config, s: State, events: seq<Event>)
    requires Forward(cfg, s) && Run(cfg, s, events).Some?
    ensures Forward(cfg, Run(cfg, s, events).value)
    decreases |events|
  {
    if events != [] {
      StepKeepsForward(cfg, s, events[0]);
      RunKeepsForward(cfg, Apply(cfg, s, events[0]).value, events[1..]);
    }
  }

  lemma {:induction false} WithoutCrashes(cfg: Config, s: State, events: seq<Event>)
    requires Run(cfg, s, events).Some? && CrashFree(events)
    ensures var end := Run(cfg, s, events).value;
      end.boot == s.boot && end.mark == s.mark && end.restored == s.restored && s.sent <= end.sent
    decreases |events|
  {
    if events != [] {
      WithoutCrashes(cfg, Apply(cfg, s, events[0]).value, events[1..]);
    }
  }

  /** All polls of the schedule happen by `latest`. */
  ghost predicate PollsBy(events: seq<Event>, latest: nat) {
    forall i :: 0 <= i < |events| && events[i].Poll? ==> events[i].now <= latest
  }

  ghost predicate NothingYoung(cfg: Config, s: State, latest: nat) {
    && (forall l :: l in s.sent ==> l.timestamp <= (latest - cfg.canonTime) * SECOND)
    && (s.phase.Sending? ==> forall l :: l in s.phase.batch ==> l.timestamp <= (latest - cfg.canonTime) * SECOND)
  }

  lemma StepSendsNothingYoung(cfg: Config, s: State, e: Event, latest: nat)
    requires StableSource(cfg.source) && NothingYoung(cfg, s, latest) && Apply(cfg, s, e).Some?
    requires e.Poll? ==> cfg.canonTime <= e.now <= latest && e.now < TWO_64
    ensures NothingYoung(cfg, Apply(cfg, s, e).value, latest)
  {
    match e
    case Poll(now, fetched) =>
      var until := Until(cfg, s.lastSeen, now);
      FetchIsTheWindow(cfg.source, Since(s.lastSeen), until);
      assert AsU64(now - cfg.canonTime) == now - cfg.canonTime;
      assert until <= (now - cfg.canonTime) * SECOND <= (latest - cfg.canonTime) * SECOND;
    case Next(_) =>
    case _ =>
  }

  /** In every run, also through crashes, no log is sent before it is `canonTime` old. */
  lemma {:induction false} NothingIsSentTooEarly(cfg: Config, s: State, events: seq<Event>, latest: nat)
    requires StableSource(cfg.source) && NothingYoung(cfg, s, latest) && Run(cfg, s, events).Some?
    requires PollsBy(events, latest) && latest < TWO_64
    requires forall i :: 0 <= i < |events| && events[i].Poll? ==> cfg.canonTime <= events[i].now
    ensures NothingYoung(cfg, Run(cfg, s, events).value, latest)
    decreases |events|
  {
    if events != [] {
      StepSendsNothingYoung(cfg, s, events[0], latest);
      assert forall i :: 0 <= i < |events[1..]| ==> events[1..][i] == events[i + 1];
      NothingIsSentTooEarly(cfg, Apply(cfg, s, events[0]).value, events[1..], latest);
    }
  }

  /** With a cache of any size and whatever happened before: what is sent after a restart that takes up
      the stored state is not older than one second before its mark, and if the crashed process had sent
      it already, it is not newer than the stored mark or was sent after that mark was stored. */
  lemma ResentIsOverlapOrUnmarked(cfg: Config, boot: nat, history: seq<Event>, now: nat, events: seq<Event>)
    requires StableSource(cfg.source) && CrashFree(events)
    requires Run(cfg, Boot(boot), history).Some?
    requires var s := Run(cfg, Boot(boot), history).value;
      RecoveryOf(cfg, s, now, AllRecalled) == Resumed && Run(cfg, Restart(cfg, s, now, AllRecalled), events).Some?
    ensures var s := Run(cfg, Boot(boot), history).value;
      var restarted := Restart(cfg, s, now, AllRecalled);
      var end := Run(cfg, restarted, events).value;
      && (s.savedLastSeen.value <= now ==> restarted.mark == s.savedLastSeen.value)
      && s.sent <= end.sent
      && (forall i :: |s.sent| <= i < |end.sent| ==> Since(restarted.mark) <= end.sent[i].timestamp)
      && (forall i, j :: |s.sent| <= i < |end.sent| && s.boot <= j < |s.sent| && end.sent[i].id == s.sent[j].id ==>
            j >= s.marked || end.sent[i].timestamp <= s.savedLastSeen.value)
  {
    RunKeepsForward(cfg, Boot(boot), history);
    var s := Run(cfg, Boot(boot), history).value;
    var restarted := Restart(cfg, s, now, AllRecalled);
    assert Forward(cfg, restarted);
    RunKeepsForward(cfg, restarted, events);
    WithoutCrashes(cfg, restarted, events);
    var end := Run(cfg, restarted, events).value;
    forall i, j | |s.sent| <= i < |end.sent| && s.boot <= j < |s.sent| && end.sent[i].id == s.sent[j].id
      ensures j >= s.marked || end.sent[i].timestamp <= s.savedLastSeen.value
    {
      SameLog(cfg.source, end.sent[i], s.sent[j]);
    }
  }

  /** A log that a restart jumped over by more than the overlap is not sent by that process any more. */
  lemma SkippedStaysUnsent(cfg: Config, s: State, log: Log, events: seq<Event>)
    requires Forward(cfg, s) && s.boot == |s.sent| && Run(cfg, s, events).Some? && CrashFree(events)
    requires log !in s.sent && log.timestamp < Since(s.mark)
    ensures log !in Run(cfg, s, events).value.sent
  {
    RunKeepsForward(cfg, s, events);
    WithoutCrashes(cfg, s, events);
  }

  // ---------- No repetition, except what a crash forgot ----------

  ghost predicate Distinct(ids: seq<string>) {
    forall i, j :: 0 <= i < j < |ids| ==> ids[i] != ids[j]
  }

  ghost function IdsFrom(sent: seq<Log>, n: nat): set<string> {
    set i | n <= i < |sent| :: sent[i].id
  }

  /** The cache knows exactly what the last restart brought back and what was sent since, and nothing
      was sent since that it knew already. */
  ghost predicate RepeatFree(cfg: Config, s: State) {
    && s.boot <= |s.sent| && s.complete <= |s.sent| && |s.cache| <= cfg.capacity
    && Distinct(s.cache) && (set x | x in s.cache) == s.restored + IdsFrom(s.sent, s.boot)
    && (forall i, j :: s.boot <= i < j < |s.sent| ==> s.sent[i].id != s.sent[j].id)
    && (forall i :: s.boot <= i < |s.sent| ==> s.sent[i].id !in s.restored)
    && (s.savedSeen.Some? ==>
          && Distinct(s.savedSeen.value) && |s.savedSeen.value| <= cfg.capacity
          && (forall i :: s.boot <= i < s.complete ==> s.sent[i].id in s.savedSeen.value))
  }

  /** Every log delivered finds room in the cache. */
  ghost predicate NothingEvicted(cfg: Config, s: State, events: seq<Event>)
    decreases |events|
  {
    events != [] ==>
      && (events[0] == Next(true) && s.phase.Sending? && s.phase.batch != [] && s.phase.batch[0].id !in s.cache ==>
            |s.cache| < cfg.capacity)
      && (Apply(cfg, s, events[0]).Some? ==> NothingEvicted(cfg, Apply(cfg, s, events[0]).value, events[1..]))
  }

  lemma {:induction false} ReloadKeepsAll(cfg: Config, cache: seq<string>, ids: seq<string>)
    requires |cache| + |ids| <= cfg.capacity && Distinct(cache) && Distinct(ids)
    requires forall x :: x in ids ==> x !in cache
    ensures var r := Reload(cache, cfg.capacity, ids);
      Distinct(r) && |r| == |cache| + |ids| && forall x :: x in r <==> x in cache || x in ids
    decreases |ids|
  {
    if ids != [] {
      var more, rest := [ids[0]] + cache, ids[1..];
      assert Distinct(rest);
      assert ids[0] !in rest && (forall x :: x in rest ==> x !in more);
      assert ids[0] in ids && ids[0] !in cache;
      assert forall i :: 0 < i < |more| ==> more[i] == cache[i - 1];
      ReloadKeepsAll(cfg, more, rest);
    }
  }

  lemma NextKeepsRepeatFree(cfg: Config, s: State, delivered: bool)
    requires RepeatFree(cfg, s) && s.phase.Sending? && NothingEvicted(cfg, s, [Next(delivered)])
    ensures RepeatFree(cfg, NextStep(cfg, s, delivered))
  {
    var s' := NextStep(cfg, s, delivered);
    var batch := s.phase.batch;
    if batch != [] && batch[0].id !in s.cache && delivered {
      assert s'.cache == [batch[0].id] + s.cache;
      SentOnceMore(s, batch[0]);
      assert (set x | x in s'.cache) == (set x | x in s.cache) + {batch[0].id};
    }
  }

  lemma SentOnceMore(s: State, l: Log)
    requires s.boot <= |s.sent| && (set x | x in s.cache) == s.restored + IdsFrom(s.sent, s.boot) && l.id !in s.cache
    ensures IdsFrom(s.sent + [l], s.boot) == IdsFrom(s.sent, s.boot) + {l.id}
    ensures forall i :: s.boot <= i < |s.sent| ==> s.sent[i].id != l.id
    ensures l.id !in s.restored
  {
    var more := s.sent + [l];
    assert more[|s.sent|] == l;
    forall i | s.boot <= i < |s.sent| ensures s.sent[i].id != l.id {
      assert s.sent[i].id in IdsFrom(s.sent, s.boot);
    }
    forall x | x in IdsFrom(s.sent, s.boot) ensures x in IdsFrom(more, s.boot) {
      var i :| s.boot <= i < |s.sent| && s.sent[i].id == x;
      assert more[i].id == x;
    }
    assert l.id in s.restored ==> l.id in (set x | x in s.cache);
  }

  lemma RestartKeepsRepeatFree(cfg: Config, s: State, now: nat, recalled: Recalled)
    requires RepeatFree(cfg, s)
    ensures RepeatFree(cfg, Restart(cfg, s, now, recalled))
  {
    if s.savedSeen.Some? {
      ReloadKeepsAll(cfg, [], s.savedSeen.value);
    }
    assert IdsFrom(s.sent, |s.sent|) == {};
  }

  lemma StepKeepsRepeatFree(cfg: Config, s: State, e: Event)
    requires RepeatFree(cfg, s) && Apply(cfg, s, e).Some? && NothingEvicted(cfg, s, [e])
    ensures RepeatFree(cfg, Apply(cfg, s, e).value)
  {
    match e
    case Next(delivered) => NextKeepsRepeatFree(cfg, s, delivered);
    case Crash(now, recalled) => RestartKeepsRepeatFree(cfg, s, now, recalled);
    case SaveSeen(ok) =>
      forall i | s.boot <= i < |s.sent| ensures s.sent[i].id in s.cache {
        assert s.sent[i].id in IdsFrom(s.sent, s.boot);
        assert s.sent[i].id in (set x | x in s.cache);
      }
    case _ =>
  }

  lemma {:induction false} RunKeepsRepeatFree(cfg: Config, s: State, events: seq<Event>)
    requires RepeatFree(cfg, s) && Run(cfg, s, events).Some? && NothingEvicted(cfg, s, events)
    ensures RepeatFree(cfg, Run(cfg, s, events).value)
    decreases |events|
  {
    if events != [] {
      assert [events[0]][1..] == [];
      StepKeepsRepeatFree(cfg, s, events[0]);
      RunKeepsRepeatFree(cfg, Apply(cfg, s, events[0]).value, events[1..]);
    }
  }

  /** As long as nothing is evicted: after a restart that recalled the stored IDs, no ID is sent twice, none
      of the stored IDs is sent again, and in particular nothing that the crashed process had sent by
      its last complete checkpoint. */
  lemma RepeatsAreUncheckpointed(
      cfg: Config, boot: nat, history: seq<Event>, now: nat, recalled: Recalled, events: seq<Event>)
    requires CrashFree(events)
    requires Run(cfg, Boot(boot), history).Some? && NothingEvicted(cfg, Boot(boot), history)
    requires var s := Run(cfg, Boot(boot), history).value;
      && s.savedLastSeen.Some? && s.savedSeen.Some? && recalled.mark && recalled.ids
      && Run(cfg, Restart(cfg, s, now, recalled), events).Some?
      && NothingEvicted(cfg, Restart(cfg, s, now, recalled), events)
    ensures var s := Run(cfg, Boot(boot), history).value;
      var end := Run(cfg, Restart(cfg, s, now, recalled), events).value;
      && s.sent <= end.sent
      && (forall i, j :: |s.sent| <= i < j < |end.sent| ==> end.sent[i].id != end.sent[j].id)
      && (forall i :: |s.sent| <= i < |end.sent| ==> end.sent[i].id !in s.savedSeen.value)
      && (forall i, j :: |s.sent| <= i < |end.sent| && s.boot <= j < s.complete && j < |s.sent| ==>
            end.sent[i].id != s.sent[j].id)
  {
    RunKeepsRepeatFree(cfg, Boot(boot), history);
    var s := Run(cfg, Boot(boot), history).value;
    RestartKeepsRepeatFree(cfg, s, now, recalled);
    RunKeepsRepeatFree(cfg, Restart(cfg, s, now, recalled), events);
    WithoutCrashes(cfg, Restart(cfg, s, now, recalled), events);
  }
}
