/** Cached answers to GET requests in timed mode. Requests of all webhooks interleave freely: each reads
    the clock, looks into the cache, and on a miss lets a rule answer, reads the clock again and only
    then takes the write lock. */
module GetCache {
  import opened Machine

  /** The validity of each webhook's answers, in seconds. */
  type Config = map<string, nat>

  datatype Entry = Entry(stamp: nat, body: string)

  datatype Request =
    | Arrived(webhook: string, time: nat)
    | Asking(webhook: string, time: nat)
    | Stamped(webhook: string, entry: Entry)
    | Closed

  datatype Write = Write(webhook: string, entry: Entry)

  /** A request's look into the cache: when it arrived, what it was served, if anything, and how many
      writes there had been. */
  datatype Lookup = Lookup(webhook: string, time: nat, served: Option<string>, writes: nat)

  /** `writes`, `lookups` and `answers` record the past. */
  datatype State = State(
    clock: nat,
    cache: map<string, Entry>,
    requests: map<nat, Request>,
    writes: seq<Write>,
    lookups: seq<Lookup>,
    answers: set<(string, string)>)

  datatype Event =
    | Tick(seconds: nat)
    | Arrive(id: nat, webhook: string)
    | Look(id: nat)
    | Answer(id: nat, response: Option<string>)
    | Store(id: nat)

  function Move(s: State, id: nat, r: Request): State {
    s.(requests := s.requests[id := r])
  }

  function Find(cfg: Config, cache: map<string, Entry>, webhook: string, time: nat): Option<string> {
    if webhook in cfg && webhook in cache && AsU64(cache[webhook].stamp + cfg[webhook]) > time
    then Some(cache[webhook].body) else None
  }

  function Apply(cfg: Config, s: State, e: Event): Option<State> {
    match e
    case Tick(seconds) => Some(s.(clock := s.clock + seconds))
    case Arrive(id, webhook) =>
      if id in s.requests || webhook !in cfg then None else Some(Move(s, id, Arrived(webhook, s.clock)))
    case Look(id) =>
      if id !in s.requests || !s.requests[id].Arrived? then None
      else
        var Arrived(webhook, time) := s.requests[id];
        var found := Find(cfg, s.cache, webhook, time);
        var s' := s.(lookups := s.lookups + [Lookup(webhook, time, found, |s.writes|)]);
        Some(Move(s', id, if found.Some? then Closed else Asking(webhook, time)))
    case Answer(id, response) =>
      if id !in s.requests || !s.requests[id].Asking? then None
      else
        var webhook := s.requests[id].webhook;
        Some(match response
             case None => Move(s, id, Closed)
             case Some(body) =>
               Move(s.(answers := s.answers + {(webhook, body)}), id, Stamped(webhook, Entry(s.clock, body))))
    case Store(id) =>
      if id !in s.requests || !s.requests[id].Stamped? then None
      else
        var Stamped(webhook, entry) := s.requests[id];
        Some(Move(s.(cache := s.cache[webhook := entry], writes := s.writes + [Write(webhook, entry)]), id, Closed))
  }

  function Run(cfg: Config, s: State, events: seq<Event>): Option<State>
    decreases |events|
  {
    if events == [] then Some(s)
    else
      match Apply(cfg, s, events[0])
      case None => None
      case Some(s') => Run(cfg, s', events[1..])
  }

  /** A request is through when it was served from the cache, when its rule gave no answer, or when its answer
      is stored; a request the cache cannot serve asks its rule, and an answer is stamped when it is there. */
  lemma RequestGoesItsWay(cfg: Config, s: State, id: nat, response: Option<string>)
    requires id in s.requests
    ensures Apply(cfg, s, Look(id)).Some? <==> s.requests[id].Arrived?
    ensures Apply(cfg, s, Look(id)).Some? ==>
      var s' := Apply(cfg, s, Look(id)).value;
      && |s'.lookups| == |s.lookups| + 1 && s'.cache == s.cache
      && s'.requests[id] == if s'.lookups[|s.lookups|].served.Some? then Closed
                            else Asking(s.requests[id].webhook, s.requests[id].time)
    ensures Apply(cfg, s, Answer(id, response)).Some? <==> s.requests[id].Asking?
    ensures Apply(cfg, s, Answer(id, response)).Some? ==>
      var s' := Apply(cfg, s, Answer(id, response)).value;
      && s'.cache == s.cache && s'.writes == s.writes
      && s'.requests[id] == if response.None? then Closed
                            else Stamped(s.requests[id].webhook, Entry(s.clock, response.value))
    ensures Apply(cfg, s, Store(id)).Some? <==> s.requests[id].Stamped?
    ensures Apply(cfg, s, Store(id)).Some? ==> Apply(cfg, s, Store(id)).value.requests[id] == Closed
  {
  }

  function Start(clock: nat): State {
    State(clock, map[], map[], [], [], {})
  }

  // ---------- The reference: the latest write ----------

  function Latest(writes: seq<Write>, webhook: string): Option<Entry> {
    if writes == [] then None
    else if writes[|writes| - 1].webhook == webhook then Some(writes[|writes| - 1].entry)
    else Latest(writes[..|writes| - 1], webhook)
  }

  /** Served exactly when the latest write so far was still valid on arrival, and then its body. */
  ghost predicate Right(cfg: Config, writes: seq<Write>, l: Lookup) {
    && l.webhook in cfg && l.writes <= |writes|
    && var latest := Latest(writes[..l.writes], l.webhook);
    && (l.served.Some? <==> latest.Some? && l.time < AsU64(latest.value.stamp + cfg[l.webhook]))
    && (l.served.Some? ==> l.served.value == latest.value.body)
  }

  ghost predicate Inv(cfg: Config, s: State) {
    && (forall w ::
          && (w in s.cache <==> Latest(s.writes, w).Some?)
          && (w in s.cache ==> Latest(s.writes, w) == Some(s.cache[w])))
    && (forall i :: 0 <= i < |s.lookups| ==> Right(cfg, s.writes, s.lookups[i]))
    && (forall i :: 0 <= i < |s.writes| ==> (s.writes[i].webhook, s.writes[i].entry.body) in s.answers)
    && (forall id :: id in s.requests && s.requests[id].Stamped? ==>
          (s.requests[id].webhook, s.requests[id].entry.body) in s.answers)
    && (forall id :: id in s.requests && (s.requests[id].Arrived? || s.requests[id].Asking?) ==>
          s.requests[id].webhook in cfg)
  }

  lemma RightLater(cfg: Config, writes: seq<Write>, w: Write, l: Lookup)
    requires Right(cfg, writes, l)
    ensures Right(cfg, writes + [w], l)
  {
    assert (writes + [w])[..l.writes] == writes[..l.writes];
  }

  lemma LookKeepsInv(cfg: Config, s: State, id: nat)
    requires Inv(cfg, s) && Apply(cfg, s, Look(id)).Some?
    ensures Inv(cfg, Apply(cfg, s, Look(id)).value)
  {
    var s' := Apply(cfg, s, Look(id)).value;
    assert s.writes[..|s.writes|] == s.writes;
    forall i | 0 <= i < |s'.lookups| ensures Right(cfg, s'.writes, s'.lookups[i]) {
      if i < |s.lookups| {
        assert Right(cfg, s.writes, s.lookups[i]);
      }
    }
  }

  lemma StoreKeepsInv(cfg: Config, s: State, id: nat)
    requires Inv(cfg, s) && Apply(cfg, s, Store(id)).Some?
    ensures Inv(cfg, Apply(cfg, s, Store(id)).value)
  {
    var s' := Apply(cfg, s, Store(id)).value;
    var Stamped(webhook, entry) := s.requests[id];
    assert s'.writes[..|s.writes|] == s.writes;
    forall i | 0 <= i < |s'.lookups| ensures Right(cfg, s'.writes, s'.lookups[i]) {
      RightLater(cfg, s.writes, Write(webhook, entry), s.lookups[i]);
    }
  }

  lemma {:induction false} RunKeepsInv(cfg: Config, s: State, events: seq<Event>)
    requires Inv(cfg, s) && Run(cfg, s, events).Some?
    ensures Inv(cfg, Run(cfg, s, events).value)
    decreases |events|
  {
    if events != [] {
      match events[0] {
        case Look(id) => LookKeepsInv(cfg, s, id);
        case Store(id) => StoreKeepsInv(cfg, s, id);
        case _ =>
      }
      RunKeepsInv(cfg, Apply(cfg, s, events[0]).value, events[1..]);
    }
  }

  lemma {:induction false} LatestIsWritten(writes: seq<Write>, webhook: string)
    requires Latest(writes, webhook).Some?
    ensures exists i :: 0 <= i < |writes| && writes[i] == Write(webhook, Latest(writes, webhook).value)
  {
    if writes[|writes| - 1].webhook != webhook {
      var front := writes[..|writes| - 1];
      LatestIsWritten(front, webhook);
      var i :| 0 <= i < |front| && front[i] == Write(webhook, Latest(front, webhook).value);
      assert writes[i] == front[i];
    }
  }

  /** In every interleaving, a request is answered from the cache if and only if the webhook's latest
      write was still valid when the request arrived, then with that write's body; and that body is
      one a rule once gave for this webhook. */
  lemma ServedIsLatestValidWrite(cfg: Config, clock: nat, events: seq<Event>, i: nat)
    requires Run(cfg, Start(clock), events).Some? && i < |Run(cfg, Start(clock), events).value.lookups|
    ensures var end := Run(cfg, Start(clock), events).value;
      var l := end.lookups[i];
      && Right(cfg, end.writes, l)
      && (l.served.Some? ==> (l.webhook, l.served.value) in end.answers)
  {
    RunKeepsInv(cfg, Start(clock), events);
    var end := Run(cfg, Start(clock), events).value;
    var l := end.lookups[i];
    assert Right(cfg, end.writes, l);
    if l.served.Some? {
      LatestIsWritten(end.writes[..l.writes], l.webhook);
    }
  }

  lemma RunOfMore(cfg: Config, s: State, e: Event, rest: seq<Event>)
    requires Apply(cfg, s, e).Some?
    ensures Run(cfg, s, [e] + rest) == Run(cfg, Apply(cfg, s, e).value, rest)
  {
    assert ([e] + rest)[1..] == rest;
  }

  /** A request that misses the cache gets its rule's answer. */
  lemma Miss(cfg: Config, s: State, id: nat, webhook: string, body: string, rest: seq<Event>)
    requires id !in s.requests && webhook in cfg && webhook !in s.cache
    ensures var s' := State(s.clock, s.cache, s.requests[id := Stamped(webhook, Entry(s.clock, body))], s.writes,
                            s.lookups + [Lookup(webhook, s.clock, None, |s.writes|)], s.answers + {(webhook, body)});
      Run(cfg, s, [Arrive(id, webhook)] + ([Look(id)] + ([Answer(id, Some(body))] + rest))) == Run(cfg, s', rest)
  {
    var s1 := Apply(cfg, s, Arrive(id, webhook)).value;
    var s2 := Apply(cfg, s1, Look(id)).value;
    RunOfMore(cfg, s, Arrive(id, webhook), [Look(id)] + ([Answer(id, Some(body))] + rest));
    RunOfMore(cfg, s1, Look(id), [Answer(id, Some(body))] + rest);
    RunOfMore(cfg, s2, Answer(id, Some(body)), rest);
    assert s.requests[id := Arrived(webhook, s.clock)][id := Asking(webhook, s.clock)]
        [id := Stamped(webhook, Entry(s.clock, body))] == s.requests[id := Stamped(webhook, Entry(s.clock, body))];
  }

  /** Stamps are taken before the lock, so that of two answers the older may be stored last. */
  lemma OlderAnswerMayReplaceNewer(cfg: Config, webhook: string, older: string, newer: string)
    returns (events: seq<Event>)
    requires webhook in cfg
    ensures Run(cfg, Start(0), events).Some?
    ensures Run(cfg, Start(0), events).value.writes
         == [Write(webhook, Entry(1, newer)), Write(webhook, Entry(0, older))]
    ensures Latest(Run(cfg, Start(0), events).value.writes, webhook) == Some(Entry(0, older))
  {
    var stores := [Store(1)] + ([Store(0)] + []);
    var second := [Arrive(1, webhook)] + ([Look(1)] + ([Answer(1, Some(newer))] + stores));
    events := [Arrive(0, webhook)] + ([Look(0)] + ([Answer(0, Some(older))] + ([Tick(1)] + second)));
    Miss(cfg, Start(0), 0, webhook, older, [Tick(1)] + second);
    var l := Lookup(webhook, 0, None, 0);
    var s1 := State(0, map[], map[0 := Stamped(webhook, Entry(0, older))], [], [l], {(webhook, older)});
    assert Start(0).lookups + [l] == [l] && Start(0).answers + {(webhook, older)} == {(webhook, older)};
    RunOfMore(cfg, s1, Tick(1), second);
    var s2 := s1.(clock := 1);
    Miss(cfg, s2, 1, webhook, newer, stores);
    var s3 := State(1, map[], s2.requests[1 := Stamped(webhook, Entry(1, newer))], [],
                    [l] + [Lookup(webhook, 1, None, 0)], {(webhook, older)} + {(webhook, newer)});
    RunOfMore(cfg, s3, Store(1), [Store(0)] + []);
    RunOfMore(cfg, Apply(cfg, s3, Store(1)).value, Store(0), []);
  }

  // ---------- When stamps do not go back ----------

  /** At most one answer for this webhook waits for the lock. */
  ghost predicate OneWaiting(s: State, webhook: string) {
    forall i, j :: i in s.requests && j in s.requests && Waiting(s, i, webhook) && Waiting(s, j, webhook) ==> i == j
  }

  predicate Waiting(s: State, id: nat, webhook: string)
    requires id in s.requests
  {
    s.requests[id].Stamped? && s.requests[id].webhook == webhook
  }

  ghost predicate OneWaitingThroughout(cfg: Config, s: State, events: seq<Event>, webhook: string)
    decreases |events|
  {
    && OneWaiting(s, webhook)
    && (events != [] && Apply(cfg, s, events[0]).Some? ==>
          OneWaitingThroughout(cfg, Apply(cfg, s, events[0]).value, events[1..], webhook))
  }

  ghost predicate StampsAscend(writes: seq<Write>, webhook: string) {
    forall i, j :: 0 <= i < j < |writes| && writes[i].webhook == writes[j].webhook == webhook ==>
      writes[i].entry.stamp <= writes[j].entry.stamp
  }

  /** No write is newer than the clock, nor than an answer still waiting. */
  ghost predicate Ordered(s: State, webhook: string) {
    && StampsAscend(s.writes, webhook)
    && (forall i :: 0 <= i < |s.writes| && s.writes[i].webhook == webhook ==> s.writes[i].entry.stamp <= s.clock)
    && (forall id :: id in s.requests && Waiting(s, id, webhook) ==> NoOlder(s, id, webhook))
  }

  ghost predicate NoOlder(s: State, id: nat, webhook: string)
    requires id in s.requests && Waiting(s, id, webhook)
  {
    && s.requests[id].entry.stamp <= s.clock
    && forall i :: 0 <= i < |s.writes| && s.writes[i].webhook == webhook ==>
         s.writes[i].entry.stamp <= s.requests[id].entry.stamp
  }

  lemma StoreKeepsOrdered(cfg: Config, s: State, id: nat)
    requires id in s.requests && s.requests[id].Stamped? && Apply(cfg, s, Store(id)).Some?
    requires Ordered(s, s.requests[id].webhook) && OneWaiting(s, s.requests[id].webhook)
    ensures Ordered(Apply(cfg, s, Store(id)).value, s.requests[id].webhook)
  {
    var s', webhook := Apply(cfg, s, Store(id)).value, s.requests[id].webhook;
    assert Waiting(s, id, webhook) && NoOlder(s, id, webhook);
    forall other | other in s'.requests ensures !Waiting(s', other, webhook) {
      assert other != id ==> other in s.requests && s'.requests[other] == s.requests[other];
      assert other != id ==> !Waiting(s, other, webhook);
    }
  }

  lemma OtherStepKeepsOrdered(cfg: Config, s: State, e: Event, webhook: string)
    requires Ordered(s, webhook) && Apply(cfg, s, e).Some?
    requires e.Store? ==> s.requests[e.id].webhook != webhook
    ensures Ordered(Apply(cfg, s, e).value, webhook)
  {
    var s' := Apply(cfg, s, e).value;
    forall id | id in s'.requests && Waiting(s', id, webhook) ensures NoOlder(s', id, webhook) {
      if id in s.requests && s.requests[id] == s'.requests[id] {
        assert Waiting(s, id, webhook) && NoOlder(s, id, webhook);
      }
    }
  }

  lemma StepKeepsOrdered(cfg: Config, s: State, e: Event, webhook: string)
    requires Ordered(s, webhook) && OneWaiting(s, webhook) && Apply(cfg, s, e).Some?
    ensures Ordered(Apply(cfg, s, e).value, webhook)
  {
    if e.Store? && s.requests[e.id].webhook == webhook {
      StoreKeepsOrdered(cfg, s, e.id);
    } else {
      OtherStepKeepsOrdered(cfg, s, e, webhook);
    }
  }

  lemma {:induction false} RunKeepsOrdered(cfg: Config, s: State, events: seq<Event>, webhook: string)
    requires Ordered(s, webhook) && Run(cfg, s, events).Some? && OneWaitingThroughout(cfg, s, events, webhook)
    ensures Ordered(Run(cfg, s, events).value, webhook)
    decreases |events|
  {
    if events != [] {
      StepKeepsOrdered(cfg, s, events[0], webhook);
      RunKeepsOrdered(cfg, Apply(cfg, s, events[0]).value, events[1..], webhook);
    }
  }

  /** In every run in which no two answers for a webhook wait for the lock at once, its stamps never go
      back: the latest write is the newest. */
  lemma StampsAscendUnlessTwoWait(cfg: Config, clock: nat, events: seq<Event>, webhook: string)
    requires Run(cfg, Start(clock), events).Some? && OneWaitingThroughout(cfg, Start(clock), events, webhook)
    ensures StampsAscend(Run(cfg, Start(clock), events).value.writes, webhook)
  {
    RunKeepsOrdered(cfg, Start(clock), events, webhook);
  }
}
