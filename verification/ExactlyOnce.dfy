/** How often a message is run: no more than once, unless deleting a persisted logback from storage fails
    after it was sent again. */
module ExactlyOnce {
  import opened Machine
  import opened Shutdown

  // ---------- Every message is in one place ----------

  datatype Place =
    | Queued(pool: nat, index: nat)
    | AtWorker(worker: nat)
    | OnDelayed(index: nat)
    | Stored
    | Unsaved
    | Ended

  predicate Holds(s: State, a: Place, id: Id) {
    match a
    case Queued(p, i) => p < |s.queues| && i < |s.queues[p]| && s.queues[p][i] == id
    case AtWorker(w) => w < |s.workers| && s.workers[w].phase.Carries(id)
    case OnDelayed(i) => i < |s.delayed| && s.delayed[i] == id
    case Stored => id in s.persisted
    case Unsaved => id in s.unsaved
    case Ended => id in s.finished
  }

  ghost predicate InOnePlace(s: State, id: Id) {
    && (forall a, b :: Holds(s, a, id) && Holds(s, b, id) ==> a == b)
    && (forall a :: Holds(s, a, id) ==> id < s.next)
  }

  lemma BootedInOnePlace(cfg: Config, s: State, id: Id)
    requires Booted(cfg, s)
    ensures InOnePlace(s, id)
  {
    assert forall a :: Holds(s, a, id) ==> a == Stored;
  }

  /** Where a step took the message from that is at `a` afterwards. */
  function Origin(s: State, e: Event, a: Place, id: Id): Place {
    match e
    case Receive(w) =>
      if w >= |s.workers| then a
      else if a == AtWorker(w) then Queued(s.workers[w].pool, 0)
      else if a.Queued? && a.pool == s.workers[w].pool then Queued(a.pool, a.index + 1)
      else a
    case Finish(w) => if w < |s.workers| && a == Ended && s.workers[w].phase.Carries(id) then AtWorker(w) else a
    case Listen(stored) =>
      if a == (if stored then Stored else Unsaved) && s.delayed != [] && s.delayed[0] == id then OnDelayed(0)
      else if a.OnDelayed? then OnDelayed(a.index + 1)
      else a
    case Reinject(_, _, _) =>
      if |s.queues| > 0 && a == Queued(GENERAL, |s.queues[GENERAL]|) then Stored else a
    case _ => a
  }

  /** The one place of a message that a step took on. */
  function Arrival(s: State, e: Event): Place {
    match e
    case Produce(_, _, pool, _) => if pool < |s.queues| then Queued(pool, |s.queues[pool]|) else Stored
    case Send(w) =>
      if w < |s.workers| && s.workers[w].phase.SendingNow? && |s.queues| > 0 then Queued(GENERAL, |s.queues[GENERAL]|)
      else OnDelayed(|s.delayed|)
    case _ => Stored
  }

  predicate DeletionFailed(e: Event, id: Id) {
    e.Reinject? && e.id == id && !e.deleted
  }

  /** At its origin before the step, or just arrived. */
  predicate Traced(s: State, e: Event, s': State, a: Place, id: Id) {
    Holds(s, Origin(s, e, a, id), id) || (id == s.next < s'.next && a == Arrival(s, e))
  }

  lemma WorkerTraces(cfg: Config, s: State, w: nat, e: Event, a: Place, id: Id)
    requires w < |s.workers| && WorkerStep(cfg, s, w, e).Some? && Holds(WorkerStep(cfg, s, w, e).value, a, id)
    requires (e.Receive? || e.Start? || e.Route? || e.Send? || e.Finish? || e.Quit?) && e.worker == w
    ensures Traced(s, e, WorkerStep(cfg, s, w, e).value, a, id)
  {
  }

  lemma ProducerTraces(cfg: Config, s: State, e: Event, a: Place, id: Id)
    requires ProducerStep(cfg, s, e).Some? && Holds(ProducerStep(cfg, s, e).value, a, id)
    ensures Traced(s, e, ProducerStep(cfg, s, e).value, a, id)
  {
  }

  lemma MainTraces(s: State, e: Event, a: Place, id: Id)
    requires MainStep(s, e).Some? && Holds(MainStep(s, e).value, a, id)
    ensures Traced(s, e, MainStep(s, e).value, a, id)
  {
  }

  lemma StepTraces(cfg: Config, s: State, e: Event, a: Place, id: Id)
    requires Apply(cfg, s, e).Some? && Holds(Apply(cfg, s, e).value, a, id)
    ensures Traced(s, e, Apply(cfg, s, e).value, a, id)
  {
    match e
    case Receive(w) => WorkerTraces(cfg, s, w, e, a, id);
    case Start(w, _) => WorkerTraces(cfg, s, w, e, a, id);
    case Route(w, _) => WorkerTraces(cfg, s, w, e, a, id);
    case Send(w) => WorkerTraces(cfg, s, w, e, a, id);
    case Finish(w) => WorkerTraces(cfg, s, w, e, a, id);
    case Quit(w) => WorkerTraces(cfg, s, w, e, a, id);
    case Listen(_) => MainTraces(s, e, a, id);
    case StopListening => MainTraces(s, e, a, id);
    case Cancel => MainTraces(s, e, a, id);
    case Drop(_) => MainTraces(s, e, a, id);
    case Advance => MainTraces(s, e, a, id);
    case _ => ProducerTraces(cfg, s, e, a, id);
  }

  /** Two places have two origins, unless the message was sent again and could not be deleted. */
  lemma OriginsDiffer(cfg: Config, s: State, e: Event, a: Place, b: Place, id: Id)
    requires Apply(cfg, s, e).Some? && !DeletionFailed(e, id) && InOnePlace(s, id)
    requires Holds(Apply(cfg, s, e).value, a, id) && Holds(Apply(cfg, s, e).value, b, id)
    requires Origin(s, e, a, id) == Origin(s, e, b, id)
    ensures a == b
  {
  }

  lemma StepKeepsInOnePlace(cfg: Config, s: State, e: Event, id: Id)
    requires InOnePlace(s, id) && Apply(cfg, s, e).Some? && !DeletionFailed(e, id)
    ensures InOnePlace(Apply(cfg, s, e).value, id)
  {
    var s' := Apply(cfg, s, e).value;
    assert s.next <= s'.next;
    forall a | Holds(s', a, id) ensures id < s'.next {
      StepTraces(cfg, s, e, a, id);
    }
    forall a, b | Holds(s', a, id) && Holds(s', b, id) ensures a == b {
      StepTraces(cfg, s, e, a, id);
      StepTraces(cfg, s, e, b, id);
      if Origin(s, e, a, id) == Origin(s, e, b, id) {
        OriginsDiffer(cfg, s, e, a, b, id);
      }
    }
  }

  // ---------- How often it is handed to a worker ----------

  predicate Delivers(s: State, e: Event, id: Id) {
    && e.Receive? && e.worker < |s.workers|
    && var p := s.workers[e.worker].pool;
    p < |s.queues| && s.queues[p] != [] && s.queues[p][0] == id
  }

  /** How many times a run hands a message to a worker. */
  function Deliveries(cfg: Config, s: State, events: seq<Event>, id: Id): nat
    decreases |events|
  {
    if events == [] || Apply(cfg, s, events[0]).None? then 0
    else
      (if Delivers(s, events[0], id) then 1 else 0) +
      Deliveries(cfg, Apply(cfg, s, events[0]).value, events[1..], id)
  }

  ghost predicate Begun(s: State, id: Id) {
    Carried(s, id) || id in s.finished
  }

  ghost predicate NoDeletionFails(events: seq<Event>, id: Id) {
    forall i :: 0 <= i < |events| ==> !DeletionFailed(events[i], id)
  }

  /** Only a worker's own steps change what it carries and what is finished. */
  lemma OthersBeginNothing(cfg: Config, s: State, e: Event)
    requires Apply(cfg, s, e).Some?
    requires !(e.Receive? || e.Start? || e.Route? || e.Send? || e.Finish? || e.Quit?)
    ensures Apply(cfg, s, e).value.workers == s.workers && Apply(cfg, s, e).value.finished == s.finished
  {
  }

  lemma WorkerBegins(cfg: Config, s: State, w: nat, e: Event, id: Id)
    requires w < |s.workers| && WorkerStep(cfg, s, w, e).Some?
    ensures var s' := WorkerStep(cfg, s, w, e).value;
      && |s'.workers| == |s.workers|
      && (forall v :: 0 <= v < |s.workers| && v != w ==> s'.workers[v] == s.workers[v])
      && (e.Receive? || (s'.workers[w].phase.Carries(id) || id in s'.finished <==>
                         s.workers[w].phase.Carries(id) || id in s.finished))
      && (e.Receive? ==> s'.workers[w].phase == Received(s.queues[s.workers[w].pool][0]) && s.workers[w].phase.Idle?)
      && s.finished <= s'.finished && (e.Receive? ==> s'.finished == s.finished)
  {
  }

  ghost predicate BegunElsewhere(s: State, w: nat, id: Id) {
    id in s.finished || exists v :: 0 <= v < |s.workers| && v != w && s.workers[v].phase.Carries(id)
  }

  lemma BegunByWorker(s: State, w: nat, id: Id)
    requires w < |s.workers|
    ensures Begun(s, id) <==> s.workers[w].phase.Carries(id) || BegunElsewhere(s, w, id)
  {
  }

  lemma BegunByDelivery(cfg: Config, s: State, e: Event, id: Id)
    requires InOnePlace(s, id) && Apply(cfg, s, e).Some?
    ensures Delivers(s, e, id) ==> !Begun(s, id) && Begun(Apply(cfg, s, e).value, id)
    ensures !Delivers(s, e, id) ==> (Begun(Apply(cfg, s, e).value, id) <==> Begun(s, id))
  {
    var s' := Apply(cfg, s, e).value;
    if e.Receive? || e.Start? || e.Route? || e.Send? || e.Finish? || e.Quit? {
      var w := e.worker;
      WorkerBegins(cfg, s, w, e, id);
      BegunByWorker(s, w, id);
      BegunByWorker(s', w, id);
    } else {
      OthersBeginNothing(cfg, s, e);
    }
    if Delivers(s, e, id) {
      NotYetBegun(s, s.workers[e.worker].pool, id);
    }
  }

  lemma NotYetBegun(s: State, p: nat, id: Id)
    requires InOnePlace(s, id) && p < |s.queues| && s.queues[p] != [] && s.queues[p][0] == id
    ensures !Begun(s, id)
  {
    assert Holds(s, Queued(p, 0), id);
    if Carried(s, id) {
      var w :| 0 <= w < |s.workers| && s.workers[w].phase.Carries(id);
      assert Holds(s, AtWorker(w), id);
    } else if id in s.finished {
      assert Holds(s, Ended, id);
    }
  }

  /** A run hands a message to a worker once if it begins it, and otherwise never. */
  lemma {:induction false} DeliveredOnceIfBegun(cfg: Config, s: State, events: seq<Event>, id: Id)
    requires InOnePlace(s, id) && Run(cfg, s, events).Some? && NoDeletionFails(events, id)
    ensures InOnePlace(Run(cfg, s, events).value, id)
    ensures Deliveries(cfg, s, events, id) + (if Begun(s, id) then 1 else 0) ==
      if Begun(Run(cfg, s, events).value, id) then 1 else 0
    decreases |events|
  {
    if events != [] {
      BegunByDelivery(cfg, s, events[0], id);
      StepKeepsInOnePlace(cfg, s, events[0], id);
      DeliveredOnceIfBegun(cfg, Apply(cfg, s, events[0]).value, events[1..], id);
    }
  }

  /** From boot on, in every interleaving: when the shutdown has joined the workers, every message that was
      ever queued has been handed to a worker exactly once, provided that its deletion from storage did not fail. */
  lemma RunExactlyOnce(cfg: Config, s: State, before: seq<Event>, after: seq<Event>, id: Id)
    requires Booted(cfg, s) && Run(cfg, s, before).Some? && InExecutor(Run(cfg, s, before).value, id)
    requires Run(cfg, s, before + after).Some? && NoDeletionFails(before + after, id)
    requires Run(cfg, s, before + after).value.stage.Order() >= Flush.Order()
    ensures Deliveries(cfg, s, before + after, id) == 1
    ensures id in Run(cfg, s, before + after).value.finished
  {
    BootedInOnePlace(cfg, s, id);
    DeliveredOnceIfBegun(cfg, s, before + after, id);
    RunOfConcat(cfg, s, before, after);
    QueuedIsRun(cfg, s, before, after, id);
  }

  lemma {:induction false} RunOfConcat(cfg: Config, s: State, before: seq<Event>, after: seq<Event>)
    requires Run(cfg, s, before).Some?
    ensures Run(cfg, s, before + after) == Run(cfg, Run(cfg, s, before).value, after)
    decreases |before|
  {
    if before == [] {
      assert before + after == after;
    } else {
      assert (before + after)[1..] == before[1..] + after;
      RunOfConcat(cfg, Apply(cfg, s, before[0]).value, before[1..], after);
    }
  }

  // ---------- The failed deletion ----------

  lemma OneMore(cfg: Config, s: State, e: Event, rest: seq<Event>, id: Id)
    requires Apply(cfg, s, e).Some?
    ensures var s' := Apply(cfg, s, e).value;
      && Run(cfg, s, [e] + rest) == Run(cfg, s', rest)
      && Deliveries(cfg, s, [e] + rest, id) == (if Delivers(s, e, id) then 1 else 0) + Deliveries(cfg, s', rest, id)
  {
    assert ([e] + rest)[1..] == rest;
  }

  lemma Reinjected(cfg: Config, s: State, g: nat, id: Id, deleted: bool)
    requires |s.queues| > 0 && s.queues[GENERAL] == [] && |cfg.capacity| > 0 && cfg.capacity[GENERAL] > 0
    requires g < |s.generators| && s.generators[g].Active? && s.generators[g].fuel > 0 && id in s.persisted
    ensures Apply(cfg, s, Reinject(g, id, deleted)) ==
      Some(s.(queues := s.queues[GENERAL := [id]],
              generators := s.generators[g := Active(s.generators[g].fuel - 1)],
              persisted := if deleted then s.persisted - {id} else s.persisted))
  {
    assert s.queues[GENERAL] + [id] == [id];
  }

  /** A queued message is run to the end. */
  lemma RunQueued(cfg: Config, s: State, w: nat, id: Id, rest: seq<Event>) returns (events: seq<Event>)
    requires |s.queues| > 0 && s.queues[GENERAL] == [id]
    requires w < |s.workers| && s.workers[w] == Worker(GENERAL, Phase.Idle)
    ensures events == [Receive(w), Start(w, 0), Finish(w)] + rest
    ensures var s' := s.(queues := s.queues[GENERAL := []], finished := s.finished + {id});
      && Run(cfg, s, events) == Run(cfg, s', rest)
      && Deliveries(cfg, s, events, id) == 1 + Deliveries(cfg, s', rest, id)
  {
    var s1 := s.(queues := s.queues[GENERAL := []], workers := s.workers[w := Worker(GENERAL, Received(id))]);
    var running := Running(id, 0, !s.Cancelled() && ImmediateDispatch in s.held);
    var s2 := s1.(workers := s.workers[w := Worker(GENERAL, running)]);
    var s3 := s.(queues := s.queues[GENERAL := []], finished := s.finished + {id});
    assert s.queues[GENERAL][1..] == [];
    assert Apply(cfg, s, Receive(w)) == Some(s1);
    assert s1.workers[w := s2.workers[w]] == s2.workers && s2.workers[w := s.workers[w]] == s.workers;
    assert Apply(cfg, s1, Start(w, 0)) == Some(s2);
    assert Apply(cfg, s2, Finish(w)) == Some(s3);
    OneMore(cfg, s, Receive(w), [Start(w, 0)] + ([Finish(w)] + rest), id);
    OneMore(cfg, s1, Start(w, 0), [Finish(w)] + rest, id);
    OneMore(cfg, s2, Finish(w), rest, id);
    events := [Receive(w)] + ([Start(w, 0)] + ([Finish(w)] + rest));
  }

  /** A persisted logback goes back into the queue and is run to the end. */
  lemma SentAgain(cfg: Config, s: State, g: nat, w: nat, id: Id, deleted: bool, rest: seq<Event>)
    returns (events: seq<Event>)
    requires |s.queues| > 0 && s.queues[GENERAL] == [] && |cfg.capacity| > 0 && cfg.capacity[GENERAL] > 0
    requires g < |s.generators| && s.generators[g].Active? && s.generators[g].fuel > 0 && id in s.persisted
    requires w < |s.workers| && s.workers[w] == Worker(GENERAL, Phase.Idle)
    ensures events == [Reinject(g, id, deleted), Receive(w), Start(w, 0), Finish(w)] + rest
    ensures var s' := s.(generators := s.generators[g := Active(s.generators[g].fuel - 1)],
                         persisted := if deleted then s.persisted - {id} else s.persisted,
                         finished := s.finished + {id});
      && Run(cfg, s, events) == Run(cfg, s', rest)
      && Deliveries(cfg, s, events, id) == 1 + Deliveries(cfg, s', rest, id)
  {
    Reinjected(cfg, s, g, id, deleted);
    var s1 := Apply(cfg, s, Reinject(g, id, deleted)).value;
    assert s1.queues[GENERAL := []] == s.queues;
    var run := RunQueued(cfg, s1, w, id, rest);
    OneMore(cfg, s, Reinject(g, id, deleted), run, id);
    events := [Reinject(g, id, deleted)] + run;
  }

  /** Whenever a logback is waiting in storage, one failed deletion is enough for it to be run twice. */
  lemma FailedDeletionRunsTwice(cfg: Config, s: State, g: nat, w: nat, id: Id) returns (events: seq<Event>)
    requires Booted(cfg, s) && id in s.persisted
    requires g < |s.generators| && s.generators[g].fuel >= 2
    requires w < |s.workers| && s.workers[w].pool == GENERAL
    ensures Run(cfg, s, events).Some? && Deliveries(cfg, s, events, id) == 2
    ensures |events| > 0 && DeletionFailed(events[0], id) && NoDeletionFails(events[1..], id)
  {
    var s' := s.(generators := s.generators[g := Active(s.generators[g].fuel - 1)], finished := s.finished + {id});
    var second := SentAgain(cfg, s', g, w, id, true, []);
    events := SentAgain(cfg, s, g, w, id, false, second);
  }
}
