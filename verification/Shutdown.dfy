/** Graceful shutdown: cancel, join the producers, drop every sender, let the workers drain, flush
    the delayed logbacks. Every thread moves on its own; one atomic action is a step. */
module Shutdown {
  import opened Machine

  type Id = nat

  /** A data generator or a server: it still makes `fuel` sends before it looks at the cancellation
      again. A server may wait for the answer to a GET message. */
  datatype Producer = Active(fuel: nat) | Awaiting(id: Id, fuel: nat) | Exited

  /** A worker thread. A running rule makes up to `fuel` logbacks and may own a sender to the general
      queue. A logback first picks its route (checking the cancellation) and sends in a later step. */
  datatype Phase =
    | Idle
    | Received(id: Id)
    | Running(id: Id, fuel: nat, sender: bool)
    | SendingNow(id: Id, fuel: nat)
    | SendingLater(id: Id, fuel: nat, sender: bool)
    | Gone
  {
    predicate Carries(x: Id) {
      !Idle? && !Gone? && id == x
    }

    predicate HoldsSender() {
      SendingNow? || (Running? && sender) || (SendingLater? && sender)
    }
  }

  datatype Worker = Worker(pool: nat, phase: Phase)

  /** What `main` still owns that keeps queues connected. */
  datatype Handle = Metrics | LogSender | Pools | ImmediateDispatch | ExecutorHandle

  datatype Stage = Serving | JoinGenerators | JoinServers | DropHandles | JoinWorkers | Flush | Done
  {
    function Order(): nat {
      match this
      case Serving => 0
      case JoinGenerators => 1
      case JoinServers => 2
      case DropHandles => 3
      case JoinWorkers => 4
      case Flush => 5
      case Done => 6
    }
  }

  /** Queue 0 is the general one, the others are dedicated to a log type. */
  const GENERAL: nat := 0

  datatype Config = Config(capacity: seq<nat>, delayedCapacity: nat)

  /** `accepted` is every message ever taken on, over any channel; `deferred` are those among them that came
      in over the delayed channel or were in storage at boot; `unsaved` are those whose storing failed. */
  datatype State = State(
    stage: Stage,
    held: set<Handle>,
    generators: seq<Producer>,
    servers: seq<Producer>,
    listening: bool,
    workers: seq<Worker>,
    queues: seq<seq<Id>>,
    delayed: seq<Id>,
    persisted: set<Id>,
    unsaved: set<Id>,
    deferred: set<Id>,
    accepted: set<Id>,
    finished: set<Id>,
    next: Id)
  {
    predicate Cancelled() {
      stage != Serving
    }
  }

  /** Some sender of the queue is still alive. */
  predicate Connected(s: State, pool: nat) {
    if pool == GENERAL then
      || s.held != {}
      || (exists i :: 0 <= i < |s.generators| && !s.generators[i].Exited?)
      || (exists i :: 0 <= i < |s.servers| && !s.servers[i].Exited?)
      || (exists w :: 0 <= w < |s.workers| && s.workers[w].phase.HoldsSender())
    else
      || Metrics in s.held || Pools in s.held || ExecutorHandle in s.held
      || (exists i :: 0 <= i < |s.servers| && !s.servers[i].Exited?)
  }

  datatype SendMode = Blocking | Try | TryAndAwait

  datatype Event =
    | Produce(server: bool, index: nat, pool: nat, mode: SendMode)
    | Reinject(index: nat, id: Id, deleted: bool)
    | Resume(index: nat)
    | Refuel(server: bool, index: nat, fuel: nat)
    | Leave(server: bool, index: nat)
    | Listen(stored: bool)
    | StopListening
    | Receive(worker: nat)
    | Start(worker: nat, fuel: nat)
    | Route(worker: nat, delay: nat)
    | Send(worker: nat)
    | Finish(worker: nat)
    | Quit(worker: nat)
    | Cancel
    | Drop(handle: Handle)
    | Advance

  predicate HasRoom(cfg: Config, s: State, pool: nat)
    requires pool < |s.queues|
  {
    pool < |cfg.capacity| && |s.queues[pool]| < cfg.capacity[pool]
  }

  /** A new message enters a queue. */
  function Enqueue(s: State, pool: nat): State
    requires pool < |s.queues|
  {
    s.(queues := s.queues[pool := s.queues[pool] + [s.next]], accepted := s.accepted + {s.next}, next := s.next + 1)
  }

  function SetProducer(s: State, server: bool, index: nat, p: Producer): State
    requires index < |if server then s.servers else s.generators|
  {
    if server then s.(servers := s.servers[index := p]) else s.(generators := s.generators[index := p])
  }

  function GetProducer(s: State, server: bool, index: nat): Option<Producer> {
    var producers := if server then s.servers else s.generators;
    if index < |producers| then Some(producers[index]) else None
  }

  function ProducerStep(cfg: Config, s: State, e: Event): Option<State> {
    match e
    case Produce(server, index, pool, mode) =>
      (match GetProducer(s, server, index)
       case Some(Active(fuel)) =>
         if fuel == 0 || pool >= |s.queues| || (!server && pool != GENERAL) then None
         else if HasRoom(cfg, s, pool) then
           if mode.TryAndAwait? && server
           then Some(SetProducer(Enqueue(s, pool), server, index, Awaiting(s.next, fuel - 1)))
           else Some(SetProducer(Enqueue(s, pool), server, index, Active(fuel - 1)))
         else if mode.Blocking? then None
         else Some(SetProducer(s, server, index, Active(fuel - 1)))
       case _ => None)
    case Reinject(index, id, deleted) =>
      (match GetProducer(s, false, index)
       case Some(Active(fuel)) =>
         if fuel == 0 || id !in s.persisted || |s.queues| == 0 || !HasRoom(cfg, s, GENERAL) then None
         else Some(SetProducer(s, false, index, Active(fuel - 1)).(
                     queues := s.queues[GENERAL := s.queues[GENERAL] + [id]],
                     persisted := if deleted then s.persisted - {id} else s.persisted))
       case _ => None)
    case Resume(index) =>
      (match GetProducer(s, true, index)
       case Some(Awaiting(id, fuel)) =>
         if id in s.finished then Some(SetProducer(s, true, index, Active(fuel))) else None
       case _ => None)
    case Refuel(server, index, fuel) =>
      (match GetProducer(s, server, index)
       case Some(Active(_)) => if s.Cancelled() then None else Some(SetProducer(s, server, index, Active(fuel)))
       case _ => None)
    case Leave(server, index) =>
      (match GetProducer(s, server, index)
       case Some(Active(_)) => Some(SetProducer(s, server, index, Exited))
       case _ => None)
    case _ => None
  }

  function Move(s: State, w: nat, phase: Phase): State
    requires w < |s.workers|
  {
    s.(workers := s.workers[w := s.workers[w].(phase := phase)])
  }

  function WorkerStep(cfg: Config, s: State, w: nat, e: Event): Option<State>
    requires w < |s.workers|
  {
    var pool := s.workers[w].pool;
    var phase := s.workers[w].phase;
    match e
    case Receive(_) =>
      if !phase.Idle? || pool >= |s.queues| || s.queues[pool] == [] then None
      else Some(Move(s.(queues := s.queues[pool := s.queues[pool][1..]]), w, Received(s.queues[pool][0])))
    case Start(_, fuel) =>
      if !phase.Received? then None
      else Some(Move(s, w, Running(phase.id, fuel, !s.Cancelled() && ImmediateDispatch in s.held)))
    case Route(_, delay) =>
      if !phase.Running? || phase.fuel == 0 then None
      else if !s.Cancelled() && delay == 0 && phase.sender then Some(Move(s, w, SendingNow(phase.id, phase.fuel)))
      else Some(Move(s, w, SendingLater(phase.id, phase.fuel, phase.sender)))
    case Send(_) =>
      (match phase
       case SendingNow(id, fuel) =>
         if fuel == 0 || |s.queues| == 0 then None
         else Some(Move(if HasRoom(cfg, s, GENERAL) then Enqueue(s, GENERAL) else s, w, Running(id, fuel - 1, true)))
       case SendingLater(id, fuel, sender) =>
         if fuel == 0 then None
         else Some(Move(if |s.delayed| < cfg.delayedCapacity
                        then s.(delayed := s.delayed + [s.next], deferred := s.deferred + {s.next},
                                accepted := s.accepted + {s.next}, next := s.next + 1)
                        else s, w, Running(id, fuel - 1, sender)))
       case _ => None)
    case Finish(_) =>
      if !phase.Running? then None else Some(Move(s.(finished := s.finished + {phase.id}), w, Idle))
    case Quit(_) =>
      if !phase.Idle? || pool >= |s.queues| || s.queues[pool] != [] || Connected(s, pool) then None
      else Some(Move(s, w, Gone))
    case _ => None
  }

  function MainStep(s: State, e: Event): Option<State> {
    match e
    case Listen(stored) =>
      if (!s.listening && s.stage != Flush) || s.delayed == [] then None
      else if stored then Some(s.(delayed := s.delayed[1..], persisted := s.persisted + {s.delayed[0]}))
      else Some(s.(delayed := s.delayed[1..], unsaved := s.unsaved + {s.delayed[0]}))
    case StopListening =>
      if s.listening && s.Cancelled() then Some(s.(listening := false)) else None
    case Cancel =>
      if s.stage == Serving then Some(s.(stage := JoinGenerators)) else None
    case Drop(h) =>
      if s.stage == DropHandles && h in s.held then Some(s.(held := s.held - {h})) else None
    case Advance =>
      (match s.stage
       case JoinGenerators =>
         if !s.listening && forall i :: 0 <= i < |s.generators| ==> s.generators[i].Exited?
         then Some(s.(stage := JoinServers)) else None
       case JoinServers =>
         if forall i :: 0 <= i < |s.servers| ==> s.servers[i].Exited? then Some(s.(stage := DropHandles)) else None
       case DropHandles => if s.held == {} then Some(s.(stage := JoinWorkers)) else None
       case JoinWorkers =>
         if forall w :: 0 <= w < |s.workers| ==> s.workers[w].phase.Gone? then Some(s.(stage := Flush)) else None
       case Flush => if s.delayed == [] then Some(s.(stage := Done)) else None
       case _ => None)
    case _ => None
  }

  function Apply(cfg: Config, s: State, e: Event): Option<State> {
    match e
    case Receive(w) => if w < |s.workers| then WorkerStep(cfg, s, w, e) else None
    case Start(w, _) => if w < |s.workers| then WorkerStep(cfg, s, w, e) else None
    case Route(w, _) => if w < |s.workers| then WorkerStep(cfg, s, w, e) else None
    case Send(w) => if w < |s.workers| then WorkerStep(cfg, s, w, e) else None
    case Finish(w) => if w < |s.workers| then WorkerStep(cfg, s, w, e) else None
    case Quit(w) => if w < |s.workers| then WorkerStep(cfg, s, w, e) else None
    case Listen(_) => MainStep(s, e)
    case StopListening => MainStep(s, e)
    case Cancel => MainStep(s, e)
    case Drop(_) => MainStep(s, e)
    case Advance => MainStep(s, e)
    case _ => ProducerStep(cfg, s, e)
  }

  function Run(cfg: Config, s: State, events: seq<Event>): Option<State>
    decreases |events|
  {
    if events == [] then Some(s)
    else
      match Apply(cfg, s, events[0])
      case None => None
      case Some(s') => Run(cfg, s', events[1..])
  }

  // ---------- What holds throughout ----------

  ghost predicate InQueue(s: State, id: Id) {
    exists p :: 0 <= p < |s.queues| && id in s.queues[p]
  }

  ghost predicate Carried(s: State, id: Id) {
    exists w :: 0 <= w < |s.workers| && s.workers[w].phase.Carries(id)
  }

  /** Queued, in a worker's hands, or done. */
  ghost predicate InExecutor(s: State, id: Id) {
    InQueue(s, id) || Carried(s, id) || id in s.finished
  }

  ghost predicate Located(s: State, id: Id) {
    InExecutor(s, id) || id in s.delayed || id in s.persisted || id in s.unsaved
  }

  ghost predicate HasWorker(s: State, p: nat) {
    exists w :: 0 <= w < |s.workers| && s.workers[w].pool == p
  }

  /** Static shape: every queue has a worker. */
  ghost predicate Staffed(cfg: Config, s: State) {
    && |s.queues| == |cfg.capacity| > 0
    && (forall p :: 0 <= p < |s.queues| ==> cfg.capacity[p] > 0)
    && (forall w :: 0 <= w < |s.workers| ==> s.workers[w].pool < |s.queues|)
    && (forall p :: 0 <= p < |s.queues| ==> HasWorker(s, p))
  }

  /** A worker only leaves a queue that is empty and can never be filled again. */
  ghost predicate GoneForGood(s: State) {
    forall w :: 0 <= w < |s.workers| && s.workers[w].phase.Gone? && s.workers[w].pool < |s.queues| ==>
      s.queues[s.workers[w].pool] == [] && !Connected(s, s.workers[w].pool)
  }

  ghost predicate AllExited(producers: seq<Producer>) {
    forall i :: 0 <= i < |producers| ==> producers[i].Exited?
  }

  ghost predicate AllGone(workers: seq<Worker>) {
    forall w :: 0 <= w < |workers| ==> workers[w].phase.Gone?
  }

  ghost predicate StagesPassed(s: State) {
    && (s.stage.Order() >= 2 ==> AllExited(s.generators) && !s.listening)
    && (s.stage.Order() >= 3 ==> AllExited(s.servers))
    && (s.stage.Order() >= 4 ==> s.held == {})
    && (s.stage.Order() >= 5 ==> AllGone(s.workers))
    && (s.stage.Order() >= 6 ==> s.delayed == [])
  }

  ghost predicate PhasesOk(s: State) {
    && WorkersOk(s.workers)
    && (forall i :: 0 <= i < |s.generators| ==> !s.generators[i].Awaiting?)
  }

  ghost predicate AwaitedInExecutor(s: State) {
    forall i :: 0 <= i < |s.servers| && s.servers[i].Awaiting? ==> InExecutor(s, s.servers[i].id)
  }

  ghost predicate NothingLost(s: State) {
    forall id :: id in s.accepted ==> Located(s, id) && id < s.next && (InExecutor(s, id) || id in s.deferred)
  }

  ghost predicate Inv(cfg: Config, s: State) {
    && Staffed(cfg, s) && GoneForGood(s) && StagesPassed(s) && PhasesOk(s) && AwaitedInExecutor(s) && NothingLost(s)
  }

  /** At boot nothing is queued; logbacks persisted by an earlier run are waiting in storage. */
  ghost predicate Booted(cfg: Config, s: State) {
    && Staffed(cfg, s) && s.stage == Serving
    && (forall p :: 0 <= p < |s.queues| ==> s.queues[p] == [])
    && (forall w :: 0 <= w < |s.workers| ==> s.workers[w].phase.Idle?)
    && (forall i :: 0 <= i < |s.generators| ==> s.generators[i].Active?)
    && (forall i :: 0 <= i < |s.servers| ==> s.servers[i].Active?)
    && s.delayed == [] && s.finished == {} && s.unsaved == {} && s.accepted == s.persisted == s.deferred
    && forall id :: id in s.accepted ==> id < s.next
  }

  lemma BootedInv(cfg: Config, s: State)
    requires Booted(cfg, s)
    ensures Inv(cfg, s)
  {
  }

  ghost predicate SameShape(s: State, s': State) {
    && |s'.queues| == |s.queues| && |s'.workers| == |s.workers|
    && |s'.generators| == |s.generators| && |s'.servers| == |s.servers|
    && (forall w :: 0 <= w < |s.workers| ==> s'.workers[w].pool == s.workers[w].pool)
  }

  lemma ProducerKeepsShape(cfg: Config, s: State, e: Event)
    requires ProducerStep(cfg, s, e).Some?
    ensures SameShape(s, ProducerStep(cfg, s, e).value)
  {
  }

  lemma WorkerKeepsShape(cfg: Config, s: State, w: nat, e: Event)
    requires w < |s.workers| && WorkerStep(cfg, s, w, e).Some?
    ensures SameShape(s, WorkerStep(cfg, s, w, e).value)
  {
  }

  lemma StepKeepsShape(cfg: Config, s: State, e: Event)
    requires Apply(cfg, s, e).Some?
    ensures SameShape(s, Apply(cfg, s, e).value)
  {
    match e
    case Receive(w) => WorkerKeepsShape(cfg, s, w, e);
    case Start(w, _) => WorkerKeepsShape(cfg, s, w, e);
    case Route(w, _) => WorkerKeepsShape(cfg, s, w, e);
    case Send(w) => WorkerKeepsShape(cfg, s, w, e);
    case Finish(w) => WorkerKeepsShape(cfg, s, w, e);
    case Quit(w) => WorkerKeepsShape(cfg, s, w, e);
    case Listen(_) =>
    case StopListening =>
    case Cancel =>
    case Drop(_) =>
    case Advance =>
    case _ => ProducerKeepsShape(cfg, s, e);
  }

  lemma StepKeepsStaffed(cfg: Config, s: State, e: Event)
    requires Staffed(cfg, s) && Apply(cfg, s, e).Some?
    ensures Staffed(cfg, Apply(cfg, s, e).value)
  {
    StepKeepsShape(cfg, s, e);
    var s' := Apply(cfg, s, e).value;
    forall p | 0 <= p < |s'.queues| ensures HasWorker(s', p) {
      assert HasWorker(s, p);
      var w :| 0 <= w < |s.workers| && s.workers[w].pool == p;
      assert s'.workers[w].pool == p;
    }
  }

  // ---------- Where a message is ----------

  lemma AppendKeepsQueued(s: State, s': State, pool: nat, x: Id, id: Id)
    requires pool < |s.queues| && s'.queues == s.queues[pool := s.queues[pool] + [x]]
    ensures InQueue(s, id) || id == x ==> InQueue(s', id)
  {
    if InQueue(s, id) {
      var p :| 0 <= p < |s.queues| && id in s.queues[p];
      assert id in s'.queues[p];
    } else if id == x {
      assert id in s'.queues[pool];
    }
  }

  lemma ProducerKeepsLocation(cfg: Config, s: State, e: Event, id: Id)
    requires ProducerStep(cfg, s, e).Some?
    ensures var s' := ProducerStep(cfg, s, e).value;
      && (InExecutor(s, id) ==> InExecutor(s', id))
      && (Located(s, id) || id in s'.accepted - s.accepted ==> Located(s', id))
      && (id in s'.accepted - s.accepted ==> InQueue(s', id))
      && s'.deferred == s.deferred
  {
    var s' := ProducerStep(cfg, s, e).value;
    if Carried(s, id) {
      var w :| 0 <= w < |s.workers| && s.workers[w].phase.Carries(id);
      assert s'.workers[w].phase.Carries(id);
    }
    match e
    case Produce(_, _, pool, _) =>
      if s'.queues != s.queues {
        AppendKeepsQueued(s, s', pool, s.next, id);
      }
    case Reinject(_, x, _) => AppendKeepsQueued(s, s', GENERAL, x, id);
    case _ =>
  }

  /** A worker's own message stays with it until it is finished. */
  lemma CarriedAfterMove(s: State, s': State, w: nat, id: Id)
    requires w < |s.workers| == |s'.workers| && s'.workers == s.workers[w := s'.workers[w]]
    requires s.workers[w].phase.Carries(id) ==> s'.workers[w].phase.Carries(id) || id in s'.finished
    ensures Carried(s, id) ==> Carried(s', id) || id in s'.finished
  {
    if Carried(s, id) {
      var v :| 0 <= v < |s.workers| && s.workers[v].phase.Carries(id);
      assert v != w ==> s'.workers[v].phase.Carries(id);
    }
  }

  lemma ReceiveKeepsLocation(cfg: Config, s: State, w: nat, id: Id)
    requires w < |s.workers| && WorkerStep(cfg, s, w, Receive(w)).Some?
    ensures var s' := WorkerStep(cfg, s, w, Receive(w)).value; InQueue(s, id) ==> InQueue(s', id) || Carried(s', id)
  {
    var s' := WorkerStep(cfg, s, w, Receive(w)).value;
    if InQueue(s, id) {
      var p :| 0 <= p < |s.queues| && id in s.queues[p];
      if p == s.workers[w].pool && s.queues[p][0] == id {
        assert s'.workers[w].phase.Carries(id);
      } else {
        assert id in s'.queues[p];
      }
    }
  }

  lemma WorkerKeepsLocation(cfg: Config, s: State, w: nat, e: Event, id: Id)
    requires w < |s.workers| && WorkerStep(cfg, s, w, e).Some?
    requires e.Receive? ==> e == Receive(w)
    ensures var s' := WorkerStep(cfg, s, w, e).value;
      && (InExecutor(s, id) ==> InExecutor(s', id))
      && (Located(s, id) || id in s'.accepted - s.accepted ==> Located(s', id))
      && (id in s'.accepted - s.accepted ==> InExecutor(s', id) || id in s'.deferred)
      && s.deferred <= s'.deferred
  {
    var s' := WorkerStep(cfg, s, w, e).value;
    CarriedAfterMove(s, s', w, id);
    if e.Receive? {
      ReceiveKeepsLocation(cfg, s, w, id);
    } else if s'.queues != s.queues {
      AppendKeepsQueued(s, s', GENERAL, s.next, id);
    }
  }

  lemma MainKeepsLocation(s: State, e: Event, id: Id)
    requires MainStep(s, e).Some?
    ensures var s' := MainStep(s, e).value;
      && s'.accepted == s.accepted && s'.deferred == s.deferred
      && (InExecutor(s, id) ==> InExecutor(s', id))
      && (Located(s, id) ==> Located(s', id))
  {
    var s' := MainStep(s, e).value;
    if Carried(s, id) {
      var w :| 0 <= w < |s.workers| && s.workers[w].phase.Carries(id);
      assert s'.workers[w].phase.Carries(id);
    }
    assert InQueue(s, id) ==> InQueue(s', id) by {
      if InQueue(s, id) {
        var p :| 0 <= p < |s.queues| && id in s.queues[p];
        assert id in s'.queues[p];
      }
    }
  }

  lemma StepKeepsLocation(cfg: Config, s: State, e: Event, id: Id)
    requires Apply(cfg, s, e).Some?
    ensures var s' := Apply(cfg, s, e).value;
      && (InExecutor(s, id) ==> InExecutor(s', id))
      && (Located(s, id) || id in s'.accepted - s.accepted ==> Located(s', id))
      && (id in s'.accepted - s.accepted ==> InExecutor(s', id) || id in s'.deferred)
      && (e.Produce? && id in s'.accepted - s.accepted ==> InExecutor(s', id))
      && s.deferred <= s'.deferred
  {
    match e
    case Receive(w) => WorkerKeepsLocation(cfg, s, w, e, id);
    case Start(w, _) => WorkerKeepsLocation(cfg, s, w, e, id);
    case Route(w, _) => WorkerKeepsLocation(cfg, s, w, e, id);
    case Send(w) => WorkerKeepsLocation(cfg, s, w, e, id);
    case Finish(w) => WorkerKeepsLocation(cfg, s, w, e, id);
    case Quit(w) => WorkerKeepsLocation(cfg, s, w, e, id);
    case Listen(_) => MainKeepsLocation(s, e, id);
    case StopListening => MainKeepsLocation(s, e, id);
    case Cancel => MainKeepsLocation(s, e, id);
    case Drop(_) => MainKeepsLocation(s, e, id);
    case Advance => MainKeepsLocation(s, e, id);
    case _ => ProducerKeepsLocation(cfg, s, e, id);
  }

  lemma StepKeepsNothingLost(cfg: Config, s: State, e: Event)
    requires NothingLost(s) && Apply(cfg, s, e).Some?
    ensures NothingLost(Apply(cfg, s, e).value)
  {
    var s' := Apply(cfg, s, e).value;
    forall id | id in s'.accepted
      ensures Located(s', id) && id < s'.next && (InExecutor(s', id) || id in s'.deferred)
    {
      StepKeepsLocation(cfg, s, e, id);
    }
  }

  lemma StepKeepsAwaited(cfg: Config, s: State, e: Event)
    requires AwaitedInExecutor(s) && NothingLost(s) && Apply(cfg, s, e).Some?
    ensures AwaitedInExecutor(Apply(cfg, s, e).value)
  {
    var s' := Apply(cfg, s, e).value;
    StepKeepsShape(cfg, s, e);
    forall i | 0 <= i < |s'.servers| && s'.servers[i].Awaiting? ensures InExecutor(s', s'.servers[i].id) {
      StepKeepsLocation(cfg, s, e, s'.servers[i].id);
      if s'.servers[i] != s.servers[i] {
        assert e.Produce?;
        assert s'.servers[i].id == s.next;
        assert s.next !in s.accepted;
      }
    }
  }

  // ---------- What is accepted, and in which order it is taken ----------

  /** A send on the immediate route with room in the general queue is accepted there, whatever was cancelled
      since the route was picked. */
  lemma SendWithRoomIsQueued(cfg: Config, s: State, w: nat)
    requires w < |s.workers| && s.workers[w].phase.SendingNow? && s.workers[w].phase.fuel > 0
    requires |s.queues| > 0 && HasRoom(cfg, s, GENERAL)
    ensures Apply(cfg, s, Send(w)).Some?
    ensures var s' := Apply(cfg, s, Send(w)).value;
      && s'.queues[GENERAL] == s.queues[GENERAL] + [s.next]
      && s.next in s'.accepted && InQueue(s', s.next) && s.next < s'.next
  {
    var s' := Apply(cfg, s, Send(w)).value;
    assert s.next in s'.queues[GENERAL];
  }

  /** A send on the delayed route with room is accepted on the delayed channel. */
  lemma SendLaterWithRoomIsDelayed(cfg: Config, s: State, w: nat)
    requires w < |s.workers| && s.workers[w].phase.SendingLater? && s.workers[w].phase.fuel > 0
    requires |s.delayed| < cfg.delayedCapacity
    ensures Apply(cfg, s, Send(w)).Some?
    ensures var s' := Apply(cfg, s, Send(w)).value;
      && s'.delayed == s.delayed + [s.next]
      && s.next in s'.accepted && s.next in s'.deferred && s.next < s'.next
  {
  }

  /** With or without room the rule goes on with its own message, with one send less to make, and with the
      sender it had. */
  lemma RuleGoesOnAfterSend(cfg: Config, s: State, w: nat)
    requires w < |s.workers| && Apply(cfg, s, Send(w)).Some?
    ensures var before, after := s.workers[w].phase, Apply(cfg, s, Send(w)).value.workers[w].phase;
      && after.Running? && after.id == before.id && after.fuel + 1 == before.fuel
      && (after.sender <==> before.HoldsSender())
    ensures var s' := Apply(cfg, s, Send(w)).value;
      s'.next == s.next ==> s'.accepted == s.accepted && s'.queues == s.queues && s'.delayed == s.delayed
  {
  }

  /** A producer's send with room is accepted, in every mode; only a server that asked for an answer waits,
      and it waits for the message it sent. */
  lemma ProducedWithRoomIsQueued(cfg: Config, s: State, server: bool, index: nat, pool: nat, mode: SendMode)
    requires index < |if server then s.servers else s.generators|
    requires var p := (if server then s.servers else s.generators)[index]; p.Active? && p.fuel > 0
    requires pool < |s.queues| && (server || pool == GENERAL) && HasRoom(cfg, s, pool)
    ensures Apply(cfg, s, Produce(server, index, pool, mode)).Some?
    ensures var s' := Apply(cfg, s, Produce(server, index, pool, mode)).value;
      && s'.queues[pool] == s.queues[pool] + [s.next]
      && s.next in s'.accepted && InQueue(s', s.next) && s.next < s'.next
      && var p, p' := (if server then s.servers else s.generators)[index],
                      (if server then s'.servers else s'.generators)[index];
      && p'.fuel + 1 == p.fuel
      && (if mode.TryAndAwait? && server then p'.Awaiting? && p'.id == s.next else p'.Active?)
  {
    var s' := Apply(cfg, s, Produce(server, index, pool, mode)).value;
    assert s.next in s'.queues[pool];
  }

  /** A logback taken from storage with room goes back into the general queue, and is then deleted from
      storage; if that fails it stays there too. */
  lemma ReinjectedWithRoomIsQueued(cfg: Config, s: State, index: nat, id: Id, deleted: bool)
    requires index < |s.generators| && s.generators[index].Active? && s.generators[index].fuel > 0
    requires id in s.persisted && |s.queues| > 0 && HasRoom(cfg, s, GENERAL)
    ensures Apply(cfg, s, Reinject(index, id, deleted)).Some?
    ensures var s' := Apply(cfg, s, Reinject(index, id, deleted)).value;
      && s'.queues[GENERAL] == s.queues[GENERAL] + [id] && InQueue(s', id)
      && s'.persisted == (if deleted then s.persisted - {id} else s.persisted)
  {
    var s' := Apply(cfg, s, Reinject(index, id, deleted)).value;
    assert id in s'.queues[GENERAL];
  }

  /** A rule started before the cancellation has a sender; an undelayed logback it makes before the
      cancellation takes the immediate route, any other logback the delayed one. */
  lemma RouteOfLogback(cfg: Config, s: State, w: nat, delay: nat)
    requires w < |s.workers| && s.workers[w].phase.Running? && s.workers[w].phase.fuel > 0
    ensures Apply(cfg, s, Route(w, delay)).Some?
    ensures var after := Apply(cfg, s, Route(w, delay)).value.workers[w].phase;
      if s.workers[w].phase.sender && !s.Cancelled() && delay == 0 then after.SendingNow? else after.SendingLater?
    ensures var before, after := s.workers[w].phase, Apply(cfg, s, Route(w, delay)).value.workers[w].phase;
      after.id == before.id && after.fuel == before.fuel
  {
  }

  lemma StartedWithSender(cfg: Config, s: State, w: nat, fuel: nat)
    requires w < |s.workers| && s.workers[w].phase.Received?
    ensures Apply(cfg, s, Start(w, fuel)).Some?
    ensures var after := Apply(cfg, s, Start(w, fuel)).value.workers[w].phase;
      after == Running(s.workers[w].phase.id, fuel, !s.Cancelled() && ImmediateDispatch in s.held)
  {
  }

  /** Without room only a blocking producer waits; the others give the message up and go on. */
  lemma ProducedWithoutRoom(cfg: Config, s: State, server: bool, index: nat, pool: nat, mode: SendMode)
    requires index < |if server then s.servers else s.generators|
    requires var p := (if server then s.servers else s.generators)[index]; p.Active? && p.fuel > 0
    requires pool < |s.queues| && (server || pool == GENERAL) && !HasRoom(cfg, s, pool)
    ensures Apply(cfg, s, Produce(server, index, pool, mode)).None? <==> mode.Blocking?
    ensures !mode.Blocking? ==>
      var s' := Apply(cfg, s, Produce(server, index, pool, mode)).value;
      && s'.queues == s.queues && s'.accepted == s.accepted
      && (if server then s'.servers else s'.generators)[index].Active?
  {
  }

  /** A server that waits for an answer goes on exactly when its message has been run to the end, and no
      step of anybody else lets it go on before. */
  lemma AwaitsItsOwnMessage(cfg: Config, s: State, e: Event, i: nat)
    requires i < |s.servers| && s.servers[i].Awaiting?
    ensures Apply(cfg, s, Resume(i)).Some? <==> s.servers[i].id in s.finished
    ensures Apply(cfg, s, Resume(i)).Some? ==>
      Apply(cfg, s, Resume(i)).value.servers[i] == Active(s.servers[i].fuel)
    ensures e != Resume(i) && Apply(cfg, s, e).Some? ==>
      i < |Apply(cfg, s, e).value.servers| && Apply(cfg, s, e).value.servers[i] == s.servers[i]
  {
  }

  /** The listener takes delayed logbacks as long as it runs, and the final flush takes them too; each is
      stored, or recorded when storing it fails. */
  lemma ListenerTakesDelayed(cfg: Config, s: State, stored: bool)
    ensures Apply(cfg, s, Listen(stored)).Some? <==> s.delayed != [] && (s.listening || s.stage == Flush)
    ensures Apply(cfg, s, Listen(stored)).Some? ==>
      var s' := Apply(cfg, s, Listen(stored)).value;
      && s.delayed == [s.delayed[0]] + s'.delayed
      && s'.persisted == (if stored then s.persisted + {s.delayed[0]} else s.persisted)
      && s'.unsaved == (if stored then s.unsaved else s.unsaved + {s.delayed[0]})
  {
  }

  /** While Plaid serves nothing is given up, and `main` keeps its handles until the servers are joined. */
  lemma KeptWhileServing(cfg: Config, s: State, e: Event)
    requires Apply(cfg, s, e).Some?
    ensures var s' := Apply(cfg, s, e).value;
      && (s.stage == Serving && e != Cancel ==> s'.stage == Serving && s'.listening == s.listening)
      && (s.stage.Order() < DropHandles.Order() ==> s'.held == s.held)
  {
  }

  /** A generator or server that does not wait may end at any time, and goes on sending until the
      cancellation. */
  lemma ProducerIsFree(cfg: Config, s: State, server: bool, index: nat, fuel: nat)
    requires index < |if server then s.servers else s.generators|
    ensures var p := (if server then s.servers else s.generators)[index];
      && (Apply(cfg, s, Leave(server, index)).Some? <==> p.Active?)
      && (Apply(cfg, s, Refuel(server, index, fuel)).Some? <==> p.Active? && !s.Cancelled())
    ensures Apply(cfg, s, Refuel(server, index, fuel)).Some? ==>
      var s' := Apply(cfg, s, Refuel(server, index, fuel)).value;
      s' == SetProducer(s, server, index, Active(fuel))
  {
  }

  /** An idle worker leaves its empty queue exactly when nobody is left who could send: none of the handles
      of `main` that hold a sender, no server, and for the general queue no generator and no running rule. */
  lemma QuitsWhenNobodySends(cfg: Config, s: State, w: nat)
    requires w < |s.workers| && s.workers[w].phase.Idle?
    requires s.workers[w].pool < |s.queues| && s.queues[s.workers[w].pool] == []
    ensures Apply(cfg, s, Quit(w)).Some? <==>
      && AllExited(s.servers)
      && (if s.workers[w].pool == GENERAL
          then s.held == {} && AllExited(s.generators)
               && forall v :: 0 <= v < |s.workers| ==> !s.workers[v].phase.HoldsSender()
          else s.held <= {LogSender, ImmediateDispatch})
  {
    if s.workers[w].pool != GENERAL && !(s.held <= {LogSender, ImmediateDispatch}) {
      var h :| h in s.held && h !in {LogSender, ImmediateDispatch};
      assert h == Metrics || h == Pools || h == ExecutorHandle;
    }
  }

  /** Queues are first in, first out: a step leaves a queue alone, adds one message at its end, or hands its
      first message to one of its workers. */
  lemma QueuesAreFifo(cfg: Config, s: State, e: Event, p: nat)
    requires Apply(cfg, s, e).Some? && p < |s.queues|
    ensures var s' := Apply(cfg, s, e).value;
      && |s'.queues| == |s.queues|
      && var q, q' := s.queues[p], s'.queues[p];
      || q' == q
      || (exists id :: q' == q + [id])
      || (q != [] && q' == q[1..] && exists w :: ReceivedBy(s, s', w, p, q[0]))
  {
    var s' := Apply(cfg, s, e).value;
    match e
    case Receive(w) =>
      if s.workers[w].pool == p {
        assert ReceivedBy(s, s', w, p, s.queues[p][0]);
      }
    case Send(w) =>
      if s'.queues[p] != s.queues[p] {
        assert s'.queues[p] == s.queues[p] + [s.next];
      }
    case Produce(_, _, _, _) =>
      if s'.queues[p] != s.queues[p] {
        assert s'.queues[p] == s.queues[p] + [s.next];
      }
    case Reinject(_, id, _) =>
      if s'.queues[p] != s.queues[p] {
        assert s'.queues[p] == s.queues[p] + [id];
      }
    case _ =>
  }

  ghost predicate ReceivedBy(s: State, s': State, w: nat, p: nat, id: Id) {
    && w < |s.workers| == |s'.workers|
    && s.workers[w].pool == p && s.workers[w].phase.Idle? && s'.workers[w].phase == Received(id)
  }

  // ---------- Queues stay empty once a worker has left ----------

  /** Servers and generators do not come back. */
  lemma ExitedStays(cfg: Config, s: State, e: Event)
    requires Apply(cfg, s, e).Some?
    ensures Apply(cfg, s, e).value.held <= s.held
    ensures AllExited(s.servers) ==> AllExited(Apply(cfg, s, e).value.servers)
    ensures AllExited(s.generators) ==> AllExited(Apply(cfg, s, e).value.generators)
  {
  }

  /** A rule only gets a sender while `main` still holds the one it is copied from. */
  lemma NoNewSenders(cfg: Config, s: State, e: Event, w: nat)
    requires Apply(cfg, s, e).Some? && w < |s.workers| && s.held == {} && !s.workers[w].phase.HoldsSender()
    ensures |Apply(cfg, s, e).value.workers| == |s.workers|
    ensures !Apply(cfg, s, e).value.workers[w].phase.HoldsSender()
  {
  }

  /** Nothing is added to a queue without a sender. */
  lemma NothingArrives(cfg: Config, s: State, e: Event, pool: nat)
    requires Apply(cfg, s, e).Some? && pool < |s.queues| && !Connected(s, pool)
    ensures |Apply(cfg, s, e).value.queues| == |s.queues|
    ensures var q := Apply(cfg, s, e).value.queues[pool];
      q == s.queues[pool] || (s.queues[pool] != [] && q == s.queues[pool][1..])
  {
    assert forall i :: 0 <= i < |s.servers| ==> s.servers[i].Exited?;
  }

  /** A sender can only appear where there already was one. */
  lemma DisconnectedStays(cfg: Config, s: State, e: Event, pool: nat)
    requires Apply(cfg, s, e).Some? && pool < |s.queues| && !Connected(s, pool)
    ensures !Connected(Apply(cfg, s, e).value, pool)
  {
    var s' := Apply(cfg, s, e).value;
    assert AllExited(s.servers);
    ExitedStays(cfg, s, e);
    if pool == GENERAL {
      assert AllExited(s.generators);
      StepKeepsShape(cfg, s, e);
      forall w | 0 <= w < |s'.workers| ensures !s'.workers[w].phase.HoldsSender() {
        NoNewSenders(cfg, s, e, w);
      }
    }
  }

  lemma StepKeepsGoneForGood(cfg: Config, s: State, e: Event)
    requires GoneForGood(s) && Apply(cfg, s, e).Some?
    ensures GoneForGood(Apply(cfg, s, e).value)
  {
    var s' := Apply(cfg, s, e).value;
    StepKeepsShape(cfg, s, e);
    forall w | 0 <= w < |s'.workers| && s'.workers[w].phase.Gone? && s'.workers[w].pool < |s'.queues|
      ensures s'.queues[s'.workers[w].pool] == [] && !Connected(s', s'.workers[w].pool)
    {
      var pool := s.workers[w].pool;
      assert s.workers[w].phase.Gone? || e == Quit(w);
      DisconnectedStays(cfg, s, e, pool);
      NothingArrives(cfg, s, e, pool);
    }
  }

  lemma StaysCancelled(cfg: Config, s: State, e: Event)
    requires s.Cancelled() && Apply(cfg, s, e).Some?
    ensures Apply(cfg, s, e).value.Cancelled()
  {
  }

  ghost predicate WorkersOk(workers: seq<Worker>) {
    forall w :: 0 <= w < |workers| && (workers[w].phase.SendingNow? || workers[w].phase.SendingLater?) ==>
      workers[w].phase.fuel > 0
  }

  /** A worker's step is one of its own phases; the others stay. */
  lemma WorkerKeepsPhases(cfg: Config, s: State, w: nat, e: Event)
    requires w < |s.workers| && WorkersOk(s.workers) && WorkerStep(cfg, s, w, e).Some?
    ensures WorkersOk(WorkerStep(cfg, s, w, e).value.workers)
    ensures WorkerStep(cfg, s, w, e).value.generators == s.generators
  {
  }

  lemma ProducerKeepsPhases(cfg: Config, s: State, e: Event)
    requires (forall i :: 0 <= i < |s.generators| ==> !s.generators[i].Awaiting?) && ProducerStep(cfg, s, e).Some?
    ensures var s' := ProducerStep(cfg, s, e).value;
      s'.workers == s.workers && forall i :: 0 <= i < |s'.generators| ==> !s'.generators[i].Awaiting?
  {
  }

  lemma StepKeepsPhases(cfg: Config, s: State, e: Event)
    requires PhasesOk(s) && Apply(cfg, s, e).Some?
    ensures PhasesOk(Apply(cfg, s, e).value)
  {
    match e
    case Receive(w) => WorkerKeepsPhases(cfg, s, w, e);
    case Start(w, _) => WorkerKeepsPhases(cfg, s, w, e);
    case Route(w, _) => WorkerKeepsPhases(cfg, s, w, e);
    case Send(w) => WorkerKeepsPhases(cfg, s, w, e);
    case Finish(w) => WorkerKeepsPhases(cfg, s, w, e);
    case Quit(w) => WorkerKeepsPhases(cfg, s, w, e);
    case Listen(_) =>
    case StopListening =>
    case Cancel =>
    case Drop(_) =>
    case Advance =>
    case _ => ProducerKeepsPhases(cfg, s, e);
  }

  /** Only `main` moves on to the next stage; the others do not even start anything that was given up. */
  lemma OthersKeepStages(cfg: Config, s: State, e: Event)
    requires StagesPassed(s) && Apply(cfg, s, e).Some?
    requires !e.Listen? && e != StopListening && e != Cancel && !e.Drop? && e != Advance
    ensures StagesPassed(Apply(cfg, s, e).value)
  {
    StepKeepsShape(cfg, s, e);
  }

  lemma StepKeepsStages(cfg: Config, s: State, e: Event)
    requires StagesPassed(s) && Apply(cfg, s, e).Some?
    ensures StagesPassed(Apply(cfg, s, e).value)
  {
    match e
    case Listen(_) =>
    case StopListening =>
    case Cancel =>
    case Drop(_) =>
    case Advance =>
    case _ => OthersKeepStages(cfg, s, e);
  }

  lemma StepKeepsInv(cfg: Config, s: State, e: Event)
    requires Inv(cfg, s) && Apply(cfg, s, e).Some?
    ensures Inv(cfg, Apply(cfg, s, e).value)
  {
    StepKeepsStaffed(cfg, s, e);
    StepKeepsGoneForGood(cfg, s, e);
    StepKeepsStages(cfg, s, e);
    StepKeepsPhases(cfg, s, e);
    StepKeepsAwaited(cfg, s, e);
    StepKeepsNothingLost(cfg, s, e);
  }

  lemma {:induction false} RunKeepsInv(cfg: Config, s: State, events: seq<Event>)
    requires Inv(cfg, s) && Run(cfg, s, events).Some?
    ensures Inv(cfg, Run(cfg, s, events).value)
    decreases |events|
  {
    if events != [] {
      StepKeepsInv(cfg, s, events[0]);
      RunKeepsInv(cfg, Apply(cfg, s, events[0]).value, events[1..]);
    }
  }

  // ---------- Safety: nothing accepted is lost ----------

  lemma {:induction false} StaysInExecutor(cfg: Config, s: State, events: seq<Event>, id: Id)
    requires InExecutor(s, id) && Run(cfg, s, events).Some?
    ensures InExecutor(Run(cfg, s, events).value, id)
    decreases |events|
  {
    if events != [] {
      StepKeepsLocation(cfg, s, events[0], id);
      StaysInExecutor(cfg, Apply(cfg, s, events[0]).value, events[1..], id);
    }
  }

  /** With every worker gone, nothing is queued and nothing is carried. */
  lemma NothingLeftInExecutor(cfg: Config, s: State)
    requires Inv(cfg, s) && s.stage.Order() >= Flush.Order()
    ensures forall p :: 0 <= p < |s.queues| ==> s.queues[p] == []
    ensures forall id :: InExecutor(s, id) ==> id in s.finished
  {
    forall p | 0 <= p < |s.queues| ensures s.queues[p] == [] {
      assert HasWorker(s, p);
      var w :| 0 <= w < |s.workers| && s.workers[w].pool == p;
      assert s.workers[w].phase.Gone?;
    }
    forall id | InExecutor(s, id) ensures id in s.finished {
      assert !InQueue(s, id) && !Carried(s, id);
    }
  }

  /** Whatever was in the executor at any moment, a webhook's message, a generator's log or a logback, has
      been run to the end once the workers are joined. */
  lemma QueuedIsRun(cfg: Config, s: State, before: seq<Event>, after: seq<Event>, id: Id)
    requires Booted(cfg, s) && Run(cfg, s, before).Some? && InExecutor(Run(cfg, s, before).value, id)
    requires Run(cfg, Run(cfg, s, before).value, after).Some?
    requires Run(cfg, Run(cfg, s, before).value, after).value.stage.Order() >= Flush.Order()
    ensures id in Run(cfg, Run(cfg, s, before).value, after).value.finished
  {
    BootedInv(cfg, s);
    RunKeepsInv(cfg, s, before);
    var mid := Run(cfg, s, before).value;
    RunKeepsInv(cfg, mid, after);
    StaysInExecutor(cfg, mid, after, id);
    NothingLeftInExecutor(cfg, Run(cfg, mid, after).value);
  }

  /** A logback that picked its route before the cancellation and sends it after, with room, is run to the
      end like any other message, whatever happens in between and afterwards. */
  lemma LateSendIsRun(cfg: Config, s: State, before: seq<Event>, w: nat, after: seq<Event>)
    requires Booted(cfg, s) && Run(cfg, s, before).Some?
    requires var mid := Run(cfg, s, before).value;
      && w < |mid.workers| && mid.workers[w].phase.SendingNow? && HasRoomFor(cfg, mid)
      && Run(cfg, mid, [Send(w)] + after).Some?
      && Run(cfg, mid, [Send(w)] + after).value.stage.Order() >= Flush.Order()
    ensures var mid := Run(cfg, s, before).value;
      mid.next in Run(cfg, mid, [Send(w)] + after).value.finished
  {
    BootedInv(cfg, s);
    RunKeepsInv(cfg, s, before);
    var mid := Run(cfg, s, before).value;
    SendWithRoomIsQueued(cfg, mid, w);
    var sent := Apply(cfg, mid, Send(w)).value;
    assert ([Send(w)] + after)[1..] == after;
    StepKeepsInv(cfg, mid, Send(w));
    RunKeepsInv(cfg, sent, after);
    StaysInExecutor(cfg, sent, after, mid.next);
    NothingLeftInExecutor(cfg, Run(cfg, sent, after).value);
  }

  predicate HasRoomFor(cfg: Config, s: State) {
    |s.queues| > 0 && HasRoom(cfg, s, GENERAL)
  }

  /** Once the workers are joined every queue is empty, and every message ever accepted has been run to the
      end, unless it came in over the delayed channel or was in storage at boot; such a one may also still
      be on the delayed channel, persisted, or lost by a failed write. */
  lemma DrainedAfterJoin(cfg: Config, s: State, events: seq<Event>)
    requires Booted(cfg, s) && Run(cfg, s, events).Some?
    requires Run(cfg, s, events).value.stage.Order() >= Flush.Order()
    ensures var end := Run(cfg, s, events).value;
      && (forall p :: 0 <= p < |end.queues| ==> end.queues[p] == [])
      && (forall id :: id in end.accepted && id !in end.finished ==>
            id in end.deferred && (id in end.delayed || id in end.persisted || id in end.unsaved))
  {
    BootedInv(cfg, s);
    RunKeepsInv(cfg, s, events);
    var end := Run(cfg, s, events).value;
    NothingLeftInExecutor(cfg, end);
    forall id | id in end.accepted && id !in end.finished
      ensures id in end.deferred && (id in end.delayed || id in end.persisted || id in end.unsaved)
    {
      assert Located(end, id) && !InExecutor(end, id);
    }
  }

  /** What counts as deferred: what was in storage at boot, and what a step put on the delayed channel. */
  lemma DeferredByChannel(cfg: Config, s: State, e: Event)
    requires Apply(cfg, s, e).Some?
    ensures var s' := Apply(cfg, s, e).value;
      || s'.deferred == s.deferred
      || (e.Send? && s'.deferred == s.deferred + {s.next} && s'.delayed == s.delayed + [s.next])
  {
  }

  /** What ended up unsaved was taken off the delayed channel by a step whose storing failed. */
  lemma {:induction false} UnsavedFailed(cfg: Config, s: State, events: seq<Event>)
    requires Run(cfg, s, events).Some? && forall i :: 0 <= i < |events| ==> events[i] != Listen(false)
    ensures Run(cfg, s, events).value.unsaved == s.unsaved
    decreases |events|
  {
    if events != [] {
      UnsavedFailed(cfg, Apply(cfg, s, events[0]).value, events[1..]);
    }
  }

  /** When the shutdown is over, every accepted message was run to the end, unless it is a deferred one that
      is persisted or whose storing failed; if no storing failed, nothing is lost. */
  lemma NothingLostAtDone(cfg: Config, s: State, events: seq<Event>)
    requires Booted(cfg, s) && Run(cfg, s, events).Some? && Run(cfg, s, events).value.stage == Done
    ensures var end := Run(cfg, s, events).value;
      && end.delayed == []
      && (forall id :: id in end.accepted && id !in end.finished ==>
            id in end.deferred && (id in end.persisted || id in end.unsaved))
      && ((forall i :: 0 <= i < |events| ==> events[i] != Listen(false)) ==> end.unsaved == {})
  {
    DrainedAfterJoin(cfg, s, events);
    BootedInv(cfg, s);
    RunKeepsInv(cfg, s, events);
    if forall i :: 0 <= i < |events| ==> events[i] != Listen(false) {
      UnsavedFailed(cfg, s, events);
    }
  }

  // ---------- Progress: the shutdown never gets stuck ----------

  lemma BusyWorkerCanStep(cfg: Config, s: State, w: nat) returns (e: Event)
    requires Inv(cfg, s) && w < |s.workers| && !s.workers[w].phase.Idle? && !s.workers[w].phase.Gone?
    ensures Apply(cfg, s, e).Some?
  {
    match s.workers[w].phase {
      case Received(_) => e := Start(w, 0);
      case Running(_, _, _) => e := Finish(w);
      case _ => e := Send(w);
    }
  }

  lemma WaitingMessageCanBeTaken(cfg: Config, s: State, p: nat) returns (e: Event)
    requires Inv(cfg, s) && p < |s.queues| && s.queues[p] != []
    requires forall w :: 0 <= w < |s.workers| ==> s.workers[w].phase.Idle? || s.workers[w].phase.Gone?
    ensures Apply(cfg, s, e).Some?
  {
    assert HasWorker(s, p);
    var w :| 0 <= w < |s.workers| && s.workers[w].pool == p;
    assert !s.workers[w].phase.Gone?;
    e := Receive(w);
  }

  lemma QuietServersCanStep(cfg: Config, s: State) returns (e: Event)
    requires Inv(cfg, s) && s.stage == JoinServers
    requires forall w :: 0 <= w < |s.workers| ==> s.workers[w].phase.Idle? || s.workers[w].phase.Gone?
    requires forall p :: 0 <= p < |s.queues| ==> s.queues[p] == []
    ensures Apply(cfg, s, e).Some?
  {
    if AllExited(s.servers) {
      e := Advance;
    } else {
      var i :| 0 <= i < |s.servers| && !s.servers[i].Exited?;
      if s.servers[i].Active? {
        e := Leave(true, i);
      } else {
        assert InExecutor(s, s.servers[i].id);
        assert !InQueue(s, s.servers[i].id) && !Carried(s, s.servers[i].id);
        e := Resume(i);
      }
    }
  }

  /** Every state of a shutdown in progress has an enabled step, whatever the interleaving so far. */
  lemma ShutdownNeverStuck(cfg: Config, s: State) returns (e: Event)
    requires Inv(cfg, s) && s.Cancelled() && s.stage != Done
    ensures Apply(cfg, s, e).Some?
  {
    if w :| 0 <= w < |s.workers| && !s.workers[w].phase.Idle? && !s.workers[w].phase.Gone? {
      e := BusyWorkerCanStep(cfg, s, w);
      return;
    }
    if p :| 0 <= p < |s.queues| && s.queues[p] != [] {
      e := WaitingMessageCanBeTaken(cfg, s, p);
      return;
    }
    match s.stage {
      case JoinGenerators =>
        if s.listening {
          e := StopListening;
        } else if i :| 0 <= i < |s.generators| && !s.generators[i].Exited? {
          e := Leave(false, i);
        } else {
          e := Advance;
        }
      case JoinServers =>
        e := QuietServersCanStep(cfg, s);
      case DropHandles =>
        if h :| h in s.held {
          e := Drop(h);
        } else {
          e := Advance;
        }
      case JoinWorkers =>
        if w :| 0 <= w < |s.workers| && !s.workers[w].phase.Gone? {
          e := Quit(w);
        } else {
          e := Advance;
        }
      case _ =>
        e := if s.delayed == [] then Advance else Listen(true);
    }
  }

  // ---------- Termination: every schedule finishes ----------

  function Sum<T>(xs: seq<T>, f: T -> nat): nat {
    if xs == [] then 0 else f(xs[0]) + Sum(xs[1..], f)
  }

  lemma {:induction false} SumOfUpdate<T>(xs: seq<T>, f: T -> nat, i: nat, x: T)
    requires i < |xs|
    ensures Sum(xs[i := x], f) + f(xs[i]) == Sum(xs, f) + f(x)
  {
    if i == 0 {
      assert xs[i := x][1..] == xs[1..];
    } else {
      assert xs[i := x][1..] == xs[1..][i - 1 := x];
      SumOfUpdate(xs[1..], f, i - 1, x);
    }
  }

  function ProducerWork(p: Producer): nat {
    match p
    case Exited => 0
    case Active(fuel) => 2 * fuel + 1
    case Awaiting(_, fuel) => 2 * fuel + 2
  }

  function PickedNow(w: Worker): nat {
    if w.phase.SendingNow? then 1 else 0
  }

  function Unstarted(w: Worker): nat {
    if w.phase.Received? then 1 else 0
  }

  function RunWork(w: Worker): nat {
    match w.phase
    case Idle => 1
    case Received(_) => 0
    case Running(_, fuel, _) => 3 * fuel + 2
    case SendingNow(_, fuel) => 3 * fuel + 1
    case SendingLater(_, fuel, _) => 3 * fuel + 1
    case Gone => 0
  }

  function Length(q: seq<Id>): nat {
    |q|
  }

  /** What is left to do, most significant first: sends of producers, sends that escaped the
      cancellation, queued messages, rules not yet started, logbacks of running rules, and the rest. */
  datatype Rank = Rank(producers: nat, escaped: nat, queued: nat, unstarted: nat, running: nat, rest: nat)

  function Chores(s: State): nat {
    |s.delayed| + |s.held| + (Done.Order() - s.stage.Order()) + (if s.listening then 1 else 0)
  }

  function RankOf(s: State): Rank {
    Rank(Sum(s.generators, ProducerWork) + Sum(s.servers, ProducerWork),
         Sum(s.workers, PickedNow),
         Sum(s.queues, Length),
         Sum(s.workers, Unstarted),
         Sum(s.workers, RunWork),
         Chores(s))
  }

  predicate Below(a: Rank, b: Rank) {
    || a.producers < b.producers
    || (a.producers == b.producers &&
        (|| a.escaped < b.escaped
         || (a.escaped == b.escaped &&
             (|| a.queued < b.queued
              || (a.queued == b.queued &&
                  (|| a.unstarted < b.unstarted
                   || (a.unstarted == b.unstarted &&
                       (a.running < b.running || (a.running == b.running && a.rest < b.rest)))))))))
  }

  lemma WorkerSums(s: State, w: nat, w': Worker)
    requires w < |s.workers|
    ensures Sum(s.workers[w := w'], PickedNow) == Sum(s.workers, PickedNow) + PickedNow(w') - PickedNow(s.workers[w])
    ensures Sum(s.workers[w := w'], Unstarted) == Sum(s.workers, Unstarted) + Unstarted(w') - Unstarted(s.workers[w])
    ensures Sum(s.workers[w := w'], RunWork) == Sum(s.workers, RunWork) + RunWork(w') - RunWork(s.workers[w])
  {
    SumOfUpdate(s.workers, PickedNow, w, w');
    SumOfUpdate(s.workers, Unstarted, w, w');
    SumOfUpdate(s.workers, RunWork, w, w');
  }

  lemma ReceiveRankFalls(cfg: Config, s: State, w: nat)
    requires w < |s.workers| && WorkerStep(cfg, s, w, Receive(w)).Some?
    ensures Below(RankOf(WorkerStep(cfg, s, w, Receive(w)).value), RankOf(s))
  {
    var pool := s.workers[w].pool;
    WorkerSums(s, w, s.workers[w].(phase := Received(s.queues[pool][0])));
    SumOfUpdate(s.queues, Length, pool, s.queues[pool][1..]);
  }

  lemma SendRankFalls(cfg: Config, s: State, w: nat)
    requires w < |s.workers| && WorkerStep(cfg, s, w, Send(w)).Some?
    ensures Below(RankOf(WorkerStep(cfg, s, w, Send(w)).value), RankOf(s))
  {
    var s' := WorkerStep(cfg, s, w, Send(w)).value;
    WorkerSums(s, w, s'.workers[w]);
    assert s'.workers == s.workers[w := s'.workers[w]];
    assert s'.generators == s.generators && s'.servers == s.servers;
    assert s.workers[w].phase.SendingLater? ==> s'.queues == s.queues;
  }

  lemma WorkerRankFalls(cfg: Config, s: State, w: nat, e: Event)
    requires w < |s.workers| && s.Cancelled() && WorkerStep(cfg, s, w, e).Some?
    requires (e.Receive? ==> e == Receive(w)) && (e.Send? ==> e == Send(w))
    ensures Below(RankOf(WorkerStep(cfg, s, w, e).value), RankOf(s))
  {
    if e.Receive? {
      ReceiveRankFalls(cfg, s, w);
    } else if e.Send? {
      SendRankFalls(cfg, s, w);
    } else {
      var s' := WorkerStep(cfg, s, w, e).value;
      WorkerSums(s, w, s'.workers[w]);
      assert s'.workers == s.workers[w := s'.workers[w]];
      assert s'.generators == s.generators && s'.servers == s.servers && s'.queues == s.queues;
    }
  }

  lemma ProducerSums(s: State, server: bool, index: nat, p: Producer)
    requires index < |if server then s.servers else s.generators|
    ensures var old_ := (if server then s.servers else s.generators)[index];
      RankOf(SetProducer(s, server, index, p)).producers == RankOf(s).producers + ProducerWork(p) - ProducerWork(old_)
  {
    SumOfUpdate(if server then s.servers else s.generators, ProducerWork, index, p);
  }

  lemma ProducerRankFalls(cfg: Config, s: State, e: Event)
    requires s.Cancelled() && ProducerStep(cfg, s, e).Some?
    ensures RankOf(ProducerStep(cfg, s, e).value).producers < RankOf(s).producers
  {
    var s' := ProducerStep(cfg, s, e).value;
    var index := e.index;
    var server := if e.Resume? then true else if e.Reinject? then false else e.server;
    var p' := GetProducer(s', server, index).value;
    ProducerSums(s, server, index, p');
    var same := SetProducer(s, server, index, p');
    assert s'.generators == same.generators && s'.servers == same.servers;
  }

  lemma MainOnlyDoesChores(s: State, e: Event)
    requires MainStep(s, e).Some?
    ensures var s' := MainStep(s, e).value;
      s'.generators == s.generators && s'.servers == s.servers && s'.workers == s.workers && s'.queues == s.queues
  {
  }

  lemma OneHandleLess(held: set<Handle>, h: Handle)
    requires h in held
    ensures |held - {h}| < |held|
  {
  }

  lemma ChoresFall(s: State, e: Event)
    requires s.Cancelled() && MainStep(s, e).Some?
    ensures Chores(MainStep(s, e).value) < Chores(s)
  {
    match e
    case Drop(h) => OneHandleLess(s.held, h);
    case Advance => assert MainStep(s, e).value.held == s.held;
    case _ =>
  }

  lemma MainRankFalls(s: State, e: Event)
    requires s.Cancelled() && MainStep(s, e).Some?
    ensures Below(RankOf(MainStep(s, e).value), RankOf(s))
  {
    MainOnlyDoesChores(s, e);
    ChoresFall(s, e);
  }

  /** After cancellation every step of every thread brings the end closer. */
  lemma StepLowersRank(cfg: Config, s: State, e: Event)
    requires s.Cancelled() && Apply(cfg, s, e).Some?
    ensures Below(RankOf(Apply(cfg, s, e).value), RankOf(s))
  {
    match e
    case Receive(w) => WorkerRankFalls(cfg, s, w, e);
    case Start(w, _) => WorkerRankFalls(cfg, s, w, e);
    case Route(w, _) => WorkerRankFalls(cfg, s, w, e);
    case Send(w) => WorkerRankFalls(cfg, s, w, e);
    case Finish(w) => WorkerRankFalls(cfg, s, w, e);
    case Quit(w) => WorkerRankFalls(cfg, s, w, e);
    case Listen(_) => MainRankFalls(s, e);
    case StopListening => MainRankFalls(s, e);
    case Cancel => MainRankFalls(s, e);
    case Drop(_) => MainRankFalls(s, e);
    case Advance => MainRankFalls(s, e);
    case _ => ProducerRankFalls(cfg, s, e);
  }

  ghost predicate Step(cfg: Config, s: State, s': State) {
    exists e :: Apply(cfg, s, e) == Some(s')
  }

  /** Turn `i` of a schedule: the shutdown is over, or some thread takes a step. */
  ghost predicate Turn(cfg: Config, schedule: nat -> State, i: nat) {
    schedule(i).stage == Done || Step(cfg, schedule(i), schedule(i + 1))
  }

  lemma {:induction false} ScheduleEnds(cfg: Config, schedule: nat -> State, from: nat, r: Rank)
    requires schedule(from).Cancelled() && r == RankOf(schedule(from))
    requires forall i: nat :: Turn(cfg, schedule, i)
    ensures exists i: nat :: from <= i && schedule(i).stage == Done
    decreases r.producers, r.escaped, r.queued, r.unstarted, r.running, r.rest
  {
    if schedule(from).stage != Done {
      assert Turn(cfg, schedule, from);
      var next := schedule(from + 1);
      NextTurnIsLower(cfg, schedule(from), next);
      ScheduleEnds(cfg, schedule, from + 1, RankOf(next));
    }
  }

  /** There is no endless schedule after cancellation: whichever thread is picked at every turn, the
      shutdown reaches its end. Together with ShutdownNeverStuck: every maximal run ends in Done. */
  lemma EveryScheduleEnds(cfg: Config, schedule: nat -> State, from: nat)
    requires schedule(from).Cancelled()
    requires forall i: nat :: Turn(cfg, schedule, i)
    ensures exists i: nat :: from <= i && schedule(i).stage == Done
  {
    ScheduleEnds(cfg, schedule, from, RankOf(schedule(from)));
  }

  lemma NextTurnIsLower(cfg: Config, s: State, s': State)
    requires s.Cancelled() && Step(cfg, s, s')
    ensures s'.Cancelled() && Below(RankOf(s'), RankOf(s))
  {
    var e :| Apply(cfg, s, e) == Some(s');
    StaysCancelled(cfg, s, e);
    StepLowersRank(cfg, s, e);
  }
}
