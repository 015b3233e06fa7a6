/** Worker threads draining messages whose rules log back more messages: how much work a finite
    queue of limited messages can ever cause. */
module Executor {
  import opened Machine
  import opened Budget

  /** Log type to the rules that handle it. */
  type Channels = map<string, seq<string>>

  /** How many rules run for a message: the named one, all of its type's, or none. */
  function RulesFor(channels: Channels, m: Message): nat {
    if m.only.Some? then 1
    else if m.logType in channels then |channels[m.logType]|
    else 0
  }

  /** The budget and response routing of a message's copy for one rule. */
  function CreateDuplicate(m: Message): Message {
    Message(m.logType, m.data, m.budget, None)
  }

  /** Run every rule of a message; `requests[r]` is what rule `r` asks to log back, in order. Each rule
      is charged against a copy of its own, so no rule's logbacks depend on another's. */
  method RunRules(message: Message, requests: seq<seq<LogbacksAllowed>>) returns (children: seq<seq<LogbacksAllowed>>)
    ensures |children| == |requests|
    ensures forall r :: 0 <= r < |requests| ==> children[r] == Invocation(message.budget, requests[r]).1
    ensures message.budget.Limited? ==>
      forall r :: 0 <= r < |requests| ==> TotalCost(children[r]) <= message.budget.count
  {
    children := [];
    for r := 0 to |requests|
      invariant |children| == r
      invariant forall q :: 0 <= q < r ==> children[q] == Invocation(message.budget, requests[q]).1
      invariant message.budget.Limited? ==> forall q :: 0 <= q < r ==> TotalCost(children[q]) <= message.budget.count
    {
      var budget := CreateDuplicate(message).budget;
      var granted: seq<LogbacksAllowed> := [];
      assert requests[r][0..] == requests[r];
      assert granted + Invocation(budget, requests[r]).1 == Invocation(budget, requests[r]).1;
      for i := 0 to |requests[r]|
        invariant var (left, rest) := Invocation(budget, requests[r][i..]);
          Invocation(message.budget, requests[r]) == (left, granted + rest)
      {
        assert requests[r][i..][1..] == requests[r][i + 1..];
        match Charge(budget, requests[r][i]) {
          case None =>
          case Some((left, child)) =>
            ghost var rest := Invocation(left, requests[r][i + 1..]).1;
            assert granted + ([child] + rest) == granted + [child] + rest;
            budget, granted := left, granted + [child];
        }
      }
      assert requests[r][|requests[r]|..] == [] && granted + [] == granted;
      if message.budget.Limited? {
        BudgetIsConserved(message.budget.count, requests[r]);
      }
      children := children + [granted];
    }
  }

  /** A worker runs a message's rules one after the other, each with a copy of the message's budget. */
  datatype Worker = Idle | Busy(message: Message, rulesLeft: nat, budget: LogbacksAllowed)

  /** `pending` holds every message still to be handled, wherever it waits. */
  datatype State = State(pending: seq<Message>, workers: seq<Worker>, processed: nat)

  datatype Event =
    | Take(worker: nat, index: nat)
    | LogBack(worker: nat, logType: string, data: Bytes, asked: LogbacksAllowed, delivered: bool)
    | NextRule(worker: nat)

  function Apply(channels: Channels, s: State, e: Event): Option<State> {
    if e.worker >= |s.workers| then None
    else
      var w := s.workers[e.worker];
      match e
      case Take(_, index) =>
        if !w.Idle? || index >= |s.pending| then None
        else
          var m := s.pending[index];
          var n := RulesFor(channels, m);
          Some(State(s.pending[..index] + s.pending[index + 1..],
                     s.workers[e.worker := if n == 0 then Idle else Busy(m, n - 1, m.budget)],
                     s.processed + 1))
      case LogBack(_, logType, data, asked, delivered) =>
        if !w.Busy? then None
        else
          (match Charge(w.budget, asked)
           case None => Some(s)
           case Some((left, child)) =>
             Some(s.(pending := if delivered then s.pending + [Message(logType, data, child, None)] else s.pending,
                     workers := s.workers[e.worker := w.(budget := left)])))
      case NextRule(_) =>
        if !w.Busy? then None
        else Some(s.(workers := s.workers[e.worker :=
                     if w.rulesLeft == 0 then Idle else w.(rulesLeft := w.rulesLeft - 1, budget := w.message.budget)]))
  }

  /** `n` times on to the worker's next rule. */
  function NextRules(worker: nat, n: nat): seq<Event> {
    if n == 0 then [] else [NextRule(worker)] + NextRules(worker, n - 1)
  }

  /** A worker that has taken a message is through with it after exactly as many rules as listen to the
      message's type, one if the message names its rule; each of them starts with the message's full budget. */
  lemma {:induction false} EveryRuleRuns(channels: Channels, s: State, worker: nat, n: nat)
    requires worker < |s.workers| && s.workers[worker].Busy? && n <= s.workers[worker].rulesLeft + 1
    ensures Run(channels, s, NextRules(worker, n)).Some?
    ensures var end := Run(channels, s, NextRules(worker, n)).value;
      && end.pending == s.pending && end.processed == s.processed && |end.workers| == |s.workers|
      && var w := s.workers[worker];
      end.workers[worker] ==
        if n == 0 then w
        else if n == w.rulesLeft + 1 then Idle
        else Busy(w.message, w.rulesLeft - n, w.message.budget)
    decreases n
  {
    if n > 0 {
      var s1 := Apply(channels, s, NextRule(worker)).value;
      assert NextRules(worker, n)[1..] == NextRules(worker, n - 1);
      if n > 1 {
        EveryRuleRuns(channels, s1, worker, n - 1);
      }
    }
  }

  lemma TakenForItsRules(channels: Channels, s: State, worker: nat, index: nat)
    requires worker < |s.workers| && s.workers[worker].Idle? && index < |s.pending|
    ensures Apply(channels, s, Take(worker, index)).Some?
    ensures var m := s.pending[index];
      var end := Apply(channels, s, Take(worker, index)).value;
      && end.processed == s.processed + 1
      && multiset(end.pending) == multiset(s.pending) - multiset{m}
      && (m.only.Some? ==> end.workers[worker] == Busy(m, 0, m.budget))
      && (m.only.None? && m.logType in channels && channels[m.logType] != [] ==>
            end.workers[worker] == Busy(m, |channels[m.logType]| - 1, m.budget))
      && (m.only.None? && (m.logType !in channels || channels[m.logType] == []) ==> end.workers[worker] == Idle)
  {
    assert s.pending == s.pending[..index] + [s.pending[index]] + s.pending[index + 1..];
  }

  function Run(channels: Channels, s: State, events: seq<Event>): Option<State>
    decreases |events|
  {
    if events == [] then Some(s)
    else
      match Apply(channels, s, events[0])
      case None => None
      case Some(s') => Run(channels, s', events[1..])
  }

  // ---------- The geometric bound ----------

  /** 1 + f + ... + f^b: the messages in a full tree of depth b and fan-out f. */
  function Tree(f: nat, b: nat): nat {
    if b == 0 then 1 else 1 + f * Tree(f, b - 1)
  }

  /** What one rule with budget `b` can still cause. */
  function Branch(f: nat, b: nat): nat {
    if b == 0 then 0 else Tree(f, b - 1)
  }

  lemma {:induction false} FanOutAbsorbs(f: nat, x: nat, y: nat, z: nat)
    requires f >= 1 && x + y <= z
    ensures f * x + y <= f * z
  {
    if f > 1 {
      FanOutAbsorbs(f - 1, x, y, z);
    }
  }

  /** Two trees fit into the tree of their joint budget plus one. */
  lemma {:induction false} TreesCombine(f: nat, x: nat, y: nat)
    requires f >= 1
    ensures Tree(f, x) + Tree(f, y) <= Tree(f, x + y + 1)
  {
    if x == 0 {
      FanOutAbsorbs(f, 0, Tree(f, y), Tree(f, y));
    } else {
      TreesCombine(f, x - 1, y);
      FanOutAbsorbs(f, Tree(f, x - 1), Tree(f, y), Tree(f, x + y));
    }
  }

  /** Splitting off a child of budget `a` never increases what can still happen. */
  lemma BranchSplits(f: nat, b: nat, a: nat)
    requires f >= 1 && a + 1 <= b
    ensures Tree(f, a) + Branch(f, b - a - 1) <= Branch(f, b)
  {
    if b - a - 1 > 0 {
      TreesCombine(f, a, b - a - 2);
    }
  }

  function Count(l: LogbacksAllowed): nat {
    if l.Limited? then l.count else 0
  }

  function Weight(f: nat, w: Worker): nat {
    match w
    case Idle => 0
    case Busy(m, left, budget) => Branch(f, Count(budget)) + left * Branch(f, Count(m.budget))
  }

  function PendingWork(f: nat, pending: seq<Message>): nat {
    if pending == [] then 0 else Tree(f, Count(pending[0].budget)) + PendingWork(f, pending[1..])
  }

  function RunningWork(f: nat, workers: seq<Worker>): nat {
    if workers == [] then 0 else Weight(f, workers[0]) + RunningWork(f, workers[1..])
  }

  function Potential(f: nat, s: State): nat {
    PendingWork(f, s.pending) + RunningWork(f, s.workers)
  }

  lemma {:induction false} PendingWorkOfAppend(f: nat, a: seq<Message>, b: seq<Message>)
    ensures PendingWork(f, a + b) == PendingWork(f, a) + PendingWork(f, b)
  {
    if a == [] {
      assert a + b == b;
    } else {
      assert (a + b)[1..] == a[1..] + b;
      PendingWorkOfAppend(f, a[1..], b);
    }
  }

  lemma PendingWorkWithout(f: nat, pending: seq<Message>, i: nat)
    requires i < |pending|
    ensures PendingWork(f, pending) ==
      PendingWork(f, pending[..i] + pending[i + 1..]) + Tree(f, Count(pending[i].budget))
  {
    assert pending == pending[..i] + ([pending[i]] + pending[i + 1..]);
    PendingWorkOfAppend(f, pending[..i], [pending[i]] + pending[i + 1..]);
    PendingWorkOfAppend(f, [pending[i]], pending[i + 1..]);
    PendingWorkOfAppend(f, pending[..i], pending[i + 1..]);
    assert PendingWork(f, [pending[i]]) == Tree(f, Count(pending[i].budget)) + PendingWork(f, []);
  }

  lemma {:induction false} RunningWorkOfUpdate(f: nat, workers: seq<Worker>, i: nat, w: Worker)
    requires i < |workers|
    ensures RunningWork(f, workers[i := w]) + Weight(f, workers[i]) == RunningWork(f, workers) + Weight(f, w)
  {
    if i > 0 {
      assert workers[i := w][1..] == workers[1..][i - 1 := w];
      RunningWorkOfUpdate(f, workers[1..], i - 1, w);
    } else {
      assert workers[i := w][1..] == workers[1..];
    }
  }

  // ---------- Every run stays within the bound ----------

  predicate AllLimited(s: State) {
    && (forall i :: 0 <= i < |s.pending| ==> s.pending[i].budget.Limited?)
    && (forall i :: 0 <= i < |s.workers| && s.workers[i].Busy? ==>
          s.workers[i].budget.Limited? && s.workers[i].message.budget.Limited?)
  }

  /** No log type is handled by more than `f` rules. */
  ghost predicate FanOut(channels: Channels, f: nat) {
    f >= 1 && forall t :: t in channels ==> |channels[t]| <= f
  }

  lemma TakeFitsTree(channels: Channels, f: nat, m: Message)
    requires FanOut(channels, f)
    ensures 1 + RulesFor(channels, m) * Branch(f, Count(m.budget)) <= Tree(f, Count(m.budget))
  {
    var n, b := RulesFor(channels, m), Branch(f, Count(m.budget));
    assert n <= f;
    assert n * b <= f * b;
  }

  lemma WeightOfTaken(f: nat, m: Message, n: nat)
    ensures Weight(f, if n == 0 then Idle else Busy(m, n - 1, m.budget)) == n * Branch(f, Count(m.budget))
  {
    var b := Branch(f, Count(m.budget));
    if n > 0 {
      assert b + (n - 1) * b == n * b;
    }
  }

  lemma TakeSpends(channels: Channels, f: nat, s: State, e: Event)
    requires FanOut(channels, f) && AllLimited(s) && Apply(channels, s, e).Some? && e.Take?
    ensures Potential(f, Apply(channels, s, e).value) + 1 <= Potential(f, s)
  {
    var m := s.pending[e.index];
    var n := RulesFor(channels, m);
    WeightOfTaken(f, m, n);
    RunningWorkOfUpdate(f, s.workers, e.worker, if n == 0 then Idle else Busy(m, n - 1, m.budget));
    PendingWorkWithout(f, s.pending, e.index);
    TakeFitsTree(channels, f, m);
  }

  lemma LogBackSpends(channels: Channels, f: nat, s: State, e: Event)
    requires f >= 1 && AllLimited(s) && Apply(channels, s, e).Some? && e.LogBack?
    ensures Potential(f, Apply(channels, s, e).value) <= Potential(f, s)
  {
    var w := s.workers[e.worker];
    match Charge(w.budget, e.asked) {
      case None =>
      case Some((left, child)) =>
        RunningWorkOfUpdate(f, s.workers, e.worker, w.(budget := left));
        BranchSplits(f, w.budget.count, e.asked.count);
        var msg := Message(e.logType, e.data, child, None);
        PendingWorkOfAppend(f, s.pending, [msg]);
        assert PendingWork(f, [msg]) == Tree(f, child.count) + PendingWork(f, []);
    }
  }

  lemma NextRuleSpends(channels: Channels, f: nat, s: State, e: Event)
    requires AllLimited(s) && Apply(channels, s, e).Some? && e.NextRule?
    ensures Potential(f, Apply(channels, s, e).value) <= Potential(f, s)
  {
    var w := s.workers[e.worker];
    RunningWorkOfUpdate(f, s.workers, e.worker, Apply(channels, s, e).value.workers[e.worker]);
    if w.rulesLeft > 0 {
      var b := Branch(f, Count(w.message.budget));
      assert w.rulesLeft * b == b + (w.rulesLeft - 1) * b;
    }
  }

  lemma StepKeepsLimits(channels: Channels, s: State, e: Event)
    requires AllLimited(s) && Apply(channels, s, e).Some?
    ensures AllLimited(Apply(channels, s, e).value)
  {
  }

  /** The potential pays for every message taken: it strictly falls with each, and never rises. */
  lemma StepSpendsPotential(channels: Channels, f: nat, s: State, e: Event)
    requires FanOut(channels, f) && AllLimited(s) && Apply(channels, s, e).Some?
    ensures var s' := Apply(channels, s, e).value;
      && s'.processed == s.processed + (if e.Take? then 1 else 0)
      && Potential(f, s') + (if e.Take? then 1 else 0) <= Potential(f, s)
  {
    match e
    case Take(_, _) => TakeSpends(channels, f, s, e);
    case LogBack(_, _, _, _, _) => LogBackSpends(channels, f, s, e);
    case NextRule(_) => NextRuleSpends(channels, f, s, e);
  }

  /** However the workers interleave and whatever the rules ask for, the messages processed never
      exceed the sum of 1 + f + ... + f^b over the budgets b waiting at the start. */
  lemma {:induction false} ProcessedIsBounded(channels: Channels, f: nat, s: State, events: seq<Event>)
    requires FanOut(channels, f) && AllLimited(s) && Run(channels, s, events).Some?
    ensures var end := Run(channels, s, events).value;
      AllLimited(end) && end.processed + Potential(f, end) <= s.processed + Potential(f, s)
    decreases |events|
  {
    if events != [] {
      StepKeepsLimits(channels, s, events[0]);
      StepSpendsPotential(channels, f, s, events[0]);
      ProcessedIsBounded(channels, f, Apply(channels, s, events[0]).value, events[1..]);
    }
  }

  lemma {:induction false} IdleWorkersWeighNothing(f: nat, workers: seq<Worker>)
    requires forall i :: 0 <= i < |workers| ==> workers[i].Idle?
    ensures RunningWork(f, workers) == 0
  {
    if workers != [] {
      IdleWorkersWeighNothing(f, workers[1..]);
    }
  }

  lemma QueueBoundsWork(channels: Channels, f: nat, queue: seq<Message>, workers: seq<Worker>, events: seq<Event>)
    requires FanOut(channels, f) && Run(channels, State(queue, workers, 0), events).Some?
    requires forall i :: 0 <= i < |queue| ==> queue[i].budget.Limited?
    requires forall i :: 0 <= i < |workers| ==> workers[i].Idle?
    ensures Run(channels, State(queue, workers, 0), events).value.processed <= PendingWork(f, queue)
  {
    IdleWorkersWeighNothing(f, workers);
    ProcessedIsBounded(channels, f, State(queue, workers, 0), events);
  }

  // ---------- The bound is reached ----------

  lemma {:induction false} RunOfConcat(channels: Channels, s: State, a: seq<Event>, b: seq<Event>)
    requires Run(channels, s, a).Some?
    ensures Run(channels, s, a + b) == Run(channels, Run(channels, s, a).value, b)
    decreases |a|
  {
    if a == [] {
      assert a + b == b;
    } else {
      assert (a + b)[0] == a[0] && (a + b)[1..] == a[1..] + b;
      RunOfConcat(channels, Apply(channels, s, a[0]).value, a[1..], b);
    }
  }

  lemma RunOfTwo(channels: Channels, s: State, e1: Event, e2: Event, rest: seq<Event>)
    requires Apply(channels, s, e1).Some? && Apply(channels, Apply(channels, s, e1).value, e2).Some?
    ensures Run(channels, s, [e1, e2] + rest)
         == Run(channels, Apply(channels, Apply(channels, s, e1).value, e2).value, rest)
  {
    var events := [e1, e2] + rest;
    assert events[0] == e1 && events[1..][0] == e2 && events[1..][1..] == rest;
  }

  /** A single worker's moves. */
  lemma Alone(w: Worker, w': Worker)
    ensures [w][0 := w'] == [w']
  {
  }

  function Copies(n: nat, m: Message): seq<Message> {
    seq(n, _ => m)
  }

  function Plain(t: string, b: nat): Message {
    Message(t, [], Limited(b), None)
  }

  /** Each remaining rule hands its whole budget to one child of the same type. */
  lemma {:induction false} GreedyRules(channels: Channels, t: string, p: seq<Message>, left: nat, b: nat, done: nat)
    returns (events: seq<Event>)
    requires b >= 1
    ensures Run(channels, State(p, [Busy(Plain(t, b), left, Limited(b))], done), events)
         == Some(State(p + Copies(left + 1, Plain(t, b - 1)), [Idle], done))
    decreases left
  {
    var m := Plain(t, b);
    var s := State(p, [Busy(m, left, Limited(b))], done);
    var call := LogBack(0, t, [], Limited(b - 1), true);
    var s1 := State(p + [Plain(t, b - 1)], [Busy(m, left, Limited(0))], done);
    Alone(s.workers[0], s1.workers[0]);
    Alone(s1.workers[0], Idle);
    Alone(s1.workers[0], Busy(m, if left == 0 then 0 else left - 1, Limited(b)));
    assert Apply(channels, s, call) == Some(s1);
    var rest: seq<Event> := [];
    if left == 0 {
      assert p + Copies(1, Plain(t, b - 1)) == p + [Plain(t, b - 1)];
    } else {
      rest := GreedyRules(channels, t, p + [Plain(t, b - 1)], left - 1, b, done);
      assert p + [Plain(t, b - 1)] + Copies(left, Plain(t, b - 1)) == p + Copies(left + 1, Plain(t, b - 1));
    }
    RunOfTwo(channels, s, call, NextRule(0), rest);
    events := [call, NextRule(0)] + rest;
  }

  /** Without a budget the rules just run. */
  lemma {:induction false} QuietRules(channels: Channels, t: string, p: seq<Message>, left: nat, done: nat)
    returns (events: seq<Event>)
    ensures Run(channels, State(p, [Busy(Plain(t, 0), left, Limited(0))], done), events) == Some(State(p, [Idle], done))
    decreases left
  {
    if left == 0 {
      events := [NextRule(0)];
      Alone(Busy(Plain(t, 0), left, Limited(0)), Idle);
      assert events[1..] == [];
    } else {
      var rest := QuietRules(channels, t, p, left - 1, done);
      Alone(Busy(Plain(t, 0), left, Limited(0)), Busy(Plain(t, 0), left - 1, Limited(0)));
      events := [NextRule(0)] + rest;
      assert events[1..] == rest;
    }
  }

  /** `n` times `x`, one summand at a time. */
  function Times(n: nat, x: nat): nat {
    if n == 0 then 0 else x + Times(n - 1, x)
  }

  lemma {:induction false} TimesIsProduct(n: nat, x: nat)
    ensures Times(n, x) == n * x
  {
    if n > 0 {
      TimesIsProduct(n - 1, x);
      assert n * x == (n - 1) * x + x;
    }
  }

  /** One message of budget `b`: its rules fan out, and the children are worked off in turn. */
  lemma {:induction false} WholeTree(channels: Channels, t: string, q: seq<Message>, b: nat, done: nat)
    returns (events: seq<Event>)
    requires t in channels && |channels[t]| >= 1
    ensures Run(channels, State(q + [Plain(t, b)], [Idle], done), events)
         == Some(State(q, [Idle], done + Tree(|channels[t]|, b)))
    decreases b, 0
  {
    var f := |channels[t]|;
    var s := State(q + [Plain(t, b)], [Idle], done);
    var take := Take(0, |q|);
    var s1 := State(q, [Busy(Plain(t, b), f - 1, Limited(b))], done + 1);
    assert s.pending[..|q|] + s.pending[|q| + 1..] == q;
    Alone(Idle, s1.workers[0]);
    assert Apply(channels, s, take) == Some(s1);
    var rest;
    if b == 0 {
      rest := QuietRules(channels, t, q, f - 1, done + 1);
    } else {
      var rules := GreedyRules(channels, t, q, f - 1, b, done + 1);
      var children := BoundIsReached(channels, t, q, f, b - 1, done + 1);
      RunOfConcat(channels, s1, rules, children);
      rest := rules + children;
      TimesIsProduct(f, Tree(f, b - 1));
    }
    events := [take] + rest;
    assert events[0] == take && events[1..] == rest;
  }

  /** For any fan-out and budget there are rules and a run that process exactly the bound. */
  lemma {:induction false} BoundIsReached(channels: Channels, t: string, p: seq<Message>, n: nat, b: nat, done: nat)
    returns (events: seq<Event>)
    requires t in channels && |channels[t]| >= 1
    ensures Run(channels, State(p + Copies(n, Plain(t, b)), [Idle], done), events)
         == Some(State(p, [Idle], done + Times(n, Tree(|channels[t]|, b))))
    decreases b, n
  {
    if n == 0 {
      events := [];
      assert p + Copies(0, Plain(t, b)) == p;
    } else {
      var q := p + Copies(n - 1, Plain(t, b));
      assert p + Copies(n, Plain(t, b)) == q + [Plain(t, b)];
      var tree := Tree(|channels[t]|, b);
      var one := WholeTree(channels, t, q, b, done);
      var others := BoundIsReached(channels, t, p, n - 1, b, done + tree);
      RunOfConcat(channels, State(q + [Plain(t, b)], [Idle], done), one, others);
      events := one + others;
    }
  }

  /** Messages of one type with these budgets. */
  function Queue(t: string, budgets: seq<nat>): seq<Message> {
    seq(|budgets|, i requires 0 <= i < |budgets| => Plain(t, budgets[i]))
  }

  /** The bound cannot be improved: whatever budgets the messages of a queue have, some run works off the
      whole queue and processes exactly the bound. */
  lemma {:induction false} BoundIsTight(channels: Channels, t: string, budgets: seq<nat>, done: nat)
    returns (events: seq<Event>)
    requires t in channels && |channels[t]| >= 1
    ensures Run(channels, State(Queue(t, budgets), [Idle], done), events)
         == Some(State([], [Idle], done + PendingWork(|channels[t]|, Queue(t, budgets))))
    decreases |budgets|
  {
    var f, q := |channels[t]|, Queue(t, budgets);
    if budgets == [] {
      events := [];
    } else {
      var n := |budgets| - 1;
      var front, last := Queue(t, budgets[..n]), Plain(t, budgets[n]);
      assert q == front + [last];
      var one := WholeTree(channels, t, front, budgets[n], done);
      var others := BoundIsTight(channels, t, budgets[..n], done + Tree(f, budgets[n]));
      RunOfConcat(channels, State(q, [Idle], done), one, others);
      PendingWorkOfAppend(f, front, [last]);
      assert PendingWork(f, [last]) == Tree(f, budgets[n]) + PendingWork(f, []);
      events := one + others;
    }
  }
}
