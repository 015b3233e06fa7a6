/** Logback budgets. A rule handling a message may send further messages, each with a budget of its
    own taken from the message's; every rule that handles the same message gets a full copy of it. */
module Budget {
  import opened Machine

  /** How many further logbacks a message may trigger: a u32, or no limit. */
  datatype LogbacksAllowed = Unlimited | Limited(count: nat)

  // ---------- One call ----------

  /** What a call leaves of the budget and what the child gets, or None when it is refused. */
  function Charge(have: LogbacksAllowed, asked: LogbacksAllowed): Option<(LogbacksAllowed, LogbacksAllowed)> {
    match have
    case Unlimited => Some((Unlimited, asked))
    case Limited(0) => None
    case Limited(x) =>
      match asked
      case Limited(a) => if a > x - 1 then None else Some((Limited(x - a - 1), asked))
      case Unlimited => None
  }

  /** A limited budget admits exactly the limited requests that, with the child itself, it can pay for in
      full; what is granted is what was asked for. */
  lemma ChargedInFull(have: nat, asked: LogbacksAllowed)
    ensures Charge(Limited(have), asked).Some? <==> asked.Limited? && asked.count + 1 <= have
    ensures Charge(Limited(have), asked).Some? ==>
      var (left, child) := Charge(Limited(have), asked).value;
      left.Limited? && left.count + asked.count + 1 == have && child == asked
  {
  }

  /** The cost of a child: itself and everything it may trigger. */
  function Cost(asked: LogbacksAllowed): nat {
    if asked.Limited? then 1 + asked.count else 0
  }

  /** Asked for over a whole invocation: what is left, and which requests passed the check. */
  function Invocation(have: LogbacksAllowed, requests: seq<LogbacksAllowed>): (LogbacksAllowed, seq<LogbacksAllowed>)
    decreases |requests|
  {
    if requests == [] then (have, [])
    else
      match Charge(have, requests[0])
      case None => Invocation(have, requests[1..])
      case Some((left, child)) =>
        var (final, rest) := Invocation(left, requests[1..]);
        (final, [child] + rest)
  }

  /** An unlimited budget admits every request as it is, and stays unlimited. */
  lemma {:induction false} UnlimitedAdmitsAll(requests: seq<LogbacksAllowed>)
    ensures Invocation(Unlimited, requests) == (Unlimited, requests)
    decreases |requests|
  {
    if requests != [] {
      UnlimitedAdmitsAll(requests[1..]);
      assert [requests[0]] + requests[1..] == requests;
    }
  }

  function TotalCost(children: seq<LogbacksAllowed>): nat {
    if children == [] then 0 else Cost(children[0]) + TotalCost(children[1..])
  }

  /** A limited budget is conserved: it equals what is left plus one and the asked amount for each
      child that passed; no child is unlimited, and a refused request costs nothing. */
  lemma {:induction false} BudgetIsConserved(have: nat, requests: seq<LogbacksAllowed>)
    ensures var (left, children) := Invocation(Limited(have), requests);
      && left.Limited?
      && have == left.count + TotalCost(children)
      && (forall i :: 0 <= i < |children| ==> children[i].Limited?)
    decreases |requests|
  {
    if requests != [] {
      match Charge(Limited(have), requests[0]) {
        case None => BudgetIsConserved(have, requests[1..]);
        case Some((left, child)) =>
          BudgetIsConserved(left.count, requests[1..]);
          var (final, rest) := Invocation(left, requests[1..]);
          assert ([child] + rest)[1..] == rest;
      }
    }
  }

  // ---------- The environment of one running rule ----------

  /** `only` names the single rule a GET message is meant for. */
  datatype Message = Message(logType: string, data: Bytes, budget: LogbacksAllowed, only: Option<string>)

  datatype Delayed = Delayed(delay: nat, message: Message)

  /** One bounded channel: sends fail when it is full or its receiver is gone. */
  class Channel<T> {
    const capacity: nat
    var connected: bool
    var items: seq<T>

    constructor (capacity: nat)
      ensures this.capacity == capacity && connected && items == []
    {
      this.capacity, connected, items := capacity, true, [];
    }

    predicate Accepts()
      reads this
    {
      connected && |items| < capacity
    }

    method TrySend(item: T) returns (ok: bool)
      modifies this`items
      ensures ok <==> old(Accepts())
      ensures items == if ok then old(items) + [item] else old(items)
    {
      ok := Accepts();
      if ok {
        items := items + [item];
      }
    }
  }

  class Env {
    var budget: LogbacksAllowed
    const immediate: Channel?<Message>
    const delayed: Channel<Delayed>

    constructor (budget: LogbacksAllowed, immediate: Channel?<Message>, delayed: Channel<Delayed>)
      ensures this.budget == budget && this.immediate == immediate && this.delayed == delayed
    {
      this.budget, this.immediate, this.delayed := budget, immediate, delayed;
    }

    /** A logback goes straight to the executor when nothing speaks against it, otherwise behind a delay of
        at least one second. */
    method DispatchLogback(cancelled: bool, delay: nat, msg: Message) returns (r: Result<(), FunctionError>)
      modifies delayed, if immediate != null then {immediate} else {}
      ensures !cancelled && delay == 0 && immediate != null ==>
        && delayed.items == old(delayed.items)
        && (r.Ok? <==> old(immediate.Accepts()))
        && immediate.items == old(immediate.items) + (if r.Ok? then [msg] else [])
      ensures cancelled || delay > 0 || immediate == null ==>
        && (immediate != null ==> immediate.items == old(immediate.items))
        && (r.Ok? <==> old(delayed.Accepts()))
        && delayed.items == old(delayed.items) + (if r.Ok? then [Delayed(if delay > 1 then delay else 1, msg)] else [])
      ensures r.Err? ==> r.error == FailedToLogBack
    {
      var ok: bool;
      if !cancelled && delay == 0 && immediate != null {
        ok := immediate.TrySend(msg);
      } else {
        ok := delayed.TrySend(Delayed(if delay > 1 then delay else 1, msg));
      }
      r := if ok then Ok(()) else Err(FailedToLogBack);
    }

    /** The budget is settled before anything is read or sent, so a call that passes the check pays
        even if its arguments are unreadable or the channel is full. `payload` is what the guest's
        memory yields for the message, None when it cannot be read. */
    method LogBackDetailed(requested: LogbacksAllowed, payload: Option<(string, Bytes)>, delay: nat, cancelled: bool)
      returns (code: int)
      modifies this, delayed, if immediate != null then {immediate} else {}
      ensures var have := old(budget);
        var admitted := have.Unlimited? || (requested.Limited? && requested.count < have.count);
        var direct := !cancelled && delay == 0 && immediate != null;
        && (Charge(have, requested).Some? <==> admitted)
        && budget == (if admitted && have.Limited? then Limited(have.count - 1 - requested.count) else have)
        && (code == 0 <==>
              admitted && payload.Some? && if direct then old(immediate.Accepts()) else old(delayed.Accepts()))
        && (code != 0 ==> code == (if !admitted then LogbackBudgetExhausted
                                   else if payload.None? then InternalApiError else FailedToLogBack).Code())
        && (code != 0 || !direct ==> immediate == null || immediate.items == old(immediate.items))
        && (code != 0 || direct ==> delayed.items == old(delayed.items))
        && (code == 0 ==>
              var msg := Message(payload.value.0, payload.value.1, requested, None);
              if direct then immediate.items == old(immediate.items) + [msg]
              else delayed.items == old(delayed.items) + [Delayed(if delay > 1 then delay else 1, msg)])
    {
      var granted: LogbacksAllowed;
      match budget {
        case Unlimited =>
          granted := requested;
        case Limited(x) =>
          if x == 0 {
            return LogbackBudgetExhausted.Code();
          }
          match requested {
            case Unlimited =>
              return LogbackBudgetExhausted.Code();
            case Limited(asked) =>
              if asked > x - 1 {
                return LogbackBudgetExhausted.Code();
              }
              budget := Limited(x - asked);
              budget := Limited(budget.count - 1);
              granted := requested;
          }
      }
      if payload.None? {
        return InternalApiError.Code();
      }
      var r := DispatchLogback(cancelled, delay, Message(payload.value.0, payload.value.1, granted, None));
      code := if r.Ok? then 0 else r.error.Code();
    }
  }
}
