/** Storage quotas: rules running on many threads insert into and delete from namespaces whose
    byte counters are updated incrementally under a lock. One atomic action of one thread is a step. */
module Quota {
  import opened Machine
  import opened Storage

  // ---------- Configuration ----------

  datatype LimitValue = Unlimited | Limited(bytes: nat)

  datatype SharedDb = SharedDb(sizeLimit: LimitValue, r: seq<string>, rw: seq<string>)

  datatype Config = Config(modules: map<string, LimitValue>, shared: map<string, SharedDb>, sharedConfigured: bool)

  const WASM := ".wasm"

  predicate EndsWith(s: string, suffix: string) {
    |suffix| <= |s| && s[|s| - |suffix|..] == suffix
  }

  /** Rules are the files ending in `.wasm`; a shared database may not be named like one. */
  ghost predicate Loaded(cfg: Config) {
    && (forall name :: name in cfg.modules ==> EndsWith(name, WASM))
    && (forall name :: name in cfg.shared ==> !EndsWith(name, WASM))
    && (!cfg.sharedConfigured ==> cfg.shared == map[])
  }

  /** Shared databases need not be configured at all. */
  function Load(files: map<string, LimitValue>, shared: Option<map<string, SharedDb>>): (r: Result<Config, string>)
    ensures r.Ok? ==> Loaded(r.value) && r.value.sharedConfigured == shared.Some?
    ensures r.Ok? && shared.Some? ==> r.value.shared == shared.value
    ensures r.Err? <==> shared.Some? && exists name :: name in shared.value && EndsWith(name, WASM)
  {
    var table := if shared.Some? then shared.value else map[];
    if exists name :: name in table && EndsWith(name, WASM) then
      Err("The name of a shared DB must not end with .wasm")
    else
      Ok(Config(map name | name in files && EndsWith(name, WASM) :: files[name], table, shared.Some?))
  }

  /** A byte counter and its lock. Every rule has one, and so has every shared database. */
  datatype Cell = Private(rule: string) | Shared(name: string)

  predicate HasCell(cfg: Config, c: Cell) {
    match c
    case Private(rule) => rule in cfg.modules
    case Shared(name) => name in cfg.shared
  }

  function NamespaceOf(c: Cell): string {
    match c
    case Private(rule) => rule
    case Shared(name) => name
  }

  function LimitOf(cfg: Config, c: Cell): LimitValue
    requires HasCell(cfg, c)
  {
    match c
    case Private(rule) => cfg.modules[rule]
    case Shared(name) => cfg.shared[name].sizeLimit
  }

  predicate IsLimited(cfg: Config, c: Cell) {
    HasCell(cfg, c) && LimitOf(cfg, c).Limited?
  }

  /** No two counters govern the same namespace. */
  lemma OneCellPerNamespace(cfg: Config, c: Cell, d: Cell)
    requires Loaded(cfg) && HasCell(cfg, c) && HasCell(cfg, d)
    ensures NamespaceOf(c) == NamespaceOf(d) <==> c == d
  {
  }

  // ---------- Access ----------

  /** A call names the rule's own namespace or a shared one. */
  datatype Target = Own | SharedNamespace(name: string)

  function WritableCell(cfg: Config, rule: string, target: Target): Option<Cell> {
    match target
    case Own => if rule in cfg.modules then Some(Private(rule)) else None
    case SharedNamespace(name) =>
      if name in cfg.shared && rule in cfg.shared[name].rw then Some(Shared(name)) else None
  }

  function ReadableCell(cfg: Config, rule: string, target: Target): Option<Cell> {
    match target
    case Own => if rule in cfg.modules then Some(Private(rule)) else None
    case SharedNamespace(name) =>
      if name in cfg.shared && (rule in cfg.shared[name].r || rule in cfg.shared[name].rw)
      then Some(Shared(name)) else None
  }

  /** Who may change a namespace: its own rule, or a shared database's read-write rules. */
  predicate MayWrite(cfg: Config, rule: string, ns: string) {
    || (rule == ns && rule in cfg.modules)
    || (ns in cfg.shared && rule in cfg.shared[ns].rw)
  }

  /** Who may read it: in addition the shared database's read-only rules. */
  predicate MayRead(cfg: Config, rule: string, ns: string) {
    MayWrite(cfg, rule, ns) || (ns in cfg.shared && rule in cfg.shared[ns].r)
  }

  /** A call is let in exactly when its rule may use the namespace it names, and then works on the counter,
      under the limit, and in the namespace of just that name. */
  lemma WritableIsTheNamedOne(cfg: Config, rule: string, name: string)
    ensures WritableCell(cfg, rule, Own).Some? <==> rule in cfg.modules
    ensures rule in cfg.modules ==>
      var c := WritableCell(cfg, rule, Own).value;
      HasCell(cfg, c) && NamespaceOf(c) == rule && LimitOf(cfg, c) == cfg.modules[rule]
    ensures WritableCell(cfg, rule, SharedNamespace(name)).Some? <==> name in cfg.shared && rule in cfg.shared[name].rw
    ensures name in cfg.shared && rule in cfg.shared[name].rw ==>
      var c := WritableCell(cfg, rule, SharedNamespace(name)).value;
      HasCell(cfg, c) && NamespaceOf(c) == name && LimitOf(cfg, c) == cfg.shared[name].sizeLimit
  {
  }

  lemma ReadableIsTheNamedOne(cfg: Config, rule: string, name: string)
    ensures ReadableCell(cfg, rule, Own).Some? <==> rule in cfg.modules
    ensures rule in cfg.modules ==> NamespaceOf(ReadableCell(cfg, rule, Own).value) == rule
    ensures ReadableCell(cfg, rule, SharedNamespace(name)).Some? <==>
      name in cfg.shared && (rule in cfg.shared[name].r || rule in cfg.shared[name].rw)
    ensures ReadableCell(cfg, rule, SharedNamespace(name)).Some? ==>
      NamespaceOf(ReadableCell(cfg, rule, SharedNamespace(name)).value) == name
    ensures WritableCell(cfg, rule, SharedNamespace(name)).Some? ==>
      ReadableCell(cfg, rule, SharedNamespace(name)) == WritableCell(cfg, rule, SharedNamespace(name))
  {
  }

  // ---------- Threads and steps ----------

  datatype Reply = Nothing | Previous(value: Option<Bytes>) | Failed(error: FunctionError)

  datatype Pc =
    | Idle
    | InsertWaiting(cell: Cell, key: Key, value: Bytes)
    | InsertHolding(cell: Cell, key: Key, value: Bytes)
    | InsertMeasured(cell: Cell, key: Key, value: Bytes, existing: nat)
    | InsertStored(cell: Cell, wouldBeUsed: nat, previous: Option<Bytes>)
    | InsertUncounted(cell: Cell, key: Key, value: Bytes)
    | DeleteWaiting(cell: Cell, key: Key)
    | DeleteHolding(cell: Cell, key: Key)
    | DeleteRemoved(cell: Cell, key: Key, data: Bytes)
    | DeleteUncounted(cell: Cell, key: Key)
    | Reading(cell: Cell, key: Key)
  {
    predicate HoldsLock() {
      InsertHolding? || InsertMeasured? || InsertStored? || DeleteHolding? || DeleteRemoved?
    }

    predicate Counted() {
      HoldsLock() || InsertWaiting? || DeleteWaiting?
    }
  }

  datatype Thread = Thread(rule: string, pc: Pc, reply: Reply)

  datatype State = State(db: Database, counters: map<Cell, nat>, locked: map<Cell, nat>, threads: map<nat, Thread>)

  datatype Event =
    | CallInsert(target: Target, key: Key, value: Bytes)
    | CallDelete(target: Target, key: Key, bufferLen: nat)
    | CallGet(target: Target, key: Key)
    | Lock
    | Measure(fails: bool)
    | Store(fails: bool)
    | Erase(fails: bool)
    | Read(fails: bool)
    | Settle

  function Goto(s: State, t: nat, pc: Pc): State
    requires t in s.threads
  {
    s.(threads := s.threads[t := s.threads[t].(pc := pc)])
  }

  function Finish(s: State, t: nat, reply: Reply): State
    requires t in s.threads
  {
    s.(threads := s.threads[t := s.threads[t].(pc := Idle, reply := reply)])
  }

  function Unlock(s: State, c: Cell): State {
    s.(locked := s.locked - {c})
  }

  /** Start of a host call: permission first, then the limited or the uncounted path. */
  function Call(cfg: Config, s: State, t: nat, e: Event): Option<State>
    requires t in s.threads
  {
    var rule := s.threads[t].rule;
    if !s.threads[t].pc.Idle? then None
    else match e
      case CallInsert(target, key, value) =>
        if |key| >= TWO_32 || |value| >= TWO_32 then None
        else (match WritableCell(cfg, rule, target)
          case None => Some(Finish(s, t, Failed(OperationNotAllowed)))
          case Some(c) =>
            Some(Goto(s, t, if LimitOf(cfg, c).Unlimited? then InsertUncounted(c, key, value)
                            else InsertWaiting(c, key, value))))
      case CallDelete(target, key, bufferLen) =>
        (match WritableCell(cfg, rule, target)
         case None => Some(Finish(s, t, Failed(OperationNotAllowed)))
         case Some(c) =>
           Some(Goto(s, t, if bufferLen == 0 then Reading(c, key)
                           else if LimitOf(cfg, c).Unlimited? then DeleteUncounted(c, key)
                           else DeleteWaiting(c, key))))
      case CallGet(target, key) =>
        (match ReadableCell(cfg, rule, target)
         case None => Some(Finish(s, t, Failed(OperationNotAllowed)))
         case Some(c) => Some(Goto(s, t, Reading(c, key))))
      case _ => None
  }

  function Acquire(s: State, t: nat): Option<State>
    requires t in s.threads
  {
    match s.threads[t].pc
    case InsertWaiting(c, key, value) =>
      if c in s.locked then None
      else Some(Goto(s.(locked := s.locked[c := t]), t, InsertHolding(c, key, value)))
    case DeleteWaiting(c, key) =>
      if c in s.locked then None
      else Some(Goto(s.(locked := s.locked[c := t]), t, DeleteHolding(c, key)))
    case _ => None
  }

  /** Under the lock, ask the provider what the insert would overwrite. */
  function MeasureExisting(s: State, t: nat, fails: bool): Option<State>
    requires t in s.threads
  {
    match s.threads[t].pc
    case InsertHolding(c, key, value) =>
      if fails then Some(Finish(Unlock(s, c), t, Failed(InternalApiError)))
      else Some(Goto(s, t, InsertMeasured(c, key, value, Occupied(Entries(s.db, NamespaceOf(c)), key))))
    case _ => None
  }

  function WouldBeUsed(counter: nat, key: Key, value: Bytes, existing: nat): nat {
    AsU64(counter + |key| + |value| - existing)
  }

  /** Reject above the limit, otherwise write to the provider. */
  function StoreValue(cfg: Config, s: State, t: nat, fails: bool): Option<State>
    requires t in s.threads
  {
    match s.threads[t].pc
    case InsertMeasured(c, key, value, existing) =>
      if !IsLimited(cfg, c) || c !in s.counters then None
      else
        var would := WouldBeUsed(s.counters[c], key, value, existing);
        if would > LimitOf(cfg, c).bytes then Some(Finish(Unlock(s, c), t, Failed(StorageLimitReached)))
        else if fails then Some(Finish(Unlock(s, c), t, Failed(InternalApiError)))
        else
          var ns := NamespaceOf(c);
          Some(Goto(s.(db := Put(s.db, ns, key, value)), t,
                    InsertStored(c, would, Lookup(Entries(s.db, ns), key))))
    case InsertUncounted(c, key, value) =>
      if fails then Some(Finish(s, t, Failed(InternalApiError)))
      else
        var ns := NamespaceOf(c);
        Some(Finish(s.(db := Put(s.db, ns, key, value)), t, Previous(Lookup(Entries(s.db, ns), key))))
    case _ => None
  }

  function EraseValue(s: State, t: nat, fails: bool): Option<State>
    requires t in s.threads
  {
    match s.threads[t].pc
    case DeleteHolding(c, key) =>
      var ns := NamespaceOf(c);
      if fails then Some(Finish(Unlock(s, c), t, Failed(InternalApiError)))
      else if key !in Entries(s.db, ns) then Some(Finish(Unlock(s, c), t, Previous(None)))
      else Some(Goto(s.(db := Remove(s.db, ns, key)), t, DeleteRemoved(c, key, Entries(s.db, ns)[key])))
    case DeleteUncounted(c, key) =>
      var ns := NamespaceOf(c);
      if fails then Some(Finish(s, t, Failed(InternalApiError)))
      else Some(Finish(s.(db := Remove(s.db, ns, key)), t, Previous(Lookup(Entries(s.db, ns), key))))
    case _ => None
  }

  function ReadValue(s: State, t: nat, fails: bool): Option<State>
    requires t in s.threads
  {
    match s.threads[t].pc
    case Reading(c, key) =>
      Some(Finish(s, t, if fails then Failed(InternalApiError)
                        else Previous(Lookup(Entries(s.db, NamespaceOf(c)), key))))
    case _ => None
  }

  /** Write the counter back and let go of the lock. */
  function SettleCounter(s: State, t: nat): Option<State>
    requires t in s.threads
  {
    match s.threads[t].pc
    case InsertStored(c, would, previous) =>
      Some(Finish(Unlock(s.(counters := s.counters[c := would]), c), t, Previous(previous)))
    case DeleteRemoved(c, key, data) =>
      if c !in s.counters then None
      else
        Some(Finish(Unlock(s.(counters := s.counters[c := AsU64(s.counters[c] - |key| - |data|)]), c),
                    t, Previous(Some(data))))
    case _ => None
  }

  function Apply(cfg: Config, s: State, t: nat, e: Event): Option<State> {
    if t !in s.threads then None
    else match e
      case Lock => Acquire(s, t)
      case Measure(fails) => MeasureExisting(s, t, fails)
      case Store(fails) => StoreValue(cfg, s, t, fails)
      case Erase(fails) => EraseValue(s, t, fails)
      case Read(fails) => ReadValue(s, t, fails)
      case Settle => SettleCounter(s, t)
      case _ => Call(cfg, s, t, e)
  }

  /** Any interleaving: which thread moves next, and what it does, is arbitrary. */
  type Schedule = seq<(nat, Event)>

  function Run(cfg: Config, s: State, schedule: Schedule): Option<State>
    decreases |schedule|
  {
    if schedule == [] then Some(s)
    else
      match Apply(cfg, s, schedule[0].0, schedule[0].1)
      case None => None
      case Some(s') => Run(cfg, s', schedule[1..])
  }

  // ---------- Accounting ----------

  ghost function Usage(s: State, c: Cell): nat {
    Size(Entries(s.db, NamespaceOf(c)))
  }

  /** What the thread inside the critical section knows about the counter. */
  ghost predicate HolderKnows(s: State, c: Cell, pc: Pc)
    requires c in s.counters
  {
    match pc
    case InsertHolding(d, _, _) => d == c && s.counters[c] == AsU64(Usage(s, c))
    case InsertMeasured(d, key, _, existing) =>
      d == c && s.counters[c] == AsU64(Usage(s, c)) && existing == Occupied(Entries(s.db, NamespaceOf(c)), key)
    case InsertStored(d, would, _) => d == c && would == AsU64(Usage(s, c))
    case DeleteHolding(d, _) => d == c && s.counters[c] == AsU64(Usage(s, c))
    case DeleteRemoved(d, key, data) => d == c && s.counters[c] == AsU64(Usage(s, c) + |key| + |data|)
    case _ => false
  }

  ghost predicate CellOk(cfg: Config, s: State, c: Cell)
    requires c in s.counters
  {
    IsLimited(cfg, c) ==>
      if c in s.locked then s.locked[c] in s.threads && HolderKnows(s, c, s.threads[s.locked[c]].pc)
      else s.counters[c] == AsU64(Usage(s, c))
  }

  ghost predicate ThreadOk(cfg: Config, s: State, t: nat)
    requires t in s.threads
  {
    var pc := s.threads[t].pc;
    pc != Idle ==>
      && HasCell(cfg, pc.cell)
      && MayRead(cfg, s.threads[t].rule, NamespaceOf(pc.cell))
      && (!pc.Reading? ==> MayWrite(cfg, s.threads[t].rule, NamespaceOf(pc.cell)))
      && (pc.Counted() ==> IsLimited(cfg, pc.cell))
      && (pc.InsertUncounted? || pc.DeleteUncounted? ==> !IsLimited(cfg, pc.cell))
      && (pc.HoldsLock() ==> pc.cell in s.locked && s.locked[pc.cell] == t)
      && (pc.InsertMeasured? || pc.InsertHolding? || pc.InsertWaiting? ==> |pc.key| < TWO_32 && |pc.value| < TWO_32)
  }

  ghost predicate Inv(cfg: Config, s: State) {
    && Loaded(cfg)
    && (forall c :: HasCell(cfg, c) ==> c in s.counters)
    && (forall c :: c in s.counters ==> CellOk(cfg, s, c))
    && (forall t :: t in s.threads ==> ThreadOk(cfg, s, t))
  }

  /** At load every counter is seeded with the full scan and no rule runs yet. */
  ghost predicate Seeded(cfg: Config, s: State) {
    && Loaded(cfg)
    && (forall c :: HasCell(cfg, c) ==> c in s.counters)
    && (forall c :: c in s.counters ==> s.counters[c] == AsU64(Usage(s, c)))
    && (forall t :: t in s.threads ==> s.threads[t].pc == Idle)
    && s.locked == map[]
  }

  /** A step leaves everything that belongs to other cells and other threads alone. */
  ghost predicate TouchesLocks(s: State, s': State, t: nat, c: Cell) {
    && t in s.threads && s'.threads.Keys == s.threads.Keys && s'.counters.Keys == s.counters.Keys
    && s'.threads[t].rule == s.threads[t].rule
    && (forall u :: u in s.threads && u != t ==> s'.threads[u] == s.threads[u])
    && (forall d :: d in s.counters && d != c ==> s'.counters[d] == s.counters[d])
    && (forall d :: d != c ==> (d in s'.locked <==> d in s.locked))
    && (forall d :: d != c && d in s.locked ==> s'.locked[d] == s.locked[d])
  }

  ghost predicate TouchesData(s: State, s': State, c: Cell) {
    forall ns :: ns != NamespaceOf(c) ==> Entries(s'.db, ns) == Entries(s.db, ns)
  }

  ghost predicate Touches(s: State, s': State, t: nat, c: Cell) {
    TouchesLocks(s, s', t, c) && TouchesData(s, s', c)
  }

  /** It is enough to look at the moving thread and the cell it works on. */
  lemma Localise(cfg: Config, s: State, s': State, t: nat, c: Cell)
    requires Inv(cfg, s) && HasCell(cfg, c) && Touches(s, s', t, c)
    requires c in s.locked && s.locked[c] != t ==> c in s'.locked && s'.locked[c] == s.locked[c]
    requires s.threads[t].pc.HoldsLock() ==> s.threads[t].pc.cell == c
    requires c in s'.counters && CellOk(cfg, s', c) && ThreadOk(cfg, s', t)
    ensures Inv(cfg, s')
  {
    forall d | d in s'.counters ensures CellOk(cfg, s', d) {
      if d != c && IsLimited(cfg, d) {
        OneCellPerNamespace(cfg, c, d);
        assert CellOk(cfg, s, d);
        assert Usage(s', d) == Usage(s, d);
        if d in s.locked {
          assert s.locked[d] != t;
        }
      }
    }
    forall u | u in s'.threads ensures ThreadOk(cfg, s', u) {
      if u != t {
        assert ThreadOk(cfg, s, u);
      }
    }
  }

  lemma SeededInv(cfg: Config, s: State)
    requires Seeded(cfg, s)
    ensures Inv(cfg, s)
  {
  }

  lemma StoreTouchesLocks(cfg: Config, s: State, t: nat, fails: bool)
    requires t in s.threads && StoreValue(cfg, s, t, fails).Some?
    ensures TouchesLocks(s, StoreValue(cfg, s, t, fails).value, t, s.threads[t].pc.cell)
  {
  }

  lemma StoreTouches(cfg: Config, s: State, t: nat, fails: bool)
    requires t in s.threads && StoreValue(cfg, s, t, fails).Some?
    ensures Touches(s, StoreValue(cfg, s, t, fails).value, t, s.threads[t].pc.cell)
  {
    StoreTouchesLocks(cfg, s, t, fails);
  }

  lemma EraseTouchesLocks(s: State, t: nat, fails: bool)
    requires t in s.threads && EraseValue(s, t, fails).Some?
    ensures TouchesLocks(s, EraseValue(s, t, fails).value, t, s.threads[t].pc.cell)
  {
  }

  lemma EraseTouches(s: State, t: nat, fails: bool)
    requires t in s.threads && EraseValue(s, t, fails).Some?
    ensures Touches(s, EraseValue(s, t, fails).value, t, s.threads[t].pc.cell)
  {
    EraseTouchesLocks(s, t, fails);
  }

  /** A thread outside the critical section may move on without touching anything shared. */
  lemma ThreadOnly(cfg: Config, s: State, t: nat, thread: Thread)
    requires Inv(cfg, s) && t in s.threads && !s.threads[t].pc.HoldsLock()
    requires ThreadOk(cfg, s.(threads := s.threads[t := thread]), t)
    ensures Inv(cfg, s.(threads := s.threads[t := thread]))
  {
    var s' := s.(threads := s.threads[t := thread]);
    forall c | c in s'.counters ensures CellOk(cfg, s', c) {
      assert CellOk(cfg, s, c);
      assert Usage(s', c) == Usage(s, c);
    }
    forall u | u in s'.threads ensures ThreadOk(cfg, s', u) {
      assert ThreadOk(cfg, s, u);
    }
  }

  lemma CallOnlyMovesThread(cfg: Config, s: State, t: nat, e: Event)
    requires t in s.threads && Call(cfg, s, t, e).Some?
    ensures s.threads[t].pc.Idle?
    ensures Call(cfg, s, t, e).value == s.(threads := s.threads[t := Call(cfg, s, t, e).value.threads[t]])
    ensures Call(cfg, s, t, e).value.threads[t].rule == s.threads[t].rule
    ensures ThreadOk(cfg, Call(cfg, s, t, e).value, t)
  {
  }

  lemma CallKeepsInv(cfg: Config, s: State, t: nat, e: Event)
    requires Inv(cfg, s) && t in s.threads && Call(cfg, s, t, e).Some?
    ensures Inv(cfg, Call(cfg, s, t, e).value)
  {
    var s' := Call(cfg, s, t, e).value;
    CallOnlyMovesThread(cfg, s, t, e);
    ThreadOnly(cfg, s, t, s'.threads[t]);
  }

  lemma AcquireKeepsInv(cfg: Config, s: State, t: nat)
    requires Inv(cfg, s) && t in s.threads && Acquire(s, t).Some?
    ensures Inv(cfg, Acquire(s, t).value)
  {
    assert ThreadOk(cfg, s, t);
    var c := s.threads[t].pc.cell;
    assert CellOk(cfg, s, c);
    Localise(cfg, s, Acquire(s, t).value, t, c);
  }

  lemma MeasureKeepsInv(cfg: Config, s: State, t: nat, fails: bool)
    requires Inv(cfg, s) && t in s.threads && MeasureExisting(s, t, fails).Some?
    ensures Inv(cfg, MeasureExisting(s, t, fails).value)
  {
    assert ThreadOk(cfg, s, t);
    var c := s.threads[t].pc.cell;
    assert CellOk(cfg, s, c);
    Localise(cfg, s, MeasureExisting(s, t, fails).value, t, c);
  }

  /** Whatever the size of the store, the would-be counter is its new size modulo 2^64. */
  lemma WouldBeUsedIsNewSize(m: Namespace, key: Key, value: Bytes, counter: nat)
    requires counter == AsU64(Size(m))
    ensures WouldBeUsed(counter, key, value, Occupied(m, key)) == AsU64(Size(m[key := value]))
  {
    SizeOfPut(m, key, value);
    WrapOnce(Size(m), |key| + |value| - Occupied(m, key));
  }

  lemma CountedStoreKeepsInv(cfg: Config, s: State, t: nat, fails: bool)
    requires Inv(cfg, s) && t in s.threads && StoreValue(cfg, s, t, fails).Some?
    requires s.threads[t].pc.InsertMeasured?
    ensures Inv(cfg, StoreValue(cfg, s, t, fails).value)
  {
    assert ThreadOk(cfg, s, t);
    var pc := s.threads[t].pc;
    var c, m := pc.cell, Entries(s.db, NamespaceOf(pc.cell));
    assert CellOk(cfg, s, c);
    WouldBeUsedIsNewSize(m, pc.key, pc.value, s.counters[c]);
    var s' := StoreValue(cfg, s, t, fails).value;
    if s'.threads[t].pc.InsertStored? {
      assert Entries(s'.db, NamespaceOf(c)) == m[pc.key := pc.value];
      assert HolderKnows(s', c, s'.threads[t].pc);
    } else {
      assert s'.db == s.db && Usage(s', c) == Usage(s, c);
    }
    assert CellOk(cfg, s', c);
    StoreTouches(cfg, s, t, fails);
    Localise(cfg, s, s', t, c);
  }

  lemma StoreKeepsInv(cfg: Config, s: State, t: nat, fails: bool)
    requires Inv(cfg, s) && t in s.threads && StoreValue(cfg, s, t, fails).Some?
    ensures Inv(cfg, StoreValue(cfg, s, t, fails).value)
  {
    if s.threads[t].pc.InsertMeasured? {
      CountedStoreKeepsInv(cfg, s, t, fails);
    } else {
      assert ThreadOk(cfg, s, t);
      var c := s.threads[t].pc.cell;
      assert CellOk(cfg, s, c);
      StoreTouches(cfg, s, t, fails);
      Localise(cfg, s, StoreValue(cfg, s, t, fails).value, t, c);
    }
  }

  lemma CountedEraseKeepsInv(cfg: Config, s: State, t: nat, fails: bool)
    requires Inv(cfg, s) && t in s.threads && EraseValue(s, t, fails).Some? && s.threads[t].pc.DeleteHolding?
    ensures Inv(cfg, EraseValue(s, t, fails).value)
  {
    assert ThreadOk(cfg, s, t);
    var pc := s.threads[t].pc;
    var c, m := pc.cell, Entries(s.db, NamespaceOf(pc.cell));
    assert CellOk(cfg, s, c);
    SizeOfRemove(m, pc.key);
    var s' := EraseValue(s, t, fails).value;
    if s'.threads[t].pc.DeleteRemoved? {
      assert Entries(s'.db, NamespaceOf(c)) == m - {pc.key};
      assert HolderKnows(s', c, s'.threads[t].pc);
    } else {
      assert s'.db == s.db && Usage(s', c) == Usage(s, c);
    }
    assert CellOk(cfg, s', c);
    EraseTouches(s, t, fails);
    Localise(cfg, s, s', t, c);
  }

  lemma EraseKeepsInv(cfg: Config, s: State, t: nat, fails: bool)
    requires Inv(cfg, s) && t in s.threads && EraseValue(s, t, fails).Some?
    ensures Inv(cfg, EraseValue(s, t, fails).value)
  {
    if s.threads[t].pc.DeleteHolding? {
      CountedEraseKeepsInv(cfg, s, t, fails);
    } else {
      assert ThreadOk(cfg, s, t);
      var c := s.threads[t].pc.cell;
      assert CellOk(cfg, s, c);
      EraseTouches(s, t, fails);
      Localise(cfg, s, EraseValue(s, t, fails).value, t, c);
    }
  }

  lemma SettleKeepsInv(cfg: Config, s: State, t: nat)
    requires Inv(cfg, s) && t in s.threads && SettleCounter(s, t).Some?
    ensures Inv(cfg, SettleCounter(s, t).value)
  {
    assert ThreadOk(cfg, s, t);
    var pc := s.threads[t].pc;
    var c := pc.cell;
    assert CellOk(cfg, s, c);
    if pc.DeleteRemoved? {
      WrapOnce(Usage(s, c) + |pc.key| + |pc.data|, -|pc.key| - |pc.data|);
    }
    Localise(cfg, s, SettleCounter(s, t).value, t, c);
  }

  lemma ReadKeepsInv(cfg: Config, s: State, t: nat, fails: bool)
    requires Inv(cfg, s) && t in s.threads && ReadValue(s, t, fails).Some?
    ensures Inv(cfg, ReadValue(s, t, fails).value)
  {
    assert ThreadOk(cfg, s, t);
    var c := s.threads[t].pc.cell;
    assert CellOk(cfg, s, c);
    Localise(cfg, s, ReadValue(s, t, fails).value, t, c);
  }

  lemma StepKeepsInv(cfg: Config, s: State, t: nat, e: Event)
    requires Inv(cfg, s) && Apply(cfg, s, t, e).Some?
    ensures Inv(cfg, Apply(cfg, s, t, e).value)
  {
    match e
    case Lock => AcquireKeepsInv(cfg, s, t);
    case Measure(fails) => MeasureKeepsInv(cfg, s, t, fails);
    case Store(fails) => StoreKeepsInv(cfg, s, t, fails);
    case Erase(fails) => EraseKeepsInv(cfg, s, t, fails);
    case Read(fails) => ReadKeepsInv(cfg, s, t, fails);
    case Settle => SettleKeepsInv(cfg, s, t);
    case _ => CallKeepsInv(cfg, s, t, e);
  }

  // ---------- Over whole runs ----------

  lemma {:induction false} RunKeepsInv(cfg: Config, s: State, schedule: Schedule)
    requires Inv(cfg, s) && Run(cfg, s, schedule).Some?
    ensures Inv(cfg, Run(cfg, s, schedule).value)
    decreases |schedule|
  {
    if schedule != [] {
      StepKeepsInv(cfg, s, schedule[0].0, schedule[0].1);
      RunKeepsInv(cfg, Apply(cfg, s, schedule[0].0, schedule[0].1).value, schedule[1..]);
    }
  }

  /** In every interleaving, a counter whose lock is free equals the bytes stored. */
  lemma FreeCounterIsFullScan(cfg: Config, s: State, schedule: Schedule, c: Cell)
    requires Seeded(cfg, s) && Run(cfg, s, schedule).Some? && IsLimited(cfg, c)
    ensures var end := Run(cfg, s, schedule).value;
      c in end.counters && (c !in end.locked ==> end.counters[c] == AsU64(Usage(end, c)))
  {
    SeededInv(cfg, s);
    RunKeepsInv(cfg, s, schedule);
    var end := Run(cfg, s, schedule).value;
    assert CellOk(cfg, end, c);
  }

  /** Bytes erased by a delete that has not settled yet. */
  ghost function Unsettled(s: State, c: Cell): nat {
    if c in s.locked && s.locked[c] in s.threads && s.threads[s.locked[c]].pc.DeleteRemoved?
    then |s.threads[s.locked[c]].pc.key| + |s.threads[s.locked[c]].pc.data| else 0
  }

  /** Usage including what a delete has erased but not yet subtracted. */
  ghost function Claimed(s: State, c: Cell): nat {
    Usage(s, c) + Unsettled(s, c)
  }

  /** One more key and value, each shorter than 2^32, cannot wrap the counter. */
  ghost predicate Headroom(cfg: Config, s: State, c: Cell) {
    && IsLimited(cfg, c)
    && LimitOf(cfg, c).bytes + 2 * TWO_32 <= TWO_64
    && Claimed(s, c) + 2 * TWO_32 <= TWO_64
  }

  /** Neither subtraction underflows and the addition does not overflow, whichever thread is about to compute. */
  lemma CounterArithmeticIsSafe(cfg: Config, s: State, t: nat)
    requires Inv(cfg, s) && t in s.threads
    requires s.threads[t].pc.InsertMeasured? || s.threads[t].pc.DeleteRemoved?
    requires Headroom(cfg, s, s.threads[t].pc.cell)
    ensures var pc := s.threads[t].pc; pc.cell in s.counters
    ensures var pc := s.threads[t].pc; pc.InsertMeasured? ==>
      pc.existing <= s.counters[pc.cell] && s.counters[pc.cell] + |pc.key| + |pc.value| < TWO_64
    ensures var pc := s.threads[t].pc; pc.DeleteRemoved? ==> |pc.key| + |pc.data| <= s.counters[pc.cell]
  {
    assert ThreadOk(cfg, s, t);
    var pc := s.threads[t].pc;
    assert CellOk(cfg, s, pc.cell);
    if pc.InsertMeasured? {
      SizeOfRemove(Entries(s.db, NamespaceOf(pc.cell)), pc.key);
    }
  }

  /** The limit check decides on the exact usage: rejected if and only if the full scan after the
      insert would be above the limit, and otherwise the write happens. */
  lemma LimitDecidedOnExactUsage(cfg: Config, s: State, t: nat)
    requires Inv(cfg, s) && t in s.threads && s.threads[t].pc.InsertMeasured?
    requires Headroom(cfg, s, s.threads[t].pc.cell)
    ensures var pc := s.threads[t].pc;
      var ns := NamespaceOf(pc.cell);
      var size := Size(Entries(s.db, ns)[pc.key := pc.value]);
      && StoreValue(cfg, s, t, false).Some?
      && var s' := StoreValue(cfg, s, t, false).value;
      && (size > LimitOf(cfg, pc.cell).bytes ==>
          s'.db == s.db && s'.threads[t].reply == Failed(StorageLimitReached) && pc.cell !in s'.locked)
      && (size <= LimitOf(cfg, pc.cell).bytes ==>
          s'.db == Put(s.db, ns, pc.key, pc.value) && Usage(s', pc.cell) == size)
  {
    assert ThreadOk(cfg, s, t);
    var pc := s.threads[t].pc;
    var m := Entries(s.db, NamespaceOf(pc.cell));
    assert CellOk(cfg, s, pc.cell);
    WouldBeUsedIsNewSize(m, pc.key, pc.value, s.counters[pc.cell]);
    SizeOfPut(m, pc.key, pc.value);
  }

  /** The other steps leave the store alone. */
  lemma QuietStep(cfg: Config, s: State, t: nat, e: Event)
    requires Apply(cfg, s, t, e).Some? && !e.Store? && !e.Erase?
    ensures var s' := Apply(cfg, s, t, e).value;
      && s'.threads == s.threads[t := s'.threads[t]]
      && s'.threads[t].rule == s.threads[t].rule
      && s'.db == s.db
  {
    if e.CallInsert? || e.CallDelete? || e.CallGet? {
      CallOnlyMovesThread(cfg, s, t, e);
    }
  }

  lemma CallLeavesUnsettled(cfg: Config, s: State, t: nat, e: Event, c: Cell)
    requires Inv(cfg, s) && t in s.threads && Call(cfg, s, t, e).Some? && IsLimited(cfg, c)
    ensures Unsettled(Call(cfg, s, t, e).value, c) == Unsettled(s, c)
  {
    assert ThreadOk(cfg, s, t) && CellOk(cfg, s, c);
    CallOnlyMovesThread(cfg, s, t, e);
  }

  lemma LockStepUnsettled(cfg: Config, s: State, t: nat, e: Event, c: Cell)
    requires Inv(cfg, s) && Apply(cfg, s, t, e).Some? && IsLimited(cfg, c)
    requires e.Lock? || e.Measure? || e.Read? || e.Settle?
    ensures Unsettled(Apply(cfg, s, t, e).value, c) <= Unsettled(s, c)
  {
    assert ThreadOk(cfg, s, t) && CellOk(cfg, s, c);
  }

  lemma QuietStepClaims(cfg: Config, s: State, t: nat, e: Event, c: Cell)
    requires Inv(cfg, s) && Apply(cfg, s, t, e).Some? && IsLimited(cfg, c) && !e.Erase? && !e.Store?
    ensures var s' := Apply(cfg, s, t, e).value; s'.db == s.db && Unsettled(s', c) <= Unsettled(s, c)
  {
    QuietStep(cfg, s, t, e);
    if e.Lock? || e.Measure? || e.Read? || e.Settle? {
      LockStepUnsettled(cfg, s, t, e, c);
    } else {
      CallLeavesUnsettled(cfg, s, t, e, c);
    }
  }

  /** A step on another cell leaves this one's claims alone. */
  lemma OtherCellClaims(cfg: Config, s: State, s': State, t: nat, d: Cell, c: Cell)
    requires Inv(cfg, s) && HasCell(cfg, d) && IsLimited(cfg, c) && d != c && Touches(s, s', t, d)
    requires s.threads[t].pc.HoldsLock() ==> s.threads[t].pc.cell == d
    ensures Usage(s', c) == Usage(s, c) && Claimed(s', c) == Claimed(s, c)
  {
    OneCellPerNamespace(cfg, d, c);
    assert CellOk(cfg, s, c);
  }

  lemma OwnStoreClaims(cfg: Config, s: State, t: nat, fails: bool)
    requires Inv(cfg, s) && t in s.threads && StoreValue(cfg, s, t, fails).Some?
    requires Headroom(cfg, s, s.threads[t].pc.cell)
    ensures var c, s' := s.threads[t].pc.cell, StoreValue(cfg, s, t, fails).value;
      && Claimed(s', c) <= Max(LimitOf(cfg, c).bytes, Claimed(s, c))
      && Usage(s', c) <= Max(LimitOf(cfg, c).bytes, Usage(s, c))
  {
    assert ThreadOk(cfg, s, t);
    var c, s' := s.threads[t].pc.cell, StoreValue(cfg, s, t, fails).value;
    assert CellOk(cfg, s, c);
    assert Unsettled(s', c) == 0;
    if s'.db != s.db {
      StoreBoundsUsage(cfg, s, t, c);
    }
  }

  lemma StoreClaims(cfg: Config, s: State, t: nat, fails: bool, c: Cell)
    requires Inv(cfg, s) && t in s.threads && StoreValue(cfg, s, t, fails).Some? && Headroom(cfg, s, c)
    ensures var s' := StoreValue(cfg, s, t, fails).value;
      && Claimed(s', c) <= Max(LimitOf(cfg, c).bytes, Claimed(s, c))
      && Usage(s', c) <= Max(LimitOf(cfg, c).bytes, Usage(s, c))
  {
    var d := s.threads[t].pc.cell;
    if d == c {
      OwnStoreClaims(cfg, s, t, fails);
    } else {
      assert ThreadOk(cfg, s, t);
      StoreTouches(cfg, s, t, fails);
      OtherCellClaims(cfg, s, StoreValue(cfg, s, t, fails).value, t, d, c);
    }
  }

  lemma EraseClaims(cfg: Config, s: State, t: nat, fails: bool, c: Cell)
    requires Inv(cfg, s) && t in s.threads && EraseValue(s, t, fails).Some? && IsLimited(cfg, c)
    ensures Claimed(EraseValue(s, t, fails).value, c) <= Claimed(s, c)
    ensures Usage(EraseValue(s, t, fails).value, c) <= Usage(s, c)
  {
    assert ThreadOk(cfg, s, t);
    var pc, s' := s.threads[t].pc, EraseValue(s, t, fails).value;
    if pc.cell == c {
      assert CellOk(cfg, s, c);
      SizeOfRemove(Entries(s.db, NamespaceOf(c)), pc.key);
      assert Unsettled(s, c) == 0;
    } else {
      EraseTouches(s, t, fails);
      OtherCellClaims(cfg, s, s', t, pc.cell, c);
    }
  }

  lemma StepBoundsClaims(cfg: Config, s: State, t: nat, e: Event, c: Cell)
    requires Inv(cfg, s) && Apply(cfg, s, t, e).Some? && Headroom(cfg, s, c)
    ensures var s' := Apply(cfg, s, t, e).value;
      && Usage(s', c) <= Max(LimitOf(cfg, c).bytes, Usage(s, c))
      && Claimed(s', c) <= Max(LimitOf(cfg, c).bytes, Claimed(s, c))
      && Headroom(cfg, s', c)
  {
    match e
    case Store(fails) => StoreClaims(cfg, s, t, fails, c);
    case Erase(fails) => EraseClaims(cfg, s, t, fails, c);
    case _ => QuietStepClaims(cfg, s, t, e, c);
  }

  lemma StoreBoundsUsage(cfg: Config, s: State, t: nat, c: Cell)
    requires Inv(cfg, s) && t in s.threads && s.threads[t].pc != Idle && s.threads[t].pc.cell == c
    requires Headroom(cfg, s, c) && StoreValue(cfg, s, t, false).Some?
    ensures var s' := StoreValue(cfg, s, t, false).value;
      s'.db != s.db ==> Usage(s', c) <= LimitOf(cfg, c).bytes && s'.threads[t].pc.InsertStored? && s'.locked == s.locked
  {
    assert ThreadOk(cfg, s, t);
    LimitDecidedOnExactUsage(cfg, s, t);
  }

  /** Usage never exceeds the larger of the limit and what was there at the start; in particular it
      stays within the limit once it is. */
  lemma {:induction false} UsageStaysBounded(cfg: Config, s: State, schedule: Schedule, c: Cell)
    requires Inv(cfg, s) && Run(cfg, s, schedule).Some? && Headroom(cfg, s, c)
    ensures Usage(Run(cfg, s, schedule).value, c) <= Max(LimitOf(cfg, c).bytes, Usage(s, c))
    ensures Headroom(cfg, Run(cfg, s, schedule).value, c)
    decreases |schedule|
  {
    if schedule != [] {
      var s' := Apply(cfg, s, schedule[0].0, schedule[0].1).value;
      StepKeepsInv(cfg, s, schedule[0].0, schedule[0].1);
      StepBoundsClaims(cfg, s, schedule[0].0, schedule[0].1, c);
      UsageStaysBounded(cfg, s', schedule[1..], c);
    }
  }

  /** No step changes a thread's rule, and none writes where the moving thread's rule may not. */
  lemma StepIsolation(cfg: Config, s: State, t: nat, e: Event, ns: string)
    requires Inv(cfg, s) && Apply(cfg, s, t, e).Some?
    ensures var s' := Apply(cfg, s, t, e).value;
      && s'.threads.Keys == s.threads.Keys
      && (forall u :: u in s.threads ==> s'.threads[u].rule == s.threads[u].rule)
      && (Entries(s'.db, ns) != Entries(s.db, ns) ==> MayWrite(cfg, s.threads[t].rule, ns))
  {
    assert ThreadOk(cfg, s, t);
    match e
    case Store(fails) => StoreTouches(cfg, s, t, fails);
    case Erase(fails) => EraseTouches(s, t, fails);
    case _ => QuietStep(cfg, s, t, e);
  }

  /** What a running call has fetched from the store on the rule's behalf. */
  function Fetched(pc: Pc): Option<Bytes> {
    match pc
    case InsertStored(_, _, previous) => previous
    case DeleteRemoved(_, _, data) => Some(data)
    case _ => None
  }

  /** What the store holds under the key a call is about. */
  function StoredNow(db: Database, pc: Pc): Option<Bytes> {
    if pc.Idle? || pc.InsertStored? then None else Lookup(Entries(db, NamespaceOf(pc.cell)), pc.key)
  }

  /** A step either fetches what is stored at that moment or replies with what was fetched. */
  lemma StepFetches(cfg: Config, s: State, t: nat, e: Event)
    requires t in s.threads && s.threads[t].pc != Idle && Apply(cfg, s, t, e).Some?
    ensures var before, after := s.threads[t], Apply(cfg, s, t, e).value.threads[t];
      && (after.pc.InsertStored? || after.pc.DeleteRemoved? ==> Fetched(after.pc) == StoredNow(s.db, before.pc))
      && (after.pc == Idle && after.reply.Previous? ==>
            after.reply.value == if e.Settle? then Fetched(before.pc) else StoredNow(s.db, before.pc))
  {
  }

  /** In every run a call only learns values of a namespace its rule may read, and learns what was stored
      there when it fetched it. */
  lemma OnlyReadersLearn(cfg: Config, s: State, schedule: Schedule, t: nat, e: Event)
    requires Inv(cfg, s) && Run(cfg, s, schedule).Some?
    requires var mid := Run(cfg, s, schedule).value;
      t in mid.threads && mid.threads[t].pc != Idle && Apply(cfg, mid, t, e).Some?
    ensures var mid := Run(cfg, s, schedule).value;
      var before, after := mid.threads[t], Apply(cfg, mid, t, e).value.threads[t];
      && MayRead(cfg, before.rule, NamespaceOf(before.pc.cell))
      && (after.pc.InsertStored? || after.pc.DeleteRemoved? ==> Fetched(after.pc) == StoredNow(mid.db, before.pc))
      && (after.pc == Idle && after.reply.Previous? ==>
            after.reply.value == if e.Settle? then Fetched(before.pc) else StoredNow(mid.db, before.pc))
  {
    RunKeepsInv(cfg, s, schedule);
    var mid := Run(cfg, s, schedule).value;
    StepFetches(cfg, mid, t, e);
    assert ThreadOk(cfg, mid, t);
  }

  /** A namespace changes only through its own rule or a read-write rule of that shared database. */
  lemma {:induction false} NamespacesAreIsolated(cfg: Config, s: State, schedule: Schedule, ns: string)
    requires Inv(cfg, s) && Run(cfg, s, schedule).Some?
    requires forall i :: 0 <= i < |schedule| && schedule[i].0 in s.threads ==>
      !MayWrite(cfg, s.threads[schedule[i].0].rule, ns)
    ensures Entries(Run(cfg, s, schedule).value.db, ns) == Entries(s.db, ns)
    decreases |schedule|
  {
    if schedule != [] {
      var (t, e) := schedule[0];
      StepKeepsInv(cfg, s, t, e);
      StepIsolation(cfg, s, t, e, ns);
      NamespacesAreIsolated(cfg, Apply(cfg, s, t, e).value, schedule[1..], ns);
    }
  }

  // ---------- Calls are served ----------

  /** A rule that may not use the namespace is refused, and nothing else happens. */
  lemma RefusedCall(cfg: Config, s: State, t: nat, target: Target, key: Key, value: Bytes, bufferLen: nat)
    requires t in s.threads && s.threads[t].pc.Idle? && |key| < TWO_32 && |value| < TWO_32
    ensures WritableCell(cfg, s.threads[t].rule, target).None? ==>
      && Apply(cfg, s, t, CallInsert(target, key, value)) == Some(Finish(s, t, Failed(OperationNotAllowed)))
      && Apply(cfg, s, t, CallDelete(target, key, bufferLen)) == Some(Finish(s, t, Failed(OperationNotAllowed)))
    ensures ReadableCell(cfg, s.threads[t].rule, target).None? ==>
      Apply(cfg, s, t, CallGet(target, key)) == Some(Finish(s, t, Failed(OperationNotAllowed)))
  {
  }

  /** A get is one read of the namespace it names, and changes nothing. */
  lemma GetOnlyReads(cfg: Config, s: State, t: nat, target: Target, key: Key, fails: bool)
    requires t in s.threads && s.threads[t].pc.Idle? && ReadableCell(cfg, s.threads[t].rule, target).Some?
    ensures Apply(cfg, s, t, CallGet(target, key)).Some?
    ensures var called := Apply(cfg, s, t, CallGet(target, key)).value;
      && Apply(cfg, called, t, Read(fails)).Some?
      && var read := Apply(cfg, called, t, Read(fails)).value;
      && read.db == s.db && read.counters == s.counters && read.locked == s.locked && read.threads[t].pc == Idle
      && read.threads[t].reply == if fails then Failed(InternalApiError) else
           Previous(Lookup(Entries(s.db, NamespaceOf(ReadableCell(cfg, s.threads[t].rule, target).value)), key))
  {
  }

  /** A delete with a zero-length buffer only asks for the size: the store is not changed by any of its steps. */
  lemma SizeQueryOnlyReads(cfg: Config, s: State, t: nat, target: Target, key: Key, fails: bool)
    requires t in s.threads && s.threads[t].pc.Idle?
    ensures Apply(cfg, s, t, CallDelete(target, key, 0)).Some?
    ensures var called := Apply(cfg, s, t, CallDelete(target, key, 0)).value;
      && called.db == s.db && called.counters == s.counters
      && (WritableCell(cfg, s.threads[t].rule, target).Some? ==>
            && Apply(cfg, called, t, Read(fails)).Some?
            && var read := Apply(cfg, called, t, Read(fails)).value;
            && read.db == s.db && read.counters == s.counters && read.threads[t].pc == Idle
            && read.threads[t].reply == if fails then Failed(InternalApiError) else
                 Previous(Lookup(Entries(s.db, NamespaceOf(WritableCell(cfg, s.threads[t].rule, target).value)), key)))
  {
  }

  /** Without a limit an insert or delete is one write: it answers what was there and touches no counter. */
  lemma UncountedInsert(cfg: Config, s: State, t: nat, target: Target, key: Key, value: Bytes)
    requires t in s.threads && s.threads[t].pc.Idle? && |key| < TWO_32 && |value| < TWO_32
    requires WritableCell(cfg, s.threads[t].rule, target).Some?
    requires LimitOf(cfg, WritableCell(cfg, s.threads[t].rule, target).value).Unlimited?
    ensures var c := WritableCell(cfg, s.threads[t].rule, target).value;
      && Apply(cfg, s, t, CallInsert(target, key, value)).Some?
      && var called := Apply(cfg, s, t, CallInsert(target, key, value)).value;
      && Apply(cfg, called, t, Store(false)).Some?
      && var end := Apply(cfg, called, t, Store(false)).value;
      && Entries(end.db, NamespaceOf(c)) == Entries(s.db, NamespaceOf(c))[key := value]
      && end.counters == s.counters && end.threads[t].pc == Idle
      && end.threads[t].reply == Previous(Lookup(Entries(s.db, NamespaceOf(c)), key))
  {
  }

  lemma UncountedDelete(cfg: Config, s: State, t: nat, target: Target, key: Key, bufferLen: nat)
    requires t in s.threads && s.threads[t].pc.Idle? && bufferLen > 0
    requires WritableCell(cfg, s.threads[t].rule, target).Some?
    requires LimitOf(cfg, WritableCell(cfg, s.threads[t].rule, target).value).Unlimited?
    ensures var c := WritableCell(cfg, s.threads[t].rule, target).value;
      && Apply(cfg, s, t, CallDelete(target, key, bufferLen)).Some?
      && var called := Apply(cfg, s, t, CallDelete(target, key, bufferLen)).value;
      && Apply(cfg, called, t, Erase(false)).Some?
      && var end := Apply(cfg, called, t, Erase(false)).value;
      && Entries(end.db, NamespaceOf(c)) == Entries(s.db, NamespaceOf(c)) - {key}
      && end.counters == s.counters && end.threads[t].pc == Idle
      && end.threads[t].reply == Previous(Lookup(Entries(s.db, NamespaceOf(c)), key))
  {
  }

  /** With a limit the call waits for the lock of that counter, and gets it when it is free. */
  lemma CountedCallWaits(cfg: Config, s: State, t: nat, target: Target, key: Key, value: Bytes, bufferLen: nat)
    requires t in s.threads && s.threads[t].pc.Idle? && |key| < TWO_32 && |value| < TWO_32 && bufferLen > 0
    requires WritableCell(cfg, s.threads[t].rule, target).Some?
    requires LimitOf(cfg, WritableCell(cfg, s.threads[t].rule, target).value).Limited?
    ensures var c := WritableCell(cfg, s.threads[t].rule, target).value;
      && Apply(cfg, s, t, CallInsert(target, key, value)) == Some(Goto(s, t, InsertWaiting(c, key, value)))
      && Apply(cfg, s, t, CallDelete(target, key, bufferLen)) == Some(Goto(s, t, DeleteWaiting(c, key)))
  {
  }

  /** What is left to do of a call, in steps of its own thread. */
  function StepsLeft(pc: Pc): nat {
    match pc
    case Idle => 0
    case InsertWaiting(_, _, _) => 4
    case InsertHolding(_, _, _) => 3
    case InsertMeasured(_, _, _, _) => 2
    case InsertStored(_, _, _) => 1
    case InsertUncounted(_, _, _) => 1
    case DeleteWaiting(_, _) => 3
    case DeleteHolding(_, _) => 2
    case DeleteRemoved(_, _, _) => 1
    case DeleteUncounted(_, _) => 1
    case Reading(_, _) => 1
  }

  /** The next step of a running call. */
  function OwnStep(pc: Pc, fails: bool): Event
    requires pc != Idle
  {
    match pc
    case InsertWaiting(_, _, _) => Lock
    case DeleteWaiting(_, _) => Lock
    case InsertHolding(_, _, _) => Measure(fails)
    case InsertMeasured(_, _, _, _) => Store(fails)
    case InsertUncounted(_, _, _) => Store(fails)
    case DeleteHolding(_, _) => Erase(fails)
    case DeleteUncounted(_, _) => Erase(fails)
    case Reading(_, _) => Read(fails)
    case InsertStored(_, _, _) => Settle
    case DeleteRemoved(_, _, _) => Settle
  }

  /** A thread waits only for a lock that another thread holds; its every step brings its call closer to
      the end, whatever the provider does. */
  lemma CallMovesOn(cfg: Config, s: State, t: nat, fails: bool)
    requires Inv(cfg, s) && t in s.threads && s.threads[t].pc != Idle
    ensures var pc := s.threads[t].pc;
      if pc.InsertWaiting? || pc.DeleteWaiting?
      then Apply(cfg, s, t, OwnStep(pc, fails)).Some? <==> pc.cell !in s.locked
      else Apply(cfg, s, t, OwnStep(pc, fails)).Some?
    ensures var next := Apply(cfg, s, t, OwnStep(s.threads[t].pc, fails));
      next.Some? ==> t in next.value.threads && StepsLeft(next.value.threads[t].pc) < StepsLeft(s.threads[t].pc)
  {
    assert ThreadOk(cfg, s, t);
  }

  /** No deadlock: while some call is running, some thread can take the next step of its call. */
  lemma SomeCallMovesOn(cfg: Config, s: State, t: nat, fails: bool) returns (u: nat)
    requires Inv(cfg, s) && t in s.threads && s.threads[t].pc != Idle
    ensures u in s.threads && s.threads[u].pc != Idle && Apply(cfg, s, u, OwnStep(s.threads[u].pc, fails)).Some?
  {
    assert ThreadOk(cfg, s, t);
    var pc := s.threads[t].pc;
    u := if (pc.InsertWaiting? || pc.DeleteWaiting?) && pc.cell in s.locked then s.locked[pc.cell] else t;
    if u != t {
      assert CellOk(cfg, s, pc.cell);
    }
    CallMovesOn(cfg, s, u, fails);
  }

  lemma RuleNamespacesHaveOneWriter(cfg: Config, rule: string, ns: string)
    requires Loaded(cfg) && MayWrite(cfg, rule, ns)
    ensures EndsWith(ns, WASM) ==> rule == ns
    ensures !EndsWith(ns, WASM) ==> ns in cfg.shared && rule in cfg.shared[ns].rw
  {
  }
}
