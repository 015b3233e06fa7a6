/** The host's storage functions as a rule calls them, one call at a time. The steps of a call that
    hold the counter's lock run as one block; CriticalSection shows that its outcome is that of the steps. */
module Host {
  import opened Machine
  import opened Storage
  import opened Memory
  import opened Quota

  /** What can go wrong with a call besides its permission: storage that is not configured, guest memory
      that is not there, a namespace or other arguments that cannot be read from it, and a provider that
      fails the read or the write. A failing call changes nothing. */
  datatype Faults = Faults(
    unconfigured: bool, uninitialized: bool, badNamespace: bool, badArguments: bool, read: bool, write: bool)

  const Healthy := Faults(false, false, false, false, false, false)

  /** Nothing goes wrong before the permission and the provider are asked. */
  predicate Readable(faults: Faults) {
    !faults.unconfigured && !faults.uninitialized && !faults.badNamespace && !faults.badArguments
  }

  /** Why a call never gets to the provider, if so. A shared delete reads its key before it checks the
      permission, the other shared calls after. */
  function Refusal(cfg: Config, target: Target, cell: Option<Cell>, argumentsFirst: bool, faults: Faults)
    : (r: Option<FunctionError>)
    ensures r.None? <==>
      && cell.Some? && !faults.unconfigured && !faults.uninitialized && !faults.badArguments
      && (target.SharedNamespace? ==> !faults.badNamespace && cfg.sharedConfigured)
    ensures r == Some(OperationNotAllowed) ==> cell.None? || !cfg.sharedConfigured
    ensures r == Some(ApiNotConfigured) <==> faults.unconfigured
    ensures r == Some(ParametersNotUtf8) ==> faults.badArguments || (target.SharedNamespace? && faults.badNamespace)
    ensures r == Some(CouldNotGetAdequateMemory) <==>
      faults.uninitialized && !faults.unconfigured && (target.SharedNamespace? ==> cfg.sharedConfigured)
    ensures cell.None? && faults == Healthy.(badArguments := true) && cfg.sharedConfigured ==>
      r == Some(if argumentsFirst then ParametersNotUtf8 else OperationNotAllowed)
    ensures r.Some? ==> r.value in {ApiNotConfigured, OperationNotAllowed, CouldNotGetAdequateMemory, ParametersNotUtf8}
  {
    if faults.unconfigured then Some(ApiNotConfigured)
    else if target.SharedNamespace? && !cfg.sharedConfigured then Some(OperationNotAllowed)
    else if faults.uninitialized then Some(CouldNotGetAdequateMemory)
    else if target.SharedNamespace? && faults.badNamespace then Some(ParametersNotUtf8)
    else if argumentsFirst && faults.badArguments then Some(ParametersNotUtf8)
    else if cell.None? then Some(OperationNotAllowed)
    else if faults.badArguments then Some(ParametersNotUtf8)
    else None
  }

  datatype Snapshot = Snapshot(db: Database, counters: map<Cell, nat>)

  /** Counters of limited cells equal the full scan, and every value came through a 32-bit length. */
  ghost predicate Consistent(cfg: Config, s: Snapshot) {
    && Loaded(cfg)
    && (forall c :: HasCell(cfg, c) ==> c in s.counters)
    && (forall c :: IsLimited(cfg, c) ==> s.counters[c] == AsU64(Size(Entries(s.db, NamespaceOf(c)))))
    && (forall ns, k :: ns in s.db && k in s.db[ns] ==> |s.db[ns][k]| < TWO_32)
  }

  class StorageHost {
    const cfg: Config
    var db: Database
    var counters: map<Cell, nat>

    ghost function Now(): Snapshot
      reads this
    {
      Snapshot(db, counters)
    }

    ghost predicate Valid()
      reads this
    {
      Consistent(cfg, Now())
    }

    /** Whether an insert gets past the limit: decided by the full scan, not by the counter. */
    ghost predicate Admits(db: Database, c: Cell, key: Key, value: Bytes)
      requires HasCell(cfg, c)
    {
      LimitOf(cfg, c).Limited? ==>
        AsU64(Size(Entries(db, NamespaceOf(c))[key := value])) <= LimitOf(cfg, c).bytes
    }

    /** Whether an insert reaches the provider and succeeds there. */
    ghost predicate Commits(db: Database, c: Cell, key: Key, value: Bytes, faults: Faults)
      requires HasCell(cfg, c)
    {
      && !(IsLimited(cfg, c) && faults.read)
      && Admits(db, c, key, value)
      && !faults.write
    }

    /** The counters after `c`'s namespace changed: only `c` moves, and only when it is limited. */
    ghost function Recounted(db: Database, c: Cell): map<Cell, nat>
      reads this
    {
      if IsLimited(cfg, c) then counters[c := AsU64(Size(Entries(db, NamespaceOf(c))))] else counters
    }

    lemma ChangedIsConsistent(db': Database, c: Cell)
      requires Valid() && HasCell(cfg, c)
      requires forall ns :: ns != NamespaceOf(c) ==> Entries(db', ns) == Entries(db, ns)
      requires forall ns, k :: ns in db' && k in db'[ns] ==> |db'[ns][k]| < TWO_32
      ensures Consistent(cfg, Snapshot(db', Recounted(db', c)))
    {
      forall d | IsLimited(cfg, d) ensures d != c ==> NamespaceOf(d) != NamespaceOf(c) {
        OneCellPerNamespace(cfg, c, d);
      }
    }

    /** The provider's part of an insert: check and update the counter around the write. */
    method TryInsert(c: Cell, key: Key, value: Bytes, faults: Faults) returns (r: Result<Option<Bytes>, FunctionError>)
      requires Valid() && HasCell(cfg, c) && |value| < TWO_32
      modifies this
      ensures Valid()
      ensures Commits(old(db), c, key, value, faults) ==>
        && r == Ok(Lookup(Entries(old(db), NamespaceOf(c)), key))
        && db == Put(old(db), NamespaceOf(c), key, value)
        && counters == old(Recounted(Put(db, NamespaceOf(c), key, value), c))
      ensures !Commits(old(db), c, key, value, faults) ==>
        && Now() == old(Now())
        && r == Err(if !(IsLimited(cfg, c) && faults.read) && !Admits(old(db), c, key, value)
                    then StorageLimitReached else InternalApiError)
      ensures r == Err(StorageLimitReached) <==>
        && LimitOf(cfg, c).Limited? && !faults.read
        && AsU64(Size(Entries(old(db), NamespaceOf(c))[key := value])) > LimitOf(cfg, c).bytes
    {
      var ns := NamespaceOf(c);
      var existing := Lookup(Entries(db, ns), key);
      ChangedIsConsistent(Put(db, ns, key, value), c);
      match LimitOf(cfg, c) {
        case Unlimited =>
          if faults.write {
            return Err(InternalApiError);
          }
          db := Put(db, ns, key, value);
        case Limited(limit) =>
          if faults.read {
            return Err(InternalApiError);
          }
          var existingSize := if existing.Some? then |existing.value| + |key| else 0;
          var would := WouldBeUsed(counters[c], key, value, existingSize);
          WouldBeUsedIsNewSize(Entries(db, ns), key, value, counters[c]);
          if would > limit {
            return Err(StorageLimitReached);
          }
          if faults.write {
            return Err(InternalApiError);
          }
          db, counters := Put(db, ns, key, value), counters[c := would];
      }
      return Ok(existing);
    }

    /** Subtracting a removed entry from an exact counter gives the new size. */
    static lemma RemovedIsNewSize(m: Namespace, key: Key, counter: nat)
      requires key in m && counter == AsU64(Size(m))
      ensures AsU64(counter - |key| - |m[key]|) == AsU64(Size(m - {key}))
    {
      SizeOfRemove(m, key);
      WrapOnce(Size(m), -|key| - |m[key]|);
    }

    /** The provider's part of a delete. */
    method TryDelete(c: Cell, key: Key, faults: Faults) returns (r: Result<Option<Bytes>, FunctionError>)
      requires Valid() && HasCell(cfg, c)
      modifies this
      ensures Valid()
      ensures faults.write ==> r == Err(InternalApiError) && Now() == old(Now())
      ensures !faults.write ==>
        && r == Ok(Lookup(Entries(old(db), NamespaceOf(c)), key))
        && db == Remove(old(db), NamespaceOf(c), key)
        && counters == old(Recounted(Remove(db, NamespaceOf(c), key), c))
    {
      var ns := NamespaceOf(c);
      var data := Lookup(Entries(db, ns), key);
      ChangedIsConsistent(Remove(db, ns, key), c);
      if faults.write {
        return Err(InternalApiError);
      }
      assert Entries(Remove(db, ns, key), ns) == Entries(db, ns) - {key};
      match LimitOf(cfg, c) {
        case Unlimited =>
          db := Remove(db, ns, key);
        case Limited(_) =>
          if data.Some? {
            RemovedIsNewSize(Entries(db, ns), key, counters[c]);
            db, counters := Remove(db, ns, key), counters[c := AsU64(counters[c] - |key| - |data.value|)];
          } else {
            assert Entries(db, ns) - {key} == Entries(db, ns);
            db := Remove(db, ns, key);
          }
      }
      return Ok(data);
    }

    /** The code a guest sees for a provider result, given the buffer it offered. */
    static function ReplyCode(r: Result<Option<Bytes>, FunctionError>, memoryLen: nat, ptr: nat, bufferLen: nat): int {
      match r
      case Err(e) => e.Code()
      case Ok(None) => 0
      case Ok(Some(data)) => ResultCode(WriteBackResult(memoryLen, data, ptr, bufferLen))
    }

    /** Whether replying copies data into the guest's buffer. */
    static predicate Copies(r: Result<Option<Bytes>, FunctionError>, memoryLen: nat, ptr: nat, bufferLen: nat) {
      r.Ok? && r.value.Some? && bufferLen > 0 && WriteBackResult(memoryLen, r.value.value, ptr, bufferLen).Ok?
    }

    static method Reply(r: Result<Option<Bytes>, FunctionError>, memory: array<byte>, ptr: nat, bufferLen: nat)
      returns (code: int)
      requires bufferLen < TWO_32
      modifies memory
      ensures code == ReplyCode(r, memory.Length, ptr, bufferLen)
      ensures r.Err? ==> code == r.error.Code()
      ensures r == Ok(None) ==> code == 0
      ensures r.Ok? && r.value.Some? && |r.value.value| < TWO_31 ==>
        code == (if bufferLen == 0 then |r.value.value|
                 else if |r.value.value| > bufferLen then ReturnBufferTooSmall.Code()
                 else if ptr + |r.value.value| > memory.Length then CouldNotGetAdequateMemory.Code()
                 else |r.value.value|)
      ensures Copies(r, memory.Length, ptr, bufferLen) <==>
        && r.Ok? && r.value.Some? && 0 < bufferLen
        && |r.value.value| <= bufferLen && ptr + |r.value.value| <= memory.Length
      ensures Copies(r, memory.Length, ptr, bufferLen) ==>
        memory[..] == Overwritten(old(memory[..]), r.value.value, ptr)
      ensures !Copies(r, memory.Length, ptr, bufferLen) ==> memory[..] == old(memory[..])
    {
      match r {
        case Err(e) => code := e.Code();
        case Ok(None) => code := 0;
        case Ok(Some(data)) =>
          var written := SafelyWriteDataBack(memory, data, ptr, bufferLen);
          code := ResultCode(written);
      }
    }

    // ---------- Entry points: permission, provider, reply ----------

    ghost function InsertReply(db: Database, rule: string, target: Target, key: Key, value: Bytes, faults: Faults)
      : Result<Option<Bytes>, FunctionError>
    {
      match Refusal(cfg, target, WritableCell(cfg, rule, target), false, faults)
      case Some(e) => Err(e)
      case None =>
        var c := WritableCell(cfg, rule, target).value;
        if Commits(db, c, key, value, faults) then Ok(Lookup(Entries(db, NamespaceOf(c)), key))
        else if !(IsLimited(cfg, c) && faults.read) && !Admits(db, c, key, value) then Err(StorageLimitReached)
        else Err(InternalApiError)
    }

    /** An insert is served only to a rule that may write the namespace the call names, and answers with what
        that namespace held under the key. A readable call is served if and only if, in addition, the new full
        scan is within that namespace's own limit and the provider does not fail. */
    lemma InsertIsDecided(db: Database, rule: string, target: Target, key: Key, value: Bytes, faults: Faults)
      requires Loaded(cfg)
      ensures var ns := if target.Own? then rule else target.name;
        var allowed := if target.Own? then ns in cfg.modules else ns in cfg.shared && rule in cfg.shared[ns].rw;
        var r := InsertReply(db, rule, target, key, value, faults);
        && (r.Ok? ==> allowed && r.value == Lookup(Entries(db, ns), key))
        && (Readable(faults) && !allowed ==> r == Err(OperationNotAllowed))
        && (Readable(faults) && allowed ==>
              var limit := if target.Own? then cfg.modules[ns] else cfg.shared[ns].sizeLimit;
              if limit.Limited? && faults.read then r == Err(InternalApiError)
              else if limit.Limited? && AsU64(Size(Entries(db, ns)[key := value])) > limit.bytes
              then r == Err(StorageLimitReached)
              else if faults.write then r == Err(InternalApiError)
              else r.Ok?)
    {
      WritableIsTheNamedOne(cfg, rule, if target.Own? then rule else target.name);
    }

    /** Writes to the namespace the call names, or to none. */
    method Insert(rule: string, target: Target, key: Key, value: Bytes,
                  memory: array<byte>, ptr: nat, bufferLen: nat, faults: Faults) returns (code: int)
      requires Valid() && |value| < TWO_32 && bufferLen < TWO_32
      modifies this, memory
      ensures Valid()
      ensures var r := InsertReply(old(db), rule, target, key, value, faults);
        && code == ReplyCode(r, memory.Length, ptr, bufferLen)
        && (r.Ok? ==> db == Put(old(db), if target.Own? then rule else target.name, key, value))
        && (r.Err? ==> Now() == old(Now()))
        && (Copies(r, memory.Length, ptr, bufferLen) ==> memory[..] == Overwritten(old(memory[..]), r.value.value, ptr))
        && (!Copies(r, memory.Length, ptr, bufferLen) ==> memory[..] == old(memory[..]))
    {
      match Refusal(cfg, target, WritableCell(cfg, rule, target), false, faults) {
        case Some(e) => code := e.Code();
        case None =>
          var c := WritableCell(cfg, rule, target).value;
          var r := TryInsert(c, key, value, faults);
          code := Reply(r, memory, ptr, bufferLen);
      }
    }

    ghost function GetReply(db: Database, rule: string, target: Target, key: Key, faults: Faults)
      : Result<Option<Bytes>, FunctionError>
    {
      match Refusal(cfg, target, ReadableCell(cfg, rule, target), false, faults)
      case Some(e) => Err(e)
      case None =>
        if faults.read then Err(InternalApiError)
        else Ok(Lookup(Entries(db, NamespaceOf(ReadableCell(cfg, rule, target).value)), key))
    }

    /** A get is served only to a rule that may read the namespace the call names, and then answers from it.
        A readable call is served to each such rule, unless the provider fails. */
    lemma GetIsDecided(db: Database, rule: string, target: Target, key: Key, faults: Faults)
      requires Loaded(cfg)
      ensures var ns := if target.Own? then rule else target.name;
        var allowed :=
          if target.Own? then ns in cfg.modules
          else ns in cfg.shared && (rule in cfg.shared[ns].r || rule in cfg.shared[ns].rw);
        var r := GetReply(db, rule, target, key, faults);
        && (r.Ok? ==> allowed && r.value == Lookup(Entries(db, ns), key))
        && (Readable(faults) ==>
              if !allowed then r == Err(OperationNotAllowed)
              else if faults.read then r == Err(InternalApiError)
              else r.Ok?)
    {
      ReadableIsTheNamedOne(cfg, rule, if target.Own? then rule else target.name);
    }

    method Get(rule: string, target: Target, key: Key, memory: array<byte>, ptr: nat, bufferLen: nat, faults: Faults)
      returns (code: int)
      requires Valid() && bufferLen < TWO_32
      modifies memory
      ensures Valid()
      ensures var r := GetReply(db, rule, target, key, faults);
        && code == ReplyCode(r, memory.Length, ptr, bufferLen)
        && (r.Ok? ==> r.value == Lookup(Entries(db, if target.Own? then rule else target.name), key))
        && (Copies(r, memory.Length, ptr, bufferLen) ==> memory[..] == Overwritten(old(memory[..]), r.value.value, ptr))
        && (!Copies(r, memory.Length, ptr, bufferLen) ==> memory[..] == old(memory[..]))
    {
      GetIsDecided(db, rule, target, key, faults);
      match Refusal(cfg, target, ReadableCell(cfg, rule, target), false, faults) {
        case Some(e) => code := e.Code();
        case None =>
          var c := ReadableCell(cfg, rule, target).value;
          var r := if faults.read then Err(InternalApiError) else Ok(Lookup(Entries(db, NamespaceOf(c)), key));
          code := Reply(r, memory, ptr, bufferLen);
      }
    }

    /** A zero-length buffer makes a delete a mere size query. */
    ghost function DeleteReply(db: Database, rule: string, target: Target, key: Key, bufferLen: nat, faults: Faults)
      : Result<Option<Bytes>, FunctionError>
    {
      match Refusal(cfg, target, WritableCell(cfg, rule, target), true, faults)
      case Some(e) => Err(e)
      case None =>
        var c := WritableCell(cfg, rule, target).value;
        if (if bufferLen == 0 then faults.read else faults.write) then Err(InternalApiError)
        else Ok(Lookup(Entries(db, NamespaceOf(c)), key))
    }

    /** A delete, or the size query it is with a zero-length buffer, is served only to a rule that may write
        the namespace the call names, and then answers from it. A readable call is served to each
        such rule, unless the provider fails. */
    lemma DeleteIsDecided(db: Database, rule: string, target: Target, key: Key, bufferLen: nat, faults: Faults)
      requires Loaded(cfg)
      ensures var ns := if target.Own? then rule else target.name;
        var allowed := if target.Own? then ns in cfg.modules else ns in cfg.shared && rule in cfg.shared[ns].rw;
        var r := DeleteReply(db, rule, target, key, bufferLen, faults);
        && (r.Ok? ==> allowed && r.value == Lookup(Entries(db, ns), key))
        && (Readable(faults) ==>
              if !allowed then r == Err(OperationNotAllowed)
              else if bufferLen == 0 && faults.read then r == Err(InternalApiError)
              else if bufferLen > 0 && faults.write then r == Err(InternalApiError)
              else r.Ok?)
    {
      WritableIsTheNamedOne(cfg, rule, if target.Own? then rule else target.name);
    }

    /** Removes from the namespace the call names, or from none. */
    method Delete(rule: string, target: Target, key: Key, memory: array<byte>, ptr: nat, bufferLen: nat, faults: Faults)
      returns (code: int)
      requires Valid() && bufferLen < TWO_32
      modifies this, memory
      ensures Valid()
      ensures var r := DeleteReply(old(db), rule, target, key, bufferLen, faults);
        && code == ReplyCode(r, memory.Length, ptr, bufferLen)
        && (r.Ok? && bufferLen > 0 ==> db == Remove(old(db), if target.Own? then rule else target.name, key))
        && (r.Err? || bufferLen == 0 ==> Now() == old(Now()))
        && (Copies(r, memory.Length, ptr, bufferLen) ==> memory[..] == Overwritten(old(memory[..]), r.value.value, ptr))
        && (!Copies(r, memory.Length, ptr, bufferLen) ==> memory[..] == old(memory[..]))
    {
      match Refusal(cfg, target, WritableCell(cfg, rule, target), true, faults) {
        case Some(e) => code := e.Code();
        case None =>
          var c := WritableCell(cfg, rule, target).value;
          var r;
          if bufferLen == 0 {
            r := if faults.read then Err(InternalApiError) else Ok(Lookup(Entries(db, NamespaceOf(c)), key));
          } else {
            r := TryDelete(c, key, faults);
          }
          code := Reply(r, memory, ptr, bufferLen);
      }
    }

    /** Between two calls of one guest, other clients may take the store to any consistent state. */
    method OtherClients(later: Snapshot)
      requires Consistent(cfg, later)
      modifies this
      ensures Now() == later && Valid()
    {
      db, counters := later.db, later.counters;
    }
  }
}
