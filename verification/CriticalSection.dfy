/** A limited insert or delete holds its counter's lock over several steps. Whatever other threads do in
    between, its outcome is that of one block, which is how Host models it. */
module CriticalSection {
  import opened Machine
  import opened Storage
  import opened Quota

  /** Nothing that belongs to `t`'s critical section differs. */
  ghost predicate SameSection(s: State, s': State, t: nat, c: Cell) {
    && t in s.threads && t in s'.threads && s'.threads[t] == s.threads[t]
    && c in s.counters && c in s'.counters && s'.counters[c] == s.counters[c]
    && Entries(s'.db, NamespaceOf(c)) == Entries(s.db, NamespaceOf(c))
  }

  lemma LockStepElsewhere(cfg: Config, s: State, t: nat, u: nat, e: Event)
    requires Inv(cfg, s) && t in s.threads && s.threads[t].pc.HoldsLock() && u != t
    requires Apply(cfg, s, u, e).Some? && !e.Store? && !e.Erase?
    ensures SameSection(s, Apply(cfg, s, u, e).value, t, s.threads[t].pc.cell)
  {
    assert ThreadOk(cfg, s, t) && ThreadOk(cfg, s, u);
    QuietStep(cfg, s, u, e);
  }

  /** While a thread is in its critical section no other thread changes what it works on. */
  lemma StepElsewhere(cfg: Config, s: State, t: nat, u: nat, e: Event)
    requires Inv(cfg, s) && t in s.threads && s.threads[t].pc.HoldsLock() && u != t && Apply(cfg, s, u, e).Some?
    ensures SameSection(s, Apply(cfg, s, u, e).value, t, s.threads[t].pc.cell)
  {
    assert ThreadOk(cfg, s, t) && ThreadOk(cfg, s, u);
    match e
    case Store(fails) =>
      StoreTouches(cfg, s, u, fails);
      OneCellPerNamespace(cfg, s.threads[t].pc.cell, s.threads[u].pc.cell);
    case Erase(fails) =>
      EraseTouches(s, u, fails);
      OneCellPerNamespace(cfg, s.threads[t].pc.cell, s.threads[u].pc.cell);
    case _ => LockStepElsewhere(cfg, s, t, u, e);
  }

  /** Others move, `t` does not. */
  ghost predicate Elsewhere(cfg: Config, s: State, t: nat, schedule: Schedule, s': State) {
    Run(cfg, s, schedule) == Some(s') && forall i :: 0 <= i < |schedule| ==> schedule[i].0 != t
  }

  lemma {:induction false} RunElsewhere(cfg: Config, s: State, t: nat, schedule: Schedule, s': State)
    requires Inv(cfg, s) && t in s.threads && s.threads[t].pc.HoldsLock() && Elsewhere(cfg, s, t, schedule, s')
    ensures Inv(cfg, s') && SameSection(s, s', t, s.threads[t].pc.cell)
    decreases |schedule|
  {
    if schedule == [] {
      assert ThreadOk(cfg, s, t);
    } else {
      var (u, e) := schedule[0];
      StepElsewhere(cfg, s, t, u, e);
      StepKeepsInv(cfg, s, u, e);
      RunElsewhere(cfg, Apply(cfg, s, u, e).value, t, schedule[1..], s');
    }
  }

  // ---------- Insert ----------

  /** An insert measures what it would overwrite, with other threads' steps in between. */
  lemma MeasuredInsert(cfg: Config, s: State, t: nat, c: Cell, key: Key, value: Bytes, waiting: Schedule, s': State)
    returns (measured: State)
    requires Inv(cfg, s) && t in s.threads && s.threads[t].pc == InsertHolding(c, key, value)
    requires Elsewhere(cfg, s, t, waiting, s')
    ensures Apply(cfg, s', t, Measure(false)) == Some(measured) && Inv(cfg, measured)
    ensures t in measured.threads
      && measured.threads[t].pc == InsertMeasured(c, key, value, Occupied(Entries(s.db, NamespaceOf(c)), key))
    ensures c in measured.counters && measured.counters[c] == AsU64(Size(Entries(s.db, NamespaceOf(c))))
    ensures Entries(measured.db, NamespaceOf(c)) == Entries(s.db, NamespaceOf(c))
  {
    assert ThreadOk(cfg, s, t) && CellOk(cfg, s, c);
    RunElsewhere(cfg, s, t, waiting, s');
    measured := MeasureExisting(s', t, false).value;
    StepKeepsInv(cfg, s', t, Measure(false));
  }

  /** The write of a measured insert: rejected, changing nothing, exactly when the full scan would exceed
      the limit. */
  lemma StoredInsert(cfg: Config, s: State, t: nat, c: Cell, key: Key, value: Bytes, waiting: Schedule, s': State)
    returns (stored: State)
    requires Inv(cfg, s) && t in s.threads && Elsewhere(cfg, s, t, waiting, s')
    requires s.threads[t].pc == InsertMeasured(c, key, value, Occupied(Entries(s.db, NamespaceOf(c)), key))
    ensures Apply(cfg, s', t, Store(false)) == Some(stored) && Inv(cfg, stored)
    ensures t in stored.threads && IsLimited(cfg, c)
    ensures var old_ := Entries(s.db, NamespaceOf(c));
      var size := AsU64(Size(old_[key := value]));
      if size > LimitOf(cfg, c).bytes
      then stored.threads[t].pc == Idle && stored.threads[t].reply == Failed(StorageLimitReached)
           && Entries(stored.db, NamespaceOf(c)) == old_ && c !in stored.locked
      else stored.threads[t].pc == InsertStored(c, size, Lookup(old_, key))
           && Entries(stored.db, NamespaceOf(c)) == old_[key := value]
  {
    assert ThreadOk(cfg, s, t) && CellOk(cfg, s, c);
    RunElsewhere(cfg, s, t, waiting, s');
    WouldBeUsedIsNewSize(Entries(s.db, NamespaceOf(c)), key, value, s.counters[c]);
    stored := StoreValue(cfg, s', t, false).value;
    StepKeepsInv(cfg, s', t, Store(false));
  }

  /** How a call that released its lock left things. */
  ghost predicate Ended(s: State, t: nat, c: Cell, reply: Reply, entries: Namespace) {
    && t in s.threads && s.threads[t].pc == Idle && s.threads[t].reply == reply && c !in s.locked
    && Entries(s.db, NamespaceOf(c)) == entries
    && c in s.counters && s.counters[c] == AsU64(Size(entries))
  }

  lemma RejectedEnds(cfg: Config, s: State, t: nat, c: Cell, reply: Reply)
    requires Inv(cfg, s) && t in s.threads && s.threads[t].pc == Idle && s.threads[t].reply == reply
    requires IsLimited(cfg, c) && c !in s.locked
    ensures Ended(s, t, c, reply, Entries(s.db, NamespaceOf(c)))
  {
    assert CellOk(cfg, s, c);
  }

  lemma SettledEnds(cfg: Config, s: State, t: nat, c: Cell, reply: Reply, waiting: Schedule, s': State)
    returns (end: State)
    requires Inv(cfg, s) && t in s.threads && Elsewhere(cfg, s, t, waiting, s')
    requires s.threads[t].pc.InsertStored? || s.threads[t].pc.DeleteRemoved?
    requires s.threads[t].pc.cell == c && reply == Previous(Fetched(s.threads[t].pc))
    ensures Apply(cfg, s', t, Settle) == Some(end) && Ended(end, t, c, reply, Entries(s.db, NamespaceOf(c)))
  {
    assert ThreadOk(cfg, s, t);
    RunElsewhere(cfg, s, t, waiting, s');
    end := SettleCounter(s', t).value;
    StepKeepsInv(cfg, s', t, Settle);
    RejectedEnds(cfg, end, t, c, reply);
  }

  /** From the moment a limited insert holds the lock until it lets go of it, with any steps of other
      threads in between: it overwrites exactly what was there at the start and its counter is the full
      scan, or it is rejected exactly when that scan would exceed the limit. */
  lemma LimitedInsertIsOneBlock(cfg: Config, s: State, t: nat, c: Cell, key: Key, value: Bytes,
      w1: Schedule, s1: State, m: State, w2: Schedule, s2: State, w: State, w3: Schedule, s3: State)
    returns (end: State)
    requires Inv(cfg, s) && t in s.threads && s.threads[t].pc == InsertHolding(c, key, value)
    requires Elsewhere(cfg, s, t, w1, s1) && Apply(cfg, s1, t, Measure(false)) == Some(m)
    requires Elsewhere(cfg, m, t, w2, s2) && Apply(cfg, s2, t, Store(false)) == Some(w)
    requires Elsewhere(cfg, w, t, w3, s3)
    ensures IsLimited(cfg, c)
    ensures var old_ := Entries(s.db, NamespaceOf(c));
      if AsU64(Size(old_[key := value])) > LimitOf(cfg, c).bytes
      then end == w && Ended(end, t, c, Failed(StorageLimitReached), old_)
      else Apply(cfg, s3, t, Settle) == Some(end) && Ended(end, t, c, Previous(Lookup(old_, key)), old_[key := value])
  {
    var measured := MeasuredInsert(cfg, s, t, c, key, value, w1, s1);
    var stored := StoredInsert(cfg, measured, t, c, key, value, w2, s2);
    if stored.threads[t].pc.InsertStored? {
      end := SettledEnds(cfg, stored, t, c, Previous(Lookup(Entries(s.db, NamespaceOf(c)), key)), w3, s3);
    } else {
      end := stored;
      RejectedEnds(cfg, end, t, c, Failed(StorageLimitReached));
    }
  }

  // ---------- Delete ----------

  /** Likewise for a limited delete: it removes and returns exactly what was there when it got the lock,
      and its counter is the full scan of what is left; an absent key changes nothing. */
  lemma LimitedDeleteIsOneBlock(cfg: Config, s: State, t: nat, c: Cell, key: Key,
      w1: Schedule, s1: State, w: State, w2: Schedule, s2: State) returns (end: State)
    requires Inv(cfg, s) && t in s.threads && s.threads[t].pc == DeleteHolding(c, key)
    requires Elsewhere(cfg, s, t, w1, s1) && Apply(cfg, s1, t, Erase(false)) == Some(w) && Elsewhere(cfg, w, t, w2, s2)
    ensures var old_ := Entries(s.db, NamespaceOf(c));
      if key !in old_ then end == w && Ended(end, t, c, Previous(None), old_)
      else Apply(cfg, s2, t, Settle) == Some(end) && Ended(end, t, c, Previous(Some(old_[key])), old_ - {key})
  {
    assert ThreadOk(cfg, s, t);
    RunElsewhere(cfg, s, t, w1, s1);
    StepKeepsInv(cfg, s1, t, Erase(false));
    var old_ := Entries(s.db, NamespaceOf(c));
    if key in old_ {
      assert Entries(w.db, NamespaceOf(c)) == old_ - {key};
      end := SettledEnds(cfg, w, t, c, Previous(Some(old_[key])), w2, s2);
    } else {
      end := w;
      RejectedEnds(cfg, end, t, c, Previous(None));
    }
  }

  // ---------- Failing provider calls ----------

  /** A provider call that fails inside a critical section ends the call with an error and leaves the
      namespace and the counter as they were when it got the lock. */
  lemma FailedCallIsOneBlock(cfg: Config, s: State, t: nat, c: Cell, e: Event, waiting: Schedule, s': State)
    returns (end: State)
    requires Inv(cfg, s) && t in s.threads && Elsewhere(cfg, s, t, waiting, s')
    requires match e
      case Measure(fails) => fails && s.threads[t].pc.InsertHolding?
      case Erase(fails) => fails && s.threads[t].pc.DeleteHolding?
      case _ => false
    requires s.threads[t].pc.cell == c
    ensures Apply(cfg, s', t, e) == Some(end)
    ensures Ended(end, t, c, Failed(InternalApiError), Entries(s.db, NamespaceOf(c)))
  {
    assert ThreadOk(cfg, s, t);
    RunElsewhere(cfg, s, t, waiting, s');
    end := Apply(cfg, s', t, e).value;
    StepKeepsInv(cfg, s', t, e);
    RejectedEnds(cfg, end, t, c, Failed(InternalApiError));
  }

  /** A failing write of a measured insert does the same, unless the insert is rejected by the limit. */
  lemma FailedStoreIsOneBlock(cfg: Config, s: State, t: nat, c: Cell, key: Key, value: Bytes,
      w1: Schedule, s1: State, m: State, w2: Schedule, s2: State) returns (end: State)
    requires Inv(cfg, s) && t in s.threads && s.threads[t].pc == InsertHolding(c, key, value)
    requires Elsewhere(cfg, s, t, w1, s1) && Apply(cfg, s1, t, Measure(false)) == Some(m)
    requires Elsewhere(cfg, m, t, w2, s2)
    ensures IsLimited(cfg, c)
    ensures Apply(cfg, s2, t, Store(true)) == Some(end)
    ensures var old_ := Entries(s.db, NamespaceOf(c));
      var rejected := AsU64(Size(old_[key := value])) > LimitOf(cfg, c).bytes;
      Ended(end, t, c, Failed(if rejected then StorageLimitReached else InternalApiError), old_)
  {
    var measured := MeasuredInsert(cfg, s, t, c, key, value, w1, s1);
    assert ThreadOk(cfg, measured, t);
    RunElsewhere(cfg, measured, t, w2, s2);
    WouldBeUsedIsNewSize(Entries(s.db, NamespaceOf(c)), key, value, measured.counters[c]);
    end := StoreValue(cfg, s2, t, true).value;
    StepKeepsInv(cfg, s2, t, Store(true));
    RejectedEnds(cfg, end, t, c, end.threads[t].reply);
  }
}
