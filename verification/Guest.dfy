/** The guest library's two-call protocol: ask for a size, allocate, ask again. Other clients may
    change the store between the two calls. */
module Guest {
  import opened Machine
  import opened Storage
  import opened Memory
  import opened Quota
  import opened Host

  type ProviderReply = Result<Option<Bytes>, FunctionError>

  /** The bytes a served call is about; an absent key reads as no bytes. */
  function Seen(r: ProviderReply): Bytes {
    if r.Ok? then Payload(r.value) else []
  }

  /** Both calls were served, about values of the same length, which an i32 can express. */
  predicate Agree(first: ProviderReply, second: ProviderReply) {
    first.Ok? && second.Ok? && |Seen(first)| < TWO_31 && |Seen(second)| == |Seen(first)|
  }

  /** The first call answered a size, so that there is a second call. */
  predicate Asks(first: ProviderReply) {
    first.Ok? && |Seen(first)| < TWO_31
  }

  /** An insert writes exactly when its second call is made and served. */
  predicate Writes(first: ProviderReply, second: ProviderReply) {
    Asks(first) && second.Ok?
  }

  /** The error a guest function returns when it does not return bytes. */
  function ErrorCode(first: ProviderReply): int {
    if first.Err? then first.error.Code()
    else if |Seen(first)| < TWO_31 then ReturnBufferTooSmall.Code()
    else |Seen(first)| - TWO_32
  }

  /** Comparing the two return codes, as the guest does, decides exactly whether the calls agree, and
      then the buffer holds the second call's bytes and nothing else. */
  lemma CodesTellAgreement(
      first: ProviderReply, second: ProviderReply, size: int, copied: int, before: Bytes, after: Bytes)
    requires size == StorageHost.ReplyCode(first, 0, 0, 0) && 0 <= size == |before|
    requires copied == StorageHost.ReplyCode(second, size, 0, size)
    requires |Seen(first)| < TWO_32 && |Seen(second)| < TWO_32
    requires StorageHost.Copies(second, size, 0, size) ==> after == Overwritten(before, second.value.value, 0)
    requires !StorageHost.Copies(second, size, 0, size) ==> after == before
    ensures copied == size <==> Agree(first, second)
    ensures copied == size ==> after == Seen(second)
  {
    CastOfShortLength(|Seen(first)|);
    CastOfShortLength(|Seen(second)|);
    if second.Ok? && second.value.Some? {
      var data := second.value.value;
      assert Seen(second) == data;
      if StorageHost.Copies(second, size, 0, size) && |data| == size {
        assert Overwritten(before, data, 0) == data;
      }
    }
  }

  /** A size query answers a size exactly when it was served about a length an i32 can express. */
  lemma SizeQuery(first: ProviderReply)
    requires |Seen(first)| < TWO_32
    ensures StorageHost.ReplyCode(first, 0, 0, 0) ==
      if first.Err? then first.error.Code()
      else if |Seen(first)| < TWO_31 then |Seen(first)| else |Seen(first)| - TWO_32
  {
    CastOfShortLength(|Seen(first)|);
  }

  /** The end of every exchange: the buffer counts only when the second code is the first one again. */
  method Conclude(dataBuffer: array<byte>, copiedSize: int,
                  ghost first: ProviderReply, ghost second: ProviderReply, ghost before: Bytes)
    returns (r: Result<Bytes, int>)
    requires dataBuffer.Length == |before| == StorageHost.ReplyCode(first, 0, 0, 0)
    requires copiedSize == StorageHost.ReplyCode(second, |before|, 0, |before|)
    requires |Seen(first)| < TWO_32 && |Seen(second)| < TWO_32
    requires StorageHost.Copies(second, |before|, 0, |before|) ==>
      dataBuffer[..] == Overwritten(before, second.value.value, 0)
    requires !StorageHost.Copies(second, |before|, 0, |before|) ==> dataBuffer[..] == before
    ensures r.Ok? <==> Agree(first, second)
    ensures r.Ok? ==> r.value == Seen(second)
    ensures r.Err? ==> r.error == ReturnBufferTooSmall.Code()
  {
    CodesTellAgreement(first, second, |before|, copiedSize, before, dataBuffer[..]);
    if copiedSize == dataBuffer.Length {
      r := Ok(dataBuffer[..copiedSize]);
    } else {
      r := Err(ReturnBufferTooSmall.Code());
    }
  }

  /** A successful `get` saw exactly the value of its second call, and changed nothing. */
  method Get(host: StorageHost, rule: string, target: Target, key: Key, first: Faults, later: Snapshot, second: Faults)
    returns (r: Result<Bytes, int>)
    requires host.Valid() && Consistent(host.cfg, later)
    modifies host
    ensures host.Valid()
    ensures var (r1, r2) := (host.GetReply(old(host.db), rule, target, key, first),
                             host.GetReply(later.db, rule, target, key, second));
      && (r.Ok? <==> Agree(r1, r2))
      && (r.Ok? ==> r.value == Seen(r2))
      && (r.Err? ==> r.error == ErrorCode(r1))
      && host.Now() == if Asks(r1) then later else old(host.Now())
  {
    ghost var r1 := host.GetReply(host.db, rule, target, key, first);
    ghost var r2 := host.GetReply(later.db, rule, target, key, second);
    var none := new byte[0];
    var bufferSize := host.Get(rule, target, key, none, 0, 0, first);
    SizeQuery(r1);
    if bufferSize < 0 {
      return Err(bufferSize);
    }
    var dataBuffer := new byte[bufferSize];
    ghost var before := dataBuffer[..];
    host.OtherClients(later);
    var copiedSize := host.Get(rule, target, key, dataBuffer, 0, bufferSize, second);
    r := Conclude(dataBuffer, copiedSize, r1, r2, before);
  }

  /** An insert that returns Ok did write, and what it returns is exactly what it overwrote. The
      write depends on the second call alone: an Err has written exactly when the overwritten value does
      not have the length seen by the first call. */
  method Insert(host: StorageHost, rule: string, target: Target, key: Key, value: Bytes,
                first: Faults, later: Snapshot, second: Faults)
    returns (r: Result<Bytes, int>)
    requires host.Valid() && Consistent(host.cfg, later) && |value| < TWO_32
    modifies host
    ensures host.Valid()
    ensures var (r1, r2) := (host.GetReply(old(host.db), rule, target, key, first),
                             host.InsertReply(later.db, rule, target, key, value, second));
      && (r.Ok? <==> Agree(r1, r2))
      && (r.Ok? ==> r.value == Seen(r2))
      && (r.Err? ==> r.error == ErrorCode(r1))
      && (Writes(r1, r2) ==>
            host.db == Put(later.db, if target.Own? then rule else target.name, key, value))
      && (Writes(r1, r2) ==> (r.Err? <==> |Seen(r2)| != |Seen(r1)|))
      && (Asks(r1) && r2.Err? ==> host.Now() == later)
      && (!Asks(r1) ==> host.Now() == old(host.Now()))
  {
    ghost var r1 := host.GetReply(host.db, rule, target, key, first);
    ghost var r2 := host.InsertReply(later.db, rule, target, key, value, second);
    var none := new byte[0];
    var bufferSize := host.Get(rule, target, key, none, 0, 0, first);
    SizeQuery(r1);
    if bufferSize < 0 {
      return Err(bufferSize);
    }
    var dataBuffer := new byte[bufferSize];
    ghost var before := dataBuffer[..];
    host.OtherClients(later);
    var copiedSize := host.Insert(rule, target, key, value, dataBuffer, 0, bufferSize, second);
    r := Conclude(dataBuffer, copiedSize, r1, r2, before);
  }

  /** An insert that returns an error and has written: another client stores some bytes under the key
      between the two calls. */
  method InsertErrorHasWritten(host: StorageHost, rule: string, key: Key, value: Bytes, others: Bytes)
    returns (r: Result<Bytes, int>)
    requires host.Valid() && rule in host.cfg.modules && host.cfg.modules[rule].Unlimited? && |value| < TWO_32
    requires key !in Entries(host.db, rule) && 0 < |others| < TWO_32
    modifies host
    ensures r == Err(ReturnBufferTooSmall.Code())
    ensures key in Entries(host.db, rule) && Entries(host.db, rule)[key] == value
  {
    var later := Snapshot(Put(host.db, rule, key, others), host.counters);
    host.ChangedIsConsistent(later.db, Private(rule));
    r := Insert(host, rule, Own, key, value, Healthy, later, Healthy);
  }

  /** A delete that returns bytes removed exactly those bytes, one that returns no bytes removed
      nothing. Whether anything can be removed is settled by the first call: when it sees no bytes,
      the second call is a size query as well. */
  method Delete(host: StorageHost, rule: string, target: Target, key: Key,
                first: Faults, later: Snapshot, second: Faults)
    returns (r: Result<Bytes, int>)
    requires host.Valid() && Consistent(host.cfg, later)
    modifies host
    ensures host.Valid()
    ensures var r1 := host.DeleteReply(old(host.db), rule, target, key, 0, first);
      var r2 := host.DeleteReply(later.db, rule, target, key, |Seen(r1)|, second);
      && (r.Ok? <==> Agree(r1, r2))
      && (r.Ok? ==> r.value == Seen(r2))
      && (r.Err? ==> r.error == ErrorCode(r1))
      && (Asks(r1) && Seen(r1) != [] && r2.Ok? ==>
            host.db == Remove(later.db, if target.Own? then rule else target.name, key))
      && (Asks(r1) && (Seen(r1) == [] || r2.Err?) ==> host.Now() == later)
      && (!Asks(r1) ==> host.Now() == old(host.Now()))
  {
    ghost var r1 := host.DeleteReply(host.db, rule, target, key, 0, first);
    ghost var r2 := host.DeleteReply(later.db, rule, target, key, |Seen(r1)|, second);
    var none := new byte[0];
    var bufferSize := host.Delete(rule, target, key, none, 0, 0, first);
    SizeQuery(r1);
    if bufferSize < 0 {
      return Err(bufferSize);
    }
    var dataBuffer := new byte[bufferSize];
    ghost var before := dataBuffer[..];
    host.OtherClients(later);
    var copiedSize := host.Delete(rule, target, key, dataBuffer, 0, bufferSize, second);
    r := Conclude(dataBuffer, copiedSize, r1, r2, before);
  }

  /** Alone on a healthy store, a delete leaves the key behind exactly when its value is empty. */
  method DeleteAlone(host: StorageHost, rule: string, key: Key) returns (r: Result<Bytes, int>)
    requires host.Valid() && rule in host.cfg.modules
    requires key in Entries(host.db, rule) && |Entries(host.db, rule)[key]| < TWO_31
    modifies host
    ensures key in Entries(host.db, rule) <==> Entries(old(host.db), rule)[key] == []
    ensures r == Ok(Entries(old(host.db), rule)[key])
  {
    r := Delete(host, rule, Own, key, Healthy, Snapshot(host.db, host.counters), Healthy);
  }

  /** A round trip: a value inserted alone within the limit is what a get returns. */
  method InsertThenGet(host: StorageHost, rule: string, key: Key, value: Bytes) returns (r: Result<Bytes, int>)
    requires host.Valid() && rule in host.cfg.modules && |value| < TWO_31
    requires key in Entries(host.db, rule) ==> |Entries(host.db, rule)[key]| < TWO_31
    requires host.Admits(host.db, Private(rule), key, value)
    modifies host
    ensures r == Ok(value)
  {
    var before := Insert(host, rule, Own, key, value, Healthy, Snapshot(host.db, host.counters), Healthy);
    r := Get(host, rule, Own, key, Healthy, Snapshot(host.db, host.counters), Healthy);
  }
}
