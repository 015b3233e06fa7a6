/** Bounds-checked transfers between the host and a guest's linear memory. */
module Memory {
  import opened Machine

  const WASM_PAGE_SIZE: nat := 65536

  /** Saturating multiplication of a u32 page limit by the page size. */
  function CalculateMaxBufferSize(pageLimit: nat): nat {
    if pageLimit * WASM_PAGE_SIZE < TWO_32 then pageLimit * WASM_PAGE_SIZE else TWO_32 - 1
  }

  /** What a write-back answers: a size for a zero-length buffer, otherwise bytes copied or an error. */
  function WriteBackResult(memoryLen: nat, data: Bytes, ptr: nat, size: nat): Result<int, FunctionError> {
    if size == 0 then Ok(AsI32(|data|))
    else if |data| > size then Err(ReturnBufferTooSmall)
    else if ptr + AsU32(|data|) > memoryLen then Err(CouldNotGetAdequateMemory)
    else Ok(AsI32(|data|))
  }

  function ResultCode(r: Result<int, FunctionError>): int {
    match r
    case Ok(n) => n
    case Err(e) => e.Code()
  }

  /** The memory after writing `data` at `ptr`. */
  function Overwritten(memory: Bytes, data: Bytes, ptr: nat): (r: Bytes)
    requires ptr + |data| <= |memory|
    ensures |r| == |memory| && r[ptr..ptr + |data|] == data
    ensures r[..ptr] == memory[..ptr] && r[ptr + |data|..] == memory[ptr + |data|..]
  {
    memory[..ptr] + data + memory[ptr + |data|..]
  }

  /** All of the data is copied into a buffer that is large enough and lies inside memory, be it larger than
      needed or not; a buffer of size zero asks for the length alone. */
  method SafelyWriteDataBack(memory: array<byte>, data: Bytes, ptr: nat, size: nat)
    returns (r: Result<int, FunctionError>)
    requires size < TWO_32
    modifies memory
    ensures r == WriteBackResult(memory.Length, data, ptr, size)
    ensures r.Ok? <==> size == 0 || (|data| <= size && ptr + |data| <= memory.Length)
    ensures r.Ok? && |data| < TWO_31 ==> r.value == |data|
    ensures r.Err? ==> r.error == if |data| > size then ReturnBufferTooSmall else CouldNotGetAdequateMemory
    ensures r.Ok? && size > 0 ==> memory[..] == Overwritten(old(memory[..]), data, ptr)
    ensures r.Err? || size == 0 ==> memory[..] == old(memory[..])
  {
    if size == 0 {
      return Ok(AsI32(|data|));
    }
    if |data| > size {
      return Err(ReturnBufferTooSmall);
    }
    if ptr + AsU32(|data|) > memory.Length {
      return Err(CouldNotGetAdequateMemory);
    }
    for i := 0 to |data|
      invariant memory[..ptr] == old(memory[..ptr])
      invariant memory[ptr..ptr + i] == data[..i]
      invariant memory[ptr + i..] == old(memory[ptr + i..])
    {
      memory[ptr + i] := data[i];
    }
    assert memory[..] == memory[..ptr] + memory[ptr..ptr + |data|] + memory[ptr + |data|..];
    return Ok(AsI32(|data|));
  }

  /** A buffer is read if and only if it is inside memory and not longer than all pages a module may have;
      the saturated limit never decides otherwise. */
  method SafelyGetMemory(memory: array<byte>, ptr: nat, size: nat, pageLimit: nat)
    returns (r: Result<Bytes, FunctionError>)
    requires size < TWO_32
    ensures r.Ok? <==> size <= pageLimit * WASM_PAGE_SIZE && ptr + size <= memory.Length
    ensures r.Ok? ==> r.value == memory[ptr..ptr + size]
    ensures r.Err? ==> r.error == CouldNotGetAdequateMemory
  {
    if size > CalculateMaxBufferSize(pageLimit) || ptr + size > memory.Length {
      return Err(CouldNotGetAdequateMemory);
    }
    return Ok(memory[ptr..ptr + size]);
  }
}
