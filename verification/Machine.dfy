/** Machine integers, byte strings and the result types shared by every component. */
module Machine {
  type byte = b: int | 0 <= b < 256
  type Bytes = seq<byte>

  const TWO_31: nat := 0x8000_0000
  const TWO_32: nat := 0x1_0000_0000
  const TWO_64: nat := 0x1_0000_0000_0000_0000

  datatype Option<+T> = None | Some(value: T)

  datatype Result<+T, +E> = Ok(value: T) | Err(error: E)

  function Max(a: nat, b: nat): nat {
    if a < b then b else a
  }

  function Min(a: nat, b: nat): nat {
    if a < b then a else b
  }

  lemma SubsetIsSmaller<T>(a: set<T>, b: set<T>)
    requires a <= b
    ensures |a| <= |b|
    decreases |a|
  {
    if a != {} {
      var x :| x in a;
      SubsetIsSmaller(a - {x}, b - {x});
    }
  }

  /** The `as i32` cast of a length: keeps the low 32 bits and reads them as two's complement. */
  function AsI32(n: nat): int {
    var low := n % TWO_32;
    if low < TWO_31 then low else low - TWO_32
  }

  /** Below 2^32 the cast keeps exactly the lengths below 2^31; the others come out negative. */
  lemma CastOfShortLength(n: nat)
    requires n < TWO_32
    ensures AsI32(n) == if n < TWO_31 then n else n - TWO_32
    ensures AsU32(n) == n
  {
  }

  /** The `as u32` cast of a length. */
  function AsU32(n: nat): nat {
    n % TWO_32
  }

  /** u64 arithmetic in a release build wraps around. */
  function AsU64(n: int): nat {
    n % TWO_64
  }

  /** Wrapping once at the end equals wrapping an operand first. */
  lemma WrapOnce(a: int, d: int)
    ensures AsU64(AsU64(a) + d) == AsU64(a + d)
  {
    var q := a / TWO_64;
    assert a == q * TWO_64 + AsU64(a);
    ShiftByMultiple(AsU64(a) + d, q);
  }

  lemma ShiftByMultiple(x: int, q: int)
    ensures AsU64(x + q * TWO_64) == AsU64(x)
  {
    var r := x / TWO_64;
    assert x == r * TWO_64 + AsU64(x);
    assert x + q * TWO_64 == (r + q) * TWO_64 + AsU64(x);
  }

  /** Reads the numeric codes that host functions hand back to a guest. */
  datatype FunctionError =
    | ApiNotConfigured
    | ReturnBufferTooSmall
    | InternalApiError
    | ParametersNotUtf8
    | CouldNotGetAdequateMemory
    | StorageLimitReached
    | OperationNotAllowed
    | FailedToLogBack
    | LogbackBudgetExhausted
  {
    function Code(): int {
      match this
      case ApiNotConfigured => -1
      case ReturnBufferTooSmall => -2
      case InternalApiError => -4
      case ParametersNotUtf8 => -5
      case CouldNotGetAdequateMemory => -8
      case StorageLimitReached => -10
      case OperationNotAllowed => -12
      case FailedToLogBack => -15
      case LogbackBudgetExhausted => -16
    }
  }
}
