/** How a message's log and source reach a rule: framed by the host, copied through guest memory in a
    size-then-data exchange, and taken apart again by the rule's entry point. */
module Framing {
  import opened Machine
  import opened Memory

  // ---------- Lengths as four little-endian bytes ----------

  function ToLeBytes(n: nat): (bytes: Bytes)
    requires n < TWO_32
    ensures |bytes| == 4
  {
    [n % 0x100, n / 0x100 % 0x100, n / 0x1_0000 % 0x100, n / 0x100_0000]
  }

  function FromLeBytes(bytes: Bytes): nat
    requires |bytes| == 4
  {
    var b0: nat, b1: nat, b2: nat, b3: nat := bytes[0], bytes[1], bytes[2], bytes[3];
    b0 + b1 * 0x100 + b2 * 0x1_0000 + b3 * 0x100_0000
  }

  /** What a little-endian byte string stands for, whatever its length. */
  function LeValue(bytes: Bytes): nat {
    if bytes == [] then 0 else bytes[0] + 0x100 * LeValue(bytes[1..])
  }

  lemma FromLeBytesIsLeValue(bytes: Bytes)
    requires |bytes| == 4
    ensures FromLeBytes(bytes) == LeValue(bytes)
  {
    var b1, b2, b3 := bytes[1..], bytes[2..], bytes[3..];
    assert b1[1..] == b2 && b2[1..] == b3 && b3[1..] == [];
    assert LeValue(b3) == bytes[3];
    assert LeValue(b2) == bytes[2] + 0x100 * LeValue(b3);
    assert LeValue(b1) == bytes[1] + 0x100 * LeValue(b2);
  }

  lemma LengthRoundTrip(n: nat)
    requires n < TWO_32
    ensures FromLeBytes(ToLeBytes(n)) == n
  {
    var q1, q2, q3 := n / 0x100, n / 0x1_0000, n / 0x100_0000;
    assert n == q1 * 0x100 + n % 0x100;
    assert q1 == q2 * 0x100 + q1 % 0x100;
    assert q2 == q3 * 0x100 + q2 % 0x100;
  }

  lemma LowByte(b: byte, q: nat)
    ensures (b + 0x100 * q) % 0x100 == b && (b + 0x100 * q) / 0x100 == q
  {
  }

  lemma BytesRoundTrip(bytes: Bytes)
    requires |bytes| == 4
    ensures FromLeBytes(bytes) < TWO_32 && ToLeBytes(FromLeBytes(bytes)) == bytes
  {
    var n := FromLeBytes(bytes);
    var q3: nat := bytes[3];
    var q2 := bytes[2] + 0x100 * q3;
    var q1 := bytes[1] + 0x100 * q2;
    assert n == bytes[0] + 0x100 * q1;
    LowByte(bytes[0], q1);
    LowByte(bytes[1], q2);
    LowByte(bytes[2], q3);
    assert n / 0x1_0000 == q2 && n / 0x100_0000 == q3;
  }

  // ---------- The frame ----------

  /** The length field keeps the low 32 bits of the log's length. */
  function Frame(log: Bytes, source: Bytes): Bytes {
    ToLeBytes(AsU32(|log|)) + log + source
  }

  /** First the log's length in four bytes, least significant first, then the log, then the source. */
  lemma FrameLayout(log: Bytes, source: Bytes)
    requires |log| < TWO_32
    ensures var frame := Frame(log, source);
      && |frame| == 4 + |log| + |source|
      && LeValue(frame[..4]) == |log|
      && frame[4..4 + |log|] == log
      && frame[4 + |log|..] == source
  {
    LengthRoundTrip(|log|);
    CastOfShortLength(|log|);
    FromLeBytesIsLeValue(ToLeBytes(|log|));
    assert Frame(log, source)[..4] == ToLeBytes(|log|);
  }

  datatype Decoded = Decoded(log: Bytes, source: Bytes)

  /** A frame as the entry point reads it; None where slicing would panic. */
  function Decode(frame: Bytes): Option<Decoded> {
    if |frame| < 4 then None
    else
      var n := FromLeBytes(frame[..4]);
      if 4 + n <= |frame| then Some(Decoded(frame[4..4 + n], frame[4 + n..])) else None
  }

  /** Framing is undone exactly, for every log whose length fits the length field. */
  lemma FrameRoundTrip(log: Bytes, source: Bytes)
    requires |log| < TWO_32
    ensures Decode(Frame(log, source)) == Some(Decoded(log, source))
  {
    LengthRoundTrip(|log|);
    CastOfShortLength(|log|);
    var frame := Frame(log, source);
    assert frame[..4] == ToLeBytes(|log|);
    assert frame[4..4 + |log|] == log;
    assert frame[4 + |log|..] == source;
  }

  /** Different messages have different frames. */
  lemma FramesAreUnambiguous(log: Bytes, source: Bytes, log': Bytes, source': Bytes)
    requires |log| < TWO_32 && |log'| < TWO_32 && Frame(log, source) == Frame(log', source')
    ensures log == log' && source == source'
  {
    FrameRoundTrip(log, source);
    FrameRoundTrip(log', source');
  }

  ghost predicate IsFrame(bytes: Bytes) {
    exists log, source :: FrameOf(bytes, log, source)
  }

  ghost predicate FrameOf(bytes: Bytes, log: Bytes, source: Bytes) {
    |log| < TWO_32 && Frame(log, source) == bytes
  }

  /** Whatever can be decoded is the frame of what it decodes to. */
  lemma DecodedIsFramed(frame: Bytes)
    requires Decode(frame).Some?
    ensures var d := Decode(frame).value; |d.log| < TWO_32 && Frame(d.log, d.source) == frame
  {
    var n := FromLeBytes(frame[..4]);
    BytesRoundTrip(frame[..4]);
    CastOfShortLength(n);
    assert frame == frame[..4] + frame[4..4 + n] + frame[4 + n..];
  }

  // ---------- Host side ----------

  method FetchDataAndSource(memory: array<byte>, log: Bytes, source: Bytes, ptr: nat, bufferSize: nat)
    returns (code: int)
    requires bufferSize < TWO_32
    modifies memory
    ensures code == ResultCode(WriteBackResult(memory.Length, Frame(log, source), ptr, bufferSize))
    ensures var size := |Frame(log, source)|;
      && (size < TWO_31 && (bufferSize == 0 || (size <= bufferSize && ptr + size <= memory.Length)) ==> code == size)
      && (0 < bufferSize < size ==> code == ReturnBufferTooSmall.Code())
      && (0 < size <= bufferSize && ptr + size > memory.Length ==> code == CouldNotGetAdequateMemory.Code())
    ensures var r := WriteBackResult(memory.Length, Frame(log, source), ptr, bufferSize);
      memory[..] ==
        if r.Ok? && bufferSize > 0 then Overwritten(old(memory[..]), Frame(log, source), ptr) else old(memory[..])
  {
    var ruleData: Bytes := [];
    ruleData := ruleData + ToLeBytes(AsU32(|log|));
    ruleData := ruleData + log;
    ruleData := ruleData + source;
    assert ruleData == Frame(log, source);
    var r := SafelyWriteDataBack(memory, ruleData, ptr, bufferSize);
    code := ResultCode(r);
  }

  // ---------- Guest side ----------

  datatype Entry = Delivered(decoded: Decoded) | Exit(code: int) | Trapped

  /** A slice panics outside its buffer, which traps the rule. */
  method ReadFrame(frame: Bytes) returns (r: Entry)
    requires |frame| >= 4
    ensures r.Delivered? <==> IsFrame(frame)
    ensures r.Delivered? ==> FrameOf(frame, r.decoded.log, r.decoded.source)
    ensures !r.Delivered? ==> r == Trapped
  {
    if IsFrame(frame) {
      ghost var log, source :| FrameOf(frame, log, source);
      FrameRoundTrip(log, source);
    }
    var logLength := FromLeBytes(frame[0..4]);
    if 4 + logLength > |frame| {
      return Trapped;
    }
    var log := frame[4..4 + logLength];
    var logSource := frame[4 + logLength..];
    assert frame[0..4] == frame[..4];
    DecodedIsFramed(frame);
    r := Delivered(Decoded(log, logSource));
    assert FrameOf(frame, log, logSource);
  }

  /** The entry point of a rule that takes raw log bytes. The guest's allocator places the buffer at
      `heap`, and traps when memory does not reach that far. A frame below 2^31 bytes arrives exactly,
      touching nothing outside the buffer; a longer one is never delivered. */
  method Entrypoint(memory: array<byte>, heap: nat, log: Bytes, source: Bytes) returns (r: Entry)
    modifies memory
    ensures var size := |Frame(log, source)|;
      && (r.Delivered? <==> size < TWO_31 && heap + size <= memory.Length)
      && (r.Delivered? ==>
            && r.decoded == Decoded(log, source)
            && memory[..heap] == old(memory[..heap])
            && memory[heap + size..] == old(memory[heap + size..]))
      && (r.Trapped? <==> AsI32(size) >= 4 && heap + AsI32(size) > memory.Length)
      && (r.Exit? ==> r.code == if AsI32(size) < 4 then AsI32(size) else ReturnBufferTooSmall.Code())
      && (!r.Delivered? ==> memory[..] == old(memory[..]))
  {
    ghost var frame := Frame(log, source);
    var bufferSize := FetchDataAndSource(memory, log, source, 0, 0);
    if bufferSize < 4 {
      assert |frame| >= TWO_31;
      return Exit(bufferSize);
    }
    if heap + bufferSize > memory.Length {
      if |frame| < TWO_32 {
        CastOfShortLength(|frame|);
      }
      return Trapped;
    }
    var copiedSize := FetchDataAndSource(memory, log, source, heap, bufferSize);
    if |frame| >= TWO_31 {
      assert |frame| > bufferSize;
      assert copiedSize == ReturnBufferTooSmall.Code();
    } else {
      CastOfShortLength(|frame|);
      CastOfShortLength(|log|);
      assert memory[heap..heap + bufferSize] == frame && FrameOf(frame, log, source);
    }
    if copiedSize < 4 {
      return Exit(copiedSize);
    }
    if copiedSize != bufferSize {
      return Exit(-1);
    }
    r := ReadFrame(memory[heap..heap + bufferSize]);
    assert r.Delivered?;
    FramesAreUnambiguous(log, source, r.decoded.log, r.decoded.source);
  }
}
