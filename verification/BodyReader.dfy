/** Reading a webhook's body: buffers arrive one after the other, each cut into pieces of its own, and
    the total is limited before anything is copied. */
module BodyReader {
  import opened Machine

  /** What is left of a received buffer, as the pieces its owner hands out; none is empty. */
  type Buffer = seq<Bytes>

  datatype Item = Received(buffer: Buffer) | Failed

  datatype BodyError = TooLarge | ReadFailed

  ghost predicate Proper(body: seq<Item>) {
    forall i, j :: 0 <= i < |body| && body[i].Received? && 0 <= j < |body[i].buffer| ==> body[i].buffer[j] != []
  }

  // ---------- The reference ----------

  function Flat(buffer: Buffer): Bytes {
    if buffer == [] then [] else buffer[0] + Flat(buffer[1..])
  }

  ghost function Content(body: seq<Item>): Bytes {
    if body == [] then []
    else Content(body[..|body| - 1]) + (if body[|body| - 1].Received? then Flat(body[|body| - 1].buffer) else [])
  }

  /** No item failed so far and everything fits. */
  ghost predicate Fits(body: seq<Item>, maxSize: nat) {
    (forall i :: 0 <= i < |body| ==> body[i].Received?) && |Content(body)| <= maxSize
  }

  /** The first item that ends the reading, and why. */
  ghost predicate EndsAt(body: seq<Item>, maxSize: nat, i: nat, e: BodyError) {
    && i < |body| && Fits(body[..i], maxSize) && !Fits(body[..i + 1], maxSize)
    && (e == ReadFailed <==> body[i].Failed?)
  }

  lemma ContentOfMore(body: seq<Item>, n: nat)
    requires n < |body|
    ensures Content(body[..n + 1]) == Content(body[..n]) + (if body[n].Received? then Flat(body[n].buffer) else [])
  {
    assert body[..n + 1][..n] == body[..n];
  }

  lemma FitsOneMore(body: seq<Item>, maxSize: nat, n: nat)
    requires n < |body|
    ensures Fits(body[..n + 1], maxSize) <==>
      Fits(body[..n], maxSize) && body[n].Received? && |Content(body[..n])| + |Flat(body[n].buffer)| <= maxSize
  {
    ContentOfMore(body, n);
    var shorter, longer := body[..n], body[..n + 1];
    assert longer == shorter + [body[n]];
    if forall i :: 0 <= i < |longer| ==> longer[i].Received? {
      assert longer[n].Received?;
      assert forall i :: 0 <= i < n ==> shorter[i] == longer[i];
    }
  }

  /** A body that does not fit up to some item does not fit as a whole. */
  lemma {:induction false} PrefixFits(body: seq<Item>, maxSize: nat, n: nat)
    requires n <= |body| && Fits(body, maxSize)
    ensures Fits(body[..n], maxSize)
    decreases |body| - n
  {
    if n == |body| {
      assert body[..n] == body;
    } else {
      PrefixFits(body, maxSize, n + 1);
      FitsOneMore(body, maxSize, n);
    }
  }

  // ---------- Reading ----------

  function Remaining(buffer: Buffer): nat {
    |Flat(buffer)|
  }

  /** Ok exactly when no item fails and the total is within the limit; then the pieces are joined in
      order, however the buffers are cut. */
  method ReadBodyWithLimit(body: seq<Item>, maxSize: nat) returns (r: Result<Bytes, BodyError>)
    requires Proper(body)
    ensures r.Ok? <==> Fits(body, maxSize)
    ensures r.Ok? ==> r.value == Content(body)
    ensures r.Err? ==> exists i :: EndsAt(body, maxSize, i, r.error)
  {
    var buffers: seq<Buffer> := [];
    var total := 0;
    for i := 0 to |body|
      invariant |buffers| == i && (forall k :: 0 <= k < i ==> body[k] == Received(buffers[k]))
      invariant total == |Content(body[..i])| && Fits(body[..i], maxSize)
    {
      FitsOneMore(body, maxSize, i);
      ContentOfMore(body, i);
      if body[i].Failed? || Remaining(body[i].buffer) + total > maxSize {
        assert !Fits(body, maxSize) by {
          if Fits(body, maxSize) {
            PrefixFits(body, maxSize, i + 1);
          }
        }
        var e := if body[i].Failed? then ReadFailed else TooLarge;
        assert EndsAt(body, maxSize, i, e);
        return Err(e);
      }
      total := total + Remaining(body[i].buffer);
      buffers := buffers + [body[i].buffer];
    }
    assert body[..|body|] == body;
    var fullBody := Join(buffers, body);
    return Ok(fullBody);
  }

  /** Copies the pieces of all buffers into one. */
  method Join(buffers: seq<Buffer>, ghost body: seq<Item>) returns (fullBody: Bytes)
    requires Proper(body) && |buffers| == |body| && forall k :: 0 <= k < |body| ==> body[k] == Received(buffers[k])
    ensures fullBody == Content(body)
  {
    fullBody := [];
    for i := 0 to |buffers|
      invariant fullBody == Content(body[..i])
    {
      ContentOfMore(body, i);
      var buffer := buffers[i];
      assert forall j :: 0 <= j < |body[i].buffer| ==> body[i].buffer[j] != [];
      while Remaining(buffer) > 0
        invariant fullBody + Flat(buffer) == Content(body[..i + 1])
        decreases |buffer|
      {
        var chunk := buffer[0];
        assert fullBody + (chunk + Flat(buffer[1..])) == (fullBody + chunk) + Flat(buffer[1..]);
        fullBody, buffer := fullBody + chunk, buffer[1..];
      }
      assert fullBody + [] == fullBody;
    }
    assert body[..|body|] == body;
  }
}
