/**
 Whole-file staging arithmetic: offset writes, truncation, and reading a range out of a body
 that streams past in chunks of any size. Offsets and lengths are 64-bit; sums wrap.
 */
module FileBytes {

  type Bytes = seq<bv8>

  const TWO_64 := 0x1_0000_0000_0000_0000
  const MAX_INT := 0x7fff_ffff_ffff_ffff

  type uint64 = n: nat | n < TWO_64

  /** Wrapping addition. */
  function Add64(a: uint64, b: uint64): uint64 {
    (a + b) % TWO_64
  }

  /** The bytes of `body` from `offset`, at most `length` of them. */
  function Slice(body: Bytes, offset: nat, length: nat): Bytes {
    if offset >= |body| then []
    else if offset + length >= |body| then body[offset..]
    else body[offset..offset + length]
  }

  /** `after` is `before` with `data` at `offset`, the gap (if any) filled with zeros. */
  ghost predicate Overwritten(before: Bytes, offset: nat, data: Bytes, after: Bytes) {
    && |after| == (if offset + |data| > |before| then offset + |data| else |before|)
    && forall i | 0 <= i < |after| ::
         after[i] == if offset <= i < offset + |data| then data[i - offset]
                     else if i < |before| then before[i] else 0
  }

  ghost predicate Resized(before: Bytes, size: nat, after: Bytes) {
    && |after| == size
    && forall i | 0 <= i < size :: after[i] == if i < |before| then before[i] else 0
  }

  /** The array a write or a truncate fills: `size` bytes, starting with those of `body`. */
  method CopyInto(body: Bytes, size: nat) returns (a: array<bv8>)
    ensures fresh(a) && Resized(body, size, a[..])
  {
    a := new bv8[size](_ => 0);
    var i := 0;
    while i < size && i < |body|
      invariant 0 <= i <= size && i <= |body|
      invariant forall k | 0 <= k < size :: a[k] == if k < i then body[k] else 0
    {
      a[i] := body[i];
      i := i + 1;
    }
  }

  method WriteInto(body: Bytes, offset: nat, data: Bytes) returns (after: Bytes)
    ensures Overwritten(body, offset, data, after)
  {
    var end := offset + |data|;
    var a := CopyInto(body, if end > |body| then end else |body|);
    ghost var blank := a[..];
    var i := 0;
    while i < |data|
      invariant 0 <= i <= |data|
      invariant forall k | 0 <= k < a.Length ::
                  a[k] == if offset <= k < offset + i then data[k - offset] else blank[k]
    {
      a[offset + i] := data[i];
      i := i + 1;
    }
    after := a[..];
  }

  method Resize(body: Bytes, size: nat) returns (after: Bytes)
    ensures Resized(body, size, after)
  {
    var a := CopyInto(body, size);
    after := a[..];
  }

  // ----- Reading a range from a stream -----

  function Concat(chunks: seq<Bytes>): Bytes {
    if chunks == [] then [] else Concat(chunks[..|chunks| - 1]) + chunks[|chunks| - 1]
  }

  /** A writer that keeps the bytes at positions `offset ..` of whatever streams through it. */
  class RangeCapture {
    const offset: uint64
    const body: array<bv8>
    var seen: uint64
    var copied: nat
    ghost var stream: Bytes

    ghost predicate Valid()
      reads this, body
    {
      && |stream| == seen
      && offset + body.Length < TWO_64
      && copied == (if seen <= offset then 0
                    else if seen - offset <= body.Length then seen - offset
                    else body.Length)
      && forall i | 0 <= i < copied :: body[i] == stream[offset + i]
    }

    constructor (offset: uint64, wanted: nat)
      requires offset + wanted < TWO_64
      ensures Valid() && stream == [] && this.offset == offset && body.Length == wanted && fresh(body)
    {
      this.offset := offset;
      body := new bv8[wanted];
      seen, copied, stream := 0, 0, [];
    }

    method Write(chunk: Bytes)
      requires Valid() && seen + |chunk| < TWO_64
      modifies this, body
      ensures Valid() && stream == old(stream) + chunk
    {
      var start := seen;
      var end := Add64(start, |chunk|);
      seen := end;
      var wantedEnd := Add64(offset, body.Length);
      stream := stream + chunk;
      if end <= offset || start >= wantedEnd {
        return;
      }
      var copyStart := if start < offset then offset else start;
      var copyEnd := if end > wantedEnd then wantedEnd else end;
      var source, destination := copyStart - start, copyStart - offset;
      var i := 0;
      while i < copyEnd - copyStart
        invariant 0 <= i <= copyEnd - copyStart
        invariant forall k | 0 <= k < destination + i :: body[k] == stream[offset + k]
        modifies body
      {
        body[destination + i] := chunk[source + i];
        i := i + 1;
      }
      copied := copied + i;
    }
  }

  /**
   Reads `length` bytes at `offset`, as many as there are, of a body of the recorded `size`
   that arrives as `chunks`. The result does not depend on how the body was cut up.
   */
  method ReadLocalRange(chunks: seq<Bytes>, size: nat, offset: uint64, length: uint64) returns (result: Bytes)
    requires size == |Concat(chunks)| <= MAX_INT
    ensures result == Slice(Concat(chunks), offset, length)
  {
    ghost var whole := Concat(chunks);
    var wanted := 0;
    if length != 0 && offset < size {
      var end := Add64(offset, length);
      if end < offset || end > size {
        end := size;
      }
      wanted := end - offset;
    }
    var capture := new RangeCapture(offset, wanted);
    var i := 0;
    while i < |chunks|
      invariant 0 <= i <= |chunks|
      invariant capture.Valid() && fresh(capture) && fresh(capture.body)
      invariant capture.stream == Concat(chunks[..i])
    {
      ConcatPrefix(chunks, i + 1);
      assert chunks[..i + 1][..i] == chunks[..i];
      capture.Write(chunks[i]);
      i := i + 1;
    }
    assert chunks[..|chunks|] == chunks;
    result := capture.body[..];
    assert wanted > 0 ==> capture.copied == wanted;
    assert forall k | 0 <= k < wanted :: result[k] == whole[offset + k];
  }

  lemma {:induction false} ConcatPrefix(chunks: seq<Bytes>, i: nat)
    requires i <= |chunks|
    ensures Concat(chunks[..i]) <= Concat(chunks)
    decreases |chunks|
  {
    if i < |chunks| {
      ConcatPrefix(chunks[..|chunks| - 1], i);
      assert chunks[..|chunks| - 1][..i] == chunks[..i];
    } else {
      assert chunks[..i] == chunks;
    }
  }

  /** A body cut into reads of the given sizes, with whatever is left in a last read. */
  function SplitBy(body: Bytes, sizes: seq<nat>): (chunks: seq<Bytes>)
    ensures Concat(chunks) == body
  {
    if sizes == [] then
      [body]
    else
      var k := if sizes[0] < |body| then sizes[0] else |body|;
      var rest := SplitBy(body[k..], sizes[1..]);
      ConcatCons(body[..k], rest);
      [body[..k]] + rest
  }

  lemma {:induction false} ConcatCons(first: Bytes, rest: seq<Bytes>)
    ensures Concat([first] + rest) == first + Concat(rest)
  {
    if rest != [] {
      ConcatCons(first, rest[..|rest| - 1]);
      assert ([first] + rest)[..|rest|] == [first] + rest[..|rest| - 1];
    }
  }
}
