/**
 Files stored as fixed-size raw chunks under an authenticated list, and reading a byte range
 of them. Sizes, offsets and chunk indices are 64-bit unsigned.
 */
module ChunkedFile {
  import opened Wrappers
  import opened FileBytes

  /** A stored file: the metadata document and the chunks its list binds, by index. */
  datatype Stored = Stored(totalSize: uint64, chunkSize: uint64, chunks: seq<Bytes>)

  function Min(a: nat, b: nat): nat {
    if a <= b then a else b
  }

  /** Metadata whose chunk count is the one its sizes call for. */
  predicate Measured(f: Stored) {
    f.chunkSize > 0 &&
    if f.totalSize == 0 then f.chunks == [] else |f.chunks| == (f.totalSize - 1) / f.chunkSize + 1
  }

  /** How long chunk `k` must be: full, except that the last one may be short. */
  function ExpectedLength(f: Stored, k: nat): nat
    requires k * f.chunkSize <= f.totalSize
  {
    Min(f.chunkSize, f.totalSize - k * f.chunkSize)
  }

  predicate GoodChunk(f: Stored, k: nat) {
    k < |f.chunks| && k * f.chunkSize <= f.totalSize && |f.chunks[k]| == ExpectedLength(f, k)
  }

  /** Byte `x` of the file lies in chunk `x / chunkSize`. */
  ghost predicate ByteIs(f: Stored, x: nat, b: bv8) {
    && f.chunkSize > 0 && x / f.chunkSize < |f.chunks|
    && x % f.chunkSize < |f.chunks[x / f.chunkSize]|
    && f.chunks[x / f.chunkSize][x % f.chunkSize] == b
  }

  lemma QuotientsOrdered(c: nat, q: nat, r: nat, k: nat, s: nat)
    requires r < c && s < c && q * c + r <= k * c + s
    ensures q <= k
  {
    if k < q { Ordered(k + 1, q, c); }
  }

  lemma InChunk(c: nat, k: nat, x: nat)
    requires c > 0 && k * c <= x < k * c + c
    ensures x / c == k && x % c == x - k * c
  {
    assert x == x / c * c + x % c;
    QuotientsOrdered(c, x / c, x % c, k, x - k * c);
    QuotientsOrdered(c, k, x - k * c, x / c, x % c);
  }

  lemma LastChunk(c: nat, n: nat)
    requires c > 0 && n > 0
    ensures (n - 1) / c * c < n <= (n - 1) / c * c + c
  {
    assert n - 1 == (n - 1) / c * c + (n - 1) % c;
  }

  lemma Ordered(a: nat, b: nat, c: nat)
    requires a <= b
    ensures a * c <= b * c
  {
    assert b * c == a * c + (b - a) * c;
  }

  lemma NextOffset(k: nat, c: nat)
    ensures (k + 1) * c == k * c + c
  {}

  // ----- Writing -----

  /** `f` holds exactly `data`. */
  ghost predicate Holds(f: Stored, data: Bytes) {
    && Measured(f) && f.totalSize == |data|
    && (forall k | 0 <= k < |f.chunks| :: GoodChunk(f, k))
    && (forall x | 0 <= x < |data| :: ByteIs(f, x, data[x]))
  }

  /** Chunk `k` of `data`. */
  ghost predicate IsPiece(data: Bytes, c: nat, k: nat, chunk: Bytes) {
    && k * c <= |data| && |chunk| == Min(c, |data| - k * c)
    && chunk == data[k * c..k * c + |chunk|]
  }

  lemma PiecesHold(data: Bytes, c: nat, chunks: seq<Bytes>)
    requires |data| < TWO_64 && 0 < c < TWO_64
    requires forall k | 0 <= k < |chunks| :: IsPiece(data, c, k, chunks[k]) && |chunks[k]| > 0
    requires |chunks| * c >= |data|
    ensures Holds(Stored(|data|, c, chunks), data)
  {
    var f := Stored(|data|, c, chunks);
    CountIs(data, c, chunks);
    forall x | 0 <= x < |data| ensures ByteIs(f, x, data[x]) {
      PieceByte(data, c, chunks, x);
    }
    forall k | 0 <= k < |chunks| ensures GoodChunk(f, k) {
      assert IsPiece(data, c, k, chunks[k]);
    }
  }

  lemma PieceByte(data: Bytes, c: nat, chunks: seq<Bytes>, x: nat)
    requires |data| < TWO_64 && 0 < c < TWO_64 && x < |data|
    requires forall k | 0 <= k < |chunks| :: IsPiece(data, c, k, chunks[k])
    requires |chunks| * c >= |data|
    ensures ByteIs(Stored(|data|, c, chunks), x, data[x])
  {
    var k, r := x / c, x % c;
    assert x == k * c + r;
    QuotientInside(|chunks|, c, k, r);
    PieceAt(data, c, k, r, chunks[k]);
  }

  lemma QuotientInside(n: nat, c: nat, k: nat, r: nat)
    requires k * c + r < n * c
    ensures k < n
  {
    if k >= n { Ordered(n, k, c); }
  }

  lemma PieceAt(data: Bytes, c: nat, k: nat, r: nat, chunk: Bytes)
    requires IsPiece(data, c, k, chunk) && r < c && k * c + r < |data|
    ensures r < |chunk| && chunk[r] == data[k * c + r]
  {}

  lemma CountIs(data: Bytes, c: nat, chunks: seq<Bytes>)
    requires c > 0 && |chunks| * c >= |data|
    requires forall k | 0 <= k < |chunks| :: IsPiece(data, c, k, chunks[k]) && |chunks[k]| > 0
    ensures if data == [] then chunks == [] else |chunks| == (|data| - 1) / c + 1
  {
    if chunks != [] {
      var last := |chunks| - 1;
      assert IsPiece(data, c, last, chunks[last]);
      NextOffset(last, c);
      InChunk(c, last, |data| - 1);
    }
  }

  method WriteChunkedFile(data: Bytes, chunkSize: int) returns (r: Option<Stored>)
    requires |data| <= MAX_INT && chunkSize <= MAX_INT
    ensures r.Some? <==> chunkSize > 0
    ensures r.Some? ==> Holds(r.value, data) && r.value.chunkSize == chunkSize
  {
    if chunkSize <= 0 {
      return None;
    }
    var entries: seq<Bytes> := [];
    var start := 0;
    while start < |data|
      invariant 0 <= start <= |data| && start == Min(|entries| * chunkSize, |data|)
      invariant forall k | 0 <= k < |entries| :: IsPiece(data, chunkSize, k, entries[k]) && |entries[k]| > 0
    {
      var end := start + Min(chunkSize, |data| - start);
      NextOffset(|entries|, chunkSize);
      assert IsPiece(data, chunkSize, |entries|, data[start..end]);
      entries := entries + [data[start..end]];
      start := end;
    }
    PiecesHold(data, chunkSize, entries);
    return Some(Stored(|data|, chunkSize, entries));
  }

  // ----- Reading -----

  function SaturatingAdd(a: uint64, b: uint64): (r: uint64)
    ensures r == Min(a + b, TWO_64 - 1)
  {
    if b > TWO_64 - 1 - a then TWO_64 - 1 else a + b
  }

  /** Where a range that starts inside the file ends; no length asks for all the rest. */
  function RangeEnd(total: uint64, start: uint64, length: Option<uint64>): uint64 {
    if length.None? then total else Min(total, SaturatingAdd(start, length.value))
  }

  predicate EmptyRange(total: uint64, start: uint64, length: Option<uint64>) {
    start >= total || length == Some(0)
  }

  /** `body` is bytes `from` to `to` of the file. */
  ghost predicate IsRange(f: Stored, from: nat, to: nat, body: Bytes) {
    from <= to && |body| == to - from && forall i | 0 <= i < |body| :: ByteIs(f, from + i, body[i])
  }

  /** One chunk's share of a range, appended to what came before it. */
  lemma AppendShare(f: Stored, k: nat, start: nat, from: nat, to: nat, body: Bytes)
    requires GoodChunk(f, k) && f.chunkSize > 0 && from <= to <= |f.chunks[k]|
    requires IsRange(f, start, k * f.chunkSize + from, body)
    ensures IsRange(f, start, k * f.chunkSize + to, body + f.chunks[k][from..to])
  {
    var offset, share := k * f.chunkSize, f.chunks[k][from..to];
    var more := body + share;
    forall i | |body| <= i < |more| ensures ByteIs(f, start + i, more[i]) {
      InChunk(f.chunkSize, k, start + i);
      assert more[i] == share[i - |body|];
    }
  }

  /** How far a range has been read when everything before `at` has. */
  function Reached(start: nat, end: nat, at: nat): nat {
    if at <= start then start else Min(end, at)
  }

  lemma DivisionOrdered(a: nat, b: nat, c: nat)
    requires a <= b && c > 0
    ensures a / c <= b / c
  {
    assert a == a / c * c + a % c && b == b / c * c + b % c;
    QuotientsOrdered(c, a / c, a % c, b / c, b % c);
  }

  /** The first chunk a range touches, and the first after those. */
  function FirstIndex(f: Stored, start: nat): nat
    requires f.chunkSize > 0
  {
    start / f.chunkSize
  }

  function StopIndex(f: Stored, end: nat): nat
    requires f.chunkSize > 0 && end > 0
  {
    (end - 1) / f.chunkSize + 1
  }

  predicate AllGood(f: Stored, first: nat, stop: nat) {
    forall k | first <= k < stop :: GoodChunk(f, k)
  }

  /** The bounds of the chunks a range touches. */
  ghost predicate Touches(f: Stored, start: nat, end: nat, first: nat, stop: nat) {
    && start < end <= f.totalSize && first < stop <= |f.chunks| && f.chunkSize > 0
    && first * f.chunkSize <= start < first * f.chunkSize + f.chunkSize
    && (stop - 1) * f.chunkSize < end <= (stop - 1) * f.chunkSize + f.chunkSize
  }

  lemma Touched(f: Stored, start: nat, end: nat)
    requires Measured(f) && start < end <= f.totalSize
    ensures Touches(f, start, end, FirstIndex(f, start), StopIndex(f, end))
  {
    var c := f.chunkSize;
    assert start == start / c * c + start % c;
    LastChunk(c, end);
    DivisionOrdered(start, end - 1, c);
    DivisionOrdered(end - 1, f.totalSize - 1, c);
  }

  /** A touched chunk starts before the range ends, and ends after the range starts. */
  lemma InRange(f: Stored, start: nat, end: nat, first: nat, stop: nat, index: nat)
    requires Touches(f, start, end, first, stop) && first <= index < stop
    ensures index * f.chunkSize < end && start < index * f.chunkSize + f.chunkSize
  {
    Ordered(index, stop - 1, f.chunkSize);
    Ordered(first, index, f.chunkSize);
  }

  /** How long the chunk at `offset` must be, and which part of it belongs to the range. */
  method ShareBounds(f: Stored, start: uint64, end: uint64, offset: uint64)
    returns (expected: uint64, from: uint64, to: uint64)
    requires start < end <= f.totalSize && offset < end && start < offset + f.chunkSize
    ensures expected == Min(f.chunkSize, f.totalSize - offset) && from <= to <= expected
    ensures offset + from == Reached(start, end, offset)
    ensures offset + to == Reached(start, end, offset + f.chunkSize)
  {
    expected := Min(f.chunkSize, f.totalSize - offset);
    from := if start > offset then start - offset else 0;
    to := Min(expected, end - offset);
  }

  /** One chunk's share of the range, if the chunk has the length it should. */
  method ReadShare(f: Stored, start: uint64, end: uint64, ghost first: nat, ghost stop: nat, index: uint64, body: Bytes)
    returns (r: Option<Bytes>)
    requires Touches(f, start, end, first, stop) && first <= index < stop
    requires IsRange(f, start, Reached(start, end, index * f.chunkSize), body)
    ensures r.Some? <==> GoodChunk(f, index)
    ensures r.Some? ==> IsRange(f, start, Reached(start, end, index * f.chunkSize + f.chunkSize), r.value)
  {
    InRange(f, start, end, first, stop, index);
    var offset: uint64 := index * f.chunkSize;
    var expected, from, to := ShareBounds(f, start, end, offset);
    if |f.chunks[index]| != expected {
      return None;
    }
    AppendShare(f, index, start, from, to, body);
    return Some(body + f.chunks[index][from..to]);
  }

  method ReadChunks(f: Stored, start: uint64, end: uint64, first: uint64, stop: uint64) returns (r: Option<Bytes>)
    requires Touches(f, start, end, first, stop)
    ensures r.Some? <==> AllGood(f, first, stop)
    ensures r.Some? ==> IsRange(f, start, end, r.value)
  {
    r := Some([]);
    var i: uint64 := 0;
    assert Reached(start, end, first * f.chunkSize) == start;
    while i < stop - first
      invariant first + i <= stop && r.Some?
      invariant IsRange(f, start, Reached(start, end, (first + i) * f.chunkSize), r.value)
      invariant forall k | first <= k < first + i :: GoodChunk(f, k)
    {
      r := ReadShare(f, start, end, first, stop, first + i, r.value);
      if r.None? {
        return;
      }
      NextOffset(first + i, f.chunkSize);
      i := i + 1;
    }
    NextOffset(stop - 1, f.chunkSize);
  }

  lemma IndicesFit(f: Stored, start: nat, end: nat)
    requires f.chunkSize > 0 && start < end < TWO_64
    ensures FirstIndex(f, start) < TWO_64 && StopIndex(f, end) < TWO_64
  {
    LastChunk(f.chunkSize, end);
    Ordered(1, f.chunkSize, (end - 1) / f.chunkSize);
    DivisionOrdered(start, end - 1, f.chunkSize);
  }

  /**
   Reads a range. Every index and offset stays within 64 bits. The answer is exactly the
   requested bytes, and the only failure is a touched chunk of the wrong length.
   */
  method ReadTypedRange(f: Stored, start: uint64, length: Option<uint64>) returns (r: Option<Bytes>)
    requires Measured(f)
    ensures EmptyRange(f.totalSize, start, length) ==> r == Some([])
    ensures !EmptyRange(f.totalSize, start, length) ==>
              var end := RangeEnd(f.totalSize, start, length);
              && (r.Some? <==> AllGood(f, FirstIndex(f, start), StopIndex(f, end)))
              && (r.Some? ==> IsRange(f, start, end, r.value))
  {
    if EmptyRange(f.totalSize, start, length) {
      return Some([]);
    }
    var end: uint64 := RangeEnd(f.totalSize, start, length);
    Touched(f, start, end);
    IndicesFit(f, start, end);
    r := ReadChunks(f, start, end, FirstIndex(f, start), StopIndex(f, end));
  }

  // ----- Writing, then reading -----

  /** Every range of a written file reads back as that range of what was written. */
  lemma ReadsWhatWasWritten(f: Stored, data: Bytes, start: uint64, length: Option<uint64>, body: Bytes)
    requires Holds(f, data) && !EmptyRange(f.totalSize, start, length)
    requires IsRange(f, start, RangeEnd(f.totalSize, start, length), body)
    ensures body == Slice(data, start, if length.Some? then length.value else |data|)
  {
    forall i | 0 <= i < |body| ensures body[i] == data[start + i] {
      assert ByteIs(f, start + i, data[start + i]);
    }
  }

  method WriteThenRead(data: Bytes, chunkSize: int, start: uint64, length: Option<uint64>) returns (r: Option<Bytes>)
    requires |data| <= MAX_INT && 0 < chunkSize <= MAX_INT
    ensures r == Some(Slice(data, start, if length.Some? then length.value else |data|))
  {
    var f := WriteChunkedFile(data, chunkSize);
    r := ReadTypedRange(f.value, start, length);
    if !EmptyRange(|data|, start, length) {
      Touched(f.value, start, RangeEnd(|data|, start, length));
      assert r.Some?;
      ReadsWhatWasWritten(f.value, data, start, length, r.value);
    } else {
      assert Slice(data, start, if length.Some? then length.value else |data|) == [];
    }
  }
}
