/** Cutting a stream into chunks of one size, and the byte ranges under which the chunks are uploaded. */
module Chunks {

  type Bytes = seq<bv8>

  function Flat(parts: seq<Bytes>): Bytes {
    if parts == [] then [] else Flat(parts[..|parts| - 1]) + parts[|parts| - 1]
  }

  lemma {:induction false} FlatNext(parts: seq<Bytes>, n: nat)
    requires n < |parts|
    ensures Flat(parts[..n + 1]) == Flat(parts[..n]) + parts[n]
  {
    assert parts[..n + 1] == parts[..n] + [parts[n]];
  }

  /** Full chunks, and perhaps a shorter last one that is not empty. */
  ghost predicate Framed(chunks: seq<Bytes>, limit: nat) {
    && (forall i :: 0 <= i < |chunks| ==> 0 < |chunks[i]| <= limit)
    && (forall i :: 0 <= i < |chunks| - 1 ==> |chunks[i]| == limit)
  }

  ghost predicate Full(chunks: seq<Bytes>, limit: nat) {
    forall i :: 0 <= i < |chunks| ==> |chunks[i]| == limit
  }

  lemma {:induction false} FullSize(chunks: seq<Bytes>, limit: nat)
    requires Full(chunks, limit)
    ensures |Flat(chunks)| == |chunks| * limit
    decreases |chunks|
  {
    if chunks != [] {
      FullSize(chunks[..|chunks| - 1], limit);
    }
  }

  lemma {:induction false} LastSize(chunks: seq<Bytes>, limit: nat)
    requires Framed(chunks, limit) && chunks != []
    ensures Full(chunks[..|chunks| - 1], limit)
    ensures |Flat(chunks)| == (|chunks| - 1) * limit + |chunks[|chunks| - 1]|
  {
    FullSize(chunks[..|chunks| - 1], limit);
  }

  lemma {:induction false} OneMore(a: nat, b: nat, limit: nat)
    requires a < b
    ensures a * limit + limit <= b * limit
    decreases b - a
  {
    assert b * limit == (b - 1) * limit + limit;
    if a < b - 1 {
      OneMore(a, b - 1, limit);
    }
  }

  lemma {:induction false} SameCount(a: nat, b: nat, limit: nat, x: nat, y: nat)
    requires a * limit + x == b * limit + y && 0 < x <= limit && 0 < y <= limit
    ensures a == b && x == y
  {
    if a < b {
      OneMore(a, b, limit);
    } else if b < a {
      OneMore(b, a, limit);
    }
  }

  /** However the input was split, the same bytes are framed in the same chunks. */
  lemma {:induction false} FramingIsUnique(a: seq<Bytes>, b: seq<Bytes>, limit: nat)
    requires Framed(a, limit) && Framed(b, limit) && Flat(a) == Flat(b)
    ensures a == b
    decreases |a|
  {
    if a != [] {
      LastSize(a, limit);
      LastSize(b, limit);
      SameCount(|a| - 1, |b| - 1, limit, |a[|a| - 1]|, |b[|b| - 1]|);
      LastAlike(a, b);
      FramingIsUnique(a[..|a| - 1], b[..|b| - 1], limit);
      assert a == a[..|a| - 1] + [a[|a| - 1]];
    }
  }

  lemma {:induction false} LastAlike(a: seq<Bytes>, b: seq<Bytes>)
    requires a != [] && b != [] && Flat(a) == Flat(b) && |a[|a| - 1]| == |b[|b| - 1]|
    ensures a[|a| - 1] == b[|b| - 1] && Flat(a[..|a| - 1]) == Flat(b[..|b| - 1])
  {
    var x, y := Flat(a[..|a| - 1]), Flat(b[..|b| - 1]);
    assert |x| == |y|;
    assert x == (x + a[|a| - 1])[..|x|] && y == (y + b[|b| - 1])[..|y|];
    assert a[|a| - 1] == (x + a[|a| - 1])[|x|..] && b[|b| - 1] == (y + b[|b| - 1])[|y|..];
  }

  /** The chunks the generator yields for the values the reader returns. */
  method StreamChunks(input: seq<Bytes>, limit: nat) returns (yielded: seq<Bytes>)
    requires limit > 0
    ensures Flat(yielded) == Flat(input) && Framed(yielded, limit)
  {
    yielded := [];
    var chunks: seq<Bytes> := [];
    var bufferedBytes := 0;
    for n := 0 to |input|
      invariant Full(yielded, limit) && bufferedBytes == |Flat(chunks)| < limit
      invariant Flat(yielded) + Flat(chunks) == Flat(input[..n])
    {
      FlatNext(input, n);
      var remaining := input[n];
      while |remaining| > 0
        invariant Full(yielded, limit) && bufferedBytes == |Flat(chunks)| < limit
        invariant Flat(yielded) + Flat(chunks) + remaining == Flat(input[..n + 1])
        decreases |remaining|
      {
        var take := if |remaining| < limit - bufferedBytes then |remaining| else limit - bufferedBytes;
        var part := remaining[..take];
        chunks := chunks + [part];
        bufferedBytes := bufferedBytes + |part|;
        remaining := remaining[take..];
        if bufferedBytes == limit {
          yielded := yielded + [Flat(chunks)];
          chunks := [];
          bufferedBytes := 0;
        }
      }
    }
    assert input[..|input|] == input;
    if bufferedBytes > 0 {
      yielded := yielded + [Flat(chunks)];
    }
  }

  // ---------------------------------------------------------------------------------------------
  // Uploading the chunks
  // ---------------------------------------------------------------------------------------------

  /** The header `bytes first-last/size` (section 14.4 of RFC 9110). */
  datatype Range = Range(first: nat, last: int, size: nat)

  /** Each range starts where the one before it ended, the first at zero. */
  ghost predicate Contiguous(ranges: seq<Range>, end: nat) {
    if ranges == [] then end == 0
    else
      var last := ranges[|ranges| - 1];
      last.first <= last.last && last.last + 1 == end && Contiguous(ranges[..|ranges| - 1], last.first)
  }

  predicate Within(r: Range, p: int) {
    r.first <= p <= r.last
  }

  ghost predicate InSome(ranges: seq<Range>, p: int) {
    exists i :: 0 <= i < |ranges| && Within(ranges[i], p)
  }

  /** Contiguous ranges hold every byte up to their end exactly once. */
  lemma {:induction false} EveryByteOnce(ranges: seq<Range>, end: nat)
    requires Contiguous(ranges, end)
    ensures forall p :: InSome(ranges, p) <==> 0 <= p < end
    ensures forall i, j, p :: 0 <= i < j < |ranges| && Within(ranges[i], p) ==> !Within(ranges[j], p)
    decreases |ranges|
  {
    if ranges != [] {
      var front, last := ranges[..|ranges| - 1], ranges[|ranges| - 1];
      EveryByteOnce(front, last.first);
      assert forall i :: 0 <= i < |front| ==> front[i] == ranges[i];
      forall p ensures InSome(ranges, p) <==> 0 <= p < end {
        assert InSome(ranges, p) <==> InSome(front, p) || Within(ranges[|ranges| - 1], p);
      }
      forall i, j, p | 0 <= i < j < |ranges| && Within(ranges[i], p) ensures !Within(ranges[j], p) {
        assert Within(front[i], p);
        assert InSome(front, p);
        assert j < |front| ==> !Within(front[j], p);
      }
    }
  }

  /** The ranges cover the announced size, and nothing beyond it. */
  ghost predicate Covers(ranges: seq<Range>, size: nat) {
    forall p :: InSome(ranges, p) <==> 0 <= p < size
  }

  lemma {:induction false} PartAt(parts: seq<Bytes>, n: nat)
    requires n < |parts|
    ensures var start := |Flat(parts[..n])|;
      start + |parts[n]| <= |Flat(parts)| && Flat(parts)[start..start + |parts[n]|] == parts[n]
    decreases |parts|
  {
    var front := parts[..|parts| - 1];
    if n < |front| {
      PartAt(front, n);
      assert front[..n] == parts[..n];
    }
  }

  /** A request announces the whole size and carries exactly the bytes its header names. */
  ghost predicate Sends(r: Range, body: Bytes, all: Bytes, size: nat) {
    r.size == size && 0 <= r.first <= r.last < |all| && body == all[r.first..r.last + 1]
  }

  /** Uploads the chunks one after the other and checks at the end that they make up the announced size. */
  method UploadChunks(
      input: seq<Bytes>, limit: nat, size: nat) returns (ranges: seq<Range>, sent: seq<Bytes>, accepted: bool)
    requires limit > 0
    ensures |ranges| == |sent| && Framed(sent, limit) && Flat(sent) == Flat(input)
    ensures forall i :: 0 <= i < |ranges| ==> Sends(ranges[i], sent[i], Flat(input), size)
    ensures Contiguous(ranges, |Flat(input)|)
    ensures accepted <==> |Flat(input)| == size
    ensures accepted <==> Covers(ranges, size)
  {
    sent := StreamChunks(input, limit);
    ranges := [];
    var offset := 0;
    for n := 0 to |sent|
      invariant |ranges| == n && offset == |Flat(sent[..n])| && Contiguous(ranges, offset)
      invariant forall i :: 0 <= i < n ==> Sends(ranges[i], sent[i], Flat(sent), size)
    {
      FlatNext(sent, n);
      PartAt(sent, n);
      ranges := ranges + [Range(offset, offset + |sent[n]| - 1, size)];
      offset := offset + |sent[n]|;
    }
    assert sent[..|sent|] == sent;
    accepted := offset == size;
    CoversIffSize(ranges, offset, size);
  }

  lemma {:induction false} CoversIffSize(ranges: seq<Range>, end: nat, size: nat)
    requires Contiguous(ranges, end)
    ensures Covers(ranges, size) <==> end == size
  {
    EveryByteOnce(ranges, end);
    if end != size {
      var p := if end < size then end else size;
      assert InSome(ranges, p) <==> 0 <= p < end;
    }
  }

  /** Every header names a range inside its size exactly when no more bytes come than were announced. */
  lemma {:induction false} HeadersValidIff(ranges: seq<Range>, end: nat, size: nat)
    requires Contiguous(ranges, end)
    ensures (forall i :: 0 <= i < |ranges| ==> ranges[i].last < size) <==> end <= size
    decreases |ranges|
  {
    if ranges != [] {
      var front, last := ranges[..|ranges| - 1], ranges[|ranges| - 1];
      HeadersValidIff(front, last.first, size);
      forall i | 0 <= i < |front| ensures front[i] == ranges[i] {}
      assert last == ranges[|ranges| - 1];
    }
  }
}
