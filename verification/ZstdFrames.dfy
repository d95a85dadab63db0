/** The frame format of the compressed stream: what a writer emits, what a reader makes of any
    byte string, and why the second undoes the first under every cut and every read size. */
module ZstdFrames {
  import opened Bytes
  import Uvarint

  /** The compression library: a compressor that may fail, its inverse, and its size bound. */
  datatype Codec = Codec(
    compress: (int, seq<byte>) -> Option<seq<byte>>,
    decompress: seq<byte> -> Option<seq<byte>>,
    bound: nat -> nat)

  ghost predicate Lawful(c: Codec) {
    forall level: int, x: seq<byte> ::
      c.compress(level, x).Some? ==> c.decompress(c.compress(level, x).value) == Some(x)
  }

  datatype Params = Params(level: int, minSize: int, chunkSize: int)

  const MAX_STORED: nat := 0x4000_0000

  // ----- Writing -----

  datatype Frame = Frame(compressed: bool, payload: seq<byte>)

  /** Compress a chunk only when header and payload together come out strictly shorter. */
  function MakeFrame(c: Codec, p: Params, chunk: seq<byte>): Frame {
    if |chunk| >= p.minSize && |chunk| < c.bound(|chunk|) then
      match c.compress(p.level, chunk)
      case Some(z) =>
        if |z| + 1 + |Uvarint.Encode(|z|)| < |chunk| then Frame(true, z) else Frame(false, chunk)
      case None => Frame(false, chunk)
    else Frame(false, chunk)
  }

  function FrameBytes(f: Frame): seq<byte> {
    [if f.compressed then 1 else 0] + Uvarint.Encode(|f.payload|) + f.payload
  }

  function Chunks(size: int, data: seq<byte>): seq<seq<byte>>
    requires size > 0
    decreases |data|
  {
    if data == [] then []
    else if |data| <= size then [data]
    else [data[..size]] + Chunks(size, data[size..])
  }

  ghost predicate Sized(cs: seq<seq<byte>>, size: int) {
    forall i :: 0 <= i < |cs| ==> 0 < |cs[i]| <= size
  }

  /** Cutting into chunks loses, adds and reorders nothing, and makes no chunk empty or oversized. */
  lemma {:induction false} ChunksSplit(size: int, data: seq<byte>)
    requires size > 0
    ensures Flatten(Chunks(size, data)) == data && Sized(Chunks(size, data), size)
    decreases |data|
  {
    if |data| > size {
      ChunksSplit(size, data[size..]);
      var rest := Chunks(size, data[size..]);
      assert ([data[..size]] + rest)[1..] == rest;
      assert data == data[..size] + data[size..];
    }
  }

  /** The wire form of a list of chunks. */
  function Wire(c: Codec, p: Params, chunks: seq<seq<byte>>): seq<byte> {
    if chunks == [] then [] else FrameBytes(MakeFrame(c, p, chunks[0])) + Wire(c, p, chunks[1..])
  }

  /** The chunks of a whole sequence of Write calls: no chunk spans two calls. */
  function WriteChunks(size: int, writes: seq<seq<byte>>): seq<seq<byte>>
    requires size > 0
  {
    if writes == [] then [] else Chunks(size, writes[0]) + WriteChunks(size, writes[1..])
  }

  lemma {:induction false} WriteChunksSplit(size: int, writes: seq<seq<byte>>)
    requires size > 0
    ensures Flatten(WriteChunks(size, writes)) == Flatten(writes) && Sized(WriteChunks(size, writes), size)
  {
    if writes != [] {
      ChunksSplit(size, writes[0]);
      WriteChunksSplit(size, writes[1..]);
      FlattenAppend(Chunks(size, writes[0]), WriteChunks(size, writes[1..]));
    }
  }

  lemma {:induction false} WireAppend(c: Codec, p: Params, a: seq<seq<byte>>, b: seq<seq<byte>>)
    ensures Wire(c, p, a + b) == Wire(c, p, a) + Wire(c, p, b)
  {
    if a == [] {
      assert a + b == b;
    } else {
      assert (a + b)[1..] == a[1..] + b;
      WireAppend(c, p, a[1..], b);
    }
  }

  /** Frames, compressed frames, original bytes and stored bytes. */
  datatype Stats = Stats(frames: nat, compressed: nat, orig: nat, stored: nat) {
    function Plus(o: Stats): Stats {
      Stats(frames + o.frames, compressed + o.compressed, orig + o.orig, stored + o.stored)
    }
  }

  const ZERO := Stats(0, 0, 0, 0)

  function FrameStats(f: Frame, chunk: seq<byte>): Stats {
    Stats(1, if f.compressed then 1 else 0, |chunk|, |f.payload|)
  }

  function WriterStats(c: Codec, p: Params, chunks: seq<seq<byte>>): Stats {
    if chunks == [] then ZERO
    else FrameStats(MakeFrame(c, p, chunks[0]), chunks[0]).Plus(WriterStats(c, p, chunks[1..]))
  }

  /** A compressed frame is strictly shorter than its chunk, and chosen whenever it is; a raw one costs its
      header. */
  lemma FrameCost(c: Codec, p: Params, chunk: seq<byte>)
    ensures var f := MakeFrame(c, p, chunk);
            && |f.payload| <= |chunk|
            && (f.compressed ==> |FrameBytes(f)| < |chunk|)
            && (!f.compressed ==> f.payload == chunk && |FrameBytes(f)| == |chunk| + 1 + |Uvarint.Encode(|chunk|)|)
            && (f.compressed ==> |chunk| >= p.minSize && c.compress(p.level, chunk) == Some(f.payload))
            && (p.minSize <= |chunk| < c.bound(|chunk|) && c.compress(p.level, chunk).Some? ==>
                  var z := Frame(true, c.compress(p.level, chunk).value);
                  |FrameBytes(z)| < |chunk| ==> f == z)
  {}

  lemma FrameFits(c: Codec, p: Params, chunk: seq<byte>)
    requires |chunk| <= p.chunkSize
    ensures |FrameBytes(MakeFrame(c, p, chunk))| <= |chunk| + 1 + |Uvarint.Encode(p.chunkSize)|
  {
    FrameCost(c, p, chunk);
    Uvarint.LengthMonotone(|chunk|, p.chunkSize);
  }

  /** ceil(n / size) */
  function CeilDiv(n: nat, size: int): (q: nat)
    requires size > 0
    ensures n <= q * size && (n == 0 ==> q == 0) && (n > 0 ==> q > 0 && (q - 1) * size < n)
  {
    if n == 0 then 0
    else if n <= size then 1
    else
      var q := CeilDiv(n - size, size);
      OneMore(q, size);
      1 + q
  }

  lemma OneMore(q: int, size: int)
    ensures (1 + q) * size == size + q * size && (q - 1) * size == q * size - size
  {}

  lemma {:induction false} ChunkCount(size: int, data: seq<byte>)
    requires size > 0
    ensures |Chunks(size, data)| == CeilDiv(|data|, size)
    decreases |data|
  {
    if |data| > size {
      ChunkCount(size, data[size..]);
    }
  }

  lemma {:induction false} HeadersBound(c: Codec, p: Params, chunks: seq<seq<byte>>, head: nat)
    requires forall i :: 0 <= i < |chunks| ==> |FrameBytes(MakeFrame(c, p, chunks[i]))| <= |chunks[i]| + head
    ensures |Wire(c, p, chunks)| <= |Flatten(chunks)| + |chunks| * head
  {
    if chunks != [] {
      HeadersBound(c, p, chunks[1..], head);
      OneMore(|chunks| - 1, head);
    }
  }

  lemma FramesFit(c: Codec, p: Params, chunks: seq<seq<byte>>)
    requires Sized(chunks, p.chunkSize)
    ensures forall i :: 0 <= i < |chunks| ==>
              |FrameBytes(MakeFrame(c, p, chunks[i]))| <= |chunks[i]| + 1 + |Uvarint.Encode(p.chunkSize)|
  {
    forall i | 0 <= i < |chunks|
      ensures |FrameBytes(MakeFrame(c, p, chunks[i]))| <= |chunks[i]| + 1 + |Uvarint.Encode(p.chunkSize)|
    {
      FrameFits(c, p, chunks[i]);
    }
  }

  /** An N-byte write costs at most one header of the largest size per chunk. */
  lemma WireBound(c: Codec, p: Params, data: seq<byte>)
    requires p.chunkSize > 0
    ensures |Wire(c, p, Chunks(p.chunkSize, data))|
         <= |data| + CeilDiv(|data|, p.chunkSize) * (1 + |Uvarint.Encode(p.chunkSize)|)
  {
    var chunks, head := Chunks(p.chunkSize, data), 1 + |Uvarint.Encode(p.chunkSize)|;
    ChunksSplit(p.chunkSize, data);
    FramesFit(c, p, chunks);
    HeadersBound(c, p, chunks, head);
    ChunkCount(p.chunkSize, data);
  }

  // ----- Reading -----

  datatype ReadError = EOF | UnexpectedEOF | VarintOverflow | BadPayload

  datatype Parsed =
    | Complete(out: seq<byte>, compressed: bool, stored: nat, rest: seq<byte>)
    | Broken(error: ReadError, rest: seq<byte>)

  /** ReadFull's verdict when only `have` of the wanted bytes exist. */
  function ShortRead(have: nat): ReadError { if have == 0 then EOF else UnexpectedEOF }

  /** One frame off the front of any byte string. */
  function ParseFrame(c: Codec, w: seq<byte>): Parsed {
    if w == [] then Broken(EOF, [])
    else
      match Uvarint.DecodeFrom(w[1..], 0)
      case Truncated => Broken(ShortRead(|w| - 1), [])
      case Overflow(rest) => Broken(VarintOverflow, rest)
      case Got(n, rest) =>
        if n > MAX_STORED then Broken(UnexpectedEOF, rest)
        else if |rest| < n then Broken(ShortRead(|rest|), [])
        else if w[0] % 2 == 1 then
          match c.decompress(rest[..n])
          case Some(out) => Complete(out, true, n, rest[n..])
          case None => Broken(BadPayload, rest[n..])
        else Complete(rest[..n], false, n, rest[n..])
  }

  lemma ParseShrinks(c: Codec, w: seq<byte>)
    ensures ParseFrame(c, w).Complete? ==> |ParseFrame(c, w).rest| < |w|
  {
    if w != [] {
      Uvarint.DecodeConsumes(w[1..], 0);
    }
  }

  /** Everything a reader will ever deliver from w: the frames up to the first that is broken,
      truncated or empty (an empty frame makes the leftover buffer report end of file). */
  function Payload(c: Codec, w: seq<byte>): seq<byte>
    decreases |w|
  {
    match ParseFrame(c, w)
    case Complete(out, _, _, rest) =>
      if out == [] then [] else (ParseShrinks(c, w); out + Payload(c, rest))
    case Broken(_, _) => []
  }

  datatype Reader = Reader(buf: seq<byte>, wire: seq<byte>, stats: Stats)

  datatype ReadResult = ReadResult(data: seq<byte>, error: Option<ReadError>, next: Reader)

  /** bytes.Buffer.Read on the leftover buffer. */
  function ReadBuffer(r: Reader, n: nat): ReadResult {
    if r.buf == [] then ReadResult([], if n == 0 then None else Some(EOF), r)
    else
      var k := Min(n, |r.buf|);
      ReadResult(r.buf[..k], None, r.(buf := r.buf[k..]))
  }

  /** ZstdDuplex.Read: leftovers first, otherwise exactly one frame. */
  function Read(c: Codec, r: Reader, n: nat): ReadResult {
    if r.buf != [] then ReadBuffer(r, n)
    else
      match ParseFrame(c, r.wire)
      case Broken(e, rest) => ReadResult([], Some(e), r.(wire := rest))
      case Complete(out, z, stored, rest) =>
        ReadBuffer(Reader(out, rest, r.stats.Plus(Stats(1, if z then 1 else 0, |out|, stored))), n)
  }

  /** What is still to be delivered. */
  function Remaining(c: Codec, r: Reader): seq<byte> { r.buf + Payload(c, r.wire) }

  lemma BufferTakesPrefix(c: Codec, r: Reader, n: nat)
    requires n > 0 && r.buf != []
    ensures var o := ReadBuffer(r, n);
            && o.error.None? && |o.data| == Min(n, |r.buf|) && o.data + Remaining(c, o.next) == Remaining(c, r)
            && (n >= |r.buf| ==> o.next.buf == [])
  {
    var o := ReadBuffer(r, n);
    assert o.data + o.next.buf == r.buf;
    assert o.data + (o.next.buf + Payload(c, r.wire)) == (o.data + o.next.buf) + Payload(c, r.wire);
  }

  /** A non-empty read takes a non-empty bite off what remains, and fails only when nothing does. It takes as much
      as it may of the leftovers, or of the next frame when there are none. */
  lemma ReadTakesPrefix(c: Codec, r: Reader, n: nat)
    requires n > 0
    ensures var o := Read(c, r, n);
            && (o.error.Some? <==> Remaining(c, r) == [])
            && (o.error.Some? ==> o.data == [])
            && (o.error.None? ==> 0 < |o.data| <= n && o.data + Remaining(c, o.next) == Remaining(c, r))
            && (o.error.None? && |o.data| < n ==> o.next.buf == [])
            && (r.buf != [] ==> |o.data| == Min(n, |r.buf|) && o.next.wire == r.wire)
  {
    if r.buf != [] {
      BufferTakesPrefix(c, r, n);
    } else {
      assert Remaining(c, r) == Payload(c, r.wire);
      match ParseFrame(c, r.wire)
      case Broken(_, _) =>
      case Complete(out, z, stored, rest) =>
        if out != [] {
          BufferTakesPrefix(c, Reader(out, rest, r.stats.Plus(Stats(1, if z then 1 else 0, |out|, stored))), n);
        }
    }
  }

  lemma StoredFits(n: nat)
    requires n <= MAX_STORED
    ensures n < Uvarint.Limit(0)
  {
    Uvarint.LimitIs64Bits();
  }

  lemma HeaderParses(flag: byte, n: nat, rest: seq<byte>)
    requires n < Uvarint.Limit(0)
    ensures Uvarint.DecodeFrom(([flag] + Uvarint.Encode(n) + rest)[1..], 0) == Uvarint.Got(n, rest)
  {
    Uvarint.RoundTrip(n, rest, 0);
    assert ([flag] + Uvarint.Encode(n) + rest)[1..] == Uvarint.Encode(n) + rest;
  }

  /** Of the flag byte only the lowest bit counts, and it says whether the payload is compressed. */
  lemma ParseAny(c: Codec, flag: byte, payload: seq<byte>, rest: seq<byte>)
    requires |payload| <= 0x4000_0000
    ensures ParseFrame(c, [flag] + Uvarint.Encode(|payload|) + payload + rest) ==
            if flag % 2 == 0 then Complete(payload, false, |payload|, rest)
            else match c.decompress(payload)
                 case Some(out) => Complete(out, true, |payload|, rest)
                 case None => Broken(BadPayload, rest)
  {
    var head := [flag] + Uvarint.Encode(|payload|);
    StoredFits(|payload|);
    HeaderParses(flag, |payload|, payload + rest);
    assert head + payload + rest == head + (payload + rest);
    assert (payload + rest)[..|payload|] == payload;
    assert (payload + rest)[|payload|..] == rest;
  }

  /** A frame that announces more than 2^30 bytes is refused before any of them is read. */
  lemma OversizeRefused(c: Codec, flag: byte, n: nat, rest: seq<byte>)
    requires 0x4000_0000 < n < 0x1_0000_0000_0000_0000
    ensures ParseFrame(c, [flag] + Uvarint.Encode(n) + rest) == Broken(UnexpectedEOF, rest)
  {
    Uvarint.LimitIs64Bits();
    HeaderParses(flag, n, rest);
  }

  lemma ParseBytes(c: Codec, f: Frame, rest: seq<byte>)
    requires |f.payload| <= MAX_STORED
    ensures ParseFrame(c, FrameBytes(f) + rest) ==
            if !f.compressed then Complete(f.payload, false, |f.payload|, rest)
            else match c.decompress(f.payload)
                 case Some(out) => Complete(out, true, |f.payload|, rest)
                 case None => Broken(BadPayload, rest)
  {
    ParseAny(c, if f.compressed then 1 else 0, f.payload, rest);
  }

  /** Parsing undoes framing in front of any further bytes. */
  lemma ParseWritten(c: Codec, p: Params, chunk: seq<byte>, rest: seq<byte>)
    requires Lawful(c) && |chunk| <= MAX_STORED
    ensures var f := MakeFrame(c, p, chunk);
            ParseFrame(c, FrameBytes(f) + rest) == Complete(chunk, f.compressed, |f.payload|, rest)
  {
    FrameCost(c, p, chunk);
    ParseBytes(c, MakeFrame(c, p, chunk), rest);
  }

  lemma CutAfterFlag(flag: seq<byte>, len: seq<byte>, payload: seq<byte>, k: nat)
    requires |flag| == 1 && 0 < k <= |flag + len + payload|
    ensures (flag + len + payload)[..k][1..] ==
            if k - 1 < |len| then len[..k - 1] else len + payload[..k - 1 - |len|]
  {
    var rest := (flag + len + payload)[..k][1..];
    if k - 1 < |len| {
      assert rest == len[..k - 1];
    } else {
      assert rest == len + payload[..k - 1 - |len|];
    }
  }

  /** A frame cut anywhere before its last byte is not a frame. The error is a plain end of file exactly when the
      cut lies before the frame or right behind its flag or its length. */
  lemma ParseCut(c: Codec, p: Params, chunk: seq<byte>, k: nat)
    requires |chunk| <= MAX_STORED && k < |FrameBytes(MakeFrame(c, p, chunk))|
    ensures var f := MakeFrame(c, p, chunk);
            ParseFrame(c, FrameBytes(f)[..k]) ==
              Broken(if k <= 1 || k == 1 + |Uvarint.Encode(|f.payload|)| then EOF else UnexpectedEOF, [])
  {
    var f := MakeFrame(c, p, chunk);
    FrameCost(c, p, chunk);
    var len := Uvarint.Encode(|f.payload|);
    StoredFits(|f.payload|);
    if k > 0 {
      CutAfterFlag([if f.compressed then 1 else 0], len, f.payload, k);
      if k - 1 < |len| {
        Uvarint.CutIsTruncated(|f.payload|, k - 1, 0);
      } else {
        Uvarint.RoundTrip(|f.payload|, f.payload[..k - 1 - |len|], 0);
      }
    }
  }

  /** The encoded frames, one by one. */
  ghost function Frames(c: Codec, p: Params, chunks: seq<seq<byte>>): seq<seq<byte>> {
    seq(|chunks|, i requires 0 <= i < |chunks| => FrameBytes(MakeFrame(c, p, chunks[i])))
  }

  /** How many leading frames lie wholly within the first k bytes of the wire. */
  ghost function CompleteFrames(c: Codec, p: Params, chunks: seq<seq<byte>>, k: nat): nat {
    Whole(Frames(c, p, chunks), k)
  }

  lemma CompleteFirst(c: Codec, p: Params, chunks: seq<seq<byte>>, k: nat)
    requires chunks != []
    ensures var size := |FrameBytes(MakeFrame(c, p, chunks[0]))|;
            CompleteFrames(c, p, chunks, k) ==
              if k < size then 0 else 1 + CompleteFrames(c, p, chunks[1..], k - size)
  {
    assert Frames(c, p, chunks)[1..] == Frames(c, p, chunks[1..]);
  }

  lemma PayloadCons(c: Codec, p: Params, chunk: seq<byte>, tail: seq<byte>)
    requires Lawful(c) && 0 < |chunk| <= MAX_STORED
    ensures Payload(c, FrameBytes(MakeFrame(c, p, chunk)) + tail) == chunk + Payload(c, tail)
  {
    ParseWritten(c, p, chunk, tail);
  }

  lemma {:induction false} WireOfFrames(c: Codec, p: Params, chunks: seq<seq<byte>>)
    ensures Wire(c, p, chunks) == Flatten(Frames(c, p, chunks))
    decreases |chunks|
  {
    if chunks != [] {
      assert Frames(c, p, chunks)[1..] == Frames(c, p, chunks[1..]);
      WireOfFrames(c, p, chunks[1..]);
    }
  }

  /** A cut wire is the wire of its complete frames and a proper beginning of the next one. */
  lemma WireCut(c: Codec, p: Params, chunks: seq<seq<byte>>, k: nat) returns (part: seq<byte>)
    requires k <= |Wire(c, p, chunks)|
    ensures var m := CompleteFrames(c, p, chunks, k);
            && Wire(c, p, chunks)[..k] == Wire(c, p, chunks[..m]) + part
            && (part != [] ==> m < |chunks| && part < FrameBytes(MakeFrame(c, p, chunks[m])))
  {
    var frames, m := Frames(c, p, chunks), CompleteFrames(c, p, chunks, k);
    WireOfFrames(c, p, chunks);
    WireOfFrames(c, p, chunks[..m]);
    assert frames[..m] == Frames(c, p, chunks[..m]);
    part := FlattenCut(frames, k);
  }

  lemma PayloadOfPart(c: Codec, p: Params, chunk: seq<byte>, part: seq<byte>)
    requires |chunk| <= MAX_STORED && part < FrameBytes(MakeFrame(c, p, chunk))
    ensures Payload(c, part) == []
  {
    assert part == FrameBytes(MakeFrame(c, p, chunk))[..|part|];
    ParseCut(c, p, chunk, |part|);
  }

  lemma {:induction false} PayloadWire(c: Codec, p: Params, chunks: seq<seq<byte>>, tail: seq<byte>)
    requires Lawful(c) && Sized(chunks, MAX_STORED)
    ensures Payload(c, Wire(c, p, chunks) + tail) == Flatten(chunks) + Payload(c, tail)
    decreases |chunks|
  {
    if chunks == [] {
      assert Wire(c, p, chunks) + tail == tail;
    } else {
      PayloadWire(c, p, chunks[1..], tail);
      var first, rest := FrameBytes(MakeFrame(c, p, chunks[0])), Wire(c, p, chunks[1..]);
      PayloadCons(c, p, chunks[0], rest + tail);
      assert (first + rest) + tail == first + (rest + tail);
    }
  }

  /** A wire cut at any byte carries exactly the chunks of its complete frames. */
  lemma CutPayload(c: Codec, p: Params, chunks: seq<seq<byte>>, k: nat)
    requires Lawful(c) && Sized(chunks, MAX_STORED) && k <= |Wire(c, p, chunks)|
    ensures Payload(c, Wire(c, p, chunks)[..k]) == Flatten(chunks[..CompleteFrames(c, p, chunks, k)])
  {
    var m := CompleteFrames(c, p, chunks, k);
    var part := WireCut(c, p, chunks, k);
    assert Payload(c, part) == [] by {
      if part != [] {
        PayloadOfPart(c, p, chunks[m], part);
      }
    }
    assert Payload(c, Wire(c, p, chunks[..m]) + part) == Flatten(chunks[..m]) + [] by {
      PayloadWire(c, p, chunks[..m], part);
    }
  }

  lemma {:induction false} UncutIsComplete(c: Codec, p: Params, chunks: seq<seq<byte>>, k: nat)
    requires k >= |Wire(c, p, chunks)|
    ensures CompleteFrames(c, p, chunks, k) == |chunks|
  {
    if chunks != [] {
      CompleteFirst(c, p, chunks, k);
      UncutIsComplete(c, p, chunks[1..], k - |FrameBytes(MakeFrame(c, p, chunks[0]))|);
    }
  }

  /** Reads of the given sizes, up to and including the first that fails. */
  function ReadAll(c: Codec, r: Reader, sizes: seq<nat>): ReadResult
    decreases |sizes|
  {
    if sizes == [] then ReadResult([], None, r)
    else
      var o := Read(c, r, sizes[0]);
      if o.error.Some? then o
      else
        var tail := ReadAll(c, o.next, sizes[1..]);
        ReadResult(o.data + tail.data, tail.error, tail.next)
  }

  lemma {:induction false} ReadAllTakesPrefix(c: Codec, r: Reader, sizes: seq<nat>)
    requires forall i :: 0 <= i < |sizes| ==> sizes[i] > 0
    ensures var o := ReadAll(c, r, sizes);
            && o.data <= Remaining(c, r)
            && (o.error.Some? ==> o.data == Remaining(c, r))
            && (o.error.None? ==> |o.data| >= |sizes|)
    decreases |sizes|
  {
    if sizes != [] {
      ReadTakesPrefix(c, r, sizes[0]);
      var o := Read(c, r, sizes[0]);
      if o.error.None? {
        ReadAllTakesPrefix(c, o.next, sizes[1..]);
      }
    }
  }

  /** The complete frames carry a prefix of what was written, and all of it when nothing was cut off. */
  lemma CompletePrefix(c: Codec, p: Params, writes: seq<seq<byte>>, k: nat)
    requires p.chunkSize > 0
    ensures var chunks := WriteChunks(p.chunkSize, writes);
            var expected := Flatten(chunks[..CompleteFrames(c, p, chunks, k)]);
            && expected <= Flatten(writes)
            && (k >= |Wire(c, p, chunks)| ==> expected == Flatten(writes))
  {
    var chunks := WriteChunks(p.chunkSize, writes);
    var m := CompleteFrames(c, p, chunks, k);
    WriteChunksSplit(p.chunkSize, writes);
    FlattenAppend(chunks[..m], chunks[m..]);
    assert chunks == chunks[..m] + chunks[m..];
    if k >= |Wire(c, p, chunks)| {
      UncutIsComplete(c, p, chunks, k);
      assert chunks[..m] == chunks;
    }
  }

  /** Every sequence of writes, every cut of the wire, every sequence of non-empty reads: the reader
      yields the chunks of the complete frames, in order, and then an error; it never stalls. */
  lemma CutStream(c: Codec, p: Params, writes: seq<seq<byte>>, k: nat, sizes: seq<nat>)
    requires Lawful(c) && 0 < p.chunkSize <= MAX_STORED
    requires k <= |Wire(c, p, WriteChunks(p.chunkSize, writes))|
    requires forall i :: 0 <= i < |sizes| ==> sizes[i] > 0
    ensures var chunks := WriteChunks(p.chunkSize, writes);
            var o := ReadAll(c, Reader([], Wire(c, p, chunks)[..k], ZERO), sizes);
            var expected := Flatten(chunks[..CompleteFrames(c, p, chunks, k)]);
            && o.data <= expected
            && (o.error.Some? ==> o.data == expected)
            && (|sizes| > |expected| ==> o.error.Some?)
            && expected <= Flatten(writes)
            && (k == |Wire(c, p, chunks)| ==> expected == Flatten(writes))
  {
    var chunks := WriteChunks(p.chunkSize, writes);
    var r := Reader([], Wire(c, p, chunks)[..k], ZERO);
    WriteChunksSplit(p.chunkSize, writes);
    CutPayload(c, p, chunks, k);
    assert Remaining(c, r) == Payload(c, r.wire);
    ReadAllTakesPrefix(c, r, sizes);
    CompletePrefix(c, p, writes, k);
  }

  // ----- Counters -----

  /** A reader part-way through a well-formed wire has counted exactly the frames it has taken off it. */
  ghost predicate InStep(c: Codec, p: Params, r: Reader, chunks: seq<seq<byte>>, total: Stats) {
    r.wire == Wire(c, p, chunks) && r.stats.Plus(WriterStats(c, p, chunks)) == total
  }

  /** What the four counters of a list of chunks say about it. */
  lemma {:induction false} CountersMean(c: Codec, p: Params, chunks: seq<seq<byte>>)
    ensures var t := WriterStats(c, p, chunks);
            && t.frames == |chunks| && t.orig == |Flatten(chunks)| && t.compressed <= t.frames
            && (t.compressed == 0 ==> t.stored == t.orig) && (t.compressed > 0 ==> t.stored < t.orig)
            && t.stored + 2 * t.frames <= |Wire(c, p, chunks)|
  {
    if chunks != [] {
      CountersMean(c, p, chunks[1..]);
      FrameCost(c, p, chunks[0]);
    }
  }

  lemma ZeroPlus(s: Stats)
    ensures ZERO.Plus(s) == s
  {}

  lemma StatsAssoc(a: Stats, b: Stats, d: Stats)
    ensures a.Plus(b).Plus(d) == a.Plus(b.Plus(d))
  {}

  lemma ReadKeepsStep(c: Codec, p: Params, r: Reader, chunks: seq<seq<byte>>, total: Stats, n: nat)
    returns (left: seq<seq<byte>>)
    requires Lawful(c) && Sized(chunks, MAX_STORED) && n > 0 && InStep(c, p, r, chunks, total)
    ensures Sized(left, MAX_STORED) && InStep(c, p, Read(c, r, n).next, left, total)
    ensures Read(c, r, n).error.Some? ==> left == []
  {
    left := chunks;
    if r.buf == [] && chunks != [] {
      ParseWritten(c, p, chunks[0], Wire(c, p, chunks[1..]));
      StatsAssoc(r.stats, FrameStats(MakeFrame(c, p, chunks[0]), chunks[0]), WriterStats(c, p, chunks[1..]));
      left := chunks[1..];
    }
  }

  lemma {:induction false} ReadAllKeepsStep(c: Codec, p: Params, r: Reader, chunks: seq<seq<byte>>,
                                            total: Stats, sizes: seq<nat>)
    requires Lawful(c) && Sized(chunks, MAX_STORED) && InStep(c, p, r, chunks, total)
    requires forall i :: 0 <= i < |sizes| ==> sizes[i] > 0
    ensures ReadAll(c, r, sizes).error.Some? ==> ReadAll(c, r, sizes).next.stats == total
    decreases |sizes|
  {
    if sizes != [] {
      var left := ReadKeepsStep(c, p, r, chunks, total, sizes[0]);
      ReadAllKeepsStep(c, p, Read(c, r, sizes[0]).next, left, total, sizes[1..]);
    }
  }

  lemma UncutRunsDry(c: Codec, p: Params, writes: seq<seq<byte>>, sizes: seq<nat>)
    requires Lawful(c) && 0 < p.chunkSize <= MAX_STORED
    requires forall i :: 0 <= i < |sizes| ==> sizes[i] > 0
    requires |sizes| > |Flatten(writes)|
    ensures ReadAll(c, Reader([], Wire(c, p, WriteChunks(p.chunkSize, writes)), ZERO), sizes).error.Some?
  {
    var w := Wire(c, p, WriteChunks(p.chunkSize, writes));
    CutStream(c, p, writes, |w|, sizes);
    assert w[..|w|] == w;
  }

  /** Once the whole wire has been read, the reader's four counters are the writer's four counters. */
  lemma CountersMirror(c: Codec, p: Params, writes: seq<seq<byte>>, sizes: seq<nat>)
    requires Lawful(c) && 0 < p.chunkSize <= MAX_STORED
    requires forall i :: 0 <= i < |sizes| ==> sizes[i] > 0
    requires |sizes| > |Flatten(writes)|
    ensures var chunks := WriteChunks(p.chunkSize, writes);
            ReadAll(c, Reader([], Wire(c, p, chunks), ZERO), sizes).next.stats == WriterStats(c, p, chunks)
  {
    var chunks := WriteChunks(p.chunkSize, writes);
    var r, total := Reader([], Wire(c, p, chunks), ZERO), WriterStats(c, p, chunks);
    assert ReadAll(c, r, sizes).error.Some? by { UncutRunsDry(c, p, writes, sizes); }
    WriteChunksSplit(p.chunkSize, writes);
    ZeroPlus(total);
    ReadAllKeepsStep(c, p, r, chunks, total, sizes);
  }
}
