/** The compressed duplex as the objects that run it: a base stream and the codec state on top. */
module Zstd {
  import opened Bytes
  import Uvarint
  import opened ZstdFrames

  /** What a link with the given room has passed on after a write of p. */
  function Sent(before: seq<byte>, p: seq<byte>, room: nat): seq<byte> { before + p[..Min(|p|, room)] }

  /** A reliable ordered byte stream. `incoming` is what the peer's bytes still amount to before the
      stream ends; `capacity` is how many more bytes it accepts before its writes fail. */
  class Stream {
    var incoming: seq<byte>
    var outgoing: seq<byte>
    var capacity: nat

    constructor (input: seq<byte>, room: nat)
      ensures incoming == input && outgoing == [] && capacity == room
    {
      incoming, outgoing, capacity := input, [], room;
    }

    method Write(p: seq<byte>) returns (n: nat, ok: bool)
      modifies this`outgoing, this`capacity
      ensures n == Min(|p|, old(capacity)) && ok == (|p| <= old(capacity))
      ensures outgoing == Sent(old(outgoing), p, old(capacity)) && capacity == old(capacity) - n
    {
      n := Min(|p|, capacity);
      ok := n == |p|;
      outgoing, capacity := outgoing + p[..n], capacity - n;
    }

    /** io.ReadFull: all n bytes, or an error after consuming whatever was there. */
    method ReadFull(n: nat) returns (data: seq<byte>, error: Option<ReadError>)
      modifies this`incoming
      ensures n <= |old(incoming)| ==>
                error == None && data == old(incoming)[..n] && incoming == old(incoming)[n..]
      ensures n > |old(incoming)| ==>
                error == Some(ShortRead(|old(incoming)|)) && incoming == [] && data == old(incoming)
    {
      if n <= |incoming| {
        data, error, incoming := incoming[..n], None, incoming[n..];
      } else {
        data, error, incoming := incoming, Some(ShortRead(|incoming|)), [];
      }
    }

    /** A plain read: any non-empty part of what has been sent, up to n bytes. The end of the stream may be
        reported with the last bytes or by a read of its own. */
    method Read(n: nat) returns (data: seq<byte>, error: Option<ReadError>)
      requires n > 0
      modifies this`incoming
      ensures old(incoming) == [] ==> data == [] && incoming == [] && error.Some?
      ensures old(incoming) != [] ==> 0 < |data| <= n && data + incoming == old(incoming)
      ensures error.Some? ==> incoming == []
    {
      if incoming == [] {
        data, error := [], Some(EOF);
      } else {
        var k: nat :| 0 < k <= n && k <= |incoming|;
        data, error, incoming := incoming[..k], None, incoming[k..];
        var early: bool := *;
        if incoming == [] && early {
          error := Some(EOF);
        }
      }
    }

    /** binary.ReadUvarint, a byte at a time. */
    method ReadUvarint() returns (value: nat, error: Option<ReadError>)
      modifies this`incoming
      ensures match Uvarint.DecodeFrom(old(incoming), 0)
              case Got(v, rest) => error == None && value == v && incoming == rest
              case Truncated => error == Some(ShortRead(|old(incoming)|)) && incoming == []
              case Overflow(rest) => error == Some(VarintOverflow) && incoming == rest
    {
      value := 0;
      var scale: nat, i := 1, 0;
      while i < Uvarint.MAX_BYTES
        invariant 0 <= i <= Uvarint.MAX_BYTES && |incoming| + i == |old(incoming)|
        invariant match Uvarint.DecodeFrom(incoming, i)
                  case Got(v, rest) => Uvarint.DecodeFrom(old(incoming), 0) == Uvarint.Got(value + scale * v, rest)
                  case other => Uvarint.DecodeFrom(old(incoming), 0) == other
      {
        var one, short := ReadFull(1);
        if short.Some? {
          return 0, Some(if i > 0 then UnexpectedEOF else EOF);
        }
        var b := one[0];
        if b < 0x80 {
          if i == Uvarint.MAX_BYTES - 1 && b > 1 {
            return value, Some(VarintOverflow);
          }
          return value + scale * b, None;
        }
        ScaleStep(value, scale, b - 0x80, incoming, i + 1);
        value, scale, i := value + scale * (b - 0x80), scale * 0x80, i + 1;
      }
      return value, Some(VarintOverflow);
    }
  }

  lemma ScaleStep(value: nat, scale: nat, low: nat, w: seq<byte>, i: nat)
    requires i <= Uvarint.MAX_BYTES
    ensures match Uvarint.DecodeFrom(w, i)
            case Got(v, _) => value + scale * (low + 0x80 * v) == value + scale * low + scale * 0x80 * v
            case _ => true
  {}

  class ZstdDuplex {
    const base: Stream
    const codec: Codec
    const params: Params
    var readBuf: seq<byte>
    var readStats: Stats
    var writeStats: Stats

    constructor (base: Stream, codec: Codec, params: Params)
      ensures this.base == base && this.codec == codec && this.params == params
      ensures readBuf == [] && readStats == ZERO && writeStats == ZERO
    {
      this.base, this.codec, this.params := base, codec, params;
      readBuf, readStats, writeStats := [], ZERO, ZERO;
    }

    ghost function AsReader(): Reader
      reads this, base
    {
      Reader(readBuf, base.incoming, readStats)
    }

    method TakeBuffered(n: nat) returns (data: seq<byte>, error: Option<ReadError>)
      modifies this`readBuf
      ensures var o := ReadBuffer(old(AsReader()), n);
              data == o.data && error == o.error && AsReader() == o.next
    {
      if readBuf == [] {
        data, error := [], if n == 0 then None else Some(EOF);
      } else {
        var k := Min(n, |readBuf|);
        data, error, readBuf := readBuf[..k], None, readBuf[k..];
      }
    }

    /** Read does what the value-level reader does to the leftover buffer, the wire and the counters. */
    method Read(n: nat) returns (data: seq<byte>, error: Option<ReadError>)
      modifies this`readBuf, this`readStats, base`incoming
      ensures var o := ZstdFrames.Read(codec, old(AsReader()), n);
              data == o.data && error == o.error && AsReader() == o.next
    {
      if readBuf != [] {
        data, error := TakeBuffered(n);
        return;
      }
      var out, e := ReadFrame();
      if e.Some? {
        return [], e;
      }
      readBuf := out;
      data, error := TakeBuffered(n);
    }

    /** The part of Read that takes one frame off the base stream and counts it. */
    method ReadFrame() returns (out: seq<byte>, error: Option<ReadError>)
      modifies this`readStats, base`incoming
      ensures match ParseFrame(codec, old(base.incoming))
              case Broken(e, rest) => error == Some(e) && base.incoming == rest && readStats == old(readStats)
              case Complete(data, z, stored, rest) =>
                && error == None && out == data && base.incoming == rest
                && readStats == old(readStats).Plus(Stats(1, if z then 1 else 0, |out|, stored))
    {
      out := [];
      var flag;
      flag, error := base.ReadFull(1);
      if error.Some? {
        return;
      }
      var stored: nat;
      stored, error := base.ReadUvarint();
      if error.Some? {
        return;
      }
      if stored > MAX_STORED {
        return [], Some(UnexpectedEOF);
      }
      out, error := base.ReadFull(stored);
      if error.Some? {
        return;
      }
      if flag[0] % 2 == 1 {
        var z := codec.decompress(out);
        if z.None? {
          return [], Some(BadPayload);
        }
        out := z.value;
        readStats := readStats.(compressed := readStats.compressed + 1);
      }
      readStats := readStats.(frames := readStats.frames + 1,
                              orig := readStats.orig + |out|,
                              stored := readStats.stored + stored);
    }

    /** Flag, length, payload: three writes, any of which may be cut short. */
    method WriteFrame(f: Frame) returns (ok: bool)
      modifies base`outgoing, base`capacity
      ensures base.outgoing == Sent(old(base.outgoing), FrameBytes(f), old(base.capacity))
      ensures base.capacity == old(base.capacity) - Min(|FrameBytes(f)|, old(base.capacity))
      ensures ok == (|FrameBytes(f)| <= old(base.capacity))
    {
      var flag: seq<byte> := [if f.compressed then 1 else 0];
      var len := Uvarint.Put(|f.payload|);
      SplitSend(base.outgoing, flag, len + f.payload, base.capacity);
      assert FrameBytes(f) == flag + (len + f.payload);
      var n;
      n, ok := base.Write(flag);
      if ok {
        SplitSend(base.outgoing, len, f.payload, base.capacity);
        n, ok := base.Write(len);
        if ok {
          n, ok := base.Write(f.payload);
        }
      }
    }

    /** The writer's decision for one chunk. */
    method ChooseFrame(chunk: seq<byte>) returns (f: Frame)
      ensures f == MakeFrame(codec, params, chunk)
    {
      f := Frame(false, chunk);
      if |chunk| >= params.minSize && |chunk| < codec.bound(|chunk|) {
        var z := codec.compress(params.level, chunk);
        if z.Some? {
          var head := Uvarint.UvarintLen(|z.value|);
          if |z.value| + 1 + head < |chunk| {
            f := Frame(true, z.value);
          }
        }
      }
    }

    /** One turn of the write loop: choose, count, emit. */
    method WriteChunk(chunk: seq<byte>, ghost n: nat) returns (ok: bool)
      modifies this`writeStats, base`outgoing, base`capacity
      ensures Written(if ok then n + |chunk| else n, ok) == EmitOne(codec, params, chunk, old(Written(n, true)))
    {
      var f := ChooseFrame(chunk);
      if f.compressed {
        writeStats := writeStats.(compressed := writeStats.compressed + 1);
      }
      ok := WriteFrame(f);
      if ok {
        writeStats := writeStats.(frames := writeStats.frames + 1,
                                  orig := writeStats.orig + |chunk|,
                                  stored := writeStats.stored + |f.payload|);
      }
    }

    ghost function Written(n: nat, ok: bool): Outcome
      reads this, base
    {
      Outcome(base.outgoing, base.capacity, writeStats, n, ok)
    }

    /** Write emits the chunks of p one frame after the other until the base fails; it reports the
        bytes of the completely written chunks. The reading half is untouched. */
    method Write(p: seq<byte>) returns (n: nat, ok: bool)
      requires params.chunkSize > 0
      modifies this`writeStats, base`outgoing, base`capacity
      ensures Written(n, ok) == Emit(codec, params, Chunks(params.chunkSize, p), old(Written(0, true)))
    {
      n, ok := 0, true;
      var off := 0;
      ghost var rest := Chunks(params.chunkSize, p);
      ghost var goal := Emit(codec, params, rest, Written(0, true));
      assert p[0..] == p;
      while off < |p|
        invariant 0 <= off <= |p| && ok
        invariant rest == Chunks(params.chunkSize, p[off..])
        invariant Emit(codec, params, rest, Written(n, true)) == goal
      {
        var end := if off + params.chunkSize > |p| then |p| else off + params.chunkSize;
        var chunk := p[off..end];
        NextChunk(params.chunkSize, p, off);
        rest := Chunks(params.chunkSize, p[end..]);
        ghost var next := EmitOne(codec, params, chunk, Written(n, true));
        EmitCons(codec, params, chunk, rest, Written(n, true));
        assert goal == if next.ok then Emit(codec, params, rest, next) else next;
        ok := WriteChunk(chunk, n);
        if !ok {
          return;
        }
        n := n + |chunk|;
        assert Written(n, true) == next;
        off := end;
      }
    }
  }

  /** The writing half: bytes passed on, room left, counters, input bytes reported, still healthy. */
  datatype Outcome = Outcome(sent: seq<byte>, room: nat, stats: Stats, n: nat, ok: bool)

  /** What the write loop does with a list of chunks. */
  function Emit(c: Codec, p: Params, chunks: seq<seq<byte>>, s: Outcome): Outcome
    decreases |chunks|
  {
    if chunks == [] then s
    else
      var next := EmitOne(c, p, chunks[0], s);
      if next.ok then Emit(c, p, chunks[1..], next) else next
  }

  /** One frame of it. */
  function EmitOne(c: Codec, p: Params, chunk: seq<byte>, s: Outcome): Outcome {
    var f := MakeFrame(c, p, chunk);
    var size := |FrameBytes(f)|;
    var sent := Sent(s.sent, FrameBytes(f), s.room);
    if size <= s.room then Outcome(sent, s.room - size, s.stats.Plus(FrameStats(f, chunk)), s.n + |chunk|, true)
    else Outcome(sent, 0, WithAttempt(s.stats, f), s.n, false)
  }

  lemma EmitCons(c: Codec, p: Params, chunk: seq<byte>, rest: seq<seq<byte>>, s: Outcome)
    ensures var next := EmitOne(c, p, chunk, s);
            Emit(c, p, [chunk] + rest, s) == if next.ok then Emit(c, p, rest, next) else next
  {
    assert ([chunk] + rest)[1..] == rest;
  }

  /** A write sends the wire form of its chunks, cut where the link gives out. It succeeds exactly when
      all of it fits, and reports exactly the chunks whose frames went out whole. */
  lemma {:induction false} EmitSends(c: Codec, p: Params, chunks: seq<seq<byte>>, s: Outcome)
    requires s.ok
    ensures var o := Emit(c, p, chunks, s);
            var wire := Wire(c, p, chunks);
            var m := CompleteFrames(c, p, chunks, s.room);
            && o.ok == (|wire| <= s.room)
            && o.sent == Sent(s.sent, wire, s.room)
            && o.room == s.room - Min(|wire|, s.room)
            && o.n == s.n + |Flatten(chunks[..m])|
            && (o.ok <==> m == |chunks|)
    decreases |chunks|
  {
    if chunks != [] {
      var f := MakeFrame(c, p, chunks[0]);
      CompleteFirst(c, p, chunks, s.room);
      SplitSend(s.sent, FrameBytes(f), Wire(c, p, chunks[1..]), s.room);
      if |FrameBytes(f)| <= s.room {
        EmitSends(c, p, chunks[1..], EmitOne(c, p, chunks[0], s));
        var m := CompleteFrames(c, p, chunks, s.room);
        assert chunks[..m][1..] == chunks[1..][..m - 1];
      }
    }
  }

  /** The writer's counters are those of the frames that went out whole, and of a compressed frame that did not
      only the attempt: after a failed write `compressed` may be one ahead of `frames`. */
  lemma {:induction false} EmitCounts(c: Codec, p: Params, chunks: seq<seq<byte>>, s: Outcome)
    requires s.ok
    ensures var o := Emit(c, p, chunks, s);
            var m := CompleteFrames(c, p, chunks, s.room);
            var counted := s.stats.Plus(WriterStats(c, p, chunks[..m]));
            && m <= |chunks|
            && o.stats == if m == |chunks| then counted else WithAttempt(counted, MakeFrame(c, p, chunks[m]))
    decreases |chunks|
  {
    if chunks == [] {
      ZeroRight(s.stats);
    } else {
      var f := MakeFrame(c, p, chunks[0]);
      CompleteFirst(c, p, chunks, s.room);
      if |FrameBytes(f)| <= s.room {
        EmitCounts(c, p, chunks[1..], EmitOne(c, p, chunks[0], s));
        var m := CompleteFrames(c, p, chunks, s.room);
        assert chunks[..m][1..] == chunks[1..][..m - 1];
        StatsAssoc(s.stats, FrameStats(f, chunks[0]), WriterStats(c, p, chunks[1..][..m - 1]));
      } else {
        ZeroRight(s.stats);
      }
    }
  }

  /** A failed frame has already been counted as compressed when it was going to be. */
  function WithAttempt(s: Stats, f: Frame): Stats {
    if f.compressed then s.(compressed := s.compressed + 1) else s
  }

  /** Sending a and then b through a link with limited room sends a cut of a + b. */
  lemma SplitSend(before: seq<byte>, a: seq<byte>, b: seq<byte>, room: nat)
    ensures Sent(before, a + b, room)
         == if room < |a| then Sent(before, a, room) else Sent(Sent(before, a, room), b, room - |a|)
  {
    var k := Min(|a + b|, room);
    if room < |a| {
      assert (a + b)[..k] == a[..k];
    } else {
      assert (a + b)[..k] == a + b[..k - |a|];
    }
  }

  lemma NextChunk(size: int, p: seq<byte>, off: nat)
    requires size > 0 && off < |p|
    ensures var end := if off + size > |p| then |p| else off + size;
            Chunks(size, p[off..]) == [p[off..end]] + Chunks(size, p[end..])
  {
    if off + size < |p| {
      assert p[off..][size..] == p[off + size..] && p[off..][..size] == p[off..off + size];
    } else {
      assert p[off..] == p[off..|p|];
    }
  }

  lemma ZeroRight(s: Stats)
    ensures s.Plus(ZERO) == s
  {}

}
