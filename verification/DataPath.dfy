/** The data path: a stream, plain or compressed, that first carries one handshake message each way
    and then raw application bytes, with the copy loops at both ends. */
module DataPath {
  import opened Bytes
  import opened ZstdFrames
  import opened Zstd
  import Messages

  /** What sits under a messager or a copy loop: a base stream, with or without the zstd layer. */
  class DataStream {
    const base: Stream
    const z: ZstdDuplex?

    constructor (base: Stream, z: ZstdDuplex?)
      requires z != null ==> z.base == base
      ensures this.base == base && this.z == z
    {
      this.base, this.z := base, z;
    }

    ghost predicate Valid() {
      z != null ==> z.base == base && z.params.chunkSize > 0
    }

    ghost function Repr(): set<object> {
      if z == null then {base} else {base, z}
    }

    /** The bytes this end can still read. */
    ghost function Pending(): seq<byte>
      reads Repr()
      requires Valid()
    {
      if z == null then base.incoming else Remaining(z.codec, z.AsReader())
    }

    /** What a sequence of Write calls puts on the wire. */
    ghost function Encoded(writes: seq<seq<byte>>): seq<byte>
      requires Valid()
    {
      if z == null then Flatten(writes) else Wire(z.codec, z.params, WriteChunks(z.params.chunkSize, writes))
    }

    /** The wire carries exactly these writes since `before`, cut where the link gave out. */
    ghost predicate Carried(writes: seq<seq<byte>>, before: seq<byte>, room: nat)
      reads base
      requires Valid()
    {
      base.outgoing == Sent(before, Encoded(writes), room) && base.capacity == room - Min(|Encoded(writes)|, room)
    }

    /** These writes have passed on what src had, `had`, as far as it has been read. */
    ghost predicate Passed(writes: seq<seq<byte>>, before: seq<byte>, room: nat, src: DataStream, had: seq<byte>,
                           failed: bool, ended: bool)
      reads base, src.Repr()
      requires Valid() && src.Valid()
    {
      && Carried(writes, before, room) && (failed <==> |Encoded(writes)| > room)
      && if ended then Flatten(writes) == had else Flatten(writes) + src.Pending() == had
    }

    method Read(n: nat) returns (data: seq<byte>, error: Option<ReadError>)
      requires Valid() && n > 0
      modifies Repr()
      ensures old(Pending()) == [] ==> data == [] && error.Some?
      ensures old(Pending()) != [] ==> 0 < |data| <= n && data + Pending() == old(Pending())
      ensures old(Pending()) != [] && error.Some? ==> Pending() == []
      ensures base.outgoing == old(base.outgoing) && base.capacity == old(base.capacity)
    {
      if z == null {
        data, error := base.Read(n);
      } else {
        ReadTakesPrefix(z.codec, z.AsReader(), n);
        data, error := z.Read(n);
      }
    }

    method Write(p: seq<byte>) returns (n: nat, ok: bool)
      requires Valid()
      modifies Repr()
      ensures Carried([p], old(base.outgoing), old(base.capacity)) && Pending() == old(Pending())
      ensures ok == (|Encoded([p])| <= old(base.capacity)) && (ok ==> n == |p|)
    {
      assert Flatten([p]) == p;
      if z == null {
        n, ok := base.Write(p);
      } else {
        ghost var chunks := Chunks(z.params.chunkSize, p);
        assert WriteChunks(z.params.chunkSize, [p]) == chunks;
        ChunksSplit(z.params.chunkSize, p);
        EmitSends(z.codec, z.params, chunks, z.Written(0, true));
        n, ok := z.Write(p);
        assert ok ==> chunks[..|chunks|] == chunks;
      }
    }

    /** writeFull: keep writing the rest until everything is taken or the stream fails. */
    method WriteFull(p: seq<byte>) returns (ok: bool)
      requires Valid()
      modifies Repr()
      ensures Carried([p], old(base.outgoing), old(base.capacity)) && Pending() == old(Pending())
      ensures ok == (|Encoded([p])| <= old(base.capacity))
    {
      var off := 0;
      assert p[0..] == p;
      if p == [] {
        EncodedNothing();
      }
      while off < |p|
        invariant off == 0 || off == |p|
        invariant off == 0 ==> base.outgoing == old(base.outgoing) && base.capacity == old(base.capacity)
        invariant Pending() == old(Pending())
        invariant off == |p| ==>
                    Carried([p], old(base.outgoing), old(base.capacity)) && |Encoded([p])| <= old(base.capacity)
      {
        var n, taken := Write(p[off..]);
        if !taken {
          return false;
        }
        off := off + n;
      }
      return true;
    }

    lemma EncodedAppend(a: seq<seq<byte>>, b: seq<seq<byte>>)
      requires Valid()
      ensures Encoded(a + b) == Encoded(a) + Encoded(b)
    {
      if z == null {
        FlattenAppend(a, b);
      } else {
        WriteChunksAppend(z.params.chunkSize, a, b);
        WireAppend(z.codec, z.params, WriteChunks(z.params.chunkSize, a), WriteChunks(z.params.chunkSize, b));
      }
    }

    lemma EncodedNothing()
      requires Valid()
      ensures Encoded([]) == [] && Encoded([[]]) == []
    {
      var one: seq<seq<byte>> := [[]];
      assert one[1..] == [];
    }

    /** Carrying a and then b is carrying a + b; once the link has given out, b adds nothing. */
    lemma CarriedAppend(a: seq<seq<byte>>, b: seq<seq<byte>>, before: seq<byte>, room: nat)
      requires Valid()
      ensures |Encoded(a)| <= room && Carried(b, Sent(before, Encoded(a), room), room - |Encoded(a)|)
          ==> Carried(a + b, before, room)
      ensures |Encoded(a)| > room && Carried(a, before, room) ==> Carried(a + b, before, room)
    {
      EncodedAppend(a, b);
      SplitSend(before, Encoded(a), Encoded(b), room);
    }

    lemma CarriedAfter(first: seq<seq<byte>>, more: seq<seq<byte>>, before: seq<byte>, room: nat, sofar: seq<byte>)
      requires Valid() && |Encoded(first)| <= room && sofar == Sent(before, Encoded(first), room)
      requires Carried(more, sofar, room - |Encoded(first)|)
      ensures Carried(first + more, before, room)
      ensures |Encoded(first + more)| == |Encoded(first)| + |Encoded(more)|
    {
      EncodedAppend(first, more);
      CarriedAppend(first, more, before, room);
    }

    /** One more write carried after `sofar`. */
    lemma CarriedMore(sofar: seq<seq<byte>>, buf: seq<byte>, before: seq<byte>, room: nat)
      requires Valid() && |Encoded(sofar)| <= room
      requires Carried([buf], Sent(before, Encoded(sofar), room), room - |Encoded(sofar)|)
      ensures Carried(sofar + [buf], before, room)
      ensures |Encoded(sofar + [buf])| == |Encoded(sofar)| + |Encoded([buf])|
      ensures Flatten(sofar + [buf]) == Flatten(sofar) + buf
    {
      EncodedAppend(sofar, [buf]);
      CarriedAppend(sofar, [buf], before, room);
      FlattenAppend(sofar, [buf]);
      assert Flatten([buf]) == buf;
    }

    /** sendMessage: refuse what cannot be marshalled or is too long, otherwise length then body. */
    method SendMessage(pr: Messages.Proto, m: Messages.UnifiedMessage) returns (ok: bool)
      requires Valid()
      modifies Repr()
      ensures Pending() == old(Pending())
      ensures !Messages.Sendable(pr, m) ==>
                !ok && base.outgoing == old(base.outgoing) && base.capacity == old(base.capacity)
      ensures Messages.Sendable(pr, m) ==>
                && Carried(Messages.Writes(pr, m), old(base.outgoing), old(base.capacity))
                && ok == (|Encoded(Messages.Writes(pr, m))| <= old(base.capacity))
    {
      var data := pr.marshal(m);
      if data.None? || |data.value| > Messages.MAX_MESSAGE {
        return false;
      }
      ok := WriteBoth(Be32Bytes(|data.value|), data.value);
    }

    /** SendWithTTL: refuse more than a minute, otherwise stamp the message and send it. Every message that goes
        out this way carries between 1000 and 60000 milliseconds, 30000 when none were asked for. */
    method SendWithTTL(pr: Messages.Proto, m: Messages.UnifiedMessage, ttl: int)
      returns (ok: bool, stamped: Messages.UnifiedMessage)
      requires Valid()
      modifies Repr()
      ensures Pending() == old(Pending())
      ensures ttl > 60 * Messages.SECOND || !Messages.Sendable(pr, stamped) ==>
                !ok && base.outgoing == old(base.outgoing) && base.capacity == old(base.capacity)
      ensures stamped == if ttl > 60 * Messages.SECOND then m else m.(ttlMs := stamped.ttlMs)
      ensures ttl <= 60 * Messages.SECOND ==>
                && 1000 <= stamped.ttlMs <= 60_000
                && (ttl <= 0 ==> stamped.ttlMs == 30_000)
                && (0 < ttl < Messages.SECOND ==> stamped.ttlMs == 1000)
                && (ttl >= Messages.SECOND ==> 0 <= ttl - stamped.ttlMs * Messages.MILLISECOND < Messages.MILLISECOND)
                && (Messages.Sendable(pr, stamped) ==>
                      && Carried(Messages.Writes(pr, stamped), old(base.outgoing), old(base.capacity))
                      && ok == (|Encoded(Messages.Writes(pr, stamped))| <= old(base.capacity)))
    {
      var left := ttl;
      if left <= 0 {
        left := 30 * Messages.SECOND;
      }
      if left < Messages.SECOND {
        left := Messages.SECOND;
      }
      if left > 60 * Messages.SECOND {
        return false, m;
      }
      var ms := left / Messages.MILLISECOND;
      if ms == 0 {
        ms := 30_000;
      }
      stamped := m.(ttlMs := ms);
      ok := SendMessage(pr, stamped);
    }

    /** Two writes in a row, the second only if the first went through. */
    method WriteBoth(a: seq<byte>, b: seq<byte>) returns (ok: bool)
      requires Valid()
      modifies Repr()
      ensures Pending() == old(Pending())
      ensures Carried([a, b], old(base.outgoing), old(base.capacity))
      ensures ok == (|Encoded([a, b])| <= old(base.capacity))
    {
      ghost var before, room := base.outgoing, base.capacity;
      EncodedAppend([a], [b]);
      assert [a] + [b] == [a, b];
      ok := WriteFull(a);
      if !ok {
        CarriedAppend([a], [b], before, room);
        return;
      }
      ok := WriteFull(b);
      CarriedAppend([a], [b], before, room);
    }

    /** io.ReadFull over single reads. */
    method ReadFull(n: nat) returns (data: seq<byte>, ok: bool)
      requires Valid()
      modifies Repr()
      ensures ok == (n <= |old(Pending())|)
      ensures ok ==> data == old(Pending())[..n] && Pending() == old(Pending())[n..]
      ensures base.outgoing == old(base.outgoing) && base.capacity == old(base.capacity)
    {
      data := [];
      ghost var all := Pending();
      while |data| < n
        invariant |data| <= n && data + Pending() == all
        invariant base.outgoing == old(base.outgoing) && base.capacity == old(base.capacity)
        decreases n - |data|
      {
        ghost var rest := Pending();
        var more, error := Read(n - |data|);
        if more == [] {
          return data, false;
        }
        Regroup(data, more, Pending(), rest, all);
        data := data + more;
        if error.Some? && |data| < n {
          return data, false;
        }
      }
      return data, true;
    }

    /** receiveMessage takes exactly one message off the stream. */
    method ReceiveMessage(pr: Messages.Proto) returns (r: Option<Messages.UnifiedMessage>)
      requires Valid()
      modifies Repr()
      ensures match Messages.Parse(pr, old(Pending()))
              case Got(m, rest) => r == Some(m) && Pending() == rest
              case Failed => r == None
      ensures base.outgoing == old(base.outgoing) && base.capacity == old(base.capacity)
    {
      ghost var w := Pending();
      var head, ok := ReadFull(4);
      if !ok {
        return None;
      }
      var n := Be32(head);
      if n > Messages.MAX_MESSAGE {
        return None;
      }
      if n == 0 {
        return Some(Messages.DEFAULT);
      }
      var data;
      data, ok := ReadFull(n);
      if !ok {
        return None;
      }
      assert w[4..][..n] == w[4..4 + n] && w[4..][n..] == w[4 + n..];
      r := pr.unmarshal(data);
    }
  }

  lemma {:induction false} WriteChunksAppend(size: int, a: seq<seq<byte>>, b: seq<seq<byte>>)
    requires size > 0
    ensures WriteChunks(size, a + b) == WriteChunks(size, a) + WriteChunks(size, b)
  {
    if a == [] {
      assert a + b == b;
    } else {
      assert (a + b)[1..] == a[1..] + b;
      WriteChunksAppend(size, a[1..], b);
    }
  }

  /** How a turn of a copy loop leaves it: going on, at the end of its source, or with a failed write. */
  datatype Turn = Moved | SourceEnded | WriteFailed

  /** One turn of a copy loop: read some bytes from src, write them to dst. The last bytes of a source may come
      together with its end. */
  method CopyTurn(dst: DataStream, src: DataStream, ghost writes: seq<seq<byte>>,
                  ghost before: seq<byte>, ghost room: nat)
    returns (turn: Turn, ghost more: seq<seq<byte>>)
    requires dst.Valid() && src.Valid() && dst.Repr() !! src.Repr()
    requires dst.Carried(writes, before, room) && |dst.Encoded(writes)| <= room
    modifies dst.Repr(), src.Repr()
    ensures dst.Pending() == old(dst.Pending())
    ensures src.base.outgoing == old(src.base.outgoing) && src.base.capacity == old(src.base.capacity)
    ensures dst.Carried(more, before, room) && (turn == WriteFailed <==> |dst.Encoded(more)| > room)
    ensures turn != SourceEnded ==> Flatten(more) + src.Pending() == Flatten(writes) + old(src.Pending())
    ensures turn == SourceEnded ==> Flatten(more) == Flatten(writes) + old(src.Pending())
    ensures turn == Moved ==> |Flatten(more)| > |Flatten(writes)|
  {
    more := writes;
    ghost var had := src.Pending();
    var buf, rerr := src.Read(32 * 1024);
    ghost var left := src.Pending();
    if |buf| > 0 {
      var n, ok := dst.Write(buf);
      assert src.Pending() == left;
      dst.CarriedMore(writes, buf, before, room);
      Regroup(Flatten(writes), buf, left, had, Flatten(writes) + had);
      more := writes + [buf];
      if !ok {
        return WriteFailed, more;
      }
    }
    return if rerr.Some? then SourceEnded else Moved, more;
  }

  /** One direction of the pipe, for at most `turns` turns: everything written to dst was read from src, in order.
      The other half of either object is not touched. */
  method CopyLoop(dst: DataStream, src: DataStream, turns: nat) returns (turn: Turn, ghost writes: seq<seq<byte>>)
    requires dst.Valid() && src.Valid() && dst.Repr() !! src.Repr()
    modifies dst.Repr(), src.Repr()
    ensures dst.Pending() == old(dst.Pending())
    ensures src.base.outgoing == old(src.base.outgoing) && src.base.capacity == old(src.base.capacity)
    ensures dst.Carried(writes, old(dst.base.outgoing), old(dst.base.capacity))
    ensures turn == WriteFailed <==> |dst.Encoded(writes)| > old(dst.base.capacity)
    ensures Flatten(writes) <= old(src.Pending()) && (turn == SourceEnded ==> Flatten(writes) == old(src.Pending()))
    ensures turn == Moved ==> turns <= |Flatten(writes)|
  {
    turn, writes := Moved, [];
    var i := 0;
    dst.EncodedNothing();
    ghost var before, room := dst.base.outgoing, dst.base.capacity;
    while i < turns && turn == Moved
      invariant turn == Moved ==> i <= |Flatten(writes)|
      invariant dst.Pending() == old(dst.Pending())
      invariant src.base.outgoing == old(src.base.outgoing) && src.base.capacity == old(src.base.capacity)
      invariant dst.Carried(writes, before, room) && (turn == WriteFailed <==> |dst.Encoded(writes)| > room)
      invariant turn != SourceEnded ==> Flatten(writes) + src.Pending() == old(src.Pending())
      invariant turn == SourceEnded ==> Flatten(writes) == old(src.Pending())
      decreases turns - i
    {
      turn, writes := CopyTurn(dst, src, writes, before, room);
      i := i + 1;
    }
  }

  datatype Way = Out | In

  /** Why both directions ended: the local application or the link had no more to say or failed, or neither yet. */
  datatype Stop = AppEnded | LinkEnded | AppFailed | LinkFailed | Going

  /** A turn of one copy loop leaves the other where it was. */
  method PumpTurn(dst: DataStream, src: DataStream,
                  ghost writes: seq<seq<byte>>, ghost before: seq<byte>, ghost room: nat, ghost had: seq<byte>,
                  ghost back: seq<seq<byte>>, ghost backBefore: seq<byte>,
                  ghost backRoom: nat, ghost backHad: seq<byte>)
    returns (turn: Turn, ghost more: seq<seq<byte>>)
    requires dst.Valid() && src.Valid() && dst.Repr() !! src.Repr()
    requires dst.Passed(writes, before, room, src, had, false, false)
    requires src.Passed(back, backBefore, backRoom, dst, backHad, false, false)
    modifies dst.Repr(), src.Repr()
    ensures dst.Passed(more, before, room, src, had, turn == WriteFailed, turn == SourceEnded)
    ensures src.Passed(back, backBefore, backRoom, dst, backHad, false, false)
    ensures turn == Moved ==> |Flatten(more)| > |Flatten(writes)|
  {
    turn, more := CopyTurn(dst, src, writes, before, room);
  }

  /** One turn of either loop. */
  method EitherTurn(link: DataStream, app: DataStream, way: Way,
                    ghost outs: seq<seq<byte>>, ghost linkOut: seq<byte>, ghost linkRoom: nat, ghost toLink: seq<byte>,
                    ghost ins: seq<seq<byte>>, ghost appOut: seq<byte>, ghost appRoom: nat, ghost toApp: seq<byte>)
    returns (stop: Stop, ghost outs': seq<seq<byte>>, ghost ins': seq<seq<byte>>)
    requires link.Valid() && app.Valid() && link.Repr() !! app.Repr()
    requires link.Passed(outs, linkOut, linkRoom, app, toLink, false, false)
    requires app.Passed(ins, appOut, appRoom, link, toApp, false, false)
    modifies link.Repr(), app.Repr()
    ensures link.Passed(outs', linkOut, linkRoom, app, toLink, stop == LinkFailed, stop == AppEnded)
    ensures app.Passed(ins', appOut, appRoom, link, toApp, stop == AppFailed, stop == LinkEnded)
    ensures stop == Going ==> |Flatten(outs')| + |Flatten(ins')| > |Flatten(outs)| + |Flatten(ins)|
  {
    var turn;
    outs', ins' := outs, ins;
    if way == Out {
      turn, outs' := PumpTurn(link, app, outs, linkOut, linkRoom, toLink, ins, appOut, appRoom, toApp);
      stop := if turn == Moved then Going else if turn == SourceEnded then AppEnded else LinkFailed;
    } else {
      turn, ins' := PumpTurn(app, link, ins, appOut, appRoom, toApp, outs, linkOut, linkRoom, toLink);
      stop := if turn == Moved then Going else if turn == SourceEnded then LinkEnded else AppFailed;
    }
  }

  /** BothWithIdle: the two copy loops on one pair of objects, their turns interleaved by an arbitrary schedule,
      until either direction ends. Each direction passes on a prefix of what its source had. */
  method Pump(link: DataStream, app: DataStream, schedule: seq<Way>)
    returns (stop: Stop, ghost outs: seq<seq<byte>>, ghost ins: seq<seq<byte>>)
    requires link.Valid() && app.Valid() && link.Repr() !! app.Repr()
    modifies link.Repr(), app.Repr()
    ensures link.Carried(outs, old(link.base.outgoing), old(link.base.capacity))
    ensures app.Carried(ins, old(app.base.outgoing), old(app.base.capacity))
    ensures Flatten(outs) <= old(app.Pending()) && Flatten(ins) <= old(link.Pending())
    ensures stop == AppEnded ==> Flatten(outs) == old(app.Pending())
    ensures stop == LinkEnded ==> Flatten(ins) == old(link.Pending())
    ensures stop == LinkFailed <==> |link.Encoded(outs)| > old(link.base.capacity)
    ensures stop == AppFailed <==> |app.Encoded(ins)| > old(app.base.capacity)
    ensures stop == Going ==> |schedule| <= |Flatten(outs)| + |Flatten(ins)|
  {
    stop, outs, ins := Going, [], [];
    link.EncodedNothing();
    app.EncodedNothing();
    ghost var linkOut, linkRoom, toApp := link.base.outgoing, link.base.capacity, link.Pending();
    ghost var appOut, appRoom, toLink := app.base.outgoing, app.base.capacity, app.Pending();
    var i := 0;
    while i < |schedule| && stop == Going
      invariant 0 <= i <= |schedule| && (stop == Going ==> i <= |Flatten(outs)| + |Flatten(ins)|)
      invariant link.Passed(outs, linkOut, linkRoom, app, toLink, stop == LinkFailed, stop == AppEnded)
      invariant app.Passed(ins, appOut, appRoom, link, toApp, stop == AppFailed, stop == LinkEnded)
      decreases |schedule| - i
    {
      stop, outs, ins := EitherTurn(link, app, schedule[i], outs, linkOut, linkRoom, toLink,
                                    ins, appOut, appRoom, toApp);
      i := i + 1;
    }
  }

  /** The same once the link has carried `first`. */
  method PumpAfter(link: DataStream, app: DataStream, schedule: seq<Way>,
                   ghost first: seq<seq<byte>>, ghost before: seq<byte>, ghost room: nat)
    returns (stop: Stop, ghost outs: seq<seq<byte>>, ghost ins: seq<seq<byte>>)
    requires link.Valid() && app.Valid() && link.Repr() !! app.Repr()
    requires link.Carried(first, before, room) && |link.Encoded(first)| <= room
    modifies link.Repr(), app.Repr()
    ensures link.Carried(first + outs, before, room)
    ensures app.Carried(ins, old(app.base.outgoing), old(app.base.capacity))
    ensures Flatten(outs) <= old(app.Pending()) && Flatten(ins) <= old(link.Pending())
    ensures stop == AppEnded ==> Flatten(outs) == old(app.Pending()) && |link.Encoded(first + outs)| <= room
    ensures stop == LinkEnded ==>
              Flatten(ins) == old(link.Pending()) && |app.Encoded(ins)| <= old(app.base.capacity)
    ensures stop == LinkFailed ==> |link.Encoded(first + outs)| > room
    ensures stop == AppFailed ==> |app.Encoded(ins)| > old(app.base.capacity)
    ensures stop == Going ==> |schedule| <= |Flatten(outs)| + |Flatten(ins)|
  {
    ghost var used, sofar := |link.Encoded(first)|, link.base.outgoing;
    assert sofar == Sent(before, link.Encoded(first), room) && link.base.capacity == room - used;
    stop, outs, ins := Pump(link, app, schedule);
    link.CarriedAfter(first, outs, before, room, sofar);
  }

  lemma Regroup(a: seq<byte>, b: seq<byte>, c: seq<byte>, bc: seq<byte>, all: seq<byte>)
    requires b + c == bc && a + bc == all
    ensures (a + b) + c == all && a + b <= all
  {
    assert (a + b) + c == a + (b + c);
  }
}
