/** Data connections end to end: the service handshake and both copy directions over one stream, seen from the
    two applications. */
module Connection {
  import opened Bytes
  import opened ZstdFrames
  import opened Zstd
  import opened DataPath
  import Messages
  import Services
  import Uvarint

  /** The wire form of a sequence of writes on a plain or a compressed stream. */
  ghost function OnWire(c: Codec, p: Params, zstd: bool, writes: seq<seq<byte>>): seq<byte>
    requires p.chunkSize > 0
  {
    if zstd then Wire(c, p, WriteChunks(p.chunkSize, writes)) else Flatten(writes)
  }

  /** What a fresh reader at the other end can get out of w. */
  ghost function Arriving(c: Codec, zstd: bool, w: seq<byte>): seq<byte> {
    if zstd then Payload(c, w) else w
  }

  lemma ArrivesAsPrefix(c: Codec, p: Params, zstd: bool, writes: seq<seq<byte>>, k: nat)
    requires ZstdFrames.Lawful(c) && 0 < p.chunkSize <= MAX_STORED && k <= |OnWire(c, p, zstd, writes)|
    ensures Arriving(c, zstd, OnWire(c, p, zstd, writes)[..k]) <= Flatten(writes)
    ensures k == |OnWire(c, p, zstd, writes)| ==> Arriving(c, zstd, OnWire(c, p, zstd, writes)[..k]) == Flatten(writes)
  {
    if zstd {
      WriteChunksSplit(p.chunkSize, writes);
      CutPayload(c, p, WriteChunks(p.chunkSize, writes), k);
      CompletePrefix(c, p, writes, k);
    }
  }

  /** The handshake neither eats nor leaks a byte: however the stream is cut, the receiver either gets the
      message as sent and is left with a prefix of the application bytes, or gets nothing at all. */
  lemma HandshakeThenBytes(c: Codec, p: Params, zstd: bool, pr: Messages.Proto,
                           m: Messages.UnifiedMessage, app: seq<seq<byte>>, k: nat)
    requires ZstdFrames.Lawful(c) && 0 < p.chunkSize <= MAX_STORED
    requires Messages.Lawful(pr) && Messages.Sendable(pr, m)
    requires k <= |OnWire(c, p, zstd, Messages.Writes(pr, m) + app)|
    ensures var wire := OnWire(c, p, zstd, Messages.Writes(pr, m) + app);
            match Messages.Parse(pr, Arriving(c, zstd, wire[..k]))
            case Got(got, rest) => got == m && rest <= Flatten(app) && (k == |wire| ==> rest == Flatten(app))
            case Failed => k < |wire|
  {
    var writes := Messages.Writes(pr, m) + app;
    var w := Arriving(c, zstd, OnWire(c, p, zstd, writes)[..k]);
    ArrivesAsPrefix(c, p, zstd, writes, k);
    FlattenAppend(Messages.Writes(pr, m), app);
    Messages.ParseSent(pr, m, Flatten(app), w);
  }

  /** A fresh stream over link, wrapped when the service is compressed. */
  method Open(link: Stream, c: Codec, p: Params, zstd: bool) returns (end: DataStream)
    requires p.chunkSize > 0
    ensures end.Valid() && end.base == link && fresh(end.Repr() - {link})
    ensures end.Pending() == Arriving(c, zstd, link.incoming)
    ensures Encodes(end, c, p, zstd)
  {
    var z := new ZstdDuplex(link, c, p);
    end := new DataStream(link, if zstd then z else null);
  }

  lemma SentFromEmpty(p: seq<byte>, room: nat)
    ensures Sent([], p, room) <= p && (|p| <= room ==> Sent([], p, room) == p)
  {}

  /** The wire an end produces on a fresh link. */
  ghost function WireOf(c: Codec, p: Params, zstd: bool, pr: Messages.Proto, first: Option<Messages.UnifiedMessage>,
                        outs: seq<seq<byte>>, room: nat): seq<byte>
    requires p.chunkSize > 0
  {
    if first.Some? && Messages.Sendable(pr, first.value) then
      Sent([], OnWire(c, p, zstd, Messages.Writes(pr, first.value) + outs), room)
    else []
  }

  /** What any part of that wire yields at the other end: nothing, or that message and a prefix of the writes. */
  lemma WireYields(c: Codec, p: Params, zstd: bool, pr: Messages.Proto, first: Option<Messages.UnifiedMessage>,
                   outs: seq<seq<byte>>, room: nat, part: seq<byte>)
    requires ZstdFrames.Lawful(c) && 0 < p.chunkSize <= MAX_STORED && Messages.Lawful(pr)
    requires part <= WireOf(c, p, zstd, pr, first, outs, room)
    ensures match Messages.Parse(pr, Arriving(c, zstd, part))
            case Got(m, rest) => first == Some(m) && rest <= Flatten(outs)
            case Failed => true
    ensures first.Some? && Messages.Sendable(pr, first.value)
            && part == OnWire(c, p, zstd, Messages.Writes(pr, first.value) + outs) ==>
              Messages.Parse(pr, Arriving(c, zstd, part)) == Messages.Got(first.value, Flatten(outs))
  {
    if first.Some? && Messages.Sendable(pr, first.value) {
      var full := OnWire(c, p, zstd, Messages.Writes(pr, first.value) + outs);
      SentFromEmpty(full, room);
      assert part == full[..|part|];
      HandshakeThenBytes(c, p, zstd, pr, first.value, outs, |part|);
    } else {
      assert Arriving(c, zstd, []) == [];
    }
  }

  // ----- One direction, driven through -----

  /** Room on the wire for n bytes however they are split into writes: at worst a header for each. */
  function WireRoom(p: Params, n: nat): nat
    requires p.chunkSize > 0
  {
    n * (2 + |Uvarint.Encode(p.chunkSize)|)
  }

  lemma {:induction false} FewChunks(chunks: seq<seq<byte>>, size: int)
    requires Sized(chunks, size)
    ensures |chunks| <= |Flatten(chunks)|
  {
    if chunks != [] {
      FewChunks(chunks[1..], size);
    }
  }

  lemma OnWireBound(c: Codec, p: Params, zstd: bool, writes: seq<seq<byte>>)
    requires p.chunkSize > 0
    ensures |OnWire(c, p, zstd, writes)| <= WireRoom(p, |Flatten(writes)|)
  {
    if zstd {
      var chunks, head := WriteChunks(p.chunkSize, writes), 1 + |Uvarint.Encode(p.chunkSize)|;
      WriteChunksSplit(p.chunkSize, writes);
      FramesFit(c, p, chunks);
      HeadersBound(c, p, chunks, head);
      FewChunks(chunks, p.chunkSize);
      Grow(|chunks|, |Flatten(chunks)|, head);
      assert WireRoom(p, |Flatten(writes)|) == |Flatten(writes)| * (1 + head);
    } else {
      Grow(1, 2 + |Uvarint.Encode(p.chunkSize)|, |Flatten(writes)|);
    }
  }

  lemma RoomEnough(c: Codec, p: Params, zstd: bool, first: seq<seq<byte>>, body: seq<seq<byte>>, n: nat)
    requires p.chunkSize > 0 && |Flatten(body)| <= n
    ensures |OnWire(c, p, zstd, first + body)| <= WireRoom(p, |Flatten(first)| + n)
  {
    OnWireBound(c, p, zstd, first + body);
    FlattenAppend(first, body);
    Grow(|Flatten(first + body)|, |Flatten(first)| + n, 2 + |Uvarint.Encode(p.chunkSize)|);
  }

  /** With that much room nothing is cut off. */
  lemma AmpleRoom(c: Codec, p: Params, zstd: bool, first: seq<seq<byte>>, body: seq<seq<byte>>, n: nat, room: nat)
    requires p.chunkSize > 0 && |Flatten(body)| <= n
    ensures var full, enough := OnWire(c, p, zstd, first + body), WireRoom(p, |Flatten(first)| + n);
            |full| <= enough && (room >= enough ==> |full| <= room && Sent([], full, room) == full)
  {
    RoomEnough(c, p, zstd, first, body, n);
    SentFromEmpty(OnWire(c, p, zstd, first + body), room);
  }

  lemma Grow(a: nat, b: nat, c: nat)
    requires a <= b
    ensures a * c <= b * c && b + a * c <= b * (1 + c)
  {}

  /** The near end of a connection: send the handshake message, then pump the local application's bytes,
      over a link that fails after `room` bytes, for at most `turns` turns. */
  method NearEnd(c: Codec, p: Params, zstd: bool, pr: Messages.Proto, m: Messages.UnifiedMessage, app: seq<byte>,
                 room: nat, turns: nat)
    returns (wire: seq<byte>, ghost body: seq<seq<byte>>)
    requires p.chunkSize > 0
    ensures wire == WireOf(c, p, zstd, pr, Some(m), body, room) && Flatten(body) <= app
    ensures Whole(c, p, zstd, pr, Some(m), body, room) && turns > |app| ==> Flatten(body) == app
  {
    var link := new Stream([], room);
    var near := Open(link, c, p, zstd);
    var local := OpenLocal(app, 0);
    body := SendThenCopy(near, local, pr, m, turns);
    SpokeOnWire(near, c, p, zstd, pr, Some(m), body, room);
    AllOutIsWhole(near, c, p, zstd, pr, Some(m), body, room);
    return link.outgoing, body;
  }

  method SendThenCopy(link: DataStream, local: DataStream, pr: Messages.Proto, m: Messages.UnifiedMessage, turns: nat)
    returns (ghost body: seq<seq<byte>>)
    requires link.Valid() && local.Valid() && link.Repr() !! local.Repr()
    modifies link.Repr(), local.Repr()
    ensures Spoke(link, pr, Some(m), body, old(link.base.outgoing), old(link.base.capacity))
    ensures Flatten(body) <= old(local.Pending())
    ensures AllOut(link, pr, Some(m), body, old(link.base.capacity)) && turns > |old(local.Pending())| ==>
              Flatten(body) == old(local.Pending())
  {
    ghost var out0, room := link.base.outgoing, link.base.capacity;
    body := [];
    var sent := link.SendMessage(pr, m);
    if Messages.Sendable(pr, m) {
      assert Messages.Writes(pr, m) + [] == Messages.Writes(pr, m);
    }
    if sent {
      body := CopyAfter(link, local, turns, Messages.Writes(pr, m), out0, room);
    }
  }

  /** A copy loop once its destination has carried `first`. */
  method CopyAfter(dst: DataStream, src: DataStream, turns: nat,
                   ghost first: seq<seq<byte>>, ghost before: seq<byte>, ghost room: nat)
    returns (ghost body: seq<seq<byte>>)
    requires dst.Valid() && src.Valid() && dst.Repr() !! src.Repr()
    requires dst.Carried(first, before, room) && |dst.Encoded(first)| <= room
    modifies dst.Repr(), src.Repr()
    ensures dst.Carried(first + body, before, room) && Flatten(body) <= old(src.Pending())
    ensures |dst.Encoded(first + body)| <= room && turns > |old(src.Pending())| ==> Flatten(body) == old(src.Pending())
  {
    ghost var sofar := dst.base.outgoing;
    var turn;
    turn, body := CopyLoop(dst, src, turns);
    dst.CarriedAfter(first, body, before, room, sofar);
  }

  /** The far end: receive exactly one message, then pump what follows to an application that accepts
      `room` bytes, for at most `turns` turns. */
  method FarEnd(c: Codec, p: Params, zstd: bool, pr: Messages.Proto, wire: seq<byte>, room: nat, turns: nat)
    returns (handshake: Option<Messages.UnifiedMessage>, far: seq<byte>)
    requires p.chunkSize > 0
    ensures match Messages.Parse(pr, Arriving(c, zstd, wire))
            case Got(m, rest) =>
              handshake == Some(m) && far <= rest && (turns > |rest| && room >= |rest| ==> far == rest)
            case Failed => handshake == None && far == []
  {
    var link := new Stream(wire, 0);
    var end := Open(link, c, p, zstd);
    handshake := end.ReceiveMessage(pr);
    far := [];
    if handshake.Some? {
      far := Deliver(end, room, turns);
    }
  }

  /** Pump what is left of a stream to an application that accepts `room` bytes. */
  method Deliver(end: DataStream, room: nat, turns: nat) returns (far: seq<byte>)
    requires end.Valid()
    modifies end.Repr()
    ensures far <= old(end.Pending())
    ensures turns > |old(end.Pending())| && room >= |old(end.Pending())| ==> far == old(end.Pending())
  {
    var appConn := new Stream([], room);
    var local := new DataStream(appConn, null);
    var turn;
    ghost var body;
    turn, body := CopyLoop(local, end, turns);
    SentFromEmpty(Flatten(body), room);
    return appConn.outgoing;
  }

  /** One direction of a forwarded connection, through the objects at both ends: the link may fail after
      `room` bytes, everything after byte `cut` may be lost on the way, and either pump may be stopped after
      any number of turns. What the far application is given is always a prefix of what the near one wrote, and
      all of it when room, cut and turns are large enough for it. */
  method RelayOneWay(c: Codec, p: Params, zstd: bool, pr: Messages.Proto, m: Messages.UnifiedMessage, app: seq<byte>,
                     room: nat, cut: nat, farRoom: nat, nearTurns: nat, farTurns: nat)
    returns (handshake: Option<Messages.UnifiedMessage>, far: seq<byte>)
    requires ZstdFrames.Lawful(c) && 0 < p.chunkSize <= MAX_STORED && Messages.Lawful(pr)
    ensures far <= app
    ensures handshake.Some? ==> handshake == Some(m)
    ensures handshake.None? ==> far == []
    ensures Messages.Sendable(pr, m) && nearTurns > |app| ==>
              var enough := WireRoom(p, |Flatten(Messages.Writes(pr, m))| + |app|);
              room >= enough && cut >= enough ==>
                handshake == Some(m) && (farTurns > |app| && farRoom >= |app| ==> far == app)
  {
    var wire, body := NearEnd(c, p, zstd, pr, m, app, room, nearTurns);
    var part := wire[..Min(cut, |wire|)];
    handshake, far := FarEnd(c, p, zstd, pr, part, farRoom, farTurns);
    WireYields(c, p, zstd, pr, Some(m), body, room, part);
    if Messages.Sendable(pr, m) {
      AmpleRoom(c, p, zstd, Messages.Writes(pr, m), body, |app|, room);
    }
  }

  // ----- Both directions on one pair of objects -----

  /** What an end has put on its link: the message it owed, if it could, and then these writes. */
  ghost predicate Spoke(link: DataStream, pr: Messages.Proto, first: Option<Messages.UnifiedMessage>,
                        outs: seq<seq<byte>>, before: seq<byte>, room: nat)
    reads link.base
    requires link.Valid()
  {
    if first.Some? && Messages.Sendable(pr, first.value) then
      link.Carried(Messages.Writes(pr, first.value) + outs, before, room)
    else link.base.outgoing == before && outs == []
  }

  /** Nothing of it was lost to a full link. */
  ghost predicate AllOut(link: DataStream, pr: Messages.Proto, first: Option<Messages.UnifiedMessage>,
                         outs: seq<seq<byte>>, room: nat)
    requires link.Valid()
  {
    && first.Some? && Messages.Sendable(pr, first.value)
    && |link.Encoded(Messages.Writes(pr, first.value) + outs)| <= room
  }

  /** What is behind the one message an end takes off its link, if it gets it. */
  ghost function Behind(pr: Messages.Proto, arrived: seq<byte>): Option<seq<byte>> {
    match Messages.Parse(pr, arrived)
    case Got(_, rest) => Some(rest)
    case Failed => None
  }

  predicate Accepted(m: Messages.UnifiedMessage) { m.kind == Messages.SERVICE_RESPONSE && m.success }

  /** What an end has done when it stops. It owed the message `first`, its link had `room` and brought `rest` behind
      the other's message, its application says `app` and accepts `sink` bytes; out0 and app0 were sent before. Unless
      the handshake went through (`open`) nothing is copied; once it has, only an ended source, a failed write or the
      end of the schedule, every turn of which moved something, stops the copying. */
  ghost predicate Done(link: DataStream, user: DataStream, pr: Messages.Proto, first: Option<Messages.UnifiedMessage>,
                       open: bool, turns: nat, stop: Stop, outs: seq<seq<byte>>, ins: seq<seq<byte>>, out0: seq<byte>,
                       room: nat, rest: Option<seq<byte>>, app0: seq<byte>, sink: nat, app: seq<byte>)
    reads link.base, user.base
    requires link.Valid() && user.Valid()
  {
    && Spoke(link, pr, first, outs, out0, room) && user.Carried(ins, app0, sink)
    && Flatten(outs) <= app && (rest.Some? ==> Flatten(ins) <= rest.value)
    && (!open || rest.None? ==> outs == [] && ins == [] && stop == Going)
    && (open && rest.Some? && stop == Going ==> turns <= |Flatten(outs)| + |Flatten(ins)|)
    && (stop == AppEnded ==> Flatten(outs) == app && AllOut(link, pr, first, outs, room))
    && (stop == LinkFailed ==> !AllOut(link, pr, first, outs, room))
    && (stop == LinkEnded ==> rest == Some(Flatten(ins)) && |user.Encoded(ins)| <= sink)
    && (stop == AppFailed ==> |user.Encoded(ins)| > sink)
  }

  /** The copying once an end has sent its message and received the other's. */
  method CopyBoth(link: DataStream, app: DataStream, pr: Messages.Proto, first: Messages.UnifiedMessage,
                  schedule: seq<Way>, ghost out0: seq<byte>, ghost room: nat)
    returns (stop: Stop, ghost outs: seq<seq<byte>>, ghost ins: seq<seq<byte>>)
    requires link.Valid() && app.Valid() && link.Repr() !! app.Repr() && Messages.Sendable(pr, first)
    requires link.Carried(Messages.Writes(pr, first), out0, room) && |link.Encoded(Messages.Writes(pr, first))| <= room
    modifies link.Repr(), app.Repr()
    ensures Done(link, app, pr, Some(first), true, |schedule|, stop, outs, ins, out0, room, Some(old(link.Pending())),
                 old(app.base.outgoing), old(app.base.capacity), old(app.Pending()))
  {
    stop, outs, ins := PumpAfter(link, app, schedule, Messages.Writes(pr, first), out0, room);
  }

  /** An end that stops at the handshake. */
  lemma DoneEarly(link: DataStream, user: DataStream, pr: Messages.Proto, first: Option<Messages.UnifiedMessage>,
                  open: bool, turns: nat, out0: seq<byte>, room: nat, rest: Option<seq<byte>>, sink: nat,
                  app: seq<byte>)
    requires link.Valid() && user.Valid() && (!open || rest.None?)
    requires Spoke(link, pr, first, [], out0, room) && user.base.capacity == sink
    ensures Done(link, user, pr, first, open, turns, Going, [], [], out0, room, rest, user.base.outgoing, sink, app)
  {
    user.EncodedNothing();
  }

  /** The client's end: request out, one response back, then both directions if it was accepted. */
  method ClientEnd(link: DataStream, app: DataStream, pr: Messages.Proto, request: Messages.UnifiedMessage,
                   schedule: seq<Way>)
    returns (reply: Option<Messages.UnifiedMessage>, stop: Stop, ghost outs: seq<seq<byte>>, ghost ins: seq<seq<byte>>)
    requires link.Valid() && app.Valid() && link.Repr() !! app.Repr()
    modifies link.Repr(), app.Repr()
    ensures Done(link, app, pr, Some(request), reply.Some? && Accepted(reply.value), |schedule|, stop, outs, ins,
                 old(link.base.outgoing), old(link.base.capacity), Behind(pr, old(link.Pending())),
                 old(app.base.outgoing), old(app.base.capacity), old(app.Pending()))
    ensures match Messages.Parse(pr, old(link.Pending()))
            case Got(m, _) =>
              reply == if AllOut(link, pr, Some(request), [], old(link.base.capacity)) then Some(m) else None
            case Failed => reply == None
  {
    reply, stop, outs, ins := None, Going, [], [];
    ghost var out0, room := link.base.outgoing, link.base.capacity;
    ghost var rest, says := Behind(pr, link.Pending()), app.Pending();
    var sent := link.SendMessage(pr, request);
    if Messages.Sendable(pr, request) {
      assert Messages.Writes(pr, request) + [] == Messages.Writes(pr, request);
    }
    if !sent {
      DoneEarly(link, app, pr, Some(request), false, |schedule|, out0, room, rest, app.base.capacity, says);
      return;
    }
    reply := link.ReceiveMessage(pr);
    if reply.None? || !Accepted(reply.value) {
      DoneEarly(link, app, pr, Some(request), false, |schedule|, out0, room, rest, app.base.capacity, says);
      return;
    }
    stop, outs, ins := CopyBoth(link, app, pr, request, schedule, out0, room);
  }

  /** handleServiceHandshake's answer: none to what is not a request for a named service. */
  function AnswerTo(srv: Services.Server, m: Messages.UnifiedMessage): Option<Messages.UnifiedMessage> {
    if m.kind != Messages.SERVICE_REQUEST || m.serviceName == "" || m.protocol == "" then None
    else Some(Services.Answer(srv, m))
  }

  ghost function AnswerOn(srv: Services.Server, pr: Messages.Proto, arrived: seq<byte>)
    : Option<Messages.UnifiedMessage>
  {
    match Messages.Parse(pr, arrived)
    case Got(m, _) => AnswerTo(srv, m)
    case Failed => None
  }

  /** The server's end: one request in, the answer out, then both directions if it was granted. */
  method ServerEnd(link: DataStream, app: DataStream, pr: Messages.Proto, srv: Services.Server, schedule: seq<Way>)
    returns (stop: Stop, ghost outs: seq<seq<byte>>, ghost ins: seq<seq<byte>>)
    requires link.Valid() && app.Valid() && link.Repr() !! app.Repr()
    modifies link.Repr(), app.Repr()
    ensures var answer := AnswerOn(srv, pr, old(link.Pending()));
            var open := AllOut(link, pr, answer, [], old(link.base.capacity)) && answer.value.success;
            Done(link, app, pr, answer, open, |schedule|, stop, outs, ins,
                 old(link.base.outgoing), old(link.base.capacity), Behind(pr, old(link.Pending())),
                 old(app.base.outgoing), old(app.base.capacity), old(app.Pending()))
  {
    stop, outs, ins := Going, [], [];
    ghost var out0, room, says := link.base.outgoing, link.base.capacity, app.Pending();
    ghost var answer, rest := AnswerOn(srv, pr, link.Pending()), Behind(pr, link.Pending());
    var request := link.ReceiveMessage(pr);
    if request.None? || AnswerTo(srv, request.value).None? {
      DoneEarly(link, app, pr, answer, false, |schedule|, out0, room, rest, app.base.capacity, says);
      return;
    }
    stop, outs, ins := AnswerThenCopy(link, app, pr, AnswerTo(srv, request.value).value, schedule);
  }

  /** Its second half, for any answer. */
  method AnswerThenCopy(link: DataStream, app: DataStream, pr: Messages.Proto, answer: Messages.UnifiedMessage,
                        schedule: seq<Way>)
    returns (stop: Stop, ghost outs: seq<seq<byte>>, ghost ins: seq<seq<byte>>)
    requires link.Valid() && app.Valid() && link.Repr() !! app.Repr()
    modifies link.Repr(), app.Repr()
    ensures var open := AllOut(link, pr, Some(answer), [], old(link.base.capacity)) && answer.success;
            Done(link, app, pr, Some(answer), open, |schedule|, stop, outs, ins,
                 old(link.base.outgoing), old(link.base.capacity), Some(old(link.Pending())),
                 old(app.base.outgoing), old(app.base.capacity), old(app.Pending()))
  {
    stop, outs, ins := Going, [], [];
    ghost var out0, room := link.base.outgoing, link.base.capacity;
    ghost var rest, says := Some(link.Pending()), app.Pending();
    var sent := link.SendMessage(pr, answer);
    if Messages.Sendable(pr, answer) {
      assert Messages.Writes(pr, answer) + [] == Messages.Writes(pr, answer);
    }
    if !sent || !answer.success {
      DoneEarly(link, app, pr, Some(answer), false, |schedule|, out0, room, rest, app.base.capacity, says);
      return;
    }
    stop, outs, ins := CopyBoth(link, app, pr, answer, schedule, out0, room);
  }

  /** An end on a fresh link and a fresh connection to its application: its settings and room, what its application
      says and accepts, what arrives on its link and the message read off it, the turns it is given; then what it
      passed to the link, the wire, whether its message and whether all of it went out, what its application got, and
      why it stopped. */
  datatype End = End(
    params: Params, room: nat, app: seq<byte>, sink: nat, arriving: seq<byte>, heard: Messages.Parsed, turns: nat,
    outs: seq<seq<byte>>, wire: seq<byte>, sent: bool, whole: bool, got: seq<byte>, stop: Stop)

  ghost predicate Wired(c: Codec, zstd: bool, pr: Messages.Proto, first: Option<Messages.UnifiedMessage>, e: End)
    requires e.params.chunkSize > 0
  {
    && e.heard == Messages.Parse(pr, Arriving(c, zstd, e.arriving))
    && e.wire == WireOf(c, e.params, zstd, pr, first, e.outs, e.room)
    && e.sent == Whole(c, e.params, zstd, pr, first, [], e.room)
    && e.whole == Whole(c, e.params, zstd, pr, first, e.outs, e.room)
  }

  /** What an end has done, in byte strings. */
  ghost predicate Ran(open: bool, e: End) {
    && Flatten(e.outs) <= e.app
    && (!open || e.heard.Failed? ==> e.outs == [] && e.got == [] && e.stop == Going)
    && (e.heard.Got? ==>
          && e.got <= e.heard.rest && (e.stop == AppFailed ==> |e.heard.rest| > e.sink)
          && (open && e.stop == Going ==> e.turns <= |e.app| + |e.heard.rest|))
    && (e.stop == AppEnded ==> Flatten(e.outs) == e.app && e.whole)
    && (e.stop == LinkFailed ==> !e.whole)
    && (e.stop == LinkEnded ==> e.heard.Got? && e.got == e.heard.rest)
  }

  /** Nothing of that wire is lost to a full link. */
  ghost predicate Whole(c: Codec, p: Params, zstd: bool, pr: Messages.Proto, first: Option<Messages.UnifiedMessage>,
                        outs: seq<seq<byte>>, room: nat)
    requires p.chunkSize > 0
  {
    && first.Some? && Messages.Sendable(pr, first.value)
    && |OnWire(c, p, zstd, Messages.Writes(pr, first.value) + outs)| <= room
  }

  ghost predicate Encodes(link: DataStream, c: Codec, p: Params, zstd: bool)
    requires link.Valid() && p.chunkSize > 0
  {
    forall writes :: link.Encoded(writes) == OnWire(c, p, zstd, writes)
  }

  lemma AllOutIsWhole(link: DataStream, c: Codec, p: Params, zstd: bool, pr: Messages.Proto,
                      first: Option<Messages.UnifiedMessage>, outs: seq<seq<byte>>, room: nat)
    requires p.chunkSize > 0 && link.Valid() && Encodes(link, c, p, zstd)
    ensures AllOut(link, pr, first, outs, room) <==> Whole(c, p, zstd, pr, first, outs, room)
  {}

  lemma SpokeOnWire(link: DataStream, c: Codec, p: Params, zstd: bool, pr: Messages.Proto,
                    first: Option<Messages.UnifiedMessage>, outs: seq<seq<byte>>, room: nat)
    requires p.chunkSize > 0 && link.Valid() && Encodes(link, c, p, zstd) && Spoke(link, pr, first, outs, [], room)
    ensures link.base.outgoing == WireOf(c, p, zstd, pr, first, outs, room)
  {}

  /** A plain connection to a local application that says `app` and accepts `sink` bytes. */
  method OpenLocal(app: seq<byte>, sink: nat) returns (user: DataStream)
    ensures user.Valid() && fresh(user) && fresh(user.base) && user.Repr() == {user.base}
    ensures user.Pending() == app && user.base.outgoing == [] && user.base.capacity == sink
    ensures forall writes: seq<seq<byte>> :: user.Encoded(writes) == Flatten(writes)
  {
    var local := new Stream(app, sink);
    user := new DataStream(local, null);
  }

  lemma DeliveredLocal(user: DataStream, ins: seq<seq<byte>>, sink: nat)
    requires user.Valid() && user.Carried(ins, [], sink) && user.Encoded(ins) == Flatten(ins)
    ensures user.base.outgoing <= Flatten(ins)
    ensures |user.Encoded(ins)| <= sink ==> user.base.outgoing == Flatten(ins)
  {
    SentFromEmpty(Flatten(ins), sink);
  }

  lemma DoneRan(link: DataStream, user: DataStream, c: Codec, zstd: bool, pr: Messages.Proto,
                first: Option<Messages.UnifiedMessage>, open: bool, e: End, ins: seq<seq<byte>>)
    requires e.params.chunkSize > 0 && link.Valid() && user.Valid()
    requires Encodes(link, c, e.params, zstd) && user.Encoded(ins) == Flatten(ins)
    requires e.heard == Messages.Parse(pr, Arriving(c, zstd, e.arriving))
    requires Done(link, user, pr, first, open, e.turns, e.stop, e.outs, ins, [], e.room,
                  Behind(pr, Arriving(c, zstd, e.arriving)), [], e.sink, e.app)
    requires e.wire == link.base.outgoing && e.got == user.base.outgoing
    requires e.sent == AllOut(link, pr, first, [], e.room) && e.whole == AllOut(link, pr, first, e.outs, e.room)
    ensures Wired(c, zstd, pr, first, e) && Ran(open, e)
  {
    SpokeOnWire(link, c, e.params, zstd, pr, first, e.outs, e.room);
    AllOutIsWhole(link, c, e.params, zstd, pr, first, [], e.room);
    AllOutIsWhole(link, c, e.params, zstd, pr, first, e.outs, e.room);
    DeliveredLocal(user, ins, e.sink);
  }

  /** The client's response: the message that arrives, once its own request is out. */
  ghost function ReplyOn(e: End): Option<Messages.UnifiedMessage> {
    if e.heard.Got? && e.sent then Some(e.heard.msg) else None
  }

  ghost predicate ClientRan(e: End, reply: Option<Messages.UnifiedMessage>) {
    reply == ReplyOn(e) && Ran(reply.Some? && Accepted(reply.value), e)
  }

  /** The server's answer: to the message that arrives. */
  ghost function AnswerOf(srv: Services.Server, heard: Messages.Parsed): Option<Messages.UnifiedMessage> {
    if heard.Got? then AnswerTo(srv, heard.msg) else None
  }

  ghost predicate ServerRan(e: End, srv: Services.Server) {
    var answer := AnswerOf(srv, e.heard);
    Ran(e.sent && answer.Some? && answer.value.success, e)
  }

  /** A client's end from its link and application on. */
  method RunClient(c: Codec, p: Params, zstd: bool, pr: Messages.Proto, request: Messages.UnifiedMessage,
                   app: seq<byte>, arriving: seq<byte>, room: nat, sink: nat, schedule: seq<Way>)
    returns (reply: Option<Messages.UnifiedMessage>, wire: seq<byte>, got: seq<byte>, stop: Stop, ghost e: End)
    requires p.chunkSize > 0
    ensures e == End(p, room, app, sink, arriving, e.heard, |schedule|, e.outs, wire, e.sent, e.whole, got, stop)
    ensures Wired(c, zstd, pr, Some(request), e) && ClientRan(e, reply)
  {
    var link := new Stream(arriving, room);
    var near := Open(link, c, p, zstd);
    var user := OpenLocal(app, sink);
    ghost var heard := Messages.Parse(pr, Arriving(c, zstd, arriving));
    ghost var outs, ins;
    reply, stop, outs, ins := ClientEnd(near, user, pr, request, schedule);
    wire, got := link.outgoing, user.base.outgoing;
    e := End(p, room, app, sink, arriving, heard, |schedule|, outs, wire,
             AllOut(near, pr, Some(request), [], room), AllOut(near, pr, Some(request), outs, room), got, stop);
    DoneRan(near, user, c, zstd, pr, Some(request), reply.Some? && Accepted(reply.value), e, ins);
  }

  /** A server's end likewise. */
  method RunServer(c: Codec, p: Params, zstd: bool, pr: Messages.Proto, srv: Services.Server,
                   app: seq<byte>, arriving: seq<byte>, room: nat, sink: nat, schedule: seq<Way>)
    returns (wire: seq<byte>, got: seq<byte>, stop: Stop, ghost e: End)
    requires p.chunkSize > 0
    ensures e == End(p, room, app, sink, arriving, e.heard, |schedule|, e.outs, wire, e.sent, e.whole, got, stop)
    ensures Wired(c, zstd, pr, AnswerOf(srv, e.heard), e) && ServerRan(e, srv)
  {
    var link := new Stream(arriving, room);
    var far := Open(link, c, p, zstd);
    var user := OpenLocal(app, sink);
    ghost var heard := Messages.Parse(pr, Arriving(c, zstd, arriving));
    ghost var answer := AnswerOf(srv, heard);
    ghost var outs, ins;
    stop, outs, ins := ServerEnd(far, user, pr, srv, schedule);
    wire, got := link.outgoing, user.base.outgoing;
    e := End(p, room, app, sink, arriving, heard, |schedule|, outs, wire,
             AllOut(far, pr, answer, [], room), AllOut(far, pr, answer, outs, room), got, stop);
    DoneRan(far, user, c, zstd, pr, answer, e.sent && answer.Some? && answer.value.success, e, ins);
  }

  /** What one end hears stems from the other: that end's message, and a prefix of what it passed on. */
  ghost predicate Stems(heard: Messages.Parsed, first: Option<Messages.UnifiedMessage>, outs: seq<seq<byte>>) {
    heard.Got? ==> first == Some(heard.msg) && heard.rest <= Flatten(outs)
  }

  /** Each application is given a prefix of what the other wrote, and all of it when the loops ended with their sources
      and everything arrived; bytes are passed on only for a granted request. */
  lemma BothPrefixes(srv: Services.Server, request: Messages.UnifiedMessage, reply: Option<Messages.UnifiedMessage>,
                     a: End, b: End)
    requires ClientRan(a, reply) && ServerRan(b, srv)
    requires Stems(b.heard, Some(request), a.outs) && Stems(a.heard, AnswerOf(srv, b.heard), b.outs)
    ensures b.got <= a.app && a.got <= b.app
    ensures reply.Some? ==> reply == AnswerTo(srv, request)
    ensures a.got != [] || b.got != [] || a.outs != [] || b.outs != [] ==>
              Services.Validate(srv.ix, srv.compress, request).Granted?
    ensures a.stop == AppEnded && b.stop == LinkEnded && b.heard.Got? && b.heard.rest == Flatten(a.outs) ==>
              b.got == a.app
    ensures b.stop == AppEnded && a.stop == LinkEnded && a.heard.Got? && a.heard.rest == Flatten(b.outs) ==>
              a.got == b.app
  {}

  /** When both messages arrive and everything goes out the client gets its response, and after a granted request and
      enough turns either end has come to the end of one of its sources. */
  lemma BothEnd(srv: Services.Server, request: Messages.UnifiedMessage, reply: Option<Messages.UnifiedMessage>,
                a: End, b: End)
    requires ClientRan(a, reply) && ServerRan(b, srv) && AnswerTo(srv, request).Some?
    requires a.sent && a.whole && b.sent && b.whole
    requires b.heard == Messages.Got(request, Flatten(a.outs))
    requires a.heard == Messages.Got(Services.Answer(srv, request), Flatten(b.outs))
    ensures reply == Some(Services.Answer(srv, request))
    ensures Services.Validate(srv.ix, srv.compress, request).Granted? && a.sink >= |b.app| && b.sink >= |a.app|
            && a.turns > |a.app| + |b.app| && b.turns > |a.app| + |b.app| ==>
              (a.stop == AppEnded || a.stop == LinkEnded) && (b.stop == AppEnded || b.stop == LinkEnded)
  {}

  /** A whole forwarded connection: one stream with an object at each end, request out, response back, and both
      copy directions interleaved by any schedule at either end. inA and inB are what ever arrives at the client and
      at the server: any parts, cut anywhere, of the wires the two ends come to write. Each application is given a
      prefix of what the other wrote, and all of it when the loops ended with their sources and nothing was cut;
      bytes are passed on only for a request the server granted, and the client's response is the answer to it.
      With ample room and nothing cut the client gets that response, and after a granted request and enough turns
      either end has come to the end of one of its sources. */
  method Forward(c: Codec, pA: Params, pB: Params, zstd: bool, pr: Messages.Proto, srv: Services.Server,
                 request: Messages.UnifiedMessage, appA: seq<byte>, appB: seq<byte>, inA: seq<byte>, inB: seq<byte>,
                 roomA: nat, roomB: nat, sinkA: nat, sinkB: nat, scheduleA: seq<Way>, scheduleB: seq<Way>)
    returns (reply: Option<Messages.UnifiedMessage>, wireA: seq<byte>, wireB: seq<byte>,
             gotA: seq<byte>, gotB: seq<byte>, stopA: Stop, stopB: Stop)
    requires ZstdFrames.Lawful(c) && Messages.Lawful(pr)
    requires 0 < pA.chunkSize <= MAX_STORED && 0 < pB.chunkSize <= MAX_STORED
    ensures inB <= wireA && inA <= wireB ==>
              && gotB <= appA && gotA <= appB
              && (reply.Some? ==> reply == AnswerTo(srv, request))
              && (!Services.Validate(srv.ix, srv.compress, request).Granted? ==>
                    gotA == gotB == [] && wireA == WireOf(c, pA, zstd, pr, Some(request), [], roomA))
              && (stopA == AppEnded && stopB == LinkEnded && inB == wireA ==> gotB == appA)
              && (stopB == AppEnded && stopA == LinkEnded && inA == wireB ==> gotA == appB)
    ensures Ample(pA, pB, pr, srv, request, |appA|, |appB|, roomA, roomB) && inB == wireA && inA == wireB ==>
              && reply == Some(Services.Answer(srv, request))
              && (Services.Validate(srv.ix, srv.compress, request).Granted? && sinkA >= |appB| && sinkB >= |appA|
                  && |scheduleA| > |appA| + |appB| && |scheduleB| > |appA| + |appB| ==>
                    (stopA == AppEnded || stopA == LinkEnded) && (stopB == AppEnded || stopB == LinkEnded))
  {
    ghost var a, b;
    reply, wireA, gotA, stopA, a := RunClient(c, pA, zstd, pr, request, appA, inA, roomA, sinkA, scheduleA);
    wireB, gotB, stopB, b := RunServer(c, pB, zstd, pr, srv, appB, inB, roomB, sinkB, scheduleB);
    if inB <= wireA && inA <= wireB {
      JoinedPrefixes(c, zstd, pr, srv, request, reply, a, b);
    }
    if Ample(pA, pB, pr, srv, request, |appA|, |appB|, roomA, roomB) && inB == wireA && inA == wireB {
      JoinedEnd(c, zstd, pr, srv, request, reply, a, b);
    }
  }

  /** Two ends joined: the wire of each, or part of it, arrives at the other. */
  ghost predicate Joined(c: Codec, zstd: bool, pr: Messages.Proto, srv: Services.Server,
                         request: Messages.UnifiedMessage, reply: Option<Messages.UnifiedMessage>, a: End, b: End)
  {
    && ZstdFrames.Lawful(c) && Messages.Lawful(pr)
    && 0 < a.params.chunkSize <= MAX_STORED && 0 < b.params.chunkSize <= MAX_STORED
    && Wired(c, zstd, pr, Some(request), a) && ClientRan(a, reply)
    && Wired(c, zstd, pr, AnswerOf(srv, b.heard), b) && ServerRan(b, srv)
    && b.arriving <= a.wire && a.arriving <= b.wire
  }

  lemma JoinedPrefixes(c: Codec, zstd: bool, pr: Messages.Proto, srv: Services.Server, request: Messages.UnifiedMessage,
                       reply: Option<Messages.UnifiedMessage>, a: End, b: End)
    requires Joined(c, zstd, pr, srv, request, reply, a, b)
    ensures b.got <= a.app && a.got <= b.app
    ensures reply.Some? ==> reply == AnswerTo(srv, request)
    ensures a.got != [] || b.got != [] || a.outs != [] || b.outs != [] ==>
              Services.Validate(srv.ix, srv.compress, request).Granted?
    ensures a.stop == AppEnded && b.stop == LinkEnded && b.arriving == a.wire ==> b.got == a.app
    ensures b.stop == AppEnded && a.stop == LinkEnded && a.arriving == b.wire ==> a.got == b.app
  {
    Crossed(c, zstd, pr, Some(request), a, b);
    Crossed(c, zstd, pr, AnswerOf(srv, b.heard), b, a);
    BothPrefixes(srv, request, reply, a, b);
  }

  lemma JoinedEnd(c: Codec, zstd: bool, pr: Messages.Proto, srv: Services.Server, request: Messages.UnifiedMessage,
                  reply: Option<Messages.UnifiedMessage>, a: End, b: End)
    requires Joined(c, zstd, pr, srv, request, reply, a, b) && b.arriving == a.wire && a.arriving == b.wire
    requires Ample(a.params, b.params, pr, srv, request, |a.app|, |b.app|, a.room, b.room)
    ensures reply == Some(Services.Answer(srv, request))
    ensures Services.Validate(srv.ix, srv.compress, request).Granted? && a.sink >= |b.app| && b.sink >= |a.app|
            && a.turns > |a.app| + |b.app| && b.turns > |a.app| + |b.app| ==>
              (a.stop == AppEnded || a.stop == LinkEnded) && (b.stop == AppEnded || b.stop == LinkEnded)
  {
    Uncut(c, zstd, pr, request, a, b);
    AnswerUncut(c, zstd, pr, srv, request, a, b);
    BothEnd(srv, request, reply, a, b);
  }

  lemma AnswerUncut(c: Codec, zstd: bool, pr: Messages.Proto, srv: Services.Server, request: Messages.UnifiedMessage,
                    a: End, b: End)
    requires ZstdFrames.Lawful(c) && 0 < b.params.chunkSize <= MAX_STORED && Messages.Lawful(pr)
    requires b.heard == Messages.Got(request, Flatten(a.outs)) && AnswerTo(srv, request).Some?
    requires Wired(c, zstd, pr, AnswerOf(srv, b.heard), b) && Flatten(b.outs) <= b.app
    requires a.heard == Messages.Parse(pr, Arriving(c, zstd, a.arriving)) && a.arriving == b.wire
    requires Roomy(b.params, pr, Services.Answer(srv, request), |b.app|, b.room)
    ensures b.sent && b.whole && a.heard == Messages.Got(Services.Answer(srv, request), Flatten(b.outs))
  {
    Uncut(c, zstd, pr, Services.Answer(srv, request), b, a);
  }

  /** What arrives at `to` is part of the wire of `from`. */
  lemma Crossed(c: Codec, zstd: bool, pr: Messages.Proto, first: Option<Messages.UnifiedMessage>, from: End, to: End)
    requires ZstdFrames.Lawful(c) && 0 < from.params.chunkSize <= MAX_STORED && Messages.Lawful(pr)
    requires Wired(c, zstd, pr, first, from) && to.heard == Messages.Parse(pr, Arriving(c, zstd, to.arriving))
    requires to.arriving <= from.wire
    ensures Stems(to.heard, first, from.outs)
    ensures to.arriving == from.wire && from.whole ==> to.heard.Got? && to.heard.rest == Flatten(from.outs)
  {
    WireYields(c, from.params, zstd, pr, first, from.outs, from.room, to.arriving);
    if from.whole {
      SentFromEmpty(OnWire(c, from.params, zstd, Messages.Writes(pr, first.value) + from.outs), from.room);
    }
  }

  /** A request for a named service, and room at either end for its message and its application's bytes. */
  ghost predicate Ample(pA: Params, pB: Params, pr: Messages.Proto, srv: Services.Server,
                        request: Messages.UnifiedMessage, nA: nat, nB: nat, roomA: nat, roomB: nat)
    requires pA.chunkSize > 0 && pB.chunkSize > 0
  {
    && request.kind == Messages.SERVICE_REQUEST && request.serviceName != "" && request.protocol != ""
    && Roomy(pA, pr, request, nA, roomA) && Roomy(pB, pr, Services.Answer(srv, request), nB, roomB)
  }

  /** Room for a message and n bytes behind it, however they are split into writes. */
  ghost predicate Roomy(p: Params, pr: Messages.Proto, first: Messages.UnifiedMessage, n: nat, room: nat)
    requires p.chunkSize > 0
  {
    Messages.Sendable(pr, first) && room >= WireRoom(p, |Flatten(Messages.Writes(pr, first))| + n)
  }

  /** With ample room the whole wire goes out, and yields the message and all the writes. */
  lemma Uncut(c: Codec, zstd: bool, pr: Messages.Proto, first: Messages.UnifiedMessage, from: End, to: End)
    requires ZstdFrames.Lawful(c) && 0 < from.params.chunkSize <= MAX_STORED && Messages.Lawful(pr)
    requires Wired(c, zstd, pr, Some(first), from) && to.heard == Messages.Parse(pr, Arriving(c, zstd, to.arriving))
    requires to.arriving == from.wire && Flatten(from.outs) <= from.app
    requires Roomy(from.params, pr, first, |from.app|, from.room)
    ensures from.sent && from.whole && to.heard == Messages.Got(first, Flatten(from.outs))
  {
    var writes := Messages.Writes(pr, first);
    AmpleRoom(c, from.params, zstd, writes, from.outs, |from.app|, from.room);
    AmpleRoom(c, from.params, zstd, writes, [], |from.app|, from.room);
    WireYields(c, from.params, zstd, pr, Some(first), from.outs, from.room, to.arriving);
  }
}
