/** Hole-punch signaling: the framed exchange over the relay stream and the strategies it leads to. */
module Signaling {
  import opened Bytes
  import opened Nat
  import opened Zstd

  datatype NATInfo = NATInfo(kind: int, ip: string, port: int)

  datatype SignalMsg = SignalMsg(
    natInfo: Option<NATInfo>, ready: bool, punch: int, tid: nat, token: seq<byte>, error: string)

  const BLANK := SignalMsg(None, false, 0, 0, [], "")

  /** The JSON library. */
  datatype Json = Json(
    marshal: SignalMsg -> Option<seq<byte>>,
    unmarshal: seq<byte> -> Option<SignalMsg>)

  /** Unmarshalling undoes marshalling, and no message is so long that its length prefix would wrap. */
  ghost predicate Lawful(js: Json) {
    forall m :: js.marshal(m).Some? ==>
      js.unmarshal(js.marshal(m).value) == Some(m) && |js.marshal(m).value| < 0x1_0000_0000
  }

  const MAX_SIGNAL: nat := 0x1_0000

  // ----- Framing -----

  function Prefix(n: nat): (bs: seq<byte>)
    ensures |bs| == 4 && Be32(bs) == n % 0x1_0000_0000
  {
    Be32Bytes(n % 0x1_0000_0000)
  }

  ghost function Framed(js: Json, m: SignalMsg): seq<byte>
    requires js.marshal(m).Some?
  {
    Prefix(|js.marshal(m).value|) + js.marshal(m).value
  }

  /** The payload announced at the front of w, and what follows it. */
  function Payload(w: seq<byte>): Option<(seq<byte>, seq<byte>)> {
    if |w| < 4 then None
    else
      var n := Be32(w[..4]);
      if n > MAX_SIGNAL || |w| - 4 < n then None else Some((w[4..4 + n], w[4 + n..]))
  }

  datatype Parsed = Got(msg: SignalMsg, rest: seq<byte>) | Failed

  ghost function Parse(js: Json, w: seq<byte>): Parsed {
    match Payload(w)
    case None => Failed
    case Some((data, rest)) =>
      match js.unmarshal(data)
      case Some(m) => Got(m, rest)
      case None => Failed
  }

  lemma PayloadOfFrame(head: seq<byte>, data: seq<byte>, tail: seq<byte>, w: seq<byte>)
    requires |head| == 4 && Be32(head) == |data| && w <= head + data + tail
    ensures Payload(w) == if |data| > MAX_SIGNAL || |w| < 4 + |data| then None else Some((data, w[4 + |data|..]))
  {
    if |w| >= 4 {
      assert w[..4] == head;
      if |w| >= 4 + |data| {
        assert w[4..4 + |data|] == data by {
          assert (head + data + tail)[4..4 + |data|] == data;
        }
      }
    }
  }

  /** A written message, cut anywhere, followed by anything: a short message is read back whole or not at all. */
  lemma ParseFramed(js: Json, m: SignalMsg, tail: seq<byte>, w: seq<byte>)
    requires Lawful(js) && js.marshal(m).Some? && w <= Framed(js, m) + tail
    ensures Parse(js, w) == if |js.marshal(m).value| > 64 * 1024 || |w| < |Framed(js, m)| then Failed
                            else Got(m, w[|Framed(js, m)|..])
  {
    PayloadOfFrame(Prefix(|js.marshal(m).value|), js.marshal(m).value, tail, w);
  }

  method WriteSignal(s: Stream, js: Json, m: SignalMsg) returns (ok: bool)
    modifies s`outgoing, s`capacity
    ensures js.marshal(m).None? ==> !ok && s.outgoing == old(s.outgoing) && s.capacity == old(s.capacity)
    ensures js.marshal(m).Some? ==>
              && s.outgoing == Sent(old(s.outgoing), Framed(js, m), old(s.capacity))
              && s.capacity == old(s.capacity) - Min(|Framed(js, m)|, old(s.capacity))
              && ok == (|Framed(js, m)| <= old(s.capacity))
  {
    var data := js.marshal(m);
    if data.None? {
      return false;
    }
    var len := Prefix(|data.value|);
    SplitSend(s.outgoing, len, data.value, s.capacity);
    var n;
    n, ok := s.Write(len);
    if ok {
      n, ok := s.Write(data.value);
    }
  }

  method ReadSignal(s: Stream, js: Json) returns (r: Option<SignalMsg>)
    modifies s`incoming
    ensures match Parse(js, old(s.incoming))
            case Got(m, rest) => r == Some(m) && s.incoming == rest
            case Failed => r == None
  {
    var data := ReadPayload(s);
    if data.None? {
      return None;
    }
    r := js.unmarshal(data.value);
  }

  method ReadPayload(s: Stream) returns (data: Option<seq<byte>>)
    modifies s`incoming
    ensures match Payload(old(s.incoming))
            case Some((d, rest)) => data == Some(d) && s.incoming == rest
            case None => data == None
  {
    ghost var w := s.incoming;
    var head, e := s.ReadFull(4);
    if e.Some? {
      return None;
    }
    var n := Be32(head);
    if n > MAX_SIGNAL {
      return None;
    }
    assert n <= |w[4..]| ==> w[4..][..n] == w[4..4 + n] && w[4..][n..] == w[4 + n..];
    var body;
    body, e := s.ReadFull(n);
    if e.Some? {
      return None;
    }
    return Some(body);
  }

  // ----- The two sides -----

  /** What ClientSignaling returns on success. */
  datatype ClientView = ClientView(serverNAT: NATInfo, token: seq<byte>, punch: int, tid: nat)

  /** What the server's punch goroutine is started with. */
  datatype ServerView = ServerView(
    hasSocket: bool, myNAT: NATInfo, clientNAT: NATInfo, punch: int, tid: nat, token: seq<byte>)

  function Hello(myNAT: NATInfo, tid: nat): SignalMsg { BLANK.(natInfo := Some(myNAT), tid := tid) }

  function Offer(v: ServerView): SignalMsg {
    BLANK.(natInfo := Some(v.myNAT), punch := v.punch, token := v.token, tid := v.tid)
  }

  const READY := BLANK.(ready := true)

  /** What the client makes of the two messages on its stream. */
  ghost function Heard(js: Json, w: seq<byte>, tid: nat): Option<ClientView> {
    match Parse(js, w)
    case Failed => None
    case Got(offer, rest) =>
      if offer.error != "" || offer.natInfo.None? || offer.token == [] then None
      else
        match Parse(js, rest)
        case Failed => None
        case Got(second, _) =>
          if second.ready then Some(ClientView(offer.natInfo.value, offer.token, offer.punch, tid)) else None
  }

  /** What the server decides to offer, if anything. `socket` is what creating and querying a punch socket yields. */
  function Decide(hello: SignalMsg, cachedKind: int, cached: NATInfo, token: seq<byte>,
                  socket: Option<NATInfo>): Option<ServerView> {
    if hello.natInfo.None? then None
    else
      var punch := DeterminePunchMethod(hello.natInfo.value.kind, cachedKind);
      if punch == PUNCH_NONE || (IsCone(cachedKind) && socket.None?) then None
      else if IsCone(cachedKind) then
        Some(ServerView(true, socket.value.(kind := cachedKind), hello.natInfo.value, punch, hello.tid, token))
      else
        Some(ServerView(false, NATInfo(cachedKind, cached.ip, cached.port),
                        hello.natInfo.value, punch, hello.tid, token))
  }

  /** The server offers a punch exactly when the client told its NAT, the two types have a method and a cone server
      got its socket. A cone server offers that socket's mapped address, another the one it detected at start-up. */
  lemma DecideIff(hello: SignalMsg, cachedKind: int, cached: NATInfo, token: seq<byte>, socket: Option<NATInfo>)
    ensures var view := Decide(hello, cachedKind, cached, token, socket);
            && (view.Some? <==>
                  && hello.natInfo.Some? && DeterminePunchMethod(hello.natInfo.value.kind, cachedKind) != PUNCH_NONE
                  && (cachedKind == CONE ==> socket.Some?))
            && (view.Some? ==>
                  && view.value.clientNAT == hello.natInfo.value
                  && view.value.tid == hello.tid && view.value.token == token
                  && view.value.punch == DeterminePunchMethod(hello.natInfo.value.kind, cachedKind)
                  && view.value.hasSocket == (cachedKind == CONE)
                  && view.value.myNAT == if cachedKind == CONE then NATInfo(CONE, socket.value.ip, socket.value.port)
                                         else NATInfo(cachedKind, cached.ip, cached.port))
  {
    if hello.natInfo.Some? {
      MethodIff(hello.natInfo.value.kind, cachedKind);
    }
  }

  /** ClientSignaling after its first message: an offer, then the ready signal. */
  method ClientAwait(s: Stream, js: Json, tid: nat) returns (r: Option<ClientView>)
    modifies s`incoming
    ensures r == Heard(js, old(s.incoming), tid)
  {
    var offer := ReadSignal(s, js);
    if offer.None? || offer.value.error != "" || offer.value.natInfo.None? || offer.value.token == [] {
      return None;
    }
    var ready := ReadSignal(s, js);
    if ready.None? || !ready.value.ready {
      return None;
    }
    return Some(ClientView(offer.value.natInfo.value, offer.value.token, offer.value.punch, tid));
  }

  /** ServerSignalingHandler: whatever it returns, it is what it decided, and it told the client. `prepared` is
      whether the caller's callback manages to start the punch. */
  method ServerHandler(s: Stream, js: Json, cachedKind: int, cached: NATInfo, token: seq<byte>,
                       socket: Option<NATInfo>, prepared: bool)
    returns (r: Option<ServerView>)
    modifies s
    ensures r.Some? ==>
              && Parse(js, old(s.incoming)).Got?
              && r == Decide(Parse(js, old(s.incoming)).msg, cachedKind, cached, token, socket)
              && Offered(js, r.value, old(s.outgoing), s.outgoing)
    ensures r.None? ==> Declined(js, old(s.outgoing), s.outgoing)
    ensures r.Some? ==> prepared
    ensures Parse(js, old(s.incoming)).Got? ==>
              var view := Decide(Parse(js, old(s.incoming)).msg, cachedKind, cached, token, socket);
              view.Some? && Fits(js, view.value, old(s.capacity)) && prepared ==>
                r == view && Complete(js, view.value, old(s.outgoing), s.outgoing)
  {
    var hello := ReadSignal(s, js);
    if hello.None? {
      return None;
    }
    if hello.value.natInfo.None? {
      Refuse(s, js, "missing NAT info");
      return None;
    }
    var clientNAT, tid := hello.value.natInfo.value, hello.value.tid;
    var m := DeterminePunchMethod(clientNAT.kind, cachedKind);
    if m == PUNCH_NONE {
      Refuse(s, js, "no viable punch method");
      return None;
    }
    var hasSocket, myNAT := false, NATInfo(cachedKind, cached.ip, cached.port);
    if IsCone(cachedKind) || cachedKind == OPEN {
      if socket.None? {
        Refuse(s, js, "create punch socket");
        return None;
      }
      hasSocket, myNAT := true, socket.value.(kind := cachedKind);
    }
    var view := ServerView(hasSocket, myNAT, clientNAT, m, tid, token);
    var started := MakeOffer(s, js, view, prepared);
    return if started then Some(view) else None;
  }

  /** Send the offer, have the punch goroutine started, signal ready or the failure. */
  method MakeOffer(s: Stream, js: Json, view: ServerView, prepared: bool) returns (started: bool)
    modifies s`outgoing, s`capacity
    ensures started ==> prepared && Offered(js, view, old(s.outgoing), s.outgoing)
    ensures !started ==> Declined(js, old(s.outgoing), s.outgoing)
    ensures Fits(js, view, old(s.capacity)) && prepared ==>
              started && Complete(js, view, old(s.outgoing), s.outgoing)
  {
    ghost var before := s.outgoing;
    var sent := WriteSignal(s, js, Offer(view));
    if !sent {
      return false;
    }
    ghost var after := before + Framed(js, Offer(view));
    assert s.outgoing == after;
    var second := if prepared then READY else BLANK.(error := "server punch setup failed");
    Follow(js, second, s.outgoing, s.capacity);
    var _ := WriteSignal(s, js, second);
    if !prepared {
      OfferThenError(js, Offer(view), second, before, s.outgoing);
    }
    return prepared;
  }

  lemma OfferThenError(js: Json, offer: SignalMsg, second: SignalMsg, before: seq<byte>, after: seq<byte>)
    requires js.marshal(offer).Some? && !second.ready && before + Framed(js, offer) <= after
    requires js.marshal(second).None? ==> after == before + Framed(js, offer)
    requires js.marshal(second).Some? ==> after <= before + Framed(js, offer) + Framed(js, second)
    ensures Declined(js, before, after)
  {
    if js.marshal(second).None? {
      assert AtMostOne(js, before, after);
    } else {
      assert OneThenUnready(js, before, after, offer, second);
    }
  }

  /** What a further message, sent whole or in part, leaves of what was there. */
  lemma Follow(js: Json, m: SignalMsg, before: seq<byte>, room: nat)
    ensures js.marshal(m).Some? ==>
              && before <= Sent(before, Framed(js, m), room)
              && Sent(before, Framed(js, m), room) <= before + Framed(js, m)
              && (|Framed(js, m)| <= room ==> Sent(before, Framed(js, m), room) == before + Framed(js, m))
  {}

  method Refuse(s: Stream, js: Json, reason: string)
    modifies s`outgoing, s`capacity
    ensures AtMostOne(js, old(s.outgoing), s.outgoing)
  {
    var _ := WriteSignal(s, js, BLANK.(error := reason));
  }

  /** The server wrote its whole offer, and whatever came after. */
  ghost predicate Offered(js: Json, v: ServerView, before: seq<byte>, after: seq<byte>) {
    js.marshal(Offer(v)).Some? && before + Framed(js, Offer(v)) <= after
  }

  ghost predicate Deliverable(js: Json, m: SignalMsg) {
    js.marshal(m).Some? && |js.marshal(m).value| <= 64 * 1024
  }

  /** Offer and ready signal can be sent, and there is room for both. */
  ghost predicate Fits(js: Json, v: ServerView, room: nat) {
    && Deliverable(js, Offer(v)) && Deliverable(js, READY)
    && |Framed(js, Offer(v))| + |Framed(js, READY)| <= room
  }

  ghost predicate Complete(js: Json, v: ServerView, before: seq<byte>, after: seq<byte>) {
    Deliverable(js, Offer(v)) && Deliverable(js, READY) && after == before + Framed(js, Offer(v)) + Framed(js, READY)
  }

  /** The server wrote nothing, or all or part of one message. */
  ghost predicate AtMostOne(js: Json, before: seq<byte>, after: seq<byte>) {
    after == before || exists m :: js.marshal(m).Some? && after <= before + Framed(js, m)
  }

  /** The server wrote at most one message, or one message and all or part of another that is no ready signal. */
  ghost predicate Declined(js: Json, before: seq<byte>, after: seq<byte>) {
    || AtMostOne(js, before, after)
    || exists first, second :: OneThenUnready(js, before, after, first, second)
  }

  ghost predicate OneThenUnready(js: Json, before: seq<byte>, after: seq<byte>, first: SignalMsg, second: SignalMsg) {
    && js.marshal(first).Some? && js.marshal(second).Some? && !second.ready
    && after <= before + Framed(js, first) + Framed(js, second)
  }

  // ----- What follows -----

  /** ExecutePunch's choice. */
  datatype Strategy =
    | ConeToCone
    | SymToCone                             // many sockets against one known port
    | ConeToSym                             // one socket against many ports
    | EasyToEasy(myInc: bool, peerInc: bool)
    | NoSocket
    | Unsupported

  function ExecutePunch(myKind: int, peerKind: int, punch: int, hasSocket: bool): Strategy {
    if punch == CONE_TO_CONE then if hasSocket then ConeToCone else NoSocket
    else if punch == SYM_TO_CONE then
      if IsSymmetric(myKind) then SymToCone else if hasSocket then ConeToSym else NoSocket
    else if punch == EASY_TO_EASY then EasyToEasy(myKind == EASY_INC, peerKind == EASY_INC)
    else Unsupported
  }

  predicate Complementary(a: Strategy, b: Strategy) {
    match a
    case ConeToCone => b == ConeToCone
    case SymToCone => b == ConeToSym
    case ConeToSym => b == SymToCone
    case EasyToEasy(mine, peer) => b == EasyToEasy(peer, mine)
    case _ => false
  }

  /** attemptHolePunch between signaling and punching: the kind and socket handed to ExecutePunch. A fresh
      socket for a cone-to-cone punch brings a NAT record without a type. */
  function ClientPrepares(kind: int, punch: int): (int, bool) {
    if IsCone(kind) && punch != SYM_TO_CONE then (UNKNOWN, true)
    else if IsCone(kind) && punch == SYM_TO_CONE then (kind, true)
    else (kind, false)
  }

  /** The strategy an end of NAT type `mine` should run against one of type `peer`. */
  ghost function Role(mine: int, peer: int): Strategy {
    if mine == CONE && peer == CONE then ConeToCone
    else if mine == CONE then ConeToSym
    else if peer == CONE then SymToCone
    else EasyToEasy(mine == EASY_INC, peer == EASY_INC)
  }

  /** For every pair of NAT types with a punch method, each side runs the strategy of its own type, the two are
      complementary, and neither side lacks the socket its strategy needs. */
  lemma RolesMatch(client: int, server: int)
    requires DeterminePunchMethod(client, server) != PUNCH_NONE
    ensures var punch := DeterminePunchMethod(client, server);
            var (kind, hasSocket) := ClientPrepares(client, punch);
            && ExecutePunch(kind, server, punch, hasSocket) == Role(client, server)
            && ExecutePunch(server, client, punch, IsCone(server)) == Role(server, client)
            && Complementary(Role(client, server), Role(server, client))
  {
    MethodIff(client, server);
  }

  /** The whole exchange over a link that may lose everything after a byte in either direction and whose writes
      may fail at either end. Whenever the client succeeds, the server has started its punch with the same
      transaction id, token and method, each side knows the other's NAT record, and the strategies match. */
  method Exchange(js: Json, myNAT: NATInfo, tid: nat, cachedKind: int, cached: NATInfo, token: seq<byte>,
                  socket: Option<NATInfo>, prepared: bool, clientRoom: nat, cut: nat, serverRoom: nat, cutBack: nat)
    returns (c: Option<ClientView>, s: Option<ServerView>)
    requires Lawful(js)
    ensures c.Some? ==>
              && s.Some?
              && c.value.tid == s.value.tid == tid
              && c.value.token == s.value.token == token
              && c.value.punch == s.value.punch == DeterminePunchMethod(myNAT.kind, cachedKind)
              && c.value.serverNAT == s.value.myNAT && s.value.clientNAT == myNAT
              && token != [] && prepared && s.value.hasSocket == IsCone(cachedKind)
              && (if IsCone(cachedKind) then socket.Some? && c.value.serverNAT == socket.value.(kind := cachedKind)
                  else c.value.serverNAT == NATInfo(cachedKind, cached.ip, cached.port))
              && var (kind, hasSocket) := ClientPrepares(myNAT.kind, c.value.punch);
                 && ExecutePunch(kind, c.value.serverNAT.kind, c.value.punch, hasSocket) == Role(myNAT.kind, cachedKind)
                 && Complementary(ExecutePunch(kind, c.value.serverNAT.kind, c.value.punch, hasSocket),
                               ExecutePunch(s.value.myNAT.kind, s.value.clientNAT.kind,
                                            s.value.punch, s.value.hasSocket))
    ensures var hello := Hello(myNAT, tid);
            var view := Decide(hello, cachedKind, cached, token, socket);
            && token != [] && prepared && view.Some? && Deliverable(js, hello) && Fits(js, view.value, serverRoom)
            && |Framed(js, hello)| <= clientRoom && |Framed(js, hello)| <= cut
            && |Framed(js, Offer(view.value))| + |Framed(js, READY)| <= cutBack
            ==> c.Some?
  {
    var hello := Hello(myNAT, tid);
    c, s := None, None;
    var near := new Stream([], clientRoom);
    var sent := WriteSignal(near, js, hello);
    if !sent {
      return;
    }
    assert near.outgoing == Framed(js, hello);
    var up := near.outgoing[..Min(cut, |near.outgoing|)];
    var far := new Stream(up, serverRoom);
    assert up <= Framed(js, hello) + [];
    ParseFramed(js, hello, [], up);
    s := ServerHandler(far, js, cachedKind, cached, token, socket, prepared);
    var down := far.outgoing[..Min(cutBack, |far.outgoing|)];
    var back := new Stream(down, 0);
    c := ClientAwait(back, js, tid);
    if c.Some? {
      ClientHeard(js, s, far.outgoing, down, tid);
      RolesMatch(myNAT.kind, cachedKind);
    }
    if s.Some? && token != [] && Complete(js, s.value, [], far.outgoing) && cutBack >= |far.outgoing| {
      ClientHearsAll(js, s.value, down, tid);
    }
  }

  lemma ClientHearsAll(js: Json, v: ServerView, down: seq<byte>, tid: nat)
    requires Lawful(js) && Complete(js, v, [], down) && v.token != []
    ensures Heard(js, down, tid).Some?
  {
    var offer, ready := Framed(js, Offer(v)), Framed(js, READY);
    assert [] + offer == offer;
    ParseTwo(js, Offer(v), READY);
  }

  lemma ParseTwo(js: Json, a: SignalMsg, b: SignalMsg)
    requires Lawful(js) && Deliverable(js, a) && Deliverable(js, b)
    ensures Parse(js, Framed(js, a) + Framed(js, b)) == Got(a, Framed(js, b))
    ensures Parse(js, Framed(js, b)) == Got(b, [])
  {
    var fa, fb := Framed(js, a), Framed(js, b);
    ParseFramed(js, a, fb, fa + fb);
    assert (fa + fb)[|fa|..] == fb;
    assert fb + [] == fb;
    ParseFramed(js, b, [], fb);
  }

  /** A stream with at most one message on it does not yield two. */
  lemma NoSecondMessage(js: Json, out: seq<byte>, down: seq<byte>)
    requires Lawful(js) && down <= out && AtMostOne(js, [], out)
    ensures Parse(js, down).Got? ==> Parse(js, Parse(js, down).rest).Failed?
  {
    if out != [] {
      var m :| js.marshal(m).Some? && out <= [] + Framed(js, m);
      assert [] + Framed(js, m) == Framed(js, m) + [];
      ParseFramed(js, m, [], down);
    }
  }

  /** Nor does one message followed by an error yield a ready signal. */
  lemma NoReadySignal(js: Json, first: SignalMsg, second: SignalMsg, down: seq<byte>)
    requires Lawful(js) && js.marshal(first).Some? && js.marshal(second).Some? && !second.ready
    requires down <= Framed(js, first) + Framed(js, second)
    ensures match Parse(js, down)
            case Got(_, rest) => Parse(js, rest).Got? ==> !Parse(js, rest).msg.ready
            case Failed => true
  {
    RestIsBehind(js, first, Framed(js, second), down);
    match Parse(js, down)
    case Got(_, rest) => ParseFramed(js, second, [], rest);
    case Failed =>
  }

  lemma RestIsBehind(js: Json, first: SignalMsg, two: seq<byte>, down: seq<byte>)
    requires Lawful(js) && js.marshal(first).Some? && down <= Framed(js, first) + two
    ensures Parse(js, down).Got? ==> Parse(js, down).rest <= two + []
  {
    ParseFramed(js, first, two, down);
    if Parse(js, down).Got? {
      BehindFirst(Framed(js, first), two, down);
    }
  }

  lemma NothingBefore(one: seq<byte>, two: seq<byte>)
    ensures [] + one + two == one + two
  {}

  lemma BehindFirst(one: seq<byte>, two: seq<byte>, down: seq<byte>)
    requires down <= one + two && |down| >= |one|
    ensures down[|one|..] <= two + []
  {
    assert down[|one|..] == (one + two)[|one|..|down|];
  }

  /** A client that succeeded was talking to a server that made that offer and started its punch. */
  lemma ClientHeard(js: Json, s: Option<ServerView>, out: seq<byte>, down: seq<byte>, tid: nat)
    requires Lawful(js) && down <= out
    requires s.Some? ==> Offered(js, s.value, [], out)
    requires s.None? ==> Declined(js, [], out)
    requires Heard(js, down, tid).Some?
    ensures s.Some? && Parse(js, down).msg == Offer(s.value)
  {
    if s.None? {
      if AtMostOne(js, [], out) {
        NoSecondMessage(js, out, down);
      } else {
        var first, second :| OneThenUnready(js, [], out, first, second);
        NothingBefore(Framed(js, first), Framed(js, second));
        NoReadySignal(js, first, second, down);
      }
    } else {
      var f := Framed(js, Offer(s.value));
      assert [] + f == f;
      assert out == f + out[|f|..];
      ParseFramed(js, Offer(s.value), out[|f|..], down);
    }
  }
}
