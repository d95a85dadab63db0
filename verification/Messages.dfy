/** Control and handshake messages, their length-prefixed wire form and its parser. */
module Messages {
  import opened Bytes

  // Message types
  const PASSWORD_REQUIRED := 0
  const AUTH_REQUEST := 1
  const AUTH_RESPONSE := 2
  const SERVICE_REQUEST := 3
  const SERVICE_RESPONSE := 4
  const SERVER_SHUTDOWN := 5
  const CLIENT_SHUTDOWN := 6
  const HEARTBEAT := 7

  // Error codes
  const NO_ERROR := 0
  const SERVICE_NOT_FOUND := 1
  const PROTOCOL_NOT_SUPPORTED := 2
  const SERVICE_DISABLED := 3
  const INVALID_PASSWORD := 4
  const PASSWORD_REQUIRED_ERROR := 5

  // Durations, in nanoseconds
  const MILLISECOND := 1_000_000
  const SECOND := 1_000_000_000

  datatype UnifiedMessage = UnifiedMessage(
    kind: int,
    password: string,
    success: bool,
    requirePassword: bool,
    serviceName: string,
    protocol: string,
    servicePassword: string,
    message: string,
    errorCode: int,
    data: map<string, string>,
    ttlMs: nat)

  /** The message every field of which is absent on the wire. */
  const DEFAULT := UnifiedMessage(0, "", false, false, "", "", "", "", 0, map[], 0)

  /** The protobuf library. */
  datatype Proto = Proto(
    marshal: UnifiedMessage -> Option<seq<byte>>,
    unmarshal: seq<byte> -> Option<UnifiedMessage>)

  ghost predicate Lawful(pr: Proto) {
    && pr.unmarshal([]) == Some(DEFAULT)
    && forall m :: pr.marshal(m).Some? ==> pr.unmarshal(pr.marshal(m).value) == Some(m)
  }

  const MAX_MESSAGE: nat := 0x40_0000

  ghost predicate Sendable(pr: Proto, m: UnifiedMessage) {
    pr.marshal(m).Some? && |pr.marshal(m).value| <= 4 * 1024 * 1024
  }

  /** The two writes that send a message: its length and its body. */
  ghost function Writes(pr: Proto, m: UnifiedMessage): seq<seq<byte>>
    requires Sendable(pr, m)
  {
    [Be32Bytes(|pr.marshal(m).value|), pr.marshal(m).value]
  }

  datatype Parsed = Got(msg: UnifiedMessage, rest: seq<byte>) | Failed

  /** One message off the front of a byte stream that ends after w. */
  ghost function Parse(pr: Proto, w: seq<byte>): Parsed {
    if |w| < 4 then Failed
    else
      var n := Be32(w[..4]);
      if n > MAX_MESSAGE then Failed
      else if n == 0 then Got(DEFAULT, w[4..])
      else if |w| - 4 < n then Failed
      else
        match pr.unmarshal(w[4..4 + n])
        case Some(m) => Got(m, w[4 + n..])
        case None => Failed
  }

  /** A message announced longer than 4 MiB is refused, whatever follows. */
  lemma OversizeRefused(pr: Proto, w: seq<byte>)
    requires |w| >= 4 && Be32(w[..4]) > 4 * 1024 * 1024
    ensures Parse(pr, w) == Failed
  {}

  /** Whatever part of a sent message and the bytes behind it arrives: either the whole message arrived,
      is received as sent and leaves exactly the bytes behind it, or nothing is received. */
  lemma ParseSent(pr: Proto, m: UnifiedMessage, tail: seq<byte>, w: seq<byte>)
    requires Lawful(pr) && Sendable(pr, m)
    requires w <= Flatten(Writes(pr, m)) + tail
    ensures var sent := Flatten(Writes(pr, m));
            Parse(pr, w) == if |w| < |sent| then Failed else Got(m, w[|sent|..])
  {
    var data := pr.marshal(m).value;
    var len := Be32Bytes(|data|);
    assert Flatten([len, data]) == len + Flatten([data]) == len + data;
    var all := len + data + tail;
    if |w| >= 4 {
      assert w[..4] == all[..4] == len;
      if |w| >= 4 + |data| {
        assert w[4..4 + |data|] == all[4..4 + |data|] == data;
      }
    }
  }
}
