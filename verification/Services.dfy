/** Service indexes, request validation, the client's verification round and the compression agreement. */
module Services {
  import opened Bytes
  import opened Messages
  import Runs

  datatype ServiceConfig = ServiceConfig(
    name: string, target: string, password: string, protocols: seq<string>, enabled: bool, compress: Option<bool>)

  // ----- The two indexes -----

  /** The last service of that name in the list, found by scanning it. */
  function LastNamed(list: seq<ServiceConfig>, name: string): Option<ServiceConfig> {
    if list == [] then None
    else
      var last := list[|list| - 1];
      if last.name == name then Some(last) else LastNamed(list[..|list| - 1], name)
  }

  /** Found exactly when the name occurs, and then it is the occurrence with none behind it. */
  lemma {:induction false} LastNamedAt(list: seq<ServiceConfig>, name: string)
    ensures LastNamed(list, name).Some? <==> exists i :: 0 <= i < |list| && list[i].name == name
    ensures forall i :: 0 <= i < |list| && list[i].name == name && (forall j :: i < j < |list| ==> list[j].name != name)
              ==> LastNamed(list, name) == Some(list[i])
  {
    if list != [] {
      var last := |list| - 1;
      LastNamedAt(list[..last], name);
      assert forall i :: 0 <= i < last ==> list[..last][i] == list[i];
      if list[last].name != name && LastNamed(list, name).Some? {
        var i :| 0 <= i < last && list[..last][i].name == name;
        assert list[i].name == name;
      }
    }
  }

  datatype Indexes = Indexes(services: map<string, ServiceConfig>, protocols: map<string, set<string>>)

  /** The maps agree with the scan on every name. */
  ghost predicate IndexesOf(ix: Indexes, list: seq<ServiceConfig>) {
    forall name ::
      match LastNamed(list, name)
      case Some(s) =>
        && name in ix.services && ix.services[name] == s
        && name in ix.protocols && ix.protocols[name] == set p | p in s.protocols
      case None => name !in ix.services && name !in ix.protocols
  }

  /** NewServer: one pass over the services, one pass over each service's protocols. */
  method BuildIndexes(list: seq<ServiceConfig>) returns (ix: Indexes)
    ensures IndexesOf(ix, list)
  {
    var services, protocols: map<string, set<string>> := map[], map[];
    assert list[..0] == [];
    for i := 0 to |list|
      invariant IndexesOf(Indexes(services, protocols), list[..i])
    {
      var service := list[i];
      services := services[service.name := service];
      var wanted := {};
      for j := 0 to |service.protocols|
        invariant wanted == set p | p in service.protocols[..j]
      {
        assert service.protocols[..j + 1] == service.protocols[..j] + [service.protocols[j]];
        wanted := wanted + {service.protocols[j]};
      }
      assert service.protocols[..|service.protocols|] == service.protocols;
      protocols := protocols[service.name := wanted];
      assert list[..i + 1][..i] == list[..i];
    }
    assert list[..|list|] == list;
    ix := Indexes(services, protocols);
  }

  // ----- Validation -----

  datatype Decision = Granted(service: ServiceConfig, zstd: bool) | Denied(code: int)

  /** validateServiceRequest, on the indexes. */
  function Validate(ix: Indexes, compress: bool, m: UnifiedMessage): Decision {
    if m.serviceName == "" || m.protocol == "" then Denied(NO_ERROR)
    else if m.serviceName !in ix.services then Denied(SERVICE_NOT_FOUND)
    else
      var service := ix.services[m.serviceName];
      if !service.enabled then Denied(SERVICE_DISABLED)
      else if m.serviceName !in ix.protocols || m.protocol !in ix.protocols[m.serviceName] then
        Denied(PROTOCOL_NOT_SUPPORTED)
      else if service.password != "" && m.servicePassword == "" then Denied(PASSWORD_REQUIRED_ERROR)
      else if service.password != "" && m.servicePassword != service.password then Denied(INVALID_PASSWORD)
      else Granted(service, if service.compress.Some? then service.compress.value else compress)
  }

  /** The server's compression decision for a name: its last service's own setting, else the default. */
  ghost function ZstdFor(list: seq<ServiceConfig>, compress: bool, name: string): bool {
    match LastNamed(list, name)
    case Some(s) => if s.compress.Some? then s.compress.value else compress
    case None => compress
  }

  /** A request is granted exactly when the last configured service of its name is enabled, lists its
      protocol and has no password or the one given; the decision is that service's. */
  lemma ValidateByScan(ix: Indexes, list: seq<ServiceConfig>, compress: bool, m: UnifiedMessage)
    requires IndexesOf(ix, list)
    ensures var d := Validate(ix, compress, m);
            var found := LastNamed(list, m.serviceName);
            && (d.Granted? <==>
                  && m.serviceName != "" && m.protocol != "" && found.Some?
                  && found.value.enabled && m.protocol in found.value.protocols
                  && (found.value.password == "" || found.value.password == m.servicePassword))
            && (d.Granted? ==> d.service == found.value && d.zstd == ZstdFor(list, compress, m.serviceName))
            && (d == Denied(NO_ERROR) <==> m.serviceName == "" || m.protocol == "")
            && (m.serviceName != "" && m.protocol != "" ==>
                  && (d == Denied(SERVICE_NOT_FOUND) <==> found.None?)
                  && (d == Denied(SERVICE_DISABLED) <==> found.Some? && !found.value.enabled)
                  && (d == Denied(PROTOCOL_NOT_SUPPORTED) <==>
                        found.Some? && found.value.enabled && m.protocol !in found.value.protocols)
                  && (d == Denied(PASSWORD_REQUIRED_ERROR) || d == Denied(INVALID_PASSWORD) <==>
                        && found.Some? && found.value.enabled && m.protocol in found.value.protocols
                        && found.value.password != "" && found.value.password != m.servicePassword)
                  && (d == Denied(PASSWORD_REQUIRED_ERROR) ==> m.servicePassword == "")
                  && (d == Denied(INVALID_PASSWORD) ==> m.servicePassword != ""))
  {
    assert m.serviceName in ix.services <==> LastNamed(list, m.serviceName).Some?;
  }

  function BoolText(b: bool): string { if b then "true" else "false" }

  function Response(d: Decision): UnifiedMessage {
    match d
    case Granted(_, zstd) =>
      DEFAULT.(kind := SERVICE_RESPONSE, success := true, data := map["zstd" := BoolText(zstd)], ttlMs := 30_000)
    case Denied(code) => DEFAULT.(kind := SERVICE_RESPONSE, success := false, errorCode := code, ttlMs := 30_000)
  }

  // ----- The client's side -----

  datatype LocalService = LocalService(name: string, password: string, protocols: seq<string>, enabled: bool)

  datatype Request = Request(name: string, protocol: string, password: string)

  function ServiceRequests(s: LocalService): seq<Request> {
    if s.enabled then
      seq(|s.protocols|, i requires 0 <= i < |s.protocols| => Request(s.name, s.protocols[i], s.password))
    else []
  }

  /** verifyServiceConfiguration asks for every protocol of every enabled service, in order. */
  function Requests(list: seq<LocalService>): seq<Request> {
    if list == [] then [] else ServiceRequests(list[0]) + Requests(list[1..])
  }

  lemma {:induction false} EnabledIsRequested(list: seq<LocalService>, s: LocalService, i: nat)
    requires s in list && s.enabled && i < |s.protocols|
    ensures Request(s.name, s.protocols[i], s.password) in Requests(list)
  {
    if list[0] == s {
      assert ServiceRequests(s)[i] in ServiceRequests(s);
    } else {
      EnabledIsRequested(list[1..], s, i);
    }
  }

  /** And nothing else is asked for. */
  lemma {:induction false} RequestedIsEnabled(list: seq<LocalService>, q: Request)
    requires q in Requests(list)
    ensures exists s :: s in list && s.enabled && s.name == q.name && s.password == q.password
              && q.protocol in s.protocols
  {
    if q in ServiceRequests(list[0]) {
      var i :| 0 <= i < |ServiceRequests(list[0])| && ServiceRequests(list[0])[i] == q;
      assert list[0] in list && list[0].protocols[i] == q.protocol;
    } else {
      assert q in Requests(list[1..]);
      RequestedIsEnabled(list[1..], q);
      var s :| s in list[1..] && s.enabled && s.name == q.name && s.password == q.password && q.protocol in s.protocols;
      assert s in list;
    }
  }

  function RequestMessage(q: Request): UnifiedMessage {
    DEFAULT.(kind := SERVICE_REQUEST, serviceName := q.name, protocol := q.protocol,
             servicePassword := q.password, ttlMs := 30_000)
  }

  function Lower(c: char): char {
    if 'A' <= c <= 'Z' then (c as int + 32) as char else c
  }

  /** Equality up to letter case. */
  predicate EqualFold(a: string, b: string) {
    |a| == |b| && forall i :: 0 <= i < |a| ==> Lower(a[i]) == Lower(b[i])
  }

  /** What a successful response does to the client's cached compression decisions. */
  function Remember(cache: map<string, bool>, name: string, m: UnifiedMessage): map<string, bool> {
    if "zstd" in m.data then cache[name := EqualFold(m.data["zstd"], "true")] else cache
  }

  lemma TextRoundTrip(b: bool)
    ensures EqualFold(BoolText(b), "true") == b
    ensures EqualFold("True", "true") && EqualFold("TRUE", "true")
  {
    if !b {
      assert |BoolText(b)| != |"true"|;
    }
  }

  /** The server's answer to a request says yes exactly when the last service of that name is enabled, lists the
      protocol and has no password or the one given. A yes carries that service's own compression setting, or the
      server's default; a no carries the code of its case. */
  lemma AnswerIff(list: seq<ServiceConfig>, srv: Server, q: Request)
    requires IndexesOf(srv.ix, list)
    ensures var m := Answer(srv, RequestMessage(q));
            var found := LastNamed(list, q.name);
            && m.kind == SERVICE_RESPONSE
            && (m.success <==>
                  && q.name != "" && q.protocol != "" && found.Some? && found.value.enabled
                  && q.protocol in found.value.protocols
                  && (found.value.password == "" || found.value.password == q.password))
            && (m.success ==>
                  && "zstd" in m.data
                  && var own := found.value.compress;
                     m.data["zstd"] == if own == Some(true) || (own.None? && srv.compress) then "true" else "false")
            && (!m.success ==>
                  m.errorCode == if q.name == "" || q.protocol == "" then 0
                                 else if found.None? then SERVICE_NOT_FOUND
                                 else if !found.value.enabled then SERVICE_DISABLED
                                 else if q.protocol !in found.value.protocols then PROTOCOL_NOT_SUPPORTED
                                 else if q.password == "" then PASSWORD_REQUIRED_ERROR
                                 else INVALID_PASSWORD)
  {
    ValidateByScan(srv.ix, list, srv.compress, RequestMessage(q));
  }

  // ----- The verification round -----

  /** Client and server during verification on one control stream: each side's inbound queue, what the
      client has verified, and a record of which response it took for which request. */
  datatype Round = Round(
    verified: nat, waiting: bool, failed: bool,
    toServer: seq<UnifiedMessage>, toClient: seq<UnifiedMessage>,
    cache: map<string, bool>, taken: seq<(Request, UnifiedMessage)>)

  datatype Server = Server(ix: Indexes, compress: bool)

  function Answer(srv: Server, m: UnifiedMessage): UnifiedMessage { Response(Validate(srv.ix, srv.compress, m)) }

  datatype Step =
    | Ask              // the client sends its next request
    | Reply            // the server's monitor takes a request and answers it
    | Take             // the client takes a response
    | DropRequest      // a message expires or is evicted in a dispatcher
    | DropResponse
    | GiveUp           // the client's wait times out

  function Begin(cache: map<string, bool>): Round { Round(0, false, false, [], [], cache, []) }

  predicate Enabled(wanted: seq<Request>, r: Round, step: Step) {
    match step
    case Ask => !r.failed && !r.waiting && r.verified < |wanted|
    case Reply => r.toServer != []
    case Take => !r.failed && r.waiting && r.verified < |wanted| && r.toClient != []
    case DropRequest => r.toServer != []
    case DropResponse => r.toClient != []
    case GiveUp => !r.failed && r.waiting
  }

  function Next(srv: Server, wanted: seq<Request>, r: Round, step: Step): Round
    requires Enabled(wanted, r, step)
  {
    match step
    case Ask => r.(toServer := r.toServer + [RequestMessage(wanted[r.verified])], waiting := true)
    case Reply => r.(toServer := r.toServer[1..], toClient := r.toClient + [Answer(srv, r.toServer[0])])
    case Take =>
      var m, q := r.toClient[0], wanted[r.verified];
      var got := r.(toClient := r.toClient[1..], waiting := false, taken := r.taken + [(q, m)]);
      if m.success then got.(verified := r.verified + 1, cache := Remember(r.cache, q.name, m))
      else got.(failed := true)
    case DropRequest => r.(toServer := r.toServer[1..])
    case DropResponse => r.(toClient := r.toClient[1..])
    case GiveUp => r.(failed := true, waiting := false)
  }

  function Try(srv: Server, wanted: seq<Request>): (Round, Step) -> Option<Round> {
    (r, step) => if Enabled(wanted, r, step) then Some(Next(srv, wanted, r, step)) else None
  }

  function Run(srv: Server, wanted: seq<Request>, cache: map<string, bool>, steps: seq<Step>): Option<Round> {
    Runs.Run(Begin(cache), Try(srv, wanted), steps)
  }

  /** At most one message is in flight, and it belongs to the request being verified. */
  ghost predicate Lockstep(srv: Server, wanted: seq<Request>, r: Round) {
    !r.failed ==>
      if r.waiting then
        && r.verified < |wanted|
        && var q := RequestMessage(wanted[r.verified]);
           || (r.toServer == [q] && r.toClient == [])
           || (r.toServer == [] && r.toClient == [Answer(srv, q)])
           || (r.toServer == [] && r.toClient == [])
      else r.toServer == [] && r.toClient == []
  }

  ghost predicate Agreed(list: seq<ServiceConfig>, srv: Server, wanted: seq<Request>, r: Round) {
    && r.verified <= |wanted|
    && forall k :: 0 <= k < r.verified ==>
         && Answer(srv, RequestMessage(wanted[k])).success
         && wanted[k].name in r.cache && r.cache[wanted[k].name] == ZstdFor(list, srv.compress, wanted[k].name)
  }

  ghost predicate Matched(srv: Server, r: Round) {
    forall k :: 0 <= k < |r.taken| ==> r.taken[k].1 == Answer(srv, RequestMessage(r.taken[k].0))
  }

  lemma AnswerZstd(list: seq<ServiceConfig>, srv: Server, q: Request)
    requires IndexesOf(srv.ix, list)
    ensures var m := Answer(srv, RequestMessage(q));
            m.success ==> "zstd" in m.data && EqualFold(m.data["zstd"], "true") == ZstdFor(list, srv.compress, q.name)
  {
    ValidateByScan(srv.ix, list, srv.compress, RequestMessage(q));
    TextRoundTrip(ZstdFor(list, srv.compress, q.name));
  }

  lemma StepKeeps(list: seq<ServiceConfig>, srv: Server, wanted: seq<Request>, r: Round, step: Step)
    requires IndexesOf(srv.ix, list) && Enabled(wanted, r, step)
    requires Lockstep(srv, wanted, r) && Agreed(list, srv, wanted, r) && Matched(srv, r)
    ensures var n := Next(srv, wanted, r, step);
            Lockstep(srv, wanted, n) && Agreed(list, srv, wanted, n) && Matched(srv, n)
  {
    if step.Take? {
      AnswerZstd(list, srv, wanted[r.verified]);
    }
  }

  /** Whatever is delayed or lost, each response the client takes answers the request it was waiting for, and
      each verified name is cached with the server's decision for the last configured service of that name. */
  lemma VerificationAgrees(list: seq<ServiceConfig>, srv: Server, wanted: seq<Request>, cache: map<string, bool>,
                           steps: seq<Step>)
    requires IndexesOf(srv.ix, list) && Run(srv, wanted, cache, steps).Some?
    ensures var r := Run(srv, wanted, cache, steps).value;
            Lockstep(srv, wanted, r) && Agreed(list, srv, wanted, r) && Matched(srv, r)
  {
    forall r, e | Lockstep(srv, wanted, r) && Agreed(list, srv, wanted, r) && Matched(srv, r) && Enabled(wanted, r, e)
      ensures var n := Next(srv, wanted, r, e);
              Lockstep(srv, wanted, n) && Agreed(list, srv, wanted, n) && Matched(srv, n)
    {
      StepKeeps(list, srv, wanted, r, e);
    }
    Runs.Invariant(Begin(cache), Try(srv, wanted), steps,
                   r => Lockstep(srv, wanted, r) && Agreed(list, srv, wanted, r) && Matched(srv, r));
  }

  /** When the server says yes to every request and nothing is lost, every request gets verified. */
  lemma {:induction false} VerificationCompletes(srv: Server, wanted: seq<Request>, cache: map<string, bool>, n: nat)
    returns (steps: seq<Step>)
    requires n <= |wanted| && forall k :: 0 <= k < n ==> Answer(srv, RequestMessage(wanted[k])).success
    ensures Run(srv, wanted, cache, steps).Some?
    ensures var r := Run(srv, wanted, cache, steps).value;
            r.verified == n && !r.failed && !r.waiting && r.toServer == [] && r.toClient == []
    decreases n
  {
    if n == 0 {
      steps := [];
    } else {
      steps := VerificationCompletes(srv, wanted, cache, n - 1);
      var next := Try(srv, wanted);
      var r0 := Run(srv, wanted, cache, steps).value;
      var r1 := Next(srv, wanted, r0, Ask);
      Runs.OneMore(Begin(cache), next, steps, r0, Ask);
      var r2 := Next(srv, wanted, r1, Reply);
      Runs.OneMore(Begin(cache), next, steps + [Ask], r1, Reply);
      Runs.OneMore(Begin(cache), next, steps + [Ask] + [Reply], r2, Take);
      steps := steps + [Ask] + [Reply] + [Take];
    }
  }

  // ----- Framing -----

  /** The base protocol with a leading slash and no trailing one. */
  function NormalizeBase(base: string): string {
    if base == "" then "/f2p-forward/0.0.2" else TrimRight(if base[0] == '/' then base else "/" + base)
  }

  function TrimRight(s: string): string {
    if s != "" && s[|s| - 1] == '/' then TrimRight(s[..|s| - 1]) else s
  }

  lemma {:induction false} TrimMore(s: string, n: nat)
    ensures TrimRight(s + seq(n, _ => '/')) == TrimRight(s)
    decreases n
  {
    var longer := s + seq(n, _ => '/');
    if n == 0 {
      assert longer == s;
    } else {
      assert longer[..|longer| - 1] == s + seq(n - 1, _ => '/');
      TrimMore(s, n - 1);
    }
  }

  lemma {:induction false} TrimBehind(s: string)
    ensures TrimRight("/" + s) == if TrimRight(s) == "" then "" else "/" + TrimRight(s)
    decreases |s|
  {
    var rooted := "/" + s;
    if s == "" {
      assert rooted[..0] == "";
    } else if s[|s| - 1] == '/' {
      assert rooted[..|rooted| - 1] == "/" + s[..|s| - 1];
      TrimBehind(s[..|s| - 1]);
    }
  }

  lemma NormalizeShape(base: string)
    ensures NormalizeBase("") == "/f2p-forward/0.0.2"
    ensures base != "" && base[0] != '/' && base[|base| - 1] != '/' ==> NormalizeBase(base) == "/" + base
  {}

  /** Any number of slashes behind a given base make no difference. One more in front makes none exactly when the
      base has none there, or is nothing but slashes. */
  lemma SlashesIgnored(base: string, n: nat)
    requires base != ""
    ensures NormalizeBase(base + seq(n, _ => '/')) == NormalizeBase(base)
    ensures NormalizeBase("/" + base) == NormalizeBase(base) <==> base[0] != '/' || TrimRight(base) == ""
  {
    var slashes := seq(n, _ => '/');
    TrimMore(if base[0] == '/' then base else "/" + base, n);
    assert "/" + (base + slashes) == ("/" + base) + slashes;
    TrimBehind(base);
  }

  function DataProtocol(base: string): string { NormalizeBase(base) + "/data" }

  function DataProtocolZstd(base: string): string { NormalizeBase(base) + "/data+zstd" }

  predicate HasSuffix(s: string, suffix: string) {
    |s| >= |suffix| && s[|s| - |suffix|..] == suffix
  }

  /** How a data stream announces itself: a type byte on the direct connection, a protocol otherwise. */
  datatype Tag = QuicType(b: byte) | Protocol(id: string)

  const STREAM_CONTROL: byte := 1
  const STREAM_DATA: byte := 2
  const STREAM_DATA_ZSTD: byte := 3

  function OpenTag(direct: bool, base: string, zstd: bool): Tag {
    if direct then QuicType(if zstd then STREAM_DATA_ZSTD else STREAM_DATA)
    else Protocol(if zstd then DataProtocolZstd(base) else DataProtocol(base))
  }

  /** The framing the server uses on a stream it takes for a data stream. */
  function ServerFraming(base: string, tag: Tag): Option<bool> {
    match tag
    case QuicType(b) => if b == STREAM_DATA then Some(false) else if b == STREAM_DATA_ZSTD then Some(true) else None
    case Protocol(id) =>
      if id == DataProtocol(base) || id == DataProtocolZstd(base) then Some(HasSuffix(id, "/data+zstd")) else None
  }

  /** Client and server frame a data stream alike on either transport, for any pair of base protocols that
      normalise to the same one. */
  lemma FramingAgrees(direct: bool, clientBase: string, serverBase: string, zstd: bool)
    requires NormalizeBase(clientBase) == NormalizeBase(serverBase)
    ensures ServerFraming(serverBase, OpenTag(direct, clientBase, zstd)) == Some(zstd)
  {
    if !direct {
      var id := OpenTag(direct, clientBase, zstd).id;
      if zstd {
        assert id[|id| - |"/data+zstd"|..] == "/data+zstd";
      } else {
        assert id[|id| - 1] == 'a';
        var last := |"/data+zstd"| - 1;
        assert |id| > last ==> id[|id| - 1 - last..][last] == 'a';
        assert "/data+zstd"[last] == 'd';
      }
    }
  }

  /** The server takes nothing else for a data stream: of type bytes 2 and 3, of protocols the two data ones. */
  lemma FramingOnly(base: string, tag: Tag, zstd: bool)
    requires ServerFraming(base, tag) == Some(zstd)
    ensures tag == if tag.QuicType? then QuicType(if zstd then 3 else 2)
                   else Protocol(NormalizeBase(base) + if zstd then "/data+zstd" else "/data")
  {
    if tag.Protocol? {
      FramingAgrees(false, base, base, false);
      FramingAgrees(false, base, base, true);
    }
  }

  /** handleLocalConnForProtocol's choice, then both ends' framing: once a name is verified the stream is
      compressed at both ends exactly when the server's last service of that name says so. */
  lemma CompressionAgreement(list: seq<ServiceConfig>, srv: Server, wanted: seq<Request>, cache: map<string, bool>,
                             steps: seq<Step>, k: nat, direct: bool, clientBase: string, serverBase: string)
    requires IndexesOf(srv.ix, list) && Run(srv, wanted, cache, steps).Some?
    requires k < Run(srv, wanted, cache, steps).value.verified && k < |wanted|
    requires NormalizeBase(clientBase) == NormalizeBase(serverBase)
    ensures var r := Run(srv, wanted, cache, steps).value;
            var name := wanted[k].name;
            var useZstd := name in r.cache && r.cache[name];
            && useZstd == ZstdFor(list, srv.compress, name)
            && ServerFraming(serverBase, OpenTag(direct, clientBase, useZstd)) == Some(useZstd)
  {
    VerificationAgrees(list, srv, wanted, cache, steps);
    var r := Run(srv, wanted, cache, steps).value;
    FramingAgrees(direct, clientBase, serverBase, wanted[k].name in r.cache && r.cache[wanted[k].name]);
  }
}
