/** The server's session table under every interleaving of control, data and monitor goroutines on both
    transports, together with the clients that drive it. Each step is one critical section, one message
    sent or received, or one goroutine starting or ending. The log is a history variable. */
module Sessions {
  import opened Bytes
  import opened Messages
  import Services
  import Runs

  type Peer = nat
  type Conn = nat      // one control stream, libp2p or QUIC
  type DataId = nat    // one data stream

  // ----- Authentication -----

  datatype Config = Config(
    hash: string,                                   // empty: no password required
    verify: (string, string) -> bool,               // the password check
    services: Peer -> seq<Services.LocalService>)   // each client's configuration

  datatype Judgement = Accepted | TimedOut | ShutDown | WrongType | WrongPassword

  /** handleAuthOnControl's verdict on what its wait returned. */
  function Judge(cfg: Config, got: Option<UnifiedMessage>): Judgement {
    match got
    case None => TimedOut
    case Some(m) =>
      if m.kind == CLIENT_SHUTDOWN then ShutDown
      else if m.kind != AUTH_REQUEST then WrongType
      else if cfg.hash == "" || cfg.verify(m.password, cfg.hash) then Accepted
      else WrongPassword
  }

  /** The check itself: an authentication request, with the right password when one is required. */
  ghost predicate Credentials(cfg: Config, m: UnifiedMessage) {
    m.kind == AUTH_REQUEST && (cfg.hash != "" ==> cfg.verify(m.password, cfg.hash))
  }

  // ----- State -----

  datatype Session = Session(peer: Peer, conn: Conn, quic: bool) {
    /** The session's controlStream field: nil for every QUIC session. */
    function ControlStream(): Option<Conn> { if quic then None else Some(conn) }
  }

  datatype Pc =
    | Opened           // handler started
    | Authenticating   // found no session
    | Authenticated    // the check passed
    | Replacing        // found a session
    | Evicted          // removed it, or found it already gone
    | Monitoring       // installed its own session
    | Over

  datatype Handler = Handler(peer: Peer, quic: bool, pc: Pc)

  /** A client: its current control stream and how far verification on it has come. */
  datatype Client = Client(conn: Conn, verified: nat, waiting: bool)

  datatype Link = Link(requests: nat, responses: nat)

  datatype Event =
    | CheckPassed(peer: Peer, msg: UnifiedMessage)
    | Installed(peer: Peer, conn: Conn)
    | Removed(peer: Peer, conn: Conn)
    | DataOpened(id: DataId, peer: Peer, conn: Conn)
    | Served(id: DataId, peer: Peer)
    | Refused(id: DataId, peer: Peer)

  datatype State = State(
    table: map<Peer, Session>,
    handlers: map<Conn, Handler>,
    clients: map<Peer, Client>,
    links: map<Conn, Link>,
    streams: map<DataId, Peer>,
    log: seq<Event>)
  {
    predicate At(conn: Conn, pc: Pc) { conn in handlers && handlers[conn].pc == pc }

    function Move(conn: Conn, pc: Pc): State
      requires conn in handlers
    {
      this.(handlers := handlers[conn := handlers[conn].(pc := pc)])
    }

    function Note(e: Event): State { this.(log := log + [e]) }

    /** Delete p's entry, if there is one. */
    function Drop(p: Peer): State {
      if p in table then this.(table := table - {p}).Note(Removed(p, table[p].conn)) else this
    }

    /** All enabled services of p are verified on its current control stream. */
    predicate Ready(cfg: Config, p: Peer) {
      p in clients && clients[p].verified == |Services.Requests(cfg.services(p))|
    }
  }

  const START := State(map[], map[], map[], map[], map[], [])

  // ----- Steps -----

  datatype Step =
    | Connect(peer: Peer, conn: Conn, quic: bool)
    | CheckExists(conn: Conn)
    | Authenticate(conn: Conn, msg: UnifiedMessage)
    | GiveUp(conn: Conn)
    | Evict(conn: Conn)
    | Install(conn: Conn)
    | Answer(conn: Conn)
    | MonitorEnds(conn: Conn)
    | Ask(peer: Peer)
    | Hear(peer: Peer)
    | OpenData(peer: Peer, id: DataId, service: Services.LocalService, protocol: string)
    | OpenDataAnyway(peer: Peer, id: DataId)
    | AcceptData(id: DataId)

  predicate Enabled(cfg: Config, s: State, step: Step) {
    match step
    case Connect(_, conn, _) => conn !in s.handlers
    case CheckExists(conn) => s.At(conn, Opened)
    case Authenticate(conn, m) => s.At(conn, Authenticating) && Judge(cfg, Some(m)) == Accepted
    case GiveUp(conn) => s.At(conn, Authenticating) || s.At(conn, Authenticated)
    case Evict(conn) => s.At(conn, Replacing)
    case Install(conn) => s.At(conn, Authenticated) || s.At(conn, Evicted)
    case Answer(conn) => s.At(conn, Monitoring) && conn in s.links && s.links[conn].requests > 0
    case MonitorEnds(conn) => s.At(conn, Monitoring)
    case Ask(p) =>
      && p in s.clients && !s.clients[p].waiting && s.clients[p].conn in s.links
      && s.clients[p].verified < |Services.Requests(cfg.services(p))|
    case Hear(p) =>
      && p in s.clients && s.clients[p].waiting && s.clients[p].conn in s.links
      && s.links[s.clients[p].conn].responses > 0
    case OpenData(p, id, service, protocol) =>
      && id !in s.streams && s.Ready(cfg, p)
      && service in cfg.services(p) && service.enabled && protocol in service.protocols
    case OpenDataAnyway(_, id) => id !in s.streams
    case AcceptData(id) => id in s.streams
  }

  function Next(cfg: Config, s: State, step: Step): State
    requires Enabled(cfg, s, step)
  {
    match step
    case Connect(p, conn, quic) =>
      s.(handlers := s.handlers[conn := Handler(p, quic, Opened)],
         clients := s.clients[p := Client(conn, 0, false)],
         links := s.links[conn := Link(0, 0)])
    case CheckExists(conn) =>
      s.Move(conn, if s.handlers[conn].peer in s.table then Replacing else Authenticating)
    case Authenticate(conn, m) =>
      s.Move(conn, Authenticated).Note(CheckPassed(s.handlers[conn].peer, m))
    case GiveUp(conn) => s.Move(conn, Over)
    case Evict(conn) => s.Drop(s.handlers[conn].peer).Move(conn, Evicted)
    case Install(conn) =>
      var h := s.handlers[conn];
      s.(table := s.table[h.peer := Session(h.peer, conn, h.quic)]).Move(conn, Monitoring).Note(Installed(h.peer, conn))
    case Answer(conn) =>
      s.(links := s.links[conn := Link(s.links[conn].requests - 1, s.links[conn].responses + 1)])
    case MonitorEnds(conn) =>
      var h := s.handlers[conn];
      var mine := Session(h.peer, conn, h.quic);
      var after := if h.peer in s.table && s.table[h.peer].ControlStream() == mine.ControlStream()
        then s.Drop(h.peer) else s;
      after.Move(conn, Over)
    case Ask(p) =>
      var c := s.clients[p];
      s.(clients := s.clients[p := c.(waiting := true)],
         links := s.links[c.conn := s.links[c.conn].(requests := s.links[c.conn].requests + 1)])
    case Hear(p) =>
      var c := s.clients[p];
      s.(clients := s.clients[p := c.(waiting := false, verified := c.verified + 1)],
         links := s.links[c.conn := s.links[c.conn].(responses := s.links[c.conn].responses - 1)])
    case OpenData(p, id, _, _) =>
      s.(streams := s.streams[id := p]).Note(DataOpened(id, p, s.clients[p].conn))
    case OpenDataAnyway(p, id) => s.(streams := s.streams[id := p])
    case AcceptData(id) =>
      var p := s.streams[id];
      s.(streams := s.streams - {id}).Note(if p in s.table then Served(id, p) else Refused(id, p))
  }

  function Try(cfg: Config): (State, Step) -> Option<State> {
    (s, step) => if Enabled(cfg, s, step) then Some(Next(cfg, s, step)) else None
  }

  function RunFrom(cfg: Config, s: State, steps: seq<Step>): Option<State> { Runs.Run(s, Try(cfg), steps) }

  function Run(cfg: Config, steps: seq<Step>): Option<State> { RunFrom(cfg, START, steps) }

  // ----- Invariant -----

  /** The log records that p passed the check. */
  ghost predicate Passed(cfg: Config, log: seq<Event>, p: Peer) {
    log != [] &&
    var e := log[|log| - 1];
    (e.CheckPassed? && e.peer == p && Credentials(cfg, e.msg)) || Passed(cfg, log[..|log| - 1], p)
  }

  /** The last word on p in the log is an installation. */
  ghost predicate Listed(log: seq<Event>, p: Peer) {
    log != [] &&
    var e := log[|log| - 1];
    if e.Installed? && e.peer == p then true
    else if e.Removed? && e.peer == p then false
    else Listed(log[..|log| - 1], p)
  }

  /** What must have happened before an event. */
  ghost predicate Justified(cfg: Config, before: seq<Event>, e: Event) {
    match e
    case CheckPassed(_, m) => Credentials(cfg, m)
    case Installed(p, _) => Passed(cfg, before, p)
    case Removed(p, conn) => Installed(p, conn) in before
    case DataOpened(_, p, conn) => Installed(p, conn) in before
    case Served(_, p) => Passed(cfg, before, p) && Listed(before, p)
    case Refused(_, p) => !Listed(before, p)
  }

  ghost predicate Sound(cfg: Config, log: seq<Event>) {
    log == [] || (Sound(cfg, log[..|log| - 1]) && Justified(cfg, log[..|log| - 1], log[|log| - 1]))
  }

  ghost predicate HandlerOk(cfg: Config, log: seq<Event>, conn: Conn, h: Handler) {
    && (h.pc != Opened && h.pc != Authenticating && h.pc != Over ==> Passed(cfg, log, h.peer))
    && (h.pc == Monitoring ==> Installed(h.peer, conn) in log)
  }

  ghost predicate HandlersOk(cfg: Config, log: seq<Event>, handlers: map<Conn, Handler>) {
    forall conn :: conn in handlers ==> HandlerOk(cfg, log, conn, handlers[conn])
  }

  /** Only a monitor answers. */
  ghost predicate LinksOk(log: seq<Event>, handlers: map<Conn, Handler>, links: map<Conn, Link>) {
    forall conn :: conn in links && links[conn].responses > 0 ==>
      conn in handlers && Installed(handlers[conn].peer, conn) in log
  }

  /** A listed session belongs to its peer and its monitor is still running. */
  ghost predicate TableOk(handlers: map<Conn, Handler>, table: map<Peer, Session>) {
    forall p :: p in table ==>
      table[p].peer == p && table[p].conn in handlers &&
      handlers[table[p].conn] == Handler(p, table[p].quic, Monitoring)
  }

  ghost predicate ClientsOk(log: seq<Event>, handlers: map<Conn, Handler>, clients: map<Peer, Client>) {
    forall p :: p in clients ==>
      var c := clients[p];
      && c.conn in handlers && handlers[c.conn].peer == p
      && (c.verified > 0 ==> Installed(p, c.conn) in log)
  }

  ghost predicate LogOk(cfg: Config, log: seq<Event>, table: map<Peer, Session>) {
    Sound(cfg, log) && forall p :: p in table <==> Listed(log, p)
  }

  ghost predicate Inv(cfg: Config, s: State) {
    && HandlersOk(cfg, s.log, s.handlers)
    && LinksOk(s.log, s.handlers, s.links)
    && TableOk(s.handlers, s.table)
    && ClientsOk(s.log, s.handlers, s.clients)
    && LogOk(cfg, s.log, s.table)
  }

  lemma LogGrows(cfg: Config, log: seq<Event>, e: Event)
    ensures var more := log + [e];
            && (forall p :: Passed(cfg, log, p) ==> Passed(cfg, more, p))
            && (Sound(cfg, more) <==> Sound(cfg, log) && Justified(cfg, log, e))
            && (forall p :: Listed(more, p) ==
                  if e.Installed? && e.peer == p then true
                  else if e.Removed? && e.peer == p then false else Listed(log, p))
  {
    var more := log + [e];
    assert more[..|more| - 1] == log;
  }

  /** Everything but the table survives a longer log. */
  lemma LogGrowsUnder(cfg: Config, s: State, e: Event)
    requires Inv(cfg, s)
    ensures var more := s.log + [e];
            && HandlersOk(cfg, more, s.handlers)
            && LinksOk(more, s.handlers, s.links)
            && ClientsOk(more, s.handlers, s.clients)
  {
    LogGrows(cfg, s.log, e);
  }

  lemma ConnectKeeps(cfg: Config, s: State, p: Peer, conn: Conn, quic: bool)
    requires Inv(cfg, s) && Enabled(cfg, s, Connect(p, conn, quic))
    ensures Inv(cfg, Next(cfg, s, Connect(p, conn, quic)))
  {
    var n := Next(cfg, s, Connect(p, conn, quic));
    assert HandlersOk(cfg, n.log, n.handlers);
    assert LinksOk(n.log, n.handlers, n.links);
    assert TableOk(n.handlers, n.table);
    assert ClientsOk(n.log, n.handlers, n.clients);
  }

  /** A goroutine may move on to a state whose claims the log supports. */
  lemma Relabel(cfg: Config, log: seq<Event>, handlers: map<Conn, Handler>, links: map<Conn, Link>,
                clients: map<Peer, Client>, conn: Conn, pc: Pc)
    requires HandlersOk(cfg, log, handlers) && LinksOk(log, handlers, links) && ClientsOk(log, handlers, clients)
    requires conn in handlers && HandlerOk(cfg, log, conn, handlers[conn].(pc := pc))
    ensures var moved := handlers[conn := handlers[conn].(pc := pc)];
            HandlersOk(cfg, log, moved) && LinksOk(log, moved, links) && ClientsOk(log, moved, clients)
  {}

  lemma MoveKeeps(cfg: Config, s: State, conn: Conn, pc: Pc)
    requires Inv(cfg, s) && conn in s.handlers
    requires forall p :: p in s.table ==> s.table[p].conn != conn
    requires HandlerOk(cfg, s.log, conn, s.handlers[conn].(pc := pc))
    ensures Inv(cfg, s.Move(conn, pc))
  {
    Relabel(cfg, s.log, s.handlers, s.links, s.clients, conn, pc);
  }

  lemma CheckExistsKeeps(cfg: Config, s: State, conn: Conn)
    requires Inv(cfg, s) && Enabled(cfg, s, CheckExists(conn))
    ensures Inv(cfg, Next(cfg, s, CheckExists(conn)))
  {
    var p := s.handlers[conn].peer;
    if p in s.table {
      assert HandlerOk(cfg, s.log, s.table[p].conn, s.handlers[s.table[p].conn]);
      MoveKeeps(cfg, s, conn, Replacing);
    } else {
      MoveKeeps(cfg, s, conn, Authenticating);
    }
  }

  lemma TalkKeeps(cfg: Config, s: State, step: Step)
    requires Inv(cfg, s) && Enabled(cfg, s, step)
    requires step.Answer? || step.Ask? || step.Hear?
    ensures Inv(cfg, Next(cfg, s, step))
  {
    if step.Answer? {
      assert HandlerOk(cfg, s.log, step.conn, s.handlers[step.conn]);
    }
  }

  lemma AuthenticateKeeps(cfg: Config, s: State, conn: Conn, m: UnifiedMessage)
    requires Inv(cfg, s) && Enabled(cfg, s, Authenticate(conn, m))
    ensures Inv(cfg, Next(cfg, s, Authenticate(conn, m)))
  {
    var e := CheckPassed(s.handlers[conn].peer, m);
    LogGrows(cfg, s.log, e);
    LogGrowsUnder(cfg, s, e);
    assert (s.log + [e])[..|s.log|] == s.log;
    Relabel(cfg, s.log + [e], s.handlers, s.links, s.clients, conn, Authenticated);
  }

  lemma DropKeeps(cfg: Config, s: State, p: Peer)
    requires Inv(cfg, s) && p in s.table
    ensures Inv(cfg, s.Drop(p))
  {
    var e := Removed(p, s.table[p].conn);
    assert HandlerOk(cfg, s.log, s.table[p].conn, s.handlers[s.table[p].conn]);
    LogGrows(cfg, s.log, e);
    LogGrowsUnder(cfg, s, e);
  }

  lemma EvictKeeps(cfg: Config, s: State, conn: Conn)
    requires Inv(cfg, s) && Enabled(cfg, s, Evict(conn))
    ensures Inv(cfg, Next(cfg, s, Evict(conn)))
  {
    var p := s.handlers[conn].peer;
    assert HandlerOk(cfg, s.log, conn, s.handlers[conn]);
    var t := s.Drop(p);
    if p in s.table {
      DropKeeps(cfg, s, p);
      LogGrows(cfg, s.log, Removed(p, s.table[p].conn));
    }
    MoveKeeps(cfg, t, conn, Evicted);
  }

  lemma MonitorEndsKeeps(cfg: Config, s: State, conn: Conn)
    requires Inv(cfg, s) && Enabled(cfg, s, MonitorEnds(conn))
    ensures Inv(cfg, Next(cfg, s, MonitorEnds(conn)))
  {
    var p := s.handlers[conn].peer;
    var mine := Session(p, conn, s.handlers[conn].quic);
    if p in s.table && s.table[p].ControlStream() == mine.ControlStream() {
      DropKeeps(cfg, s, p);
      MoveKeeps(cfg, s.Drop(p), conn, Over);
    } else {
      MoveKeeps(cfg, s, conn, Over);
    }
  }

  lemma InstallLists(cfg: Config, s: State, conn: Conn)
    requires Inv(cfg, s) && Enabled(cfg, s, Install(conn))
    ensures var n := Next(cfg, s, Install(conn));
            TableOk(n.handlers, n.table) && LogOk(cfg, n.log, n.table)
  {
    assert HandlerOk(cfg, s.log, conn, s.handlers[conn]);
    LogGrows(cfg, s.log, Installed(s.handlers[conn].peer, conn));
  }

  lemma InstallKeeps(cfg: Config, s: State, conn: Conn)
    requires Inv(cfg, s) && Enabled(cfg, s, Install(conn))
    ensures Inv(cfg, Next(cfg, s, Install(conn)))
  {
    InstallLists(cfg, s, conn);
    var e := Installed(s.handlers[conn].peer, conn);
    LogGrowsUnder(cfg, s, e);
    var more := s.log + [e];
    assert e in more && HandlerOk(cfg, more, conn, s.handlers[conn]);
    Relabel(cfg, more, s.handlers, s.links, s.clients, conn, Monitoring);
  }

  lemma NoteKeeps(cfg: Config, s: State, e: Event)
    requires Inv(cfg, s) && Justified(cfg, s.log, e) && !e.Installed? && !e.Removed?
    ensures Inv(cfg, s.Note(e))
  {
    LogGrows(cfg, s.log, e);
    LogGrowsUnder(cfg, s, e);
  }

  lemma OpenDataKeeps(cfg: Config, s: State, p: Peer, id: DataId, service: Services.LocalService, protocol: string)
    requires Inv(cfg, s) && Enabled(cfg, s, OpenData(p, id, service, protocol))
    ensures Inv(cfg, Next(cfg, s, OpenData(p, id, service, protocol)))
  {
    var i :| 0 <= i < |service.protocols| && service.protocols[i] == protocol;
    Services.EnabledIsRequested(cfg.services(p), service, i);
    NoteKeeps(cfg, s, DataOpened(id, p, s.clients[p].conn));
  }

  lemma AcceptDataKeeps(cfg: Config, s: State, id: DataId)
    requires Inv(cfg, s) && Enabled(cfg, s, AcceptData(id))
    ensures Inv(cfg, Next(cfg, s, AcceptData(id)))
  {
    var p := s.streams[id];
    if p in s.table {
      assert HandlerOk(cfg, s.log, s.table[p].conn, s.handlers[s.table[p].conn]);
    }
    NoteKeeps(cfg, s, if p in s.table then Served(id, p) else Refused(id, p));
  }

  lemma StepKeeps(cfg: Config, s: State, step: Step)
    requires Inv(cfg, s) && Enabled(cfg, s, step)
    ensures Inv(cfg, Next(cfg, s, step))
  {
    match step {
      case Authenticate(conn, m) => AuthenticateKeeps(cfg, s, conn, m);
      case Evict(conn) => EvictKeeps(cfg, s, conn);
      case Install(conn) => InstallKeeps(cfg, s, conn);
      case MonitorEnds(conn) => MonitorEndsKeeps(cfg, s, conn);
      case OpenData(p, id, service, protocol) => OpenDataKeeps(cfg, s, p, id, service, protocol);
      case AcceptData(id) => AcceptDataKeeps(cfg, s, id);
      case Connect(p, conn, quic) => ConnectKeeps(cfg, s, p, conn, quic);
      case CheckExists(conn) => CheckExistsKeeps(cfg, s, conn);
      case GiveUp(conn) => MoveKeeps(cfg, s, conn, Over);
      case OpenDataAnyway(_, _) =>
      case Answer(_) => TalkKeeps(cfg, s, step);
      case Ask(_) => TalkKeeps(cfg, s, step);
      case Hear(_) => TalkKeeps(cfg, s, step);
    }
  }

  lemma Reachable(cfg: Config, steps: seq<Step>)
    requires Run(cfg, steps).Some?
    ensures Inv(cfg, Run(cfg, steps).value)
  {
    forall s, e | Inv(cfg, s) && Enabled(cfg, s, e)
      ensures Inv(cfg, Next(cfg, s, e))
    {
      StepKeeps(cfg, s, e);
    }
    Runs.Invariant(START, Try(cfg), steps, s => Inv(cfg, s));
  }

  // ----- Authentication before everything -----

  lemma {:induction false} SoundAt(cfg: Config, log: seq<Event>, i: nat)
    requires Sound(cfg, log) && i < |log|
    ensures Justified(cfg, log[..i], log[i])
    decreases |log|
  {
    var last := |log| - 1;
    if i < last {
      SoundAt(cfg, log[..last], i);
      assert log[..last][..i] == log[..i];
    }
  }

  lemma {:induction false} PassedWhen(cfg: Config, log: seq<Event>, p: Peer) returns (j: nat)
    requires Passed(cfg, log, p)
    ensures j < |log| && log[j].CheckPassed? && log[j].peer == p && Credentials(cfg, log[j].msg)
  {
    var last := |log| - 1;
    if log[last].CheckPassed? && log[last].peer == p && Credentials(cfg, log[last].msg) {
      j := last;
    } else {
      j := PassedWhen(cfg, log[..last], p);
    }
  }

  /** Whenever a session is installed or a data stream is served, that peer passed the server's check earlier. */
  lemma AuthenticatedFirst(cfg: Config, steps: seq<Step>, i: nat) returns (j: nat)
    requires Run(cfg, steps).Some? && i < |Run(cfg, steps).value.log|
    requires var e := Run(cfg, steps).value.log[i]; e.Installed? || e.Served?
    ensures var log := Run(cfg, steps).value.log;
            j < i && log[j].CheckPassed? && log[j].peer == log[i].peer && Credentials(cfg, log[j].msg)
  {
    var log := Run(cfg, steps).value.log;
    Reachable(cfg, steps);
    SoundAt(cfg, log, i);
    j := PassedWhen(cfg, log[..i], log[i].peer);
  }

  /** Every peer in the table passed the check, and the table lists exactly the peers whose last event is an
      installation. */
  lemma ListedPeersPassed(cfg: Config, steps: seq<Step>, p: Peer)
    requires Run(cfg, steps).Some?
    ensures var s := Run(cfg, steps).value;
            (p in s.table <==> Listed(s.log, p)) && (p in s.table ==> Passed(cfg, s.log, p))
  {
    Reachable(cfg, steps);
    var s := Run(cfg, steps).value;
    if p in s.table {
      assert HandlerOk(cfg, s.log, s.table[p].conn, s.handlers[s.table[p].conn]);
    }
  }

  // ----- Happens-before across both machines -----

  lemma {:induction false} UnlistedSince(log: seq<Event>, p: Peer, j: nat) returns (r: nat)
    requires j < |log| && log[j].Installed? && log[j].peer == p && !Listed(log, p)
    ensures j < r < |log| && log[r].Removed? && log[r].peer == p
    decreases |log|
  {
    var last := |log| - 1;
    if log[last].Removed? && log[last].peer == p {
      r := last;
    } else {
      r := UnlistedSince(log[..last], p, j);
    }
  }

  /** A data stream opened after all enabled services were verified on the current control stream was opened
      after the server installed that very session. */
  lemma InstalledBeforeOpen(cfg: Config, steps: seq<Step>, i: nat) returns (j: nat)
    requires Run(cfg, steps).Some? && i < |Run(cfg, steps).value.log| && Run(cfg, steps).value.log[i].DataOpened?
    ensures var log := Run(cfg, steps).value.log;
            j < i && log[j] == Installed(log[i].peer, log[i].conn)
  {
    var log := Run(cfg, steps).value.log;
    Reachable(cfg, steps);
    SoundAt(cfg, log, i);
    j :| 0 <= j < i && log[..i][j] == Installed(log[i].peer, log[i].conn);
  }

  /** If such a stream is refused, the peer's entry was removed after that installation. */
  lemma OnlyRemovalRefuses(cfg: Config, steps: seq<Step>, i: nat, k: nat) returns (j: nat, r: nat)
    requires Run(cfg, steps).Some? && i < k < |Run(cfg, steps).value.log|
    requires var log := Run(cfg, steps).value.log;
             log[i].DataOpened? && log[k].Refused? && log[k].peer == log[i].peer
    ensures var log := Run(cfg, steps).value.log;
            && j < i && log[j] == Installed(log[i].peer, log[i].conn)
            && j < r < k && log[r].Removed? && log[r].peer == log[i].peer
  {
    var log := Run(cfg, steps).value.log;
    j := InstalledBeforeOpen(cfg, steps, i);
    Reachable(cfg, steps);
    SoundAt(cfg, log, k);
    r := UnlistedSince(log[..k], log[i].peer, j);
  }

  // ----- Upkeep of the table -----

  /** A session whose monitor has finished is never left in the table. */
  lemma FinishedNotListed(cfg: Config, steps: seq<Step>, conn: Conn)
    requires Run(cfg, steps).Some? && conn in Run(cfg, steps).value.handlers
    requires Run(cfg, steps).value.handlers[conn].pc != Monitoring
    ensures var s := Run(cfg, steps).value;
            forall p :: p in s.table ==> s.table[p].conn != conn
  {
    Reachable(cfg, steps);
  }

  /** When a monitor ends, its own entry goes and every other peer's stays. A successor's entry survives
      exactly when the two sessions are not both on QUIC, where both control streams are nil. */
  lemma CleanupIff(cfg: Config, steps: seq<Step>, conn: Conn)
    requires Run(cfg, steps).Some? && Run(cfg, steps).value.At(conn, Monitoring)
    ensures var s := Run(cfg, steps).value;
            var h := s.handlers[conn];
            var n := Next(cfg, s, MonitorEnds(conn));
            && (forall p :: p != h.peer ==>
                  (p in n.table <==> p in s.table) && (p in s.table ==> n.table[p] == s.table[p]))
            && (h.peer in s.table && s.table[h.peer].conn == conn ==> h.peer !in n.table)
            && (h.peer in s.table && s.table[h.peer].conn != conn ==>
                  (h.peer in n.table <==> !(h.quic && s.table[h.peer].quic)))
            && (h.peer in n.table ==> n.table[h.peer] == s.table[h.peer])
  {
    Reachable(cfg, steps);
  }

  /** Two QUIC sessions of one peer: the end of the first unlists the second, which is still running. */
  lemma QuicSuccessorUnlisted(cfg: Config, m: UnifiedMessage) returns (steps: seq<Step>, s: State)
    requires Credentials(cfg, m)
    ensures Run(cfg, steps) == Some(s) && s.At(1, Monitoring) && s.handlers[1].peer == 0 && 0 !in s.table
  {
    var script := [Connect(0, 0, true), CheckExists(0), Authenticate(0, m), Install(0),
                   Connect(0, 1, true), CheckExists(1), Evict(1), Install(1), MonitorEnds(0)];
    steps, s := [], START;
    var k := 0;
    while k < 9
      invariant 0 <= k <= 9 && Run(cfg, steps) == Some(s)
      invariant k == 0 ==> s == START
      invariant k >= 1 ==> 0 in s.handlers && s.handlers[0] == Handler(0, true,
        if k == 1 then Opened else if k == 2 then Authenticating else if k == 3 then Authenticated
        else if k < 9 then Monitoring else Over)
      invariant if k < 5 then 1 !in s.handlers else 1 in s.handlers && s.handlers[1] == Handler(0, true,
        if k == 5 then Opened else if k == 6 then Replacing else if k == 7 then Evicted else Monitoring)
      invariant 0 in s.table <==> 4 <= k <= 6 || k == 8
      invariant k == 8 ==> s.table[0] == Session(0, 1, true)
    {
      Runs.OneMore(START, Try(cfg), steps, s, script[k]);
      steps, s := steps + [script[k]], Next(cfg, s, script[k]);
      k := k + 1;
    }
  }

  // ----- What can happen -----

  lemma Take(cfg: Config, s: State, steps: seq<Step>, n: State, e: Step) returns (more: seq<Step>, next: State)
    requires RunFrom(cfg, s, steps) == Some(n) && Enabled(cfg, n, e)
    ensures more == steps + [e] && next == Next(cfg, n, e) && RunFrom(cfg, s, more) == Some(next)
  {
    more, next := steps + [e], Next(cfg, n, e);
    Runs.OneMore(s, Try(cfg), steps, n, e);
  }

  /** A new control stream of a listed peer replaces its session without another check, and only so: the handler finds
      the entry, removes it and installs its own. */
  lemma ReplacedUnchecked(cfg: Config, s: State, conn: Conn) returns (steps: seq<Step>, n: State)
    requires s.At(conn, Opened) && s.handlers[conn].peer in s.table
    ensures var p := s.handlers[conn].peer;
            && RunFrom(cfg, s, steps) == Some(n) && n.At(conn, Monitoring)
            && n.table == s.table[p := Session(p, conn, s.handlers[conn].quic)]
            && n.log == s.log + [Removed(p, s.table[p].conn), Installed(p, conn)]
    ensures forall e: Step :: Enabled(cfg, Next(cfg, s, CheckExists(conn)), e) && (e.Authenticate? || e.Install?) ==>
              e.conn != conn
  {
    var p := s.handlers[conn].peer;
    steps, n := Take(cfg, s, [], s, CheckExists(conn));
    steps, n := Take(cfg, s, steps, n, Evict(conn));
    assert p !in n.table;
    steps, n := Take(cfg, s, steps, n, Install(conn));
    assert n.log == s.log + [Removed(p, s.table[p].conn), Installed(p, conn)];
  }

  /** An unlisted peer is asked for its credentials, and with the right ones gets its session. */
  lemma CheckedThenInstalled(cfg: Config, s: State, conn: Conn, m: UnifiedMessage) returns (steps: seq<Step>, n: State)
    requires s.At(conn, Opened) && s.handlers[conn].peer !in s.table && Credentials(cfg, m)
    ensures var h := s.handlers[conn];
            && RunFrom(cfg, s, steps) == Some(n) && n.At(conn, Monitoring)
            && n.table == s.table[h.peer := Session(h.peer, conn, h.quic)]
            && n.log == s.log + [CheckPassed(h.peer, m), Installed(h.peer, conn)]
            && n.handlers == s.handlers[conn := h.(pc := Monitoring)]
            && n.links == s.links && n.clients == s.clients && n.streams == s.streams
  {
    steps, n := Take(cfg, s, [], s, CheckExists(conn));
    steps, n := Take(cfg, s, steps, n, Authenticate(conn, m));
    steps, n := Take(cfg, s, steps, n, Install(conn));
    assert n.log == s.log + [CheckPassed(s.handlers[conn].peer, m), Installed(s.handlers[conn].peer, conn)];
  }

  /** A monitored client can have k of its requests answered. */
  lemma {:induction false} VerifiedUpTo(cfg: Config, s: State, p: Peer, k: nat) returns (steps: seq<Step>, n: State)
    requires p in s.clients && s.clients[p].verified == 0 && !s.clients[p].waiting
    requires s.At(s.clients[p].conn, Monitoring)
    requires s.clients[p].conn in s.links && s.links[s.clients[p].conn] == Link(0, 0)
    requires k <= |Services.Requests(cfg.services(p))|
    ensures RunFrom(cfg, s, steps) == Some(n)
    ensures n.table == s.table && n.handlers == s.handlers && n.log == s.log && n.streams == s.streams
    ensures n.clients == s.clients[p := s.clients[p].(verified := k)] && n.links == s.links
    decreases k
  {
    if k == 0 {
      steps, n := [], s;
    } else {
      var conn := s.clients[p].conn;
      steps, n := VerifiedUpTo(cfg, s, p, k - 1);
      steps, n := Take(cfg, s, steps, n, Ask(p));
      steps, n := Take(cfg, s, steps, n, Answer(conn));
      steps, n := Take(cfg, s, steps, n, Hear(p));
    }
  }

  /** A new client with the right credentials gets a session. */
  lemma SessionOpened(cfg: Config, s: State, p: Peer, conn: Conn, quic: bool, m: UnifiedMessage)
    returns (steps: seq<Step>, n: State)
    requires conn !in s.handlers && p !in s.table && Credentials(cfg, m)
    ensures RunFrom(cfg, s, steps) == Some(n) && n.At(conn, Monitoring) && n.streams == s.streams
    ensures p in n.table && n.log == s.log + [CheckPassed(p, m), Installed(p, conn)]
    ensures p in n.clients && n.clients[p] == Client(conn, 0, false) && conn in n.links && n.links[conn] == Link(0, 0)
  {
    var connected, more;
    steps, connected := Take(cfg, s, [], s, Connect(p, conn, quic));
    more, n := CheckedThenInstalled(cfg, connected, conn, m);
    steps := Append(cfg, s, steps, connected, more, n);
  }

  /** A verified client's data stream is served while it is listed. */
  lemma OpenedIsServed(cfg: Config, s: State, p: Peer, id: DataId, service: Services.LocalService, protocol: string)
    returns (steps: seq<Step>, n: State)
    requires p in s.table && s.Ready(cfg, p) && id !in s.streams
    requires service in cfg.services(p) && service.enabled && protocol in service.protocols
    ensures RunFrom(cfg, s, steps) == Some(n)
    ensures n.log == s.log + [DataOpened(id, p, s.clients[p].conn), Served(id, p)]
  {
    steps, n := Take(cfg, s, [], s, OpenData(p, id, service, protocol));
    steps, n := Take(cfg, s, steps, n, AcceptData(id));
    assert n.log == s.log + [DataOpened(id, p, s.clients[p].conn), Served(id, p)];
  }

  /** A client with the right credentials can get to a served data stream for any enabled service of its own. */
  lemma StreamServed(cfg: Config, s: State, p: Peer, conn: Conn, quic: bool, m: UnifiedMessage, id: DataId,
                     service: Services.LocalService, protocol: string)
    returns (steps: seq<Step>, n: State)
    requires conn !in s.handlers && p !in s.table && Credentials(cfg, m) && id !in s.streams
    requires service in cfg.services(p) && service.enabled && protocol in service.protocols
    ensures RunFrom(cfg, s, steps) == Some(n)
    ensures n.log == s.log + [CheckPassed(p, m), Installed(p, conn), DataOpened(id, p, conn), Served(id, p)]
  {
    var more, mid;
    steps, n := SessionOpened(cfg, s, p, conn, quic, m);
    more, mid := VerifiedUpTo(cfg, n, p, |Services.Requests(cfg.services(p))|);
    steps := Append(cfg, s, steps, n, more, mid);
    n := mid;
    more, mid := OpenedIsServed(cfg, n, p, id, service, protocol);
    steps := Append(cfg, s, steps, n, more, mid);
    n := mid;
    assert n.log == s.log + [CheckPassed(p, m), Installed(p, conn), DataOpened(id, p, conn), Served(id, p)];
  }

  lemma Append(cfg: Config, s: State, a: seq<Step>, mid: State, b: seq<Step>, n: State) returns (all: seq<Step>)
    requires RunFrom(cfg, s, a) == Some(mid) && RunFrom(cfg, mid, b) == Some(n)
    ensures RunFrom(cfg, s, all) == Some(n)
  {
    all := a + b;
    Runs.Both(s, Try(cfg), a, b);
  }
}
