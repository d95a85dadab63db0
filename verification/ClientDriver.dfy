/** The client's connection life cycle: connection managers and monitors as goroutines over the shared
    connection fields. Each step is one critical section, one outside result, or one goroutine starting
    or ending. */
module ClientDriver {
  import opened Bytes
  import Runs

  type Id = nat

  const MAX_PUNCH_ATTEMPTS: nat := 3

  datatype Pc =
    // connection manager
    | Top                      // about to test the context and connect
    | Cleaning                 // control fields cleared, direct connection next
    | Finding                  // looking the server up and connecting
    | Punching(attempt: nat)   // relay only: custom hole punch
    | SetupQuic
    | SetupLibp2p
    | Handshaking              // control stream open: authenticate, verify services
    | BackingOff
    | Leaving                  // monitor spawned, only log lines and a return left
    // monitor
    | Starting                 // about to read the connection fields
    | Watching                 // in the event loop
    | Closing                  // closeControlStream, direct connection next
    | Handing                  // in the deferred function, about to test for a stop
    | Respawning               // saw no stop; perhaps asleep for ten seconds before it spawns a manager
    | Gone

  /** The goroutines that may change the connection fields or spawn a successor. */
  predicate Driving(pc: Pc) { pc != Leaving && pc != Gone }

  datatype State = State(
    threads: map<Id, Pc>,
    control: Option<Id>,      // libp2p control stream
    quicControl: Option<Id>,  // QUIC control stream, named by the connection it runs on
    direct: Option<Id>,       // direct QUIC connection
    stopping: bool,
    cancelled: bool)
  {
    predicate At(t: Id, pc: Pc) { t in threads && threads[t] == pc }
    function Move(t: Id, pc: Pc): State { this.(threads := threads[t := pc]) }
  }

  const START := State(map[0 := Top], None, None, None, false, false)

  datatype Step =
    | Begin(t: Id)                       // clear dispatcher, messager and both control fields
    | Observe(t: Id)                     // the context is already cancelled
    | ClearDirect(t: Id)
    | FindFails(t: Id)
    | FoundDirect(t: Id)                 // direct at once, or upgraded by libp2p
    | FoundRelay(t: Id)
    | PunchFails(t: Id)
    | PunchWorks(t: Id, conn: Id)
    | QuicFails(t: Id)
    | QuicOpens(t: Id)
    | Libp2pFails(t: Id)
    | Libp2pOpens(t: Id, stream: Id)
    | HandshakeFails(t: Id, fatal: bool) // fatal: interrupted prompt or failed verification cancels
    | HandshakeWorks(t: Id, monitor: Id) // spawn the monitor
    | Retry(t: Id)
    | Leave(t: Id)
    | MonitorReads(t: Id)
    | LoseConnection(t: Id)              // silence, read error or failed ack
    | ServerShutdown(t: Id)
    | MonitorCancelled(t: Id)
    | DropDirect(t: Id)
    | MonitorGoesOn(t: Id)               // not stopping when tested
    | HandOver(t: Id, manager: Id)       // spawn a manager
    | MonitorStops(t: Id)                // stopping: no successor
    | UserStops
    | UserCancels                        // Stop's cancel
    | StopDropsDirect

  predicate Enabled(s: State, step: Step) {
    match step
    case Begin(t) => s.At(t, Top) && !s.cancelled
    case Observe(t) => (s.At(t, Top) || s.At(t, BackingOff)) && s.cancelled
    case ClearDirect(t) => s.At(t, Cleaning)
    case FindFails(t) => s.At(t, Finding)
    case FoundDirect(t) => s.At(t, Finding)
    case FoundRelay(t) => s.At(t, Finding)
    case PunchFails(t) => t in s.threads && s.threads[t].Punching?
    case PunchWorks(t, _) => t in s.threads && s.threads[t].Punching?
    case QuicFails(t) => s.At(t, SetupQuic)
    case QuicOpens(t) => s.At(t, SetupQuic) && s.direct.Some?
    case Libp2pFails(t) => s.At(t, SetupLibp2p)
    case Libp2pOpens(t, _) => s.At(t, SetupLibp2p)
    case HandshakeFails(t, _) => s.At(t, Handshaking)
    case HandshakeWorks(t, m) => s.At(t, Handshaking) && m !in s.threads
    case Retry(t) => s.At(t, BackingOff) && !s.cancelled
    case Leave(t) => s.At(t, Leaving)
    case MonitorReads(t) => s.At(t, Starting)
    case LoseConnection(t) => s.At(t, Watching)
    case ServerShutdown(t) => s.At(t, Watching)
    case MonitorCancelled(t) => s.At(t, Watching) && s.cancelled
    case DropDirect(t) => s.At(t, Closing)
    case MonitorGoesOn(t) => s.At(t, Handing) && !s.stopping
    case HandOver(t, m) => s.At(t, Respawning) && m !in s.threads
    case MonitorStops(t) => s.At(t, Handing) && s.stopping
    case UserStops => true
    case UserCancels => s.stopping
    case StopDropsDirect => s.stopping && s.cancelled
  }

  function Next(s: State, step: Step): State
    requires Enabled(s, step)
  {
    match step
    case Begin(t) => s.(control := None, quicControl := None).Move(t, Cleaning)
    case Observe(t) => s.Move(t, Gone)
    case ClearDirect(t) => s.(direct := None).Move(t, Finding)
    case FindFails(t) => s.Move(t, BackingOff)
    case FoundDirect(t) => s.Move(t, SetupLibp2p)
    case FoundRelay(t) => s.Move(t, Punching(1))
    case PunchFails(t) =>
      s.Move(t, if s.threads[t].attempt < MAX_PUNCH_ATTEMPTS then Punching(s.threads[t].attempt + 1) else BackingOff)
    case PunchWorks(t, conn) => s.(direct := Some(conn)).Move(t, SetupQuic)
    case QuicFails(t) => s.Move(t, BackingOff)
    case QuicOpens(t) => s.(control := None, quicControl := s.direct).Move(t, Handshaking)
    case Libp2pFails(t) => s.Move(t, BackingOff)
    case Libp2pOpens(t, stream) => s.(control := Some(stream)).Move(t, Handshaking)
    case HandshakeFails(t, fatal) => s.(cancelled := s.cancelled || fatal).Move(t, BackingOff)
    case HandshakeWorks(t, m) => s.Move(m, Starting).Move(t, Leaving)
    case Retry(t) => s.Move(t, Top)
    case Leave(t) => s.Move(t, Gone)
    case MonitorReads(t) => s.Move(t, if s.control.None? && s.quicControl.None? then Handing else Watching)
    case LoseConnection(t) => s.Move(t, Closing)
    case ServerShutdown(t) => s.Move(t, Handing)
    case MonitorCancelled(t) => s.Move(t, Handing)
    case DropDirect(t) => s.(direct := None).Move(t, Handing)
    case MonitorGoesOn(t) => s.Move(t, Respawning)
    case HandOver(t, m) => s.Move(m, Top).Move(t, Gone)
    case MonitorStops(t) => s.Move(t, Gone)
    case UserStops => s.(stopping := true)
    case UserCancels => s.(cancelled := true)
    case StopDropsDirect => s.(direct := None)
  }

  function Try(): (State, Step) -> Option<State> {
    (s, step) => if Enabled(s, step) then Some(Next(s, step)) else None
  }

  function RunFrom(s: State, steps: seq<Step>): Option<State> { Runs.Run(s, Try(), steps) }

  function Run(steps: seq<Step>): Option<State> { RunFrom(START, steps) }

  /** At most one goroutine drives; exactly one until the client stops or is cancelled. */
  ghost predicate OneDriver(s: State) {
    && (forall a, b :: a in s.threads && b in s.threads && Driving(s.threads[a]) && Driving(s.threads[b]) ==> a == b)
    && (!s.stopping && !s.cancelled ==> exists t :: t in s.threads && Driving(s.threads[t]))
  }

  /** Exactly one control stream is set, and the direct connection is the one a QUIC control stream runs on. */
  predicate ModesAgree(s: State) {
    s.direct == s.quicControl && (s.control.Some? <==> s.quicControl.None?)
  }

  /** What the connection fields look like at each point of the driver. */
  predicate FieldsAt(s: State, pc: Pc) {
    match pc
    case Cleaning => s.control.None? && s.quicControl.None?
    case Finding => s.control.None? && s.quicControl.None? && s.direct.None?
    case Punching(_) => s.control.None? && s.quicControl.None? && s.direct.None?
    case SetupQuic => s.control.None? && s.quicControl.None?
    case SetupLibp2p => s.control.None? && s.quicControl.None? && s.direct.None?
    case Handshaking => s.cancelled || ModesAgree(s)
    case Starting => s.cancelled || ModesAgree(s)
    case Watching => s.cancelled || ModesAgree(s)
    case _ => true
  }

  /** d is the driver, if there is one; without one the client has been stopped or cancelled. */
  ghost predicate Driver(s: State, d: Option<Id>) {
    && (forall t :: t in s.threads && Driving(s.threads[t]) ==> d == Some(t))
    && match d
       case Some(t) => t in s.threads && Driving(s.threads[t]) && FieldsAt(s, s.threads[t])
       case None => s.stopping || s.cancelled
  }

  /** The driver after a step: a spawned goroutine takes over, a finished one leaves none. */
  function Successor(s: State, step: Step, d: Option<Id>): Option<Id> {
    match step
    case HandshakeWorks(_, m) => Some(m)
    case HandOver(_, m) => Some(m)
    case Observe(_) => None
    case MonitorStops(_) => None
    case _ => d
  }

  /** The driver moves on. */
  lemma MoveKeeps(s: State, d: Option<Id>, t: Id, n: State)
    requires Driver(s, d) && t in s.threads && Driving(s.threads[t])
    requires t in n.threads && n.threads == s.threads[t := n.threads[t]] && Driving(n.threads[t])
    requires FieldsAt(s, s.threads[t]) ==> FieldsAt(n, n.threads[t])
    ensures Driver(n, d)
  {}

  /** The driver ends, or another goroutine than the driver does. */
  lemma EndKeeps(s: State, d: Option<Id>, t: Id, n: State)
    requires Driver(s, d) && t in s.threads && (Driving(s.threads[t]) ==> s.stopping || s.cancelled)
    requires n == s.Move(t, Gone)
    ensures Driver(n, if Driving(s.threads[t]) then None else d)
  {}

  /** The driver spawns its successor. */
  lemma SpawnKeeps(s: State, d: Option<Id>, t: Id, m: Id, n: State)
    requires Driver(s, d) && t in s.threads && Driving(s.threads[t]) && m !in s.threads
    requires m in n.threads && t in n.threads && n.threads == s.threads[m := n.threads[m]][t := n.threads[t]]
    requires Driving(n.threads[m]) && !Driving(n.threads[t])
    requires FieldsAt(s, s.threads[t]) ==> FieldsAt(n, n.threads[m])
    ensures Driver(n, Some(m))
  {}

  /** Steps on which the driver stays the same goroutine, up to an open control stream ... */
  predicate Connecting(step: Step) {
    step.Begin? || step.ClearDirect? || step.FindFails? || step.FoundDirect? || step.FoundRelay? ||
    step.PunchFails? || step.PunchWorks? || step.QuicFails? || step.Libp2pFails?
  }

  /** ... and from there on. */
  predicate Connected(step: Step) {
    step.QuicOpens? || step.Libp2pOpens? || step.HandshakeFails? || step.Retry? || step.MonitorReads? ||
    step.LoseConnection? || step.ServerShutdown? || step.MonitorCancelled? || step.DropDirect? ||
    step.MonitorGoesOn?
  }

  lemma ConnectingKeeps(s: State, step: Step, d: Option<Id>)
    requires Driver(s, d) && Enabled(s, step) && Connecting(step)
    ensures Driver(Next(s, step), d)
  {
    MoveKeeps(s, d, step.t, Next(s, step));
  }

  lemma ConnectedKeeps(s: State, step: Step, d: Option<Id>)
    requires Driver(s, d) && Enabled(s, step) && Connected(step)
    ensures Driver(Next(s, step), d)
  {
    MoveKeeps(s, d, step.t, Next(s, step));
  }

  lemma StepKeeps(s: State, step: Step, d: Option<Id>)
    requires Driver(s, d) && Enabled(s, step)
    ensures Driver(Next(s, step), Successor(s, step, d))
  {
    if Connecting(step) {
      ConnectingKeeps(s, step, d);
    } else if Connected(step) {
      ConnectedKeeps(s, step, d);
    } else if step.HandshakeWorks? {
      SpawnKeeps(s, d, step.t, step.monitor, Next(s, step));
    } else if step.HandOver? {
      SpawnKeeps(s, d, step.t, step.manager, Next(s, step));
    } else if step.Observe? || step.MonitorStops? || step.Leave? {
      EndKeeps(s, d, step.t, Next(s, step));
    }
  }

  lemma Reachable(steps: seq<Step>) returns (d: Option<Id>)
    requires Run(steps).Some?
    ensures Driver(Run(steps).value, d)
  {
    forall s, e | (exists d :: Driver(s, d)) && Enabled(s, e)
      ensures exists d :: Driver(Next(s, e), d)
    {
      var d :| Driver(s, d);
      StepKeeps(s, e, d);
    }
    assert Driver(START, Some(0));
    Runs.Invariant(START, Try(), steps, s => exists d :: Driver(s, d));
    d :| Driver(Run(steps).value, d);
  }

  /** In every run, until the client is stopped or cancelled, exactly one goroutine drives it, and never two. */
  lemma OneDriverAlways(steps: seq<Step>)
    requires Run(steps).Some?
    ensures OneDriver(Run(steps).value)
  {
    var d := Reachable(steps);
  }

  /** The transport openDataStream picks. */
  datatype Transport = DirectQuic(conn: Id) | Libp2p

  function DataTransport(s: State): Transport {
    if s.direct.Some? then DirectQuic(s.direct.value) else Libp2p
  }

  /** While a monitor watches, through any number of reconnects, exactly one control stream is set and data
      streams are opened on the transport it runs on. */
  lemma TransportAgreement(steps: seq<Step>, t: Id)
    requires Run(steps).Some? && Run(steps).value.At(t, Watching) && !Run(steps).value.cancelled
    ensures var s := Run(steps).value;
            && (s.control.Some? <==> s.quicControl.None?)
            && (s.control.Some? ==> DataTransport(s) == Libp2p)
            && (s.quicControl.Some? ==> DataTransport(s) == DirectQuic(s.quicControl.value))
  {
    var d := Reachable(steps);
  }

  // ----- Punching and reconnecting -----

  /** How often thread t failed to punch. */
  function Failures(steps: seq<Step>, t: Id): nat {
    if steps == [] then 0
    else Failures(steps[..|steps| - 1], t) + if steps[|steps| - 1] == PunchFails(t) then 1 else 0
  }

  /** Behind a relay only punching moves a manager on: to the QUIC set-up when it works, and to backing off only at
      the third failure. */
  lemma PunchingStep(s: State, t: Id, step: Step)
    requires t in s.threads && s.threads[t].Punching? && Enabled(s, step)
    ensures var n := Next(s, step);
            if step == PunchFails(t) then
              n.At(t, if s.threads[t].attempt < 3 then Punching(s.threads[t].attempt + 1) else BackingOff)
            else if step.PunchWorks? && step.t == t then n.At(t, SetupQuic) && n.direct == Some(step.conn)
            else n.At(t, s.threads[t])
  {}

  /** A manager that finds its server behind a relay punches: whatever else happens, until it has failed three times
      or succeeded, it is at its next attempt. */
  lemma {:induction false} ThreeAttempts(s: State, t: Id, steps: seq<Step>)
    requires s.At(t, Finding) && RunFrom(Next(s, FoundRelay(t)), steps).Some?
    requires forall e :: e in steps ==> !(e.PunchWorks? && e.t == t)
    ensures Failures(steps, t) < 3 ==>
              RunFrom(Next(s, FoundRelay(t)), steps).value.At(t, Punching(1 + Failures(steps, t)))
    decreases |steps|
  {
    if steps != [] {
      var last := |steps| - 1;
      assert steps[last] in steps;
      ThreeAttempts(s, t, steps[..last]);
      if Failures(steps, t) < 3 {
        PunchingStep(RunFrom(Next(s, FoundRelay(t)), steps[..last]).value, t, steps[last]);
      }
    }
  }

  lemma Take(s: State, steps: seq<Step>, n: State, e: Step) returns (more: seq<Step>, next: State)
    requires RunFrom(s, steps) == Some(n) && Enabled(n, e)
    ensures more == steps + [e] && next == Next(n, e) && RunFrom(s, more) == Some(next)
  {
    more, next := steps + [e], Next(n, e);
    Runs.OneMore(s, Try(), steps, n, e);
  }

  /** An attempt that fails anywhere is tried again, unless it was interrupted or refused for good: then the client is
      cancelled and the manager ends. */
  lemma FailedIsRetried(s: State, t: Id, failure: Step) returns (steps: seq<Step>, n: State)
    requires failure in {FindFails(t), QuicFails(t), Libp2pFails(t), HandshakeFails(t, false), HandshakeFails(t, true)}
    requires Enabled(s, failure) && !s.cancelled
    ensures RunFrom(s, steps) == Some(n)
    ensures if failure == HandshakeFails(t, true) then n.cancelled && n.At(t, Gone) else !n.cancelled && n.At(t, Top)
  {
    steps, n := Take(s, [], s, failure);
    steps, n := Take(s, steps, n, if failure == HandshakeFails(t, true) then Observe(t) else Retry(t));
  }

  /** A monitor that loses its connection hands over to a new manager. */
  lemma HandsOver(s: State, t: Id, m: Id) returns (steps: seq<Step>, n: State)
    requires s.At(t, Watching) && !s.stopping && m !in s.threads
    ensures RunFrom(s, steps) == Some(n) && n == s.(threads := s.threads[t := Gone][m := Top], direct := None)
  {
    var more, closed := LetsGo(s, t);
    steps, n := Take(closed, [], closed, MonitorGoesOn(t));
    steps, n := Take(closed, steps, n, HandOver(t, m));
    assert n.threads == s.threads[t := Gone][m := Top];
    steps := Append(s, more, closed, steps, n);
  }

  lemma LetsGo(s: State, t: Id) returns (steps: seq<Step>, n: State)
    requires s.At(t, Watching)
    ensures RunFrom(s, steps) == Some(n) && n == s.(threads := s.threads[t := Handing], direct := None)
  {
    steps, n := Take(s, [], s, LoseConnection(t));
    steps, n := Take(s, steps, n, DropDirect(t));
    assert n.threads == s.threads[t := Handing];
  }

  /** So does one whose server announces its shutdown, and one that finds nothing to watch. */
  lemma ShutdownHandsOver(s: State, t: Id, m: Id) returns (steps: seq<Step>, n: State)
    requires !s.stopping && m !in s.threads
    requires s.At(t, Watching) || (s.At(t, Starting) && s.control.None? && s.quicControl.None?)
    ensures RunFrom(s, steps) == Some(n) && n.At(t, Gone) && n.At(m, Top)
  {
    steps, n := Take(s, [], s, if s.At(t, Watching) then ServerShutdown(t) else MonitorReads(t));
    steps, n := Take(s, steps, n, MonitorGoesOn(t));
    steps, n := Take(s, steps, n, HandOver(t, m));
  }

  /** Once the user has stopped the client, a monitor that comes to its test ends without a successor, and can do
      nothing else. */
  lemma StopIsFinal(s: State, t: Id) returns (steps: seq<Step>, n: State)
    requires s.At(t, Watching)
    ensures RunFrom(s, steps) == Some(n) && n.stopping && n.cancelled && n.threads == s.threads[t := Gone]
    ensures n.direct == None
    ensures forall e :: Enabled(s.(stopping := true).Move(t, Handing), e) && (e.MonitorGoesOn? || e.HandOver?) ==>
              e.t != t
  {
    var more, stopped := Stopped(s);
    steps, n := Take(stopped, [], stopped, MonitorCancelled(t));
    steps, n := Take(stopped, steps, n, MonitorStops(t));
    assert n.threads == s.threads[t := Gone];
    steps := Append(s, more, stopped, steps, n);
  }

  lemma Stopped(s: State) returns (steps: seq<Step>, n: State)
    ensures RunFrom(s, steps) == Some(n) && n == s.(stopping := true, cancelled := true, direct := None)
  {
    steps, n := Take(s, [], s, UserStops);
    steps, n := Take(s, steps, n, UserCancels);
    steps, n := Take(s, steps, n, StopDropsDirect);
  }

  /** A manager clears all connection fields before it looks for the server. */
  lemma Clears(s: State, m: Id) returns (steps: seq<Step>, n: State)
    requires s.At(m, Top) && !s.cancelled
    ensures RunFrom(s, steps) == Some(n)
    ensures n == s.(threads := s.threads[m := Finding], control := None, quicControl := None, direct := None)
  {
    steps, n := Take(s, [], s, Begin(m));
    steps, n := Take(s, steps, n, ClearDirect(m));
    assert n.threads == s.threads[m := Finding];
  }

  /** And gets a new control stream, over libp2p or over a punched QUIC connection as the server is found. */
  lemma Connects(s: State, m: Id, id: Id, relay: bool) returns (steps: seq<Step>, n: State)
    requires s.At(m, Finding) && s.control == s.quicControl == s.direct == None
    ensures RunFrom(s, steps) == Some(n)
    ensures n == if relay then s.(threads := s.threads[m := Handshaking], quicControl := Some(id), direct := Some(id))
                 else s.(threads := s.threads[m := Handshaking], control := Some(id))
  {
    if relay {
      steps, n := Take(s, [], s, FoundRelay(m));
      steps, n := Take(s, steps, n, PunchWorks(m, id));
      steps, n := Take(s, steps, n, QuicOpens(m));
    } else {
      steps, n := Take(s, [], s, FoundDirect(m));
      steps, n := Take(s, steps, n, Libp2pOpens(m, id));
    }
    assert n.threads == s.threads[m := Handshaking];
  }

  lemma Starts(s: State, m: Id, m2: Id) returns (steps: seq<Step>, n: State)
    requires s.At(m, Handshaking) && m2 !in s.threads && (s.control.Some? || s.quicControl.Some?)
    ensures RunFrom(s, steps) == Some(n) && n == s.(threads := s.threads[m := Leaving][m2 := Watching])
  {
    steps, n := Take(s, [], s, HandshakeWorks(m, m2));
    steps, n := Take(s, steps, n, MonitorReads(m2));
    assert n.threads == s.threads[m := Leaving][m2 := Watching];
  }

  lemma Append(s: State, a: seq<Step>, mid: State, b: seq<Step>, n: State) returns (all: seq<Step>)
    requires RunFrom(s, a) == Some(mid) && RunFrom(mid, b) == Some(n)
    ensures RunFrom(s, all) == Some(n)
  {
    all := a + b;
    Runs.Both(s, Try(), a, b);
  }

  /** A lost connection can always be replaced: until stop or cancellation some run leads from it to a new monitor m2
      watching a new control stream, with the connection fields of its transport. */
  lemma Reconnects(s: State, t: Id, m: Id, m2: Id, id: Id, relay: bool) returns (steps: seq<Step>, n: State)
    requires s.At(t, Watching) && !s.stopping && !s.cancelled
    requires m !in s.threads && m2 !in s.threads && m != m2
    ensures RunFrom(s, steps) == Some(n) && n.At(m2, Watching) && n.At(t, Gone)
    ensures if relay then n.control == None && n.quicControl == n.direct == Some(id)
            else n.control == Some(id) && n.quicControl == n.direct == None
  {
    var next, mid;
    steps, n := HandsOver(s, t, m);
    next, mid := Clears(n, m);
    steps := Append(s, steps, n, next, mid);
    n := mid;
    next, mid := Connects(n, m, id, relay);
    steps := Append(s, steps, n, next, mid);
    n := mid;
    next, mid := Starts(n, m, m2);
    steps := Append(s, steps, n, next, mid);
    n := mid;
  }
}
