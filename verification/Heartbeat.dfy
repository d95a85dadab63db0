/** The heartbeat on a control stream: the server's ping/pong accounting and the client's silence timer.
    Times are in milliseconds since the monitor started. */
module Heartbeat {
  import opened Bytes

  const MAX_MISSED := 2
  const CLIENT_SILENCE := 25_000

  // ----- Server -----

  datatype Event =
    | Tick(sent: bool)   // the ticker fires; whether a ping, if one is tried, goes out
    | Pong               // a heartbeat message "pong" is processed
    | Other              // any other control message that does not end the session
    | Finish             // read error, shutdown message or server stop

  /** Missed: closed for missed acks. Ended: left the loop for any other reason. */
  datatype Status = Running | Missed | Ended

  datatype Monitor = Monitor(missed: nat, waitingAck: bool, status: Status)

  /** One turn of the server's select loop. */
  function Step(m: Monitor, e: Event): Monitor {
    if m.status != Running then m
    else
      match e
      case Tick(sent) =>
        var missed := if m.waitingAck then m.missed + 1 else m.missed;
        if m.waitingAck && missed >= MAX_MISSED then Monitor(missed, false, Missed)
        else if sent then Monitor(missed, true, Running)
        else Monitor(missed, false, Ended)
      case Pong => if m.waitingAck then Monitor(0, false, Running) else m
      case Other => m
      case Finish => m.(status := Ended)
  }

  function Run(trace: seq<Event>): Monitor {
    if trace == [] then Monitor(0, false, Running) else Step(Run(trace[..|trace| - 1]), trace[|trace| - 1])
  }

  /** The loop itself, over the events the select delivers, until it returns. */
  method MonitorLoop(trace: seq<Event>) returns (taken: nat, m: Monitor)
    ensures taken <= |trace| && m == Run(trace[..taken]) == Run(trace)
    ensures m.status == Running ==> taken == |trace|
    ensures m.status != Running ==> taken > 0 && Run(trace[..taken - 1]).status == Running
  {
    var missed, waitingAck := 0, false;
    taken := 0;
    while taken < |trace|
      invariant 0 <= taken <= |trace|
      invariant Run(trace[..taken]) == Monitor(missed, waitingAck, Running)
    {
      assert trace[..taken + 1][..taken] == trace[..taken];
      var e := trace[taken];
      taken := taken + 1;
      match e {
        case Tick(sent) =>
          if waitingAck {
            missed := missed + 1;
            waitingAck := false;
            if missed >= MAX_MISSED {
              m := Monitor(missed, waitingAck, Missed);
              OverStays(trace, taken);
              return;
            }
          }
          if !sent {
            m := Monitor(missed, waitingAck, Ended);
            OverStays(trace, taken);
            return;
          }
          waitingAck := true;
        case Pong =>
          if waitingAck {
            missed := 0;
            waitingAck := false;
          }
        case Other =>
        case Finish =>
          m := Monitor(missed, waitingAck, Ended);
          OverStays(trace, taken);
          return;
      }
    }
    assert trace[..|trace|] == trace;
    m := Monitor(missed, waitingAck, Running);
  }

  lemma {:induction false} OverStays(trace: seq<Event>, k: nat)
    requires k <= |trace| && Run(trace[..k]).status != Running
    ensures Run(trace) == Run(trace[..k])
    decreases |trace| - k
  {
    if k == |trace| {
      assert trace[..k] == trace;
    } else {
      assert trace[..k + 1][..k] == trace[..k];
      OverStays(trace, k + 1);
    }
  }

  /** Pings due since the last pong, or since the start: the ticks after it. */
  function PingsSincePong(trace: seq<Event>): nat {
    if trace == [] || trace[|trace| - 1] == Pong then 0
    else PingsSincePong(trace[..|trace| - 1]) + if trace[|trace| - 1].Tick? then 1 else 0
  }

  /** Nothing but heartbeats: no failed ping, no error, no shutdown. */
  ghost predicate Quiet(trace: seq<Event>) {
    forall i :: 0 <= i < |trace| ==> trace[i] != Tick(false) && trace[i] != Finish
  }

  /** At some moment of the trace, up to which it was quiet, more than MAX_MISSED ticks were without a pong. */
  ghost predicate EverOverdue(trace: seq<Event>) {
    trace != [] &&
    var before := trace[..|trace| - 1];
    EverOverdue(before) || (Quiet(before) && PingsSincePong(trace) > MAX_MISSED)
  }

  /** p ticks since the last pong delimit p - 1 intervals without one: `missed` is exactly that trailing run of
      pong-free ping intervals. The session closes for missed acks exactly when the run reaches two, and ends
      otherwise exactly when something else ends it first. */
  lemma {:induction false} MissedIsTrailingRun(trace: seq<Event>)
    ensures var m := Run(trace);
            var pings := PingsSincePong(trace);
            && (m.status == Missed <==> EverOverdue(trace))
            && (m.status == Missed ==> m.missed == MAX_MISSED)
            && (m.status == Ended <==> !EverOverdue(trace) && !Quiet(trace))
            && (m.status == Running ==>
                  m.missed == (if pings == 0 then 0 else pings - 1) && (m.waitingAck <==> pings > 0))
    decreases |trace|
  {
    if trace != [] {
      var before := trace[..|trace| - 1];
      MissedIsTrailingRun(before);
      assert trace == before + [trace[|trace| - 1]];
      assert Quiet(trace) <==> Quiet(before) && trace[|trace| - 1] != Tick(false) && trace[|trace| - 1] != Finish;
    }
  }

  // ----- Timing -----

  datatype Timed = Timed(at: int, event: Event)

  function Events(t: seq<Timed>): (es: seq<Event>)
    ensures |es| == |t|
  {
    seq(|t|, i requires 0 <= i < |t| => t[i].event)
  }

  function TickCount(es: seq<Event>): nat {
    if es == [] then 0 else TickCount(es[..|es| - 1]) + if es[|es| - 1].Tick? then 1 else 0
  }

  /** Events in time order from 0, the n-th tick exactly n periods after the start. */
  ghost predicate OnSchedule(t: seq<Timed>) {
    && (forall i :: 0 <= i < |t| ==> t[i].at >= 0)
    && (forall i, j :: 0 <= i < j < |t| ==> t[i].at <= t[j].at)
    && (forall i :: 0 <= i < |t| && t[i].event.Tick? ==> t[i].at == 10_000 * TickCount(Events(t)[..i + 1]))
  }

  /** The ticker keeps running: no event comes later than the tick that is due next. */
  ghost predicate TicksOn(t: seq<Timed>) {
    forall i :: 0 <= i < |t| ==> t[i].at <= 10_000 * (TickCount(Events(t)[..i + 1]) + 1)
  }

  /** The index of the first of the pings since the last pong. */
  lemma {:induction false} FirstUnanswered(es: seq<Event>) returns (i: nat)
    requires PingsSincePong(es) > 0
    ensures i < |es| && es[i].Tick? && (forall j :: i <= j < |es| ==> es[j] != Pong)
    ensures TickCount(es[..i + 1]) + PingsSincePong(es) == TickCount(es) + 1
    decreases |es|
  {
    var n := |es| - 1;
    if PingsSincePong(es[..n]) > 0 {
      i := FirstUnanswered(es[..n]);
      assert es[..n][..i + 1] == es[..i + 1];
    } else {
      i := n;
      assert es[..n + 1] == es;
    }
  }

  /** The moment of closing for missed acks: running before event e, closed after it. */
  ghost predicate ClosesAt(t: seq<Timed>, e: nat) {
    e < |t| && Run(Events(t)[..e]).status == Running && Run(Events(t)[..e + 1]).status == Missed
  }

  lemma OverdueAtClosing(t: seq<Timed>, e: nat)
    requires ClosesAt(t, e)
    ensures PingsSincePong(Events(t)[..e + 1]) == MAX_MISSED + 1
  {
    var upto := Events(t)[..e + 1];
    assert upto[..e] == Events(t)[..e];
    MissedIsTrailingRun(upto);
    MissedIsTrailingRun(upto[..e]);
  }

  /** Closing is a tick that leaves three pings unanswered, the first of them twenty seconds old. */
  lemma ClosingTick(t: seq<Timed>, e: nat) returns (first: nat)
    requires OnSchedule(t) && ClosesAt(t, e)
    ensures t[e].event.Tick? && first < e && t[first].event.Tick?
    ensures forall j :: first <= j <= e ==> t[j].event != Pong
    ensures t[e].at == t[first].at + 20_000
    ensures TickCount(Events(t)[..first + 1]) + 2 == TickCount(Events(t)[..e + 1])
  {
    var es := Events(t);
    var upto := es[..e + 1];
    assert upto[..e] == es[..e];
    OverdueAtClosing(t, e);
    first := FirstUnanswered(upto);
    assert upto[..first + 1] == es[..first + 1];
    assert forall j :: 0 <= j <= e ==> upto[j] == t[j].event;
  }

  /** From the last pong processed before it, a closing is between 20 and 30 seconds away. */
  lemma ClosesInTime(t: seq<Timed>, e: nat, p: nat)
    requires OnSchedule(t) && ClosesAt(t, e)
    requires p < e && t[p].event == Pong && forall j :: p < j < e ==> t[j].event != Pong
    ensures 20_000 <= t[e].at - t[p].at <= 30_000
  {
    var es := Events(t);
    var upto := es[..e + 1];
    var first := ClosingTick(t, e);
    OverdueAtClosing(t, e);
    assert forall j :: 0 <= j <= e ==> upto[j] == t[j].event;
    assert upto[..p] == es[..p];
    SincePong(upto, p);
    TickBefore(t, p);
  }

  /** Without any pong before it, a closing comes exactly 30 seconds after the start. */
  lemma ClosesUnanswered(t: seq<Timed>, e: nat)
    requires OnSchedule(t) && ClosesAt(t, e) && forall j :: 0 <= j < e ==> t[j].event != Pong
    ensures t[e].at == 30_000
  {
    var first := ClosingTick(t, e);
    OverdueAtClosing(t, e);
    NoPong(Events(t)[..e + 1]);
  }

  /** A session that is closed for missed acks was closed at one of its events. */
  lemma {:induction false} ClosingFound(t: seq<Timed>, k: nat) returns (e: nat)
    requires k <= |t| && Run(Events(t)[..k]).status == Missed
    ensures e < k && ClosesAt(t, e)
    decreases k
  {
    var es := Events(t);
    assert es[..k][..k - 1] == es[..k - 1];
    if Run(es[..k - 1]).status == Missed {
      e := ClosingFound(t, k - 1);
    } else {
      e := k - 1;
    }
  }

  /** Three ticks without a pong are too many, whatever else happens. */
  lemma OverdueIsOver(es: seq<Event>)
    requires PingsSincePong(es) > MAX_MISSED
    ensures Run(es).status != Running && (Quiet(es) ==> Run(es).status == Missed)
  {
    MissedIsTrailingRun(es);
    assert Quiet(es) ==> Quiet(es[..|es| - 1]);
  }

  /** The dead client: once more than 30 seconds have passed since the last pong, the session is over. If nothing
      else ended it, it was closed for missed acks, between 20 and 30 seconds after that pong unless earlier. */
  lemma MustClose(t: seq<Timed>, p: nat, e: nat) returns (c: nat)
    requires OnSchedule(t) && TicksOn(t)
    requires p < e < |t| && t[p].event == Pong && forall j :: p < j <= e ==> t[j].event != Pong
    requires t[e].at > t[p].at + 30_000
    ensures Run(Events(t)[..e + 1]).status != Running
    ensures Quiet(Events(t)[..e + 1]) ==>
              ClosesAt(t, c) && c <= e && (c < p || 20_000 <= t[c].at - t[p].at <= 30_000)
  {
    var es := Events(t);
    var upto := es[..e + 1];
    assert upto[..p] == es[..p];
    SincePong(upto, p);
    TickBefore(t, p);
    OverdueIsOver(upto);
    c := 0;
    if Quiet(upto) {
      c := ClosingFound(t, e + 1);
      if c > p {
        ClosesInTime(t, c, p);
      } else if c == p {
        var first := ClosingTick(t, c);
        assert false;
      }
    }
  }

  /** The same from the start: with no pong at all the session is over once more than 30 seconds have passed. */
  lemma MustCloseUnanswered(t: seq<Timed>, e: nat) returns (c: nat)
    requires OnSchedule(t) && TicksOn(t)
    requires e < |t| && t[e].at > 30_000 && forall j :: 0 <= j <= e ==> t[j].event != Pong
    ensures Run(Events(t)[..e + 1]).status != Running
    ensures Quiet(Events(t)[..e + 1]) ==> ClosesAt(t, c) && c <= e && t[c].at == 30_000
  {
    var upto := Events(t)[..e + 1];
    NoPong(upto);
    OverdueIsOver(upto);
    c := 0;
    if Quiet(upto) {
      c := ClosingFound(t, e + 1);
      ClosesUnanswered(t, c);
    }
  }

  lemma {:induction false} NoPong(es: seq<Event>)
    requires forall j :: 0 <= j < |es| ==> es[j] != Pong
    ensures PingsSincePong(es) == TickCount(es)
  {
    if es != [] {
      NoPong(es[..|es| - 1]);
    }
  }

  lemma {:induction false} SincePong(es: seq<Event>, p: nat)
    requires p < |es| && es[p] == Pong && forall j :: p < j < |es| ==> es[j] != Pong
    ensures TickCount(es[..p]) + PingsSincePong(es) == TickCount(es)
    decreases |es|
  {
    var n := |es| - 1;
    if p < n {
      SincePong(es[..n], p);
      assert es[..n][..p] == es[..p];
    }
  }

  /** Event p is no earlier than the last tick before it. */
  lemma TickBefore(t: seq<Timed>, p: nat)
    requires OnSchedule(t) && p < |t|
    ensures t[p].at >= 10_000 * TickCount(Events(t)[..p])
  {
    TickBeforeFrom(t, p, p);
  }

  lemma {:induction false} TickBeforeFrom(t: seq<Timed>, p: nat, k: nat)
    requires OnSchedule(t) && k <= p < |t|
    ensures t[p].at >= 10_000 * TickCount(Events(t)[..k])
    decreases k
  {
    var es := Events(t);
    if k > 0 {
      assert es[..k][..k - 1] == es[..k - 1];
      if es[k - 1].Tick? {
        assert t[k - 1].at == 10_000 * TickCount(es[..k]);
      } else {
        TickBeforeFrom(t, p, k - 1);
      }
    }
  }

  /** Every ping older than 20 seconds has been followed by a pong within 20 seconds of it. */
  ghost predicate PromptPongs(t: seq<Timed>) {
    forall i, k :: 0 <= i < k < |t| && t[i].event.Tick? && t[k].at >= t[i].at + 20_000 ==>
      exists j :: i < j < |t| && t[j].event == Pong && t[j].at < t[i].at + 20_000
  }

  lemma ClosingMeansSlow(t: seq<Timed>, e: nat)
    requires OnSchedule(t) && ClosesAt(t, e)
    ensures !PromptPongs(t)
  {
    var first := ClosingTick(t, e);
    forall j | first < j < |t| && t[j].event == Pong ensures t[j].at >= t[first].at + 20_000 {
      assert j > e;
    }
  }

  /** With every round trip under 20 seconds the server never closes for missed acks. */
  lemma PromptNeverCloses(t: seq<Timed>, e: nat)
    requires OnSchedule(t) && PromptPongs(t)
    ensures !ClosesAt(t, e)
  {
    if ClosesAt(t, e) {
      ClosingMeansSlow(t, e);
    }
  }

  // ----- Client -----

  /** Whether the timer, set at `setAt` and again by each heartbeat, has gone off by the time `until`. It goes off
      when it is due, whether or not another heartbeat ever comes. */
  predicate TimesOut(setAt: int, beats: seq<int>, until: int)
    decreases |beats|
  {
    if beats == [] then until - setAt >= CLIENT_SILENCE
    else beats[0] - setAt >= CLIENT_SILENCE || TimesOut(beats[0], beats[1..], until)
  }

  /** The event loop's timer: when the control stream is given up, if it is. */
  method WatchLoop(start: int, beats: seq<int>, until: int) returns (lostAt: Option<int>)
    ensures lostAt.Some? <==> TimesOut(start, beats, until)
    ensures lostAt.Some? ==>
              exists k :: 0 <= k <= |beats| && lostAt.value == SetAt(start, beats, k) + 25_000
                && Silence(start, beats, until, k) >= 25_000
                && forall j :: 0 <= j < k ==> Silence(start, beats, until, j) < 25_000
  {
    var due := start + CLIENT_SILENCE;
    var i := 0;
    assert beats[0..] == beats;
    while i < |beats|
      invariant 0 <= i <= |beats| && due == SetAt(start, beats, i) + CLIENT_SILENCE
      invariant forall j :: 0 <= j < i ==> Silence(start, beats, until, j) < CLIENT_SILENCE
      invariant TimesOut(start, beats, until) <==> TimesOut(SetAt(start, beats, i), beats[i..], until)
    {
      assert beats[i..][0] == beats[i] && beats[i..][1..] == beats[i + 1..];
      if beats[i] >= due {
        assert Silence(start, beats, until, i) >= CLIENT_SILENCE;
        return Some(due);
      }
      due := beats[i] + CLIENT_SILENCE;
      i := i + 1;
    }
    if until >= due {
      assert Silence(start, beats, until, i) >= CLIENT_SILENCE;
      return Some(due);
    }
    return None;
  }

  /** When the timer was set for the k-th time after the start. */
  function SetAt(start: int, beats: seq<int>, k: nat): int
    requires k <= |beats|
  {
    if k == 0 then start else beats[k - 1]
  }

  /** The silence that heartbeat k ends; the last one lasts as long as the observation. */
  function Silence(start: int, beats: seq<int>, until: int, k: nat): int
    requires k <= |beats|
  {
    (if k < |beats| then beats[k] else until) - SetAt(start, beats, k)
  }

  /** The client times out exactly when some silence, the one still going on included, lasts 25 seconds. */
  lemma {:induction false} TimesOutIff(setAt: int, beats: seq<int>, until: int)
    ensures TimesOut(setAt, beats, until) <==>
              exists k :: 0 <= k <= |beats| && Silence(setAt, beats, until, k) >= 25_000
    decreases |beats|
  {
    if beats == [] {
      assert Silence(setAt, beats, until, 0) == until - setAt;
    } else {
      var first, rest := beats[0], beats[1..];
      TimesOutIff(first, rest, until);
      assert Silence(setAt, beats, until, 0) == first - setAt;
      assert forall k :: 0 < k <= |beats| ==> Silence(setAt, beats, until, k) == Silence(first, rest, until, k - 1);
      if TimesOut(first, rest, until) {
        var k :| 0 <= k <= |rest| && Silence(first, rest, until, k) >= CLIENT_SILENCE;
        assert Silence(setAt, beats, until, k + 1) >= CLIENT_SILENCE;
      }
    }
  }

  /** A server that falls silent is noticed: 25 seconds after the last heartbeat the client has timed out. */
  lemma DeadServerNoticed(setAt: int, beats: seq<int>, until: int)
    requires until - SetAt(setAt, beats, |beats|) >= 25_000
    ensures TimesOut(setAt, beats, until)
  {
    TimesOutIff(setAt, beats, until);
    assert Silence(setAt, beats, until, |beats|) >= CLIENT_SILENCE;
  }

  /** After the first ping, the client never times out if every ping reaches it within 15 seconds: not up to any
      moment at which the next ping may still be under way. */
  lemma PromptPingsKeepClient(delays: seq<int>, beats: seq<int>, until: int)
    requires |delays| == |beats| > 0
    requires forall k :: 0 <= k < |delays| ==> 0 <= delays[k] < 15_000 && beats[k] == 10_000 * (k + 1) + delays[k]
    requires until < 10_000 * (|beats| + 1) + 15_000
    ensures !TimesOut(beats[0], beats[1..], until)
  {
    TimesOutIff(beats[0], beats[1..], until);
  }
}
