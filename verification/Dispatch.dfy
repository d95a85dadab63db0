/** The message dispatcher: per-type queues with expiry, eviction, error and close. */
module Dispatch {
  import opened Bytes
  import opened Messages

  const PER_TYPE_LIMIT: nat := 10

  datatype Entry = Entry(msg: UnifiedMessage, at: int)

  /** Time to live in nanoseconds, never less than a second. */
  function Ttl(m: UnifiedMessage): int {
    if m.ttlMs * MILLISECOND < SECOND then SECOND else m.ttlMs * MILLISECOND
  }

  predicate Expired(e: Entry, now: int) { now - e.at > Ttl(e.msg) }

  /** In nanoseconds: more than a second old, and older than its time to live. */
  ghost predicate Outlived(e: Entry, now: int) {
    now - e.at > 1_000_000_000 && now - e.at > e.msg.ttlMs * 1_000_000
  }

  /** The lock-protected state. A type without a key has an empty queue and zero counters. */
  datatype Core = Core(
    queues: map<int, seq<Entry>>,
    expired: map<int, nat>,
    overflowed: map<int, nat>,
    error: Option<string>,
    closed: bool)
  {
    function Queue(t: int): seq<Entry> { if t in queues then queues[t] else [] }
    function ExpiredCount(t: int): nat { if t in expired then expired[t] else 0 }
    function OverflowCount(t: int): nat { if t in overflowed then overflowed[t] else 0 }
  }

  const EMPTY := Core(map[], map[], map[], None, false)

  /** How many entries at the head of q have expired. */
  function ExpiredHead(q: seq<Entry>, now: int): (n: nat)
    ensures n <= |q|
  {
    if q == [] || !Expired(q[0], now) then 0 else 1 + ExpiredHead(q[1..], now)
  }

  lemma {:induction false} ExpiredHeadIs(q: seq<Entry>, now: int)
    ensures var n := ExpiredHead(q, now);
            (forall i :: 0 <= i < n ==> Outlived(q[i], now)) && (n < |q| ==> !Outlived(q[n], now))
  {
    if q != [] && Expired(q[0], now) {
      ExpiredHeadIs(q[1..], now);
    }
  }

  function Bump(m: map<int, nat>, t: int, n: nat): map<int, nat> {
    if n == 0 then m else m[t := (if t in m then m[t] else 0) + n]
  }

  lemma BumpMore(m: map<int, nat>, t: int, n: nat)
    ensures Bump(Bump(m, t, n), t, 1) == Bump(m, t, n + 1)
  {}

  // ----- The three critical sections -----

  /** The reader's critical section for one message: prune, evict, append. */
  function Enqueue(s: Core, m: UnifiedMessage, now: int): Core {
    var q := s.Queue(m.kind);
    var stale := ExpiredHead(q, now);
    var evict := if |q| - stale >= PER_TYPE_LIMIT then 1 else 0;
    s.(queues := s.queues[m.kind := q[stale + evict..] + [Entry(m, now)]],
       expired := Bump(s.expired, m.kind, stale),
       overflowed := Bump(s.overflowed, m.kind, evict))
  }

  datatype Verdict = Deliver(kind: int, entry: Entry) | Fail(error: string) | Closed | Block

  /** The waiter's pass over one queue: drop what has expired, take what comes next. */
  function Take(s: Core, t: int, now: int): (Core, Option<Entry>) {
    var q := s.Queue(t);
    var stale := ExpiredHead(q, now);
    var dropped := s.(expired := Bump(s.expired, t, stale));
    if stale < |q| then (dropped.(queues := s.queues[t := q[stale + 1..]]), Some(q[stale]))
    else (dropped.(queues := s.queues[t := []]), None)
  }

  /** The waiter's critical section: the requested types in order, then error, then close. */
  function Scan(s: Core, types: seq<int>, now: int): (Core, Verdict)
    decreases |types|
  {
    if types == [] then
      (s, if s.error.Some? then Fail(s.error.value) else if s.closed then Closed else Block)
    else
      var (next, e) := Take(s, types[0], now);
      if e.Some? then (next, Deliver(types[0], e.value)) else Scan(next, types[1..], now)
  }

  function RecordError(s: Core, e: string): Core {
    if s.closed then s else s.(error := Some(e))
  }

  function SetClosed(s: Core): Core { s.(closed := true) }

  // ----- The object -----

  class Dispatcher {
    var queues: map<int, seq<Entry>>
    var droppedExpired: map<int, nat>
    var droppedOverflow: map<int, nat>
    var err: Option<string>
    var closed: bool
    var started: bool
    var notify: bool   // the one-slot channel holds a token

    constructor ()
      ensures State() == EMPTY && !started && !notify
    {
      queues, droppedExpired, droppedOverflow := map[], map[], map[];
      err, closed, started, notify := None, false, false, false;
    }

    function State(): Core
      reads this
    {
      Core(queues, droppedExpired, droppedOverflow, err, closed)
    }

    /** Only the first call starts a reader. */
    method Start() returns (spawn: bool)
      modifies this`started
      ensures spawn == !old(started) && started
    {
      spawn := !started;
      started := true;
    }

    method Broadcast()
      modifies this`notify
      ensures notify
    {
      notify := true;
    }

    /** Pop the expired head of q, counting. */
    method DropStale(t: int, queue: seq<Entry>, now: int) returns (q: seq<Entry>)
      modifies this`droppedExpired
      ensures q == queue[ExpiredHead(queue, now)..]
      ensures droppedExpired == Bump(old(droppedExpired), t, ExpiredHead(queue, now))
    {
      q := queue;
      ghost var n := 0;
      while |q| > 0 && Expired(q[0], now)
        invariant n + |q| == |queue| && q == queue[n..] && n + ExpiredHead(q, now) == ExpiredHead(queue, now)
        invariant droppedExpired == Bump(old(droppedExpired), t, n)
      {
        q := q[1..];
        BumpMore(old(droppedExpired), t, n);
        droppedExpired := droppedExpired[t := (if t in droppedExpired then droppedExpired[t] else 0) + 1];
        n := n + 1;
      }
    }

    /** The reader's loop body after a successful receive. */
    method OnMessage(msg: UnifiedMessage, now: int)
      modifies this
      ensures State() == Enqueue(old(State()), msg, now) && notify && started == old(started)
    {
      var t := msg.kind;
      var queue := if t in queues then queues[t] else [];
      var q := DropStale(t, queue, now);
      if |q| >= PER_TYPE_LIMIT {
        q := q[1..];
        droppedOverflow := droppedOverflow[t := (if t in droppedOverflow then droppedOverflow[t] else 0) + 1];
      }
      q := q + [Entry(msg, now)];
      queues := queues[t := q];
      Broadcast();
    }

    /** The reader's last act after a failed receive. */
    method OnError(e: string)
      modifies this
      ensures State() == RecordError(old(State()), e) && notify && started == old(started)
    {
      if !closed {
        err := Some(e);
      }
      Broadcast();
    }

    method Close()
      modifies this
      ensures State() == SetClosed(old(State())) && notify && started == old(started)
    {
      if !closed {
        closed := true;
      }
      Broadcast();
    }

    /** WaitFor's inner loop: pop one queue until an unexpired entry turns up. */
    method TakeFrom(t: int, now: int) returns (e: Option<Entry>)
      modifies this`queues, this`droppedExpired
      ensures (State(), e) == Take(old(State()), t, now)
    {
      var queue := if t in queues then queues[t] else [];
      var q := queue;
      ghost var n := 0;
      while |q| > 0
        invariant n <= |queue| && q == queue[n..] && n + ExpiredHead(q, now) == ExpiredHead(queue, now)
        invariant droppedExpired == Bump(old(droppedExpired), t, n) && queues == old(queues)
      {
        assert q[0] == queue[n] && q[1..] == queue[n + 1..];
        var head := q[0];
        q := q[1..];
        if !Expired(head, now) {
          queues := queues[t := q];
          return Some(head);
        }
        BumpMore(old(droppedExpired), t, n);
        droppedExpired := droppedExpired[t := (if t in droppedExpired then droppedExpired[t] else 0) + 1];
        n := n + 1;
      }
      queues := queues[t := q];
      return None;
    }

    /** One pass of WaitFor under the lock. */
    method TryWait(types: seq<int>, now: int) returns (v: Verdict)
      modifies this`queues, this`droppedExpired
      ensures (State(), v) == Scan(old(State()), types, now)
    {
      var i := 0;
      assert types[0..] == types;
      while i < |types|
        invariant 0 <= i <= |types|
        invariant Scan(State(), types[i..], now) == Scan(old(State()), types, now)
      {
        assert types[i..][0] == types[i] && types[i..][1..] == types[i + 1..];
        var e := TakeFrom(types[i], now);
        if e.Some? {
          return Deliver(types[i], e.value);
        }
        i := i + 1;
      }
      if err.Some? {
        return Fail(err.value);
      }
      if closed {
        return Closed;
      }
      return Block;
    }
  }

  // ----- What a wait returns -----

  ghost predicate Available(s: Core, t: int, now: int) {
    exists k :: 0 <= k < |s.Queue(t)| && !Outlived(s.Queue(t)[k], now)
  }

  /** e is the oldest unexpired entry of q. */
  ghost predicate Oldest(q: seq<Entry>, e: Entry, now: int) {
    exists k :: 0 <= k < |q| && q[k] == e && !Outlived(e, now) && forall j :: 0 <= j < k ==> Outlived(q[j], now)
  }

  /** t is the first of the requested types that has an unexpired message. */
  ghost predicate FirstAvailable(s: Core, types: seq<int>, t: int, now: int) {
    exists i :: 0 <= i < |types| && types[i] == t && forall j :: 0 <= j < i ==> !Available(s, types[j], now)
  }

  ghost predicate NoneAvailable(s: Core, types: seq<int>, now: int) {
    forall j :: 0 <= j < |types| ==> !Available(s, types[j], now)
  }

  lemma TakeChoice(s: Core, t: int, now: int)
    ensures match Take(s, t, now).1
            case Some(e) => Oldest(s.Queue(t), e, now)
            case None => !Available(s, t, now)
    ensures Take(s, t, now).1.None? ==>
              forall u :: Take(s, t, now).0.Queue(u) == if u == t then [] else s.Queue(u)
  {
    ExpiredHeadIs(s.Queue(t), now);
  }

  lemma AvailableElsewhere(s: Core, next: Core, t: int, u: int, now: int)
    requires forall v :: next.Queue(v) == if v == t then [] else s.Queue(v)
    requires !Available(s, t, now)
    ensures Available(next, u, now) <==> Available(s, u, now)
  {
    assert next.Queue(u) == if u == t then [] else s.Queue(u);
  }

  lemma AvailabilityCons(s: Core, next: Core, types: seq<int>, now: int)
    requires types != [] && !Available(s, types[0], now)
    requires forall v :: next.Queue(v) == if v == types[0] then [] else s.Queue(v)
    ensures NoneAvailable(next, types[1..], now) ==> NoneAvailable(s, types, now)
    ensures forall u :: FirstAvailable(next, types[1..], u, now) ==> FirstAvailable(s, types, u, now)
  {
    forall u ensures Available(next, u, now) <==> Available(s, u, now) {
      AvailableElsewhere(s, next, types[0], u, now);
    }
    assert forall j :: 0 < j < |types| ==> types[j] == types[1..][j - 1];
    forall u | FirstAvailable(next, types[1..], u, now) ensures FirstAvailable(s, types, u, now) {
      var i :| 0 <= i < |types[1..]| && types[1..][i] == u &&
        forall j :: 0 <= j < i ==> !Available(next, types[1..][j], now);
      assert types[i + 1] == u;
    }
  }

  /** A wait delivers the oldest unexpired message of the first requested type that has one; it reports an
      error, a close or nothing only when no requested type has one, and in that order of precedence. */
  lemma {:induction false} ScanChoice(s: Core, types: seq<int>, now: int)
    ensures match Scan(s, types, now).1
            case Deliver(t, e) => FirstAvailable(s, types, t, now) && Oldest(s.Queue(t), e, now)
            case Fail(e) => NoneAvailable(s, types, now) && s.error == Some(e)
            case Closed => NoneAvailable(s, types, now) && s.error == None && s.closed
            case Block => NoneAvailable(s, types, now) && s.error == None && !s.closed
    decreases |types|
  {
    if types != [] {
      TakeChoice(s, types[0], now);
      var (next, e) := Take(s, types[0], now);
      if e.None? {
        AvailabilityCons(s, next, types, now);
        ScanChoice(next, types[1..], now);
      }
    }
  }

  /** In numbers: a message received at `at` and waited for at `now` is delivered exactly while it is no older than
      its time to live or a second. */
  lemma FreshDelivered(m: UnifiedMessage, at: int, now: int)
    ensures Scan(Enqueue(EMPTY, m, at), [m.kind], now).1 ==
              if now - at <= m.ttlMs * 1_000_000 || now - at <= 1_000_000_000 then Deliver(m.kind, Entry(m, at))
              else Block
  {
    var s := Enqueue(EMPTY, m, at);
    assert s.Queue(m.kind) == [Entry(m, at)];
    ExpiredHeadIs([Entry(m, at)], now);
    assert [m.kind][1..] == [];
  }

  /** Time to live in nanoseconds as the comment on the protocol field has it: 0 stands for 30 seconds. */
  function DocumentedTtl(m: UnifiedMessage): int {
    if m.ttlMs == 0 then 30_000_000_000 else m.ttlMs * 1_000_000
  }

  /** A message is there for a wait for the documented time exactly when that field says a second or more, as in
      every message stamped by SendWithTTL. The message that no bytes stand for is gone after a second. */
  lemma TtlDocumentedIff(m: UnifiedMessage)
    ensures (forall at, now :: Scan(Enqueue(EMPTY, m, at), [m.kind], now).1.Deliver? <==> now - at <= DocumentedTtl(m))
            <==> m.ttlMs >= 1000
    ensures Scan(Enqueue(EMPTY, DEFAULT, 0), [DEFAULT.kind], 1_000_000_001).1 == Block
    ensures DocumentedTtl(DEFAULT) == 30_000_000_000
  {
    forall at, now
      ensures Scan(Enqueue(EMPTY, m, at), [m.kind], now).1.Deliver? <==>
                now - at <= m.ttlMs * 1_000_000 || now - at <= 1_000_000_000
    {
      FreshDelivered(m, at, now);
    }
    FreshDelivered(DEFAULT, 0, 1_000_000_001);
    if m.ttlMs < 1000 {
      var late := if m.ttlMs == 0 then 2_000_000_000 else 1_000_000_000;
      assert Scan(Enqueue(EMPTY, m, 0), [m.kind], late).1.Deliver? != (late - 0 <= DocumentedTtl(m));
    }
  }

  // ----- Conservation -----

  datatype Op = Receive(msg: UnifiedMessage, now: int) | Wait(types: seq<int>, now: int) | Break(error: string) | Shut

  function Apply(s: Core, op: Op): Core {
    match op
    case Receive(m, now) => Enqueue(s, m, now)
    case Wait(types, now) => Scan(s, types, now).0
    case Break(e) => RecordError(s, e)
    case Shut => SetClosed(s)
  }

  /** The state after any sequence of critical sections. */
  function After(ops: seq<Op>): Core {
    if ops == [] then EMPTY else Apply(After(ops[..|ops| - 1]), ops[|ops| - 1])
  }

  /** Everything received of type t, in order of arrival. */
  function Received(ops: seq<Op>, t: int): seq<Entry> {
    if ops == [] then []
    else
      var op := ops[|ops| - 1];
      Received(ops[..|ops| - 1], t) + if op.Receive? && op.msg.kind == t then [Entry(op.msg, op.now)] else []
  }

  /** Everything the waits handed out of type t, in order. */
  function HandedOut(ops: seq<Op>, t: int): seq<Entry> {
    if ops == [] then []
    else
      var op := ops[|ops| - 1];
      HandedOut(ops[..|ops| - 1], t) +
        if op.Wait? then DeliveredOf(Scan(After(ops[..|ops| - 1]), op.types, op.now).1, t) else []
  }

  function DeliveredOf(v: Verdict, t: int): seq<Entry> {
    if v.Deliver? && v.kind == t then [v.entry] else []
  }

  /** Every time at which a receive or a wait looked at the clock. */
  function Clock(ops: seq<Op>): set<int> {
    if ops == [] then {}
    else
      var op := ops[|ops| - 1];
      Clock(ops[..|ops| - 1]) + if op.Receive? || op.Wait? then {op.now} else {}
  }

  /** A read error met before any close, and no other, is what waits report; once closed, the dispatcher stays
      closed. */
  lemma {:induction false} ErrorOnlyBeforeClose(ops: seq<Op>)
    ensures After(ops).closed <==> Shut in ops
    ensures After(ops).error.Some? ==>
              exists i :: 0 <= i < |ops| && ops[i] == Break(After(ops).error.value) && Shut !in ops[..i]
    ensures forall i :: 0 <= i < |ops| && ops[i].Break? && Shut !in ops[..i] ==> After(ops).error.Some?
    decreases |ops|
  {
    if ops != [] {
      var last := |ops| - 1;
      var before := ops[..last];
      ErrorOnlyBeforeClose(before);
      assert ops == before + [ops[last]];
      if ops[last].Wait? {
        ScanKeepsEnd(After(before), ops[last].types, ops[last].now);
      }
      assert forall i :: 0 <= i < last ==> ops[i] == before[i] && ops[..i] == before[..i];
      if After(ops).error.Some? {
        if ops[last].Break? && Shut !in before {
          assert ops[..last] == before;
        } else {
          var i :| 0 <= i < last && before[i] == Break(After(ops).error.value) && Shut !in before[..i];
          assert ops[i] == before[i];
        }
      }
    }
  }

  lemma {:induction false} ScanKeepsEnd(s: Core, types: seq<int>, now: int)
    ensures var next := Scan(s, types, now).0;
            next.error == s.error && next.closed == s.closed
    decreases |types|
  {
    if types != [] {
      ScanKeepsEnd(Take(s, types[0], now).0, types[1..], now);
    }
  }

  /** What became of a received entry, and when. */
  datatype Fate = Delivered(now: int) | Expiry(now: int) | Overflow(now: int)

  /** What the fates of some entries add up to. */
  datatype Tally = Tally(handed: seq<Entry>, expired: nat, overflowed: nat) {
    function Add(e: Entry, f: Fate): Tally {
      match f
      case Delivered(_) => this.(handed := handed + [e])
      case Expiry(_) => this.(expired := expired + 1)
      case Overflow(_) => this.(overflowed := overflowed + 1)
    }
  }

  function Total(es: seq<Entry>, fates: seq<Fate>): Tally
    requires |es| == |fates|
  {
    if es == [] then Tally([], 0, 0)
    else
      var n := |es| - 1;
      Total(es[..n], fates[..n]).Add(es[n], fates[n])
  }

  /** A fate is justified at a time that was looked at: delivered or evicted while not outlived, evicted only behind
      ten newer messages, expired only when outlived. */
  ghost predicate Just(received: seq<Entry>, i: nat, f: Fate, clock: set<int>)
    requires i < |received|
  {
    && f.now in clock
    && match f
       case Delivered(now) => !Outlived(received[i], now)
       case Expiry(now) => Outlived(received[i], now)
       case Overflow(now) => !Outlived(received[i], now) && i + 10 < |received|
  }

  /** The fates account for the first |fates| received entries. */
  ghost predicate Accounts(received: seq<Entry>, fates: seq<Fate>, clock: set<int>, total: Tally) {
    && |fates| <= |received|
    && Total(received[..|fates|], fates) == total
    && forall i :: 0 <= i < |fates| ==> Just(received, i, fates[i], clock)
  }

  function Ledger(s: Core, t: int, handed: seq<Entry>): Tally {
    Tally(handed, s.ExpiredCount(t), s.OverflowCount(t))
  }

  /** The queue is what is left of the received entries once those with a fate are removed. */
  ghost predicate Explains(s: Core, t: int, received: seq<Entry>, handed: seq<Entry>,
                           clock: set<int>, fates: seq<Fate>) {
    && Accounts(received, fates, clock, Ledger(s, t, handed))
    && received[|fates|..] == s.Queue(t)
    && |s.Queue(t)| <= 10
  }

  lemma OneMoreFate(received: seq<Entry>, fates: seq<Fate>, f: Fate, clock: set<int>, total: Tally)
    requires Accounts(received, fates, clock, total) && |fates| < |received| && Just(received, |fates|, f, clock)
    ensures Accounts(received, fates + [f], clock, total.Add(received[|fates|], f))
  {
    var n := |fates|;
    assert (fates + [f])[..n] == fates && received[..n + 1][..n] == received[..n];
  }

  function Expiries(n: nat, now: int): seq<Fate> { seq(n, _ => Expiry(now)) }

  /** Dropping the first n queued entries, all expired. */
  lemma {:induction false} MoreExpiries(received: seq<Entry>, fates: seq<Fate>, n: nat, now: int,
                                        clock: set<int>, total: Tally)
    requires Accounts(received, fates, clock, total) && |fates| + n <= |received| && now in clock
    requires forall i :: |fates| <= i < |fates| + n ==> Outlived(received[i], now)
    ensures Accounts(received, fates + Expiries(n, now), clock, total.(expired := total.expired + n))
  {
    if n == 0 {
      assert fates + Expiries(0, now) == fates;
    } else {
      MoreExpiries(received, fates, n - 1, now, clock, total);
      OneMoreFate(received, fates + Expiries(n - 1, now), Expiry(now), clock, total.(expired := total.expired + n - 1));
      assert fates + Expiries(n, now) == fates + Expiries(n - 1, now) + [Expiry(now)];
    }
  }

  /** Receiving more and looking at the clock again leaves the accounts in order. */
  lemma Extend(received: seq<Entry>, more: seq<Entry>, fates: seq<Fate>, clock: set<int>, now: int, total: Tally)
    requires Accounts(received, fates, clock, total)
    ensures Accounts(received + more, fates, clock + {now}, total)
  {
    assert (received + more)[..|fates|] == received[..|fates|];
  }

  /** The pruning common to receiving and waiting. */
  lemma Prune(q: seq<Entry>, now: int, received: seq<Entry>, fates: seq<Fate>, clock: set<int>, total: Tally)
    requires Accounts(received, fates, clock, total) && q <= received[|fates|..] && now in clock
    ensures var n := ExpiredHead(q, now);
            && Accounts(received, fates + Expiries(n, now), clock, total.(expired := total.expired + n))
            && |fates + Expiries(n, now)| == |fates| + n
            && (n < |q| ==> received[|fates| + n] == q[n] && !Outlived(q[n], now))
  {
    ExpiredHeadIs(q, now);
    forall i | |fates| <= i < |fates| + ExpiredHead(q, now) ensures Outlived(received[i], now) {
      assert received[i] == received[|fates|..][i - |fates|] == q[i - |fates|];
    }
    MoreExpiries(received, fates, ExpiredHead(q, now), now, clock, total);
  }

  function Evicted(q: seq<Entry>, now: int): nat { if |q| - ExpiredHead(q, now) >= PER_TYPE_LIMIT then 1 else 0 }

  /** The fates decided when an entry arrives behind q. */
  lemma ArrivalAccounts(q: seq<Entry>, e: Entry, now: int, received: seq<Entry>,
                        fates: seq<Fate>, clock: set<int>, total: Tally)
    returns (more: seq<Fate>)
    requires Accounts(received, fates, clock, total) && received[|fates|..] == q
    ensures var stale, over := ExpiredHead(q, now), Evicted(q, now);
            && |more| == |fates| + stale + over
            && Accounts(received + [e], more, clock + {now},
                        total.(expired := total.expired + stale, overflowed := total.overflowed + over))
  {
    var stale := ExpiredHead(q, now);
    var all, looked := received + [e], clock + {now};
    Extend(received, [e], fates, clock, now, total);
    assert all[|fates|..] == q + [e];
    Prune(q, now, all, fates, looked, total);
    more := fates + Expiries(stale, now);
    if Evicted(q, now) == 1 {
      OneMoreFate(all, more, Overflow(now), looked, total.(expired := total.expired + stale));
      more := more + [Overflow(now)];
    }
  }

  lemma EnqueueExplained(s: Core, m: UnifiedMessage, now: int, received: seq<Entry>,
                         handed: seq<Entry>, clock: set<int>, fates: seq<Fate>)
    returns (more: seq<Fate>)
    requires Explains(s, m.kind, received, handed, clock, fates)
    ensures Explains(Enqueue(s, m, now), m.kind, received + [Entry(m, now)], handed, clock + {now}, more)
  {
    var q, e := s.Queue(m.kind), Entry(m, now);
    more := ArrivalAccounts(q, e, now, received, fates, clock, Ledger(s, m.kind, handed));
    EnqueueEffect(s, m, now, handed);
    BehindFates(received, e, |fates|, |more| - |fates|);
  }

  lemma BehindFates(received: seq<Entry>, e: Entry, n: nat, cut: nat)
    requires n + cut <= |received|
    ensures (received + [e])[n + cut..] == received[n..][cut..] + [e]
  {}

  /** Which entries a received message drops, and how they are counted. */
  lemma EnqueueEffect(s: Core, m: UnifiedMessage, now: int, handed: seq<Entry>)
    requires |s.Queue(m.kind)| <= PER_TYPE_LIMIT
    ensures var t, q := m.kind, s.Queue(m.kind);
            var stale, over := ExpiredHead(q, now), Evicted(q, now);
            var n, total := Enqueue(s, m, now), Ledger(s, t, handed);
            && stale + over <= |q| && n.Queue(t) == q[stale + over..] + [Entry(m, now)]
            && Ledger(n, t, handed) == total.(expired := total.expired + stale, overflowed := total.overflowed + over)
  {}

  lemma TakeExplained(s: Core, t: int, now: int, received: seq<Entry>, handed: seq<Entry>,
                      clock: set<int>, fates: seq<Fate>)
    returns (more: seq<Fate>)
    requires Explains(s, t, received, handed, clock, fates) && now in clock
    ensures var (next, e) := Take(s, t, now);
            Explains(next, t, received, handed + (if e.Some? then [e.value] else []), clock, more)
  {
    var q, total := s.Queue(t), Ledger(s, t, handed);
    var stale := ExpiredHead(q, now);
    Prune(q, now, received, fates, clock, total);
    more := fates + Expiries(stale, now);
    var (next, e) := Take(s, t, now);
    if stale < |q| {
      assert received[|more|] == q[stale];
      OneMoreFate(received, more, Delivered(now), clock, total.(expired := total.expired + stale));
      more := more + [Delivered(now)];
      assert received[|more|..] == q[stale + 1..] == next.Queue(t);
      assert Ledger(next, t, handed + [q[stale]])
          == total.(expired := total.expired + stale, handed := handed + [q[stale]]);
    } else {
      assert received[|more|..] == [] == next.Queue(t);
      assert handed + [] == handed;
      assert Ledger(next, t, handed) == total.(expired := total.expired + stale);
    }
  }

  lemma {:induction false} ScanExplained(s: Core, types: seq<int>, now: int, t: int,
                                         received: seq<Entry>, handed: seq<Entry>, clock: set<int>, fates: seq<Fate>)
    returns (more: seq<Fate>)
    requires Explains(s, t, received, handed, clock, fates) && now in clock
    ensures var (next, v) := Scan(s, types, now);
            Explains(next, t, received, handed + DeliveredOf(v, t), clock, more)
    decreases |types|
  {
    assert handed + [] == handed;
    more := fates;
    if types != [] {
      var (next, e) := Take(s, types[0], now);
      if types[0] == t {
        more := TakeExplained(s, t, now, received, handed, clock, fates);
      } else {
        assert Explains(next, t, received, handed, clock, fates);
      }
      if e.None? {
        more := ScanExplained(next, types[1..], now, t, received, handed, clock, more);
      }
    }
  }

  /** After every sequence of receives, waits, errors and closes, each type's received messages split, in
      order of arrival, into those with a fate and those still queued: the delivered ones are exactly what
      the waits handed out, the other fates are exactly the two counters, an expired one had outlived its time
      when it was dropped and no other had, an overflowed one has ten newer ones behind it, and at most ten are
      queued. */
  lemma {:induction false} Conservation(ops: seq<Op>, t: int) returns (fates: seq<Fate>)
    ensures Explains(After(ops), t, Received(ops, t), HandedOut(ops, t), Clock(ops), fates)
    decreases |ops|
  {
    fates := [];
    if ops != [] {
      var before, op := ops[..|ops| - 1], ops[|ops| - 1];
      fates := Conservation(before, t);
      var s, received, handed, clock := After(before), Received(before, t), HandedOut(before, t), Clock(before);
      assert received + [] == received && handed + [] == handed && clock + {} == clock;
      match op {
        case Receive(m, now) =>
          if m.kind == t {
            fates := EnqueueExplained(s, m, now, received, handed, clock, fates);
          } else {
            Extend(received, [], fates, clock, now, Ledger(s, t, handed));
          }
        case Wait(types, now) =>
          Extend(received, [], fates, clock, now, Ledger(s, t, handed));
          fates := ScanExplained(s, types, now, t, received, handed, clock + {now}, fates);
        case _ =>
      }
    }
  }
}
