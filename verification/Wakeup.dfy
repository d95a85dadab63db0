/** The dispatcher's one-slot notification channel, as an interleaving of one reader, any number of
    closers and n waiters. Every step is one critical section, one channel operation or one return. */
module Wakeup {
  import opened Bytes
  import opened Messages
  import opened Dispatch
  import Runs

  datatype ReaderPc =
    | Reading        // between iterations or blocked in a receive
    | Owing          // message queued or error recorded, broadcast still to come
    | OwingLast      // the same, and the reader exits afterwards
    | Exited

  datatype WaiterPc =
    | Outside                         // not inside WaitFor
    | Scanning(types: seq<int>)       // about to take the lock
    | Blocked(types: seq<int>)        // found nothing, waiting on the channel or the context

  datatype State = State(core: Core, slot: bool, reader: ReaderPc, closersOwing: nat, waiters: seq<WaiterPc>)

  function Start(n: nat): State {
    State(EMPTY, false, Reading, 0, seq(n, _ => Outside))
  }

  datatype Step =
    | Arrive(msg: UnifiedMessage, now: int)
    | ReadFails(error: string)
    | ReaderSeesClose
    | ReaderBroadcasts
    | CloseSets
    | CloserBroadcasts
    | Call(i: nat, types: seq<int>)
    | Look(i: nat, now: int)
    | TakeToken(i: nat)
    | Cancel(i: nat)

  predicate Enabled(s: State, step: Step) {
    match step
    case Arrive(_, _) => s.reader == Reading
    case ReadFails(_) => s.reader == Reading
    case ReaderSeesClose => s.reader == Reading && s.core.closed
    case ReaderBroadcasts => s.reader == Owing || s.reader == OwingLast
    case CloseSets => true
    case CloserBroadcasts => s.closersOwing > 0
    case Call(i, _) => i < |s.waiters| && s.waiters[i].Outside?
    case Look(i, _) => i < |s.waiters| && s.waiters[i].Scanning?
    case TakeToken(i) => i < |s.waiters| && s.waiters[i].Blocked? && s.slot
    case Cancel(i) => i < |s.waiters| && s.waiters[i].Blocked?
  }

  function Next(s: State, step: Step): State
    requires Enabled(s, step)
  {
    match step
    case Arrive(m, now) => s.(core := Enqueue(s.core, m, now), reader := Owing)
    case ReadFails(e) => s.(core := RecordError(s.core, e), reader := OwingLast)
    case ReaderSeesClose => s.(reader := Exited)
    case ReaderBroadcasts => s.(slot := true, reader := if s.reader == Owing then Reading else Exited)
    case CloseSets => s.(core := SetClosed(s.core), closersOwing := s.closersOwing + 1)
    case CloserBroadcasts => s.(slot := true, closersOwing := s.closersOwing - 1)
    case Call(i, types) => s.(waiters := s.waiters[i := Scanning(types)])
    case Look(i, now) =>
      var (core, v) := Scan(s.core, s.waiters[i].types, now);
      s.(core := core, waiters := s.waiters[i := if v.Block? then Blocked(s.waiters[i].types) else Outside])
    case TakeToken(i) => s.(slot := false, waiters := s.waiters[i := Scanning(s.waiters[i].types)])
    case Cancel(i) => s.(waiters := s.waiters[i := Outside])
  }

  function Try(): (State, Step) -> Option<State> {
    (s, step) => if Enabled(s, step) then Some(Next(s, step)) else None
  }

  /** The state after a run of steps from s, if every step was enabled in its turn. */
  function RunFrom(s: State, steps: seq<Step>): Option<State> { Runs.Run(s, Try(), steps) }

  /** The same from the start with n waiters. */
  function Run(n: nat, steps: seq<Step>): Option<State> { RunFrom(Start(n), steps) }

  /** Something a waiter for these types should return for: a queued message, an error, or a close. */
  ghost predicate Reason(core: Core, types: seq<int>) {
    core.error.Some? || core.closed || exists t :: t in types && core.Queue(t) != []
  }

  predicate WakeupComing(s: State) {
    s.slot || s.reader == Owing || s.reader == OwingLast || s.closersOwing > 0
  }

  /** No waiter sleeps on a reason to wake that nobody is going to signal. */
  ghost predicate NoLostWakeup(s: State) {
    forall i :: 0 <= i < |s.waiters| && s.waiters[i].Blocked? && Reason(s.core, s.waiters[i].types) ==> WakeupComing(s)
  }

  /** A pass that finds nothing leaves nothing behind: every requested queue is empty. */
  lemma {:induction false} BlockMeansEmpty(core: Core, types: seq<int>, now: int)
    requires Scan(core, types, now).1.Block?
    ensures !Reason(Scan(core, types, now).0, types)
    ensures forall t :: core.Queue(t) == [] ==> Scan(core, types, now).0.Queue(t) == []
    decreases |types|
  {
    if types != [] {
      var next := Take(core, types[0], now).0;
      BlockMeansEmpty(next, types[1..], now);
      assert next.Queue(types[0]) == [];
      forall t | t in types ensures Scan(core, types, now).0.Queue(t) == [] {
        if t != types[0] {
          assert t in types[1..];
        }
      }
    }
  }

  /** With a single waiter every step keeps the invariant. */
  lemma StepKeeps(s: State, step: Step)
    requires |s.waiters| <= 1 && NoLostWakeup(s) && Enabled(s, step)
    ensures |Next(s, step).waiters| == |s.waiters| && NoLostWakeup(Next(s, step))
  {
    match step {
      case Look(i, now) =>
        if Scan(s.core, s.waiters[i].types, now).1.Block? {
          BlockMeansEmpty(s.core, s.waiters[i].types, now);
        }
      case _ =>
    }
  }

  lemma SingleWaiterSafe(n: nat, steps: seq<Step>)
    requires n <= 1 && Run(n, steps).Some?
    ensures |Run(n, steps).value.waiters| == n && NoLostWakeup(Run(n, steps).value)
  {
    forall s: State, e: Step | |s.waiters| == n && NoLostWakeup(s) && Enabled(s, e)
      ensures |Next(s, e).waiters| == n && NoLostWakeup(Next(s, e))
    {
      StepKeeps(s, e);
    }
    Runs.Invariant(Start(n), Try(), steps, (s: State) => |s.waiters| == n && NoLostWakeup(s));
  }

  /** Waiter i sleeps on a closed dispatcher, nothing is in the channel and nobody is left to put it there. */
  ghost predicate Stranded(s: State, i: nat) {
    && i < |s.waiters| && s.waiters[i].Blocked? && s.core.closed
    && !s.slot && s.reader == Exited && s.closersOwing == 0
  }

  /** Only another close or its own context can ever release a stranded waiter. */
  lemma StrandedStays(s: State, i: nat, steps: seq<Step>)
    requires Stranded(s, i) && RunFrom(s, steps).Some?
    requires CloseSets !in steps && Cancel(i) !in steps
    ensures Stranded(RunFrom(s, steps).value, i)
  {
    forall t, e | e in steps && Stranded(t, i) && Enabled(t, e)
      ensures Stranded(Next(t, e), i)
    {
      StrandedStep(t, i, e);
    }
    Runs.Invariant(s, Try(), steps, t => Stranded(t, i));
  }

  lemma StrandedStep(s: State, i: nat, step: Step)
    requires Stranded(s, i) && Enabled(s, step) && step != CloseSets && step != Cancel(i)
    ensures Stranded(Next(s, step), i)
  {
    if step.Look? {
      ScanKeepsEnd(s.core, s.waiters[step.i].types, step.now);
    }
  }

  /** Two waiters, one close: the single token wakes one of them, which returns; the reader leaves without a
      word; the other sleeps on, and no run without a further close or its own cancellation releases it. */
  lemma TwoWaitersLose(n: nat) returns (steps: seq<Step>, s: State)
    requires n >= 2
    ensures Run(n, steps) == Some(s) && !NoLostWakeup(s) && Stranded(s, 1) && s.waiters[0] == Outside
    ensures forall more :: RunFrom(s, more).Some? && CloseSets !in more && Cancel(1) !in more ==>
              Stranded(RunFrom(s, more).value, 1)
  {
    steps, s := [], Start(n);
    var script := [Call(0, []), Call(1, []), Look(0, 0), Look(1, 0), CloseSets, CloserBroadcasts, TakeToken(0),
                   ReaderSeesClose, Look(0, 0)];
    var k := 0;
    while k < 9
      invariant 0 <= k <= 9 && Run(n, steps) == Some(s) && |s.waiters| == n
      invariant s.core == if k < 5 then EMPTY else SetClosed(EMPTY)
      invariant s.slot == (k == 6) && s.closersOwing == (if k == 5 then 1 else 0)
      invariant s.reader == if k < 8 then Reading else Exited
      invariant s.waiters[0] == if k < 1 || k == 9 then Outside
                                else if k < 3 || k > 6 then Scanning([]) else Blocked([])
      invariant s.waiters[1] == if k < 2 then Outside else if k < 4 then Scanning([]) else Blocked([])
    {
      Runs.OneMore(Start(n), Try(), steps, s, script[k]);
      steps, s := steps + [script[k]], Next(s, script[k]);
      k := k + 1;
    }
    assert s.waiters[1].Blocked? && s.core.closed && !WakeupComing(s);
    forall more | RunFrom(s, more).Some? && CloseSets !in more && Cancel(1) !in more
      ensures Stranded(RunFrom(s, more).value, 1)
    {
      StrandedStays(s, 1, more);
    }
  }

  /** The channel never loses a wake-up, in any interleaving, exactly when at most one goroutine waits; with more,
      a close can leave one behind for good. */
  lemma NoLostWakeupIff(n: nat)
    ensures (forall steps :: Run(n, steps).Some? ==> NoLostWakeup(Run(n, steps).value)) <==> n <= 1
    ensures (exists steps, i :: Run(n, steps).Some? && Stranded(Run(n, steps).value, i)) <==> n >= 2
  {
    if n <= 1 {
      forall steps | Run(n, steps).Some?
        ensures NoLostWakeup(Run(n, steps).value)
        ensures forall i :: !Stranded(Run(n, steps).value, i)
      {
        SingleWaiterSafe(n, steps);
      }
    } else {
      var steps, s := TwoWaitersLose(n);
      assert Stranded(Run(n, steps).value, 1);
    }
  }
}
