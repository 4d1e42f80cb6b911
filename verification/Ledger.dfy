/**
 The trade-ledger writer as a protocol of interleaved steps: producers that enqueue
 without blocking, one dispatcher, writers limited by a semaphore, and a shutdown
 that may give up waiting.
 */
module Ledger {

  /** One enqueue call, and the row it carries. */
  type Op = nat

  const CHANNEL_CAPACITY: nat := 1024
  const MAX_INFLIGHT: nat := 8

  /** Where the dispatcher stands; on its way from the channel to a writer it holds one op. */
  datatype Dispatcher =
    | Receiving
    | Holding(op: Op)    // taken off the channel, gauge not lowered yet
    | Acquiring(op: Op)  // waiting for the semaphore or for cancellation
    | Spawning(op: Op)   // semaphore taken
    | Draining           // left the loop, waiting for the writers
    | Exited

  datatype Closer = Open | Waiting | GivenUp | Closed(clean: bool)

  datatype State = State(
    counted: set<Op>,    // enqueue calls that raised the gauge and are about to send
    refused: set<Op>,    // enqueue calls that found the channel full
    dropped: set<Op>,
    accepted: seq<Op>,   // every op ever sent, in order
    taken: seq<Op>,      // every op ever taken off the channel, in order
    channel: seq<Op>,
    gauge: int,
    dispatcher: Dispatcher,
    sem: nat,            // semaphore slots in use
    inflight: nat,       // writers the dispatcher waits for
    running: set<Op>,
    finished: set<Op>,   // ops whose write has returned
    releasing: set<Op>,  // ... and still hold the semaphore
    leaving: set<Op>,    // ... and released it, but are still waited for
    lost: set<Op>,       // given up by the dispatcher after cancellation
    closed: bool,
    cancelled: bool,
    closer: Closer,
    crashed: bool)

  const INIT: State :=
    State({}, {}, {}, [], [], [], 0, Receiving, 0, 0, {}, {}, {}, {}, {}, false, false, Open, false)

  datatype Step =
    // a producer, inside enqueue
    | Count(op: Op) | Send(op: Op) | Refuse(op: Op) | Uncount(op: Op) | SendOnClosed(op: Op)
    // the dispatcher
    | Receive | Lower | Acquire | Abandon | Spawn | EndOfRange | Exit
    // a writer
    | Return(op: Op) | Release(op: Op) | Leave(op: Op)
    // Close()
    | Close | DrainedInTime | GiveUp | LateClose

  /** The op is in the dispatcher's hands. */
  predicate InHand(d: Dispatcher, op: Op) {
    (d.Holding? || d.Acquiring? || d.Spawning?) && d.op == op
  }

  function One(b: bool): nat {
    if b then 1 else 0
  }

  ghost predicate Known(s: State, op: Op) {
    op in s.counted || op in s.refused || op in s.dropped || op in s.accepted
  }

  ghost predicate Enabled(s: State, step: Step) {
    && !s.crashed
    && match step
       case Count(op) => !Known(s, op)
       case Send(op) => op in s.counted && !s.closed && |s.channel| < CHANNEL_CAPACITY
       case Refuse(op) => op in s.counted && !s.closed && |s.channel| >= CHANNEL_CAPACITY
       case Uncount(op) => op in s.refused
       case SendOnClosed(op) => op in s.counted && s.closed
       case Receive => s.dispatcher.Receiving? && s.channel != []
       case Lower => s.dispatcher.Holding?
       case Acquire => s.dispatcher.Acquiring? && s.sem < MAX_INFLIGHT
       case Abandon => s.dispatcher.Acquiring? && s.cancelled
       case Spawn => s.dispatcher.Spawning?
       case EndOfRange => s.dispatcher.Receiving? && s.channel == [] && s.closed
       case Exit => s.dispatcher.Draining? && s.inflight == 0
       case Return(op) => op in s.running
       case Release(op) => op in s.releasing && s.sem > 0
       case Leave(op) => op in s.leaving && s.inflight > 0
       case Close => s.closer.Open?
       case DrainedInTime => s.closer.Waiting? && s.dispatcher.Exited?
       case GiveUp => s.closer.Waiting?
       case LateClose => s.closer.GivenUp?
  }

  ghost function Apply(s: State, step: Step): State
    requires Enabled(s, step)
  {
    match step
    case Count(op) => s.(gauge := s.gauge + 1, counted := s.counted + {op})
    case Send(op) => s.(counted := s.counted - {op}, channel := s.channel + [op], accepted := s.accepted + [op])
    case Refuse(op) => s.(counted := s.counted - {op}, refused := s.refused + {op})
    case Uncount(op) => s.(gauge := s.gauge - 1, refused := s.refused - {op}, dropped := s.dropped + {op})
    case SendOnClosed(op) => s.(crashed := true)
    case Receive =>
      s.(dispatcher := Holding(s.channel[0]), channel := s.channel[1..], taken := s.taken + [s.channel[0]])
    case Lower => s.(dispatcher := Acquiring(s.dispatcher.op), gauge := s.gauge - 1)
    case Acquire => s.(dispatcher := Spawning(s.dispatcher.op), sem := s.sem + 1)
    case Abandon => s.(dispatcher := Draining, lost := s.lost + {s.dispatcher.op})
    case Spawn => s.(dispatcher := Receiving, inflight := s.inflight + 1, running := s.running + {s.dispatcher.op})
    case EndOfRange => s.(dispatcher := Draining)
    case Exit => s.(dispatcher := Exited)
    case Return(op) =>
      s.(running := s.running - {op}, finished := s.finished + {op}, releasing := s.releasing + {op})
    case Release(op) => s.(releasing := s.releasing - {op}, sem := s.sem - 1, leaving := s.leaving + {op})
    case Leave(op) => s.(leaving := s.leaving - {op}, inflight := s.inflight - 1)
    case Close => s.(closed := true, closer := Waiting)
    case DrainedInTime => s.(closer := Closed(true))
    case GiveUp => s.(cancelled := true, closer := GivenUp)
    case LateClose => s.(closer := Closed(false))
  }

  // ----- the invariant, in parts

  ghost predicate DistinctOps(s: seq<Op>) {
    forall i, j | 0 <= i < j < |s| :: s[i] != s[j]
  }

  /** How many places inside and behind enqueue hold this call. */
  ghost function CallPlaces(s: State, op: Op): nat {
    One(op in s.counted) + One(op in s.refused) + One(op in s.dropped) + One(op in s.accepted)
  }

  /** How many places behind the channel hold this op. */
  ghost function TakenPlaces(s: State, op: Op): nat {
    One(InHand(s.dispatcher, op)) + One(op in s.running) + One(op in s.finished) + One(op in s.lost)
  }

  /** Every call is at one place of enqueue at most, and the channel is first in, first out. */
  ghost predicate CallsAccounted(s: State) {
    && (forall op: Op :: CallPlaces(s, op) <= 1)
    && DistinctOps(s.accepted)
    && s.accepted == s.taken + s.channel
    && |s.channel| <= CHANNEL_CAPACITY
  }

  ghost predicate TakenOnce(s: State, op: Op) {
    && TakenPlaces(s, op) == One(op in s.taken)
    && One(op in s.releasing) + One(op in s.leaving) <= One(op in s.finished)
  }

  /** Every op taken off the channel is in exactly one place. */
  ghost predicate TakenAccounted(s: State) {
    forall op: Op :: TakenOnce(s, op)
  }

  /** The gauge, the semaphore and the wait group count what they stand for. */
  ghost predicate CountersAgree(s: State) {
    && s.gauge == |s.counted| + |s.refused| + |s.channel| + (if s.dispatcher.Holding? then 1 else 0)
    && s.sem == |s.running| + |s.releasing| + (if s.dispatcher.Spawning? then 1 else 0)
    && s.sem <= MAX_INFLIGHT
    && s.inflight == |s.running| + |s.releasing| + |s.leaving|
  }

  ghost predicate ShutdownOrdered(s: State) {
    && (s.closed <==> !s.closer.Open?)
    && (s.cancelled <==> s.closer.GivenUp? || s.closer == Closed(false))
    && (s.lost != {} ==> s.cancelled && (s.dispatcher.Draining? || s.dispatcher.Exited?))
    && |s.lost| <= 1
    && (s.dispatcher.Draining? || s.dispatcher.Exited? ==> (s.closed && s.channel == []) || s.lost != {})
    && (s.dispatcher.Exited? ==> s.inflight == 0)
    && (s.closer == Closed(true) ==> s.dispatcher.Exited?)
  }

  ghost predicate Inv(s: State) {
    CallsAccounted(s) && TakenAccounted(s) && CountersAgree(s) && ShutdownOrdered(s)
  }

  predicate OfProducer(step: Step) {
    step.Count? || step.Send? || step.Refuse? || step.Uncount?
  }

  predicate OfDispatcher(step: Step) {
    step.Receive? || step.Lower? || step.Acquire? || step.Abandon? || step.Spawn? || step.EndOfRange? || step.Exit?
  }

  predicate OfWriter(step: Step) {
    step.Return? || step.Release? || step.Leave?
  }

  lemma SendKeepsCalls(s: State, op: Op)
    requires Inv(s) && Enabled(s, Send(op))
    ensures CallsAccounted(Apply(s, Send(op)))
  {
    assert CallPlaces(s, op) <= 1;
    forall x: Op ensures CallPlaces(Apply(s, Send(op)), x) <= 1 { assert CallPlaces(s, x) <= 1; }
    assert s.accepted + [op] == s.taken + (s.channel + [op]);
  }

  lemma ReceiveKeepsCalls(s: State)
    requires Inv(s) && Enabled(s, Receive)
    ensures CallsAccounted(Apply(s, Receive))
  {
    forall x: Op ensures CallPlaces(Apply(s, Receive), x) <= 1 { assert CallPlaces(s, x) <= 1; }
    assert s.taken + s.channel == s.taken + [s.channel[0]] + s.channel[1..];
  }

  lemma StepKeepsCalls(s: State, step: Step)
    requires Inv(s) && Enabled(s, step)
    ensures CallsAccounted(Apply(s, step))
  {
    if step.Send? {
      SendKeepsCalls(s, step.op);
    } else if step.Receive? {
      ReceiveKeepsCalls(s);
    } else {
      forall x: Op ensures CallPlaces(Apply(s, step), x) <= 1 { assert CallPlaces(s, x) <= 1; }
    }
  }

  lemma NotTakenTwice(taken: seq<Op>, channel: seq<Op>)
    requires DistinctOps(taken + channel) && channel != []
    ensures channel[0] !in taken
  {
    var all := taken + channel;
    assert all[|taken|] == channel[0] && forall i | 0 <= i < |taken| :: all[i] == taken[i];
  }

  lemma ReceiveKeepsTaken(s: State)
    requires Inv(s) && Enabled(s, Receive)
    ensures TakenAccounted(Apply(s, Receive))
  {
    NotTakenTwice(s.taken, s.channel);
    forall x: Op ensures TakenOnce(Apply(s, Receive), x) { assert TakenOnce(s, x); }
  }

  lemma WriterKeepsTaken(s: State, step: Step)
    requires Inv(s) && Enabled(s, step) && OfWriter(step)
    ensures TakenAccounted(Apply(s, step))
  {
    forall x: Op ensures TakenOnce(Apply(s, step), x) { assert TakenOnce(s, x); }
  }

  /** A dispatcher step behind the channel moves its op to one other place. */
  lemma MoveKeepsTaken(s: State, step: Step, x: Op)
    requires TakenOnce(s, x) && Enabled(s, step) && OfDispatcher(step) && !step.Receive?
    ensures TakenOnce(Apply(s, step), x)
  {
  }

  lemma DispatcherKeepsTaken(s: State, step: Step)
    requires Inv(s) && Enabled(s, step) && OfDispatcher(step)
    ensures TakenAccounted(Apply(s, step))
  {
    if step.Receive? {
      ReceiveKeepsTaken(s);
    } else {
      forall x: Op ensures TakenOnce(Apply(s, step), x) { MoveKeepsTaken(s, step, x); }
    }
  }

  lemma StepKeepsTaken(s: State, step: Step)
    requires Inv(s) && Enabled(s, step)
    ensures TakenAccounted(Apply(s, step))
  {
    if OfDispatcher(step) {
      DispatcherKeepsTaken(s, step);
    } else if OfWriter(step) {
      WriterKeepsTaken(s, step);
    } else {
      forall x: Op ensures TakenOnce(Apply(s, step), x) { assert TakenOnce(s, x); }
    }
  }

  lemma ProducerKeepsCounters(s: State, step: Step)
    requires Inv(s) && Enabled(s, step) && OfProducer(step)
    ensures CountersAgree(Apply(s, step))
  {
    assert CallPlaces(s, step.op) <= 1;
  }

  lemma DispatcherKeepsCounters(s: State, step: Step)
    requires Inv(s) && Enabled(s, step) && OfDispatcher(step)
    ensures CountersAgree(Apply(s, step))
  {
    if step.Spawn? { assert TakenOnce(s, s.dispatcher.op); }
  }

  lemma WriterKeepsCounters(s: State, step: Step)
    requires Inv(s) && Enabled(s, step) && OfWriter(step)
    ensures CountersAgree(Apply(s, step))
  {
    var op := step.op;
    assert TakenOnce(s, op);
    match step {
      case Return(_) => assert |s.running - {op}| == |s.running| - 1 && |s.releasing + {op}| == |s.releasing| + 1;
      case Release(_) => assert |s.releasing - {op}| == |s.releasing| - 1 && |s.leaving + {op}| == |s.leaving| + 1;
      case Leave(_) => assert |s.leaving - {op}| == |s.leaving| - 1;
    }
  }

  lemma DispatcherKeepsShutdown(s: State, step: Step)
    requires Inv(s) && Enabled(s, step) && OfDispatcher(step)
    ensures ShutdownOrdered(Apply(s, step))
  {
  }

  lemma StepKeepsShutdown(s: State, step: Step)
    requires Inv(s) && Enabled(s, step)
    ensures ShutdownOrdered(Apply(s, step))
  {
    if OfDispatcher(step) { DispatcherKeepsShutdown(s, step); }
  }

  lemma StepKeepsInv(s: State, step: Step)
    requires Inv(s) && Enabled(s, step)
    ensures Inv(Apply(s, step))
  {
    StepKeepsCalls(s, step);
    StepKeepsTaken(s, step);
    if OfProducer(step) {
      ProducerKeepsCounters(s, step);
    } else if OfDispatcher(step) {
      DispatcherKeepsCounters(s, step);
    } else if OfWriter(step) {
      WriterKeepsCounters(s, step);
    }
    StepKeepsShutdown(s, step);
  }

  // ----- runs

  /** The steps can be taken one after the other from `s`. */
  ghost predicate IsRun(s: State, steps: seq<Step>)
    decreases |steps|
  {
    steps == [] || (Enabled(s, steps[0]) && IsRun(Apply(s, steps[0]), steps[1..]))
  }

  ghost function End(s: State, steps: seq<Step>): State
    requires IsRun(s, steps)
    decreases |steps|
  {
    if steps == [] then s else End(Apply(s, steps[0]), steps[1..])
  }

  lemma {:induction false} RunKeepsInv(s: State, steps: seq<Step>)
    requires Inv(s) && IsRun(s, steps)
    ensures Inv(End(s, steps))
    decreases |steps|
  {
    if steps != [] {
      StepKeepsInv(s, steps[0]);
      RunKeepsInv(Apply(s, steps[0]), steps[1..]);
    }
  }

  lemma InitIsGood()
    ensures Inv(INIT)
  {
  }

  /** How many of channel, dispatcher, running, finished and lost hold this op. */
  ghost function Places(s: State, op: Op): nat {
    One(op in s.channel) + TakenPlaces(s, op)
  }

  lemma OneSide(a: seq<Op>, b: seq<Op>, op: Op)
    requires DistinctOps(a + b)
    ensures One(op in a) + One(op in b) == One(op in a + b)
  {
    if op in a {
      var i :| 0 <= i < |a| && a[i] == op;
      forall j | 0 <= j < |b| ensures b[j] != op { assert (a + b)[i] == op && (a + b)[|a| + j] == b[j]; }
    }
  }

  /**
   In every interleaving: each accepted op is in exactly one of channel, dispatcher, running,
   finished and lost, no other op is in any, and the channel hands them on in the order of
   acceptance; the gauge is never below the channel length; at most eight writes run at once.
   */
  lemma ProtocolIsSafe(steps: seq<Step>, op: Op)
    requires IsRun(INIT, steps)
    ensures var s := End(INIT, steps);
            && Places(s, op) == One(op in s.accepted)
            && s.accepted == s.taken + s.channel && DistinctOps(s.accepted)
            && s.gauge >= |s.channel| && |s.channel| <= 1024
            && |s.running| <= 8
            && (s.lost != {} ==> s.cancelled) && |s.lost| <= 1
  {
    InitIsGood();
    RunKeepsInv(INIT, steps);
    var s := End(INIT, steps);
    assert TakenOnce(s, op);
    OneSide(s.taken, s.channel, op);
  }

  /** A shutdown that drained in time means that the writes of exactly the accepted ops have returned. */
  lemma CleanDrainLosesNothing(steps: seq<Step>, op: Op)
    requires IsRun(INIT, steps) && End(INIT, steps).closer == Closed(true)
    ensures var s := End(INIT, steps);
            && (op in s.finished <==> op in s.accepted)
            && s.channel == [] && s.running == {} && s.lost == {}
            && s.gauge == |s.counted| + |s.refused|
  {
    InitIsGood();
    RunKeepsInv(INIT, steps);
    var s := End(INIT, steps);
    assert TakenOnce(s, op);
    assert |s.running| == 0;
  }

  lemma KnownAfterStep(s: State, step: Step, op: Op)
    requires Enabled(s, step)
    ensures Known(Apply(s, step), op) <==> Known(s, op) || step == Count(op)
  {
  }

  /** A call that was counted stays known: it is about to send, refused, dropped or accepted. */
  lemma {:induction false} CountedCallsStayKnown(s: State, steps: seq<Step>, op: Op)
    requires IsRun(s, steps)
    ensures Known(End(s, steps), op) <==> Known(s, op) || Count(op) in steps
    decreases |steps|
  {
    if steps != [] {
      KnownAfterStep(s, steps[0], op);
      CountedCallsStayKnown(Apply(s, steps[0]), steps[1..], op);
    }
  }

  /** The step of the enqueue call or of the writer of this op. */
  predicate StepOf(step: Step, op: Op) {
    (OfProducer(step) || step.SendOnClosed? || OfWriter(step)) && step.op == op
  }

  /** Before the close a counted call is sent exactly while the channel has room, and else refused. */
  lemma DropsOnlyWhenFull(s: State, op: Op, step: Step)
    requires Inv(s) && !s.closed && !s.crashed && op in s.counted && StepOf(step, op)
    ensures Enabled(s, step) <==> step == if |s.channel| < 1024 then Send(op) else Refuse(op)
  {
    assert CallPlaces(s, op) <= 1 && TakenOnce(s, op);
  }

  /** The dispatcher takes a semaphore slot exactly while fewer than eight writers hold one. */
  lemma WaitsOnlyForEightWriters(s: State)
    requires Inv(s) && !s.crashed && s.dispatcher.Acquiring?
    ensures Enabled(s, Acquire) <==> |s.running| + |s.releasing| < 8
  {
  }

  // ----- sends on a closed channel

  /** After the close, an enqueue call that is about to send can only crash. */
  lemma LateCallMustCrash(s: State, op: Op, step: Step)
    requires Inv(s) && s.closed && !s.crashed && op in s.counted && StepOf(step, op)
    ensures Enabled(s, step) <==> step == SendOnClosed(op)
  {
    assert CallPlaces(s, op) <= 1 && TakenOnce(s, op);
  }

  ghost predicate NoNewCalls(steps: seq<Step>) {
    forall i | 0 <= i < |steps| :: !steps[i].Count?
  }

  ghost predicate CrashesWithoutNewCalls(s: State, steps: seq<Step>) {
    NoNewCalls(steps) && IsRun(s, steps) && End(s, steps).crashed
  }

  /** With no call about to send, and none to come, nothing crashes, before or after the close. */
  lemma {:induction false} QuietRunIsSafe(s: State, steps: seq<Step>)
    requires s.counted == {} && !s.crashed && NoNewCalls(steps) && IsRun(s, steps)
    ensures End(s, steps).counted == {} && !End(s, steps).crashed
    decreases |steps|
  {
    if steps != [] {
      assert !steps[0].Count?;
      QuietRunIsSafe(Apply(s, steps[0]), steps[1..]);
    }
  }

  lemma OneStep(s: State, step: Step)
    requires Enabled(s, step)
    ensures IsRun(s, [step]) && End(s, [step]) == Apply(s, step)
  {
    assert [step][1..] == [];
  }

  lemma CallCanCrash(s: State, op: Op)
    requires Inv(s) && !s.crashed && op in s.counted
    ensures exists steps :: CrashesWithoutNewCalls(s, steps)
  {
    var late := SendOnClosed(op);
    if s.closed {
      OneStep(s, late);
      assert CrashesWithoutNewCalls(s, [late]);
    } else {
      OneStep(Apply(s, Close), late);
      var steps := [Close, late];
      assert steps[1..] == [late];
      assert CrashesWithoutNewCalls(s, steps);
    }
  }

  /** A crash without new calls is possible exactly when some call is about to send. */
  lemma CanCrashIff(s: State)
    requires Inv(s) && !s.crashed
    ensures (exists steps :: CrashesWithoutNewCalls(s, steps)) <==> s.counted != {}
  {
    if s.counted == {} {
      forall steps ensures !CrashesWithoutNewCalls(s, steps) {
        if NoNewCalls(steps) && IsRun(s, steps) { QuietRunIsSafe(s, steps); }
      }
    } else {
      var op :| op in s.counted;
      CallCanCrash(s, op);
    }
  }

  // ----- the drain ends

  /** How many dispatcher and writer steps can still be taken once the channel is closed. */
  ghost function Work(s: State): nat {
    7 * |s.channel| + 3 * |s.running| + 2 * |s.releasing| + |s.leaving| +
    match s.dispatcher
    case Receiving => 2
    case Holding(_) => 8
    case Acquiring(_) => 7
    case Spawning(_) => 6
    case Draining => 1
    case Exited => 0
  }

  lemma WriterUsesWork(s: State, step: Step)
    requires Inv(s) && Enabled(s, step) && OfWriter(step)
    ensures Work(Apply(s, step)) < Work(s)
  {
  }

  lemma DispatcherUsesWork(s: State, step: Step)
    requires Inv(s) && Enabled(s, step) && OfDispatcher(step)
    ensures Work(Apply(s, step)) < Work(s)
  {
    if step.Spawn? { assert TakenOnce(s, s.dispatcher.op); }
  }

  /** The dispatcher and writer steps among `steps`. */
  ghost function DrainSteps(steps: seq<Step>): nat {
    if steps == [] then 0
    else One(OfDispatcher(steps[0]) || OfWriter(steps[0])) + DrainSteps(steps[1..])
  }

  lemma DrainStep(s: State, step: Step)
    requires Inv(s) && s.closed && Enabled(s, step)
    ensures var s' := Apply(s, step);
            s'.closed && One(OfDispatcher(step) || OfWriter(step)) + Work(s') <= Work(s)
  {
    if OfWriter(step) { WriterUsesWork(s, step); }
    if OfDispatcher(step) { DispatcherUsesWork(s, step); }
  }

  /** After the close, however the steps interleave, the drain takes no more steps than there is work. */
  lemma {:induction false} DrainEnds(s: State, steps: seq<Step>)
    requires Inv(s) && s.closed && IsRun(s, steps)
    ensures DrainSteps(steps) + Work(End(s, steps)) <= Work(s)
    decreases |steps|
  {
    if steps != [] {
      StepKeepsInv(s, steps[0]);
      DrainStep(s, steps[0]);
      DrainEnds(Apply(s, steps[0]), steps[1..]);
    }
  }

  lemma BusyWriter(s: State) returns (step: Step)
    requires Inv(s) && !s.crashed && s.inflight > 0
    ensures OfWriter(step) && Enabled(s, step)
  {
    if s.running != {} {
      var op :| op in s.running;
      step := Return(op);
    } else if s.releasing != {} {
      var op :| op in s.releasing;
      step := Release(op);
    } else {
      assert s.leaving != {};
      var op :| op in s.leaving;
      step := Leave(op);
    }
  }

  /** After the close, until the dispatcher has exited, it or a writer can take some step. */
  lemma DrainIsNeverStuck(s: State) returns (step: Step)
    requires Inv(s) && s.closed && !s.crashed && !s.dispatcher.Exited?
    ensures (OfDispatcher(step) || OfWriter(step)) && Enabled(s, step)
  {
    match s.dispatcher
    case Receiving => step := if s.channel != [] then Receive else EndOfRange;
    case Holding(_) => step := Lower;
    case Acquiring(_) => if s.sem < MAX_INFLIGHT { step := Acquire; } else { step := BusyWriter(s); }
    case Spawning(_) => step := Spawn;
    case Draining => if s.inflight == 0 { step := Exit; } else { step := BusyWriter(s); }
  }
}
