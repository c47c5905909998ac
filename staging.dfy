/**
 * The message protocol of app.c as a sequential event model.
 *
 * One static record `appMessage`, zero-initialised, is shared by the two
 * producer tasks. The gyro task writes its `rotation` field, the button task
 * its `buttonState` field; each then puts a copy of the whole record into the
 * LED message queue (capacity `MAX_MSG_COUNT`). The LED task gets the oldest
 * message and drives the LEDs from it.
 *
 * A producer writes the record BEFORE its blocking put, so each producer
 * moves through two phases: `Waiting` (blocked on its token or event flag)
 * and `Putting` (field written, put not yet complete). A put on a full queue
 * does not complete: the task stays in `Putting`, and meanwhile the other
 * producer may overwrite its own field of the shared record. A task whose RTOS
 * call returns one of the error statuses it checks spins for ever; it is
 * `Halted` and takes no further step. An event whose task cannot run leaves the state unchanged.
 *
 * The queue is CMSIS-RTOS2's `osMessageQueue`, whose code is not part of this
 * model: it is ASSUMED to be a first-in first-out queue of value copies that
 * blocks a put while it holds `MAX_MSG_COUNT` messages and a get while it is
 * empty. A blocked put copies `appMessage` when it completes, not when it is
 * called, so the copy includes writes made while it was blocked.
 */
module Staging {
  import opened Options
  import opened Gyro
  import opened Actuator

  /** `MAX_MSG_COUNT`: the capacity of the LED message queue. */
  const MaxMsgCount: nat := 8

  /** Where a task stands in its loop. */
  datatype Phase =
    | Waiting   // blocked on its token, event flag or message queue
    | Putting   // a producer that has written its field and not yet completed its put
    | Halted    // spinning after an RTOS call returned an error

  datatype Task = GyroTask | ButtonTask | LedTask

  /** One step of one task. */
  datatype Event =
    | GyroSample(raw: Int16)        // gyro task: token acquired, velocity read, `rotation` written
    | GyroPut                       // gyro task: its put of `appMessage` completes
    | ButtonSample(pin: PinState)   // button task: event flag consumed, pin read, `buttonState` written
    | ButtonPut                     // button task: its put of `appMessage` completes
    | LedGet                        // LED task: a get completes and the LEDs are driven
    | Fault(task: Task)             // an RTOS call of that task returns an error status it checks

  datatype AppState = AppState(
    staged: Message,                // `appMessage`
    queue: seq<Message>,            // the LED message queue, oldest first
    gyro: Phase,
    button: Phase,
    ledHalted: bool,
    leds: Option<LedLevels>)        // the levels last written, None before any write

  /** The record as static zero-initialisation leaves it: every field 0. */
  function ZeroMessage(): (m: Message)
    ensures m.buttonState.Value() == 0 && m.rotation.Value() == 0
  {
    Message(Reset, NearlyZero)
  }

  /** The state once the tasks have been created and before any of them ran. */
  function Init(): AppState {
    AppState(ZeroMessage(), [], Waiting, Waiting, false, None)
  }

  /** The queue never holds more than its capacity. */
  predicate Valid(s: AppState) {
    |s.queue| <= MaxMsgCount
  }

  predicate IsHalted(s: AppState, task: Task) {
    match task
    case GyroTask => s.gyro == Halted
    case ButtonTask => s.button == Halted
    case LedTask => s.ledHalted
  }

  /** Whether the task of `e` can take that step now, rather than being blocked
      or halted. */
  predicate Enabled(s: AppState, e: Event) {
    match e
    case GyroSample(_) => s.gyro == Waiting
    case GyroPut => s.gyro == Putting && |s.queue| < MaxMsgCount
    case ButtonSample(_) => s.button == Waiting
    case ButtonPut => s.button == Putting && |s.queue| < MaxMsgCount
    case LedGet => !s.ledHalted && |s.queue| > 0
    case Fault(task) => !IsHalted(s, task)
  }

  /** The effect of one step; a step that is not enabled changes nothing. */
  function Step(s: AppState, e: Event): (t: AppState)
    ensures Valid(s) ==> Valid(t)
    ensures |t.queue| <= |s.queue| + 1
  {
    if !Enabled(s, e) then s
    else match e
      case GyroSample(raw) => s.(staged := s.staged.(rotation := RateOfRotation(raw)), gyro := Putting)
      case GyroPut => s.(queue := s.queue + [s.staged], gyro := Waiting)
      case ButtonSample(pin) => s.(staged := s.staged.(buttonState := pin), button := Putting)
      case ButtonPut => s.(queue := s.queue + [s.staged], button := Waiting)
      case LedGet => s.(queue := s.queue[1..], leds := Some(DriveLeds(s.queue[0])))
      case Fault(GyroTask) => s.(gyro := Halted)
      case Fault(ButtonTask) => s.(button := Halted)
      case Fault(LedTask) => s.(ledHalted := true)
  }

  /** The messages a step puts into the queue. */
  function Enqueued(s: AppState, e: Event): seq<Message> {
    if Enabled(s, e) && (e.GyroPut? || e.ButtonPut?) then [s.staged] else []
  }

  /** The messages a step takes out of the queue. */
  function Dequeued(s: AppState, e: Event): seq<Message> {
    if Enabled(s, e) && e.LedGet? then [s.queue[0]] else []
  }

  /** The state after a sequence of steps. */
  function Run(s: AppState, es: seq<Event>): (r: AppState)
    ensures Valid(s) ==> Valid(r)
    decreases |es|
  {
    if es == [] then s else Step(Run(s, es[..|es| - 1]), es[|es| - 1])
  }

  /** Every message put into the queue along a run, in order. */
  function Sent(s: AppState, es: seq<Event>): seq<Message>
    decreases |es|
  {
    if es == [] then [] else Sent(s, es[..|es| - 1]) + Enqueued(Run(s, es[..|es| - 1]), es[|es| - 1])
  }

  /** Every message taken out of the queue along a run, in order. */
  function Delivered(s: AppState, es: seq<Event>): seq<Message>
    decreases |es|
  {
    if es == [] then [] else Delivered(s, es[..|es| - 1]) + Dequeued(Run(s, es[..|es| - 1]), es[|es| - 1])
  }

  /** A run the scheduler can produce: each step is taken only when its task can run. */
  predicate Feasible(s: AppState, es: seq<Event>)
    decreases |es|
  {
    es == [] || (Feasible(s, es[..|es| - 1]) && Enabled(Run(s, es[..|es| - 1]), es[|es| - 1]))
  }

  /** The band of the latest gyro sample in `es`, or `initial` if there is none. */
  function LastRotation(es: seq<Event>, initial: RotationRate): RotationRate
    decreases |es|
  {
    if es == [] then initial
    else if es[|es| - 1].GyroSample? then RateOfRotation(es[|es| - 1].raw)
    else LastRotation(es[..|es| - 1], initial)
  }

  /** The pin level of the latest button sample in `es`, or `initial` if there is none. */
  function LastButtonState(es: seq<Event>, initial: PinState): PinState
    decreases |es|
  {
    if es == [] then initial
    else if es[|es| - 1].ButtonSample? then es[|es| - 1].pin
    else LastButtonState(es[..|es| - 1], initial)
  }

  /** Running one more step is taking that step after the run. */
  lemma RunSnoc(s: AppState, es: seq<Event>, e: Event)
    ensures Run(s, es + [e]) == Step(Run(s, es), e)
  {
    assert (es + [e])[..|es|] == es;
  }

  // ---------------------------------------------------------------------------
  // One step at a time

  /** A gyro sample writes the band of the reading into `rotation` and changes
      nothing else of the record, the queue or the LEDs. */
  lemma GyroSampleWritesOnlyRotation(s: AppState, raw: Int16)
    requires s.gyro == Waiting
    ensures Step(s, GyroSample(raw)).staged == Message(s.staged.buttonState, RateOfRotation(raw))
    ensures Step(s, GyroSample(raw)).queue == s.queue
    ensures Step(s, GyroSample(raw)).leds == s.leds
    ensures Step(s, GyroSample(raw)).gyro == Putting
  {
  }

  /** A button sample writes the pin level into `buttonState` and changes
      nothing else of the record, the queue or the LEDs. */
  lemma ButtonSampleWritesOnlyButtonState(s: AppState, pin: PinState)
    requires s.button == Waiting
    ensures Step(s, ButtonSample(pin)).staged == Message(pin, s.staged.rotation)
    ensures Step(s, ButtonSample(pin)).queue == s.queue
    ensures Step(s, ButtonSample(pin)).leds == s.leds
    ensures Step(s, ButtonSample(pin)).button == Putting
  {
  }

  /** A completed put appends a copy of the whole staged record and leaves
      the record as it was. */
  lemma PutAppendsStagedCopy(s: AppState, e: Event)
    requires e == GyroPut || e == ButtonPut
    requires Enabled(s, e)
    ensures Step(s, e).queue == s.queue + [s.staged]
    ensures Step(s, e).staged == s.staged
    ensures Step(s, e).leds == s.leds
  {
  }

  /** Backpressure: on a full queue neither producer's put completes, and
      nothing changes until the LED task takes a message out. */
  lemma FullQueueBlocksPut(s: AppState, e: Event)
    requires e == GyroPut || e == ButtonPut
    requires |s.queue| == MaxMsgCount
    ensures Step(s, e) == s
  {
  }

  /** A get hands the oldest message, unchanged, to the LED decision, and
      removes exactly that message. */
  lemma GetDrivesOldestMessage(s: AppState)
    requires !s.ledHalted && s.queue != []
    ensures Step(s, LedGet).leds == Some(DriveLeds(s.queue[0]))
    ensures s.queue == [s.queue[0]] + Step(s, LedGet).queue
    ensures Step(s, LedGet).staged == s.staged
  {
  }

  /** A get on an empty queue blocks the LED task. */
  lemma EmptyQueueBlocksGet(s: AppState)
    requires s.queue == []
    ensures Step(s, LedGet) == s
  {
  }

  // ---------------------------------------------------------------------------
  // Whole runs

  /** Sequence bookkeeping for one step of `Fifo`. */
  lemma Regroup<T>(d: seq<T>, out: seq<T>, q': seq<T>, q: seq<T>, in': seq<T>, q0: seq<T>, sent: seq<T>)
    requires out + q' == q + in'
    requires d + q == q0 + sent
    ensures (d + out) + q' == q0 + (sent + in')
  {
    calc {
      (d + out) + q';
      d + (out + q');
      d + (q + in');
      (d + q) + in';
      (q0 + sent) + in';
    }
  }

  /** One step takes out what it dequeues and appends what it enqueues. */
  lemma StepMovesQueue(u: AppState, e: Event)
    ensures Dequeued(u, e) + Step(u, e).queue == u.queue + Enqueued(u, e)
  {
    if Enabled(u, e) && e.LedGet? {
      assert [u.queue[0]] + u.queue[1..] == u.queue;
    }
  }

  /** The queue is first-in first-out: what has been delivered, followed by
      what is still queued, is what was queued at the start followed by
      everything sent since. */
  lemma {:induction false} Fifo(s: AppState, es: seq<Event>)
    ensures Delivered(s, es) + Run(s, es).queue == s.queue + Sent(s, es)
    decreases |es|
  {
    if es != [] {
      var p, e := es[..|es| - 1], es[|es| - 1];
      var u := Run(s, p);
      Fifo(s, p);
      StepMovesQueue(u, e);
      assert Delivered(s, es) == Delivered(s, p) + Dequeued(u, e);
      assert Sent(s, es) == Sent(s, p) + Enqueued(u, e);
      assert Run(s, es).queue == Step(u, e).queue;
      Regroup(Delivered(s, p), Dequeued(u, e), Step(u, e).queue, u.queue, Enqueued(u, e), s.queue, Sent(s, p));
    }
  }

  /** From the initial state, the LED task receives a prefix of what the
      producers sent, in the order they sent it. */
  lemma DeliveredIsPrefixOfSent(es: seq<Event>)
    ensures Delivered(Init(), es) <= Sent(Init(), es)
    ensures |Run(Init(), es).queue| == |Sent(Init(), es)| - |Delivered(Init(), es)|
    ensures Run(Init(), es).queue == Sent(Init(), es)[|Delivered(Init(), es)|..]
  {
    Fifo(Init(), es);
    assert Init().queue + Sent(Init(), es) == Sent(Init(), es);
  }

  /** A step writes the LEDs exactly when it dequeues, from the message it dequeues. */
  lemma StepLeds(u: AppState, e: Event)
    ensures |Dequeued(u, e)| <= 1
    ensures Step(u, e).leds == if Dequeued(u, e) == [] then u.leds else Some(DriveLeds(Dequeued(u, e)[0]))
  {
  }

  /** The LEDs show the decision for the message delivered last, and are
      untouched until a first message is delivered. */
  lemma {:induction false} LedsShowLastDelivered(s: AppState, es: seq<Event>)
    ensures var d := Delivered(s, es);
            Run(s, es).leds == if d == [] then s.leds else Some(DriveLeds(d[|d| - 1]))
    decreases |es|
  {
    if es != [] {
      var p, e := es[..|es| - 1], es[|es| - 1];
      var u := Run(s, p);
      LedsShowLastDelivered(s, p);
      StepLeds(u, e);
      assert Delivered(s, es) == Delivered(s, p) + Dequeued(u, e);
      assert Run(s, es).leds == Step(u, e).leds;
    }
  }

  /** In a feasible run the staged record holds the latest button sample and
      the band of the latest gyro sample, or what it held before if there
      was none. */
  lemma {:induction false} StagedHoldsLatestSamples(s: AppState, es: seq<Event>)
    requires Feasible(s, es)
    ensures Run(s, es).staged
            == Message(LastButtonState(es, s.staged.buttonState), LastRotation(es, s.staged.rotation))
    decreases |es|
  {
    if es != [] {
      StagedHoldsLatestSamples(s, es[..|es| - 1]);
    }
  }

  /** Each message put, by either producer, carries the latest button level
      and the band of the latest gyro reading; before any gyro reading the
      band is the zero-initialised nearly-zero, before any button reading the
      level is RESET. */
  lemma PutCarriesLatestSamples(es: seq<Event>, e: Event)
    requires e == GyroPut || e == ButtonPut
    requires Feasible(Init(), es + [e])
    ensures Run(Init(), es + [e]).queue
            == Run(Init(), es).queue + [Message(LastButtonState(es, Reset), LastRotation(es, NearlyZero))]
  {
    assert (es + [e])[..|es|] == es;
    RunSnoc(Init(), es, e);
    StagedHoldsLatestSamples(Init(), es);
  }

  /** The two producers share one record: a gyro message whose put completes
      after a button sample carries that button level, not the one the gyro
      task saw when it read the velocity. */
  lemma SharedRecordExample()
    ensures Run(Init(), [GyroSample(20000), ButtonSample(Set), GyroPut]).queue
            == [Message(Set, ClockwiseFast)]
  {
    var s0 := Init();
    RunSnoc(s0, [], GyroSample(20000));
    var s1 := Step(s0, GyroSample(20000));
    RunSnoc(s0, [GyroSample(20000)], ButtonSample(Set));
    assert [GyroSample(20000)] + [ButtonSample(Set)] == [GyroSample(20000), ButtonSample(Set)];
    var s2 := Step(s1, ButtonSample(Set));
    RunSnoc(s0, [GyroSample(20000), ButtonSample(Set)], GyroPut);
    assert [GyroSample(20000), ButtonSample(Set)] + [GyroPut] == [GyroSample(20000), ButtonSample(Set), GyroPut];
    assert s2.staged == Message(Set, ClockwiseFast);
  }

  /** A halted task stays halted whatever happens next. */
  lemma {:induction false} HaltedStaysHalted(s: AppState, es: seq<Event>, task: Task)
    requires IsHalted(s, task)
    ensures IsHalted(Run(s, es), task)
    decreases |es|
  {
    if es != [] {
      HaltedStaysHalted(s, es[..|es| - 1], task);
    }
  }

  /** After a fault in the gyro task no later reading reaches the record. */
  lemma {:induction false} HaltedGyroWritesNothing(s: AppState, es: seq<Event>)
    requires s.gyro == Halted
    ensures Run(s, es).staged.rotation == s.staged.rotation
    decreases |es|
  {
    if es != [] {
      HaltedGyroWritesNothing(s, es[..|es| - 1]);
      HaltedStaysHalted(s, es[..|es| - 1], GyroTask);
    }
  }

  /** After a fault in the button task no later button level reaches the record. */
  lemma {:induction false} HaltedButtonWritesNothing(s: AppState, es: seq<Event>)
    requires s.button == Halted
    ensures Run(s, es).staged.buttonState == s.staged.buttonState
    decreases |es|
  {
    if es != [] {
      HaltedButtonWritesNothing(s, es[..|es| - 1]);
      HaltedStaysHalted(s, es[..|es| - 1], ButtonTask);
    }
  }

  /** After faults in both producers nothing more is sent. */
  lemma {:induction false} HaltedProducersSendNothing(s: AppState, es: seq<Event>)
    requires s.gyro == Halted && s.button == Halted
    ensures Sent(s, es) == []
    decreases |es|
  {
    if es != [] {
      HaltedProducersSendNothing(s, es[..|es| - 1]);
      HaltedStaysHalted(s, es[..|es| - 1], GyroTask);
      HaltedStaysHalted(s, es[..|es| - 1], ButtonTask);
    }
  }

  /** After a fault in the LED task nothing more is delivered and the LEDs
      keep their levels. */
  lemma {:induction false} HaltedLedConsumesNothing(s: AppState, es: seq<Event>)
    requires s.ledHalted
    ensures Delivered(s, es) == []
    ensures Run(s, es).leds == s.leds
    decreases |es|
  {
    if es != [] {
      HaltedLedConsumesNothing(s, es[..|es| - 1]);
      HaltedStaysHalted(s, es[..|es| - 1], LedTask);
    }
  }
}
