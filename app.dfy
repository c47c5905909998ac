/**
 * The tasks of app.c over the static record `appMessage` and the LED message
 * queue, as an object whose methods update them in place. Each method is one
 * pass of one task's loop, up to the point where the task would block again,
 * and is proved to have the effect `Staging.Step` gives that event.
 */
module Tasks {
  import opened Options
  import opened Gyro
  import opened Actuator
  import opened Staging

  class App {
    var staged: Message             // `appMessage`
    var queue: seq<Message>         // the LED message queue, oldest first
    var gyro: Phase
    var button: Phase
    var ledHalted: bool
    var leds: Option<LedLevels>     // levels last written to the LED pins

    /** The abstract state of the object. */
    function State(): AppState
      reads this
    {
      AppState(staged, queue, gyro, button, ledHalted, leds)
    }

    predicate Valid()
      reads this
    {
      Staging.Valid(State())
    }

    /** The zero-initialised record, an empty queue, all tasks about to wait. */
    constructor ()
      ensures Valid() && State() == Init()
    {
      staged := ZeroMessage();
      queue := [];
      gyro, button := Waiting, Waiting;
      ledHalted := false;
      leds := None;
    }

    /** `sampleUserButton`: store the button pin's level in the record. */
    method SampleUserButton(pin: PinState)
      modifies this`staged
      ensures staged == Message(pin, old(staged).rotation)
    {
      staged := staged.(buttonState := pin);
    }

    /** `osMessageQueuePut` of the record: a copy of it is appended unless the
        queue is full, in which case the call has not returned yet. */
    method Enqueue() returns (done: bool)
      requires Valid()
      modifies this`queue
      ensures Valid()
      ensures done == (|old(queue)| < MaxMsgCount)
      ensures queue == if done then old(queue) + [staged] else old(queue)
    {
      done := |queue| < MaxMsgCount;
      if done {
        queue := queue + [staged];
      }
    }

    /** `osMessageQueueGet`: the oldest message, removed from the queue, or
        none while the queue is empty. */
    method Dequeue() returns (msg: Option<Message>)
      modifies this`queue
      ensures msg == if old(queue) == [] then None else Some(old(queue)[0])
      ensures queue == if old(queue) == [] then old(queue) else old(queue)[1..]
    {
      if queue == [] {
        msg := None;
      } else {
        msg := Some(queue[0]);
        queue := queue[1..];
      }
    }

    /** `gyroInput` from its token acquisition to its put: the reading's band is
        written into the record's `rotation`. */
    method GyroSample(raw: Int16) returns (ran: bool)
      requires Valid()
      modifies this
      ensures Valid()
      ensures ran == Enabled(old(State()), Event.GyroSample(raw))
      ensures State() == Step(old(State()), Event.GyroSample(raw))
    {
      ran := gyro == Waiting;
      if ran {
        staged := staged.(rotation := RateOfRotation(raw));
        gyro := Putting;
      }
    }

    /** `gyroInput`'s put of the record. */
    method GyroPut() returns (done: bool)
      requires Valid()
      modifies this
      ensures Valid()
      ensures done == Enabled(old(State()), Event.GyroPut)
      ensures State() == Step(old(State()), Event.GyroPut)
    {
      done := false;
      if gyro == Putting {
        done := Enqueue();
        if done {
          gyro := Waiting;
        }
      }
    }

    /** `buttonInput` from its event-flag wait to its put: `sampleUserButton`. */
    method ButtonSample(pin: PinState) returns (ran: bool)
      requires Valid()
      modifies this
      ensures Valid()
      ensures ran == Enabled(old(State()), Event.ButtonSample(pin))
      ensures State() == Step(old(State()), Event.ButtonSample(pin))
    {
      ran := button == Waiting;
      if ran {
        SampleUserButton(pin);
        button := Putting;
      }
    }

    /** `buttonInput`'s put of the record. */
    method ButtonPut() returns (done: bool)
      requires Valid()
      modifies this
      ensures Valid()
      ensures done == Enabled(old(State()), Event.ButtonPut)
      ensures State() == Step(old(State()), Event.ButtonPut)
    {
      done := false;
      if button == Putting {
        done := Enqueue();
        if done {
          button := Waiting;
        }
      }
    }

    /** One pass of `ledOutput`: get the oldest message and drive the LEDs from
        it; `written` holds the levels written to the two pins. */
    method LedGet() returns (written: Option<LedLevels>)
      requires Valid()
      modifies this
      ensures Valid()
      ensures written == if Enabled(old(State()), Event.LedGet) then Some(DriveLeds(old(queue)[0])) else None
      ensures State() == Step(old(State()), Event.LedGet)
    {
      written := None;
      if !ledHalted {
        var msg := Dequeue();
        if msg.Some? {
          written := Some(DriveLeds(msg.value));
          leds := written;
        }
      }
    }

    /** An RTOS call of `task` returned one of the error statuses it checks:
        the task spins for ever. */
    method Fault(task: Task)
      requires Valid()
      modifies this
      ensures Valid()
      ensures State() == Step(old(State()), Event.Fault(task))
    {
      match task
      case GyroTask => gyro := Halted;
      case ButtonTask => button := Halted;
      case LedTask => ledHalted := true;
    }
  }
}
