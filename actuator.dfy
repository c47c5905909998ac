/**
 * The message the tasks exchange (`struct Message_t`) and the LED decision
 * `driveLEDs`: the button state and the rotation band decide the levels of
 * the green and the red LED. The two pin writes are the sink of the
 * decision, so the model returns both levels.
 */
module Actuator {
  import opened Gyro

  /** `GPIO_PinState`: a pin level, RESET = 0 and SET = 1. */
  datatype PinState = Reset | Set {
    function Value(): int {
      if Set? then 1 else 0
    }
  }

  /** `struct Message_t`: the button level and the rotation band. */
  datatype Message = Message(buttonState: PinState, rotation: RotationRate)

  /** The levels `driveLEDs` writes to the green and the red LED pins. */
  datatype LedLevels = LedLevels(green: PinState, red: PinState)

  /** `driveLEDs`: green when the button is pressed or the board turns
      counter-clockwise; red when the button is pressed and it does not. */
  function DriveLeds(msg: Message): (out: LedLevels)
    ensures out.green == Set <==> msg.buttonState == Set || msg.rotation.IsCounterClockwise()
    ensures out.red == Set <==> msg.buttonState == Set && !msg.rotation.IsCounterClockwise()
  {
    LedLevels(
      if msg.buttonState == Set || msg.rotation.Value() <= CounterClockwiseSlow.Value() then Set else Reset,
      if msg.buttonState == Set && msg.rotation.Value() > CounterClockwiseSlow.Value() then Set else Reset)
  }

  /** Rows of the decision table. A pressed button lights green whatever the
      rotation, so a pressed button with nearly-zero rotation lights both. */
  lemma DriveLedsTable()
    ensures DriveLeds(Message(Set, CounterClockwiseFast)) == LedLevels(Set, Reset)
    ensures DriveLeds(Message(Set, CounterClockwiseSlow)) == LedLevels(Set, Reset)
    ensures DriveLeds(Message(Set, NearlyZero)) == LedLevels(Set, Set)
    ensures DriveLeds(Message(Reset, ClockwiseSlow)) == LedLevels(Reset, Reset)
    ensures DriveLeds(Message(Reset, ClockwiseFast)) == LedLevels(Reset, Reset)
  {
  }

  /** The red LED is never lit alone. */
  lemma RedImpliesGreen(msg: Message)
    ensures DriveLeds(msg).red == Set ==> DriveLeds(msg).green == Set
  {
  }

  /** With the button released the red LED is off and the green LED shows
      counter-clockwise rotation. */
  lemma ReleasedButton(rotation: RotationRate)
    ensures DriveLeds(Message(Reset, rotation)).red == Reset
    ensures DriveLeds(Message(Reset, rotation)).green == Set <==> rotation.IsCounterClockwise()
  {
  }

  /** From the raw gyro reading to the LEDs: green when the button is pressed
      or the reading is at most -2000, red when the button is pressed and the
      reading is above -2000. */
  lemma LedsForReading(buttonState: PinState, raw: Int16)
    ensures DriveLeds(Message(buttonState, RateOfRotation(raw))).green == Set
            <==> buttonState == Set || raw <= -2000
    ensures DriveLeds(Message(buttonState, RateOfRotation(raw))).red == Set
            <==> buttonState == Set && raw > -2000
  {
    ClassifiedCounterClockwiseIff(raw);
  }
}
