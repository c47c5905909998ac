# LED control from a gyroscope and a button: a Dafny model

The application runs on an STM32F4 board under CMSIS-RTOS2. A gyro task
classifies the raw gyroscope velocity into one of five rotation bands. A button
task samples the user button. Both tasks write into one shared static record,
`appMessage`, and put copies of it into an LED message queue of capacity 8. An
LED task takes each message out and sets the green and red LEDs from it.

This project models the decision logic and the message protocol of `app.c`:

- `gyro.dfy` (module `Gyro`): the `gyroRotationRate` bands, with the integer
  values of their enumerators, and the classifier `getGyroRateOfRotation`
  applied to a signed 16-bit reading.
- `actuator.dfy` (module `Actuator`): `GPIO_PinState`, `struct Message_t` and
  the LED decision `driveLEDs`, which returns the two pin levels it writes.
- `staging.dfy` (module `Staging`): the protocol as a sequential event model.
  The state is the staged record, the queue contents, the phase of each task
  and the last LED levels written. Events are a gyro sample, a button sample,
  a completed put by either producer, a completed get by the LED task, and a
  fault in one task. Runs are finite event sequences; the lemmas speak about
  all of them.
- `app.dfy` (module `Tasks`): class `App`, which holds the same state in
  fields. It has one method per task step, each proved to have the effect
  `Staging.Step` gives that event.
- `options.dfy`: an `Option` type.

A producer writes its field of the shared record before its blocking put.
So each producer step is split in two: the sample, which writes the field,
and the put, which copies the whole record into the queue. A put on a full
queue does not complete and leaves the state unchanged. While it waits, the
other producer can overwrite its own field. `Staging.SharedRecordExample`
shows the effect: a gyro message can carry a button level sampled after the
gyro reading.

The queue is CMSIS-RTOS2's `osMessageQueue`, whose code is not part of this
model. Its behaviour is an assumption of the model: a first-in first-out queue
of value copies. A put blocks while the queue holds 8 messages; a get blocks
while it is empty. A blocked put copies `appMessage` when it completes, not
when it is called. So the copy includes any write the other producer made
while the put was blocked; `PutCarriesLatestSamples` and
`SharedRecordExample` rely on this. `Fifo` is proved about this assumed queue.

Behaviour of the code that the model reproduces:

- A pressed button lights green whatever the rotation
  (McDermott_Frank_RTOS_Lab6_ITC/Core/Src/app.c:379). So a pressed button with
  nearly-zero rotation lights both LEDs (`Actuator.DriveLedsTable`).
- When an RTOS call returns one of the error statuses its `switch` checks,
  only the task that made the call spins in `while(1){}` (app.c:122, 141,
  174, 195, 229). The model halts that task alone (`Halted`), and the other
  tasks go on.
- Both producers write the one static record `appMessage` (app.c:15-19), and
  the model shares one record in the same way.
- The comment above the classifier (app.c:345) gives the slow clockwise band
  as `150 <= velocity < 15000`. The code compares against `clockwiseSlow`
  (2000), and the model follows the code.

## Model

| member | source | states |
|---|---|---|
| `Gyro.RateOfRotation` | McDermott_Frank_RTOS_Lab6_ITC/Core/Src/app.c:331-369 | the band returned is the one whose range in the band table holds the reading (≤ -15000; -15000 < v ≤ -2000; -2000 < v < 2000; 2000 ≤ v < 15000; ≥ 15000) |
| `Gyro.BandsDisjoint` | McDermott_Frank_RTOS_Lab6_ITC/Core/Src/app.c:339-346 | no reading lies in two bands of the table |
| `Gyro.RateOfRotationIffInBand` | McDermott_Frank_RTOS_Lab6_ITC/Core/Src/app.c:347-366 | the classifier returns band r if and only if the reading lies in r's range |
| `Gyro.BandEdges` | McDermott_Frank_RTOS_Lab6_ITC/Core/Src/app.c:340-366 | -15000 is counter-clockwise fast, -2000 counter-clockwise slow (not nearly zero), 2000 clockwise slow, 15000 clockwise fast; the int16 extremes fall in the fast bands |
| `Gyro.RateOfRotationMonotone` | McDermott_Frank_RTOS_Lab6_ITC/Core/Src/app.c:347-368 | a larger reading never gets a band with a smaller enumerator value |
| `Gyro.EveryBandReachable` | McDermott_Frank_RTOS_Lab6_ITC/Core/Src/app.c:337-366 | each of the five bands is the result for some 16-bit reading |
| `Gyro.ValueInjective` | Core/Inc/app.h:55-62 | distinct bands have distinct enumerator values |
| `Gyro.AtMostSlowIffCounterClockwise` | McDermott_Frank_RTOS_Lab6_ITC/Core/Src/app.c:379 | the comparison `rotation <= counterClockwiseSlow` holds exactly for the two counter-clockwise bands |
| `Gyro.ClassifiedCounterClockwiseIff` | McDermott_Frank_RTOS_Lab6_ITC/Core/Src/app.c:347-354 | a reading is classified counter-clockwise exactly when it is at most -2000 |
| `Actuator.DriveLeds` | McDermott_Frank_RTOS_Lab6_ITC/Core/Src/app.c:376-399 | green is SET iff the button is SET or the rotation is counter-clockwise; red is SET iff the button is SET and the rotation is not counter-clockwise; both levels are always produced |
| `Actuator.DriveLedsTable` | McDermott_Frank_RTOS_Lab6_ITC/Core/Src/app.c:379-398 | five rows of the decision table, among them a pressed button with nearly-zero rotation lighting both LEDs |
| `Actuator.RedImpliesGreen` | McDermott_Frank_RTOS_Lab6_ITC/Core/Src/app.c:379-398 | whenever red is SET, green is SET too |
| `Actuator.ReleasedButton` | McDermott_Frank_RTOS_Lab6_ITC/Core/Src/app.c:379-398 | with the button released, red is RESET and green is SET exactly for counter-clockwise rotation |
| `Actuator.LedsForReading` | McDermott_Frank_RTOS_Lab6_ITC/Core/Src/app.c:331-399 | for a message built from a raw reading: green iff button SET or reading ≤ -2000; red iff button SET and reading > -2000 |
| `Staging.ZeroMessage` | McDermott_Frank_RTOS_Lab6_ITC/Core/Src/app.c:15-19 | the static record starts with both fields at integer value 0: button RESET, rotation nearly zero |
| `Staging.Step` | McDermott_Frank_RTOS_Lab6_ITC/Core/Src/app.c:103-236 | one task step never takes the queue above its capacity of 8 and adds at most one message |
| `Staging.Run` | McDermott_Frank_RTOS_Lab6_ITC/Core/Src/app.c:110-235 | every run from a state within capacity stays within capacity |
| `Staging.GyroSampleWritesOnlyRotation` | McDermott_Frank_RTOS_Lab6_ITC/Core/Src/app.c:129 | a gyro sample writes the reading's band into `rotation` and keeps the button level, the queue and the LEDs |
| `Staging.ButtonSampleWritesOnlyButtonState` | McDermott_Frank_RTOS_Lab6_ITC/Core/Src/app.c:320-324 | a button sample writes the pin level into `buttonState` and keeps the rotation, the queue and the LEDs |
| `Staging.PutAppendsStagedCopy` | McDermott_Frank_RTOS_Lab6_ITC/Core/Src/app.c:131-132 | a completed put (gyro or button) appends a copy of the whole staged record and leaves the record and the LEDs as they were |
| `Staging.FullQueueBlocksPut` | McDermott_Frank_RTOS_Lab6_ITC/Core/Src/app.c:186 | with 8 messages queued, neither producer's put completes and nothing changes |
| `Staging.GetDrivesOldestMessage` | McDermott_Frank_RTOS_Lab6_ITC/Core/Src/app.c:219-232 | a get removes exactly the oldest message and drives the LEDs from it unchanged |
| `Staging.EmptyQueueBlocksGet` | McDermott_Frank_RTOS_Lab6_ITC/Core/Src/app.c:219-220 | a get on an empty queue does not complete and nothing changes |
| `Staging.Fifo` | McDermott_Frank_RTOS_Lab6_ITC/Core/Src/app.c:186-220 | along any run, the messages delivered followed by those still queued equal the initial queue followed by all messages sent |
| `Staging.DeliveredIsPrefixOfSent` | McDermott_Frank_RTOS_Lab6_ITC/Core/Src/app.c:131-220 | from start-up, the LED task receives a prefix of the messages sent, in sending order, and the queue holds the rest |
| `Staging.LedsShowLastDelivered` | McDermott_Frank_RTOS_Lab6_ITC/Core/Src/app.c:216-235 | the LEDs show the decision for the last message delivered, and keep their levels until a first one arrives |
| `Staging.StagedHoldsLatestSamples` | McDermott_Frank_RTOS_Lab6_ITC/Core/Src/app.c:129-186 | in a feasible run the record holds the latest button level and the band of the latest gyro reading, or its earlier value if there was none |
| `Staging.PutCarriesLatestSamples` | McDermott_Frank_RTOS_Lab6_ITC/Core/Src/app.c:15-19 | from start-up, each message put carries the latest button level (RESET before any) and the latest gyro band (nearly zero before any) |
| `Staging.SharedRecordExample` | McDermott_Frank_RTOS_Lab6_ITC/Core/Src/app.c:129-131 | a gyro put that completes after a button sample carries that newer button level |
| `Staging.HaltedStaysHalted` | McDermott_Frank_RTOS_Lab6_ITC/Core/Src/app.c:115-123 | a task that has faulted never resumes |
| `Staging.HaltedGyroWritesNothing` | McDermott_Frank_RTOS_Lab6_ITC/Core/Src/app.c:113-146 | after a gyro-task fault the record's rotation never changes |
| `Staging.HaltedButtonWritesNothing` | McDermott_Frank_RTOS_Lab6_ITC/Core/Src/app.c:162-200 | after a button-task fault the record's button level never changes |
| `Staging.HaltedProducersSendNothing` | McDermott_Frank_RTOS_Lab6_ITC/Core/Src/app.c:131-200 | after faults in both producers no message is sent |
| `Staging.HaltedLedConsumesNothing` | McDermott_Frank_RTOS_Lab6_ITC/Core/Src/app.c:219-234 | after an LED-task fault no message is delivered and the LEDs keep their levels |
| `Tasks.App.constructor` | McDermott_Frank_RTOS_Lab6_ITC/Core/Src/app.c:15-19 | the object starts in the initial state: zero record, empty queue, no task halted |
| `Tasks.App.SampleUserButton` | McDermott_Frank_RTOS_Lab6_ITC/Core/Src/app.c:320-324 | the record's button level becomes the pin level; its rotation is kept |
| `Tasks.App.Enqueue` | McDermott_Frank_RTOS_Lab6_ITC/Core/Src/app.c:131-132 | a copy of the record is appended exactly when fewer than 8 messages are queued |
| `Tasks.App.Dequeue` | McDermott_Frank_RTOS_Lab6_ITC/Core/Src/app.c:219-220 | the oldest message is returned and removed; nothing is returned from an empty queue |
| `Tasks.App.GyroSample` | McDermott_Frank_RTOS_Lab6_ITC/Core/Src/app.c:112-129 | the new state is `Step` of the gyro-sample event, and the step runs exactly when the gyro task is waiting |
| `Tasks.App.GyroPut` | McDermott_Frank_RTOS_Lab6_ITC/Core/Src/app.c:131-146 | the new state is `Step` of the gyro put, which completes exactly when it is pending and the queue has room |
| `Tasks.App.ButtonSample` | McDermott_Frank_RTOS_Lab6_ITC/Core/Src/app.c:161-183 | the new state is `Step` of the button-sample event, and the step runs exactly when the button task is waiting |
| `Tasks.App.ButtonPut` | McDermott_Frank_RTOS_Lab6_ITC/Core/Src/app.c:186-200 | the new state is `Step` of the button put, which completes exactly when it is pending and the queue has room |
| `Tasks.App.LedGet` | McDermott_Frank_RTOS_Lab6_ITC/Core/Src/app.c:216-235 | the new state is `Step` of the get; the levels written are the decision for the oldest message, and none are written when the queue is empty or the task has halted |
| `Tasks.App.Fault` | McDermott_Frank_RTOS_Lab6_ITC/Core/Src/app.c:134-142 | the new state is `Step` of a fault: that one task is halted |

## Left out

- `appTimerCallback`, the binary semaphore and the 100-tick timer period are not modelled. A gyro sample stands for "token acquired, velocity read". So the model says nothing about the number of readings per timer expiry. It also omits the callback's spin when a release fails.
- The button event flag and `EXTI0_IRQHandler` (interrupt line disable/enable, pending-flag clearing) are not modelled. A button sample stands for "flag consumed, pin read".
- `appInit` (object creation and its null-handle spins) is not modelled. The model starts after all objects and tasks exist.
- `Gyro_Get_Velocity`, `HAL_GPIO_ReadPin` and `HAL_GPIO_WritePin` are hardware I/O. The reading and the pin level are event parameters, and the written levels are results.
- The tasks' `while(1)` loops are not modelled as loops. A run is a finite sequence of their steps, and a fault's `while(1){}` spin is the terminal `Halted` phase.
- Scheduling is not modelled. Each event is atomic, and any interleaving of the events is a possible run. Priorities and time slicing are outside the model.
- The `osMessageQueue` implementation is not part of this model. Its behaviour is assumed: first-in first-out, copy by value, blocking when full or empty, and a blocked put copying the record at the moment it completes. The queue is a sequence.
