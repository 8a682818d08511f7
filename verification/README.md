# Veloxity flight core: a verified model

This project models the parts of the Veloxity firmware and of its companion tools that carry the
most logic, and proves what they keep over whole runs. To verify: `dafny verify dfyconfig.toml`.

| area | modules | original |
|---|---|---|
| MAVLink 1 checksum and wire format | `Crc`, `Wire`, `Link` | receiver and encoder of `veloxity_mavlink`, checksum of the tester |
| Byte-fed receiver | `StreamParser`, `StreamLaws` | `MavlinkParser` |
| Buffered receiver of the tester | `BatchParser`, `Chunking`, `SequenceCheck` | `MavlinkV1Parser`, `SequenceSummary` |
| Both receivers together | `Agreement` | both of the above and the encoder |
| Telemetry scheduler | `Telemetry`, `TelemetryRuns`, `TelemetryDrain`, `CommScheduler`, `TelemetryFreshness`, `SchedulerPacing` | `CommManager` and the telemetry stages of the world |
| Arming | `StateMachine`, `ArmingRuns` | `StateMachine`, `StateManager` |
| RC input | `RemoteControl`, `StickHold` | `Rc` |
| Command arbitration | `Lockout`, `Command`, `CommandSafety` | `RcAngleModeLockoutMachine`, `CommandManager`, the thrust adapter's decoder |
| Parameter writes and their reaction | `ParamService` | parameter service, change queue, reactions |
| The stages together, over whole flights, and from the channels of a packet | `Vehicle`, `LostChange`, `Pilot` | `run_rc_command_state`, parameter service stage |
| Motion capture frames | `MocapTransform` | quaternion functions, publisher transform and its inverse |
| Logic-analyser timing | `ScopeTiming` | segments and interval overlap count |

Where the original updates an object, the model is a class with the same fields, and each method is
proved equal to a function on the object's value (`Feed`, `Drain`, `SendOne`, `Bulk`, `Updated`,
`Ran`, `Arbitrated`, `Cycled`, ...); the laws are then proved about those functions, over every input
or every run. Clocks, packets, parameters and sample timestamps are inputs. Floating-point numbers
are reals, and `math.sqrt` is any function that returns the non-negative root. A telemetry send
appends to a ghost trace, and a lockout denial raises a ghost counter.

Results that differ from what one would first expect:

- The receiver's comment says that a message id without a checksum entry fails; the code checks such a
  frame with the plain checksum and accepts it (`Wire.EndsAgree`). The tester rejects it.
- After a mismatch the receiver keeps the bytes from the next start byte and stays in the header state,
  so the next candidate is framed exactly only under the condition of `StreamLaws.ExactlyFramed`; a
  frame inside a rejected one can be lost (`Agreement.InnerFrameLost`). All stores stay inside the
  buffer for six restarts in a row, and the bound is tight (`StreamLaws.SevenRestartsFault`).
- The queue of parameter changes holds eight. A load of more can lose the change from fixed wing to
  multirotor, and with it the reaction that rebuilds the failsafe command, so that a failsafe throttle
  that was legal for the fixed wing is flown by the multirotor (`LostChange.UnheardChangeFlies`). The
  throttle stays in range exactly on the flights of `Vehicle.FlightThrottle`.
- The loss count is exact if and only if no 127 frames in a row are lost
  (`SequenceCheck.ExactIffBounded`); a longer loss counts modulo 256 (`SequenceCheck.LossReadModulo`).
- Without a sample clock that is monotone, OUTPUT_RAW can send one timestamp twice in a row
  (`TelemetryFreshness.OutputRawSendsTwice`); `TelemetryFreshness.ResentExactly` says on which runs.
- With a fixed-rate stream at rate 0 the drain never ends (`TelemetryDrain.ZeroRateNeverDrains`).
- The stick-hold timer counts from time 0, so the first healthy run can already ask to arm
  (`StickHold.FirstRunCanAsk`).
- A flag raised before INITIALIZED survives into Preflight and is armed over
  (`ArmingRuns.ArmsOverCarried`); modes fit their flags on every run exactly when no flag but
  UNHEALTHY_ESTIMATOR is carried (`ArmingRuns.FitIffClean`). The boards of the repository carry none:
  each starts from a new state manager, to which INITIALIZED is the first event
  (`crates/veloxity_core/src/world.rs:307`).
- A denied step of the lockout always forces rate, but can leave the machine inactive
  (`Lockout.DeniedEndsInactive`, and `Lockout.UnsafeCanEndInactive` for a run from the start).
- The override mask codes the source of roll, pitch and the forces, but not of yaw while the estimator
  forces the attitude to RC (`CommandSafety.YawCodedUnlessForced`).
- With an unhealthy estimator an RC angle command from an earlier run can go on flying while no fresh
  RC arrives (`CommandSafety.AngleByStaleCommand`).
- With calibration on arm, an estimator error that is allowed to be present ends the calibration in the
  pass that began it (`Pilot.ArmPass`).
- Failsafe ends only at a pass with a fresh packet: a link that is healthy by its last packet is not
  enough (`Vehicle.LeavesFailsafe`).

## Model

| member | source | states |
|---|---|---|
| `Crc.AccumulateIsEightClocks` | comms/veloxity_mavlink/src/parser.rs:144-150 | the shift-and-xor byte step is eight clocks of the reflected 0x8408 register with the byte added in |
| `Crc.FoldIsBitSerial` | comms/veloxity_mavlink/src/parser.rs:93-150 | the checksum of any byte string is the bit-at-a-time CRC-16/MCRF4XX |
| `Crc.PresetComplements` | comms/veloxity_mavlink/src/parser.rs:93-97 | what the preset register does: the checksum is the bit-serial one from a register of zero, with the first two bytes complemented |
| `Crc.TesterFoldAgrees` | tools/mavlink_tester.py:146-149 | the tester's masked-integer step gives the same checksum of every byte string |
| `Crc.FoldInjective` | comms/veloxity_mavlink/src/parser.rs:93-150 | over any fixed string, different registers stay different |
| `Crc.ByteErrorDetected` | comms/veloxity_mavlink/src/parser.rs:93-150 | one altered byte, anywhere, alters the checksum |
| `Crc.BurstDetected` | comms/veloxity_mavlink/src/parser.rs:93-150 | every burst within 16 consecutive transmitted bits alters the checksum, whatever surrounds it |
| `Wire.EncodedShape` | comms/veloxity_mavlink/src/link.rs:116-145 | an encoded frame has the declared length, the checksum low byte first, and decodes to the frame |
| `Wire.EncodedChecksum` | comms/veloxity_mavlink/src/link.rs:116-145 | the receiver's checksum over an encoded frame is that of its fields, and the field read back is the one written |
| `Wire.EncodedBytes` | comms/veloxity_mavlink/src/link.rs:116-145 | every byte of the encoded frame by its place, the checksum low byte first |
| `Wire.FirmwareIsReference` | comms/veloxity_mavlink/src/parser.rs:93-140 | the firmware's checksum of any candidate, extra byte included, is that reference |
| `Wire.TablesAgree` | comms/veloxity_mavlink/src/parser.rs:104-134 | the firmware's and the tester's tables of extra bytes agree on every id |
| `Wire.EndsAgree` | tools/mavlink_tester.py:152-164 | on a candidate of the declared length the tester accepts iff the firmware does and the id has a table entry |
| `Wire.AlteredByteRejected` | comms/veloxity_mavlink/src/parser.rs:93-140 | an accepted frame with one sequence, system, component or payload byte altered is not accepted |
| `Wire.BurstRejected` | comms/veloxity_mavlink/src/parser.rs:93-140 | an accepted frame with a burst of at most 16 bits anywhere under the checksum, length and message id apart, is not accepted |
| `Link.FrameEncoder.EncodeFrame` | comms/veloxity_mavlink/src/link.rs:116-145 | writes exactly the encoded frame at the front of the buffer and nothing else, or nothing when it does not fit |
| `Link.FrameEncoder.NextSequence` | comms/veloxity_mavlink/src/link.rs:360-364 | hands out the number and advances it modulo 256 |
| `StreamParser.MavlinkParser.CalculateCrc` | comms/veloxity_mavlink/src/parser.rs:93-140 | the loop over the buffer computes the firmware checksum of the bytes held |
| `StreamParser.MavlinkParser.Restart` | comms/veloxity_mavlink/src/parser.rs:229-265 | the in-place shift leaves the suffix from the first later start byte, in the header state, or an idle receiver |
| `StreamParser.MavlinkParser.FeedByte` | comms/veloxity_mavlink/src/parser.rs:152-268 | one byte takes buffer, position and state to those of the reference step, emits its frame, and reports a store out of range |
| `StreamLaws.ByteLaw` | comms/veloxity_mavlink/src/parser.rs:152-268 | a candidate that began with r bytes and declares L is judged at exactly max(8+L, r+4), or max(8, r+3) when L is 0, and collected before |
| `StreamLaws.CandidateLaw` | comms/veloxity_mavlink/src/parser.rs:152-268 | the same over whole byte strings, with the state after the verdict |
| `StreamLaws.CandidateCollects` | comms/veloxity_mavlink/src/parser.rs:152-268 | short of that length bytes are only collected |
| `StreamLaws.EmittedIffReference` | comms/veloxity_mavlink/src/parser.rs:152-227 | a judged candidate is emitted iff its field is the zero-register, bit-serial reference checksum |
| `StreamLaws.ExactlyFramed` | comms/veloxity_mavlink/src/parser.rs:229-265 | a candidate ends where its declared length says iff r <= 5 or L >= r - 4; when it fits the buffer |
| `StreamLaws.NextBounded` | comms/veloxity_mavlink/src/parser.rs:152-268 | every byte keeps the bound of 258 + 3k kept bytes after k restarts in a row |
| `StreamLaws.FaultNeedsSevenRestarts` | comms/veloxity_mavlink/src/parser.rs:152-268 | over any byte string no store leaves the 280-byte buffer before seven restarts in a row |
| `StreamLaws.SevenRestartsFault` | comms/veloxity_mavlink/src/parser.rs:152-268 | that bound is tight |
| `StreamLaws.StartBytesChain` | comms/veloxity_mavlink/src/parser.rs:229-265 | on a stream of start bytes exactly 258 + 3k are kept after k restarts, for k up to 7 |
| `BatchParser.MavlinkV1Parser.TakeCandidate` | tools/mavlink_tester.py:105-142 | consumes a whole candidate, or after an invalid checksum only up to its next start byte, and counts it |
| `BatchParser.MavlinkV1Parser.Feed` | tools/mavlink_tester.py:86-143 | the scanning loop returns the frames and leaves the buffer and counters of the reference drain |
| `BatchParser.NextTurn` | tools/mavlink_tester.py:86-143 | every turn that goes on removes at least one byte and takes a candidate of exactly the declared length |
| `BatchParser.CandidatesAccounted` | tools/mavlink_tester.py:86-143 | every candidate is returned or counted invalid; with validation off none is; samples stay within their limit |
| `BatchParser.RejectCountsOne` | tools/mavlink_tester.py:105-128 | a rejected candidate is counted once, under its own id, and sampled while there is room |
| `BatchParser.SampleRebuilds` | tools/mavlink_tester.py:113-126 | a sample holds enough to rebuild the candidate, and its first 18 bytes |
| `Chunking.TurnMore` | tools/mavlink_tester.py:86-143 | a decided candidate is decided the same way whatever follows |
| `Chunking.ChunkingIndependent` | tools/mavlink_tester.py:86-143 | from any state, feeding two chunks gives the frames, buffer and counters of feeding their concatenation |
| `Agreement.StepTogether` | comms/veloxity_mavlink/src/parser.rs:152-268 | one byte keeps firmware and tester waiting with the same bytes, and both report the same frame or none |
| `Agreement.ParsersAgree` | tools/mavlink_tester.py:86-143 | on every stream of exact restarts and known ids both return the same frames |
| `Agreement.CleanStreamsAgree` | tools/mavlink_tester.py:86-143 | on every stream where the tester rejects nothing, the firmware emits exactly the tester's frames and holds its buffer |
| `Agreement.WiredEmitted` | comms/veloxity_mavlink/src/parser.rs:152-227 | an encoded frame is emitted whole at its last byte and not before |
| `Agreement.StreamEmitted` | comms/veloxity_mavlink/src/parser.rs:152-227 | any frames separated by bytes other than the start byte are emitted, in order, and nothing else |
| `Agreement.StreamReturned` | tools/mavlink_tester.py:86-143 | the tester returns exactly those frames and is empty again |
| `Agreement.RoundTrip` | comms/veloxity_mavlink/src/link.rs:116-145 | encoding and either receiver undo each other on every such stream |
| `Agreement.RestartEmits` | comms/veloxity_mavlink/src/parser.rs:229-265 | an encoded frame that a restart kept, whole or in part, is emitted iff at most 5 bytes were kept or its payload plus 4 reaches the bytes kept |
| `Agreement.InnerFrameLost` | comms/veloxity_mavlink/src/parser.rs:229-265 | for every rejected frame that wraps a valid one, the tester recovers the inner frame, and the firmware never emits it, whatever follows |
| `SequenceCheck.SequenceSummary.Observe` | tools/mavlink_tester.py:829-862 | one arrival updates every counter, the pending set and the samples as the reference does |
| `SequenceCheck.MaskArithmetic` | tools/mavlink_tester.py:829-862 | the case form of successor and difference is the masked arithmetic |
| `SequenceCheck.AllAccounted` | tools/mavlink_tester.py:814-862 | on any arrivals: missing is at least the pending set's size, and total is 1 + in order + gaps + duplicates + backwards |
| `SequenceCheck.LossCountExact` | tools/mavlink_tester.py:814-862 | over an ordered channel losing at most 126 in a row: missing is the number of frames lost, gaps the number of bursts, pending their numbers, no duplicates or reorders |
| `SequenceCheck.LossReadModulo` | tools/mavlink_tester.py:829-862 | a loss of any length is read by its distance modulo 256: duplicate, no loss, a gap, or a reordering that adds nothing to missing |
| `SequenceCheck.ExactIffBounded` | tools/mavlink_tester.py:814-862 | over an ordered channel the whole summary is exact iff at most 126 frames in a row are lost |
| `SequenceCheck.LateArrivalRecovered` | tools/mavlink_tester.py:829-862 | a lost frame that turns up late is taken back |
| `SequenceCheck.ArrivalsCounted` | tools/mavlink_tester.py:814-862 | every message id is counted as often as it arrived, and the first eight anomalies are sampled |
| `SequenceCheck.SamplesClassified` | tools/mavlink_tester.py:829-880 | every sample has the kind its distance tells, measured from the number it followed |
| `Telemetry.PredictionAgrees` | crates/veloxity_core/src/comm.rs:287-360 | the mutating and the predictive rate gate agree, for sensor and fixed-rate streams |
| `TelemetryRuns.DueMovesPhase` | crates/veloxity_core/src/comm.rs:287-309 | one answer advances the phase by the whole intervals elapsed, to within one interval of now |
| `TelemetryRuns.IntervalInHertz` | crates/veloxity_core/src/comm.rs:287-309 | the interval is the whole number of microseconds in a period, and no other |
| `TelemetryRuns.GateInHertz` | crates/veloxity_core/src/comm.rs:287-342 | at a positive rate both gates open iff (elapsed + 1) times the rate exceeds a million |
| `TelemetryRuns.GateExtremes` | crates/veloxity_core/src/comm.rs:287-342 | a disabled gate never opens, and at rate 0 it is always open |
| `TelemetryRuns.FirstQuestion` | crates/veloxity_core/src/comm.rs:299-301 | the first question opens the gate, and the phase starts there |
| `TelemetryRuns.DeadlineIsLeast` | crates/veloxity_core/src/comm.rs:311-360 | a deadline is the least time at which the gate answers yes |
| `TelemetryRuns.ParameterMeans` | crates/veloxity_core/src/comm.rs:178-185 | a parameter from 0 to 2000 is the rate, negative disables, more is capped |
| `TelemetryRuns.RateBound` | crates/veloxity_core/src/comm.rs:287-309 | after a first send at t0 > 0, at any later calls: phase on the grid of t0, not in the future, less than a period old, and no more sends than the rate in hertz allows |
| `SchedulerPacing.RunPaced` | crates/veloxity_core/src/comm.rs:766-1170 | the same bound for the messages of a stream over any interleaving of bulk, one-stream, if-due and gated sends |
| `SchedulerPacing.RunInHertz` | crates/veloxity_core/src/comm.rs:766-1170 | so over any such interleaving a stream sends no more than its rate in hertz allows |
| `SchedulerPacing.FixedWaits` | crates/veloxity_core/src/comm.rs:332-342 | heartbeat and status wait a whole period after each send |
| `SchedulerPacing.StartRates` | crates/veloxity_core/src/comm.rs:141-157 | from the start the heartbeat is due after a second, the status after a tenth, a sensor at its first sample |
| `SchedulerPacing.EveryEighth` | crates/veloxity_core/src/comm.rs:896-907 | and of n fresh IMU samples on the bulk path every eighth sends OUTPUT_RAW |
| `TelemetryDrain.EveryDivisorth` | crates/veloxity_core/src/comm.rs:896-907 | with any divisor: which samples send OUTPUT_RAW, and that the others are consumed |
| `TelemetryDrain.SelectLeast` | crates/veloxity_core/src/comm.rs:547-652 | selection returns the due stream with the earliest deadline, the fixed order between equals, and nothing iff none is due |
| `TelemetryDrain.DueIsSent` | crates/veloxity_core/src/comm.rs:1191-1492 | a due stream is sent, is not due again, and no other stream changes |
| `TelemetryDrain.SendOneStep` | crates/veloxity_core/src/comm.rs:1111-1125 | the one-stream path returns true exactly while something is due, and leaves the other deadlines alone |
| `TelemetryDrain.DrainComplete` | crates/veloxity_core/src/comm.rs:1111-1125 | the drain sends exactly the initially due streams, each once, by deadline and then by the fixed order, and leaves nothing due |
| `TelemetryDrain.AtMostTwelve` | crates/veloxity_core/src/comm.rs:1111-1125 | the drain stops within twelve sends |
| `TelemetryDrain.ZeroRateNeverDrains` | crates/veloxity_core/src/comm.rs:332-360 | with heartbeat or status at rate 0 every call sends, so the drain has no end |
| `TelemetryDrain.BudgetedDrains` | crates/veloxity_core/src/world/telemetry.rs:61-67 | while the clock stands still, a budget of n sends the first n streams of the drain, in its order |
| `TelemetryDrain.ZeroRateUsesBudget` | crates/veloxity_core/src/world/telemetry.rs:61-67 | with a fixed-rate stream at rate 0 every budget is used up, whatever the clock reads |
| `TelemetryDrain.BulkHasDrainEffect` | crates/veloxity_core/src/comm.rs:766-1109 | the bulk path leaves every phase where the drain does, and every freshness too iff OUTPUT_RAW consumed nothing unsent |
| `TelemetryDrain.BulkSettles` | crates/veloxity_core/src/comm.rs:766-1109 | after the bulk path nothing is due |
| `CommScheduler.CommManager.SelectDue` | crates/veloxity_core/src/comm.rs:547-652 | the twelve comparisons over two locals compute the specified selection |
| `CommScheduler.CommManager.SendSelectedWithGate` | crates/veloxity_core/src/comm.rs:1191-1606 | the in-place send updates rate state, freshness, counter and trace as specified, for both gates |
| `CommScheduler.CommManager.SendOneStream` | crates/veloxity_core/src/comm.rs:1111-1125 | selection and send together |
| `CommScheduler.CommManager.SendStreamWithGate` | crates/veloxity_core/src/comm.rs:1127-1172 | the gate bypass applies to the IMU only |
| `CommScheduler.CommManager.SendStreams` | crates/veloxity_core/src/comm.rs:766-1109 | the twelve blocks in order compute the specified bulk path |
| `CommScheduler.CommManager.SetTelemetryRates` | crates/veloxity_core/src/comm.rs:447-452 | new rates restart the sensor phases and keep freshness and the fixed-rate phases |
| `CommScheduler.CommManager.UpdateTelemetryParam` | crates/veloxity_core/src/comm.rs:461-519 | the new state after one changed parameter |
| `TelemetryDrain.ParamTouchesOne` | crates/veloxity_core/src/comm.rs:458-519 | which leaves every other stream's rate, phase, freshness and deadlines alone |
| `TelemetryDrain.ParamStartsPeriod` | crates/veloxity_core/src/comm.rs:458-519 | and at a positive rate does not let its own stream be due before one interval has passed |
| `TelemetryDrain.RatesStartOver` | crates/veloxity_core/src/comm.rs:447-452 | new rates make every enabled sensor stream due at once, but for samples already sent |
| `TelemetryDrain.FreshImuRestarts` | crates/veloxity_core/src/comm.rs:1536-1570 | a fresh IMU sample past its gate restarts the period of the IMU |
| `TelemetryDrain.SampleOwners` | crates/veloxity_core/src/comm.rs:268-285 | each packet serves its own stream, and the IMU's three |
| `CommScheduler.CommManager.RunTelemetryStage` | crates/veloxity_core/src/world/telemetry.rs:31-51 | the stage leaves nothing due, and changes nothing when nothing was due |
| `CommScheduler.CommManager.RunBudgeted` | crates/veloxity_core/src/world/telemetry.rs:61-67 | the loop, with a clock reading before every attempt, is the specified budgeted run |
| `TelemetryFreshness.StepTakesFresh` | crates/veloxity_core/src/comm.rs:829-1570 | every operation takes, for every sensor stream, nothing or once the sample at hand, which was not the last one taken |
| `TelemetryFreshness.NoSampleTwiceInARow` | crates/veloxity_core/src/comm.rs:663-671 | over any interleaving of sends and reconfigurations no stream takes a timestamp twice in a row, nor sends one, OUTPUT_RAW's sends apart |
| `TelemetryFreshness.EachSampleAtMostOnce` | crates/veloxity_core/src/comm.rs:233-266 | with packets that do not step back in time, a stream's messages carry strictly increasing timestamps |
| `TelemetryFreshness.StepEmits` | crates/veloxity_core/src/comm.rs:766-1606 | every operation sends the sample at hand of a stream exactly when it serves the stream and the stream is due, or is the IMU past its gate and fresh |
| `TelemetryFreshness.ResentExactly` | crates/veloxity_core/src/comm.rs:889-915 | for whole runs of any operations: no two neighbouring messages of a stream share a timestamp iff no operation sends the stream while handed the timestamp of its last message |
| `TelemetryFreshness.OnlyOutputRawResends` | crates/veloxity_core/src/comm.rs:889-915 | and only OUTPUT_RAW comes to that |
| `TelemetryFreshness.BudgetedTakesOnce` | crates/veloxity_core/src/world/telemetry.rs:61-67 | within one budgeted stage a sensor stream sends at most once, however the clock moves |
| `TelemetryFreshness.OutputRawSendsTwice` | crates/veloxity_core/src/comm.rs:889-915 | a run in which OUTPUT_RAW does |
| `StateMachine.StateManager.Update` | crates/veloxity_core/src/state_machine.rs:437-450 | an event takes the manager to the specified state; a guarded request with the throttle guard closed changes nothing |
| `StateMachine.DisarmMeans` | crates/veloxity_core/src/state_machine.rs:212-254 | a disarm request leaves no vehicle armed: from Armed to Preflight iff no flag is set, else to ErrorPresent; from Failsafe to ErrorFailsafe |
| `StateMachine.ArmMeans` | crates/veloxity_core/src/state_machine.rs:328-450 | an arm request arms, or calibrates to arm, iff the vehicle waits without blocking error and the throttle guard is open; else nothing changes |
| `StateMachine.CalibrationMeans` | crates/veloxity_core/src/state_machine.rs:184-210 | calibration ends in Armed or back in Preflight, and its events mean nothing elsewhere |
| `StateMachine.StartMeans` | crates/veloxity_core/src/state_machine.rs:154-356 | a rearm arms from every mode but Init; INITIALIZED only leaves Init |
| `StateMachine.ErrorMeans` | crates/veloxity_core/src/state_machine.rs:75-356 | an error is remembered, stops arming, and takes an armed vehicle to failsafe iff it is the lost link alone |
| `StateMachine.ClearMeans` | crates/veloxity_core/src/state_machine.rs:75-356 | clearing ends an error mode once no flag is left, and failsafe with the lost link |
| `StateMachine.FlagSetMeans` | crates/veloxity_core/src/state_machine.rs:452-461 | afterwards the flag has the value asked for, the others are untouched, nothing happened if it had it, and the vehicle is armed iff it was |
| `StateMachine.StateManager.SetErrorFlag` | crates/veloxity_core/src/state_machine.rs:452-461 | the same of the live object |
| `StateMachine.StateManager.Run` | crates/veloxity_core/src/state_machine.rs:463-473 | replays the present flags, or the empty clearing |
| `ArmingRuns.ModesFitFlags` | crates/veloxity_core/src/state_machine.rs:154-356 | in every run after a start that carries at most UNHEALTHY_ESTIMATOR: failsafe modes carry RC_LOST, ErrorPresent a flag, Preflight and Calibrating at most UNHEALTHY_ESTIMATOR, Armed no RC_LOST unless rearmed after a hard fault |
| `ArmingRuns.FitIffClean` | crates/veloxity_core/src/state_machine.rs:154-166 | for every set of carried flags: all runs fit their flags iff at most UNHEALTHY_ESTIMATOR is carried |
| `ArmingRuns.CarriedThrough` | crates/veloxity_core/src/state_machine.rs:154-166 | flags raised in Init are still there after INITIALIZED |
| `ArmingRuns.EpisodeHasOrigin` | crates/veloxity_core/src/state_machine.rs:417-450 | every arming episode began with a request that passed the blocking errors and the throttle guard, or a hard-fault rearm |
| `ArmingRuns.ThrottleHighNeverArms` | crates/veloxity_core/src/state_machine.rs:417-450 | a request with the throttle not low changes nothing in any unarmed mode |
| `ArmingRuns.ArmsOverCarried` | crates/veloxity_core/src/state_machine.rs:168-183 | whatever is carried, the first request with the throttle guard open arms over it |
| `RemoteControl.Rc.Receive` | crates/veloxity_core/src/rc.rs:301-319 | copies at most 16 channels, keeps the rest, and takes the driver's loss-of-link signal for both flags |
| `RemoteControl.Rc.CheckRcHealth` | crates/veloxity_core/src/rc.rs:362-386 | true iff recent, not lost, enough channels, and every one in range |
| `RemoteControl.Rc.ProcessSticksAndSwitches` | crates/veloxity_core/src/rc.rs:321-360 | both loops compute the specified stick and switch values |
| `RemoteControl.Rc.LookForArmDisarmSignal` | crates/veloxity_core/src/rc.rs:411-492 | timer, guard inputs and arming events as specified |
| `RemoteControl.Rc.Run` | crates/veloxity_core/src/rc.rs:388-408 | one run of the receiver and of the state manager together |
| `RemoteControl.Rc.TakeNewCommand` | crates/veloxity_core/src/rc.rs:499-506 | a command is handed out once |
| `StickHold.NextFits` | crates/veloxity_core/src/rc.rs:388-471 | whatever happens keeps the timer equal to the last healthy run time minus the time of its last restart |
| `StickHold.RequestDelivered` | crates/veloxity_core/src/rc.rs:411-471 | a healthy run delivers no arming event unless it asks, and then exactly the one for its armed state |
| `StickHold.RequestNeedsHold` | crates/veloxity_core/src/rc.rs:388-471 | in every run, a healthy run asks iff more than 1000 ms passed since a restart of the hold and every healthy run since, this one included, was in the corner for its armed state |
| `StickHold.FirstRunCanAsk` | crates/veloxity_core/src/rc.rs:411-456 | the hold counts from time 0 |
| `Lockout.RcAngleModeLockoutMachine.Step` | crates/veloxity_core/src/command.rs:101-207 | one step as specified, with its three forces |
| `Lockout.LatchHolds` | crates/veloxity_core/src/command.rs:107-177 | from entry on every step forces rate, and recovery is remembered, until the switch reads rate with the estimator healthy at some step since |
| `Lockout.LatchReleases` | crates/veloxity_core/src/command.rs:107-177 | the first such step ends the latch, and forces rate only when it is unsafe itself |
| `Lockout.ParamLatchHolds` | crates/veloxity_core/src/command.rs:135-177 | the parameter lockout holds until a step both healthy and in rate mode |
| `Lockout.ParamLatchEnds` | crates/veloxity_core/src/command.rs:135-177 | and ends exactly there, or by a reset |
| `Lockout.DenialsLoggedOnce` | crates/veloxity_core/src/command.rs:107-207 | in every run one denial is logged per maximal run of denied steps |
| `Lockout.DeniedEndsInactive` | crates/veloxity_core/src/command.rs:179-182 | a denied step forces rate, and ends inactive iff a denial is already active and the step releases the lockout |
| `Lockout.DenialEnters` | crates/veloxity_core/src/command.rs:179-207 | which lockout a new denial enters, and when it forces the parameter and the attitude |
| `Lockout.FreeToFly` | crates/veloxity_core/src/command.rs:107-133 | nothing is forced where no angle is asked for and no lockout holds |
| `Lockout.UnsafeCanEndInactive` | crates/veloxity_core/src/command.rs:179-182 | a run from the start that ends so |
| `Command.CommandManager.UpdateFailsafeConfig` | crates/veloxity_core/src/command.rs:318-360 | rebuilds both failsafe commands and raises or clears INVALID_FAILSAFE |
| `Command.CommandManager.UpdateOffboardTimeout` | crates/veloxity_core/src/command.rs:417-436 | deactivates every offboard channel iff the timeout has passed |
| `CommandSafety.MessageInForce` | crates/veloxity_core/src/command.rs:417-507 | until the timeout the active offboard channels are the ones the message does not ignore, with the types of its mode; afterwards none is |
| `CommandSafety.MessageFlies` | crates/veloxity_core/src/command.rs:362-507 | on every non-failsafe run roll and pitch fly the last message unless the mask takes them, and past the timeout it does |
| `Command.CommandManager.EstimatorModeSafety` | crates/veloxity_core/src/command.rs:768-815 | resets or steps the lockout with the inputs of this run |
| `Command.CommandManager.InterpretRc` | crates/veloxity_core/src/command.rs:510-651 | scales and types the RC command, for both vehicle types and a forced rate |
| `Command.CommandManager.DoAttitudeMuxing` | crates/veloxity_core/src/command.rs:663-766 | sources, lag times and mask of the attitude mux |
| `Command.CommandManager.DoThrottleMuxing` | crates/veloxity_core/src/command.rs:817-861 | sources and mask of the force axes |
| `Command.CommandManager.Run` | crates/veloxity_core/src/command.rs:362-415 | one run of arbitration: failsafe exit, timeout, lockout, RC command and mux |
| `CommandSafety.FailsafeConfiguration` | crates/veloxity_core/src/command.rs:318-360 | the multirotor failsafe is level with the configured throttle on one axis, 0 when out of range, and the flag says which |
| `CommandSafety.LossOfLinkFailsafe` | crates/veloxity_core/src/command.rs:362-393 | armed on entry with RC unhealthy: mode Failsafe, and only the combined command changes, to the vehicle type's failsafe command |
| `CommandSafety.MaskCodesSources` | crates/veloxity_core/src/command.rs:653-861 | on every other run the mask says exactly which of roll, pitch and the force axes come from RC; the rest from an active offboard channel |
| `CommandSafety.ThrottleTakesMinimum` | crates/veloxity_core/src/command.rs:817-861 | with take-min on, offboard throttle active and no switch, the throttle axis carries the smaller value |
| `CommandSafety.OffboardExpires` | crates/veloxity_core/src/command.rs:417-436 | past the timeout no channel is an active offboard one |
| `CommandSafety.AdapterFollowsMux` | examples/quadx_upstream_angle_waypoints/thrust_to_throttle_adapter.py:140-155 | the companion uses the measured angle on exactly the axes the firmware flies from RC |
| `CommandSafety.PreparedTypes` | crates/veloxity_core/src/command.rs:768-815 | with the estimator unhealthy the RC command is an angle iff offboard flies another mode on both axes, RC has not taken over and no lockout holds |
| `CommandSafety.AngleOnlyByDeflection` | crates/veloxity_core/src/command.rs:683-815 | on a run with fresh RC, roll (pitch) is flown as an angle iff in addition the stick bit X (Y) is set in the mask |
| `CommandSafety.AngleByStaleCommand` | crates/veloxity_core/src/command.rs:362-415 | without fresh RC, iff the mask takes the axis, the old RC command is an angle, and nothing on this run asks for an angle or holds a lockout |
| `CommandSafety.YawCodedUnlessForced` | crates/veloxity_core/src/command.rs:683-766 | where yaw comes from, and that the mask tells it iff the attitude is not forced to RC or yaw comes from RC anyway |
| `CommandSafety.SticksFly` | crates/veloxity_core/src/command.rs:510-766 | on every non-failsafe run with fresh RC, each axis flown by RC carries its own stick scaled by the limit of its type, and the throttle axis alone the throttle stick |
| `CommandSafety.PilotChoosesMode` | crates/veloxity_core/src/command.rs:897-903 | without a forced rate RC flies angles iff the attitude switch, or without one the parameter, says so |
| `CommandSafety.NothingForced` | crates/veloxity_core/src/command.rs:768-802 | a healthy estimator without lockout forces nothing; a fixed wing or a disabled lockout resets it |
| `CommandSafety.ParameterForced` | crates/veloxity_core/src/command.rs:768-815 | exactly which runs ask for the attitude-mode parameter to be set to rate |
| `CommandSafety.LockoutReads` | crates/veloxity_core/src/command.rs:783-792 | what the lockout reads off receiver, state manager and parameters |
| `CommandSafety.OverrideLasts` | crates/veloxity_core/src/command.rs:663-681 | over whole runs: a stick overrides iff deflected, or the lag since the last beginning of an override has not passed |
| `CommandSafety.OverrideHolds` | crates/veloxity_core/src/command.rs:663-681 | and what a deflection began holds until then, whatever the stick does |
| `CommandSafety.CallsStepLockout` | crates/veloxity_core/src/command.rs:362-415 | over any calls the lockout is the machine run on the inputs of the calls that were not in failsafe |
| `CommandSafety.LockedOutFliesRate` | crates/veloxity_core/src/command.rs:362-415 | while no call releases the latch, RC roll and pitch are rate commands |
| `ParamService.ParamEventQueues.PushOrLog` | crates/veloxity_core/src/events.rs:32-45 | an event is kept iff fewer than eight wait |
| `ParamService.ParamEventQueues.ApplyWrites` | crates/veloxity_core/src/params/service.rs:36-110 | the writes of a stage in order, each with its event, and reloads with their refresh |
| `ParamService.ParamEventQueues.ApplyReactions` | crates/veloxity_core/src/params/reactions.rs:32-136 | a refresh, or each delivered change of a failsafe parameter, rebuilds the failsafe commands; the queue is empty afterwards |
| `ParamService.UnreactedNeedsFullQueue` | crates/veloxity_core/src/params/service.rs:79-110 | the vehicle type changes without a reaction only when its event found the queue full |
| `ParamService.NoReloadWhileArmed` | crates/veloxity_core/src/command/service.rs:163-222 | an armed vehicle accepts no reload |
| `ParamService.ReloadRefreshes` | crates/veloxity_core/src/command/service.rs:163-222 | an unarmed one takes every value of the last reload, and refreshes everything |
| `Vehicle.RunRcCommandState` | crates/veloxity_core/src/rc/command_state.rs:23-52 | the three stages on the live objects take the vehicle to the specified state, the parameter write-back and its event included |
| `Vehicle.RunParamService` | crates/veloxity_core/src/world/service.rs:417-432 | so does the parameter part of the service stage |
| `Vehicle.FlightReady` | crates/veloxity_core/src/command.rs:318-360 | in every flight the modes fit their flags, and the multirotor failsafe is level with throttle on at most one axis |
| `Vehicle.TakeThrottle` | crates/veloxity_core/src/params/reactions.rs:32-136 | one happening puts the failsafe throttle out of range iff it loses the change to a multirotor while the stored throttle is out of range |
| `Vehicle.FlightThrottle` | crates/veloxity_core/src/params/reactions.rs:32-136 | the failsafe throttle stays in range throughout a flight iff no service stage does that |
| `Vehicle.LostToFullQueue` | crates/veloxity_core/src/params/service.rs:79-110 | and such a stage has a change of FIXED_WING that finds eight events waiting |
| `LostChange.UnheardChangeFlies` | crates/veloxity_core/src/params/service.rs:36-110 | for every throttle out of range, a flight of nine changes, arming and silence that flies it |
| `Vehicle.LostLinkCycle` | crates/veloxity_core/src/rc/command_state.rs:23-52 | a pass with an unhealthy link leaves an armed vehicle in failsafe flying its level failsafe command, its throttle in range iff the stored one is, and an unarmed one in an error mode |
| `Vehicle.LeavesFailsafe` | crates/veloxity_core/src/rc/command_state.rs:23-52 | the vehicle leaves failsafe iff a pass has a fresh packet on a healthy link |
| `Vehicle.FailsafeHolds` | crates/veloxity_core/src/rc/command_state.rs:23-52 | until then every pass of every flight flies the failsafe command, its throttle in range iff the stored one is |
| `Vehicle.ArmedByPilot` | crates/veloxity_core/src/rc/command_state.rs:23-52 | in every flight without a hard-fault rearm, arming began at a pass with a fresh packet on a healthy link, throttle low and the override switch where required |
| `Pilot.HealthOfPacket` | crates/veloxity_core/src/rc.rs:301-386 | RC is healthy iff its last packet is at most 500,000 us old, signals no loss of link, and carries every required channel within -0.25..1.25 |
| `Pilot.HealthUntilNext` | crates/veloxity_core/src/rc.rs:362-408 | and stays so by that packet until the next |
| `Pilot.ControlsOfPacket` | crates/veloxity_core/src/rc.rs:321-360 | sticks and switches in terms of the packet's channels |
| `Pilot.DisarmPass` | crates/veloxity_core/src/rc/command_state.rs:23-52 | a pass unarms an armed vehicle iff its packet is healthy and asks to disarm, by switch or by a hold of more than a second |
| `Pilot.ArmPass` | crates/veloxity_core/src/rc/command_state.rs:23-52 | exactly which packets arm an unarmed vehicle |
| `Pilot.LossOfLinkPacket` | crates/veloxity_core/src/rc/command_state.rs:23-52 | a packet that signals loss of link takes every armed vehicle to its failsafe command, whatever its channels say |
| `Pilot.PacketFlies` | crates/veloxity_core/src/rc/command_state.rs:23-52 | outside failsafe every axis flown by RC carries the stick that the packet holds for it |
| `Pilot.UnflyableNotConsumed` | crates/veloxity_core/src/rc.rs:403-407 | an unhealthy packet leaves no RC command to be consumed |
| `Pilot.PassForcesParameter` | crates/veloxity_core/src/rc/command_state.rs:30-50 | the attitude-mode parameter is rate after a pass that asks for it, and no pass changes another |
| `MocapTransform.MultiplyAssociative` | examples/mocap_state/mocap_state_math.py:36-45 | the quaternion product is associative |
| `MocapTransform.ConjugateReverses` | examples/mocap_state/mocap_state_math.py:31-45 | conjugation reverses products |
| `MocapTransform.NormMultiplicative` | examples/mocap_state/mocap_state_math.py:24-45 | the squared norm is multiplicative |
| `MocapTransform.SandwichPure` | examples/mocap_state/mocap_state_math.py:48-54 | rotating a vector yields no scalar part |
| `MocapTransform.UnitProducts` | examples/mocap_state/mocap_state_math.py:36-45 | the products of the units are Hamilton's, not their mirror image |
| `MocapTransform.TurnComposes` | examples/mocap_state/mocap_state_math.py:36-54 | rotating by a product is rotating by its factors, the right one first |
| `MocapTransform.TurnAboutZ` | examples/mocap_state/mocap_state_math.py:48-54 | the sense of a rotation about z |
| `MocapTransform.NormalizeRefuses` | examples/mocap_state/mocap_state_math.py:24-28 | exactly quaternions shorter than 1e-9 are refused |
| `MocapTransform.PoseMeans` | examples/mocap_state/mocap_state_publisher.py:441-462 | the published attitude rotates a body vector as body to marker, marker to room, room to NED do; the position is the body origin's; the first sample sets the origin |
| `MocapTransform.TurnBack` | examples/mocap_state/mocap_state_math.py:48-54 | rotation by the conjugate undoes rotation by a unit quaternion, in either order |
| `MocapTransform.InverseRecovers` | examples/mocap_state/mocap_state_publisher.py:441-462 | for any marker offset and origin, the inverse of the forward transform is the measured pose up to the normalised attitude and an explicit shift |
| `MocapTransform.InverseExact` | examples/mocap_state/mocap_state_math.py:84-99 | the position comes back iff the rotated offset equals the origin; with a zero origin, iff the offset is zero; the attitude always does |
| `ScopeTiming.Segments` | tools/analyze_scope_timing_csv.py:56-67 | the loop cuts the recording into its maximal runs of equal level |
| `ScopeTiming.SegmentsUnique` | tools/analyze_scope_timing_csv.py:56-67 | a recording has only one such cutting |
| `ScopeTiming.TiledAdjacent` | tools/analyze_scope_timing_csv.py:56-67 | neighbours share their boundary and differ in level |
| `ScopeTiming.HighIntervalsOrdered` | tools/analyze_scope_timing_csv.py:106-107 | high intervals have non-decreasing starts and ends |
| `ScopeTiming.HighIffLevelOne` | tools/analyze_scope_timing_csv.py:106-107 | the high intervals are those of the segments of level 1 |
| `ScopeTiming.MeetsShareMoment` | tools/analyze_scope_timing_csv.py:70-72 | two intervals overlap iff some moment lies inside both |
| `ScopeTiming.NaiveCountIsSize` | tools/analyze_scope_timing_csv.py:75-85 | the naive count is the number of intervals that some candidate meets |
| `ScopeTiming.OverlapCount` | tools/analyze_scope_timing_csv.py:75-85 | the two-pointer count is the number of intervals for which the naive test holds |
| `ScopeTiming.ChannelOverlaps` | tools/analyze_scope_timing_csv.py:56-107 | for two channels of a recording in time order, the count is the naive one over their segments |

## Left out

- Board crates, task setup, PWM and battery drivers, mixer, estimator and controller: not part of this model.
- Message contents and the decoding of a complete frame (`process_mavlink_frame`): a frame is its header bytes and payload.
- The `mavio` builder: the checksum handed to the encoder is a parameter; the round trip takes it from the shared table.
- The parameter table: only the values the modelled code reads, each already of its declared type or its stated default; the mapping of sticks and switches to channels (`rc.rs:120-230`) is fixed at construction.
- Logging texts; only the denial of the lockout is counted.
- Floating-point rounding, NaN and infinities: reals are used throughout.
- Overflow of 64-bit microsecond sums outside the saturating ones: clock sums are unbounded, a difference only near the end of the clock's range.
- A receiver branch for a declared length above 255: a length byte cannot hold one.
- The publisher stores the origin it sets at the first sample; the model returns it.
- Selection tests the presence of a packet before asking for a deadline; the deadline repeats that test, and only it is modelled.
- The stages that stop on measured slack or serve a priority list first: their sends are those of `SendStreamWithGate` and `SendOneStream`.
- `TelemetryRuns.RateBound`: a first send at time 0 leaves the gate open, so t0 is positive.
- `Vehicle.ArmedByPilot`: the hard-fault rearm of start-up is excluded; `ArmingRuns.EpisodeHasOrigin` includes it.
- `AlphaBetaFilter3D`, statistics, plotting, command lines and node plumbing of the tools.
- DShot frames, the log ring, and the event queues other than that of parameter changes.
- Parameter reactions outside command arbitration (mixer, RC mapping, estimator, controller, battery): the flags they raise are `Other` events.
- A parameter request that is malformed, out of its telemetry range, or asks for the value already stored: it changes nothing and queues nothing.
