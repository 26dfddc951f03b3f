# Sprite runtime: a verified model of the humanoid control path

This project models five parts of the robot's control runtime and proves properties of them:

1. **The native protected CAN controller.** Thirty-one motors on four buses are served in 2 kHz
   slots. A joint-space impedance target is turned into one MIT command per motor through a pair
   of inverse matrices, limited twice (once in real values, once on the quantized words), and put
   on the wire by a run that prepares, enables, drives, disables and verifies, where every step
   may fail. `MitCodec`, `MotorCommand`, `NativeMotor`, `Synthesis`, `MotorPreview`, `Schedule`,
   `RunTrace`, `SlotFrames`, `ProtectedRun`, `RunSafety`, `FrameStart` and `SlowAnkle`.
2. **The actor pipeline.** Observation history, blending from the measured pose, projection into
   limits, startup ramp, and the exported table the controller checks the result against.
   `PolicyCore`, `PolicyRun`, `Handoff`, `Smoothstep`, `Protection` and `ActorTarget`.
3. **The link between actor and controller.** Packet layouts, a fault-latching channel, the
   packet drain, and both composed over FIFO channels. `Wire`, `PolicyIpc`, `PolicyProtocol` and
   `NameHash`.
4. **The IMU chain.** Startup bias, attitude filter, packets, validation, feedback map.
   `Vectors`, `BiasWindow`, `AttitudeFilter`, `Steering`, `SwayingWindow`, `ImuPacket`, `ImuClient`,
   `ImuRoundTrip` and `Feedback`.
5. **The Python commissioning code.** Fail-closed gates for a motor pair and the catch-up poller.
   `PairTrace`, `PairGate` and `CatchUp`.

`Prelude` and `Impedance` hold what they share.

## How the source is represented

- Doubles are exact reals, so the finiteness tests of the source are vacuous: no NaN, no
  infinity, no rounding. Where bytes matter, `Wire.Ieee` maps 64-bit words to numbers without
  assuming any law; theorems that read back a number the program already holds ask that the format
  can hold it (`Exact`), those that read back a computed number ask only that it is stored up to a
  rounding error (`Near`). Casts from double to float are an arbitrary function.
- Square root, sine, cosine and arctangent are the fields of `Vectors.Maths`; only the laws
  listed in its `Valid` are used.
- Wire words, counters and sequence numbers are naturals with their 64-bit bound written out;
  the name hash works on 64-bit vectors. The number of motors and the matrix dimension are
  parameters; the observation layout keeps its constants.
- Exceptions are `Result` errors or a returned fault. Objects whose methods change fields are
  classes with the same fields; each method is proved equal to a function of the old state, and
  the lemmas are about those functions.
- CAN and socket traffic, signals and the outcome of every write are arbitrary values chosen anew
  at each use. So are clock readings, except that in the active interval of the controller a slot
  never begins before its deadline nor before the previous slot: that is what sleeping until a
  deadline on a monotonic clock gives. A run returns the sequence of everything it wrote, sent to
  the actor, heard or took over, and the safety statements are about that sequence alone: the
  slot in progress, the target in force and the age of it are read off the events. Which event may
  follow which (`RunTrace.Just`) is fixed down to the order inside a slot: targets, preview, the
  frames in motor order, replies within the guards, the state message; a slot begins only when the
  one before it is complete, and nothing follows a failed write.
- The gates share probing, enabling and closing, so one run with a mode stands for the three.

Places where the code keeps less than its obvious summary, and what is proved instead:

- In the native shutdown a failed write leaves the disable loop. `RunSafety.DisablesUntilFailure`
  says what every motor got by then, `RunSafety.DisableMayFail` that such runs exist, and
  `RunSafety.ThreeDisablesUnlessWriteFails` that three disables each are sent exactly in the runs
  in which no disable write fails; a successful run always ends disabled.
- A 50 Hz command is not always the one synthesized in the first slot of its forty-slot frame: a
  motor named an ankle motor is recomputed at every preview whatever its rate, and the loader
  accepts such a motor at 50 Hz. `SlowAnkle.SlowAnkleBreaks` is such a run, on time in every slot,
  `FrameStart.SlowFrameFromFrameStart` the exact condition.
- The bounded wire limiter need not converge. It fails closed, `MotorCommand.BoundedModeCanFail`
  gives inputs on which it gives up, and `MotorCommand.BoundedModeConverges` a floor above which
  it never does.
- The gates test the soft-limit margin only on the first of the two answers that precede enabling.
  `PairTrace.SecondAnswerMayLeave` enables after a second answer outside it, and
  `PairTrace.BothAnswersInsideWhen` says exactly for which motors and limits that cannot happen.
- A torque request within the cap may ask the drive for up to one quantization step more than the
  cap on the negative side; `PairTrace.OverCapWhen` says exactly when.
- A ready, stationary bias window can still be refused by the attitude filter:
  `SwayingWindow.RefusedStart`.

## Model

| member | source | states |
|---|---|---|
| MitCodec.EncodeIsLargestBelow | native/src/sprite_can_shadow.cpp:631-640 | The truncating encoder returns the largest word whose decoded value does not exceed the command (a Galois connection with the decoder), for every range and width |
| MitCodec.DecodeWithinStep | src/open_sprite_runtime/damiao.py:216-230 | A decoded word lies in the half-open step below the value that was encoded |
| MitCodec.EncodeOfDecode | native/src/sprite_can_shadow.cpp:631-640 | Every word is the encoding of its own decoding |
| MitCodec.WordsAreEven | native/src/sprite_can_shadow.cpp:638-640 | Words decode to equidistant values from one end of the range to the other |
| MitCodec.EndsOfScale | native/src/sprite_can_shadow.cpp:990-994 | A command at the top of its ranges with stiffness 500 and damping 5 fills every word, one at the bottom without gains is all zero words |
| MitCodec.UnpackOfPack | native/src/sprite_can_shadow.cpp:647-656 | The 16+12+12+12+12 bit packing loses nothing: the drive reads back the five words |
| MitCodec.PackOfUnpack | native/src/sprite_can_shadow.cpp:647-656 | Packing is onto: every eight bytes are the packing of the words read from them |
| MitCodec.PackIsBigEndian | native/src/sprite_can_shadow.cpp:647-656 | The frame is the big-endian 64-bit number of the five words one after the other |
| MitCodec.PollIsNoSpecial | native/src/sprite_can_shadow.cpp:1088-1096 | A poll is never the frame that enables or disables a drive, although both have the same format |
| MitCodec.CommandRoundTrip | src/open_sprite_runtime/damiao.py:269-296 | A command is encodable iff its five fields are in range, and the drive decodes each field rounded down by less than one step |
| MitCodec.PythonAgreesWithNative | src/open_sprite_runtime/damiao.py:232-296 | What the Python encoder accepts the native encoder accepts with the same eight bytes, and its torque request is inside the envelope |
| MitCodec.ZeroGainAcceptance | native/src/sprite_can_shadow.cpp:642-664 | The restricted writer's self-check accepts exactly in-range positions of drives whose velocity and torque ranges are centred on zero to within the quantization; its frame has zero gains |
| MitCodec.SymmetricIsCentred | native/src/sprite_can_shadow.cpp:659-662 | For symmetric ranges the self-check never rejects |
| MitCodec.ZeroGainWritersAgree | src/open_sprite_runtime/damiao.py:299-324 | When the Python echo is accepted, and that it sends the same bytes as the native poll whenever both accept |
| MotorCommand.SaturateIsSafe | native/src/sprite_can_shadow.cpp:890-922 | In all three branches the limited command asks for at most 98% of the cap, keeps gains nonnegative and no larger, and leaves no position that was inside the limit intersection outside it |
| MotorCommand.SaturateActsLeast | native/src/sprite_can_shadow.cpp:890-922 | A command beyond 98% of the cap is limited by moving its position alone whenever some position inside the limit intersection gives the limited torque, by one common factor on gains and feedforward when none does, and without stiffness by the feedforward alone |
| MotorCommand.HeldRunIsSafe | native/src/sprite_can_shadow.cpp:890-922 | Over any run of previews without a refresh, gains never grow and the torque stays within 98% of the cap |
| MotorCommand.PeakTestNeverFires | native/src/sprite_can_shadow.cpp:927-943 | After limiting, the mechanical-peak clause of the final test decides nothing |
| MotorCommand.PreviewGoesOnWhen | native/src/sprite_can_shadow.cpp:923-943 | The final invariant clause by clause, with its numbers |
| MotorCommand.SentAsItIs | native/src/sprite_can_shadow.cpp:1004-1073 | Without torque limiting exactly which commands give a payload, clause by clause, with the numbers |
| MotorCommand.FirstReduction | native/src/sprite_can_shadow.cpp:1035-1062 | When quantization can add at most 2.5% of the cap one reduction is enough, and the frame then asks for 95% of the cap, or for 90% of what it asked before if that is less, to within twice the quantization |
| MotorCommand.PolicyFrameIsNoSpecial | native/src/sprite_can_shadow.cpp:1088-1096 | With a soft limit inside the protocol range a policy frame is never the frame that enables or disables a drive |
| MotorCommand.ShrinkIsUniform | native/src/sprite_can_shadow.cpp:1035-1062 | Whatever the limiting loop ends with is the encoding of the original command uniformly scaled by a factor in (0, 1] with its setpoint words untouched |
| MotorCommand.PolicyWordsAreSafe | native/src/sprite_can_shadow.cpp:1004-1073 | Every payload returned gives a wire torque of at most cap + 1e-9 at the latest feedback, with the position and velocity words of the unscaled command |
| MotorCommand.BoundedModeConverges | native/src/sprite_can_shadow.cpp:1035-1062 | If 0.9^32 of the unquantized torque plus the quantization floor fits the cap, bounded mode always returns a payload |
| MotorCommand.BoundedModeCanFail | native/src/sprite_can_shadow.cpp:1063-1069 | Inputs on which the loop uses all its attempts and the writer refuses |
| NativeMotor.ReplyInRange | native/src/sprite_can_shadow.cpp:1256-1275 | Any eight bytes decode into the configured ranges |
| NativeMotor.ReplyOfReported | native/src/sprite_can_shadow.cpp:1248-1277 | Every field of a reply is read where the drive put it: identifier, status, a 16-bit position, 12-bit velocity and torque, two temperatures |
| NativeMotor.EveryFrameIsReported | native/src/sprite_can_shadow.cpp:1248-1277 | Every eight bytes are such a reply |
| NativeMotor.MatchesWhen | native/src/sprite_can_shadow.cpp:1248-1254 | Which replies are taken for a motor's own, by the identifier and the status they carry |
| NativeMotor.FaultWhen | native/src/sprite_can_shadow.cpp:1291-1307 | Which replies abort the run and with which of the three faults, clause by clause |
| NativeMotor.FilterApproaches | native/src/sprite_can_shadow.cpp:1209-1223 | The temperature filter starts at its first sample and then leaves the same share of the distance to each sample |
| NativeMotor.EchoReturnsReportedWord | src/open_sprite_runtime/damiao.py:419-457 | A poll at a reported position carries the very position word the drive reported, in both writers, and the Python echo of a reported position is never refused for ranges that straddle zero |
| NativeMotor.Motor.FinishPreview | native/src/sprite_can_shadow.cpp:890-956 | The limited command, the saturation count, both maxima and the verdict, in terms of the old state; the verdict is the final invariant |
| NativeMotor.Motor.ProtectedPolicyPayload | native/src/sprite_can_shadow.cpp:1004-1073 | The payload, the saturation count and the commanded maximum are those of the specified limiting loop; the command itself is never changed |
| NativeMotor.Motor.AcceptReply | native/src/sprite_can_shadow.cpp:1247-1314 | Which replies are ignored, refused or accepted, in the order of the guards, and everything a reply changes in each case; where its fields stand is `NativeMotor.ReplyOfReported`, when it faults `NativeMotor.FaultWhen` |
| Synthesis.ThroughMotors | native/src/sprite_can_shadow.cpp:438-449 | Joint space to motor space and back is the identity plus what the inverse leaks |
| Synthesis.CoupledSum | native/src/sprite_can_shadow.cpp:867-887 | The motor-by-motor coupled terms are the joint gains applied to the joint-space error (exchange of sums) |
| Synthesis.SetpointsAreTarget | native/src/sprite_can_shadow.cpp:824-834 | The position and velocity setpoints of all motors, carried to the joints, are the target's up to what the inverse leaks, and exactly for an exact inverse |
| Synthesis.ExactInverseTorque | native/src/sprite_can_shadow.cpp:812-889 | For exactly inverse matrices a motor's embedded gains plus its coupled feedforward produce the transpose image of the unclamped joint impedance law, for every target and feedback, and keep doing so at every state the motor moves to before the next refresh |
| Synthesis.LoadedKinematicsTorque | native/src/sprite_can_shadow.cpp:812-889 | For matrices that are inverse only up to some residual the same torque is met, at every later state of the motor, up to an explicit budget proportional to the residual |
| Synthesis.CheckInverse | native/src/sprite_can_shadow.cpp:438-449 | The loader's nested loops accept exactly the matrix pairs whose product is within 1e-9 of the identity in every entry |
| Synthesis.AcceptedKinematicsTorque | native/src/sprite_can_shadow.cpp:438-449 | For every pair the loader accepts the torque is off, at every later state of the motor, by at most a billionth of gains times target size, summed over the joints the motor moves |
| Synthesis.PowerIsConserved | native/src/sprite_can_shadow.cpp:812-889 | Motor power equals joint power under the transpose map, so the mapping neither creates nor absorbs energy |
| MotorPreview.JointRow | native/src/sprite_can_shadow.cpp:815-822 | The accumulation loop computes the joint position and velocity of the linear map |
| MotorPreview.OtherCommand | native/src/sprite_can_shadow.cpp:861-889 | The nested loops compute the synthesized command of a 50 Hz motor, whose gains, setpoints and feedforward `Synthesis.ExactInverseTorque` and `Synthesis.SetpointsAreTarget` characterise |
| MotorPreview.AnkleCommand | native/src/sprite_can_shadow.cpp:847-860 | The ankle loop computes the clamped joint torques of the ankle joints carried to the motor, which `MotorPreview.AnkleTorque` and `MotorPreview.JointTorqueIsNearest` characterise |
| MotorPreview.JointTorqueIsNearest | native/src/sprite_can_shadow.cpp:835-843 | The torque of a joint is the point of its effort range nearest to the joint impedance law |
| MotorPreview.AnkleTorque | native/src/sprite_can_shadow.cpp:835-860 | An ankle motor is asked, wherever it has moved, for the transpose image of the clamped ankle joint torques, which is that of the unclamped impedance law while every ankle joint is within its effort |
| MotorPreview.DampedAnklesBrake | native/src/sprite_can_shadow.cpp:835-860 | With damping only, in a mechanism whose ankle joints only ankle motors move, the ankle motors together deliver no positive power, clamped or not |
| MotorPreview.PreviewAll | native/src/sprite_can_shadow.cpp:809-958 | One pass over all motors: it completes iff every held command passes the final invariant, then each motor holds its synthesized and limited command, and every tenth pass refreshes |
| MotorPreview.PassIsSafe | native/src/sprite_can_shadow.cpp:844-943 | One saturating preview: torque within 98% of the cap, gains nonnegative, and nonincreasing unless refreshed |
| MotorPreview.PreviewRunIsSafe | native/src/sprite_can_shadow.cpp:844-943 | The same over every run of previews, targets, feedback and refreshes |
| MotorPreview.AnkleTorqueBound | native/src/sprite_can_shadow.cpp:835-860 | An ankle motor's torque is bounded by the effort limits of the ankle joints whatever the target |
| Schedule.AssignPhases | native/src/sprite_can_shadow.cpp:371-385 | The two per-bus counters assign the specified phases, and loading succeeds iff every phase fits its period |
| Schedule.AcceptedIffPopulation | native/src/sprite_can_shadow.cpp:371-385 | A motor list loads iff no bus has more than two 500 Hz or twenty 50 Hz motors |
| Schedule.PhasesFollowRows | native/src/sprite_can_shadow.cpp:371-385 | The first 500 Hz motor of a bus has phase 0 and its first 50 Hz motor phase 1, and every other one two more than the one of its kind before it |
| Schedule.NoCollision | native/src/sprite_can_shadow.cpp:1562-1566 | No two motors of one bus are due in the same slot |
| Schedule.TurnsPerFrame | native/src/sprite_can_shadow.cpp:1562-1566 | Any forty consecutive slots hold exactly ten turns of a 500 Hz motor and one of a 50 Hz motor |
| Schedule.BusLoad | native/src/sprite_can_shadow.cpp:1562-1566 | The frames a bus carries in any forty slots, at most forty |
| FrameStart.HeldIsCarried | native/src/sprite_can_shadow.cpp:844-922 | After any run of previews a motor holds what the last preview that recomputed it made of its target, limited at the feedback of every preview since |
| FrameStart.FrameCommand | native/src/sprite_can_shadow.cpp:1682-1690 | Every policy frame of every run encodes, at the feedback last reported, a command that one known preview of that run synthesized: for an ankle motor the latest, for any other motor the one made in the first slot of its forty-slot frame |
| FrameStart.SlowFrameFromFrameStart | native/src/sprite_can_shadow.cpp:844-861 | A 50 Hz frame carries what the first slot of its forty-slot frame synthesized iff its motor is not named an ankle motor or is among the first two 50 Hz motors of its bus |
| SlowAnkle.SlowAnkleBreaks | native/src/sprite_can_shadow.cpp:846-861 | A safe run, punctual and with every due frame sent, of three 50 Hz motors whose motors, schedule, joint limits and matrices the loaders accept; its ankle motor is sent the torque of a target that arrived after the frame began |
| SlotFrames.EverySlotIsServed | native/src/sprite_can_shadow.cpp:1663-1690 | In every safe run, also one that fails, every slot that was followed by another sent exactly one written policy frame to each motor whose turn it was and none to any other; the last one begun sent at most that |
| SlotFrames.FramesOfRun | native/src/sprite_can_shadow.cpp:1663-1690 | In every safe run each motor was written all frames its schedule has in the slots before the last one begun, and at most its one of that slot |
| SlotFrames.DoneIsOnTime | native/src/sprite_can_shadow.cpp:1663-1690 | Once the last slot is done every motor was written exactly the frames its schedule has in the slots begun |
| RunSafety.EnableIsPrepared | native/src/sprite_can_shadow.cpp:1580-1655 | Before any enable only zero-gain frames were written, every drive had answered disabled, and the target last received was near the pose last reported with zero velocity, gains and feedforward |
| RunSafety.EnableInNumbers | native/src/sprite_can_shadow.cpp:1580-1655 | In numbers: frames before an enable have zero gain words and the middle torque word, and every joint of the target is within 0.03 rad of the pose last reported with velocity, gains and feedforward zero up to 1e-9 |
| RunSafety.PolicyIsGuarded | native/src/sprite_can_shadow.cpp:1663-1712 | Every policy frame follows all enables, goes to a motor whose turn it is in the slot in progress and who had none in it, while the target last received is at most 100 ms old at that slot's clock reading and inside gain limits and envelope; it fits the torque cap at the feedback last heard, and after the enable window goes out only while every drive last said enabled |
| RunSafety.PolicyInNumbers | native/src/sprite_can_shadow.cpp:1663-1712 | In numbers: the target in force is at most 100 ms old, has nonnegative gains, damping at most 5 and every joint within its row of the safety table up to 1e-9; the drive's torque is at most the cap plus 1e-9; after two hundred slots every drive last said enabled |
| RunSafety.NothingAlarmingHeard | native/src/sprite_can_shadow.cpp:1291-1307 | Every reply heard between an enable and a later slot, preview or policy frame was inside the hard limits, the velocity and torque guards and both temperature limits |
| RunSafety.StateToldIsReported | native/src/sprite_can_shadow.cpp:1703-1705 | Every state message of every run carries what each motor last reported, motor by motor, and while driving comes at the end of a forty-slot frame |
| RunSafety.PreviewIsCurrent | native/src/sprite_can_shadow.cpp:1678-1685 | Every preview is made in every fourth slot, of the target last received, which is fresh and inside the envelope, at what every motor last reported |
| RunSafety.OneFramePerBus | native/src/sprite_can_shadow.cpp:1686-1690 | With the phases the loader assigns, no bus carries two policy frames in one slot of any run |
| RunSafety.SilenceStopsDriving | native/src/sprite_can_shadow.cpp:1668-1681 | As long as the slots are punctual no policy frame goes out more than 216 slots (108 ms) after the slot in which the last target arrived, in every safe run, also in one that the silence ends |
| RunSafety.PolicyWasLimited | native/src/sprite_can_shadow.cpp:1682-1691 | In a saturating run every policy frame encodes a command a preview produced from newest feedback, limited to 98% of the cap |
| RunSafety.NoPolicyAfterDisable | native/src/sprite_can_shadow.cpp:1727-1759 | No policy frame follows a disable |
| RunSafety.SuccessMeansDisabled | native/src/sprite_can_shadow.cpp:1731-1758 | A passed run sent every motor three disables after its last policy frame and last heard it disabled |
| RunSafety.DisablesUntilFailure | native/src/sprite_can_shadow.cpp:1732-1759 | If the first disable write to fail is that of round a to motor i, the motors before i were disabled a+1 times and the others a times, nothing follows, no drive is verified, and the run is not passed |
| RunSafety.ThreeDisablesUnlessWriteFails | native/src/sprite_can_shadow.cpp:1732-1737 | Every motor is disabled three times iff none of the disable writes fails |
| RunSafety.DisableMayFail | native/src/sprite_can_shadow.cpp:1732-1737 | For every setup, round and motor there is a run in which exactly that disable write is the first to fail |
| RunSafety.SuccessIsPunctual | native/src/sprite_can_shadow.cpp:1659-1718 | A successful run of any number of slots wrote every motor exactly the policy frames its rate and phase have in them, heard replies to at least 95% of them, made one preview per four slots, and began every fourth slot less than 2 ms after its deadline |
| RunSafety.SuccessInFrames | native/src/sprite_can_shadow.cpp:1659-1718 | In whole frames of forty slots that is exactly ten frames per 500 Hz motor, one per 50 Hz motor, and ten previews |
| ProtectedRun.DrainFeedback | native/src/sprite_can_shadow.cpp:1229-1317 | Draining any sequence of CAN frames leaves each motor remembering exactly the accepted replies |
| ProtectedRun.PublishState | native/src/sprite_can_shadow.cpp:731-748 | The state message holds position and velocity of every motor in order under the next number, and the run ends if it is not delivered |
| ProtectedRun.Prepare | native/src/sprite_can_shadow.cpp:1580-1641 | Preparation writes only zero-gain frames, and succeeds only with every drive heard disabled and the target in the inbox, the last one received, passing the start gate at the positions last reported |
| ProtectedRun.WatchAndPreview | native/src/sprite_can_shadow.cpp:1678-1685 | The watchdog lets a slot through only when the target last received is at most 100 ms old at the slot's clock reading; every fourth slot brings all held commands up to date with it |
| ProtectedRun.Drive | native/src/sprite_can_shadow.cpp:1659-1718 | Whatever fails, every event of the active interval is justified by the ones before it; success means every motor got exactly the frames of its schedule, at least 95% of them were answered, one preview was made per four slots, and every fourth slot began in time |
| ProtectedRun.DisableAll | native/src/sprite_can_shadow.cpp:1732-1737 | Under any outcomes of its writes the disable loop produces exactly the specified rounds, ending with the first failure |
| ProtectedRun.Shutdown | native/src/sprite_can_shadow.cpp:1731-1759 | The disables are those of the loop; a failed one skips the verification; success means every drive was last heard disabled |
| ProtectedRun.RunNativeProtectedPolicy | native/src/sprite_can_shadow.cpp:1551-1822 | Every run, however it fails, has a safe trace; a passed run has a successful one |
| PolicyIpc.StateCrosses | native/src/policy_state_ipc.hpp:39-52 | The controller's packed state is decoded by the actor as the message that was sent; only hash, order and freshness decide |
| PolicyIpc.StateLayout | native/src/sprite_can_shadow.cpp:731-748 | Where every number of the state packet is, byte by byte |
| PolicyIpc.StateTakenWhen | native/src/policy_state_ipc.hpp:35-52 | The actor takes a state iff the hash is its own, the number is new, and the stamp is not missing, not ahead and not older than its age limit |
| PolicyIpc.EncodeTarget | native/src/policy_state_ipc.hpp:53-65 | The in-place encoder produces the packed layout iff gains are nonnegative and the metadata is present |
| PolicyIpc.TargetLayout | native/src/policy_state_ipc.hpp:53-65 | Where every number of the target packet is, byte by byte |
| PolicyIpc.TargetCrosses | native/src/sprite_can_shadow.cpp:750-807 | The actor's bytes are read by the controller as the message that was sent |
| PolicyIpc.TargetTakenWhen | native/src/sprite_can_shadow.cpp:750-807 | The controller takes a target iff hash, order, lag of at most five, stamp from 100 ms behind to 5 ms ahead, gains and joint table allow it, and what it then remembers |
| PolicyIpc.AdmittedInNumbers | native/src/sprite_can_shadow.cpp:768-797 | What the tests leave true of a target taken over, in numbers |
| PolicyProtocol.PolicyStateChannel.Receive | native/src/policy_state_ipc.hpp:92-103 | The new channel state and result in terms of the old ones; any fault latches |
| PolicyProtocol.PolicyStateChannel.Send | native/src/policy_state_ipc.hpp:104-114 | The new channel state, the result and the packet that reaches the socket; any fault latches |
| PolicyProtocol.IpcSocket.DrainTargetPackets | native/src/sprite_can_shadow.cpp:750-807 | Draining a queue equals accepting its datagrams in order until the first refusal; every target taken over passed the gain, envelope and age tests, and the inbox keeps the last |
| PolicyProtocol.AcceptedTargetsAnswerStates | native/src/sprite_can_shadow.cpp:763-767 | In every run over FIFO channels accepted targets are numbered without gap and each answers a state really published, at most five back |
| PolicyProtocol.AcceptedTargetsAreFresh | native/src/sprite_can_shadow.cpp:768-771 | In every run in which the actor answers with the states it was given, the pose behind an accepted target is at most the actor's age limit plus 100 ms old when the controller takes the target, and at most 5 ms ahead |
| PolicyProtocol.AnswerGoesOutWhen | native/src/policy_state_ipc.hpp:104-114 | Exactly when a target leaves the actor, and the message it leaves as |
| PolicyProtocol.StateGoesOutWhen | native/src/sprite_can_shadow.cpp:731-748 | Exactly when a state leaves the controller, and the message it leaves as |
| PolicyProtocol.OrderTestsNeverTrip | native/src/sprite_can_shadow.cpp:763-767 | The next waiting target can fail the sequence invariant only because the actor lags more than five states |
| PolicyProtocol.FaultIsFinal | native/src/policy_state_ipc.hpp:92-114 | After any fault no further packet leaves the actor, whatever is tried |
| PolicyProtocol.Interact | native/src/policy_state_ipc.hpp:92-114 | Under any interleaving the channel object and the controller's socket object, exchanging bytes, go through exactly the states of the run over messages, so the three statements above hold of them |
| NameHash.ActorNameHash | native/src/policy_state_ipc.hpp:21-30 | The actor hashes a list of distinct, nonempty, NUL-free names as FNV-1a of their zero-terminated concatenation and refuses every other list |
| NameHash.HashOfLetter | native/src/policy_state_ipc.hpp:21-30 | The hash of one letter is the published 64-bit FNV-1a value |
| NameHash.ControllerNameHash | native/src/sprite_can_shadow.cpp:243-281 | The controller's separator step gives the same hash for every list of names |
| NameHash.SerialInjective | native/src/policy_state_ipc.hpp:21-30 | On NUL-free lists the hashed byte string determines the names and their order |
| Wire.Put64 | native/src/imu_packet.hpp:33-35 | Eight little-endian bytes written in place, nothing else touched |
| Wire.LeOfNumber | native/src/policy_imu_client.hpp:23-27 | Byte strings and their little-endian numbers are in bijection |
| Smoothstep.SmoothIncrement | native/src/policy_protection.hpp:86-89 | The cubic blend never falls and never climbs faster than slope 1.5 on the unit interval |
| Smoothstep.SmoothStartsAtRest | native/src/policy_protection.hpp:86-89 | The blend leaves zero and reaches one with slope zero, and is its own mirror image |
| Protection.ProjectionIsNearest | native/src/policy_protection.hpp:50-53 | The projected position is the nearest one inside the limits, clamped iff it overshoots, and the recorded overshoot is that distance |
| Protection.TargetProjector.Project | native/src/policy_protection.hpp:46-62 | The projected target or the first refusal, the statistics of every visited joint even on refusal, and that the two statistics agree in every state |
| Protection.TimedCovers | native/src/policy_protection.hpp:70-80 | Rounding to ticks shortens neither phase, and there is a hold tick iff a positive hold was asked for |
| Protection.AlphaLaw | native/src/policy_protection.hpp:82-89 | The blend is zero iff holding, stays in [0,1], never falls, rises by at most 1.5/ramp per tick, and is one iff that tick completes the ramp |
| Protection.StartupRamp.Apply | native/src/policy_protection.hpp:83-102 | The new ramp state and the blended target in terms of the old state; the second validation never fires |
| Protection.StepBound | native/src/policy_protection.hpp:91-96 | For a constant target each tick moves a joint by at most 1.5/ramp times its distance from the measured pose |
| ActorTarget.ExportRows | tools/export_native_joint_safety_config.py:87-121 | Exactly which limit reports are exported, and the rows |
| ActorTarget.ProtectTick | native/src/sprite_policy_replay.cpp:204-211 | The actor's protection stage on its two objects equals the specified step |
| ActorTarget.RunShape | native/src/sprite_policy_replay.cpp:204-211 | Which runs of the protection stage succeed, and every frame they emit in closed form |
| ActorTarget.EmittedTargetsPass | native/src/sprite_can_shadow.cpp:777-797 | Whatever the policy wants and whatever is measured, every target emitted at every tick passes the controller's gain and envelope tests |
| ActorTarget.FullGainsAfterRamp | tools/export_native_joint_safety_config.py:106-121 | Once the ramp is complete every emitted target has the clamped position and exactly the stiffness and damping of its table row, and the rows in numbers |
| ActorTarget.TableLoads | native/src/sprite_can_shadow.cpp:485-489 | An actor that can emit was built from limits the controller's loader accepts |
| ActorTarget.FirstTargetIsMeasuredPose | native/src/sprite_can_shadow.cpp:1602-1636 | With a hold tick the first target is the measured pose with zero gains, and it passes the start gate iff no joint has since moved by more than 0.03 rad |
| ActorTarget.FirstTickMovesWithoutHold | native/src/policy_protection.hpp:86-91 | The first frame is the measured pose for all inputs iff there is a hold tick |
| ActorTarget.Replay | native/src/sprite_policy_replay.cpp:204-211 | The loop over the two protection objects emits exactly the targets of the run and stops at its first fault; everything emitted passes the controller's tests |
| Handoff.MeasuredPoseActionHandoff.BlendAction | src/open_sprite_runtime/handoff.py:61-70 | The new state and the blended action in terms of the old state |
| Handoff.ShareLaw | src/open_sprite_runtime/handoff.py:54-59 | The policy's share is positive, never falls, and is one iff the last handoff step was reached |
| PolicyCore.Core.Observe | native/src/policy_core.hpp:15-41 | The in-place shift and fill leave exactly the window over the frame list with the new observation appended, and return it with the command; what stands where is `PolicyRun.HistoryIsSlidingWindow` |
| PolicyCore.Core.Latch | native/src/policy_core.hpp:42-63 | The new latch state and the targets; a zero scale refuses the first latch and changes nothing visible |
| PolicyCore.WindowSlides | native/src/policy_core.hpp:22-22 | Appending a frame drops the oldest slot of a term and adds the new values |
| PolicyRun.HistoryIsSlidingWindow | native/src/policy_core.hpp:15-41 | After any run each history position holds, the right number of ticks ago (the first tick standing in for earlier ones), term by term: the narrowed position less its default, the narrowed velocity, the narrowed action before, the narrowed gyro rate, the narrowed gravity |
| PolicyRun.LatchRefinesBlend | native/src/policy_core.hpp:42-63 | For every run and handoff length the native core and the Python handoff return the same actions |
| PolicyRun.TargetsBlendFromMeasuredPose | native/src/policy_core.hpp:42-63 | Every joint target is the convex combination of the first measured pose and the policy's target, with a share that never falls and ends at one |
| PolicyRun.Replay | native/src/sprite_policy_replay.cpp:198-203 | The native core and the Python handoff, called tick by tick, end in the states of the run with the same actions, and the history array is the window over the observed frames |
| BiasWindow.Welford | native/src/imu_six_axis.hpp:33-37 | One running update of mean and squared deviations gives the batch values of the longer sample |
| BiasWindow.AcceptedWhen | native/src/imu_six_axis.hpp:24-29 | Which samples are accepted, without the roots: at most 30 ms apart, within a tenth of 1 g, slower than 0.1 rad/s |
| BiasWindow.StationaryWhen | native/src/imu_six_axis.hpp:38-40 | When an axis is stationary, without root and quotient |
| BiasWindow.StaticBias.Add | native/src/imu_six_axis.hpp:24-40 | Which samples are refused and why; otherwise the running values are the batch statistics of everything accepted |
| BiasWindow.StaticBias.Bias | native/src/imu_six_axis.hpp:41-45 | A returned bias is the mean of the accepted gyro samples and has norm at most 0.1 |
| BiasWindow.MeanAcceleration | native/src/imu_six_axis.hpp:24-46 | The mean acceleration of a stationary window is at most 1.1 g and undershoots 0.9 g only by its spread |
| AttitudeFilter.FourSquares | native/src/imu_six_axis.hpp:95-98 | The norm of the propagated quaternion is the product of the norms |
| AttitudeFilter.StartPointsUp | native/src/imu_six_axis.hpp:62-69 | The starting attitude's up vector is the measured acceleration scaled to length one, for every nonzero acceleration |
| AttitudeFilter.StartHasNoHeading | native/src/imu_six_axis.hpp:62-66 | The starting attitude's forward axis points nowhere to the side |
| AttitudeFilter.WindowStarts | native/src/imu_six_axis.hpp:58-61 | A finished bias window is refused by `initialize` iff its mean acceleration averaged out below 0.9 g; the bias always passes |
| SwayingWindow.RefusedStart | native/src/imu_six_axis.hpp:24-61 | An IMU that sways a little at the lower edge of the tolerated acceleration: every sample is accepted, the window becomes ready, and the filter refuses to start |
| AttitudeFilter.TurnIsLong | native/src/imu_six_axis.hpp:91-94 | The increment has norm one in the ordinary branch and at least one otherwise |
| AttitudeFilter.RestIsFixed | native/src/imu_six_axis.hpp:76-101 | No corrected rate and measured up equal to predicted up leave the attitude unchanged |
| AttitudeFilter.TrustLaw | native/src/imu_six_axis.hpp:82-82 | The accelerometer is trusted fully up to a twentieth of g from 1 g, not at all from a quarter of g on, and linearly in between |
| Steering.UpAfterTurn | native/src/imu_six_axis.hpp:91-101 | What one update does to the up vector, exactly, for every rate and step |
| Steering.UpTurnsByRate | native/src/imu_six_axis.hpp:91-101 | That is the rotation by minus the rate times the step (the formula of Rodrigues) |
| Steering.CorrectionTurnsHome | native/src/imu_six_axis.hpp:84-88 | The tilt correction is orthogonal to measured and predicted up and turns the one towards the other: their cosine grows at the trust times the square of their sine |
| Steering.CorrectionConverges | native/src/imu_six_axis.hpp:76-101 | With no corrected rate and a counting accelerometer every update of at most 30 ms brings the up vector closer to the measured direction: their cosine grows by the trust times the step times the square of the sine, to within a tenth |
| AttitudeFilter.SixAxis.Initialize | native/src/imu_six_axis.hpp:58-66 | Accepted accelerations become the estimated up direction, with a unit quaternion; every other input is refused without change |
| AttitudeFilter.SixAxis.Update | native/src/imu_six_axis.hpp:76-101 | Which updates are refused; otherwise the new attitude is the specified one, unit with a unit up vector in every reachable state, so that the norm fault cannot occur; what it does to up are the `Steering` laws |
| ImuPacket.CountSurvives | native/src/imu_packet.hpp:12-16 | Sixteen-bit two's complement survives its two bytes |
| ImuPacket.EncodeIcm | native/src/icm_packet.hpp:5-36 | The packet built in place is the specified layout, or the refusal and its reason |
| ImuPacket.DecodeChip | native/src/imu_packet.hpp:17-32 | The decoded registers, refused iff the quaternion is more than 5% off unit length |
| ImuPacket.ChipReadsRegisters | native/src/imu_packet.hpp:17-28 | Every value is decoded from its own register of the chip's map, with its own divisor |
| ImuPacket.EveryReadoutIsRegisters | native/src/imu_packet.hpp:17-28 | Every 46 bytes are such a register image |
| ImuPacket.EncodeChip | native/src/imu_packet.hpp:36-51 | The packet built in place is the specified layout, or the refusal and its reason |
| ImuClient.ValidateImuPacket | native/src/policy_imu_client.hpp:28-69 | The validator's loops compute the specified verdict for all three packet kinds, first failing test first |
| ImuClient.FrameInOrder | native/src/policy_imu_client.hpp:32-39 | The frame tests in numbers: kind, reserved bytes, sequence, the two time stamps |
| ImuClient.AxisExplained | native/src/policy_imu_client.hpp:55-59 | When counts and bias explain an axis, in bytes and numbers |
| ImuClient.SoftwareAcceptedIff | native/src/policy_imu_client.hpp:28-69 | Which 192 bytes are accepted from the two software encoders, in terms of the bytes, and what is handed on |
| ImuClient.ChipAcceptedIff | native/src/policy_imu_client.hpp:28-69 | The same for the fusion chip |
| ImuRoundTrip.IcmPacketAccepted | native/src/policy_imu_client.hpp:28-69 | Of everything `encode_icm` can build, with up to 1e-12 of rounding in every stored value, exactly the packets in order, fresh, with a bias of at most 0.1 rad/s and a stored quaternion within 1e-6 of unit norm are accepted; rounding can only matter to the norm test within 1e-11 of its limit; the values handed on are those encoded up to the same error |
| ImuRoundTrip.SamplesCanBeStored | native/src/icm_packet.hpp:21-33 | A 64-bit format that stores whatever the encoder computes to within 1e-13 |
| ImuRoundTrip.ChipPacketAccepted | native/src/policy_imu_client.hpp:28-69 | Of everything the chip encoder can build, with up to 1e-12 of rounding, exactly the packets in order and fresh are accepted |
| ImuRoundTrip.KindsDoNotMix | native/src/policy_imu_client.hpp:32-33 | A packet of one kind is refused by a client of another kind |
| Feedback.ReadSensor | native/icm45686/core.hpp:11-20 | The readout loops scale the counts |
| Feedback.Convert | native/src/policy_feedback.hpp:11-32 | The nested accumulation equals the matrix products, and the quaternion is refused iff it is too short |
| Feedback.ActorAndControllerAgree | native/src/policy_feedback.hpp:14-18 | Given the same matrix the actor and the controller compute the same joint positions and velocities |
| Feedback.GravityIsMinusUp | native/src/policy_feedback.hpp:26-29 | The encoder's change of frame and the map's reading of gravity cancel: the result is minus the estimator's up vector |
| Feedback.BodyOfSensorUp | native/icm45686/core.hpp:21-21 | The sensor's up vector on the body's axes is the up vector of the attitude the packet was made from |
| Feedback.BodyIsRotation | native/icm45686/core.hpp:21-21 | The change of axes keeps lengths and orientation |
| Feedback.RoundedSampleReachesPolicy | native/src/icm_packet.hpp:21-33 | For every attitude the encoder accepts (unit up to 1e-6), raw sample and bias, with every value stored to within epsilon of at most 1e-12, the policy input is the bias-corrected body rate up to epsilon and minus the up vector up to 30 epsilon and three times the error of the norm |
| Feedback.SampleReachesPolicy | native/src/icm_packet.hpp:21-33 | For a unit attitude and exactly stored values the policy input holds exactly the bias-corrected body rate, in numbers the negated counts in reverse order less the bias, and minus the up vector |
| Feedback.EstimatorPacketAccepted | native/icm45686/main.cpp:151-155 | A bias from the startup window and an attitude of the filter, rounded or not, always make an acceptable packet; only order and freshness can refuse it |
| PairTrace.EnableIsProbed | src/open_sprite_runtime/ankle_pair_commissioning.py:406-439 | Before anything is enabled both probing rounds went through exactly as specified: every motor answered twice, disabled, the first time with soft-limit margin |
| PairTrace.SecondAnswerMayLeave | src/open_sprite_runtime/ankle_pair_commissioning.py:428-439 | A run that enables both motors although the second answer of one of them lies outside the margin |
| PairTrace.BothAnswersInsideWhen | src/open_sprite_runtime/ankle_pair_commissioning.py:406-439 | In every run that enables, both answers keep the margin, exactly when no run can get that far or everything each motor can report lies inside the margin anyway |
| PairTrace.TorqueIsGuarded | src/open_sprite_runtime/ankle_pair_commissioning.py:441-502 | A torque frame goes out only after both enables and before any reply that does not say enabled or exceeds the velocity, torque or drift guard, with zero gains and a request within the cap; the torque the drive decodes is at most the cap and less than one step below minus the cap, and the position it decodes is exactly the one it last reported, which lies inside the soft limits |
| PairTrace.OverCapWhen | src/open_sprite_runtime/damiao.py:216-230 | The decoded torque exceeds the cap iff the request shares its word with minus the cap and minus the cap is not itself a word |
| PairTrace.DisabledAfterTorque | src/open_sprite_runtime/ankle_pair_commissioning.py:505-512 | After its last torque frame every motor is tried to be disabled at least three times |
| PairTrace.EncodedIsPure | src/open_sprite_runtime/damiao.py:232-296 | A command without gains is decoded by the drive as a pure torque within one step below the request, inside the envelope |
| PairGate.Probe | src/open_sprite_runtime/ankle_pair_commissioning.py:406-437 | Probing sends only zero-gain echoes; success means exactly the two specified rounds, with the first answers and the last replies returned, and in the direction gate both pitch extremes within the soft limits |
| PairGate.PitchScaleLaw | src/open_sprite_runtime/ankle_pair_commissioning.py:663-690 | The excitation profile stays within the checked excursion, changes by at most two scales per second (two thirds in the one-sided tier), and is never positive in the one-sided tier |
| PairGate.TargetRests | src/open_sprite_runtime/ankle_pair_commissioning.py:663-690 | When the target of the direction gate rests 0.03 rad up, 0.03 rad down or at the start, in both tiers |
| PairGate.JointTorqueIsNearest | src/open_sprite_runtime/ankle_pair_commissioning.py:455-456 | A joint torque is the point of its limits nearest to stiffness times the way to the target less damping times velocity |
| PairGate.JointTorqueBrakesAndPulls | src/open_sprite_runtime/ankle_pair_commissioning.py:455-456 | At the target it only brakes, at rest it only pulls towards the target |
| PairGate.CycleTorques | src/open_sprite_runtime/ankle_pair_commissioning.py:735-785 | The requests of a cycle are the mapped joint torques towards a target within the checked excursion of the starting pose (on one side of it in the one-sided tier), each joint torque within its limit; which poses and requests raise |
| PairGate.TargetIsSlow | src/open_sprite_runtime/ankle_pair_commissioning.py:663-690 | The joint target of the direction gate moves at most two excursions per second |
| PairGate.Hold | src/open_sprite_runtime/ankle_pair_commissioning.py:441-502 | The powered interval sends only guarded frames, each at the position its motor last reported, wherever the writer raises; a torque frame asks for its motor's share of the joint law at what both motors reported when the cycle began, in a pose near the start; its counters count what was exchanged and its extremes were reported |
| PairGate.Close | src/open_sprite_runtime/ankle_pair_commissioning.py:505-531 | The closing block cannot be left by a raising writer: three attempts per motor are made, and no error means both read disabled |
| PairGate.RunGate | src/open_sprite_runtime/ankle_pair_commissioning.py:345-554 | Every gate run, wherever the writer raises, has a safe trace that keeps to the joint law, and a truthful report; without an error the direction gate saw the pitch respond by 2 mrad each way it asks for |
| PairGate.PassedMeansDisabled | src/open_sprite_runtime/ankle_pair_commissioning.py:98-108 | A passed report means both motors were probed, enabled once, served at least 95% of the expected cycles, and last said disabled |
| CatchUp.BusSender.Pass | src/open_sprite_runtime/full_body_probe.py:163-187 | One wake-up: at most sixteen polls, the specified new schedule, the next poll strictly later, and round-robin order kept |
| CatchUp.RateBound | src/open_sprite_runtime/full_body_probe.py:158-187 | Over every nondecreasing sequence of wake-ups at most one poll per elapsed slot plus one is sent |
| CatchUp.NothingDropped | src/open_sprite_runtime/full_body_probe.py:158-187 | While wake-ups are at most sixteen slots apart that bound is met exactly |
| CatchUp.RoundRobinCounts | src/open_sprite_runtime/full_body_probe.py:165-180 | In a round robin the motors before the next one are exactly one poll ahead of the others |
| CatchUp.PollsDifferByAtMostOne | src/open_sprite_runtime/full_body_probe.py:165-180 | In every state of a bus sender the polls of any two of its motors differ by at most one |
| CatchUp.Serve | src/open_sprite_runtime/full_body_probe.py:151-189 | The event loop over all buses puts every sender where the run of wake-ups puts it, within the rate bound |

## Left out

- MotorCommand.BoundedModeConverges: gives a sufficient floor, not the exact set of commands on which the limiting loop converges, which depends on every rounding of thirty-two iterations.
- PolicyIpc.StateCrosses: and the other round trips between actor and controller speak of numbers the double format can hold exactly, which those the program holds are; the rounding of computed numbers is bounded only in the IMU packets.
- RunSafety.NothingAlarmingHeard: speaks of what a reply carries; the filtered temperatures are the controller's own and appear only in `NativeMotor.FaultWhen` and `NativeMotor.Motor.AcceptReply`.
- RunSafety.StateToldIsReported: says what every state message carries and when it may come, not that one comes in every forty-slot frame.
- PairTrace.BothAnswersInsideWhen: is about the probing all gates share; the direction gate also tests its pitch extremes, which can only refuse more runs.
- Floating-point rounding, NaN and infinities: the finiteness tests are vacuous over exact reals.
- The actor network: an arbitrary answer at every tick.
- Sockets, CAN drivers, SPI, GPIO, threads, affinity, signals and sleeping: replaced by arbitrary inputs and outcomes.
- Configuration parsing (TSV, JSON, command line) and report writing: only the tests on the parsed values that the properties need are modelled.
- The temperature filter's exponential is a gain parameter; the torque RMS monitor and the diagnostic maxima that decide nothing are omitted.
- The measured-pose hold and zero-gain shadow modes of the controller: smaller instances of the protected run.
- The SPIMU002 encoder of the software fusion service: the validator handles its packets, the encoder repeats the ICM one without the change of frame.
- Register configuration of the IMU chips, heading and command schedules, hardware and contract checklists.
- The formulas of the differential pair map and of the joint-to-motor mapping: motor_mapping.py is not part of this model, the maps are parameters.
- The completion handshake after the last target (native/src/policy_state_ipc.hpp:115-132) and the client thread around the IMU validator.
- Interrupting the closing block of a gate between writer calls (a keyboard interrupt during a sleep): only the writer may raise.
