# Actuator control core: a verified model

This project models, in Dafny, the hardware-free control core of the robot's STM32
actuator firmware, the host's side of its framing and of the lift's wire, and one
mesh-labelling routine, and proves properties of that model. Run
`dafny verify dfyconfig.toml` in this directory to verify all of it.

The core receives time as wrapping 32-bit readings and takes no input or output of its own.
Each stateful part is a class whose fields are the firmware struct's fields. Its methods are
proved against specification functions on plain values, and the theorems are lemmas about
those functions over whole runs. `Words` fixes the wrapping arithmetic and relates readings to an
unbounded clock.

| modules | part |
|---|---|
| Words, Division, Optional, Lerp | 32-bit words and ticks; quotients; optional values; truncating interpolation |
| StreamContract, StreamWire, StreamSession, StreamExecutor, StreamLaws, StreamTiming, StreamRuns, StreamEndings, StreamJoins, StreamExamples, StreamSafety | trajectory streaming, version 2 |
| SharedBus, BusRouter, BusSchedule, MotorPackets | bus ownership, arbitration, periodic schedule, motor frames |
| MobileOutput, OutputRuns, OutputLatch, OutputLaws, OutputPolls, OutputEpisodes, OutputCalm, OutputDeadline, OutputExample | the output that ties supervisor, lift, schedule and router together; its polls, its stop latch and its deadlines |
| SystemStop, StopEvidence, StopExample | the whole-system stop and what its confirmation proves |
| MobileSupervisor, SupervisorLaws, MobileWire, MobileEndpoint, MobileFramed, MobileStatus | supervision of the base, its codec and parser, and the status the host reads |
| LiftController, LiftEvidence, LiftLaws, LiftEndpoint, LeaseLaws, LiftWire | the lift column, its command channel, and both ends of its wire |
| Crc32c, Cobs, Protocol, FrameLaws | checksum, stuffing, frames and the stream parser |
| BootCounter | the two-slot boot counter |
| SetpointQueue, BufferedExecutor, BufferedLaws, BufferedRuns, BufferedRoute | trajectory buffering, version 1 |
| JointUnwrap, GoalMap | encoder arithmetic |
| TriangleLabels, TriangleMesh | connected components of a triangle mesh |

The main results:

- **Rate bound** (`StreamRuns`, `StreamJoins`). In every run of appends, splices and steps
  on the 5 ms timeline, consecutive poses stay within the policy's step bound, provided each
  accepted batch is smooth; an append to a nonempty queue always is. The firmware accepts
  batches that are not: onto an emptied queue the continuity check is skipped, and a splice
  is checked at its own tick only. `StreamExamples` has such runs, from open on, and
  `SmoothIsExact` shows that smoothness is exactly the condition, for every accepted batch;
  `ResumeIsBoundedIff` gives it in closed form for the emptied queue.
- **Endings and conservation** (`StreamRuns`, `StreamEndings`, `StreamSafety`): however a run
  was fed, it succeeds on the control tick of its horizon, or runs dry on the tick after its
  tail, or holds when its command times out, and each exactly then, with every accepted
  setpoint applied or replaced by a splice.
- **Deadline transfer** (`OutputDeadline`). A completed nonzero wheel or lift packet has
  ended before the valid-until time of an accepted message or lease, across supervisor,
  output, router, bus budget and two clocks. `OutputExample` shows a run that does move.
- **Stop latch and all-or-nothing rearm** (`OutputLatch`): nothing but stops leaves a closed
  output; and a stop does leave (`BusRouter.StopGoesFirst`, `StopEvidence.QueuedStopGoesOut`,
  `OutputPolls.StoppingPollSendsStop`). `OutputPolls.PollIsExact` says exactly when a poll
  stops and what it queues otherwise.
- **Evidence-based stop confirmation** (`StopEvidence`), in both directions; `StopExample` is
  a run that is confirmed.
- **Parser refinements** (`MobileEndpoint`, `MobileFramed`, `Protocol`): among them, host and
  controller read the same frames from any stream of bytes.
- **Two ends of one wire** (`LiftWire`, `MobileStatus`, `StreamWire`): the host believes
  exactly what the lift endpoint did and holds and what the supervisor is ready for, and the
  controller decodes exactly the stream payloads the host encodes.
- **Crash-safe boot identities** (`BootCounter`), **union-find** (`TriangleLabels`),
  **burst detection** (`Crc32c`), **unique unwrapping** (`JointUnwrap`), **lift truth and
  evidence** (`LiftEvidence`), **bus timing and fairness** (`BusSchedule`, `BusRouter`),
  **a trajectory applied on its own ticks** (`BufferedLaws`), **a ring buffer that is a queue
  and a dry run that is dry** (`SetpointQueue`, `BufferedRoute`).

The modules named `...Laws`, and the lemmas named `...IsExact`, state for each operation when it
accepts, what it then does and what a refusal leaves, in terms of fields and of parts that
have laws of their own.

Hypotheses the run theorems carry, and why:

- Streaming: sample ticks lie within 2^31 ms of the start (`InSpan`), because the
  transition check bounds only the last sample's lead; the pose of the
  command-timeout stop is not part of the rate bound, because it is the anchor again
  (`TimeoutStopSpringsBack`; `TimeoutStopIff` says when it keeps the bound); a splice, or a
  batch onto an empty queue, is offered no earlier than the last control step, and a splice
  falls due on a later control tick than what it keeps (`OfferedInTime`); `SharedTickIsLate`
  says what happens otherwise.
- `MotionEndsInTime`: time moves forward, the output is polled at least every 2^30
  microseconds, only the output queues wheel and lift work, a lift that is bound leases for
  at most a second, and no running lease is left unexamined for 2^31 ms past its end
  (`Regular`); beyond these the 32-bit clocks wrap unseen. Both clocks read one source.
- `OnlyStopUntilRearm`: the router is resumed only by a rearm.
- `CountsAreTrue`: the shaft moves at most the configured step between samples taken.
- `IdentitiesNeverRepeat`: a cut write leaves the old bytes, erased bytes, the whole new
  record, or bytes that are no record.

## Model

| member | source | states |
|---|---|---|
| Words.AfterIsTrueOrder | firmware/stm32_actuator/src/stream_executor_v2.c:5-11 | the signed 32-bit comparison of two wrapped readings is the true order of any two instants less than half a word apart |
| Words.SubWrap | firmware/stm32_actuator/src/stream_executor_v2.c:13-22 | unsigned subtraction of wrapped readings is the true elapsed time below one word |
| Words.ReadBytes32 | firmware/stm32_actuator/src/protocol.c:19-35 | a 32-bit word written little-endian at any offset is read back from it |
| Lerp.InterpolateExact | firmware/stm32_actuator/src/stream_session_v2.c:35-72 | the 64-bit product, truncating quotient and narrowing cast give the exact interpolated value, no wrap showing, while the joint moves at most 2^31 or the elapsed time is at most 2^31 |
| Lerp.ExactBetween | firmware/stm32_actuator/src/stream_session_v2.c:35-72 | an interpolated value lies between its end points and meets them at the ends |
| Lerp.ExactStep | firmware/stm32_actuator/src/stream_executor_v2.c:391-414 | advancing the elapsed time by c moves a truncated interpolation by at most k when the segment moves at most k per c |
| StreamContract.PolicyDecode | firmware/stm32_actuator/src/stream_contract_v2.c:31-66 | decodes exactly the policy the byte layout spells, rejecting lengths and reserved bytes |
| StreamContract.PolicyValidate | firmware/stm32_actuator/src/stream_contract_v2.c:68-126 | returns the first violated rule of the policy against the hard caps, or acceptance |
| StreamContract.CapsPositive | firmware/stm32_actuator/src/stream_contract_v2.c:68-126 | an accepted policy has positive step bounds and tracking limits, within the caps |
| StreamContract.BatchDecode | firmware/stm32_actuator/src/stream_contract_v2.c:128-192 | decodes exactly the batch the payload spells, or the first error |
| StreamContract.DecodedBatchIsOrdered | firmware/stm32_actuator/src/stream_contract_v2.c:128-192 | a decoded batch is nonempty, within the wire limit, starts at its announced tick, is strictly later sample by sample, and carries a splice tick exactly when it is a splice |
| StreamContract.BatchValidateTransition | firmware/stm32_actuator/src/stream_contract_v2.c:194-302 | returns the first violated transition rule (lead, arbiter epoch, horizon, per-joint step over the gap), or acceptance |
| StreamWire.PolicyIsDecoded | ros2_ws/src/so101_arm_bridge/so101_arm_bridge/stream_protocol_v2.py:405-433 | the controller decodes from the host's encoding of a policy exactly that policy |
| StreamWire.PolicyIsCanonical | firmware/stm32_actuator/src/stream_contract_v2.c:31-66 | a policy payload the controller decodes is the host's encoding of what it decodes to |
| StreamWire.AcceptedPoliciesAreExactly | ros2_ws/src/so101_arm_bridge/so101_arm_bridge/stream_protocol_v2.py:346-402 | the controller accepts exactly the policies within the bounds the host checks, given the same caps |
| StreamWire.BatchIsDecoded | ros2_ws/src/so101_arm_bridge/so101_arm_bridge/stream_protocol_v2.py:454-498 | the controller decodes from the host's encoding of a batch exactly that batch |
| StreamWire.BatchIsCanonical | firmware/stm32_actuator/src/stream_contract_v2.c:128-192 | a batch payload the controller decodes is the host's encoding of what it decodes to |
| StreamWire.AcceptedBatchesAreExactly | firmware/stm32_actuator/src/stream_contract_v2.c:194-302 | a decoded batch passes the transition check exactly when its lead, epoch, horizon and per-joint steps over the gaps keep the policy |
| StreamWire.PolicyRefusalsAreTrue | firmware/stm32_actuator/src/stream_contract_v2.c:31-126 | a refused policy is told a rule it breaks |
| StreamWire.DecodeRefusalsAreTrue | firmware/stm32_actuator/src/stream_contract_v2.c:128-192 | so is a batch that does not decode |
| StreamWire.TransitionRefusalsAreTrue | firmware/stm32_actuator/src/stream_contract_v2.c:194-302 | so is one that does not follow |
| StreamWire.OffersAreExact | firmware/stm32_actuator/src/stream_session_v2.c:118-215 | what an offered payload does to the session and what is reported, in every case: not open, not decoded, no position at the splice tick, the transition rule violated, no room, or the queue that follows |
| StreamSession.Session.Open | firmware/stm32_actuator/src/stream_session_v2.c:80-116 | opens the session on an accepted policy and clears its queue; any refusal leaves it unchanged |
| StreamSession.Session.InterpolatePosition | firmware/stm32_actuator/src/stream_session_v2.c:35-72 | finds the position the queued samples pass through at a splice tick, or that none covers it |
| StreamSession.Session.Batch | firmware/stm32_actuator/src/stream_session_v2.c:118-215 | the new session state and the result are those of the admission function: decode, lead, join, capacity, then append or splice in place |
| StreamSession.Session.ConsumeFirst | firmware/stm32_actuator/src/stream_executor_v2.c:78-92 | drops exactly the first sample and shifts the rest down |
| StreamSession.RejectedLeavesSession | firmware/stm32_actuator/src/stream_session_v2.c:118-215 | a batch that is not accepted leaves the whole session, queue included, unchanged |
| StreamSession.QueueStaysBounded | firmware/stm32_actuator/src/stream_session_v2.c:192-214 | an accepted batch never makes the queue longer than its array |
| StreamSession.CountBeforeSplits | firmware/stm32_actuator/src/stream_session_v2.c:185-194 | on an ordered queue the samples a splice keeps are exactly those before the splice tick |
| StreamSession.PositionIsExact | firmware/stm32_actuator/src/stream_session_v2.c:35-72 | on a queue ordered within half a word there is a position exactly from the first setpoint's tick to the last's; on a setpoint's tick it is that setpoint's, and strictly between two neighbours it lies for each joint on the line from one to the other, cut towards zero, in proportion to the true tick offsets |
| StreamSession.SpliceJoinsPath | firmware/stm32_actuator/src/stream_session_v2.c:137-183 | an accepted splice starts at its own tick within one step, joint by joint, of that position of the queue it cuts into |
| StreamExecutor.StreamExecutor.Open | firmware/stm32_actuator/src/stream_executor_v2.c:122-157 | opens a fresh priming run on an accepted policy; otherwise only the verdict is recorded |
| StreamExecutor.StreamExecutor.Admit | firmware/stm32_actuator/src/stream_executor_v2.c:159-240 | admits a batch with the continuity check to the queue tail and the joint limits before the session offer; a refusal changes nothing but the verdict |
| StreamExecutor.StreamExecutor.Start | firmware/stm32_actuator/src/stream_executor_v2.c:242-291 | starts on the control timeline when the pose is within limits and close enough to the first setpoint |
| StreamExecutor.StreamExecutor.Step | firmware/stm32_actuator/src/stream_executor_v2.c:293-415 | one control step: timeline checks, command timeout, underflow, applying the due head with its lateness, or interpolating; state, result and output as specified |
| StreamLaws.OpeningIsExact | firmware/stm32_actuator/src/stream_executor_v2.c:122-157 | opening succeeds exactly in a state that is not running and on a policy the contract accepts, and then starts a fresh run; otherwise only the recorded verdict changes |
| StreamLaws.AdmissionIsExact | firmware/stm32_actuator/src/stream_executor_v2.c:159-240 | a batch is admitted exactly while the executor primes or runs, when the session accepts it, its samples are within the limits and, appended to a nonempty queue, it continues from the tail within the step bound; the queue, counters and command time that follow |
| StreamLaws.StartIsExact | firmware/stm32_actuator/src/stream_executor_v2.c:242-291 | a start is granted exactly to a priming run with enough setpoints, the first still ahead, from a pose within the limits and within as many steps of it as there are control ticks until then; a refusal changes nothing |
| StreamLaws.StepsGoForward | firmware/stm32_actuator/src/stream_executor_v2.c:293-324 | a priming run waits and a finished one refuses; a step back in time aborts the run, its timeline being invalid, with the safe stop; any other is noted as the last |
| StreamLaws.LateStepsAreExact | firmware/stm32_actuator/src/stream_executor_v2.c:355-389 | the head is applied exactly when due and no later than the policy allows, and its lateness and the histogram recorded; later it aborts the run with the safe stop |
| StreamTiming.FirstControlTickIsDue | firmware/stm32_actuator/src/stream_executor_v2.c:13-22 | snapping to the control timeline is the true ceiling: never early and less than one control period late |
| StreamTiming.SegmentStep | firmware/stm32_actuator/src/stream_executor_v2.c:391-414 | one control tick along a snapped segment moves each joint by at most its step bound, despite truncating division |
| StreamTiming.SegmentReach | firmware/stm32_actuator/src/stream_executor_v2.c:391-414 | while the end of a segment is within the step bound times the ticks left, the next tick moves each joint by at most its step bound and leaves the end within reach, however the segment as a whole was set |
| StreamTiming.StartPaces | firmware/stm32_actuator/src/stream_executor_v2.c:242-291 | an accepted start puts the run on pace: anchored, spaced, its head within reach, at tick zero |
| StreamTiming.TimedBetween | firmware/stm32_actuator/src/stream_executor_v2.c:391-414 | before the head is due a step of any run on its timeline emits the segment's pose and changes nothing else |
| StreamTiming.TimedOnto | firmware/stm32_actuator/src/stream_executor_v2.c:355-389 | on its due tick the head is applied with no lateness and becomes the anchor; the run goes on, or succeeds at the horizon |
| StreamTiming.StepBetween | firmware/stm32_actuator/src/stream_executor_v2.c:391-414 | before the head is due a paced step interpolates, stays on pace and within the step bound |
| StreamTiming.StepOnto | firmware/stm32_actuator/src/stream_executor_v2.c:355-389 | the head of a paced run, on its due tick, is within the step bound of the last pose, and the run goes on pace towards the next |
| StreamTiming.StepIdle | firmware/stm32_actuator/src/stream_executor_v2.c:340-353 | with nothing queued an open-ended run holds its pose |
| StreamTiming.StepKeepsPace | firmware/stm32_actuator/src/stream_executor_v2.c:293-415 | every step of a paced run emits a pose within the step bound and stays on pace, or ends without output, or is the command timeout |
| StreamTiming.SafeMeansReach | firmware/stm32_actuator/src/stream_executor_v2.c:391-414 | for a run that stands at its anchor, the closed form of near enough is exactly what reaching the head takes |
| StreamTiming.AnchoredReaches | firmware/stm32_actuator/src/stream_executor_v2.c:355-414 | a run on its anchor's tick reaches the head exactly when the two fit the step bound in the ticks between them |
| StreamTiming.AcceptedShape | firmware/stm32_actuator/src/stream_executor_v2.c:159-240 | an accepted batch is chained in itself, ahead of the clock, stands behind the setpoints it keeps, and continues from the tail if it was appended |
| StreamTiming.AppendKeepsChain | firmware/stm32_actuator/src/stream_executor_v2.c:190-240 | an accepted append puts the decoded batch behind the queue and the longer queue still meets the step bound between all neighbours |
| StreamRuns.SmoothRunIsRateBounded | firmware/stm32_actuator/src/stream_executor_v2.c:159-415 | in any run of appends, splices and control steps whose accepted batches are smooth, consecutive poses, the start pose included, differ per joint by at most the policy step |
| StreamRuns.AppendOnlyRunIsRateBounded | firmware/stm32_actuator/src/stream_executor_v2.c:159-415 | so a run that only appends, with no batch accepted onto an empty queue after the start, keeps the step bound whatever its batches |
| StreamRuns.PacedRunIsRateBounded | firmware/stm32_actuator/src/stream_executor_v2.c:159-415 | the same from any state on pace, by induction over the run |
| StreamRuns.SmoothMeansPaced | firmware/stm32_actuator/src/stream_executor_v2.c:159-240 | an accepted batch leaves a paced run on pace exactly when it is smooth |
| StreamRuns.AppendsAreSmooth | firmware/stm32_actuator/src/stream_executor_v2.c:190-220 | appending to a nonempty queue is always smooth: the continuity check sees to it |
| StreamRuns.LaunchIsPaced | firmware/stm32_actuator/src/stream_executor_v2.c:122-291 | open, any sequence of primes and an accepted start give a paced run whose accepted count is its queue |
| StreamRuns.OfferKeepsTimed | firmware/stm32_actuator/src/stream_executor_v2.c:159-240 | an accepted batch keeps the timeline: what it keeps stays in front, what it adds is still ahead and falls due in order |
| StreamRuns.HorizonRunCompletes | firmware/stm32_actuator/src/stream_executor_v2.c:293-415 | a run whose tail is at its horizon succeeds after exactly ceil((horizon - start)/5) steps and not before, having applied every accepted setpoint once, in order, with no lateness |
| StreamRuns.TimedRunCompletes | firmware/stm32_actuator/src/stream_executor_v2.c:355-415 | the same from any control tick of such a run |
| StreamRuns.FedRunCompletes | firmware/stm32_actuator/src/stream_executor_v2.c:159-415 | however a run was fed by appends and splices, once its tail is at the horizon and nothing more is accepted, it runs on for exactly the control ticks left and then succeeds with accepted = applied + removed and no lateness, whatever refused offers come between |
| StreamRuns.RejectedOfferLeavesRun | firmware/stm32_actuator/src/stream_executor_v2.c:159-240 | a refused batch changes nothing but the recorded verdict |
| StreamEndings.StepEndings | firmware/stm32_actuator/src/stream_executor_v2.c:326-353 | a run on its timeline aborts in a step exactly when its horizon is nonzero and its queue is empty, with no output, reason underflow and the safe stop requested; it succeeds exactly when that step applies its horizon's setpoint; it holds exactly when an open-ended run's command has timed out, with the safe stop requested and its anchor emitted; otherwise it runs on |
| StreamEndings.RunDriesUp | firmware/stm32_actuator/src/stream_executor_v2.c:340-347 | with nothing more accepted, a finite-horizon run whose tail falls short of its horizon aborts on exactly the control tick after its tail's, and not before, everything accepted having been applied or replaced |
| StreamEndings.FedRunDriesUp | firmware/stm32_actuator/src/stream_executor_v2.c:159-415 | the same from open on, however the run was primed and fed by appends and splices before |
| StreamEndings.RunHoldsInSilence | firmware/stm32_actuator/src/stream_executor_v2.c:326-338 | with nothing more accepted, an open-ended run goes on for exactly the control ticks its command timeout allows and then holds with the safe stop requested |
| StreamEndings.FedRunHoldsInSilence | firmware/stm32_actuator/src/stream_executor_v2.c:159-415 | the same from open on, however the run was fed before |
| StreamJoins.PaceIsExact | firmware/stm32_actuator/src/stream_executor_v2.c:293-415 | stepped through its whole queue without a command timeout, a run on its timeline keeps the step bound exactly when it is on pace |
| StreamJoins.SmoothIsExact | firmware/stm32_actuator/src/stream_executor_v2.c:159-415 | after any batch accepted in time by a paced run, appended or spliced, the run through its new queue keeps the step bound exactly when the batch is smooth |
| StreamJoins.ResumeIsBoundedIff | firmware/stm32_actuator/src/stream_executor_v2.c:190-220 | after a batch accepted onto the empty queue of a paced run, with no command timeout before its head, all poses up to and including the head keep the step bound exactly when every joint is near enough: with the head n ticks and the next tick m ticks after the anchor, distance <= step n if m = 1, else distance m < (step + 1) n |
| StreamJoins.ReachIsExact | firmware/stm32_actuator/src/stream_executor_v2.c:355-414 | a run on its timeline keeps the step bound up to its head exactly when the next pose is within it and the head within reach from there |
| StreamJoins.OutputsReachHead | firmware/stm32_actuator/src/stream_executor_v2.c:355-414 | stepped up to its head, such a run emits one pose per tick, first the segment's next pose, last the head's position |
| StreamJoins.StepsOntoHead | firmware/stm32_actuator/src/stream_executor_v2.c:355-389 | stepped up to its head without a command timeout, a run on its timeline applies it and stands there |
| StreamJoins.RateBoundedTravels | firmware/stm32_actuator/src/stream_executor_v2.c:391-414 | poses within the step bound of each other get no further than that many steps |
| StreamJoins.SharedTickIsLate | firmware/stm32_actuator/src/stream_executor_v2.c:357-367 | a setpoint that shares its control tick with the one just applied is found one control period late by the next step: the run aborts if the policy allows less, else it is applied and the lateness recorded |
| StreamJoins.TimeoutStopIff | firmware/stm32_actuator/src/stream_executor_v2.c:326-338 | the command-timeout stop emits the anchor again; m ticks into a segment of n that is within the step bound of the last pose exactly when distance m < (step + 1) n for every joint; it asks for the safe stop |
| StreamJoins.SpliceOrSharesTick | firmware/stm32_actuator/src/stream_session_v2.c:185-194 | an accepted splice falls due no earlier than the setpoints it keeps, so sharing a control tick is the only way for it to be out of order |
| StreamExamples.EmptyQueueResumeJumps | firmware/stm32_actuator/src/stream_executor_v2.c:190-220 | a run from open, prime and start, stepped until its queue is empty, accepts a batch that moves the next pose 0.2 rad in one tick against a bound of 0.009: the continuity check needs a nonempty queue |
| StreamExamples.EmptyQueueResumeArrivesLate | firmware/stm32_actuator/src/stream_executor_v2.c:190-220 | the same run accepts a batch whose first pose keeps the bound and whose head, four ticks on, breaks it by one |
| StreamExamples.TimeoutStopSpringsBack | firmware/stm32_actuator/src/stream_executor_v2.c:326-338 | a started run that hears nothing for 100 ms springs back to its anchor: 0.18 rad in one tick against a bound of 0.009 |
| StreamExamples.SpliceBreaksBound | firmware/stm32_actuator/src/stream_contract_v2.c:293-301 | a started run accepts a splice one step away from what it replaces and must then move 9112 microradians a tick against a bound of 9000: a splice is checked at its own tick only |
| StreamSafety.EveryPoseIsWithinLimits | firmware/stm32_actuator/src/stream_executor_v2.c:24-36 | from initialisation on, under any opens, appends, splices, starts, steps and timeouts at any times, every emitted pose lies inside the joint limits (ranges up to 2^31) |
| StreamSafety.SetpointsAreConserved | firmware/stm32_actuator/src/stream_executor_v2.c:38-92 | in every such run accepted = applied + queued + removed by splice, in the counters' arithmetic, and the queue fits its array |
| StreamSafety.AcceptedQueue | firmware/stm32_actuator/src/stream_executor_v2.c:159-240 | an accepted batch is within the limits and extends the queue by exactly its samples |
| StreamSafety.StepCounts | firmware/stm32_actuator/src/stream_executor_v2.c:355-389 | a step leaves the counts alone or applies exactly the front setpoint |
| SharedBus.Bus.Poll | firmware/stm32_actuator/src/shared_bus.c:11-17 | a transaction that has used its budget faults the bus and asks for a stop |
| SharedBus.Bus.Acquire | firmware/stm32_actuator/src/shared_bus.c:18-41 | grants the bus under a new token only when it is idle, healthy and the budget fits; the last token faults instead |
| SharedBus.Bus.Complete | firmware/stm32_actuator/src/shared_bus.c:42-55 | accepts a completion only for the owning token, before the budget is used and with good transport |
| SharedBus.Bus.Recover | firmware/stm32_actuator/src/shared_bus.c:56-63 | clears a fault only with the UART idle and leaves a stop pending |
| SharedBus.CompletionIsWithinBudget | firmware/stm32_actuator/src/shared_bus.c:42-55 | an accepted completion is of an active, unfaulted transaction under its token, strictly inside its budget |
| SharedBus.GrantIsFresh | firmware/stm32_actuator/src/shared_bus.c:18-41 | every grant takes the next token; nothing else changes it |
| SharedBus.GrantIsExact | firmware/stm32_actuator/src/shared_bus.c:18-41 | ownership is granted exactly to an idle, healthy bus with a token left for a legal budget, to a stop always, to other work only with no stop pending and within the window; nothing else changes the bus but the fault of an overrun or a last token |
| SharedBus.CompletionIsExact | firmware/stm32_actuator/src/shared_bus.c:42-55 | the owner's completion, in time and well transported, frees the bus and answers a pending stop; the owner's, failed or late, faults it; anyone else's changes nothing but an overrun |
| SharedBus.RecoveryIsExact | firmware/stm32_actuator/src/shared_bus.c:56-63 | recovery takes a fault, an idle UART and a token left, and leaves the stop pending |
| BusRouter.Router.Submit | firmware/stm32_actuator/src/bus_router.c:4-18 | queues a well-formed job in its slot; a stop inhibits the router and withdraws all motion |
| BusRouter.Router.TakeNext | firmware/stm32_actuator/src/bus_router.c:19-42 | stop first, then round robin; expired jobs are dropped with a latch; the first job the bus grants is dispatched |
| BusRouter.Router.Complete | firmware/stm32_actuator/src/bus_router.c:43-49 | records the receipt of an accepted completion |
| BusRouter.Router.Resume | firmware/stm32_actuator/src/bus_router.c:51-54 | lifts the inhibition only when confirmed, idle, unfaulted and with no stop outstanding |
| BusRouter.DispatchIsSound | firmware/stm32_actuator/src/bus_router.c:19-42 | a dispatched packet is a pending, unexpired job handed over unchanged under the next token with its own budget; other jobs keep their contents or are withdrawn |
| BusRouter.InhibitedDispatchesStopOnly | firmware/stm32_actuator/src/bus_router.c:19-42 | an inhibited router hands over nothing but stops and stays inhibited |
| BusRouter.NextFavours | firmware/stm32_actuator/src/bus_router.c:19-42 | each turn either serves a waiting job or brings it strictly nearer the front |
| BusRouter.WaitIsBounded | firmware/stm32_actuator/src/bus_router.c:19-42 | a pending, fitting, unexpired job waits for at most three other dispatches, the number of work kinds less two |
| BusRouter.OthersKeepCursor | firmware/stm32_actuator/src/bus_router.c:4-54 | nothing but a dispatch moves the rotation |
| BusRouter.TurnIsExact | firmware/stm32_actuator/src/bus_router.c:19-42 | one turn of a free router, in every case: it passes over what is not pending, inhibited or not grantable, and ends at the first job in order that is too late, which inhibits the router, or is sent with its own bytes, budget and the next token |
| BusRouter.StopGoesFirst | firmware/stm32_actuator/src/bus_router.c:26-39 | on an idle, healthy bus with a token left, a pending stop whose budget fits before its deadline is what the turn sends, whatever the cursor, inhibition, pending-stop flag, window or other jobs; and no stop is sent otherwise |
| BusRouter.ReceiptsAreExact | firmware/stm32_actuator/src/bus_router.c:43-54 | a transfer leaves a receipt exactly when the healthy bus's owner completes it in time and well transported; the inhibition is lifted exactly on confirmation with nothing on the bus, no fault and no stop pending or queued |
| BusRouter.SubmitIsExact | firmware/stm32_actuator/src/bus_router.c:4-18 | a job enters its slot exactly when it is well formed and the bus healthy and, unless it is a stop, open; a stop withdraws all motion and closes the router; a refusal changes nothing but an overrun |
| BusSchedule.Schedule.Poll | firmware/stm32_actuator/src/bus_schedule.c:17-38 | advances phase and countdowns by the elapsed time and reports the open window and due bits, or faults on a late poll |
| BusSchedule.PhaseIsTrue | firmware/stm32_actuator/src/bus_schedule.c:17-38 | polled at most the gap apart, across any number of clock wraps, the phase is (now - epoch) mod period |
| BusSchedule.WindowKeepsGuard | firmware/stm32_actuator/src/bus_schedule.c:17-38 | work that fits the reported window ends at least the guard time before the next arm slot |
| BusSchedule.DueBitsArePeriodApart | firmware/stm32_actuator/src/bus_schedule.c:17-38 | two due bits of one kind are at least its period apart |
| BusSchedule.WindowIsExact | firmware/stm32_actuator/src/bus_schedule.c:17-38 | in true time, the window is open exactly between the arm's reserved time and the guard before the next slot, and is then what is left before that guard |
| BusSchedule.LatePollFaults | firmware/stm32_actuator/src/bus_schedule.c:17-38 | a poll later than the gap faults the plan for good; no other poll does |
| BusSchedule.DueBitsAreExact | firmware/stm32_actuator/src/bus_schedule.c:17-38 | after a due bit and none of its kind since, the next open window reports one exactly when its period has passed |
| BusSchedule.FirstDueBits | firmware/stm32_actuator/src/bus_schedule.c:4-38 | the first due bit of each kind comes in the first open window |
| Crc32c.Compute | firmware/stm32_actuator/src/crc32c.c:3-16 | the bitwise loop computes the checksum function |
| Crc32c.BurstIsDetected | firmware/stm32_actuator/src/crc32c.c:3-16 | two equal-length messages that differ only within four consecutive bytes have different checksums (section 12.1 of RFC 3720) |
| Crc32c.ShiftIsInjective | firmware/stm32_actuator/src/crc32c.c:3-16 | one bit step of the register loses nothing |
| Crc32c.AbsorbIsInjective | firmware/stm32_actuator/src/crc32c.c:3-16 | absorbing a given suffix maps different registers to different registers |
| Crc32c.CheckValue | firmware/stm32_actuator/src/crc32c.c:3-16 | the checksum of the nine ASCII digits 1 to 9 is 0xE3069283, the check value of CRC-32C, which fixes polynomial, start value and complement |
| MobileSupervisor.MobileSupervisorObject.Poll | firmware/stm32_actuator/src/mobile_supervisor.c:93-106 | latches a stop on stale or unhealthy feedback, a lift outside or pushing against its limit, or an expired command |
| MobileSupervisor.MobileSupervisorObject.Observe | firmware/stm32_actuator/src/mobile_supervisor.c:42-61 | takes only fresh, newer, in-range feedback |
| MobileSupervisor.MobileSupervisorObject.Arm | firmware/stm32_actuator/src/mobile_supervisor.c:79-92 | a strictly newer session, from a stopped state, on measured rest |
| MobileSupervisor.MobileSupervisorObject.Command | firmware/stm32_actuator/src/mobile_supervisor.c:107-130 | a newer sequence number in the armed session, within every axis limit and not against the lift limit |
| MobileSupervisor.MobileSupervisorObject.CommandUntil | firmware/stm32_actuator/src/mobile_supervisor.c:131-142 | the same for the remaining life of the host deadline |
| MobileSupervisor.MobileSupervisorObject.IsMeasuredStopped | firmware/stm32_actuator/src/mobile_supervisor.c:68-78 | true exactly on fresh, healthy feedback with the lift inside and every axis slow |
| MobileSupervisor.RunIsSafe | firmware/stm32_actuator/src/mobile_supervisor.c:5-145 | in every run a nonzero target exists only while a command is active and within each axis limit |
| MobileSupervisor.PolledActiveIsCurrent | firmware/stm32_actuator/src/mobile_supervisor.c:93-106 | after any poll ACTIVE means an unexpired command with fresh, healthy feedback |
| MobileSupervisor.AcceptedNumbersIncrease | firmware/stm32_actuator/src/mobile_supervisor.c:107-145 | over every run the (session, sequence) numbers of accepted VELOCITY and STOP frames strictly increase |
| SupervisorLaws.WatchIsExact | firmware/stm32_actuator/src/mobile_supervisor.c:5-21 | watching latches a stop exactly for doubtful feedback, a lift outside or driven against its end, or an overdue command, under the first of these reasons |
| SupervisorLaws.FeedbackIsExact | firmware/stm32_actuator/src/mobile_supervisor.c:42-61 | feedback is taken exactly when fresh, strictly newer and in range |
| SupervisorLaws.ArmIsExact | firmware/stm32_actuator/src/mobile_supervisor.c:79-92 | a session is armed exactly when later than any before, from a disabled or stopped state, with everything measured at rest |
| SupervisorLaws.CommandIsExact | firmware/stm32_actuator/src/mobile_supervisor.c:107-130 | a command is taken exactly in the armed session under an unused number with drivable speeds, and is then the target for the timeout |
| SupervisorLaws.MessageIsExact | firmware/stm32_actuator/src/mobile_wire.c:54-74 | what each host message does, in every case, and until when |
| SupervisorLaws.HaltIsExact | firmware/stm32_actuator/src/mobile_supervisor.c:143-145 | a requested stop rests; the first stop keeps its reason |
| MobileWire.WireEncode | firmware/stm32_actuator/src/mobile_wire.c:22-34 | writes the 36-byte packet of a valid message and nothing for an invalid one |
| MobileWire.WireDecode | firmware/stm32_actuator/src/mobile_wire.c:35-53 | recovers the message of a well-formed packet with a good checksum |
| MobileWire.EncodeThenDecode | firmware/stm32_actuator/src/mobile_wire.c:22-53 | decoding inverts encoding on every valid message |
| MobileWire.DecodeThenEncode | firmware/stm32_actuator/src/mobile_wire.c:22-53 | encoding inverts decoding on every accepted packet, so no two packets mean the same |
| MobileWire.WireApply | firmware/stm32_actuator/src/mobile_wire.c:54-74 | a packet acts on the supervisor exactly as its decoded message does |
| MobileWire.MessagesAreExactly | firmware/stm32_actuator/src/mobile_wire.c:11-53 | a packet is read as a message exactly when it is the canonical bytes of a valid one |
| MobileEndpoint.Endpoint.Feed | firmware/stm32_actuator/src/mobile_endpoint.c:26-50 | one byte: buffer, resynchronisation after a bad window, reply and reject count as specified |
| MobileEndpoint.ByteTracks | firmware/stm32_actuator/src/mobile_endpoint.c:26-50 | a byte completes a window exactly when the last 36 bytes since the last reply are one; otherwise the buffer holds the longest suffix that can still become one |
| MobileEndpoint.ParserIsWindowScan | firmware/stm32_actuator/src/mobile_endpoint.c:26-50 | over any stream, cut by gaps or corrupted anywhere, the incremental parser finds exactly the windows a brute-force scan of the last 36 bytes finds |
| MobileEndpoint.RepliesMatchScan | firmware/stm32_actuator/src/mobile_endpoint.c:26-50 | the endpoint replies, with 64 bytes, after exactly those bytes, whatever the supervisor state |
| MobileFramed.FramedReply | firmware/stm32_actuator/src/mobile_framed.c:7-27 | feeds the request through a cleared parser and returns a status byte, with the reply when there is one |
| MobileFramed.OnlyLastByteReplies | firmware/stm32_actuator/src/mobile_framed.c:7-27 | of the 36 bytes of a good window only the last earns a reply |
| MobileFramed.RequestYieldsOneReply | firmware/stm32_actuator/src/mobile_framed.c:7-27 | a well-formed framed request always yields status 0 and exactly one 64-byte reply; any other a bare nonzero status and no change |
| MobileStatus.StatusIsRead | ros2_ws/src/so101_arm_bridge/so101_arm_bridge/mobile_wire.py:113-154 | the host reads from a status packet exactly the state it was made from |
| MobileStatus.WindowIsServed | firmware/stm32_actuator/src/mobile_endpoint.c:37-49 | a complete window is accepted exactly as a query without payload or as a message the supervisor takes, and a query changes nothing |
| MobileStatus.KnownKindsAreRead | ros2_ws/src/so101_arm_bridge/so101_arm_bridge/mobile_wire.py:113-154 | the reply to a code the wire knows, with or without the refusal bit, is one the host reads |
| MobileStatus.RequestIsAnswered | firmware/stm32_actuator/src/mobile_framed.c:7-27 | a well-formed framed request gets a reply the host reads, which says whether it was accepted and the state after it |
| MobileStatus.FlagsTellTheTruth | firmware/stm32_actuator/src/mobile_endpoint.c:20-22 | each status flag means what it says |
| MobileStatus.ReadinessIsBelievedTruly | ros2_ws/src/so101_arm_bridge/so101_arm_bridge/mobile_wire.py:91-111 | the host calls the base ready exactly when the supervisor, in the host's session, is ready or active with everything a motion needs |
| MobileStatus.BytesAreAccounted | firmware/stm32_actuator/src/mobile_endpoint.c:26-50 | every byte fed is buffered, part of an answered window, or counted as rejected |
| MobileStatus.RejectsAreCounted | firmware/stm32_actuator/src/mobile_endpoint.c:26-50 | the reject count goes up by exactly the bytes and windows refused |
| LiftController.LiftObject.Poll | firmware/stm32_actuator/src/lift_controller.c:38-70 | staleness, over-current, homing timeout, travel limits, the move law and the hold decision |
| LiftController.LiftObject.Observe | firmware/stm32_actuator/src/lift_controller.c:71-111 | takes a newer in-range sample, accumulates the folded encoder difference, faults on a jump, tracks contact and height |
| LiftController.LiftObject.Home | firmware/stm32_actuator/src/lift_controller.c:112-119 | homing starts only from a fresh, healthy, stationary, unhomed lift below the current limit |
| LiftController.LiftObject.Move | firmware/stm32_actuator/src/lift_controller.c:120-126 | a move starts only from a homed, ready or holding lift to a height inside the travel |
| LiftController.LiftObject.Cancel | firmware/stm32_actuator/src/lift_controller.c:127-132 | ends motion into a pending hold at the present height |
| LiftController.LiftObject.ReportZero | firmware/stm32_actuator/src/lift_controller.c:138-140 | records the time a zero packet was completed |
| LiftEvidence.CountsAreTrue | firmware/stm32_actuator/src/lift_controller.c:71-111 | while the shaft moves at most the configured step between samples taken, the accumulated count is exactly the signed true displacement |
| LiftEvidence.HeightNeverOverflows | firmware/stm32_actuator/src/lift_controller.c:94-98 | the height product never leaves 64 bits |
| LiftEvidence.OriginNeedsDwell | firmware/stm32_actuator/src/lift_controller.c:99-108 | in every run the origin is set only by an unbroken run of stopped, healthy, in-band samples spanning the dwell |
| LiftEvidence.HoldingNeedsEvidence | firmware/stm32_actuator/src/lift_controller.c:62-65 | in every run HOLDING is reported only after a zero packet was reported completed and a strictly newer stopped, hold-verified sample arrived |
| LiftEvidence.CommandsStayTame | firmware/stm32_actuator/src/lift_controller.c:38-70 | in every run the command stays within the maximum speed and is nonzero only while homing downwards or moving |
| LiftEvidence.ConfiguredIsSound | firmware/stm32_actuator/src/lift_controller.c:14-31 | an initialised lift satisfies every invariant these runs start from |
| LiftLaws.PollFaultsExactly | firmware/stm32_actuator/src/lift_controller.c:38-70 | a watched lift faults in a poll exactly for stale or unhealthy feedback, over-current, homing timeout, or a height outside the travel |
| LiftLaws.PollNamesCause | firmware/stm32_actuator/src/lift_controller.c:38-70 | under the first of these reasons |
| LiftLaws.PollGoesOn | firmware/stm32_actuator/src/lift_controller.c:38-70 | otherwise homing drives down at the homing speed, a move approaches or arrives, a pending hold settles or waits, and the rest stands |
| LiftLaws.MovesTowardsTarget | firmware/stm32_actuator/src/lift_controller.c:55-61 | a move that goes on commands a speed of the sign of target minus height, at the maximum far out, in proportion near, and none within the tolerance, where it arrives |
| LiftLaws.HeightIsTrue | firmware/stm32_actuator/src/lift_controller.c:87-98 | in every run whose shaft moves at most the configured step between samples, the height of a homed lift is the signed true displacement from home times micrometres per turn over 4096, cut towards zero |
| LiftLaws.HomeIsExact | firmware/stm32_actuator/src/lift_controller.c:112-119 | homing is granted exactly to an unhomed lift, fresh, healthy, standing and below the current limit |
| LiftLaws.MoveIsExact | firmware/stm32_actuator/src/lift_controller.c:120-126 | a move is granted exactly to a homed lift that holds or is ready, to a height inside the travel |
| LiftLaws.CancelIsExact | firmware/stm32_actuator/src/lift_controller.c:127-132 | cancelling ends motion at the present height, in a pending hold if homed |
| LiftLaws.ZeroIsExact | firmware/stm32_actuator/src/lift_controller.c:138-140 | only the first zero in a pending hold counts |
| LiftLaws.ObserveIsExact | firmware/stm32_actuator/src/lift_controller.c:71-111 | what a sample does, in every case: refused, a jump that faults, or taken in with the folded difference |
| LiftLaws.ContactIsExact | firmware/stm32_actuator/src/lift_controller.c:99-108 | while homing, a sample out of contact ends the dwell, the first in contact starts it, and one a dwell later sets the origin |
| LiftEndpoint.LiftEndpointObject.Poll | firmware/stm32_actuator/src/lift_endpoint.c:18-27 | polls the lift and ends a lease that has run out, lost its interlock or finished |
| LiftEndpoint.LiftEndpointObject.Exchange | firmware/stm32_actuator/src/lift_endpoint.c:28-64 | a request acts only on this boot, in order, with a running deadline and the interlock; the lease is taken or renewed only then |
| LiftEndpoint.LiftEndpointObject.IsInterlocked | firmware/stm32_actuator/src/lift_endpoint.c:6-9 | true exactly on fresh interlock evidence with every condition met |
| LiftEndpoint.LiftEndpointObject.Stop | firmware/stm32_actuator/src/lift_endpoint.c:14-17 | cancels the lift and drops the lease |
| LeaseLaws.LeaseEndsExactly | firmware/stm32_actuator/src/lift_endpoint.c:18-27 | a lease that has expired or lost its interlock faults the lift; one whose lift holds or has faulted ends; any other goes on |
| LeaseLaws.RequestsAreExact | firmware/stm32_actuator/src/lift_endpoint.c:28-64 | a request is granted exactly when it is for this boot, in order, in time and, by its kind, the lift and interlock allow it; what each grant does, and that a refusal changes nothing but the count |
| LeaseLaws.StopIsExact | firmware/stm32_actuator/src/lift_endpoint.c:14-17 | a stop cancels the lift and drops the lease |
| LiftWire.RequestDecode | firmware/stm32_actuator/src/lift_endpoint.c:28-34 | the request of a 36-byte packet with good header, code and checksum, with whether its spare bytes are zero |
| LiftWire.Exchange | firmware/stm32_actuator/src/lift_endpoint.c:28-64 | no reply and no effect for what is no request; otherwise the request acts and 64 bytes state the verdict and the new state |
| LiftWire.RequestRoundTrip | ros2_ws/src/so101_arm_bridge/so101_arm_bridge/lift_wire.py:23-70 | controller and host read back every request the host can build |
| LiftWire.HostReadsCanonical | ros2_ws/src/so101_arm_bridge/so101_arm_bridge/lift_wire.py:54-70 | the host, which re-encodes what it reads, reads exactly those of the controller's requests that are canonical |
| LiftWire.AcceptedIsCanonical | firmware/stm32_actuator/src/lift_endpoint.c:32-53 | a packet the controller acts on is one the host could have built |
| LiftWire.DamagedRequestIsIgnored | firmware/stm32_actuator/src/lift_endpoint.c:29-30 | a request damaged within four consecutive covered bytes is none |
| LiftWire.ReplyIsRead | ros2_ws/src/so101_arm_bridge/so101_arm_bridge/lift_wire.py:93-116 | the host reads from a reply exactly the state it was made from |
| LiftWire.RepliesTellTheTruth | firmware/stm32_actuator/src/lift_endpoint.c:28-64 | whatever happened to the endpoint since it was attached, every request gets a reply, readable by the host, that says exactly the state it is in |
| LiftWire.ClientSeesAcceptance | ros2_ws/src/so101_arm_bridge/so101_arm_bridge/lift_wire.py:134-155 | the host takes its request for granted exactly when the controller granted it |
| LiftWire.RequestsAreExactly | ros2_ws/src/so101_arm_bridge/so101_arm_bridge/lift_wire.py:49-70 | byte by byte, what the controller takes for a request, and what the host asks beyond that |
| LiftWire.RepliesAreExactly | ros2_ws/src/so101_arm_bridge/so101_arm_bridge/lift_wire.py:93-116 | byte by byte, what the host takes for a reply |
| LiftWire.FlagsTellTheTruth | firmware/stm32_actuator/src/lift_endpoint.c:54-62 | every code and flag of a reply means what it says |
| LiftWire.OnlyItsOwnReplyIsTaken | ros2_ws/src/so101_arm_bridge/so101_arm_bridge/lift_wire.py:134-155 | of all replies whatever the client takes exactly those that grant its own operation under its number, in its boot and, but for a status, its session |
| LiftWire.HoldingIsBelievedTruly | ros2_ws/src/so101_arm_bridge/so101_arm_bridge/lift_wire.py:118-124 | the host believes in a hold exactly when the controller holds a homed lift without a fault, on a recent sample, with the interlock met |
| MotorPackets.GroupSpeeds | firmware/stm32_actuator/src/motor_groups.c:38-64 | the sign-magnitude frame of a speed group, or the first rule it breaks: mode, count, range; the packet builder never refuses it |
| MotorPackets.GroupPositions | firmware/stm32_actuator/src/motor_groups.c:20-36 | the position frame of an arm, or the first rule it breaks |
| MotorPackets.BuildSyncWrite | firmware/stm32_actuator/src/sts3215_packet.c:76-129 | the frame, or the first complaint about count, register and motor numbers |
| MotorPackets.BuildsExactlyProper | firmware/stm32_actuator/src/sts3215_packet.c:92-108 | no complaint exactly for one to six distinct motor numbers and a writable register |
| MotorPackets.FrameDeterminesWords | firmware/stm32_actuator/src/motor_groups.c:20-64 | equal frames to the same motors carry equal words |
| MotorPackets.ZeroFrameMeansRest | firmware/stm32_actuator/src/motor_groups.c:38-64 | a speed frame is the zero frame exactly when every speed in it is zero |
| MotorPackets.GroupsHaveModes | firmware/stm32_actuator/src/motor_groups.c:6-11 | a group takes speeds exactly when its motors are the mobile ones; an arm is its six joints |
| MotorPackets.FramesAreRead | firmware/stm32_actuator/src/sts3215_packet.c:76-129 | a frame is a sync write whose own length, entries and checksum agree, and each motor reads from it exactly its own word |
| MotorPackets.SpeedsAreRead | firmware/stm32_actuator/src/motor_groups.c:38-64 | each addressed motor reads from a speed frame exactly its own signed speed |
| MotorPackets.StopsAndHoldsAreRead | firmware/stm32_actuator/src/motor_groups.c:20-64 | every mobile motor reads zero from the stop frame, and every joint its pose from a hold |
| MobileOutput.MobileOutputObject.constructor | firmware/stm32_actuator/src/mobile_output.c:7-21 | over a disabled supervisor, starts with an empty router, a fresh schedule and no latch |
| MobileOutput.MobileOutputObject.BindLift | firmware/stm32_actuator/src/mobile_output.c:152-157 | a lift is bound once, before the first session, inactive and no faster than its axis limit |
| MobileOutput.MobileOutputObject.Stop | firmware/stm32_actuator/src/mobile_output.c:22-32 | latches supervisor, lift and router together and withdraws all motion |
| MobileOutput.MobileOutputObject.QueueStop | firmware/stm32_actuator/src/mobile_output.c:33-43 | queues one zero frame per stop episode |
| MobileOutput.MobileOutputObject.ExpireJobs | firmware/stm32_actuator/src/mobile_output.c:51-58 | withdraws every job that can no longer finish in time; a lost motion job stops everything |
| MobileOutput.MobileOutputObject.PollSchedule | firmware/stm32_actuator/src/mobile_output.c:59-65 | realigns the phase to the arm interrupt and stops on a late or foreign epoch |
| MobileOutput.MobileOutputObject.Poll | firmware/stm32_actuator/src/mobile_output.c:44-125 | the whole poll: deadlines, schedule, latch, lease stages, capped lifetimes and queueing, as the composed specification |
| MobileOutput.MobileOutputObject.Completed | firmware/stm32_actuator/src/mobile_output.c:126-137 | notes a completed zero for the lift and a completed stop frame for the episode |
| MobileOutput.MobileOutputObject.Rearm | firmware/stm32_actuator/src/mobile_output.c:138-150 | resumes and arms only when every check passes |
| OutputLatch.LatchedPoll | firmware/stm32_actuator/src/mobile_output.c:66-74 | a poll of an output closed by itself or by the system stop latches it and leaves the supervisor stopped at rest, whatever a host armed in between |
| OutputLatch.LatchedStep | firmware/stm32_actuator/src/mobile_output.c:22-74 | no single act of any kind sends anything but a stop from a closed output, or opens it, except a granted rearm |
| OutputLatch.OnlyStopUntilRearm | firmware/stm32_actuator/src/mobile_output.c:22-74 | over any interleaving of host messages, polls, lift requests, other owners' submissions, dispatches, completions, faults, recoveries, lift binding and system stops without a granted rearm, every packet a closed output sends is a stop, and it stays closed, and latched if it was |
| OutputLatch.StopHoldsUntilRearm | firmware/stm32_actuator/src/mobile_output.c:22-32 | the same counted from a stop with any fault, from any state |
| OutputLatch.SilenceHoldsUntilRearm | firmware/stm32_actuator/src/mobile_output.c:66-74 | the same counted from the system stop closing the shared bus, from any state; the first poll after it latches the output |
| OutputLatch.RearmIsAllOrNothing | firmware/stm32_actuator/src/mobile_output.c:138-150 | a rearm is granted exactly when its own checks pass, and a refusal leaves every field unchanged, because the checks imply that resume and arm both succeed |
| OutputLatch.StepKeepsConfig | firmware/stm32_actuator/src/mobile_output.c:44-150 | no act changes the configuration the schedule runs on |
| OutputLaws.ExpiryStops | firmware/stm32_actuator/src/mobile_output.c:51-58 | the expiry pass stops everything exactly when some motion job can no longer finish in time |
| OutputLaws.SchedulingStops | firmware/stm32_actuator/src/mobile_output.c:59-65 | the schedule stops everything exactly when the poll comes too long after the arm's interrupt or the last poll |
| OutputLaws.GuardStops | firmware/stm32_actuator/src/mobile_output.c:66-69 | the latch closes exactly when the output, router, bus or supervisor is stopped, closed or faulted |
| OutputLaws.LeasesAreExact | firmware/stm32_actuator/src/mobile_output.c:77-97 | the lease stage stops exactly when a lease ended without a proven hold, did not survive its poll, or meets an active base command |
| OutputLaws.LifeIsExact | firmware/stm32_actuator/src/mobile_output.c:99-112 | a job's life is the configured one, but a millisecond less than the command and the lease behind it have left |
| OutputLaws.GroupIsQueued | firmware/stm32_actuator/src/mobile_output.c:113-124 | a due group is queued exactly when its budget fits that life and its speeds fit the registers, as the frame of the base's targets, or of zeros and the lift's command under a lease, each times its direction |
| OutputLaws.StopQueuedIsExact | firmware/stm32_actuator/src/mobile_output.c:33-43 | unless the bus is faulted, a stop is then under way: written, on the bus, or queued as the zero frame for the configured life |
| OutputPolls.PollIsExact | firmware/stm32_actuator/src/mobile_output.c:44-125 | the poll in every case: it stops exactly when something closes the output or motion fails; then everything rests and the zero frame is sure to follow unless the bus is faulted; otherwise exactly the due groups' frames are queued, or nothing |
| OutputPolls.RunKeepsClear | firmware/stm32_actuator/src/mobile_output.c:22-150 | in every run a latched output is closed with no motion job waiting |
| OutputPolls.StoppingPollSendsStop | firmware/stm32_actuator/src/mobile_output.c:33-43 | a stopping poll that finds the stop neither written nor on the bus leaves it queued, and the next turn with a free bus and time left sends it, whatever the window |
| OutputPolls.WindowFollowsArm | firmware/stm32_actuator/src/mobile_output.c:59-65 | a poll in time offers the window measured from the arm's latest interrupt, whatever the free-running phase was |
| OutputEpisodes.ReportsAreCounted | firmware/stm32_actuator/src/mobile_output.c:126-137 | a report is counted exactly when it names the finished work on a healthy, idle bus; only a stop's can count as written, only a stop's or the lift's can tell the lift zero |
| OutputEpisodes.WrittenStopIsNoted | firmware/stm32_actuator/src/mobile_output.c:126-137 | the stop frame reported is the written stop, and tells the lift zero |
| OutputEpisodes.LiftPacketIsNoted | firmware/stm32_actuator/src/mobile_output.c:129-132 | a lift packet reported tells the lift zero exactly when its speed is zero |
| OutputEpisodes.RearmIsExact | firmware/stm32_actuator/src/mobile_output.c:138-150 | rearm is granted exactly with a proof, after a written stop, on an idle healthy bus, for a supervisor measured at rest by feedback newer than that stop, under a later session; the episode it starts, field by field |
| OutputCalm.ExpireIsQuieter | firmware/stm32_actuator/src/mobile_output.c:51-58 | the expiry pass brings no new work and leaves no pending motion job that is past saving |
| OutputCalm.SubmitQueues | firmware/stm32_actuator/src/mobile_output.c:114-124 | either every due group is queued with these speeds and this lifetime, or everything is stopped |
| OutputCalm.DriveQuickens | firmware/stm32_actuator/src/mobile_output.c:98-124 | what a poll queues carries the present command or lift speeds for no longer than they are valid |
| OutputCalm.PollEffects | firmware/stm32_actuator/src/mobile_output.c:44-125 | after a poll each pending motion job is the old one, still in time, or one made now; the transaction on the bus is unchanged, ended or faulted, and inside its budget |
| OutputCalm.MessageCarries | firmware/stm32_actuator/src/mobile_wire.c:54-74 | a message that is not an accepted velocity brings no new active command |
| OutputCalm.VelocityIsTaken | firmware/stm32_actuator/src/mobile_supervisor.c:131-142 | an accepted velocity makes exactly its speeds the target until exactly its deadline |
| OutputCalm.AcceptedRequestLeases | firmware/stm32_actuator/src/lift_endpoint.c:28-64 | an accepted lift request sets the lease to its deadline, at most the maximum lease away |
| OutputDeadline.TakeKeepsTimely | firmware/stm32_actuator/src/bus_router.c:19-42 | a motion packet leaves the router only while its whole budget still fits, in true time, before its deadline |
| OutputDeadline.FreshIsBacked | firmware/stm32_actuator/src/mobile_output.c:98-124 | a nonzero packet queued by a poll has a deadline before the end of the command or lease behind it, across both clocks, and its bytes are the frame of that command's speeds, or of the leased lift's command times its direction |
| OutputDeadline.PollKeepsTimely | firmware/stm32_actuator/src/mobile_output.c:44-125 | a poll keeps every deadline fact of queue, bus, command and lease |
| OutputDeadline.AdvanceKeepsTimely | firmware/stm32_actuator/src/mobile_output.c:22-150 | so does every act |
| OutputDeadline.OriginsAreGranted | firmware/stm32_actuator/src/mobile_supervisor.c:107-142 | every permission in the history is a message or request accepted at an event of the run |
| OutputDeadline.MotionEndsInTime | firmware/stm32_actuator/src/mobile_output.c:98-124 | in any regular run from the start, a wheel or lift packet with a nonzero speed whose completion is accepted has ended, by the true clock, before the valid-until time of a host message or lift request accepted in that run; under a host message it carried exactly that message's speeds, and under a lease it went to the lift and carried exactly the lift's command, times its direction, at a poll of the run with the lease running |
| OutputDeadline.SpeedsAreCommanded | firmware/stm32_actuator/src/mobile_output.c:105-109 | a lift packet under a lease is the frame of the lift's command, times its direction, at a poll of the run that left the lease running |
| OutputExample.WheelsDoMove | firmware/stm32_actuator/src/mobile_output.c:44-125 | a concrete run (feedback, arm, velocity message, poll, dispatch, completion) meets every hypothesis of the deadline theorem and does complete a nonzero wheel packet |
| SystemStop.SystemStopObject.Begin | firmware/stm32_actuator/src/system_stop.c:16-40 | closes both buses, notes their tokens, queues the zero speeds and, with usable poses, the right hold |
| SystemStop.SystemStopObject.Poll | firmware/stm32_actuator/src/system_stop.c:41-69 | queues the left hold after the zero receipt, notes completion, and confirms or revokes on live evidence |
| SystemStop.SystemStopObject.IsWritten | firmware/stm32_actuator/src/system_stop.c:53-57 | true exactly when both holds are the last receipts, later than the tokens asked for, with nothing pending |
| StopEvidence.ConfirmedIsEvidenced | firmware/stm32_actuator/src/system_stop.c:41-69 | in every run CONFIRMED implies that, since begin and before the noted completion time, the left bus completed the exact zero frame and later, under a later token, the exact left hold, the right bus the exact right hold, and the last measurement is younger than the limit, strictly newer than that time, and has base stopped, lift and arms holding, and the load retained if asked for |
| StopEvidence.OnlyStopsMeanwhile | firmware/stm32_actuator/src/system_stop.c:16-69 | in every run, from begin on, neither bus is handed anything but stops unless its router is resumed |
| StopEvidence.ReceivedIsRecorded | firmware/stm32_actuator/src/system_stop.c:10-15 | a matching receipt is the last completed transfer, later than every one up to the token asked for |
| StopEvidence.RecordKeepsHonest | firmware/stm32_actuator/src/bus_router.c:43-49 | receipts carry strictly increasing tokens, never later than the bus's own |
| StopEvidence.WrittenIsDone | firmware/stm32_actuator/src/system_stop.c:53-58 | when everything is written the records hold the whole sequence in order |
| StopEvidence.PollConfirmsExactly | firmware/stm32_actuator/src/system_stop.c:53-68 | a poll of a begun stop ends confirmed exactly when everything is written and the measurement given is younger than the limit, strictly newer than the completion, and has base, lift and arms at rest and the load if asked for; a confirmed stop without one is revoked, and a pending one is unconfirmed from the timeout on |
| StopEvidence.PollQueuesHold | firmware/stm32_actuator/src/system_stop.c:45-52 | the left hold is queued exactly when the zero speeds' receipt is there and nothing is pending |
| StopEvidence.BeginQueues | firmware/stm32_actuator/src/system_stop.c:16-40 | what begin does to both buses and what it queues, in every case |
| StopEvidence.QueuedStopGoesOut | firmware/stm32_actuator/src/bus_router.c:4-42 | after a stop is queued, whatever else is submitted, completed, recovered, inhibited or resumed, the first turn that finds the bus free before the stop's deadline sends its bytes |
| StopExample.StopsDoConfirm | firmware/stm32_actuator/src/system_stop.c:16-69 | a concrete run over both buses is confirmed, so the confirmation results speak of real runs |
| TriangleLabels.ConnectedTriangleLabels | tools/diagnostics/s2_lift_contacts.py:22-35 | two triangles get equal labels exactly when a chain of triangles sharing vertices links them; an empty mesh has no labels |
| TriangleLabels.FindRoot | tools/diagnostics/s2_lift_contacts.py:26-29 | following and halving the path terminates at the root and changes no vertex's root |
| TriangleLabels.JoinEdge | tools/diagnostics/s2_lift_contacts.py:30-34 | joining an edge merges exactly the two components of its ends |
| TriangleLabels.HalvingKeepsRoot | tools/diagnostics/s2_lift_contacts.py:28-28 | path halving keeps every root |
| TriangleLabels.JoinKeepsPartition | tools/diagnostics/s2_lift_contacts.py:33-34 | hanging one root under another keeps the trees equal to the connected components with the new edge |
| TriangleLabels.SameRootMeansConnected | tools/diagnostics/s2_lift_contacts.py:26-35 | equal roots and connection by edges are the same thing |
| TriangleLabels.ConnectedMeansOneSolid | tools/diagnostics/s2_lift_contacts.py:22-35 | first corners are connected exactly when the triangles are linked by a chain |
| TriangleLabels.VertexCount | tools/diagnostics/s2_lift_contacts.py:25-25 | one more than the largest vertex number in use |
| TriangleMesh.LabelTriangles | tools/diagnostics/s2_lift_contacts.py:22-35 | from coordinates: two triangles get equal labels exactly when a chain of triangles, each meeting the next in a rounded corner, links them; an empty mesh has no labels |
| TriangleMesh.RoundingJoinsSeams | tools/diagnostics/s2_lift_contacts.py:23-24 | equal corners are one vertex, and rounding joins only corners within a millionth of each other along each axis |
| TriangleMesh.NumbersFollowOrder | tools/diagnostics/s2_lift_contacts.py:24-25 | vertices are numbered without gaps in the order of their rounded coordinates |
| TriangleMesh.SolidsAreSolids | tools/diagnostics/s2_lift_contacts.py:25-35 | the numbered faces make up the same solids as the triangles |
| BootCounter.BootStore.Advance | firmware/stm32_actuator/src/device_startup.c:62-78 | reads both slots, chooses, writes the next identity to the other slot and exposes it only once read back |
| BootCounter.BootStore.CheckRecord | firmware/stm32_actuator/src/device_startup.c:60-61 | true exactly for a record: magic, nonzero identity, its complement and the checksum |
| BootCounter.RecordIsRecord | firmware/stm32_actuator/src/device_startup.c:75-76 | what is written for an identity is read as that identity |
| BootCounter.NewestIsNotWritten | firmware/stm32_actuator/src/device_startup.c:70-73 | the slot planned for writing never holds the newest record |
| BootCounter.AdvanceNeverGoesBack | firmware/stm32_actuator/src/device_startup.c:62-78 | however the write is cut the newest record survives, and an exposed identity is one past it |
| BootCounter.IdentitiesNeverRepeat | firmware/stm32_actuator/src/device_startup.c:62-78 | whatever the storage held at first, over any boots with writes cut anywhere, exposed identities strictly increase |
| BootCounter.DamageIsRefused | firmware/stm32_actuator/src/device_startup.c:60-61 | a record damaged within four consecutive covered bytes is refused |
| BootCounter.RecordsAreExactly | firmware/stm32_actuator/src/device_startup.c:60-61 | a slot is a record exactly when it is what is written for its own nonzero identity |
| BootCounter.PlanIsExact | firmware/stm32_actuator/src/device_startup.c:62-73 | there is a plan exactly for sound storage, or an erased one with initialize; it writes the slot that does not hold the newest, with the next identity |
| BootCounter.NextIdentityIsExposed | firmware/stm32_actuator/src/device_startup.c:62-78 | undisturbed reads and a whole write on sound storage expose the newest identity plus one |
| BootCounter.CutWritesStaySound | firmware/stm32_actuator/src/device_startup.c:62-78 | a cut write leaves storage sound unless it left neither a record nor erased bytes |
| Cobs.EncodingIsSound | tools/lib/actuator_protocol.py:228-273 | the encoding is zero-free, at most n + 1 + n/254 long, and decodes back to its input |
| Cobs.EncodeInto | firmware/stm32_actuator/src/cobs.c:3-57 | the bounded encoder succeeds exactly when the encoding fits its capacity, and then has written it |
| Cobs.DecodeInto | firmware/stm32_actuator/src/cobs.c:59-98 | the bounded decoder succeeds exactly when the input decodes to something that fits, and then has written it |
| Protocol.WriteFrame | firmware/stm32_actuator/src/protocol.c:112-156 | writes exactly a legal frame's bytes if they fit, else says which rule failed |
| Protocol.ReadFrame | firmware/stm32_actuator/src/protocol.c:158-212 | the first violated rule, or the frame |
| Protocol.FrameRoundTrip | firmware/stm32_actuator/src/protocol.c:112-212 | exactly the legal frames encode, to at most 535 zero-free bytes and a delimiter, from which both decoders recover the frame |
| Protocol.DecodersAgree | tools/lib/actuator_protocol.py:303-341 | host and controller accept the same undelimited bytes as the same frames, though only one has a bounded buffer |
| Protocol.AcceptedIsLegal | firmware/stm32_actuator/src/protocol.c:158-212 | whatever is accepted off the wire can be sent again |
| Protocol.StreamParser.Push | firmware/stm32_actuator/src/protocol.c:221-255 | one byte: collect, drop an overlong frame, or decode at a zero |
| Protocol.StreamDecoder.Push | tools/lib/actuator_protocol.py:352-375 | one byte on the host: collect, drop silently, or decode at a zero without a bounded buffer |
| Protocol.HostYieldsTheSame | tools/lib/actuator_protocol.py:344-375 | from any stream of bytes whatever, host and controller yield the same frames |
| Protocol.HostRecovers | tools/lib/actuator_protocol.py:344-375 | the host resynchronises as the controller does: after any history, a zero and the bytes of legal frames it yields exactly those frames |
| Protocol.StreamRecovers | firmware/stm32_actuator/src/protocol.c:221-255 | after any history, a zero and the bytes of legal frames, the parser yields exactly those frames in order, after what it yielded before |
| FrameLaws.UnstuffingIsExact | firmware/stm32_actuator/src/cobs.c:59-98 | bytes unstuff exactly when they are runs behind their code bytes, and to those runs with a zero between any two but behind a full one |
| FrameLaws.TypesAreTheHosts | tools/lib/actuator_protocol.py:37-67 | the controller knows exactly the host's message types |
| FrameLaws.BodyIsExact | firmware/stm32_actuator/src/protocol.c:112-156 | a frame's bytes are exactly those with mark, version, type, flags, length, number, time, payload and checksum in their places |
| FrameLaws.AcceptedAreFrames | firmware/stm32_actuator/src/protocol.c:158-212 | both decoders accept exactly the stuffed bytes of legal frames |
| FrameLaws.RefusalsAreExact | firmware/stm32_actuator/src/protocol.c:158-212 | why other bytes are refused, the first reason that applies |
| FrameLaws.EventsAreExact | firmware/stm32_actuator/src/protocol.c:221-255 | after any stream, a zero decodes exactly the bytes since the last zero: nothing for none, the frame or its fault for up to 535, an overflow for more; the byte that makes it too long reports the overflow too |
| FrameLaws.DamagedFrameIsRefused | firmware/stm32_actuator/src/protocol.c:158-212 | a frame in which up to four consecutive bytes before the checksum were changed is refused |
| SetpointQueue.Queue.PushBatch | firmware/stm32_actuator/src/setpoint_queue.c:35-86 | appends the whole batch to the queue's contents or changes nothing, with the first complaint |
| SetpointQueue.Queue.TakeDue | firmware/stm32_actuator/src/setpoint_queue.c:88-113 | takes the front exactly when it is due now |
| SetpointQueue.Queue.Peek | firmware/stm32_actuator/src/setpoint_queue.c:115-127 | reads the front without taking it |
| SetpointQueue.RingAppends | firmware/stm32_actuator/src/setpoint_queue.c:80-84 | writing at the tail's place of the ring appends to the sequence it stands for |
| SetpointQueue.RingDrops | firmware/stm32_actuator/src/setpoint_queue.c:109-111 | moving the head on drops the first of that sequence |
| SetpointQueue.PushIsExact | firmware/stm32_actuator/src/setpoint_queue.c:35-86 | a push is accepted exactly when nonempty, fitting, leading by the asked amounts, within limits and strictly later than the queue; the queue stays strictly later |
| SetpointQueue.TakeIsExact | firmware/stm32_actuator/src/setpoint_queue.c:88-127 | the front goes exactly on its own tick; before, it is not due, and after, stale |
| BufferedExecutor.ExecutorObject.Admit | firmware/stm32_actuator/src/buffered_executor.c:59-97 | pushes a batch in an accepting phase and counts it |
| BufferedExecutor.ExecutorObject.Start | firmware/stm32_actuator/src/buffered_executor.c:111-151 | starts a primed queue from an anchor before it and within limits |
| BufferedExecutor.ExecutorObject.Step | firmware/stm32_actuator/src/buffered_executor.c:153-280 | applies, interpolates, or ends, with lateness accounting |
| BufferedExecutor.ExecutorObject.StopFor | firmware/stm32_actuator/src/buffered_executor.c:282-348 | each ending clears the queue with its own phase, reason and stop request |
| BufferedLaws.AdmissionIsExact | firmware/stm32_actuator/src/buffered_executor.c:59-97 | a batch is taken whole exactly while open, nonempty, fitting, every sample leading, later and within limits; what it leaves |
| BufferedLaws.RefusalIsNamed | firmware/stm32_actuator/src/setpoint_queue.c:35-86 | a refused batch is told the first check it fails, at its first sample that fails one |
| BufferedLaws.StartIsExact | firmware/stm32_actuator/src/buffered_executor.c:111-151 | a start is granted exactly to a primed queue from an earlier anchor within limits |
| BufferedLaws.EndingsAreExact | firmware/stm32_actuator/src/buffered_executor.c:99-109 | each way to end has its own phase and reason, and all but a planned hold ask for the safe stop |
| BufferedLaws.StepIsExact | firmware/stm32_actuator/src/buffered_executor.c:153-280 | a step of a running executor, in every case: the front applied in time, the run ended by a late or the last one, or the exact interpolation |
| BufferedLaws.TrajectoryCompletes | firmware/stm32_actuator/src/buffered_executor.c:153-280 | with its input complete and a step at every tick, every setpoint is applied on its own tick, in order and never late, every pose in between is the exact interpolation, and the run succeeds on the last tick |
| BufferedLaws.TimesAreTrue | firmware/stm32_actuator/src/buffered_executor.c:153-280 | every running executor has the true times this asks for, whatever the clock has wrapped to |
| BufferedRuns.StepExitsAreFew | firmware/stm32_actuator/src/buffered_executor.c:153-280 | while running, the empty-queue, failed-take and overrun-segment exits are unreachable |
| BufferedRuns.RunIsSound | firmware/stm32_actuator/src/buffered_executor.c:59-280 | in every run RUNNING means a nonempty strictly later chain from the anchor; setpoints keep to the limits; short of saturation the histogram sums to the applied samples and accepted = applied + queued |
| BufferedRuns.BetweenIsExact | firmware/stm32_actuator/src/buffered_executor.c:269-278 | interpolation is exact and stays between its end points |
| BufferedRuns.PosesStayWithin | firmware/stm32_actuator/src/buffered_executor.c:153-280 | every pose output in any run is within the limits |
| BufferedRoute.RouteObject.Admit | firmware/stm32_actuator/src/buffered_command_route.c:119-181 | flags, trajectory state, then a dry run or a real admission |
| BufferedRoute.RouteObject.DryRun | firmware/stm32_actuator/src/buffered_command_route.c:149-160 | the admission is really run and the queue and diagnostics put back as they were |
| BufferedRoute.RouteObject.Start | firmware/stm32_actuator/src/buffered_command_route.c:183-200 | a route starts once, after a batch asked for it |
| BufferedRoute.ValidationTellsTheTruth | firmware/stm32_actuator/src/buffered_command_route.c:149-180 | a validation-only command changes nothing and gets exactly the answer the same command would get for real |
| BufferedRoute.CommandsAreExact | firmware/stm32_actuator/src/buffered_command_route.c:119-181 | a route is begun exactly once and asked to start at most once; the batch is admitted as the executor says; what an admitted command, a validation and a refused one leave |
| BufferedRoute.OtherFlagsAreRefused | firmware/stm32_actuator/src/buffered_command_route.c:119-130 | exactly the sixteen combinations of the four flags on a candidate are commands |
| BufferedRoute.StartIsExact | firmware/stm32_actuator/src/buffered_command_route.c:183-200 | a route starts exactly once, when asked to and its executor does |
| JointUnwrap.UnwrapperObject.Bind | firmware/stm32_actuator/src/joint_unwrap.c:32-83 | the three-candidate loop computes the verdict function |
| JointUnwrap.UnwrapperObject.Update | firmware/stm32_actuator/src/joint_unwrap.c:85-121 | folds the difference of two readings, refusing an exact half turn and overflow |
| JointUnwrap.BindIsExact | firmware/stm32_actuator/src/joint_unwrap.c:32-83 | bind succeeds exactly when a representable congruent turn lies within the window, and returns that only one, although just three turns around a truncated quotient are tried |
| JointUnwrap.TurnIsTried | firmware/stm32_actuator/src/joint_unwrap.c:55-67 | any turn within half a turn of the reference is one of the three |
| JointUnwrap.UpdatesTrackTruth | firmware/stm32_actuator/src/joint_unwrap.c:85-121 | repeated updates equal the true position while every move is under half a turn |
| JointUnwrap.BindFollows | firmware/stm32_actuator/src/joint_unwrap.c:79-82 | a successful bind follows the turn it found |
| JointUnwrap.RawRoundTrip | firmware/stm32_actuator/src/joint_unwrap.c:123-195 | raw to microradians and back is exact for every raw position whose angle fits |
| JointUnwrap.ModuloAsInC | firmware/stm32_actuator/src/joint_unwrap.c:186-190 | the adjusted C remainder is the mathematical one |
| JointUnwrap.BindRefusalsAreExact | firmware/stm32_actuator/src/joint_unwrap.c:32-83 | why a bind is refused: illegal reading or window, a reference exactly half a turn from two positions, none inside the window, or one not representable |
| JointUnwrap.UpdateIsExact | firmware/stm32_actuator/src/joint_unwrap.c:85-121 | a reading is taken exactly when the one position less than half a turn away that shows it is representable; an exact half turn is ambiguous |
| JointUnwrap.AngleIsNearest | firmware/stm32_actuator/src/joint_unwrap.c:123-149 | the angle is the signed distance from the zero in whole microradians, rounded to nearest and halves away from zero, and refused exactly when that does not fit or a parameter is illegal |
| JointUnwrap.GoalIsNearest | firmware/stm32_actuator/src/joint_unwrap.c:151-195 | a goal gives the raw position nearest to its angle, and is refused exactly when that is outside the limit or a parameter is illegal |
| GoalMap.MapGoals | firmware/stm32_actuator/src/bimanual_goal_map.c:24-76 | writes all twelve words or none and names the first failing joint |
| GoalMap.MapIsTwelveConversions | firmware/stm32_actuator/src/bimanual_goal_map.c:24-76 | the map succeeds exactly when all twelve single conversions do, with the same modulo words; otherwise it names the first whose own conversion fails |

## Left out

- Null arguments, unconfigured objects and failing initialisers: parameters are non-null and constructors take valid configurations.
- `StreamExecutor.check_feedback` and `check_joint_feedback` (stream_executor_v2.c:417-483): each compares a measured pose with the last output against the tracking limit.
- `buffered_command_decode` and the status encoder of the version 1 route: the field-by-field layout of a command and of its status reply.
- LiftEndpointObject.Exchange: takes a request already parsed; its bytes and the reply's are in `LiftWire.Exchange`.
- ConnectedTriangleLabels: takes vertex numbers; coordinates are in `TriangleMesh.LabelTriangles`.
- LabelTriangles: coordinates are real numbers, so the rounding error of the floating-point product is not modelled; sorting and searching stand for the array library's numbering.
- BootStore.Advance: storage callbacks are arrays and outcomes passed in; flash hardware is not modelled.
- OnlyStopUntilRearm: the board's rearm wrapper, which resumes the router itself before the core rearm, is not part of this model.
- SmoothRunIsRateBounded: runs are primed by appends; a splice before the start is covered by the limits and the conservation results only.
- The first mobile motor number is fixed at 8; message types are those of protocol version 1 without optional features.
- Signed overflow in C is written as two's-complement wrap where it could occur, and shown not to occur where the results need it.
- The per-register startup transaction, arm-hold monitor, bimanual dispatch, robot evidence, safety and calibration machines: startup writes and readbacks, hold timeouts, two-arm packet fan-out, evidence collection, and the safety and calibration state machines.
- Serial ports, servers, files, viewers, drivers and floating-point geometry.
