# Offboard flight sequencer

A Dafny model of the offboard example node in `src/test_setpoints_pos.cpp`.
The node talks to a PX4 flight controller through MAVROS, in five steps:

1. It waits on the vehicle status.
2. It streams 100 setpoint pairs (thrust 0.2 and pose (0, 0, 2 m)).
3. At 20 Hz it negotiates the OFFBOARD mode and arming, with one 5-second
   timer shared by both.
4. It climbs to 1.5 m, hovers, and descends by 0.05 m every 0.5 s.
5. On reaching the ground it sends one disarm request.

Every pass publishes the constant thrust and the pose (0, 0, altitude).

The project has three files:

- `sequencer.dfy` (module `Sequencer`) is the pure model.
  - The main loop's locals are a `State`: altitude, `isPeak`, `isLand`,
    `last_request` and `arm_cmd.request.value`.
  - Negotiation is `Negotiate` and the climb, hover and descent block is
    `Advance`. One pass is `Step`; a sequence of passes is `Run`.
  - Outbound traffic is a sequence of `Event`s: mode requests, arm requests,
    thrust setpoints and pose setpoints.
- `properties.dfy` (module `SequencerProperties`) holds lemmas about single
  passes and about runs of any length.
- `offboard_node.dfy` (module `OffboardNode`) is the node as an object.
  - The class `Node` holds the global status, the locals and a log of all
    outbound traffic.
  - Its methods (the callback, the spin, the wait loop, the prestream, the
    set-up, one pass and a run of passes) update those fields in place. Each
    is proved against the functions of `Sequencer`.

Units are integers:

- time in milliseconds;
- altitude in hundredths of a metre (1.5 m is 150, 0.05 m is 5, 2 m is 200);
- thrust in hundredths of full scale (0.2 is 20).

Every constant of the source is an exact whole number in these units, so no
rounding enters the model.

The model follows the code as written, including these behaviours:

- The wait loop spins while the status says *connected*, so when it starts
  from the default, disconnected status it ends at once.
- A single `last_request` timer gates the negotiation, and it also measures
  the climb window, the hover timeout and the descent steps. It starts at
  the set-up (line 81). The negotiation requests reset it, and so do marking
  the peak (line 120) and each descent step (line 143); setting the cruise
  altitude does not.
- The climb branch sets the cruise altitude on every pass inside the
  (5 s, 10 s) window, not once.
- `arm_cmd.request.value` becomes false at landing and is never reset, so
  every later arm request carries false.
- `isPeak` is never cleared. After landing, no phase branch fires again.
- If the first OFFBOARD-and-armed pass before the peak finds the timer older
  than 15 s, the peak is marked while `isLand` is still set. The vehicle then
  never climbs, never descends and is never disarmed. This needs a gap of at
  least 5 s between two consecutive passes, for example a blocking service
  call. At 20 Hz some pass sees every timer age in (5 s, 10 s), and that pass
  either sets the cruise altitude or sends a negotiation request, which
  resets the timer.

## Model

| member | source | states |
|---|---|---|
| Sequencer.Initial | src/test_setpoints_pos.cpp:78-85 | The state before the main loop satisfies the reachable-state invariant, has `isPeak` clear and the arm value true, and starts the timer at the clock reading. |
| SequencerProperties.AfterSpinsLastWins | src/test_setpoints_pos.cpp:27-29 | Last write wins over any run of spins. The held status is the last message delivered, and with no message delivered it is the starting status. |
| Sequencer.Publish | src/test_setpoints_pos.cpp:147-152 | A pass publishes exactly two events, the thrust setpoint and then the pose setpoint with the given altitude, and no request. |
| Sequencer.PrestreamLog | src/test_setpoints_pos.cpp:57-71 | n prestream passes publish 2n events, alternating thrust 0.2 and pose (0, 0, 2 m). |
| Sequencer.Negotiate | src/test_setpoints_pos.cpp:88-104 | A request goes out iff the timer is more than 5 s old and the vehicle is not both OFFBOARD and armed. The mode request goes out iff the mode is not OFFBOARD and the timer is old enough, so it takes priority. Otherwise the arm request goes out, carrying the current arm value, and only under OFFBOARD. A request resets the timer and changes nothing else; without one the state is unchanged. |
| Sequencer.Advance | src/test_setpoints_pos.cpp:106-145 | The state changes only under OFFBOARD and armed. `isPeak` is never cleared, and the arm value never returns to true. The only request is a disarm, sent iff this pass sets `isLand`, and it leaves altitude 0 and the arm value false. The reachable-state invariant is preserved. |
| Sequencer.Step | src/test_setpoints_pos.cpp:87-152 | One pass is the negotiation, then the phase block, then the publication. It always ends with the thrust 0.2 and the pose (0, 0, altitude), using the altitude this pass left, and it never clears `isPeak`. |
| Sequencer.Run | src/test_setpoints_pos.cpp:87-156 | A run of n passes issues at least 2n events. |
| SequencerProperties.RequestsAppend | src/test_setpoints_pos.cpp:87-156 | The requests in two consecutive logs are the requests of each, in order; this is what lets the request count of a run be summed pass by pass. |
| SequencerProperties.StepRequestsSplit | src/test_setpoints_pos.cpp:88-145 | The requests of a pass are exactly the negotiation request followed by the disarm request. |
| SequencerProperties.StepPublishes | src/test_setpoints_pos.cpp:88-152 | The two setpoints a pass ends with are its only publications: every event before them is a request. |
| SequencerProperties.StepKeepsInv | src/test_setpoints_pos.cpp:83-145 | A pass preserves the reachable-state invariant: altitude is a multiple of 0.05 m in [0, 1.5 m], it is zero iff `isLand` is set, and the arm value is false only after the peak and the landing. |
| SequencerProperties.StepRequests | src/test_setpoints_pos.cpp:88-145 | A pass issues at most one request, and a request needs a timer older than 0.5 s and leaves the timer at the current time. A mode request needs a non-OFFBOARD status and a timer older than 5 s, and asks for OFFBOARD. An arm request needs OFFBOARD. Once the arm value is false, all arm requests carry false. |
| SequencerProperties.StepTimer | src/test_setpoints_pos.cpp:94-143 | A pass leaves `last_request` as it was or sets it to the current time. A pass whose negotiation sends a request leaves it at the current time. |
| SequencerProperties.RunTimerAtLeast | src/test_setpoints_pos.cpp:87-156 | If the timer starts at or after time t and every pass comes at or after t, the timer never ends before t. |
| SequencerProperties.TimerAfterRequest | src/test_setpoints_pos.cpp:88-104 | After a pass whose negotiation sends a request, the run's timer equals that pass's clock reading. |
| SequencerProperties.RunSplitAt | src/test_setpoints_pos.cpp:87-156 | The state after the first j passes is the state after pass i, run on through passes i + 1 to j - 1. |
| SequencerProperties.NegotiationSpacing | src/test_setpoints_pos.cpp:88-104 | The 5-second throttle over a run. Any two passes that both send a negotiation request are more than 5 s apart, given that the clock does not go back from the earlier pass to the later one. |
| SequencerProperties.ClimbBranch | src/test_setpoints_pos.cpp:106-121 | The pass is OFFBOARD and armed, before the peak, and issues no request. A timer age strictly inside (5 s, 10 s) sets the cruise altitude and clears `isLand`, leaving the timer. An age above 15 s marks the peak and resets the timer. Any other age changes nothing. |
| SequencerProperties.DescentBranch | src/test_setpoints_pos.cpp:126-145 | The pass is OFFBOARD and armed, after the peak and before landing. Altitude never rises and `isPeak` stays set. Altitude falls iff the timer is older than 0.5 s, and then by exactly 0.05 m with the timer reset. Otherwise nothing changes and no request goes out. |
| SequencerProperties.DescentPass | src/test_setpoints_pos.cpp:130-144 | A descent pass due by the timer, from at least one step up, either lowers the altitude by one step and issues no request, or, from one step up, lands with the single request `ArmRequest(false)`. |
| SequencerProperties.Landing | src/test_setpoints_pos.cpp:133-142 | The step that reaches zero or below clamps the altitude to exactly zero, sets `isLand`, sets the arm value false, resets the timer and issues exactly one request, `ArmRequest(false)`. |
| SequencerProperties.RunPrefix | src/test_setpoints_pos.cpp:87-156 | A run ends in the state of its last pass, and its requests are those of the earlier passes followed by those of the last. |
| SequencerProperties.RunKeepsInv | src/test_setpoints_pos.cpp:83-145 | Every state reachable by a run from an invariant state keeps the invariant; in particular the altitude stays in [0, 1.5 m]. |
| SequencerProperties.RunKeepsPeak | src/test_setpoints_pos.cpp:117-137 | Once `isPeak` is set it stays set for every later pass. |
| SequencerProperties.RunRequestsBound | src/test_setpoints_pos.cpp:88-145 | A run of n passes issues at most n requests. |
| SequencerProperties.RunAfterLanding | src/test_setpoints_pos.cpp:106-145 | After the landing (both flags set), no run changes the altitude, the flags or the arm value. |
| SequencerProperties.RunAppend | src/test_setpoints_pos.cpp:87-156 | Running the passes a and then b is running a, then running b from the state a left. The log is a's events followed by b's. |
| SequencerProperties.RunAfterPeakNoRise | src/test_setpoints_pos.cpp:126-145 | From a reachable state with `isPeak` set, no run ends higher than it started. |
| SequencerProperties.NoRiseAfterPeak | src/test_setpoints_pos.cpp:126-145 | Once the peak is marked, the altitude never rises for the rest of execution: every later point of a run is no higher than any earlier point. |
| SequencerProperties.RunIdle | src/test_setpoints_pos.cpp:126-131 | The passes of the 20 Hz loop between descent steps change nothing and issue no request. These are passes under OFFBOARD and armed, after the peak and before landing, within 0.5 s of the last step. With `RunAppend`, a 20 Hz descent combines these idle passes with the due passes of `DescentProgress` and `DescentSchedule`. |
| SequencerProperties.SkippedClimbNeverDescends | src/test_setpoints_pos.cpp:106-128 | A pass before the peak that finds OFFBOARD, armed and the timer older than 15 s while still on the ground marks the peak with `isLand` set. After it the altitude stays 0 and the arm value stays true. |
| SequencerProperties.RunDisarmedStaysFalse | src/test_setpoints_pos.cpp:96-141 | Once the arm value is false it stays false, and every arm request of the run carries false. |
| SequencerProperties.StepNotOffboard | src/test_setpoints_pos.cpp:88-128 | A pass whose status is not OFFBOARD changes only the timer and can only ask for OFFBOARD. |
| SequencerProperties.RunNeverOffboard | src/test_setpoints_pos.cpp:88-128 | If the status never reports OFFBOARD, a run changes only the timer, and every request it sends is the OFFBOARD mode request (no arm request ever goes out). |
| SequencerProperties.DescentFeedPrefix | src/test_setpoints_pos.cpp:126-131 | Dropping the last pass of a descent feed leaves a descent feed, and the last pass was more than 0.5 s after the one before it. A descent feed is OFFBOARD and armed throughout, with passes more than 0.5 s apart. |
| SequencerProperties.DescentProgress | src/test_setpoints_pos.cpp:126-144 | From the peak, k passes of a descent feed that stay above the ground lower the altitude by exactly k × 0.05 m and issue no request. The timer ends at the last pass's time. |
| SequencerProperties.DescentSchedule | src/test_setpoints_pos.cpp:126-144 | From the peak at altitude h, pass number h / 0.05 of a descent feed lands exactly on zero, with `isLand` set and the arm value false. The whole descent issues exactly one request, `ArmRequest(false)`. |
| SequencerProperties.CruiseDescentLands | src/test_setpoints_pos.cpp:113-142 | From the cruise altitude 1.5 m, the 30th descent pass lands and disarms with exactly one request. |
| SequencerProperties.PrestreamHasNoRequests | src/test_setpoints_pos.cpp:66-71 | The prestream issues no mode or arm request. |
| SequencerProperties.PrestreamPrecedesRequests | src/test_setpoints_pos.cpp:66-104 | In a log that begins with the prestream, none of the first 200 events is a request, and the log's requests are exactly those issued after the prestream. |
| OffboardNode.Node.constructor | src/test_setpoints_pos.cpp:26 | The global status starts default-constructed (disconnected, disarmed, empty mode), the log is empty and the locals hold the values main gives them. |
| OffboardNode.Node.StateCallback | src/test_setpoints_pos.cpp:27-29 | The callback overwrites the held status with the message and changes nothing else. |
| OffboardNode.Node.SpinOnce | src/test_setpoints_pos.cpp:53 | A spin delivers at most one pending message, last write wins, and changes nothing but the held status. |
| OffboardNode.Node.AwaitConnection | src/test_setpoints_pos.cpp:52-55 | The wait spins only while the status says connected. Every spin it did began with a connected status. It stops early only at a disconnected status, and starting disconnected it does no spin at all. |
| OffboardNode.Node.Prestream | src/test_setpoints_pos.cpp:66-71 | The prestream appends exactly 100 thrust and pose (0, 0, 2 m) pairs to the log, and the held status is whatever the first 100 spins delivered. |
| OffboardNode.Node.Setup | src/test_setpoints_pos.cpp:78-85 | The locals become the initial state with the timer at the clock reading, which satisfies the invariant. |
| OffboardNode.Node.Negotiation | src/test_setpoints_pos.cpp:88-104 | The negotiation block updates the timer and appends its request exactly as `Negotiate` specifies. |
| OffboardNode.Node.Phase | src/test_setpoints_pos.cpp:106-145 | The climb, hover and descent block updates the locals and appends the disarm request exactly as `Advance` specifies. |
| OffboardNode.Node.Tick | src/test_setpoints_pos.cpp:87-152 | One pass leaves the locals and appends events exactly as `Step` specifies, and it preserves the invariant. |
| OffboardNode.Node.Pass | src/test_setpoints_pos.cpp:87-156 | A pass reads the status the preceding spin delivered, then runs `Step` on it. |
| OffboardNode.Node.Fly | src/test_setpoints_pos.cpp:87-156 | A sequence of passes leaves the locals and the log exactly as `Run` specifies and preserves the invariant. Afterwards the node holds the last pass's status, or, with no pass, the status it held before. |
| OffboardNode.Launch | src/test_setpoints_pos.cpp:31-85 | Everything before the main loop. The node starts disconnected, so the line-52 wait never spins and the prestream always starts at once. Afterwards the log is exactly the 100 prestream pairs, the held status is what the prestream's spins delivered, and the locals are the initial state at the start time. |
| OffboardNode.Flight | src/test_setpoints_pos.cpp:31-156 | The whole program: start-up, then the passes of the main loop. The node's log is the prestream followed by the flight's events. None of its first 200 events is a request, and its requests are exactly those of the passes. |

## Left out

- ROS plumbing is abstracted away: node initialisation, subscriptions, advertisements, service clients, queue sizes and topic names. Publishing and service calls are entries appended to the log.
- `ros::ok()` is not modelled as a value. The wait loop would end when its finite feed of pending messages ran out, but from the default status it never spins. The prestream and the main loop are modelled as if `ros::ok()` stayed true. A finite sequence of passes stands for the unbounded main loop.
- Sleeps are left out: `rate.sleep()`, the 20 Hz rate and the wall clock. Each pass takes one clock reading `now` as a parameter, although the source reads `ros::Time::now()` several times per pass. A spin delivers at most one message, the last one pending.
- `Node.Fly` delivers the status for pass i just before it. This folds the spin at the end of one pass into the start of the next. So the first pass reads `ticks[0].status`, not the status left by the last prestream spin. In `Flight` the prestream feed therefore has no effect on the flight. Since `ticks[0].status` is unconstrained, the set of possible flights is the same.
- Service responses (`mode_sent`, `success`) and `ROS_INFO` logging are left out. They only decide what gets logged and never change the sequencer's state.
- Floating point is left out: altitude, thrust and durations are exact integers in hundredths and milliseconds. Every descent starts from exactly 1.5 (line 113). In IEEE-754 `double`, thirty subtractions of 0.05 from 1.5 stay above zero after the 29th and fall just below zero at the 30th, so the source, like the model, lands on the 30th step.
- The commented-out code and the unused global `count` are left out.
- The wait loop stays as written (it spins while connected). Read as a description of intent, it would be a wait until connected; the model follows the code.
- The climb branch stays as written too: it sets the cruise altitude on every pass in the (5 s, 10 s) window, not once. The climb window and the hover timeout are measured from the last reset of the shared timer: the set-up, or the last negotiation request. Descent steps are timed from marking the peak or from the previous step.
- SequencerProperties.DescentBranch: "altitude never rises" is stated only for states satisfying the invariant. A state with negative altitude, which no run reaches, would be clamped up to zero.
