/**
 * Pure model of the offboard flight sequencer in src/test_setpoints_pos.cpp.
 *
 * Units: time is an integer number of milliseconds, altitude an integer number
 * of hundredths of a metre, thrust an integer number of hundredths of full
 * scale. The sequencer's locals (altitude, isPeak, isLand, last_request and
 * arm_cmd.request.value) form a State; one pass of the main loop is Step, a
 * run of passes is Run. Outbound traffic (mode requests, arm requests and the
 * two setpoint publications) is recorded as a sequence of Events.
 */
module Sequencer {

  const OFFBOARD: string := "OFFBOARD"
  /** Gate of the mode and arm negotiation: ros::Duration(5.0). */
  const REQUEST_INTERVAL: int := 5000
  /** The climb window (5 s, 10 s) and the hover timeout 15 s. */
  const CLIMB_OPENS: int := 5000
  const CLIMB_CLOSES: int := 10000
  const HOVER_ENDS: int := 15000
  /** One descent step every 0.5 s, of 0.05 m. */
  const DESCENT_INTERVAL: int := 500
  const DESCENT_STEP: int := 5
  /** Cruise altitude 1.5 m. */
  const CRUISE_ALTITUDE: int := 150
  /** Constant thrust 0.2 of full scale. */
  const THRUST_LEVEL: int := 20
  /** The prestream pose is (0, 0, 2 m), sent 100 times. */
  const PRESTREAM_ALTITUDE: int := 200
  const PRESTREAM_COUNT: nat := 100

  datatype Option<T> = None | Some(value: T)

  /** The vehicle status snapshot (mavros_msgs::State, the fields used). */
  datatype Status = Status(connected: bool, armed: bool, mode: string)

  /** The default-constructed status the global holds before any message. */
  const NO_STATUS: Status := Status(false, false, "")

  /** Outbound traffic of the node, in the order it is issued. */
  datatype Event =
    | ModeRequest(mode: string)
    | ArmRequest(value: bool)
    | ThrustSetpoint(thrust: int)
    | PoseSetpoint(x: int, y: int, z: int)
  {
    predicate IsRequest() {
      ModeRequest? || ArmRequest?
    }
  }

  /** The main loop's locals; armValue is arm_cmd.request.value. */
  datatype State = State(altitude: int, isPeak: bool, isLand: bool, lastRequest: int, armValue: bool)

  /** The state after some work, with the events that work issued. */
  datatype Outcome = Outcome(state: State, events: seq<Event>)

  /** One pass of the main loop: the status it reads and the clock reading. */
  datatype TickInput = TickInput(status: Status, now: int)

  /** The state set up just before the main loop, with last_request := now. */
  function Initial(now: int): (s: State)
    ensures Inv(s) && !s.isPeak && s.armValue && s.lastRequest == now
  {
    State(0, false, true, now, true)
  }

  /**
   * What holds of every state the main loop can reach: altitude is a whole
   * number of descent steps within [0, cruise], it is zero exactly when
   * isLand is set, and the arm value is false only after landing.
   */
  ghost predicate Inv(s: State) {
    && 0 <= s.altitude <= CRUISE_ALTITUDE
    && s.altitude % DESCENT_STEP == 0
    && (s.isLand <==> s.altitude == 0)
    && (!s.armValue ==> s.isPeak && s.isLand)
  }

  /** The requests among some events, in order. */
  function Requests(evs: seq<Event>): (r: seq<Event>)
    ensures |r| <= |evs|
    ensures forall e :: e in r ==> e in evs && e.IsRequest()
    ensures (forall e :: e in evs ==> !e.IsRequest()) ==> r == []
  {
    if evs == [] then []
    else (if evs[0].IsRequest() then [evs[0]] else []) + Requests(evs[1..])
  }

  /** Last-write-wins delivery of at most one status message. */
  function Latest(st: Status, msg: Option<Status>): (r: Status)
    ensures msg.Some? ==> r == msg.value
    ensures msg.None? ==> r == st
  {
    match msg
    case None => st
    case Some(m) => m
  }

  /** The status the global holds after delivering a run of messages. */
  function AfterSpins(st: Status, feed: seq<Option<Status>>): (r: Status)
    ensures r == st || exists k :: 0 <= k < |feed| && feed[k] == Some(r)
  {
    if feed == [] then st
    else Latest(AfterSpins(st, feed[..|feed| - 1]), feed[|feed| - 1])
  }

  /** The pair of setpoints every pass publishes: thrust, then pose (0, 0, z). */
  function Publish(z: int): (r: seq<Event>)
    ensures |r| == 2 && Requests(r) == []
    ensures r[0].ThrustSetpoint? && r[1].PoseSetpoint? && r[1].z == z
  {
    [ThrustSetpoint(THRUST_LEVEL), PoseSetpoint(0, 0, z)]
  }

  /** What n passes of the prestream loop publish. */
  function PrestreamLog(n: nat): (r: seq<Event>)
    ensures |r| == 2 * n
    ensures forall i :: 0 <= i < |r| ==>
      r[i] == if i % 2 == 0 then ThrustSetpoint(THRUST_LEVEL) else PoseSetpoint(0, 0, PRESTREAM_ALTITUDE)
  {
    if n == 0 then [] else PrestreamLog(n - 1) + Publish(PRESTREAM_ALTITUDE)
  }

  /**
   * The negotiation at the top of each pass: while the mode is not OFFBOARD
   * it asks for OFFBOARD, otherwise while the vehicle is disarmed it sends an
   * arm request with the current arm value; either only once the shared
   * timer is more than 5 s old, and either resets that timer.
   */
  function Negotiate(s: State, st: Status, now: int): (r: Outcome)
    ensures r.events != [] <==> now - s.lastRequest > REQUEST_INTERVAL && (st.mode != OFFBOARD || !st.armed)
    ensures r.events != [] ==> r.state == s.(lastRequest := now)
    ensures r.events == [] ==> r.state == s
    ensures r.events == [] || r.events == [ModeRequest(OFFBOARD)] || r.events == [ArmRequest(s.armValue)]
    ensures r.events == [ModeRequest(OFFBOARD)] <==> st.mode != OFFBOARD && now - s.lastRequest > REQUEST_INTERVAL
    ensures r.events == [ArmRequest(s.armValue)] ==> st.mode == OFFBOARD && !st.armed
  {
    if st.mode != OFFBOARD && now - s.lastRequest > REQUEST_INTERVAL then
      Outcome(s.(lastRequest := now), [ModeRequest(OFFBOARD)])
    else if !st.armed && now - s.lastRequest > REQUEST_INTERVAL then
      Outcome(s.(lastRequest := now), [ArmRequest(s.armValue)])
    else
      Outcome(s, [])
  }

  /**
   * The phase logic of each pass. With the vehicle in OFFBOARD and armed:
   * before the peak, set the cruise altitude inside the climb window and mark
   * the peak after the hover timeout; after the peak and before landing,
   * step the altitude down every 0.5 s and, on reaching the ground, clamp it
   * to zero, mark the landing and send one disarm request.
   */
  function Advance(s: State, st: Status, now: int): (r: Outcome)
    ensures r.events == [] || r.events == [ArmRequest(false)]
    ensures r.state != s ==> st.mode == OFFBOARD && st.armed
    ensures s.isPeak ==> r.state.isPeak
    ensures !s.armValue ==> r.state.armValue == s.armValue
    ensures r.events != [] <==> !s.isLand && r.state.isLand
    ensures r.events != [] ==> r.state.altitude == 0 && !r.state.armValue
    ensures Inv(s) ==> Inv(r.state)
  {
    if st.mode == OFFBOARD && st.armed && !s.isPeak then
      var dt := now - s.lastRequest;
      if CLIMB_OPENS < dt < CLIMB_CLOSES then
        Outcome(s.(altitude := CRUISE_ALTITUDE, isLand := false), [])
      else if dt > HOVER_ENDS then
        Outcome(s.(isPeak := true, lastRequest := now), [])
      else
        Outcome(s, [])
    else if st.mode == OFFBOARD && st.armed && s.isPeak && !s.isLand then
      var dt := now - s.lastRequest;
      if dt > DESCENT_INTERVAL then
        var lowered := s.altitude - DESCENT_STEP;
        if lowered <= 0 then
          Outcome(s.(altitude := 0, isLand := true, armValue := false, lastRequest := now), [ArmRequest(false)])
        else
          Outcome(s.(altitude := lowered, lastRequest := now), [])
      else
        Outcome(s, [])
    else
      Outcome(s, [])
  }

  /**
   * One pass of the main loop: negotiate, advance the phase, publish. A pass
   * ends with the thrust and the pose at the altitude it leaves and never
   * clears isPeak.
   */
  function Step(s: State, st: Status, now: int): (r: Outcome)
    ensures |r.events| >= 2
    ensures r.events[|r.events| - 2] == ThrustSetpoint(THRUST_LEVEL)
    ensures r.events[|r.events| - 1] == PoseSetpoint(0, 0, r.state.altitude)
    ensures s.isPeak ==> r.state.isPeak
  {
    var n := Negotiate(s, st, now);
    var a := Advance(n.state, st, now);
    Outcome(a.state, n.events + a.events + Publish(a.state.altitude))
  }

  /** A run of passes of the main loop, the events in issue order. */
  function Run(s: State, ticks: seq<TickInput>): (r: Outcome)
    ensures |r.events| >= 2 * |ticks|
  {
    if ticks == [] then Outcome(s, [])
    else
      var prev := Run(s, ticks[..|ticks| - 1]);
      var last := ticks[|ticks| - 1];
      var step := Step(prev.state, last.status, last.now);
      Outcome(step.state, prev.events + step.events)
  }
}
