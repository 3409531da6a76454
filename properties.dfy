/**
 * Properties of the sequencer model: what one pass of the main loop may
 * issue and change, and what holds over any run of passes.
 */
module SequencerProperties {
  import opened Sequencer

  /** The requests of two logs in a row are the requests of each, in a row. */
  lemma {:induction false} RequestsAppend(a: seq<Event>, b: seq<Event>)
    ensures Requests(a + b) == Requests(a) + Requests(b)
  {
    if a == [] {
      assert a + b == b;
    } else {
      assert (a + b)[0] == a[0];
      assert (a + b)[1..] == a[1..] + b;
      RequestsAppend(a[1..], b);
    }
  }

  /** The requests of a pass are its negotiation request and its disarm request. */
  lemma StepRequestsSplit(s: State, st: Status, now: int)
    ensures var n := Negotiate(s, st, now);
            var a := Advance(n.state, st, now);
            Requests(Step(s, st, now).events) == n.events + a.events
  {
    var n := Negotiate(s, st, now);
    var a := Advance(n.state, st, now);
    RequestsAppend(n.events + a.events, Publish(a.state.altitude));
    RequestsAppend(n.events, a.events);
  }

  /**
   * The two setpoints a pass ends with are its only publications: every
   * event before them is a request.
   */
  lemma StepPublishes(s: State, st: Status, now: int)
    ensures var r := Step(s, st, now);
            forall i :: 0 <= i < |r.events| - 2 ==> r.events[i].IsRequest()
  {
  }

  /** A pass keeps the invariant of reachable states. */
  lemma StepKeepsInv(s: State, st: Status, now: int)
    requires Inv(s)
    ensures Inv(Step(s, st, now).state)
  {
  }

  /**
   * A pass issues at most one request. A mode request needs a status that is
   * not OFFBOARD and a timer older than 5 s; an arm request, whether from the
   * negotiation or the disarm, needs OFFBOARD. Every request needs a timer
   * older than 0.5 s and leaves last_request at the current time.
   */
  lemma {:induction false} StepRequests(s: State, st: Status, now: int)
    ensures var r := Step(s, st, now);
            && |Requests(r.events)| <= 1
            && (Requests(r.events) != [] ==> now - s.lastRequest > DESCENT_INTERVAL && r.state.lastRequest == now)
            && (forall e :: e in Requests(r.events) && e.ModeRequest? ==>
                  st.mode != OFFBOARD && now - s.lastRequest > REQUEST_INTERVAL && e.mode == OFFBOARD)
            && (forall e :: e in Requests(r.events) && e.ArmRequest? ==> st.mode == OFFBOARD)
            && (!s.armValue ==> forall e :: e in Requests(r.events) && e.ArmRequest? ==> !e.value)
  {
    StepRequestsSplit(s, st, now);
    var n := Negotiate(s, st, now);
    if n.events != [] {
      assert st.mode != OFFBOARD || !st.armed;
      assert Advance(n.state, st, now).state == n.state;
    }
  }

  /**
   * The shared timer moves only to the current time: a pass leaves
   * last_request as it was or sets it to now, and a pass whose negotiation
   * sends a request leaves it at now.
   */
  lemma StepTimer(s: State, st: Status, now: int)
    ensures Step(s, st, now).state.lastRequest == s.lastRequest || Step(s, st, now).state.lastRequest == now
    ensures Negotiate(s, st, now).events != [] ==> Step(s, st, now).state.lastRequest == now
  {
  }

  /** Passes that all come at or after time t never set the timer before t. */
  lemma {:induction false} RunTimerAtLeast(s: State, ticks: seq<TickInput>, t: int)
    requires s.lastRequest >= t
    requires forall k :: 0 <= k < |ticks| ==> ticks[k].now >= t
    ensures Run(s, ticks).state.lastRequest >= t
  {
    if ticks != [] {
      var init := ticks[..|ticks| - 1];
      var last := ticks[|ticks| - 1];
      assert forall k :: 0 <= k < |init| ==> init[k] == ticks[k];
      RunTimerAtLeast(s, init, t);
      StepTimer(Run(s, init).state, last.status, last.now);
    }
  }

  /** A pass whose negotiation sends a request leaves the run's timer at its own time. */
  lemma TimerAfterRequest(s: State, ticks: seq<TickInput>, i: nat)
    requires i < |ticks|
    requires Negotiate(Run(s, ticks[..i]).state, ticks[i].status, ticks[i].now).events != []
    ensures Run(s, ticks[..i + 1]).state.lastRequest == ticks[i].now
  {
    RunSnoc(s, ticks, i);
    StepTimer(Run(s, ticks[..i]).state, ticks[i].status, ticks[i].now);
  }

  /** The state after the first j passes, as passes i + 1 to j - 1 run on from pass i. */
  lemma RunSplitAt(s: State, ticks: seq<TickInput>, i: nat, j: nat)
    requires i < j <= |ticks|
    ensures Run(s, ticks[..j]).state == Run(Run(s, ticks[..i + 1]).state, ticks[i + 1..j]).state
  {
    var head, mid := ticks[..i + 1], ticks[i + 1..j];
    assert head + mid == ticks[..j];
    RunAppend(s, head, mid);
  }

  /**
   * The negotiation throttle over a run: when passes i < j both send a
   * negotiation request and no pass between them has an earlier clock
   * reading than pass i, pass j comes more than 5 s after pass i.
   */
  lemma NegotiationSpacing(s: State, ticks: seq<TickInput>, i: nat, j: nat)
    requires i < j < |ticks|
    requires forall k :: i <= k <= j ==> ticks[k].now >= ticks[i].now
    requires Negotiate(Run(s, ticks[..i]).state, ticks[i].status, ticks[i].now).events != []
    requires Negotiate(Run(s, ticks[..j]).state, ticks[j].status, ticks[j].now).events != []
    ensures ticks[j].now - ticks[i].now > REQUEST_INTERVAL
  {
    var mid := ticks[i + 1..j];
    TimerAfterRequest(s, ticks, i);
    forall k | 0 <= k < |mid|
      ensures mid[k].now >= ticks[i].now
    {
      assert mid[k] == ticks[i + 1 + k];
    }
    RunTimerAtLeast(Run(s, ticks[..i + 1]).state, mid, ticks[i].now);
    RunSplitAt(s, ticks, i, j);
  }

  /**
   * The climb branch: with OFFBOARD and armed before the peak, a timer age
   * strictly inside (5 s, 10 s) sets the cruise altitude and clears isLand
   * without touching the timer; an age above 15 s marks the peak and resets
   * the timer; any other age changes nothing. No request is issued.
   */
  lemma ClimbBranch(s: State, st: Status, now: int)
    requires st.mode == OFFBOARD && st.armed && !s.isPeak
    ensures var r := Step(s, st, now);
            var dt := now - s.lastRequest;
            && Requests(r.events) == []
            && (CLIMB_OPENS < dt < CLIMB_CLOSES ==> r.state == s.(altitude := CRUISE_ALTITUDE, isLand := false))
            && (dt > HOVER_ENDS ==> r.state == s.(isPeak := true, lastRequest := now))
            && (CLIMB_CLOSES <= dt <= HOVER_ENDS || dt <= CLIMB_OPENS ==> r.state == s)
  {
    StepRequestsSplit(s, st, now);
  }

  /**
   * The descent branch: with OFFBOARD and armed after the peak and before
   * landing, altitude never rises; it falls exactly when the timer is older
   * than 0.5 s, then by exactly one step, and the timer is reset.
   */
  lemma DescentBranch(s: State, st: Status, now: int)
    requires Inv(s)
    requires st.mode == OFFBOARD && st.armed && s.isPeak && !s.isLand
    ensures Step(s, st, now).state.altitude <= s.altitude
    ensures Step(s, st, now).state.isPeak
    ensures Step(s, st, now).state.altitude < s.altitude <==> now - s.lastRequest > DESCENT_INTERVAL
    ensures now - s.lastRequest > DESCENT_INTERVAL ==>
              && Step(s, st, now).state.lastRequest == now
              && Step(s, st, now).state.altitude == s.altitude - DESCENT_STEP
    ensures now - s.lastRequest <= DESCENT_INTERVAL ==>
              Step(s, st, now).state == s && Requests(Step(s, st, now).events) == []
  {
    StepRequestsSplit(s, st, now);
  }

  /** One descent pass from a reachable state, as the schedule below uses it. */
  lemma DescentPass(s: State, st: Status, now: int)
    requires s.altitude >= DESCENT_STEP
    requires st.mode == OFFBOARD && st.armed && s.isPeak && !s.isLand
    requires now - s.lastRequest > DESCENT_INTERVAL
    ensures Step(s, st, now).state ==
              if s.altitude == DESCENT_STEP then s.(altitude := 0, isLand := true, armValue := false, lastRequest := now)
              else s.(altitude := s.altitude - DESCENT_STEP, lastRequest := now)
    ensures Requests(Step(s, st, now).events) ==
              if s.altitude == DESCENT_STEP then [ArmRequest(false)] else []
  {
    StepRequestsSplit(s, st, now);
  }

  /**
   * The landing: the step that brings altitude to zero or below clamps it to
   * exactly zero, sets isLand, turns the arm value to false and issues one
   * arm request, carrying false.
   */
  lemma Landing(s: State, st: Status, now: int)
    requires st.mode == OFFBOARD && st.armed && s.isPeak && !s.isLand
    requires now - s.lastRequest > DESCENT_INTERVAL && s.altitude - DESCENT_STEP <= 0
    ensures var r := Step(s, st, now);
            && r.state == s.(altitude := 0, isLand := true, armValue := false, lastRequest := now)
            && Requests(r.events) == [ArmRequest(false)]
  {
    StepRequestsSplit(s, st, now);
  }

  /** A run is its passes but the last, then the last pass. */
  lemma RunPrefix(s: State, ticks: seq<TickInput>)
    requires ticks != []
    ensures var prev := Run(s, ticks[..|ticks| - 1]);
            var last := ticks[|ticks| - 1];
            var step := Step(prev.state, last.status, last.now);
            && Run(s, ticks).state == step.state
            && Requests(Run(s, ticks).events) == Requests(prev.events) + Requests(step.events)
  {
    var prev := Run(s, ticks[..|ticks| - 1]);
    var last := ticks[|ticks| - 1];
    RequestsAppend(prev.events, Step(prev.state, last.status, last.now).events);
  }

  /** Appending to a log in two steps is appending once. */
  lemma AppendAssoc(a: seq<Event>, b: seq<Event>, c: seq<Event>)
    ensures (a + b) + c == a + (b + c)
  {
  }

  /** Running one more pass extends the run by that pass. */
  lemma RunSnoc(s: State, ticks: seq<TickInput>, i: nat)
    requires i < |ticks|
    ensures var prev := Run(s, ticks[..i]);
            var pass := Step(prev.state, ticks[i].status, ticks[i].now);
            Run(s, ticks[..i + 1]) == Outcome(pass.state, prev.events + pass.events)
  {
    assert ticks[..i + 1][..i] == ticks[..i];
  }

  /** Every reachable state keeps the invariant; in particular altitude stays in [0, 1.5 m]. */
  lemma {:induction false} RunKeepsInv(s: State, ticks: seq<TickInput>)
    requires Inv(s)
    ensures Inv(Run(s, ticks).state)
    ensures 0 <= Run(s, ticks).state.altitude <= CRUISE_ALTITUDE
  {
    if ticks != [] {
      var prev := Run(s, ticks[..|ticks| - 1]);
      var last := ticks[|ticks| - 1];
      RunKeepsInv(s, ticks[..|ticks| - 1]);
      StepKeepsInv(prev.state, last.status, last.now);
    }
  }

  /** Once isPeak is set no pass clears it. */
  lemma {:induction false} RunKeepsPeak(s: State, ticks: seq<TickInput>)
    requires s.isPeak
    ensures Run(s, ticks).state.isPeak
  {
    if ticks != [] {
      RunKeepsPeak(s, ticks[..|ticks| - 1]);
    }
  }

  /** A run issues at most one request per pass. */
  lemma {:induction false} RunRequestsBound(s: State, ticks: seq<TickInput>)
    ensures |Requests(Run(s, ticks).events)| <= |ticks|
  {
    if ticks != [] {
      var prev := Run(s, ticks[..|ticks| - 1]);
      var last := ticks[|ticks| - 1];
      RunRequestsBound(s, ticks[..|ticks| - 1]);
      RunPrefix(s, ticks);
      StepRequests(prev.state, last.status, last.now);
    }
  }

  /**
   * After the landing (isPeak and isLand both set) neither phase branch can
   * fire again: the altitude, both flags and the arm value stay as they are.
   */
  lemma {:induction false} RunAfterLanding(s: State, ticks: seq<TickInput>)
    requires s.isPeak && s.isLand
    ensures var f := Run(s, ticks).state;
            f.altitude == s.altitude && f.isPeak && f.isLand && f.armValue == s.armValue
  {
    if ticks != [] {
      RunAfterLanding(s, ticks[..|ticks| - 1]);
    }
  }

  /** Running a + b is running a, then running b from where a left off. */
  lemma {:induction false} RunAppend(s: State, a: seq<TickInput>, b: seq<TickInput>)
    ensures var first := Run(s, a);
            var second := Run(first.state, b);
            Run(s, a + b) == Outcome(second.state, first.events + second.events)
  {
    if b == [] {
      assert a + b == a;
    } else {
      var init := b[..|b| - 1];
      assert (a + b)[..|a + b| - 1] == a + init;
      assert (a + b)[|a + b| - 1] == b[|b| - 1];
      RunAppend(s, a, init);
      var first := Run(s, a);
      var last := b[|b| - 1];
      var pass := Step(Run(first.state, init).state, last.status, last.now);
      AppendAssoc(first.events, Run(first.state, init).events, pass.events);
    }
  }

  /**
   * After the peak the altitude never rises again: no run from a reachable
   * state with isPeak set ends higher than it started.
   */
  lemma {:induction false} RunAfterPeakNoRise(s: State, ticks: seq<TickInput>)
    requires Inv(s) && s.isPeak
    ensures Run(s, ticks).state.altitude <= s.altitude
  {
    if ticks != [] {
      var init := ticks[..|ticks| - 1];
      RunAfterPeakNoRise(s, init);
      RunKeepsInv(s, init);
      RunKeepsPeak(s, init);
    }
  }

  /**
   * The altitude is non-increasing for the remainder of execution once the
   * peak is marked: any later point of a run is no higher than any earlier.
   */
  lemma NoRiseAfterPeak(s: State, a: seq<TickInput>, b: seq<TickInput>)
    requires Inv(s) && s.isPeak
    ensures Run(s, a + b).state.altitude <= Run(s, a).state.altitude
  {
    RunAppend(s, a, b);
    RunKeepsInv(s, a);
    RunKeepsPeak(s, a);
    RunAfterPeakNoRise(Run(s, a).state, b);
  }

  /**
   * Between descent steps the 20 Hz loop runs passes that are not yet due:
   * with OFFBOARD and armed after the peak and before landing, passes within
   * 0.5 s of the last step change nothing and issue no request.
   */
  lemma {:induction false} RunIdle(s: State, ticks: seq<TickInput>)
    requires s.isPeak && !s.isLand
    requires forall k :: 0 <= k < |ticks| ==>
      && ticks[k].status.mode == OFFBOARD
      && ticks[k].status.armed
      && ticks[k].now - s.lastRequest <= DESCENT_INTERVAL
    ensures Run(s, ticks).state == s
    ensures Requests(Run(s, ticks).events) == []
  {
    if ticks != [] {
      var init := ticks[..|ticks| - 1];
      var last := ticks[|ticks| - 1];
      assert forall k :: 0 <= k < |init| ==> init[k] == ticks[k];
      RunIdle(s, init);
      RunPrefix(s, ticks);
      StepRequestsSplit(s, last.status, last.now);
    }
  }

  /**
   * The shared timer can skip the climb window: when the first pass that
   * sees OFFBOARD and armed before the peak finds the timer already older
   * than 15 s, it marks the peak while isLand is still set, and from then on
   * the altitude stays at zero, no disarm is ever sent and the arm value
   * stays true. Reaching such a pass needs a gap of at least 5 s between
   * consecutive passes (a blocking service call, say): at 20 Hz some pass
   * sees every timer age in (5 s, 10 s), and that pass either sets the
   * cruise altitude or sends a request that resets the timer.
   */
  lemma SkippedClimbNeverDescends(s: State, st: Status, now: int, later: seq<TickInput>)
    requires Inv(s) && !s.isPeak && s.isLand
    requires st.mode == OFFBOARD && st.armed && now - s.lastRequest > HOVER_ENDS
    ensures var f := Run(Step(s, st, now).state, later).state;
            f.altitude == 0 && f.isPeak && f.isLand && f.armValue
  {
    ClimbBranch(s, st, now);
    RunAfterLanding(Step(s, st, now).state, later);
  }

  /**
   * Once the arm value has been overwritten with false it is never reset, so
   * every later arm request carries false.
   */
  lemma {:induction false} RunDisarmedStaysFalse(s: State, ticks: seq<TickInput>)
    requires !s.armValue
    ensures !Run(s, ticks).state.armValue
    ensures forall e :: e in Requests(Run(s, ticks).events) && e.ArmRequest? ==> !e.value
  {
    if ticks != [] {
      var prev := Run(s, ticks[..|ticks| - 1]);
      var last := ticks[|ticks| - 1];
      RunDisarmedStaysFalse(s, ticks[..|ticks| - 1]);
      RunPrefix(s, ticks);
      StepRequests(prev.state, last.status, last.now);
    }
  }

  /** A pass that does not see OFFBOARD moves only the timer, and asks only for OFFBOARD. */
  lemma StepNotOffboard(s: State, st: Status, now: int)
    requires st.mode != OFFBOARD
    ensures var r := Step(s, st, now);
            && r.state == s.(lastRequest := r.state.lastRequest)
            && forall e :: e in Requests(r.events) ==> e == ModeRequest(OFFBOARD)
  {
    StepRequestsSplit(s, st, now);
  }

  /**
   * A status feed that never reports OFFBOARD keeps the sequencer negotiating
   * forever: no arm request is ever sent and only the timer moves.
   */
  lemma {:induction false} RunNeverOffboard(s: State, ticks: seq<TickInput>)
    requires forall k :: 0 <= k < |ticks| ==> ticks[k].status.mode != OFFBOARD
    ensures Run(s, ticks).state == s.(lastRequest := Run(s, ticks).state.lastRequest)
    ensures forall e :: e in Requests(Run(s, ticks).events) ==> e == ModeRequest(OFFBOARD)
  {
    if ticks != [] {
      var init := ticks[..|ticks| - 1];
      var prev := Run(s, init);
      var last := ticks[|ticks| - 1];
      assert forall k :: 0 <= k < |init| ==> init[k] == ticks[k];
      RunNeverOffboard(s, init);
      RunPrefix(s, ticks);
      StepNotOffboard(prev.state, last.status, last.now);
    }
  }

  /** The time of the last of some passes, or t0 when there are none. */
  function LastTime(t0: int, ticks: seq<TickInput>): int {
    if ticks == [] then t0 else ticks[|ticks| - 1].now
  }

  /**
   * A descent feed: every pass sees OFFBOARD and armed, and each pass comes
   * more than 0.5 s after the one before it (the first, after t0).
   */
  ghost predicate DescentFeed(t0: int, ticks: seq<TickInput>) {
    forall k :: 0 <= k < |ticks| ==>
      && ticks[k].status.mode == OFFBOARD
      && ticks[k].status.armed
      && ticks[k].now - LastTime(t0, ticks[..k]) > DESCENT_INTERVAL
  }

  /** A descent feed restricted to its first passes is still a descent feed. */
  lemma DescentFeedPrefix(t0: int, ticks: seq<TickInput>)
    requires ticks != [] && DescentFeed(t0, ticks)
    ensures DescentFeed(t0, ticks[..|ticks| - 1])
    ensures ticks[|ticks| - 1].now - LastTime(t0, ticks[..|ticks| - 1]) > DESCENT_INTERVAL
  {
    var init := ticks[..|ticks| - 1];
    forall k | 0 <= k < |init|
      ensures init[k] == ticks[k] && init[..k] == ticks[..k]
    {
    }
  }

  /**
   * From the peak, each pass of a descent feed lowers the altitude by one
   * step and issues no request, as long as the ground is not reached.
   */
  lemma {:induction false} DescentProgress(s: State, ticks: seq<TickInput>)
    requires s.isPeak && !s.isLand
    requires DescentFeed(s.lastRequest, ticks)
    requires DESCENT_STEP * |ticks| < s.altitude
    ensures Run(s, ticks).state ==
              s.(altitude := s.altitude - DESCENT_STEP * |ticks|, lastRequest := LastTime(s.lastRequest, ticks))
    ensures Requests(Run(s, ticks).events) == []
  {
    if ticks != [] {
      var init := ticks[..|ticks| - 1];
      var last := ticks[|ticks| - 1];
      DescentFeedPrefix(s.lastRequest, ticks);
      DescentProgress(s, init);
      RunPrefix(s, ticks);
      var prev := Run(s, init).state;
      assert prev.altitude == s.altitude - DESCENT_STEP * |init| > DESCENT_STEP;
      DescentPass(prev, last.status, last.now);
      assert Run(s, ticks).state == prev.(altitude := prev.altitude - DESCENT_STEP, lastRequest := last.now);
    }
  }

  /**
   * The pass numbered altitude / 0.05 of a descent feed lands: the altitude
   * is exactly zero, isLand is set, the arm value is false, and over the
   * whole descent exactly one request was issued, an arm request carrying
   * false.
   */
  lemma DescentSchedule(s: State, ticks: seq<TickInput>)
    requires s.isPeak && !s.isLand && s.altitude > 0
    requires DescentFeed(s.lastRequest, ticks)
    requires DESCENT_STEP * |ticks| == s.altitude
    ensures Run(s, ticks).state ==
              s.(altitude := 0, isLand := true, armValue := false, lastRequest := LastTime(s.lastRequest, ticks))
    ensures Requests(Run(s, ticks).events) == [ArmRequest(false)]
  {
    var init := ticks[..|ticks| - 1];
    var last := ticks[|ticks| - 1];
    DescentFeedPrefix(s.lastRequest, ticks);
    DescentProgress(s, init);
    RunPrefix(s, ticks);
    var prev := Run(s, init).state;
    assert prev.altitude == s.altitude - DESCENT_STEP * |init| == DESCENT_STEP;
    DescentPass(prev, last.status, last.now);
    assert Run(s, ticks).state ==
           prev.(altitude := 0, isLand := true, armValue := false, lastRequest := last.now);
  }

  /** From the cruise altitude, the thirtieth descent pass lands. */
  lemma CruiseDescentLands(s: State, ticks: seq<TickInput>)
    requires s.altitude == CRUISE_ALTITUDE && s.isPeak && !s.isLand
    requires DescentFeed(s.lastRequest, ticks) && |ticks| == 30
    ensures Run(s, ticks).state.altitude == 0 && Run(s, ticks).state.isLand && !Run(s, ticks).state.armValue
    ensures Requests(Run(s, ticks).events) == [ArmRequest(false)]
  {
    DescentSchedule(s, ticks);
  }

  /**
   * The prestream publishes 100 thrust and pose pairs and no request, so in
   * a log that starts with it every request comes after those 200 events.
   */
  lemma {:induction false} PrestreamHasNoRequests(n: nat)
    ensures Requests(PrestreamLog(n)) == []
  {
    if n > 0 {
      PrestreamHasNoRequests(n - 1);
      RequestsAppend(PrestreamLog(n - 1), Publish(PRESTREAM_ALTITUDE));
    }
  }

  lemma PrestreamPrecedesRequests(flight: seq<Event>)
    ensures var log := PrestreamLog(PRESTREAM_COUNT) + flight;
            && (forall i :: 0 <= i < 2 * PRESTREAM_COUNT ==> !log[i].IsRequest())
            && Requests(log) == Requests(flight)
  {
    PrestreamHasNoRequests(PRESTREAM_COUNT);
    RequestsAppend(PrestreamLog(PRESTREAM_COUNT), flight);
    var log := PrestreamLog(PRESTREAM_COUNT) + flight;
    forall i | 0 <= i < 2 * PRESTREAM_COUNT ensures !log[i].IsRequest() {
      assert log[i] == PrestreamLog(PRESTREAM_COUNT)[i];
    }
  }

  /**
   * Last write wins over any number of spins: the held status is the last
   * message delivered, or the starting status when none was delivered.
   */
  lemma {:induction false} AfterSpinsLastWins(st: Status, feed: seq<Option<Status>>)
    ensures (forall k :: 0 <= k < |feed| ==> feed[k].None?) ==> AfterSpins(st, feed) == st
    ensures forall k :: 0 <= k < |feed| && feed[k].Some? && (forall j :: k < j < |feed| ==> feed[j].None?) ==>
              AfterSpins(st, feed) == feed[k].value
  {
    if feed != [] {
      var init := feed[..|feed| - 1];
      assert forall k :: 0 <= k < |init| ==> init[k] == feed[k];
      AfterSpinsLastWins(st, init);
    }
  }
}
