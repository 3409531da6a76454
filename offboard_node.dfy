/**
 * The offboard node of src/test_setpoints_pos.cpp as an object: the global
 * status written by the subscription callback, the locals of main that the
 * main loop updates in place, and the log of everything the node publishes
 * or requests. Each method is specified by the pure functions of Sequencer.
 */
module OffboardNode {
  import opened Sequencer
  import SequencerProperties

  class Node {
    /** current_state, overwritten by the status callback. */
    var currentState: Status
    var altitude: int
    var isPeak: bool
    var isLand: bool
    var lastRequest: int
    /** arm_cmd.request.value */
    var armValue: bool
    /** Setpoints published and requests sent, oldest first. */
    var log: seq<Event>

    /** The main loop's locals as one value. */
    function Locals(): State
      reads this
    {
      State(altitude, isPeak, isLand, lastRequest, armValue)
    }

    ghost predicate Valid()
      reads this
    {
      Inv(Locals())
    }

    /**
     * Process start: the global status is default-constructed; the locals
     * hold the values main gives them before its loop, with the timer at 0
     * until Setup reads the clock.
     */
    constructor ()
      ensures currentState == NO_STATUS && log == []
      ensures Locals() == Initial(0) && Valid()
    {
      currentState := NO_STATUS;
      altitude, isPeak, isLand, lastRequest, armValue := 0, false, true, 0, true;
      log := [];
    }

    /** The subscription callback: last write wins. */
    method StateCallback(msg: Status)
      modifies this`currentState
      ensures currentState == msg
    {
      currentState := msg;
    }

    /** ros::spinOnce: delivers the latest pending status message, if any. */
    method SpinOnce(msg: Option<Status>)
      modifies this`currentState
      ensures currentState == Latest(old(currentState), msg)
    {
      if msg.Some? {
        StateCallback(msg.value);
      }
    }

    /**
     * The wait before the prestream. As written it spins while the status
     * says connected (not while it says disconnected), so from the default
     * status it returns at once. It stops when the status is not connected
     * or the feed of pending messages runs out; the spins done are returned.
     */
    method AwaitConnection(feed: seq<Option<Status>>) returns (spins: nat)
      modifies this`currentState
      ensures spins <= |feed|
      ensures currentState == AfterSpins(old(currentState), feed[..spins])
      ensures spins < |feed| ==> !currentState.connected
      ensures forall j :: 0 <= j < spins ==> AfterSpins(old(currentState), feed[..j]).connected
      ensures !old(currentState).connected ==> spins == 0
    {
      spins := 0;
      while spins < |feed| && currentState.connected
        invariant spins <= |feed|
        invariant currentState == AfterSpins(old(currentState), feed[..spins])
        invariant forall j :: 0 <= j < spins ==> AfterSpins(old(currentState), feed[..j]).connected
      {
        assert feed[..spins + 1][..spins] == feed[..spins];
        SpinOnce(feed[spins]);
        spins := spins + 1;
      }
    }

    /**
     * The prestream: 100 passes, each publishing the thrust and the pose
     * (0, 0, 2 m) and then spinning; spin number i delivers feed[i] when the
     * feed has one. No request is sent.
     */
    method Prestream(feed: seq<Option<Status>>)
      modifies this`currentState, this`log
      ensures log == old(log) + PrestreamLog(PRESTREAM_COUNT)
      ensures currentState == AfterSpins(old(currentState), feed[..Min(|feed|, PRESTREAM_COUNT)])
    {
      var i: int := PRESTREAM_COUNT;
      while i > 0
        invariant 0 <= i <= PRESTREAM_COUNT
        invariant log == old(log) + PrestreamLog(PRESTREAM_COUNT - i)
        invariant currentState == AfterSpins(old(currentState), feed[..Min(|feed|, PRESTREAM_COUNT - i)])
      {
        var done := PRESTREAM_COUNT - i;
        SequencerProperties.AppendAssoc(old(log), PrestreamLog(done), Publish(PRESTREAM_ALTITUDE));
        log := log + Publish(PRESTREAM_ALTITUDE);
        if done < |feed| {
          assert feed[..done + 1][..done] == feed[..done];
          SpinOnce(feed[done]);
        } else {
          SpinOnce(None);
        }
        i := i - 1;
      }
    }

    /** The set-up between the prestream and the main loop; now is the clock reading. */
    method Setup(now: int)
      modifies this`altitude, this`isPeak, this`isLand, this`lastRequest, this`armValue
      ensures Locals() == Initial(now) && Valid()
    {
      armValue := true;
      lastRequest := now;
      altitude := 0;
      isPeak := false;
      isLand := true;
    }

    /** The negotiation block at the top of a pass. */
    method Negotiation(now: int)
      modifies this`lastRequest, this`log
      ensures Locals() == Negotiate(old(Locals()), currentState, now).state
      ensures log == old(log) + Negotiate(old(Locals()), currentState, now).events
    {
      if currentState.mode != OFFBOARD && now - lastRequest > REQUEST_INTERVAL {
        log := log + [ModeRequest(OFFBOARD)];
        lastRequest := now;
      } else {
        if !currentState.armed && now - lastRequest > REQUEST_INTERVAL {
          log := log + [ArmRequest(armValue)];
          lastRequest := now;
        }
      }
    }

    /** The climb, hover and descent block of a pass. */
    method Phase(now: int)
      modifies this`altitude, this`isPeak, this`isLand, this`lastRequest, this`armValue, this`log
      ensures Locals() == Advance(old(Locals()), currentState, now).state
      ensures log == old(log) + Advance(old(Locals()), currentState, now).events
    {
      if currentState.mode == OFFBOARD && currentState.armed && !isPeak {
        var dt := now - lastRequest;
        if CLIMB_OPENS < dt < CLIMB_CLOSES {
          altitude := CRUISE_ALTITUDE;
          isLand := false;
        } else if dt > HOVER_ENDS {
          isPeak := true;
          lastRequest := now;
        }
      } else if currentState.mode == OFFBOARD && currentState.armed && isPeak && !isLand {
        var dt := now - lastRequest;
        if dt > DESCENT_INTERVAL {
          altitude := altitude - DESCENT_STEP;
          if altitude <= 0 {
            isLand := true;
            altitude := 0;
            armValue := false;
            log := log + [ArmRequest(armValue)];
          }
          lastRequest := now;
        }
      }
    }

    /**
     * One pass of the main loop up to its spin, reading the status once and
     * the clock once (now): negotiation, phase logic, then the thrust and the
     * pose (0, 0, altitude) with the altitude this pass left.
     */
    method Tick(now: int)
      modifies this`altitude, this`isPeak, this`isLand, this`lastRequest, this`armValue, this`log
      ensures Locals() == Step(old(Locals()), currentState, now).state
      ensures log == old(log) + Step(old(Locals()), currentState, now).events
      ensures old(Valid()) ==> Valid()
    {
      ghost var negotiated := Negotiate(Locals(), currentState, now);
      Negotiation(now);
      ghost var advanced := Advance(Locals(), currentState, now);
      Phase(now);
      SequencerProperties.AppendAssoc(old(log), negotiated.events, advanced.events);
      SequencerProperties.AppendAssoc(old(log), negotiated.events + advanced.events, Publish(altitude));
      log := log + Publish(altitude);
      if old(Valid()) {
        SequencerProperties.StepKeepsInv(old(Locals()), currentState, now);
      }
    }

    /**
     * One pass as the main loop runs it: the status the preceding spin
     * delivered, then the pass at clock reading t.now.
     */
    method Pass(t: TickInput)
      modifies this
      ensures currentState == t.status
      ensures Locals() == Step(old(Locals()), t.status, t.now).state
      ensures log == old(log) + Step(old(Locals()), t.status, t.now).events
    {
      StateCallback(t.status);
      Tick(t.now);
    }

    /** Passes of the main loop, pass i receiving ticks[i]. */
    method Fly(ticks: seq<TickInput>)
      modifies this
      ensures Locals() == Run(old(Locals()), ticks).state
      ensures log == old(log) + Run(old(Locals()), ticks).events
      ensures ticks != [] ==> currentState == ticks[|ticks| - 1].status
      ensures ticks == [] ==> currentState == old(currentState)
      ensures old(Valid()) ==> Valid()
    {
      ghost var start := Locals();
      ghost var mark := log;
      ghost var done: seq<Event> := [];
      var i := 0;
      while i < |ticks|
        invariant 0 <= i <= |ticks|
        invariant done == Run(start, ticks[..i]).events
        invariant Locals() == Run(start, ticks[..i]).state
        invariant log == mark + done
        invariant i > 0 ==> currentState == ticks[i - 1].status
        invariant i == 0 ==> currentState == old(currentState)
      {
        ghost var prev := Run(start, ticks[..i]);
        ghost var pass := Step(prev.state, ticks[i].status, ticks[i].now);
        Pass(ticks[i]);
        SequencerProperties.AppendAssoc(mark, done, pass.events);
        SequencerProperties.RunSnoc(start, ticks, i);
        done := done + pass.events;
        i := i + 1;
      }
      assert ticks[..|ticks|] == ticks;
      if Inv(start) {
        SequencerProperties.RunKeepsInv(start, ticks);
      }
    }
  }

  function Min(a: int, b: int): (m: int)
    ensures m <= a && m <= b && (m == a || m == b)
  {
    if a <= b then a else b
  }

  /**
   * Everything main does before its loop: the wait, the prestream and the
   * set-up at clock reading start. The node starts with the default,
   * disconnected status, so the wait (which spins only while connected)
   * does not spin at all and the prestream starts at once; waitFeed is never
   * consumed.
   */
  method Launch(waitFeed: seq<Option<Status>>, preFeed: seq<Option<Status>>, start: int)
    returns (node: Node)
    ensures fresh(node)
    ensures node.log == PrestreamLog(PRESTREAM_COUNT)
    ensures node.currentState == AfterSpins(NO_STATUS, preFeed[..Min(|preFeed|, PRESTREAM_COUNT)])
    ensures node.Locals() == Initial(start) && node.Valid()
  {
    node := new Node();
    var spins := node.AwaitConnection(waitFeed);
    assert spins == 0;
    node.Prestream(preFeed);
    node.Setup(start);
  }

  /**
   * The whole program: the start-up of Launch, then the passes of the main
   * loop. The log is the prestream followed by the flight, so none of the
   * first 200 events is a request and every request comes from the passes.
   */
  method Flight(waitFeed: seq<Option<Status>>, preFeed: seq<Option<Status>>, start: int, ticks: seq<TickInput>)
    returns (node: Node)
    ensures fresh(node)
    ensures node.log == PrestreamLog(PRESTREAM_COUNT) + Run(Initial(start), ticks).events
    ensures node.Locals() == Run(Initial(start), ticks).state && node.Valid()
    ensures forall i :: 0 <= i < 2 * PRESTREAM_COUNT ==> !node.log[i].IsRequest()
    ensures Requests(node.log) == Requests(Run(Initial(start), ticks).events)
  {
    node := Launch(waitFeed, preFeed, start);
    node.Fly(ticks);
    SequencerProperties.PrestreamPrecedesRequests(Run(Initial(start), ticks).events);
  }
}
