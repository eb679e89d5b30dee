/** The activity of an electric taxi staying at a charger. It goes through
    four states: `Init` (just arrived), `Queued` (waiting for a free plug),
    `Plugged` (charging) and `Unplugged` (charged). Its end time is pushed
    forward while the taxi waits or charges, and set by the charger's
    notifications.

    The charging logic's estimates and the simulation clock's time of day
    are parameters; the two calls made on the charging logic are recorded
    in a ghost log. */
module ETaxiCharging {

  datatype State = Init | Queued | Plugged | Unplugged

  /** An activity end time: END_ACTIVITY_LATER (positive infinity) or a
      simulated time. */
  datatype EndTime = Later | At(time: real)

  /** `endTime <= now`, with Later greater than every time. */
  predicate Reached(e: EndTime, now: real) {
    e.At? && e.time <= now
  }

  /** What the timer and the charging logic report when the activity
      initialises. */
  datatype Estimates = Estimates(timeOfDay: real, maxWaitTimeOnArrival: real, chargeTime: real)

  /** Calls made on the charging logic. */
  datatype LogicCall = RemoveDispatchedVehicle | AddVehicle

  /** The activity's state and end time as a value. */
  datatype Charger = Charger(state: State, endTime: EndTime)

  /** The value the activity starts with. */
  function NewCharger(): Charger {
    Charger(Init, Later)
  }

  /** doSimStep(now). */
  function SimStep(a: Charger, now: real, est: Estimates): Charger {
    match a.state
    case Queued | Plugged =>
      if Reached(a.endTime, now) then a.(endTime := At(now + 1.0)) else a
    case Init =>
      Charger(Queued, At(est.timeOfDay + est.maxWaitTimeOnArrival + est.chargeTime))
    case Unplugged => a
  }

  /** notifyChargingStarted(), at `timeOfDay`, with the logic's charge time estimate. */
  function ChargingStarted(a: Charger, timeOfDay: real, chargeTime: real): Charger {
    Charger(Plugged, At(timeOfDay + chargeTime))
  }

  /** notifyChargingEnded(), at `timeOfDay`. */
  function ChargingEnded(a: Charger, timeOfDay: real): Charger {
    Charger(Unplugged, At(timeOfDay))
  }

  class ETaxiAtChargerActivity {
    var state: State
    var endTime: EndTime
    ghost var logicCalls: seq<LogicCall>

    function Snapshot(): Charger
      reads this
    {
      Charger(state, endTime)
    }

    constructor ()
      ensures state == Init && endTime == Later && logicCalls == []
      ensures Snapshot() == NewCharger()
    {
      state := Init;
      endTime := Later;
      logicCalls := [];
    }

    method DoSimStep(now: real, est: Estimates)
      modifies this
      ensures old(state) == Init ==>
        && state == Queued
        && endTime == At(est.timeOfDay + est.maxWaitTimeOnArrival + est.chargeTime)
        && logicCalls == old(logicCalls) + [RemoveDispatchedVehicle, AddVehicle]
      ensures old(state) in {Queued, Plugged} ==>
        && state == old(state)
        && endTime == (if Reached(old(endTime), now) then At(now + 1.0) else old(endTime))
        && logicCalls == old(logicCalls)
      ensures old(state) == Unplugged ==>
        state == old(state) && endTime == old(endTime) && logicCalls == old(logicCalls)
      ensures Snapshot() == SimStep(old(Snapshot()), now, est)
    {
      match state {
        case Queued =>
          if Reached(endTime, now) {
            endTime := At(now + 1.0);
          }
        case Plugged =>
          if Reached(endTime, now) {
            endTime := At(now + 1.0);
          }
        case Init =>
          Initialize(est);
        case Unplugged =>
      }
    }

    method Initialize(est: Estimates)
      modifies this
      ensures state == Queued
      ensures endTime == At(est.timeOfDay + est.maxWaitTimeOnArrival + est.chargeTime)
      ensures logicCalls == old(logicCalls) + [RemoveDispatchedVehicle, AddVehicle]
    {
      logicCalls := logicCalls + [RemoveDispatchedVehicle];
      logicCalls := logicCalls + [AddVehicle];
      endTime := At(est.timeOfDay + est.maxWaitTimeOnArrival + est.chargeTime);
      state := Queued;
    }

    method GetEndTime() returns (t: EndTime)
      ensures t == endTime
    {
      t := endTime;
    }

    method NotifyChargingStarted(timeOfDay: real, chargeTime: real)
      modifies this
      ensures state == Plugged && endTime == At(timeOfDay + chargeTime)
      ensures logicCalls == old(logicCalls)
      ensures Snapshot() == ChargingStarted(old(Snapshot()), timeOfDay, chargeTime)
    {
      endTime := At(timeOfDay + chargeTime);
      state := Plugged;
    }

    method NotifyChargingEnded(timeOfDay: real)
      modifies this
      ensures state == Unplugged && endTime == At(timeOfDay)
      ensures logicCalls == old(logicCalls)
      ensures Snapshot() == ChargingEnded(old(Snapshot()), timeOfDay)
    {
      endTime := At(timeOfDay);
      state := Unplugged;
    }
  }

  // ---------------------------------------------------------------------
  // Properties of the activity
  // ---------------------------------------------------------------------

  /** What happens to an activity: a simulation step, or a notification
      from the charger. */
  datatype ActivityEvent =
    | SimStepAt(now: real, est: Estimates)
    | ChargingStartedAt(timeOfDay: real, chargeTime: real)
    | ChargingEndedAt(timeOfDay: real)

  function Apply(a: Charger, ev: ActivityEvent): Charger {
    match ev
    case SimStepAt(now, est) => SimStep(a, now, est)
    case ChargingStartedAt(t, c) => ChargingStarted(a, t, c)
    case ChargingEndedAt(t) => ChargingEnded(a, t)
  }

  function Run(a: Charger, evs: seq<ActivityEvent>): Charger
    decreases |evs|
  {
    if evs == [] then a else Run(Apply(a, evs[0]), evs[1..])
  }

  /** The activity still waits for its first step exactly when its end time
      is END_ACTIVITY_LATER. */
  predicate InitIffLater(a: Charger) {
    a.state == Init <==> a.endTime.Later?
  }

  /** Every sequence of events from a new activity keeps `InitIffLater`. */
  lemma {:induction false} RunKeepsInitIffLater(a: Charger, evs: seq<ActivityEvent>)
    requires InitIffLater(a)
    ensures InitIffLater(Run(a, evs))
    decreases |evs|
  {
    if evs != [] {
      RunKeepsInitIffLater(Apply(a, evs[0]), evs[1..]);
    }
  }

  /** A step on a queued or plugged activity keeps its state and leaves its
      end time strictly after `now`; the end time moves only when it had
      been reached, and then to `now + 1`. */
  lemma SimStepWhileWaiting(a: Charger, now: real, est: Estimates)
    requires a.state == Queued || a.state == Plugged
    ensures SimStep(a, now, est).state == a.state
    ensures !Reached(SimStep(a, now, est).endTime, now)
    ensures SimStep(a, now, est).endTime != a.endTime <==> Reached(a.endTime, now)
    ensures Reached(a.endTime, now) ==> SimStep(a, now, est).endTime == At(now + 1.0)
  {
  }

  /** Stepping twice at the same time is stepping once, past the first step. */
  lemma SimStepIdempotent(a: Charger, now: real, est: Estimates, est': Estimates)
    requires a.state != Init
    ensures SimStep(SimStep(a, now, est), now, est') == SimStep(a, now, est)
  {
  }

  function Steps(nows: seq<real>, est: Estimates): seq<ActivityEvent> {
    seq(|nows|, i requires 0 <= i < |nows| => SimStepAt(nows[i], est))
  }

  /** Through simulation steps alone a queued or plugged activity stays in
      its state, its end time never goes back, and after the last step it
      is still after that step's time. */
  lemma {:induction false} StepsWhileWaiting(a: Charger, nows: seq<real>, est: Estimates)
    requires a.state == Queued || a.state == Plugged
    requires a.endTime.At?
    ensures var r := Run(a, Steps(nows, est));
      && r.state == a.state
      && r.endTime.At? && r.endTime.time >= a.endTime.time
      && (|nows| > 0 ==> r.endTime.time > nows[|nows| - 1])
    decreases |nows|
  {
    if nows != [] {
      var evs := Steps(nows, est);
      assert evs[0] == SimStepAt(nows[0], est);
      assert evs[1..] == Steps(nows[1..], est);
      var b := SimStep(a, nows[0], est);
      StepsWhileWaiting(b, nows[1..], est);
      if |nows| == 1 {
        assert evs[1..] == [];
      } else {
        assert nows[1..][|nows[1..]| - 1] == nows[|nows| - 1];
      }
    }
  }

  /** Once charging has ended, simulation steps change nothing. */
  lemma {:induction false} UnpluggedIsFinal(a: Charger, nows: seq<real>, est: Estimates)
    requires a.state == Unplugged
    ensures Run(a, Steps(nows, est)) == a
    decreases |nows|
  {
    if nows != [] {
      var evs := Steps(nows, est);
      assert evs[0] == SimStepAt(nows[0], est);
      assert evs[1..] == Steps(nows[1..], est);
      UnpluggedIsFinal(a, nows[1..], est);
    }
  }
}
