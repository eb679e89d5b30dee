/** The per-mode trip travel-time handler: an event handler that records,
    for every leg mode and person, the travel time of each trip, measured
    from the person's departure event to the matching arrival event.
    Transit drivers are excluded: their start event puts them on a list,
    which their next arrival takes them off again.

    Event times are `real`s (Java doubles, without rounding); the log
    messages are not modelled. */
module ModalTripTravelTime {
  import opened Common

  type PersonId = string

  /** leg mode -> person -> the travel times of that person's trips, in
      arrival order. */
  type TravelTimeTable = map<string, map<PersonId, seq<real>>>

  datatype Event =
    | PersonDeparture(time: real, person: PersonId)
    | PersonArrival(time: real, person: PersonId, legMode: string)
    | PersonStuck(time: real, person: PersonId)
    | TransitDriverStarts(driver: PersonId)

  /** An arrival without a pending departure: unboxing the missing
      departure time throws a NullPointerException. */
  datatype HandlerError = MissingDeparture(person: PersonId)

  /** The recorded trips of `person` under `mode`; none when absent. */
  function Trips(t: TravelTimeTable, mode: string, person: PersonId): seq<real> {
    if mode in t && person in t[mode] then t[mode][person] else []
  }

  /** Appends one travel time under (mode, person), creating the mode's map
      and the person's list when they are absent. */
  function AddTravelTime(t: TravelTimeTable, mode: string, person: PersonId, travelTime: real): (r: TravelTimeTable)
    ensures r.Keys == t.Keys + {mode}
    ensures r[mode].Keys == (if mode in t then t[mode].Keys else {}) + {person}
    ensures Trips(r, mode, person) == Trips(t, mode, person) + [travelTime]
    ensures forall m, p :: (m, p) != (mode, person) ==> Trips(r, m, p) == Trips(t, m, p)
  {
    if mode in t then
      var byPerson := t[mode];
      if person in byPerson then
        t[mode := byPerson[person := byPerson[person] + [travelTime]]]
      else
        t[mode := byPerson[person := [travelTime]]]
    else
      t[mode := map[person := [travelTime]]]
  }

  /** List.remove(Object): removes the first occurrence of `x`, if any. */
  function RemoveFirst(s: seq<PersonId>, x: PersonId): (r: seq<PersonId>)
    ensures x in s ==> multiset(r) == multiset(s) - multiset{x}
    ensures x !in s ==> r == s
  {
    if s == [] then []
    else
      assert s == [s[0]] + s[1..];
      if s[0] == x then s[1..]
      else [s[0]] + RemoveFirst(s[1..], x)
  }

  /** The removal takes out the first occurrence and keeps the order of
      the other elements. */
  lemma {:induction false} RemoveFirstAt(s: seq<PersonId>, x: PersonId, i: nat)
    requires i < |s| && s[i] == x && x !in s[..i]
    ensures RemoveFirst(s, x) == s[..i] + s[i + 1..]
  {
    if i > 0 {
      assert s[0] in s[..i];
      assert s[1..][..i - 1] == s[1..i];
      RemoveFirstAt(s[1..], x, i - 1);
      assert s[..i] == [s[0]] + s[1..i];
    }
  }

  /** Removing a driver appended to a list that did not hold it restores the list. */
  lemma {:induction false} RemoveFirstOfAppended(s: seq<PersonId>, x: PersonId)
    requires x !in s
    ensures RemoveFirst(s + [x], x) == s
  {
    if s != [] {
      assert (s + [x])[1..] == s[1..] + [x];
      RemoveFirstOfAppended(s[1..], x);
      assert s == [s[0]] + s[1..];
    }
  }

  // ---------------------------------------------------------------------
  // The handler's state as a value, and its response to one event
  // ---------------------------------------------------------------------

  datatype HandlerState = HandlerState(
    travelTimes: TravelTimeTable,
    departures: map<PersonId, real>,
    legCounts: map<string, real>,
    transitDrivers: seq<PersonId>,
    warnCount: int)

  /** The state after `ev`, or the exception it throws (the state is then
      as before). */
  function Handle(s: HandlerState, ev: Event): Result<HandlerState, HandlerError> {
    match ev
    case PersonDeparture(time, p) =>
      if p in s.transitDrivers then Ok(s)
      else Ok(s.(departures := s.departures[p := time]))
    case PersonArrival(time, p, mode) =>
      if p in s.transitDrivers then Ok(s.(transitDrivers := RemoveFirst(s.transitDrivers, p)))
      else if p !in s.departures then Err(MissingDeparture(p))
      else Ok(s.(departures := s.departures - {p},
                 travelTimes := AddTravelTime(s.travelTimes, mode, p, time - s.departures[p])))
    case PersonStuck(_, _) => Ok(s.(warnCount := s.warnCount + 1))
    case TransitDriverStarts(d) => Ok(s.(transitDrivers := s.transitDrivers + [d]))
  }

  /** The state after `reset`: every table empty, the warning count kept. */
  function Cleared(s: HandlerState): HandlerState {
    HandlerState(map[], map[], map[], [], s.warnCount)
  }

  /** Handles `evs` in order, stopping at the first exception. */
  function Replay(s: HandlerState, evs: seq<Event>): Result<HandlerState, HandlerError>
    decreases |evs|
  {
    if evs == [] then Ok(s)
    else
      match Handle(s, evs[0])
      case Err(e) => Err(e)
      case Ok(s') => Replay(s', evs[1..])
  }

  // ---------------------------------------------------------------------
  // The handler object
  // ---------------------------------------------------------------------

  class ModalTripTravelTimeHandler {
    var mode2PersonId2TravelTimes: TravelTimeTable
    var personId2DepartureTime: map<PersonId, real>
    var warnCount: int
    var mode2NumberOfLegs: map<string, real>
    var transitDriverPersons: seq<PersonId>

    function State(): HandlerState
      reads this
    {
      HandlerState(mode2PersonId2TravelTimes, personId2DepartureTime, mode2NumberOfLegs,
                   transitDriverPersons, warnCount)
    }

    constructor ()
      ensures mode2PersonId2TravelTimes == map[] && personId2DepartureTime == map[]
      ensures mode2NumberOfLegs == map[] && transitDriverPersons == [] && warnCount == 0
    {
      mode2PersonId2TravelTimes := map[];
      personId2DepartureTime := map[];
      mode2NumberOfLegs := map[];
      transitDriverPersons := [];
      warnCount := 0;
    }

    method Reset(iteration: int)
      modifies this
      ensures mode2PersonId2TravelTimes == map[] && personId2DepartureTime == map[]
      ensures mode2NumberOfLegs == map[] && transitDriverPersons == []
      ensures warnCount == old(warnCount)
      ensures State() == Cleared(old(State()))
    {
      mode2PersonId2TravelTimes := map[];
      personId2DepartureTime := map[];
      mode2NumberOfLegs := map[];
      transitDriverPersons := [];
    }

    method HandleArrival(time: real, person: PersonId, legMode: string) returns (outcome: Outcome<HandlerError>)
      modifies this
      ensures old(person in transitDriverPersons) ==>
        && outcome == Pass
        && transitDriverPersons == RemoveFirst(old(transitDriverPersons), person)
        && mode2PersonId2TravelTimes == old(mode2PersonId2TravelTimes)
        && personId2DepartureTime == old(personId2DepartureTime)
      ensures old(person !in transitDriverPersons && person !in personId2DepartureTime) ==>
        outcome == Fail(MissingDeparture(person)) && State() == old(State())
      ensures old(person !in transitDriverPersons && person in personId2DepartureTime) ==>
        && outcome == Pass
        && mode2PersonId2TravelTimes == AddTravelTime(old(mode2PersonId2TravelTimes), legMode, person,
                                                      time - old(personId2DepartureTime[person]))
        && personId2DepartureTime == old(personId2DepartureTime) - {person}
        && transitDriverPersons == old(transitDriverPersons)
      ensures mode2NumberOfLegs == old(mode2NumberOfLegs) && warnCount == old(warnCount)
      ensures match Handle(old(State()), PersonArrival(time, person, legMode))
              case Ok(s) => outcome == Pass && State() == s
              case Err(e) => outcome == Fail(e) && State() == old(State())
    {
      if person in transitDriverPersons {
        transitDriverPersons := RemoveFirst(transitDriverPersons, person);
        return Pass;
      }
      if person !in personId2DepartureTime {
        return Fail(MissingDeparture(person));
      }
      var travelTime := time - personId2DepartureTime[person];
      personId2DepartureTime := personId2DepartureTime - {person};
      if legMode in mode2PersonId2TravelTimes {
        var personId2TravelTimes := mode2PersonId2TravelTimes[legMode];
        if person in personId2TravelTimes {
          var travelTimes := personId2TravelTimes[person];
          travelTimes := travelTimes + [travelTime];
          personId2TravelTimes := personId2TravelTimes[person := travelTimes];
        } else {
          personId2TravelTimes := personId2TravelTimes[person := [travelTime]];
        }
        mode2PersonId2TravelTimes := mode2PersonId2TravelTimes[legMode := personId2TravelTimes];
      } else {
        mode2PersonId2TravelTimes := mode2PersonId2TravelTimes[legMode := map[person := [travelTime]]];
      }
      return Pass;
    }

    method HandleDeparture(time: real, person: PersonId)
      modifies this
      ensures old(person in transitDriverPersons) ==> State() == old(State())
      ensures old(person !in transitDriverPersons) ==>
        personId2DepartureTime == old(personId2DepartureTime)[person := time]
      ensures mode2PersonId2TravelTimes == old(mode2PersonId2TravelTimes)
      ensures transitDriverPersons == old(transitDriverPersons)
      ensures mode2NumberOfLegs == old(mode2NumberOfLegs) && warnCount == old(warnCount)
      ensures Handle(old(State()), PersonDeparture(time, person)) == Ok(State())
    {
      if person in transitDriverPersons {
        return;
      }
      personId2DepartureTime := personId2DepartureTime[person := time];
    }

    /** The table of trip times, by leg mode and person. */
    method GetLegMode2PesonId2TripTimes() returns (r: TravelTimeTable)
      ensures r == mode2PersonId2TravelTimes
      ensures forall m, p :: Trips(r, m, p) == Trips(mode2PersonId2TravelTimes, m, p)
    {
      r := mode2PersonId2TravelTimes;
    }

    method HandleStuck(time: real, person: PersonId)
      modifies this
      ensures warnCount == old(warnCount) + 1
      ensures mode2PersonId2TravelTimes == old(mode2PersonId2TravelTimes)
      ensures personId2DepartureTime == old(personId2DepartureTime)
      ensures transitDriverPersons == old(transitDriverPersons)
      ensures mode2NumberOfLegs == old(mode2NumberOfLegs)
      ensures Handle(old(State()), PersonStuck(time, person)) == Ok(State())
    {
      warnCount := warnCount + 1;
    }

    method HandleTransitDriverStarts(driver: PersonId)
      modifies this
      ensures transitDriverPersons == old(transitDriverPersons) + [driver]
      ensures mode2PersonId2TravelTimes == old(mode2PersonId2TravelTimes)
      ensures personId2DepartureTime == old(personId2DepartureTime)
      ensures mode2NumberOfLegs == old(mode2NumberOfLegs) && warnCount == old(warnCount)
      ensures Handle(old(State()), TransitDriverStarts(driver)) == Ok(State())
    {
      transitDriverPersons := transitDriverPersons + [driver];
    }
  }

  // ---------------------------------------------------------------------
  // Properties of the handler
  // ---------------------------------------------------------------------

  /** An arrival that is not a transit driver's fails exactly when the
      person has no pending departure. */
  lemma ArrivalFailsIffNoDeparture(s: HandlerState, time: real, p: PersonId, mode: string)
    ensures Handle(s, PersonArrival(time, p, mode)).Err? <==> p !in s.transitDrivers && p !in s.departures
  {
  }

  /** A departure followed by the arrival of the same (non-driver) person
      appends exactly the time between them under (mode, person), leaves no
      departure pending for that person and changes no other list. */
  lemma DepartureThenArrival(s: HandlerState, p: PersonId, t0: real, t1: real, mode: string)
    requires p !in s.transitDrivers
    ensures Replay(s, [PersonDeparture(t0, p), PersonArrival(t1, p, mode)]).Ok?
    ensures var r := Replay(s, [PersonDeparture(t0, p), PersonArrival(t1, p, mode)]).value;
      && Trips(r.travelTimes, mode, p) == Trips(s.travelTimes, mode, p) + [t1 - t0]
      && (forall m, q :: (m, q) != (mode, p) ==> Trips(r.travelTimes, m, q) == Trips(s.travelTimes, m, q))
      && r.departures == s.departures - {p}
      && r.transitDrivers == s.transitDrivers
  {
    var s1 := s.(departures := s.departures[p := t0]);
    var s2 := s1.(departures := s.departures - {p}, travelTimes := AddTravelTime(s.travelTimes, mode, p, t1 - t0));
    assert Handle(s, PersonDeparture(t0, p)) == Ok(s1);
    assert Handle(s1, PersonArrival(t1, p, mode)) == Ok(s2) by {
      assert s1.departures - {p} == s.departures - {p};
    }
    ReplayPair(s, PersonDeparture(t0, p), PersonArrival(t1, p, mode), s1, s2);
  }

  /** Two events that both succeed replay to the state after the second. */
  lemma ReplayPair(s: HandlerState, ev1: Event, ev2: Event, s1: HandlerState, s2: HandlerState)
    requires Handle(s, ev1) == Ok(s1) && Handle(s1, ev2) == Ok(s2)
    ensures Replay(s, [ev1, ev2]) == Ok(s2)
  {
    var evs := [ev1, ev2];
    assert evs[0] == ev1 && evs[1..] == [ev2];
    assert [ev2][0] == ev2 && [ev2][1..] == [];
    assert Replay(s1, [ev2]) == Replay(s2, []);
    assert Replay(s, evs) == Replay(s1, [ev2]);
  }

  /** A transit driver's start, departure and arrival leave the handler
      exactly as before, when the driver was not already listed. */
  lemma TransitDriverTripLeavesNoTrace(s: HandlerState, d: PersonId, t0: real, t1: real, mode: string)
    requires d !in s.transitDrivers
    ensures Replay(s, [TransitDriverStarts(d), PersonDeparture(t0, d), PersonArrival(t1, d, mode)]) == Ok(s)
  {
    var evs := [TransitDriverStarts(d), PersonDeparture(t0, d), PersonArrival(t1, d, mode)];
    var s1 := s.(transitDrivers := s.transitDrivers + [d]);
    assert Handle(s, evs[0]) == Ok(s1);
    assert evs[1..] == [PersonDeparture(t0, d), PersonArrival(t1, d, mode)];
    RemoveFirstOfAppended(s.transitDrivers, d);
    ReplayPair(s1, PersonDeparture(t0, d), PersonArrival(t1, d, mode), s1, s);
  }

  /** Every list in the table holds at least one travel time. */
  predicate NoEmptyTripLists(t: TravelTimeTable) {
    forall m, p :: m in t && p in t[m] ==> |t[m][p]| > 0
  }

  /** Handling events and resetting never leave an empty list in the table. */
  lemma {:induction false} ReplayKeepsTripListsNonEmpty(s: HandlerState, evs: seq<Event>)
    requires NoEmptyTripLists(s.travelTimes)
    ensures Replay(s, evs).Ok? ==> NoEmptyTripLists(Replay(s, evs).value.travelTimes)
    ensures NoEmptyTripLists(Cleared(s).travelTimes)
    decreases |evs|
  {
    if evs != [] {
      match Handle(s, evs[0])
      case Err(_) =>
      case Ok(s') =>
        assert NoEmptyTripLists(s'.travelTimes) by {
          forall m, p | m in s'.travelTimes && p in s'.travelTimes[m]
            ensures |s'.travelTimes[m][p]| > 0
          {
            assert Trips(s'.travelTimes, m, p) == s'.travelTimes[m][p];
            if evs[0].PersonArrival? && (m, p) != (evs[0].legMode, evs[0].person) {
              assert Trips(s.travelTimes, m, p) == s'.travelTimes[m][p];
            }
          }
        }
        ReplayKeepsTripListsNonEmpty(s', evs[1..]);
    }
  }

  function StuckCount(evs: seq<Event>): nat {
    if evs == [] then 0
    else (if evs[0].PersonStuck? then 1 else 0) + StuckCount(evs[1..])
  }

  function WithoutStuck(evs: seq<Event>): seq<Event> {
    if evs == [] then []
    else (if evs[0].PersonStuck? then [] else [evs[0]]) + WithoutStuck(evs[1..])
  }

  /** `a` is `b` with `k` more warnings. */
  predicate MoreWarnings(a: HandlerState, b: HandlerState, k: int) {
    a == b.(warnCount := b.warnCount + k)
  }

  /** Stuck events only count warnings: dropping them from any event
      sequence gives the same tables and the same exception, with the
      warning count lower by their number. */
  lemma {:induction false} StuckEventsOnlyCount(a: HandlerState, b: HandlerState, k: int, evs: seq<Event>)
    requires MoreWarnings(a, b, k)
    ensures match (Replay(a, evs), Replay(b, WithoutStuck(evs)))
            case (Ok(x), Ok(y)) => MoreWarnings(x, y, k + StuckCount(evs))
            case (Err(x), Err(y)) => x == y
            case _ => false
    decreases |evs|
  {
    if evs != [] {
      var ev := evs[0];
      if ev.PersonStuck? {
        assert WithoutStuck(evs) == WithoutStuck(evs[1..]);
        StuckEventsOnlyCount(a.(warnCount := a.warnCount + 1), b, k + 1, evs[1..]);
      } else {
        var rest := WithoutStuck(evs[1..]);
        assert WithoutStuck(evs) == [ev] + rest;
        assert ([ev] + rest)[0] == ev && ([ev] + rest)[1..] == rest;
        match Handle(b, ev)
        case Err(e) =>
          assert Handle(a, ev) == Err(e);
        case Ok(b') =>
          assert Handle(a, ev) == Ok(b'.(warnCount := b'.warnCount + k));
          StuckEventsOnlyCount(b'.(warnCount := b'.warnCount + k), b', k, evs[1..]);
      }
    }
  }
}
