# MATSim sequential components, modelled in Dafny

This project models four small sequential components of the MATSim traffic
simulation code base and proves properties of them:

- **the tabular file parser** (`TabularFileParser.parse`): it reads a text
  file line by line. It skips everything up to and including the first line
  that matches the start regular expression, stops at the first later line
  that matches the end regular expression, and drops comment lines. Every
  other line is split into columns and handed to a row handler.
- **the per-mode trip travel-time handler** (`ModalTripTravelTimeHandler`):
  an event handler. A departure records the person's departure time. The
  matching arrival appends the trip's travel time under (leg mode, person).
  Transit drivers are excluded through a list of driver ids.
- **the e-taxi charger activity** (`ETaxiAtChargerActivity`): the state
  machine `init → queued → plugged → unplugged` of a taxi at a charger. Its
  end time is pushed forward while the taxi waits or charges.
- **the plan reset** (`PersonResetCoordAndLink`): a pass over each plan of
  a person. Every activity takes its coordinate and link from its facility,
  and every leg loses its route.

Files, one module each: `common.dfy` (`Option`, `Outcome`, `Result`),
`tabular_file_parser.dfy` (module `TabularFileParsing`),
`modal_trip_travel_time.dfy` (module `ModalTripTravelTime`),
`etaxi_at_charger.dfy` (module `ETaxiCharging`) and `person_reset.dfy`
(module `PersonReset`).

Modelling choices:

- The parser is a class whose `Parse` method runs the source's `while` loop
  over the `started`/`ended` flags. It is proved against `Rows`, a reference
  definition. `Rows` gives the split forms of the non-comment lines between
  the start line and the end line, in file order.
- The file is given as its sequence of lines. The Java regular-expression
  engine (`String.matches`, `String.split`) is a `RegexEngine` value holding
  two arbitrary functions. Every property holds whatever those functions do.
- The handler is a class with the source's fields (maps and sequences). Each
  handler method states its new fields and that they equal `Handle`, a pure
  step function. The lemmas about event sequences use `Handle`.
- The e-taxi activity is a class with `state` and `endTime` fields.
  `END_ACTIVITY_LATER` is declared in a base class that is not part of this
  model; the model assumes it is positive infinity and writes it as the
  `Later` end time. The clock's time of day
  and the charging logic's estimates are method parameters. The two
  notifications to the charging logic are kept in a ghost log.
- The plan reset runs on objects (`Activity`, `Leg`, `Facility`) held in a
  plan's list. It is proved with aliasing allowed: the same activity may sit
  in several places.
- Times are `real`; Java's `double` rounding is not modelled.

## Model

| member | source | states |
|---|---|---|
| TabularFileParsing.IsStart | matsim/src/org/matsim/utils/io/tabularFileParser/TabularFileParser.java:36-41 | without a start regex every line counts as the start line |
| TabularFileParsing.IsEnd | matsim/src/org/matsim/utils/io/tabularFileParser/TabularFileParser.java:43-48 | without an end regex no line is an end line |
| TabularFileParsing.IsComment | matsim/src/org/matsim/utils/io/tabularFileParser/TabularFileParser.java:50-55 | without a comment regex no line is a comment |
| TabularFileParsing.Split | matsim/src/org/matsim/utils/io/tabularFileParser/TabularFileParser.java:57-62 | without a delimiter regex a row is the one-element array holding the whole line |
| TabularFileParsing.FirstMarkerFrom | matsim/src/org/matsim/utils/io/tabularFileParser/TabularFileParser.java:98-106 | the index found is the first start (or end) line at or after `from`, or the end of the file when there is none |
| TabularFileParsing.BodyBegin | matsim/src/org/matsim/utils/io/tabularFileParser/TabularFileParser.java:92-106 | delivery begins at line 0 without a start regex; with one, it begins after line 0 (in a non-empty file) and no line before the one preceding it is a start line |
| TabularFileParsing.BodyBeginFollowsStart | matsim/src/org/matsim/utils/io/tabularFileParser/TabularFileParser.java:92-106 | with a start regex, delivery begins right after the first start line, or not at all when no line is a start line |
| TabularFileParsing.BodyEnd | matsim/src/org/matsim/utils/io/tabularFileParser/TabularFileParser.java:98-101 | parsing stops at the first end line at or after the beginning of delivery; no line before it there is an end line |
| TabularFileParsing.RowsOf | matsim/src/org/matsim/utils/io/tabularFileParser/TabularFileParser.java:101-103 | a stretch of lines yields at most one row per line |
| TabularFileParsing.TabularFileHandler.StartRow | matsim/src/org/matsim/utils/io/tabularFileParser/TabularFileParser.java:102 | the handler receives each row once, after the rows before it |
| TabularFileParsing.TabularFileParser.constructor | matsim/src/org/matsim/utils/io/tabularFileParser/TabularFileParser.java:34 | a new parser holds no configuration |
| TabularFileParsing.TabularFileParser.Parse | matsim/src/org/matsim/utils/io/tabularFileParser/TabularFileParser.java:81-112 | a null configuration, then a null handler, is rejected with an error before any row is delivered; otherwise the configuration is stored and the handler receives exactly `Rows(config, engine, lines)` after the rows it already had |
| TabularFileParsing.RowsOfAppend | matsim/src/org/matsim/utils/io/tabularFileParser/TabularFileParser.java:98-107 | rows are delivered in file order: the rows of two consecutive stretches are those of the first followed by those of the second |
| TabularFileParsing.RowsOfMembers | matsim/src/org/matsim/utils/io/tabularFileParser/TabularFileParser.java:101-103 | a row is delivered from a stretch if and only if it is the split form of one of its non-comment lines |
| TabularFileParsing.RowsOfWithoutComments | matsim/src/org/matsim/utils/io/tabularFileParser/TabularFileParser.java:101-103 | without a comment regex the i-th row is the split form of the i-th line |
| TabularFileParsing.DeliversEveryLineWithoutMarkers | matsim/src/org/matsim/utils/io/tabularFileParser/TabularFileParser.java:36-55 | with no start, end or comment regex every line is delivered, in order, as a row |
| TabularFileParsing.FirstLineDeliveredWithoutStartRegex | matsim/src/org/matsim/utils/io/tabularFileParser/TabularFileParser.java:92-103 | without a start regex processing begins at the first line: it is the first row unless it is an end line or a comment |
| TabularFileParsing.EndCheckedBeforeComment | matsim/src/org/matsim/utils/io/tabularFileParser/TabularFileParser.java:100-101 | the end check comes before the comment check: when the first end line after the beginning of delivery is also a comment, it is still the end line, and the rows are those of the lines before it |
| TabularFileParsing.SingleColumnWithoutDelimiter | matsim/src/org/matsim/utils/io/tabularFileParser/TabularFileParser.java:57-62 | without a delimiter regex every delivered row has one column, which is a line of the file |
| TabularFileParsing.LinesAfterEndIgnored | matsim/src/org/matsim/utils/io/tabularFileParser/TabularFileParser.java:98-101 | neither the end line nor any later line is delivered: replacing everything after the end line leaves the rows unchanged |
| TabularFileParsing.StartRegionSkipped | matsim/src/org/matsim/utils/io/tabularFileParser/TabularFileParser.java:104-106 | every line up to and including the first start line is skipped: the rows are those of the remaining lines parsed without a start regex |
| ModalTripTravelTime.AddTravelTime | playgrounds/agarwalamit/src/main/java/playground/agarwalamit/analysis/trip/ModalTripTravelTimeHandler.java:82-99 | exactly one travel time is appended under (mode, person), creating the mode's map or the person's list when absent; every other (mode, person) list is unchanged |
| ModalTripTravelTime.RemoveFirst | playgrounds/agarwalamit/src/main/java/playground/agarwalamit/analysis/trip/ModalTripTravelTimeHandler.java:76 | removing a listed driver takes out exactly one occurrence; removing an unlisted one changes nothing |
| ModalTripTravelTime.RemoveFirstAt | playgrounds/agarwalamit/src/main/java/playground/agarwalamit/analysis/trip/ModalTripTravelTimeHandler.java:76 | the occurrence removed is the first one, and the other ids keep their order |
| ModalTripTravelTime.RemoveFirstOfAppended | playgrounds/agarwalamit/src/main/java/playground/agarwalamit/analysis/trip/ModalTripTravelTimeHandler.java:76 | removing a driver just appended to a list that did not hold it gives back the list |
| ModalTripTravelTime.ModalTripTravelTimeHandler.constructor | playgrounds/agarwalamit/src/main/java/playground/agarwalamit/analysis/trip/ModalTripTravelTimeHandler.java:53-62 | a new handler has empty tables, no transit drivers and no warnings |
| ModalTripTravelTime.ModalTripTravelTimeHandler.Reset | playgrounds/agarwalamit/src/main/java/playground/agarwalamit/analysis/trip/ModalTripTravelTimeHandler.java:65-70 | reset empties the travel-time table, the pending departures, the leg counts and the transit-driver list, and keeps the warning count |
| ModalTripTravelTime.ModalTripTravelTimeHandler.HandleArrival | playgrounds/agarwalamit/src/main/java/playground/agarwalamit/analysis/trip/ModalTripTravelTimeHandler.java:73-100 | a listed transit driver's arrival removes one occurrence from the list and changes nothing else; any other arrival without a pending departure fails and changes nothing; otherwise the pending entry is removed and arrival minus departure is appended under (leg mode, person) |
| ModalTripTravelTime.ModalTripTravelTimeHandler.HandleDeparture | playgrounds/agarwalamit/src/main/java/playground/agarwalamit/analysis/trip/ModalTripTravelTimeHandler.java:103-110 | a listed transit driver's departure changes nothing; any other sets or overwrites the person's pending departure time with the event time |
| ModalTripTravelTime.ModalTripTravelTimeHandler.GetLegMode2PesonId2TripTimes | playgrounds/agarwalamit/src/main/java/playground/agarwalamit/analysis/trip/ModalTripTravelTimeHandler.java:115-117 | returns the travel-time table and changes nothing |
| ModalTripTravelTime.ModalTripTravelTimeHandler.HandleStuck | playgrounds/agarwalamit/src/main/java/playground/agarwalamit/analysis/trip/ModalTripTravelTimeHandler.java:120-127 | a stuck event increments the warning count and touches no table |
| ModalTripTravelTime.ModalTripTravelTimeHandler.HandleTransitDriverStarts | playgrounds/agarwalamit/src/main/java/playground/agarwalamit/analysis/trip/ModalTripTravelTimeHandler.java:129-131 | the driver's id is appended to the list, duplicates allowed |
| ModalTripTravelTime.ArrivalFailsIffNoDeparture | playgrounds/agarwalamit/src/main/java/playground/agarwalamit/analysis/trip/ModalTripTravelTimeHandler.java:76-80 | an arrival fails if and only if the person is neither a listed driver nor has a pending departure |
| ModalTripTravelTime.DepartureThenArrival | playgrounds/agarwalamit/src/main/java/playground/agarwalamit/analysis/trip/ModalTripTravelTimeHandler.java:73-110 | a departure at t0 then an arrival at t1 of a non-driver appends exactly t1 − t0 under (mode, person), leaves nothing pending for that person and changes no other list |
| ModalTripTravelTime.TransitDriverTripLeavesNoTrace | playgrounds/agarwalamit/src/main/java/playground/agarwalamit/analysis/trip/ModalTripTravelTimeHandler.java:73-131 | for a driver not already listed, the driver's start, departure and arrival leave the handler's state exactly as before |
| ModalTripTravelTime.ReplayKeepsTripListsNonEmpty | playgrounds/agarwalamit/src/main/java/playground/agarwalamit/analysis/trip/ModalTripTravelTimeHandler.java:65-131 | no sequence of events and no reset leaves an empty travel-time list in the table |
| ModalTripTravelTime.StuckEventsOnlyCount | playgrounds/agarwalamit/src/main/java/playground/agarwalamit/analysis/trip/ModalTripTravelTimeHandler.java:120-127 | removing the stuck events from any event sequence gives the same tables and the same failure; the warning count is lower by their number |
| ETaxiCharging.ETaxiAtChargerActivity.constructor | playgrounds/michalm/src/main/java/playground/michalm/taxi/vrpagent/ETaxiAtChargerActivity.java:38-55 | a new activity is in state init with end time END_ACTIVITY_LATER |
| ETaxiCharging.ETaxiAtChargerActivity.DoSimStep | playgrounds/michalm/src/main/java/playground/michalm/taxi/vrpagent/ETaxiAtChargerActivity.java:58-76 | in init it queues with end time timeOfDay + max wait + charge time; in queued or plugged the state is kept and the end time becomes now + 1 exactly when it had been reached, else it is kept; in unplugged nothing changes |
| ETaxiCharging.ETaxiAtChargerActivity.Initialize | playgrounds/michalm/src/main/java/playground/michalm/taxi/vrpagent/ETaxiAtChargerActivity.java:79-89 | the vehicle is removed from the dispatched vehicles and added to the charger, then the activity is queued with the estimated end time |
| ETaxiCharging.ETaxiAtChargerActivity.GetEndTime | playgrounds/michalm/src/main/java/playground/michalm/taxi/vrpagent/ETaxiAtChargerActivity.java:92-96 | returns the end time and changes nothing |
| ETaxiCharging.ETaxiAtChargerActivity.NotifyChargingStarted | playgrounds/michalm/src/main/java/playground/michalm/taxi/vrpagent/ETaxiAtChargerActivity.java:99-104 | the activity is plugged with end time timeOfDay + estimated charge time |
| ETaxiCharging.ETaxiAtChargerActivity.NotifyChargingEnded | playgrounds/michalm/src/main/java/playground/michalm/taxi/vrpagent/ETaxiAtChargerActivity.java:107-111 | the activity is unplugged with end time timeOfDay |
| ETaxiCharging.RunKeepsInitIffLater | playgrounds/michalm/src/main/java/playground/michalm/taxi/vrpagent/ETaxiAtChargerActivity.java:58-111 | under any sequence of steps and notifications the activity is in init exactly when its end time is END_ACTIVITY_LATER |
| ETaxiCharging.SimStepWhileWaiting | playgrounds/michalm/src/main/java/playground/michalm/taxi/vrpagent/ETaxiAtChargerActivity.java:62-67 | a step in queued or plugged keeps the state, leaves the end time after now, and moves the end time, to now + 1, exactly when it had been reached |
| ETaxiCharging.SimStepIdempotent | playgrounds/michalm/src/main/java/playground/michalm/taxi/vrpagent/ETaxiAtChargerActivity.java:62-74 | once past init, a second step at the same time changes nothing |
| ETaxiCharging.StepsWhileWaiting | playgrounds/michalm/src/main/java/playground/michalm/taxi/vrpagent/ETaxiAtChargerActivity.java:62-67 | through any number of steps a queued or plugged activity keeps its state, its end time never goes back, and it ends after the last step's time |
| ETaxiCharging.UnpluggedIsFinal | playgrounds/michalm/src/main/java/playground/michalm/taxi/vrpagent/ETaxiAtChargerActivity.java:73-74 | once charging has ended, simulation steps change nothing |
| PersonReset.FirstFailure | matsim/src/playground/balmermi/modules/PersonResetCoordAndLink.java:43-55 | the index found is the first element whose cast or facility lookup throws, or the plan's length |
| PersonReset.ResetActivity | matsim/src/playground/balmermi/modules/PersonResetCoordAndLink.java:47-48 | the activity gets its facility's coordinate and link; an activity already there keeps its values |
| PersonReset.RunPlan | matsim/src/playground/balmermi/modules/PersonResetCoordAndLink.java:43-55 | up to the first element that throws, every activity at an even index takes its facility's coordinate and link and every leg at an odd index loses its route; the rest are untouched, and an already reset element keeps its values, so running twice is running once; the outcome is that element's exception, or none |
| PersonReset.FirstFailingPlan | matsim/src/playground/balmermi/modules/PersonResetCoordAndLink.java:37-41 | the index found is the first plan whose reset throws, or the number of plans |
| PersonReset.RunPerson | matsim/src/playground/balmermi/modules/PersonResetCoordAndLink.java:37-41 | every plan of the person is reset in order, and the first exception stops the loop with that exception: every plan before the failing one is fully reset, and so are the failing plan's elements before its failing element; every other activity and leg keeps its values, and one that was already reset keeps its values |
| PersonReset.RunNextPlan | matsim/src/playground/balmermi/modules/PersonResetCoordAndLink.java:38-40 | one turn of the loop: plan k is reset up to its first failing element and the plans before it stay reset; when the plan passes, every activity and leg outside it keeps its values; when it fails, every activity and leg outside its reset prefix does; an already reset one keeps its values |

## Left out

- File reading: the file is given as its lines. An `IOException` while opening or reading it, and the closing of the reader, are not modelled.
- The Java regular-expression engine and `String.split` are not interpreted. They are arbitrary functions, so the parser's properties hold for any engine, but nothing is proved about what a given regex matches or how a line is split.
- TabularFileParsing.TabularFileParser.Parse: the source also reads one more line after the end line before leaving the loop. That line is never processed, so only the reading is not modelled.
- The handler's log messages are not modelled. This includes the cap of five stuck-event warnings, which only affects logging.
- `mode2NumberOfLegs` is only ever cleared in the source; the model keeps it as a field that only `Reset` changes.
- Times are `real`s: the rounding of Java `double` arithmetic (in `arrival − departure`, `now + 1` and the end-time sums) is not modelled.
- Times are finite: `now`, the time of day and the charging logic's estimates are `real`s, so the model has no +∞ and no NaN. In the source they are doubles from the timer and the charging logic, and an estimate of +∞ would queue the activity with an end time equal to `END_ACTIVITY_LATER`.
- ETaxiCharging.RunKeepsInitIffLater: holds because an `At` end time is always finite; with a +∞ estimate a queued activity would have the end time of one still in init.
- ModalTripTravelTime.ModalTripTravelTimeHandler.GetLegMode2PesonId2TripTimes: returns the table as a value at the moment of the call. The source returns the handler's own map, so what the caller holds keeps changing: later arrivals append to its lists and `reset` clears it. That aliasing is not modelled.
- PersonReset.RunPlan: a facility's coordinate and link are constant in the model. The reset only reads them, but other code could change them.
- ETaxiCharging.ETaxiAtChargerActivity.Initialize: the charging logic (`removeDispatchedVehicle`, `addVehicle`, the estimates) and the simulation timer are not modelled. The estimates and the time of day are parameters, and the two calls are only recorded in a ghost log.
- The activity's type name and the charging task it holds are not modelled; only the state and the end time are.
- PersonReset.RunPlan: the plan's list of elements and the person's list of plans are constant in the model. The source never changes them here, but other code could.
- PersonReset.RunPlan: an element that is a different kind of activity or leg than `ActivityImpl`/`LegImpl` (another subclass) is not modelled. Such an element would also throw a ClassCastException. Null plan elements are not modelled either.
- The parallel discrete-event worker (`MessageExecutor`), the GUI panel and the simulation wiring classes are not part of this model. They are about threads, Swing, reflection and dependency injection.
