# Intersection scheduling service: topology builder and vehicle tracker

This project models two parts of the intersection scheduling service in Dafny.

**The intersection client** fetches the intersection description once. It then holds what it built:
- a registry of lane records keyed by lane id string;
- four ordered id lists (all, entry, exit, link);
- a `lane_count x lane_count` integer conflict matrix.

The getters read this state. The model is the class `Intersection.IntersectionClient`:
- `Build` is the body of the success callback of `call()`.
- `Call` adds the two other outcomes of the bounded request, an error signal and the 5 s timeout. Both leave the client untouched.
- The build is specified by pure functions of the description:
  - `Lanes`: entry, then exit, then link lanelets.
  - `Record`: the record stored for lane `k`.
  - `Cell`: the value of matrix cell `(i, j)` after the fill.
- `Valid()` ties the fields to these functions. Every getter's contract is stated in terms of them.
- The module `ConflictMatrix` proves that the matrix is symmetric exactly when the fetched conflict lists agree with each other.

**The vehicle tracker** keeps the state of one vehicle. Each telemetry message does one of two things:
- A message that is not newer than the last accepted one is dropped.
- Otherwise the message overwrites the vehicle's attributes and kinematics and classifies the vehicle:
  - EV: entering;
  - RDV: ready to depart, stopped at the stop bar;
  - DV: departing on the link lane;
  - LV: leaving on an exit lane.

  It also stamps the milestone of a newly reached state and any earlier milestone still unset, and replaces the estimated future path.

An access grant to a waiting vehicle moves it onto its link lane. The length of that lane is read from the intersection client. The scheduler's own fields are changed only by the setters.

The effect of one update is the pure function `VehicleTracker.Apply`. The class `VehicleTracker.Vehicle` holds the fields, and its `Update` is proved to change them exactly as `Apply` says. The module `Scenario` replays the vehicle tests of the service against the model.

Files:
- `conversions.dfy`: the decimal rendering of integer ids (`std::to_string`) with its inverse, and the unit conversions (mph to m/s, ms to s).
- `intersection.dfy`: lanelet datatypes, the specification functions, and the client class.
- `conflicts.dfy`: symmetry of the conflict matrix.
- `vehicle.dfy`: the message and state datatypes, `Apply` with its lemmas, and the `Vehicle` class.
- `scenario.dfy`: the `update`, `set_departurePosition`, `set_flexEt` and `set_flexST` tests.

## Model

| member | source | states |
|---|---|---|
| Conversions.MphToMps | scheduling_service/src/intersection_client.cpp:47 | A non-negative speed in miles/hour becomes a speed in meters/second that is non-negative and no larger. |
| Conversions.MsToSeconds | scheduling_service/test/test_vehicle.cpp:43 | An epoch timestamp in milliseconds becomes the number of seconds that is 1000 times smaller. |
| Conversions.NatStringDigits | scheduling_service/src/intersection_client.cpp:39 | The decimal rendering of a natural number contains only digits. |
| Conversions.IdString | scheduling_service/src/intersection_client.cpp:39 | The `to_string` rendering of an id: non-empty, starting with '-' exactly for a negative id, digits after the first character. `ParseIdString` gives its inverse. |
| Conversions.ParseIdString | scheduling_service/src/intersection_client.cpp:39 | Reading back the rendering of any integer id, negative ones included, gives the id again. |
| Conversions.IdStringInjective | scheduling_service/src/intersection_client.cpp:39-117 | Two ids render to the same key string exactly when they are equal. |
| Conversions.InIdStrings | scheduling_service/src/intersection_client.cpp:175-180 | A rendered id is among the rendered conflict list exactly when the id is among the conflict ids. |
| Intersection.Cell | scheduling_service/src/intersection_client.cpp:171-183 | A cell is 0 or 1. Rows of entry and exit lanes are all 0. A diagonal cell is 1 exactly for a link lane. |
| Intersection.Record | scheduling_service/src/intersection_client.cpp:38-166 | The record stored for lane k: key = the rendered id and index = k; length copied, speed limit converted; type "link" exactly in the link block; priority 1 for a link lane and -1 otherwise; only link lanes carry conflicts. |
| Intersection.ExitRecord | scheduling_service/src/intersection_client.cpp:76-92 | The i-th departure lanelet is stored under index entry count + i, with type "exit", priority -1, the same length, the speed limit converted, and no conflicts. |
| Intersection.LinkRecord | scheduling_service/src/intersection_client.cpp:116-163 | The i-th link lanelet is stored under index entry + exit count + i, with type "link", priority 1, and its conflict ids as strings in source order. |
| Intersection.LaneIdsDistinct | scheduling_service/src/intersection_client.cpp:54-163 | With distinct lanelet ids, no two lanes share a registry key, so no record overwrites another. |
| Intersection.InEntryIds | scheduling_service/src/intersection_client.cpp:56 | A lane's key is in the entry list exactly when its index is below the entry count. |
| Intersection.InExitIds | scheduling_service/src/intersection_client.cpp:94 | A lane's key is in the exit list exactly when its index lies in the exit block. |
| Intersection.InLinkIds | scheduling_service/src/intersection_client.cpp:165 | A lane's key is in the link list exactly when its index lies in the link block. |
| Intersection.LinkRowCell | scheduling_service/src/intersection_client.cpp:180-182 | In the row of a link lane, a cell is 1 exactly on the diagonal or where the column lane's key is among the lane's conflict strings. |
| Intersection.LinkRowCells | scheduling_service/src/intersection_client.cpp:175-182 | The same for the whole row, read through the stored record and the key list. |
| Intersection.ConflictingLaneIds | scheduling_service/src/intersection_client.cpp:135-139 | The inner loop produces the decimal string of every conflict id, in source order. |
| Intersection.LaneIdsSnoc | scheduling_service/src/intersection_client.cpp:55-165 | Pushing the next lanelet's key extends the list of keys by that key. |
| Intersection.LaneIdsAppend | scheduling_service/src/intersection_client.cpp:55-165 | The list of all keys is the entry keys, then the exit keys, then the link keys. |
| Intersection.RegisterNext | scheduling_service/src/intersection_client.cpp:38-57 | Recording the next lane adds exactly its key and its record. Every earlier entry is kept. |
| Intersection.IntersectionClient.RegisteredIndex | scheduling_service/src/intersection_client.cpp:228 | A registered key's record carries an index in range. That index lists the key, and the record is the one the build stores for that index. |
| Intersection.IntersectionClient.constructor | scheduling_service/test/test_vehicle.cpp:13 | A client before `call()`: valid for the empty description, with no lanes, no keys and an empty registry. |
| Intersection.IntersectionClient.Build | scheduling_service/src/intersection_client.cpp:28-183 | After the build the client is valid for the fetched description, and the matrix is newly allocated. Valid means: name and id copied; count = number of lanelets; every lane registered under its key with `Record`; the id lists in input order; the matrix equal to `Cell` everywhere. |
| Intersection.IntersectionClient.RegisterLanes | scheduling_service/src/intersection_client.cpp:28-169 | One counter from 0 across the three passes ends at the total lane count. All lanes are registered, and the three id lists are in input order. |
| Intersection.IntersectionClient.AddLane | scheduling_service/src/intersection_client.cpp:54-55 | Inserting a record and pushing its key registers one more lane. |
| Intersection.IntersectionClient.RegisterEntryLanes | scheduling_service/src/intersection_client.cpp:28-65 | The entry pass registers lanes 0 .. entry count - 1 as `Record` says, and fills the entry list in input order. |
| Intersection.IntersectionClient.RegisterExitLanes | scheduling_service/src/intersection_client.cpp:67-103 | The exit pass continues the counter up to the first link index, and fills the exit list in input order. |
| Intersection.IntersectionClient.AddExitLane | scheduling_service/src/intersection_client.cpp:76-95 | One departure lanelet is registered under the current count, and its key is appended to the exit list. |
| Intersection.IntersectionClient.RegisterLinkLanes | scheduling_service/src/intersection_client.cpp:105-167 | The link pass continues the counter to the total count, and fills the link list in input order. |
| Intersection.IntersectionClient.AddLinkLane | scheduling_service/src/intersection_client.cpp:116-166 | One link lanelet, with its conflict strings, is registered under the current count, and its key is appended to the link list. |
| Intersection.IntersectionClient.FillConflictStatus | scheduling_service/src/intersection_client.cpp:171-183 | Starting from an all-zero matrix, the fill over the link list leaves every cell equal to `Cell`. |
| Intersection.IntersectionClient.FillRow | scheduling_service/src/intersection_client.cpp:172-183 | Link lane q's row becomes its row of `Cell`. Every other row is unchanged. |
| Intersection.IntersectionClient.WriteRow | scheduling_service/src/intersection_client.cpp:175-182 | A row becomes 1 on the diagonal and under each conflict key, and 0 elsewhere. Other rows are unchanged. |
| Intersection.IntersectionClient.MarkConflicts | scheduling_service/src/intersection_client.cpp:175-181 | The inner loop sets `[L][C]` to 1 for each conflict key C and writes nothing else. |
| Intersection.IntersectionClient.RowConflictsRegistered | scheduling_service/src/intersection_client.cpp:180 | Every conflict key of a link lane is registered, so the lookup at that line finds a record and does not insert one. |
| Intersection.IntersectionClient.LinkRow | scheduling_service/src/intersection_client.cpp:172-182 | For link lane q: its record's index is in range, its conflict keys are registered, and its row of `Cell` is 1 exactly on the diagonal and under its conflict keys. |
| Intersection.IntersectionClient.LinkLaneRecord | scheduling_service/src/intersection_client.cpp:172-175 | The q-th link key's record has index entry + exit count + q, and carries that lanelet's conflict strings. |
| Intersection.IntersectionClient.Call | scheduling_service/src/intersection_client.cpp:13-200 | On the success signal the client is built from the received description. On the error signal or the timeout nothing changes. |
| Intersection.IntersectionClient.IntersectionName | scheduling_service/src/intersection_client.cpp:205 | Returns the fetched name. |
| Intersection.IntersectionClient.IntersectionId | scheduling_service/src/intersection_client.cpp:208 | Returns the fetched id. |
| Intersection.IntersectionClient.LaneCount | scheduling_service/src/intersection_client.cpp:213 | Returns the number of lanelets, which equals the sum of the three list lengths. |
| Intersection.IntersectionClient.LaneIdAll | scheduling_service/src/intersection_client.cpp:216 | Returns the entry, exit and link lists concatenated. Position k holds the key of lane k. |
| Intersection.IntersectionClient.LaneIdEntry | scheduling_service/src/intersection_client.cpp:219 | Returns the entry lanelets' keys in input order. |
| Intersection.IntersectionClient.LaneIdExit | scheduling_service/src/intersection_client.cpp:222 | Returns the departure lanelets' keys in input order. |
| Intersection.IntersectionClient.LaneIdLink | scheduling_service/src/intersection_client.cpp:225 | Returns the link lanelets' keys in input order. |
| Intersection.IntersectionClient.LaneIndex | scheduling_service/src/intersection_client.cpp:228 | Returns a dense index in range at which the key is listed. |
| Intersection.IntersectionClient.LaneType | scheduling_service/src/intersection_client.cpp:231 | Returns "entry", "exit" or "link", each exactly when the key is in that list. |
| Intersection.IntersectionClient.KindOfIndex | scheduling_service/src/intersection_client.cpp:40-119 | A key is in the entry, exit or link list exactly when its index falls in that block. |
| Intersection.IntersectionClient.LaneLength | scheduling_service/src/intersection_client.cpp:240 | Returns the fetched length of the lanelet at the key's index. |
| Intersection.IntersectionClient.LaneSpeedLimit | scheduling_service/src/intersection_client.cpp:243 | Returns the fetched speed limit of that lanelet, converted to m/s. |
| Intersection.IntersectionClient.LanePriority | scheduling_service/src/intersection_client.cpp:255 | Returns 1 for a link lane and -1 otherwise. |
| Intersection.IntersectionClient.HasConflict | scheduling_service/src/intersection_client.cpp:246-252 | True exactly when the matrix cell at the two indices is 1, that is, when the first lane is a link lane and the second is itself or in its conflict list. |
| ConflictMatrix.BackEdge | scheduling_service/src/intersection_client.cpp:180 | A link lanelet that lists another link lanelet puts a 1 in its own row at that lane's column. |
| ConflictMatrix.MirrorCell | scheduling_service/src/intersection_client.cpp:180-182 | With consistent lists, every 1 is mirrored across the diagonal. |
| ConflictMatrix.SymmetricIffConsistent | scheduling_service/src/intersection_client.cpp:180 | The filled matrix is symmetric if and only if every listed conflict is itself a link lanelet that lists the lane back. |
| ConflictMatrix.HasConflictSymmetric | scheduling_service/src/intersection_client.cpp:246-252 | With consistent lists, `hasConflict(a, b) == hasConflict(b, a)`. |
| ConflictMatrix.DiagonalOnlyLinks | scheduling_service/src/intersection_client.cpp:182 | `hasConflict(a, a)` holds exactly for link lanes. |
| VehicleTracker.Classify | scheduling_service/test/test_vehicle.cpp:70-97 | On the entry lane: RDV iff distance < 2 and speed ≤ 0.1 m/s, otherwise EV. On the link lane: DV. Otherwise LV. All four cases are stated as iff. |
| VehicleTracker.Stamp | scheduling_service/test/test_vehicle.cpp:83-96 | A set milestone is never changed. An unset one becomes the message time exactly when its state or a later one is reached. |
| VehicleTracker.FuturePath | scheduling_service/test/test_vehicle.cpp:102 | The stored path has as many points as the message's estimated path. `FuturePathAt` gives each point. |
| VehicleTracker.FuturePathAt | scheduling_service/test/test_vehicle.cpp:102-107 | Point i of the stored path has the i-th estimated point's time in seconds, its lane id string and its distance. |
| VehicleTracker.StaleIsNoOp | scheduling_service/test/test_vehicle.cpp:135-159 | A message not newer than the current time leaves the whole state unchanged. |
| VehicleTracker.Apply | scheduling_service/test/test_vehicle.cpp:10-262 | One update: once a message has been seen, time never goes back; the scheduler fields are kept; a set milestone is never moved. `ApplyContract` states the rest. |
| VehicleTracker.SchedulingKept | scheduling_service/test/test_vehicle.cpp:37-40 | No message changes link priority, departure position, flexible entry time or flexible stop time. |
| VehicleTracker.ApplyContract | scheduling_service/test/test_vehicle.cpp:10-262 | The full contract of one update. A stale message is a no-op. An accepted message is newer than the last, copies the attributes and converts the units. An access grant moves the vehicle onto its link lane, with that lane's length and state DV. Otherwise the vehicle gets the reported lane, distance and classified state. Milestones are write-once. An unset ST is set exactly when the new state is past EV, ET exactly when it is DV or LV, DT exactly when it is LV, each to the message time. Scheduler fields are kept. The future path is replaced point by point. |
| VehicleTracker.DuplicateIsNoOp | scheduling_service/test/test_vehicle.cpp:135-159 | Delivering the same message twice has the effect of delivering it once. |
| VehicleTracker.MilestonesOrderedPreserved | scheduling_service/test/test_vehicle.cpp:83-96 | Every update keeps the milestones ordered, including one that skips a state: ST ≤ ET ≤ DT ≤ current time, and RDV, DV and LV each have their own milestone set. |
| VehicleTracker.LeavingHasAllMilestones | scheduling_service/test/test_vehicle.cpp:90-96 | Under the milestone invariant, which every update and the constructor keep, a leaving vehicle has all three milestones set, in order. |
| VehicleTracker.Initial | scheduling_service/test/test_vehicle.cpp:17 | A new vehicle has seen nothing, is EV, has no milestone set, and has scheduler fields 0. |
| VehicleTracker.Vehicle.constructor | scheduling_service/test/test_vehicle.cpp:17 | The fields of a new vehicle are `Initial()`, and its milestones are ordered. |
| VehicleTracker.Vehicle.Update | scheduling_service/test/test_vehicle.cpp:195-203 | The fields change exactly as `Apply` gives, and the milestone invariant is kept. On an access grant the current lane is the link lane, and the distance is the length the client records for it. |
| VehicleTracker.Vehicle.Accept | scheduling_service/test/test_vehicle.cpp:26-65 | For an accepted message, every field takes its value from `Apply`. |
| VehicleTracker.Vehicle.SetAttributes | scheduling_service/test/test_vehicle.cpp:28-41 | The static attribute fields take their values from the message. |
| VehicleTracker.Vehicle.Advance | scheduling_service/test/test_vehicle.cpp:43-203 | The kinematic, state, milestone and path fields take the values `MotionFrom` gives. |
| VehicleTracker.Vehicle.FuturePathOf | scheduling_service/test/test_vehicle.cpp:102-107 | The loop over the estimated points builds `FuturePath` of them. |
| VehicleTracker.Vehicle.SetDeparturePosition | scheduling_service/test/test_vehicle.cpp:284-285 | Only the departure position changes, and it becomes the value set. The milestone invariant is kept. |
| VehicleTracker.Vehicle.SetFlexEt | scheduling_service/test/test_vehicle.cpp:308-309 | Only the flexible entry time changes, and it becomes the value set. The milestone invariant is kept. |
| VehicleTracker.Vehicle.SetFlexSt | scheduling_service/test/test_vehicle.cpp:332-333 | Only the flexible stop time changes, and it becomes the value set. The milestone invariant is kept. |
| Scenario.TestIdStrings | scheduling_service/test/test_vehicle.cpp:35-60 | Lane ids 5894, 23016 and 11899 render as "5894", "23016" and "11899". |
| Scenario.UpdateStep | scheduling_service/test/test_vehicle.cpp:26-260 | Each of the eight messages of the `update` test takes the vehicle from the state the test expects before it to the one it asserts after it. |
| Scenario.UpdateStepEntering | scheduling_service/test/test_vehicle.cpp:26-159 | The first two messages keep the vehicle EV with no milestone set. The third, older message changes nothing. |
| Scenario.UpdateStepStopped | scheduling_service/test/test_vehicle.cpp:162-193 | Stopping at the stop bar makes the vehicle RDV and stamps ST once. The next message keeps ST. |
| Scenario.UpdateStepGranted | scheduling_service/test/test_vehicle.cpp:195-203 | The grant moves the vehicle to lane "23016", at that lane's recorded length, as DV with ET stamped and ST kept. |
| Scenario.UpdateStepDeparted | scheduling_service/test/test_vehicle.cpp:205-260 | On the link lane the vehicle stays DV. On lane 11899 it becomes LV with DT stamped, and ST and ET are kept. |
| Scenario.UpdateTest | scheduling_service/test/test_vehicle.cpp:10-262 | Driving a new vehicle with the eight messages ends in the asserted state: LV on lane "11899", with ST = 1623677098, ET = 1623677100, DT = 1623677105, in order. |
| Scenario.UpdateTestOutcome | scheduling_service/test/test_vehicle.cpp:254-260 | The last expected state is LV on "11899" with all three milestones set and ordered. |
| Scenario.FirstReportOnLink | scheduling_service/test/test_vehicle.cpp:83-89 | A first message on link lane 23016 gives DV, with ST = ET = the message time and DT unset, milestones ordered. |
| Scenario.FirstReportOnExit | scheduling_service/test/test_vehicle.cpp:90-96 | A first message on exit lane 11899 gives LV, with ST = ET = DT = the message time, milestones ordered. |
| Scenario.FutureOfTest | scheduling_service/test/test_vehicle.cpp:102-107 | The stored path of the test message has 4 points. Point i has time 1623677096 + 0.2 i, lane "5894" and distance 7 - i. |
| Scenario.SetterTest | scheduling_service/test/test_vehicle.cpp:265-334 | After a first update the setters read back 5, 3 and 4.6. |

## Left out

- Network and event loop: the Qt request, the signal wiring, the 5 s timer and `loop.exec()` are represented only by the three `FetchOutcome` cases passed to `Call`.
- Logging: the `spdlog` and `qDebug` output is left out.
- Non-`HEAD` merge branches: the model follows the `HEAD` side of every conflict marker. It leaves out the `direction` field, `get_laneDirection`, the unconverted speed limits, and the link loop that walks the departure lanelets.
- Insert-on-miss lookups: `lane_info[...]` in the getters and in the fill inserts a default record for an unknown key. The model instead requires the key to be registered. `Build` requires distinct lanelet ids, and requires every conflict id to name a lane; `WellFormed` states both.
- Intersection.IntersectionClient.Build: requires a client that has not been built yet. A second successful `call()` would append to the id lists and leave short rows in the resized matrix, and that case is not modelled.
- Conflict matrix: the code writes only `[L][C]` and `[L][L]` for link lanes L, never `[C][L]`, and no diagonal cell of an entry or exit lane. `ConflictMatrix.SymmetricIffConsistent` states when the result is symmetric.
- The source of the vehicle class (`vehicle.cpp`) is not part of this model. Its behaviour is reconstructed from the assertions of `test_vehicle.cpp` and the branch conditions commented out at `test_vehicle.cpp` lines 70-97. Where those do not decide a question, the model makes these choices:
  - The lane advance on an access grant applies only to a vehicle that did not have access before. In the test, the message after the grant already reports the link lane, so the test does not tell the two readings apart.
  - The scheduler fields are 0 from construction.
  - A state is classified from the message alone. Reaching a state stamps its milestone and every earlier one still unset, with the same time, which is what lines 83-96 require of a vehicle seen first on its link or exit lane.
- Telemetry parsing: rapidjson is not modelled. A message is an already-typed `Message` value.
- Floating point: speeds, lengths and times are `real`. The bit-exact double comparisons of the test (for example `5 * 0.44704`) are modelled as exact real arithmetic.
- The scheduler's priority and time-window algorithm is not part of this model. Its fields are plain fields written only by the setters.
- The getters of the vehicle class are its public fields, and `Snapshot()` reads them.
- The live topology in the vehicle tests: the `update` test's topology is any client in which lane "23016" is registered.
- Scenario.SetterTest: the three setter tests use three separate vehicles. The model runs the setters one after another on one vehicle; each setter changes only its own field, so the values read back are the same.
- `tsc_client_service/include/tsc_service.h` (Kafka, SNMP and thread orchestration) and `OAILanelet_info.cpp` (the generated JSON DTO) are not part of this model. A lanelet is the plain datatype `LaneletInfo`.
