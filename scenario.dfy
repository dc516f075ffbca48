/**
 * The vehicle tests of the scheduling service, run against the model: one
 * vehicle is driven through EV, RDV, DV and LV by a sequence of telemetry
 * messages, and the scheduler setters are exercised after a first update.
 * The topology is any built one in which the link lane 23016 is registered.
 */
module Scenario {
  import opened Conversions
  import opened Intersection
  import opened VehicleTracker

  /** The estimated path carried by every message of the tests. */
  function TestPaths(): seq<EstimatedPoint> {
    [EstimatedPoint(1623677096000, 5894, 7.0), EstimatedPoint(1623677096200, 5894, 6.0),
     EstimatedPoint(1623677096400, 5894, 5.0), EstimatedPoint(1623677096600, 5894, 4.0)]
  }

  /**
   * The test payload of vehicle DOT-507, with the fields the tests vary as
   * parameters; `paths` is the estimated path the payload carries.
   */
  function TestMessage(ts: nat, lane: int, ds: real, speed: real, accel: real, allowed: bool,
                       paths: seq<EstimatedPoint>): Message
  {
    Message(ts, "DOT-507", 500.0, 10.0, 1.5, 5.0, 5.0, speed, accel, lane, ds, "straight", 5894, 23016, allowed, paths)
  }

  /** The decimal renderings of the three lane ids the tests use. */
  lemma TestIdStrings()
    ensures IdString(5894) == "5894" && IdString(23016) == "23016" && IdString(11899) == "11899"
  {
    assert NatString(5) == "5" && NatString(58) == "58" && NatString(589) == "589";
    assert NatString(2) == "2" && NatString(23) == "23" && NatString(230) == "230" && NatString(2301) == "2301";
    assert NatString(1) == "1" && NatString(11) == "11" && NatString(118) == "118" && NatString(1189) == "1189";
  }

  /**
   * The vehicle as the test expects it after an accepted message: the static
   * attributes of DOT-507 (length 500 cm as 5 m, deceleration 5 as -5), the
   * scheduler fields still 0, the test's path, and the given live fields.
   */
  function Expected(access: bool, time: real, distance: real, speed: real, accel: real, lane: string,
                    state: VehicleStatus, st: real, et: real, dt: real, paths: seq<EstimatedPoint>): VehicleState
  {
    VehicleState(true, "DOT-507", 5.0, 10.0, 1.5, 5.0, -5.0, "straight", "5894", "23016", 0, 0, 0.0, 0.0,
                 access, time, distance, speed, accel, lane, state, st, et, dt, FuturePath(paths))
  }

  /** The eight messages of the `update` test, in order. */
  function UpdateMessages(paths: seq<EstimatedPoint>): seq<Message> {
    [TestMessage(1623677096000, 5894, 7.0, 5.0, 0.0, false, paths),
     TestMessage(1623677097000, 5894, 2.0, 2.0, -3.0, false, paths),
     TestMessage(1623677096000, 5894, 7.0, 5.0, 0.0, false, paths),
     TestMessage(1623677098000, 5894, 0.0, 0.0, -2.0, false, paths),
     TestMessage(1623677099000, 5894, 0.0, 0.0, 0.0, false, paths),
     TestMessage(1623677100000, 5894, 0.0, 0.0, 0.0, true, paths),
     TestMessage(1623677101000, 23016, 18.0, 2.0, 2.0, true, paths),
     TestMessage(1623677105000, 11899, 295.0, 10.0, 0.0, true, paths)]
  }

  /**
   * What the test asserts after each message, `linkLength` being the length
   * the topology records for lane 23016.
   */
  function UpdateExpectations(linkLength: real, paths: seq<EstimatedPoint>): seq<VehicleState> {
    var s2 := Expected(false, 1623677097.0, 2.0, 2.0 * 0.44704, -3.0, "5894", EV, Unset, Unset, Unset, paths);
    [Expected(false, 1623677096.0, 7.0, 5.0 * 0.44704, 0.0, "5894", EV, Unset, Unset, Unset, paths),
     s2,
     s2,
     Expected(false, 1623677098.0, 0.0, 0.0, -2.0, "5894", RDV, 1623677098.0, Unset, Unset, paths),
     Expected(false, 1623677099.0, 0.0, 0.0, 0.0, "5894", RDV, 1623677098.0, Unset, Unset, paths),
     Expected(true, 1623677100.0, linkLength, 0.0, 0.0, "23016", DV, 1623677098.0, 1623677100.0, Unset, paths),
     Expected(true, 1623677101.0, 18.0, 2.0 * 0.44704, 2.0, "23016", DV, 1623677098.0, 1623677100.0, Unset, paths),
     Expected(true, 1623677105.0, 295.0, 10.0 * 0.44704, 0.0, "11899", LV, 1623677098.0, 1623677100.0, 1623677105.0, paths)]
  }

  /**
   * The vehicle before message k of the test (k = 8: after the last one):
   * the fresh vehicle, then each expectation in turn.
   */
  function Before(k: nat, linkLength: real, paths: seq<EstimatedPoint>): VehicleState
    requires k <= 8
  {
    if k == 0 then Initial() else UpdateExpectations(linkLength, paths)[k - 1]
  }

  /** Message k takes the vehicle from what the test expects before it to what it expects after it. */
  lemma UpdateStep(k: nat, lanes: map<string, LaneInformation>, paths: seq<EstimatedPoint>)
    requires k < 8 && "23016" in lanes
    ensures var s := Before(k, lanes["23016"].length, paths);
            ReadsLinkLength(s, UpdateMessages(paths)[k]) ==> IdString(23016) in lanes
    ensures Apply(Before(k, lanes["23016"].length, paths), UpdateMessages(paths)[k], lanes)
            == Before(k + 1, lanes["23016"].length, paths)
  {
    if k < 3 {
      UpdateStepEntering(k, lanes, paths);
    } else if k < 5 {
      UpdateStepStopped(k, lanes, paths);
    } else if k == 5 {
      UpdateStepGranted(k, lanes, paths);
    } else {
      UpdateStepDeparted(k, lanes, paths);
    }
  }

  /** The first three messages: on the entry lane, far from the stop bar; the third is stale. */
  lemma UpdateStepEntering(k: nat, lanes: map<string, LaneInformation>, paths: seq<EstimatedPoint>)
    requires k < 3 && "23016" in lanes
    ensures var s := Before(k, lanes["23016"].length, paths);
            ReadsLinkLength(s, UpdateMessages(paths)[k]) ==> IdString(23016) in lanes
    ensures Apply(Before(k, lanes["23016"].length, paths), UpdateMessages(paths)[k], lanes)
            == Before(k + 1, lanes["23016"].length, paths)
  {
    TestIdStrings();
  }

  /** Messages four and five: stopped at the stop bar without access. */
  lemma UpdateStepStopped(k: nat, lanes: map<string, LaneInformation>, paths: seq<EstimatedPoint>)
    requires 3 <= k < 5 && "23016" in lanes
    ensures var s := Before(k, lanes["23016"].length, paths);
            ReadsLinkLength(s, UpdateMessages(paths)[k]) ==> IdString(23016) in lanes
    ensures Apply(Before(k, lanes["23016"].length, paths), UpdateMessages(paths)[k], lanes)
            == Before(k + 1, lanes["23016"].length, paths)
  {
    TestIdStrings();
  }

  /** Message six grants access while the vehicle waits on its entry lane. */
  lemma UpdateStepGranted(k: nat, lanes: map<string, LaneInformation>, paths: seq<EstimatedPoint>)
    requires k == 5 && "23016" in lanes
    ensures var s := Before(k, lanes["23016"].length, paths);
            ReadsLinkLength(s, UpdateMessages(paths)[k]) ==> IdString(23016) in lanes
    ensures Apply(Before(k, lanes["23016"].length, paths), UpdateMessages(paths)[k], lanes)
            == Before(k + 1, lanes["23016"].length, paths)
  {
    TestIdStrings();
  }

  /** Messages seven and eight: on the link lane, then on the exit lane. */
  lemma UpdateStepDeparted(k: nat, lanes: map<string, LaneInformation>, paths: seq<EstimatedPoint>)
    requires 5 < k < 8 && "23016" in lanes
    ensures var s := Before(k, lanes["23016"].length, paths);
            ReadsLinkLength(s, UpdateMessages(paths)[k]) ==> IdString(23016) in lanes
    ensures Apply(Before(k, lanes["23016"].length, paths), UpdateMessages(paths)[k], lanes)
            == Before(k + 1, lanes["23016"].length, paths)
  {
    TestIdStrings();
  }

  /**
   * The `update` test: each of the eight messages leaves the vehicle exactly
   * as the test expects. The states run EV, EV, EV (stale), RDV, RDV, DV, DV,
   * LV; stop, entry and departure times are stamped once each.
   */
  method UpdateTest(topo: IntersectionClient) returns (v: Vehicle)
    requires "23016" in topo.laneInfo
    ensures v.Snapshot() == UpdateExpectations(topo.laneInfo["23016"].length, TestPaths())[7]
    ensures v.curState == LV && v.curLaneId == "11899" && MilestonesOrdered(v.Snapshot())
    ensures v.actualSt == 1623677098.0 && v.actualEt == 1623677100.0 && v.actualDt == 1623677105.0
  {
    var paths := TestPaths();
    ghost var linkLength := topo.laneInfo["23016"].length;
    v := new Vehicle();
    UpdateStep(0, topo.laneInfo, paths);
    Deliver(v, topo, UpdateMessages(paths)[0], Before(0, linkLength, paths), Before(1, linkLength, paths));
    UpdateStep(1, topo.laneInfo, paths);
    Deliver(v, topo, UpdateMessages(paths)[1], Before(1, linkLength, paths), Before(2, linkLength, paths));
    UpdateStep(2, topo.laneInfo, paths);
    Deliver(v, topo, UpdateMessages(paths)[2], Before(2, linkLength, paths), Before(3, linkLength, paths));
    UpdateStep(3, topo.laneInfo, paths);
    Deliver(v, topo, UpdateMessages(paths)[3], Before(3, linkLength, paths), Before(4, linkLength, paths));
    UpdateStep(4, topo.laneInfo, paths);
    Deliver(v, topo, UpdateMessages(paths)[4], Before(4, linkLength, paths), Before(5, linkLength, paths));
    UpdateStep(5, topo.laneInfo, paths);
    Deliver(v, topo, UpdateMessages(paths)[5], Before(5, linkLength, paths), Before(6, linkLength, paths));
    UpdateStep(6, topo.laneInfo, paths);
    Deliver(v, topo, UpdateMessages(paths)[6], Before(6, linkLength, paths), Before(7, linkLength, paths));
    UpdateStep(7, topo.laneInfo, paths);
    Deliver(v, topo, UpdateMessages(paths)[7], Before(7, linkLength, paths), Before(8, linkLength, paths));
    UpdateTestOutcome(linkLength, paths);
  }

  /** Deliver one message to a vehicle in state `s` that the message takes to `t`. */
  method Deliver(v: Vehicle, topo: IntersectionClient, m: Message, ghost s: VehicleState, ghost t: VehicleState)
    requires v.Snapshot() == s
    requires ReadsLinkLength(s, m) ==> IdString(m.linkLaneId) in topo.laneInfo
    requires Apply(s, m, topo.laneInfo) == t
    modifies v
    ensures v.Snapshot() == t
  {
    v.Update(m, topo);
  }

  /** The run ends with the vehicle leaving on exit lane 11899, all three milestones set in order. */
  lemma UpdateTestOutcome(linkLength: real, paths: seq<EstimatedPoint>)
    ensures var s := UpdateExpectations(linkLength, paths)[7];
            && s.state == LV && s.curLaneId == "11899"
            && s.actualSt == 1623677098.0 && s.actualEt == 1623677100.0 && s.actualDt == 1623677105.0
            && MilestonesOrdered(s)
  {
  }

  /**
   * A vehicle whose first message already reports its link lane is DV, with
   * the stop and entry times both stamped at that message's time.
   */
  lemma FirstReportOnLink(lanes: map<string, LaneInformation>, paths: seq<EstimatedPoint>)
    ensures var r := Apply(Initial(), TestMessage(1623677096000, 23016, 18.0, 2.0, 2.0, false, paths), lanes);
            && r.state == DV && r.actualSt == 1623677096.0 && r.actualEt == 1623677096.0
            && r.actualDt == Unset && MilestonesOrdered(r)
  {
  }

  /**
   * A vehicle whose first message already reports an exit lane is LV, with
   * all three milestones stamped at that message's time.
   */
  lemma FirstReportOnExit(lanes: map<string, LaneInformation>, paths: seq<EstimatedPoint>)
    ensures var r := Apply(Initial(), TestMessage(1623677096000, 11899, 295.0, 10.0, 0.0, true, paths), lanes);
            && r.state == LV && r.actualSt == 1623677096.0 && r.actualEt == 1623677096.0
            && r.actualDt == 1623677096.0 && MilestonesOrdered(r)
  {
  }

  /** The future path stored from the test's estimated path, point by point. */
  lemma FutureOfTest(future: seq<FutureInformation>)
    requires future == FuturePath(TestPaths())
    ensures |future| == 4
    ensures forall i :: 0 <= i < 4 ==>
              future[i].timestamp == 1623677096.0 + i as real * 0.2
              && future[i].laneId == "5894" && future[i].distance == 7.0 - i as real
  {
    TestIdStrings();
    forall i | 0 <= i < 4
      ensures future[i].timestamp == 1623677096.0 + i as real * 0.2
              && future[i].laneId == "5894" && future[i].distance == 7.0 - i as real
    {
      FuturePathAt(TestPaths(), i);
    }
  }

  /**
   * The setter tests: after a first update the scheduler fields are
   * non-negative, and each setter makes its field read back the value set.
   */
  method SetterTest(topo: IntersectionClient) returns (position: int, flexEt: real, flexSt: real)
    ensures position == 5 && flexEt == 3.0 && flexSt == 4.6
  {
    var v := new Vehicle();
    var paths := TestPaths();
    v.Update(TestMessage(1623677096000, 5894, 7.0, 5.0, 0.0, false, paths), topo);
    assert v.departurePosition >= 0 && v.flexEt >= 0.0 && v.flexSt >= 0.0;
    v.SetDeparturePosition(5);
    v.SetFlexEt(3.0);
    v.SetFlexSt(4.6);
    position, flexEt, flexSt := v.departurePosition, v.flexEt, v.flexSt;
  }
}
