/**
 * The per-vehicle tracker of the scheduling service: each telemetry message
 * either is rejected as stale or overwrites the vehicle's kinematic state,
 * classifies it (EV entering, RDV ready to depart, DV departing, LV
 * leaving), stamps the milestone of a newly reached state once, and replaces
 * the estimated future path.
 */
module VehicleTracker {
  import opened Conversions
  import opened Intersection

  /** Entering, ready to depart (stopped at the stop bar), departing, leaving. */
  datatype VehicleStatus = EV | RDV | DV | LV

  /** One point of `est_paths`: epoch timestamp (ms), lanelet id, distance to the lane end. */
  datatype EstimatedPoint = EstimatedPoint(ts: nat, id: int, ds: real)

  /** The typed payload of one telemetry message (speed in miles/hour, length in centimeters). */
  datatype Message = Message(
    timestamp: nat,
    vId: string,
    vLength: real,
    minGap: real,
    reactT: real,
    maxAccel: real,
    maxDecel: real,
    curSpeed: real,
    curAccel: real,
    curLaneId: int,
    curDs: real,
    direction: string,
    entryLaneId: int,
    linkLaneId: int,
    isAllowed: bool,
    estPaths: seq<EstimatedPoint>)

  /** One point of the stored future path: seconds, lane id string, distance. */
  datatype FutureInformation = FutureInformation(timestamp: real, laneId: string, distance: real)

  /** Every field of a vehicle; `seen` is false until the first message is accepted. */
  datatype VehicleState = VehicleState(
    seen: bool,
    id: string,
    length: real,
    minGap: real,
    reactionT: real,
    accelMax: real,
    decelMax: real,
    direction: string,
    entryLaneId: string,
    linkId: string,
    linkPriority: int,
    departurePosition: int,
    flexEt: real,
    flexSt: real,
    access: bool,
    curTime: real,
    curDistance: real,
    curSpeed: real,
    curAccel: real,
    curLaneId: string,
    state: VehicleStatus,
    actualSt: real,
    actualEt: real,
    actualDt: real,
    future: seq<FutureInformation>)

  /** The value of a milestone time that has not been reached. */
  const Unset: real := -1.0
  /** A vehicle on its entry lane closer than this (meters) to the stop bar ... */
  const StopDistance: real := 2.0
  /** ... and no faster than this (meters/second) is ready to depart. */
  const StopSpeed: real := 0.1

  /** The state a message describes when no access grant moves the vehicle. */
  function Classify(m: Message): (r: VehicleStatus)
    ensures r == RDV <==> m.curLaneId == m.entryLaneId && m.curDs < StopDistance && MphToMps(m.curSpeed) <= StopSpeed
    ensures r == EV <==> m.curLaneId == m.entryLaneId && !(m.curDs < StopDistance && MphToMps(m.curSpeed) <= StopSpeed)
    ensures r == DV <==> m.curLaneId != m.entryLaneId && m.curLaneId == m.linkLaneId
    ensures r == LV <==> m.curLaneId != m.entryLaneId && m.curLaneId != m.linkLaneId
  {
    if m.curLaneId == m.entryLaneId then
      if m.curDs < StopDistance && MphToMps(m.curSpeed) <= StopSpeed then RDV else EV
    else if m.curLaneId == m.linkLaneId then DV
    else LV
  }

  /** Position of a state along the way through the intersection. */
  function Rank(st: VehicleStatus): nat {
    match st
    case EV => 0
    case RDV => 1
    case DV => 2
    case LV => 3
  }


  /** A message not newer than the last accepted one is ignored. */
  predicate IsStale(s: VehicleState, m: Message) {
    s.seen && MsToSeconds(m.timestamp) <= s.curTime
  }

  /**
   * The access grant that moves a ready vehicle from its entry lane onto its
   * link lane: the vehicle waits (RDV) without access, and the message grants
   * access while still reporting the entry lane.
   */
  predicate GrantsEntry(st: VehicleStatus, access: bool, m: Message) {
    st == RDV && !access && m.isAllowed && m.curLaneId == m.entryLaneId
  }

  /** An accepted message that grants access: the one case that reads the topology. */
  predicate ReadsLinkLength(s: VehicleState, m: Message) {
    !IsStale(s, m) && GrantsEntry(s.state, s.access, m)
  }

  /**
   * A milestone time: set to `t` when its state or a later one is `reached`
   * and it is not yet set, otherwise kept.
   */
  function Stamp(prev: real, reached: bool, t: real): (r: real)
    requires t != Unset
    ensures prev != Unset ==> r == prev
    ensures prev == Unset ==> (r == Unset || r == t) && (reached <==> r == t)
  {
    if reached && prev == Unset then t else prev
  }

  /** One estimated point as stored: seconds and the lane id string. */
  function FuturePoint(p: EstimatedPoint): FutureInformation {
    FutureInformation(MsToSeconds(p.ts), IdString(p.id), p.ds)
  }

  /** The stored future path: every estimated point converted, in order. */
  function FuturePath(paths: seq<EstimatedPoint>): (r: seq<FutureInformation>)
    ensures |r| == |paths|
  {
    if paths == [] then [] else FuturePath(paths[..|paths| - 1]) + [FuturePoint(paths[|paths| - 1])]
  }

  /** Point i of the stored path is point i of the message, converted. */
  lemma {:induction false} FuturePathAt(paths: seq<EstimatedPoint>, i: nat)
    requires i < |paths|
    ensures FuturePath(paths)[i] == FutureInformation(MsToSeconds(paths[i].ts), IdString(paths[i].id), paths[i].ds)
    decreases |paths|
  {
    if i < |paths| - 1 {
      FuturePathAt(paths[..|paths| - 1], i);
    }
  }

  /** Converting one point more extends the path by that point. */
  lemma FuturePathSnoc(paths: seq<EstimatedPoint>, i: nat)
    requires i < |paths|
    ensures FuturePath(paths[..i + 1]) == FuturePath(paths[..i]) + [FuturePoint(paths[i])]
  {
    assert paths[..i + 1][..i] == paths[..i];
  }

  /**
   * The effect of one `update(msg, topo)`; `lanes` is the topology's lane
   * registry, read only for the length of the link lane on an access grant.
   */
  function Apply(s: VehicleState, m: Message, lanes: map<string, LaneInformation>): (r: VehicleState)
    requires ReadsLinkLength(s, m) ==> IdString(m.linkLaneId) in lanes
    ensures s.seen ==> r.seen && r.curTime >= s.curTime
    ensures SchedulingOf(r, s)
    ensures s.actualSt != Unset ==> r.actualSt == s.actualSt
    ensures s.actualEt != Unset ==> r.actualEt == s.actualEt
    ensures s.actualDt != Unset ==> r.actualDt == s.actualDt
  {
    if IsStale(s, m) then s
    else
      var t := MsToSeconds(m.timestamp);
      var grant := GrantsEntry(s.state, s.access, m);
      var link := IdString(m.linkLaneId);
      var st := if grant then DV else Classify(m);
      s.(seen := true,
         id := m.vId,
         length := m.vLength / 100.0,
         minGap := m.minGap,
         reactionT := m.reactT,
         accelMax := m.maxAccel,
         decelMax := -m.maxDecel,
         direction := m.direction,
         entryLaneId := IdString(m.entryLaneId),
         linkId := link,
         access := m.isAllowed,
         curTime := t,
         curDistance := if grant then lanes[link].length else m.curDs,
         curSpeed := MphToMps(m.curSpeed),
         curAccel := m.curAccel,
         curLaneId := if grant then link else IdString(m.curLaneId),
         state := st,
         actualSt := Stamp(s.actualSt, Rank(st) >= Rank(RDV), t),
         actualEt := Stamp(s.actualEt, Rank(st) >= Rank(DV), t),
         actualDt := Stamp(s.actualDt, st == LV, t),
         future := FuturePath(m.estPaths))
  }

  /** The static attributes `r` takes from message `m` (length from centimeters, deceleration negated). */
  predicate AttributesFrom(r: VehicleState, m: Message) {
    && r.seen && r.id == m.vId && r.length == m.vLength / 100.0 && r.minGap == m.minGap
    && r.reactionT == m.reactT && r.accelMax == m.maxAccel && r.decelMax == -m.maxDecel
    && r.direction == m.direction && r.entryLaneId == IdString(m.entryLaneId)
    && r.linkId == IdString(m.linkLaneId) && r.access == m.isAllowed
  }

  /**
   * The motion `r` takes from message `m` when the vehicle was in state `st0`,
   * with access flag `access0` and milestones `aSt`, `aEt`, `aDt`: time, speed and acceleration from the
   * message; on an access grant the link lane, its full length and DV;
   * otherwise the reported lane, distance and classified state; each
   * milestone stamped once; the future path rebuilt.
   */
  predicate MotionFrom(r: VehicleState, m: Message, lanes: map<string, LaneInformation>,
                       st0: VehicleStatus, access0: bool, aSt: real, aEt: real, aDt: real)
  {
    var t := MsToSeconds(m.timestamp);
    var link := IdString(m.linkLaneId);
    && r.curTime == t && r.curSpeed == MphToMps(m.curSpeed) && r.curAccel == m.curAccel
    && (if GrantsEntry(st0, access0, m)
        then link in lanes && r.curLaneId == link && r.curDistance == lanes[link].length && r.state == DV
        else r.curLaneId == IdString(m.curLaneId) && r.curDistance == m.curDs && r.state == Classify(m))
    && r.actualSt == Stamp(aSt, Rank(r.state) >= Rank(RDV), t)
    && r.actualEt == Stamp(aEt, Rank(r.state) >= Rank(DV), t)
    && r.actualDt == Stamp(aDt, r.state == LV, t)
    && r.future == FuturePath(m.estPaths)
  }

  /** The fields only the scheduler writes are the same in `r` as in `s`. */
  predicate SchedulingOf(r: VehicleState, s: VehicleState) {
    r.linkPriority == s.linkPriority && r.departurePosition == s.departurePosition
    && r.flexEt == s.flexEt && r.flexSt == s.flexSt
  }

  /** A stale message changes nothing. */
  lemma StaleIsNoOp(s: VehicleState, m: Message, lanes: map<string, LaneInformation>)
    requires IsStale(s, m)
    ensures Apply(s, m, lanes) == s
  {
  }

  /** An accepted message writes every static attribute from the message. */
  lemma AcceptedAttributes(s: VehicleState, m: Message, lanes: map<string, LaneInformation>)
    requires ReadsLinkLength(s, m) ==> IdString(m.linkLaneId) in lanes
    requires !IsStale(s, m)
    ensures AttributesFrom(Apply(s, m, lanes), m)
  {
  }

  /** An accepted message moves the vehicle as `MotionFrom` describes, from its previous state and milestones. */
  lemma AcceptedMotion(s: VehicleState, m: Message, lanes: map<string, LaneInformation>)
    requires ReadsLinkLength(s, m) ==> IdString(m.linkLaneId) in lanes
    requires !IsStale(s, m)
    ensures MotionFrom(Apply(s, m, lanes), m, lanes, s.state, s.access, s.actualSt, s.actualEt, s.actualDt)
  {
  }

  /** No message touches the fields the scheduler sets. */
  lemma SchedulingKept(s: VehicleState, m: Message, lanes: map<string, LaneInformation>)
    requires ReadsLinkLength(s, m) ==> IdString(m.linkLaneId) in lanes
    ensures SchedulingOf(Apply(s, m, lanes), s)
  {
  }

  /**
   * What one update promises, field by field: a stale message changes
   * nothing; an accepted one is newer than the last, takes time, speed,
   * acceleration and the static attributes from the message, moves onto the
   * link lane on an access grant, stamps each milestone once, when its
   * state or a later one is reached, and never moves it again, keeps the scheduler's
   * fields and replaces the future path point by point.
   */
  lemma ApplyContract(s: VehicleState, m: Message, lanes: map<string, LaneInformation>)
    requires ReadsLinkLength(s, m) ==> IdString(m.linkLaneId) in lanes
    ensures var r := Apply(s, m, lanes);
            IsStale(s, m) ==> r == s
    ensures var r := Apply(s, m, lanes);
            !IsStale(s, m) ==>
              && r.curTime == MsToSeconds(m.timestamp) && (s.seen ==> r.curTime > s.curTime)
              && AttributesFrom(r, m) && r.curSpeed == MphToMps(m.curSpeed) && r.curAccel == m.curAccel
    ensures var r := Apply(s, m, lanes);
            !IsStale(s, m) && !GrantsEntry(s.state, s.access, m) ==>
              r.curLaneId == IdString(m.curLaneId) && r.curDistance == m.curDs && r.state == Classify(m)
    ensures var r := Apply(s, m, lanes);
            !IsStale(s, m) && GrantsEntry(s.state, s.access, m) ==>
              r.curLaneId == r.linkId && r.curDistance == lanes[r.linkId].length && r.state == DV
    ensures var r := Apply(s, m, lanes);
            !IsStale(s, m) ==>
              && (s.actualSt != Unset ==> r.actualSt == s.actualSt)
              && (s.actualEt != Unset ==> r.actualEt == s.actualEt)
              && (s.actualDt != Unset ==> r.actualDt == s.actualDt)
              && (s.actualSt == Unset ==> (r.actualSt != Unset <==> r.state != EV) && (r.state != EV ==> r.actualSt == r.curTime))
              && (s.actualEt == Unset ==> (r.actualEt != Unset <==> r.state in {DV, LV}) && (r.state in {DV, LV} ==> r.actualEt == r.curTime))
              && (s.actualDt == Unset ==> (r.actualDt != Unset <==> r.state == LV) && (r.state == LV ==> r.actualDt == r.curTime))
    ensures SchedulingOf(Apply(s, m, lanes), s)
    ensures var r := Apply(s, m, lanes);
            !IsStale(s, m) ==>
              && |r.future| == |m.estPaths|
              && forall i :: 0 <= i < |m.estPaths| ==>
                   r.future[i] == FutureInformation(MsToSeconds(m.estPaths[i].ts), IdString(m.estPaths[i].id), m.estPaths[i].ds)
  {
    if !IsStale(s, m) {
      var r := Apply(s, m, lanes);
      forall i | 0 <= i < |m.estPaths|
        ensures r.future[i] == FutureInformation(MsToSeconds(m.estPaths[i].ts), IdString(m.estPaths[i].id), m.estPaths[i].ds)
      {
        FuturePathAt(m.estPaths, i);
      }
    }
  }

  /** Delivering the same message twice has the effect of delivering it once. */
  lemma DuplicateIsNoOp(s: VehicleState, m: Message, lanes: map<string, LaneInformation>)
    requires ReadsLinkLength(s, m) ==> IdString(m.linkLaneId) in lanes
    ensures var r := Apply(s, m, lanes);
            (ReadsLinkLength(r, m) ==> IdString(m.linkLaneId) in lanes) && Apply(r, m, lanes) == r
  {
  }

  /**
   * The milestone invariant: a reached milestone lies in the past; they are
   * reached in the order ST, ET, DT; and each state past EV has its own
   * milestone set.
   */
  ghost predicate MilestonesOrdered(s: VehicleState) {
    && (!s.seen ==> s.actualSt == Unset && s.actualEt == Unset && s.actualDt == Unset)
    && (s.actualSt != Unset ==> 0.0 <= s.actualSt <= s.curTime)
    && (s.actualEt != Unset ==> s.actualSt != Unset && s.actualSt <= s.actualEt <= s.curTime)
    && (s.actualDt != Unset ==> s.actualEt != Unset && s.actualEt <= s.actualDt <= s.curTime)
    && (s.state == RDV ==> s.actualSt != Unset)
    && (s.state == DV ==> s.actualEt != Unset)
    && (s.state == LV ==> s.actualDt != Unset)
  }

  /**
   * Every update keeps the milestones ordered, including one that moves the
   * vehicle past a state (a first message already on the link or exit lane):
   * the skipped milestones are stamped with the same time.
   */
  lemma MilestonesOrderedPreserved(s: VehicleState, m: Message, lanes: map<string, LaneInformation>)
    requires ReadsLinkLength(s, m) ==> IdString(m.linkLaneId) in lanes
    requires MilestonesOrdered(s)
    ensures MilestonesOrdered(Apply(s, m, lanes))
  {
  }

  /** On leaving, all three milestones are set and ordered. */
  lemma LeavingHasAllMilestones(s: VehicleState)
    requires MilestonesOrdered(s) && s.state == LV
    ensures s.actualSt != Unset && s.actualEt != Unset && s.actualDt != Unset
    ensures s.actualSt <= s.actualEt <= s.actualDt
  {
  }

  /**
   * A vehicle before its first message: nothing seen, state EV, no
   * milestone reached, scheduler fields 0, empty future path.
   */
  function Initial(): (s: VehicleState)
    ensures !s.seen && s.state == EV && s.actualSt == Unset && s.actualEt == Unset && s.actualDt == Unset
    ensures s.linkPriority == 0 && s.departurePosition == 0 && s.flexEt == 0.0 && s.flexSt == 0.0
  {
    VehicleState(false, "", 0.0, 0.0, 0.0, 0.0, 0.0, "", "", "", 0, 0, 0.0, 0.0, false,
                 0.0, 0.0, 0.0, 0.0, "", EV, Unset, Unset, Unset, [])
  }

  /** A vehicle's fields; the getters of the source read them directly. */
  class Vehicle {
    var seen: bool
    var id: string
    var length: real
    var minGap: real
    var reactionT: real
    var accelMax: real
    var decelMax: real
    var direction: string
    var entryLaneId: string
    var linkId: string
    var linkPriority: int
    var departurePosition: int
    var flexEt: real
    var flexSt: real
    var access: bool
    var curTime: real
    var curDistance: real
    var curSpeed: real
    var curAccel: real
    var curLaneId: string
    var curState: VehicleStatus
    var actualSt: real
    var actualEt: real
    var actualDt: real
    var futureInfo: seq<FutureInformation>

    /** All fields as one value. */
    function Snapshot(): VehicleState
      reads this
    {
      VehicleState(seen, id, length, minGap, reactionT, accelMax, decelMax, direction, entryLaneId, linkId,
                   linkPriority, departurePosition, flexEt, flexSt, access, curTime, curDistance, curSpeed,
                   curAccel, curLaneId, curState, actualSt, actualEt, actualDt, futureInfo)
    }

    /** The static attribute fields hold those of `r`. */
    ghost predicate HasAttributes(r: VehicleState)
      reads this`seen, this`id, this`length, this`minGap, this`reactionT, this`accelMax, this`decelMax
      reads this`direction, this`entryLaneId, this`linkId, this`access
    {
      seen == r.seen && id == r.id && length == r.length && minGap == r.minGap && reactionT == r.reactionT
      && accelMax == r.accelMax && decelMax == r.decelMax && direction == r.direction
      && entryLaneId == r.entryLaneId && linkId == r.linkId && access == r.access
    }

    /** The kinematic, state, milestone and future-path fields hold those of `r`. */
    ghost predicate HasMotion(r: VehicleState)
      reads this`curTime, this`curDistance, this`curSpeed, this`curAccel, this`curLaneId, this`curState
      reads this`actualSt, this`actualEt, this`actualDt, this`futureInfo
    {
      curTime == r.curTime && curDistance == r.curDistance && curSpeed == r.curSpeed && curAccel == r.curAccel
      && curLaneId == r.curLaneId && curState == r.state
      && actualSt == r.actualSt && actualEt == r.actualEt && actualDt == r.actualDt && futureInfo == r.future
    }

    /** The scheduler's fields hold those of `r`. */
    ghost predicate HasScheduling(r: VehicleState)
      reads this`linkPriority, this`departurePosition, this`flexEt, this`flexSt
    {
      linkPriority == r.linkPriority && departurePosition == r.departurePosition
      && flexEt == r.flexEt && flexSt == r.flexSt
    }

    /** Every field equals the corresponding component of `r`. */
    ghost predicate Is(r: VehicleState)
      reads this
    {
      HasAttributes(r) && HasMotion(r) && HasScheduling(r)
    }

    /** No telemetry yet: no milestone reached, scheduler fields 0. */
    constructor ()
      ensures Snapshot() == Initial() && MilestonesOrdered(Snapshot())
    {
      seen := false;
      id := "";
      length := 0.0;
      minGap := 0.0;
      reactionT := 0.0;
      accelMax := 0.0;
      decelMax := 0.0;
      direction := "";
      entryLaneId := "";
      linkId := "";
      linkPriority := 0;
      departurePosition := 0;
      flexEt := 0.0;
      flexSt := 0.0;
      access := false;
      curTime := 0.0;
      curDistance := 0.0;
      curSpeed := 0.0;
      curAccel := 0.0;
      curLaneId := "";
      curState := EV;
      actualSt := Unset;
      actualEt := Unset;
      actualDt := Unset;
      futureInfo := [];
    }

    /**
     * `update(msg, topo)`: drop a stale message; otherwise overwrite the
     * static and kinematic fields, move onto the link lane (with the length
     * the topology records for it) on an access grant, classify, stamp
     * milestones and rebuild the future path.
     */
    method Update(msg: Message, topo: IntersectionClient)
      requires ReadsLinkLength(Snapshot(), msg) ==> IdString(msg.linkLaneId) in topo.laneInfo
      modifies this
      ensures Snapshot() == Apply(old(Snapshot()), msg, topo.laneInfo)
      ensures MilestonesOrdered(old(Snapshot())) ==> MilestonesOrdered(Snapshot())
      ensures ReadsLinkLength(old(Snapshot()), msg) ==>
                curLaneId == linkId && curLaneId in topo.laneInfo && curDistance == topo.laneInfo[curLaneId].length
    {
      ghost var s := Snapshot();
      var lanes := topo.laneInfo;
      if MilestonesOrdered(s) {
        MilestonesOrderedPreserved(s, msg, lanes);
      }
      if seen && MsToSeconds(msg.timestamp) <= curTime {
        StaleIsNoOp(s, msg, lanes);
        return;
      }
      ghost var r := Apply(s, msg, lanes);
      AcceptedAttributes(s, msg, lanes);
      AcceptedMotion(s, msg, lanes);
      SchedulingKept(s, msg, lanes);
      Accept(msg, lanes, r);
      assert lanes == topo.laneInfo;
    }

    /** An accepted message: every field takes the value `r` gives it. */
    method Accept(msg: Message, lanes: map<string, LaneInformation>, ghost r: VehicleState)
      requires AttributesFrom(r, msg)
      requires MotionFrom(r, msg, lanes, curState, access, actualSt, actualEt, actualDt)
      requires HasScheduling(r)
      modifies this
      ensures Is(r)
    {
      Advance(msg, lanes, r);
      SetAttributes(msg, r);
    }

    /** The static attributes, re-applied from every accepted message. */
    method SetAttributes(msg: Message, ghost r: VehicleState)
      requires AttributesFrom(r, msg)
      modifies this`seen, this`id, this`length, this`minGap, this`reactionT, this`accelMax, this`decelMax
      modifies this`direction, this`entryLaneId, this`linkId, this`access
      ensures HasAttributes(r)
    {
      seen := true;
      id := msg.vId;
      length := msg.vLength / 100.0;
      minGap := msg.minGap;
      reactionT := msg.reactT;
      accelMax := msg.maxAccel;
      decelMax := -msg.maxDecel;
      direction := msg.direction;
      entryLaneId := IdString(msg.entryLaneId);
      linkId := IdString(msg.linkLaneId);
      access := msg.isAllowed;
    }

    /** Time, position, speed, state, milestones and future path from an accepted message. */
    method Advance(msg: Message, lanes: map<string, LaneInformation>, ghost r: VehicleState)
      requires MotionFrom(r, msg, lanes, curState, access, actualSt, actualEt, actualDt)
      modifies this`curTime, this`curDistance, this`curSpeed, this`curAccel, this`curLaneId, this`curState
      modifies this`actualSt, this`actualEt, this`actualDt, this`futureInfo
      ensures HasMotion(r)
    {
      var t := MsToSeconds(msg.timestamp);
      var link := IdString(msg.linkLaneId);
      var reached := Classify(msg);
      if GrantsEntry(curState, access, msg) {
        curLaneId := link;
        curDistance := lanes[link].length;
        reached := DV;
      } else {
        curLaneId := IdString(msg.curLaneId);
        curDistance := msg.curDs;
      }
      curTime := t;
      curSpeed := MphToMps(msg.curSpeed);
      curAccel := msg.curAccel;
      curState := reached;
      actualSt := Stamp(actualSt, Rank(reached) >= Rank(RDV), t);
      actualEt := Stamp(actualEt, Rank(reached) >= Rank(DV), t);
      actualDt := Stamp(actualDt, reached == LV, t);
      futureInfo := FuturePathOf(msg.estPaths);
    }

    /** The loop that rebuilds the future path from the message's points. */
    static method FuturePathOf(paths: seq<EstimatedPoint>) returns (path: seq<FutureInformation>)
      ensures path == FuturePath(paths)
    {
      path := [];
      var i := 0;
      while i < |paths|
        invariant 0 <= i <= |paths|
        invariant path == FuturePath(paths[..i])
      {
        var p := paths[i];
        FuturePathSnoc(paths, i);
        path := path + [FutureInformation(MsToSeconds(p.ts), IdString(p.id), p.ds)];
        i := i + 1;
      }
      assert paths[..i] == paths;
    }

    /** `set_departurePosition`: the scheduler's departure position, nothing else. */
    method SetDeparturePosition(pos: int)
      modifies this
      ensures Snapshot() == old(Snapshot()).(departurePosition := pos)
      ensures MilestonesOrdered(old(Snapshot())) ==> MilestonesOrdered(Snapshot())
    {
      departurePosition := pos;
    }

    /** `set_flexEt`: the scheduler's flexible entry time, nothing else. */
    method SetFlexEt(et: real)
      modifies this
      ensures Snapshot() == old(Snapshot()).(flexEt := et)
      ensures MilestonesOrdered(old(Snapshot())) ==> MilestonesOrdered(Snapshot())
    {
      flexEt := et;
    }

    /** `set_flexSt`: the scheduler's flexible stop time, nothing else. */
    method SetFlexSt(st: real)
      modifies this
      ensures Snapshot() == old(Snapshot()).(flexSt := st)
      ensures MilestonesOrdered(old(Snapshot())) ==> MilestonesOrdered(Snapshot())
    {
      flexSt := st;
    }
  }
}
