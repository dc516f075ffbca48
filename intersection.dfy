/**
 * The intersection topology held by `intersection_client`: one fetch of the
 * intersection description fills a registry of lane records, four ordered id
 * lists and a lane_count x lane_count conflict matrix, which the getters then
 * read.
 */
module Intersection {
  import opened Conversions

  /** One lanelet of the fetched description (speed limit in miles/hour). */
  datatype LaneletInfo = LaneletInfo(id: int, length: real, speedLimit: real, conflictLaneletIds: seq<int>)

  /** The fetched description: entry, departure (exit) and link lanelets. */
  datatype IntersectionInfo = IntersectionInfo(
    name: string,
    id: int,
    entryLanelets: seq<LaneletInfo>,
    departureLanelets: seq<LaneletInfo>,
    linkLanelets: seq<LaneletInfo>)

  /** How the bounded request ends: the success signal, the error signal, or the 5 s timer. */
  datatype FetchOutcome = Received(info: IntersectionInfo) | RequestError(message: string) | TimedOut

  /** The stored record of one lane (`lane_information`); speed limit in meters/second. */
  datatype LaneInformation = LaneInformation(
    id: string,
    index: int,
    laneType: string,
    length: real,
    speedLimit: real,
    priority: int,
    conflictingLaneIds: seq<string>)

  const EntryPriority: int := -1
  const ExitPriority: int := -1
  const LinkPriority: int := 1

  /** All lanelets in index order: entry, then exit, then link. */
  function Lanes(info: IntersectionInfo): seq<LaneletInfo> {
    info.entryLanelets + info.departureLanelets + info.linkLanelets
  }

  /** Index of the first link lane. */
  function LinkStart(info: IntersectionInfo): nat {
    |info.entryLanelets| + |info.departureLanelets|
  }

  /** The id strings of a list of lanelets, in order. */
  function LaneIds(lanes: seq<LaneletInfo>): (r: seq<string>)
    ensures |r| == |lanes|
    ensures forall k :: 0 <= k < |lanes| ==> r[k] == IdString(lanes[k].id)
  {
    seq(|lanes|, k requires 0 <= k < |lanes| => IdString(lanes[k].id))
  }

  /** The id of the lane with index `k`. */
  function IdAt(info: IntersectionInfo, k: nat): int
    requires k < |Lanes(info)|
  {
    Lanes(info)[k].id
  }

  ghost predicate IsLaneId(info: IntersectionInfo, c: int) {
    exists k :: 0 <= k < |Lanes(info)| && IdAt(info, k) == c
  }

  /**
   * What the builder relies on: lane ids are distinct, and every conflict id
   * of a link lanelet names a lane of the intersection.
   */
  ghost predicate WellFormed(info: IntersectionInfo) {
    DistinctIds(info) && ConflictsKnown(info)
  }

  /** No two lanes share an id. */
  ghost predicate DistinctIds(info: IntersectionInfo) {
    forall a, b :: 0 <= a < b < |Lanes(info)| ==> IdAt(info, a) != IdAt(info, b)
  }

  /** Every conflict id of a link lanelet is the id of some lane. */
  ghost predicate ConflictsKnown(info: IntersectionInfo) {
    forall q, c :: 0 <= q < |info.linkLanelets| && c in info.linkLanelets[q].conflictLaneletIds ==> IsLaneId(info, c)
  }

  /** The record the builder stores for the lane with index `k`. */
  function Record(info: IntersectionInfo, k: nat): (r: LaneInformation)
    requires k < |Lanes(info)|
    ensures r.id == IdString(IdAt(info, k)) && r.index == k
    ensures r.length == Lanes(info)[k].length && r.speedLimit == MphToMps(Lanes(info)[k].speedLimit)
    ensures r.laneType == "link" <==> LinkStart(info) <= k
    ensures r.priority == (if r.laneType == "link" then 1 else -1)
    ensures r.laneType != "link" ==> r.conflictingLaneIds == []
  {
    var l := Lanes(info)[k];
    if k < |info.entryLanelets| then
      LaneInformation(IdString(l.id), k, "entry", l.length, MphToMps(l.speedLimit), EntryPriority, [])
    else if k < LinkStart(info) then
      LaneInformation(IdString(l.id), k, "exit", l.length, MphToMps(l.speedLimit), ExitPriority, [])
    else
      LaneInformation(IdString(l.id), k, "link", l.length, MphToMps(l.speedLimit), LinkPriority,
                      IdStrings(l.conflictLaneletIds))
  }

  /** The record of the i-th exit lanelet, stored under index |entry| + i. */
  lemma ExitRecord(info: IntersectionInfo, i: nat)
    requires i < |info.departureLanelets|
    ensures var l := info.departureLanelets[i];
            Record(info, |info.entryLanelets| + i) ==
              LaneInformation(IdString(l.id), |info.entryLanelets| + i, "exit", l.length,
                              MphToMps(l.speedLimit), ExitPriority, [])
  {
    assert Lanes(info)[|info.entryLanelets| + i] == info.departureLanelets[i];
  }

  /** The record of the i-th link lanelet, stored under index LinkStart + i. */
  lemma LinkRecord(info: IntersectionInfo, i: nat)
    requires i < |info.linkLanelets|
    ensures var l := info.linkLanelets[i];
            Record(info, LinkStart(info) + i) ==
              LaneInformation(IdString(l.id), LinkStart(info) + i, "link", l.length,
                              MphToMps(l.speedLimit), LinkPriority, IdStrings(l.conflictLaneletIds))
  {
    assert Lanes(info)[LinkStart(info) + i] == info.linkLanelets[i];
  }

  /**
   * The value the fill leaves in cell (i, j): 1 exactly when lane i is a link
   * lane and j is i itself or a lane in i's conflict list.
   */
  function Cell(info: IntersectionInfo, i: nat, j: nat): (r: int)
    requires i < |Lanes(info)| && j < |Lanes(info)|
    ensures r == 0 || r == 1
    ensures i < LinkStart(info) ==> r == 0
    ensures i == j ==> (r == 1 <==> LinkStart(info) <= i)
  {
    if LinkStart(info) <= i && (i == j || Lanes(info)[j].id in Lanes(info)[i].conflictLaneletIds) then 1 else 0
  }

  /** Distinct lanes have distinct id strings. */
  lemma LaneIdsDistinct(info: IntersectionInfo)
    requires WellFormed(info)
    ensures forall a, b :: 0 <= a < |Lanes(info)| && 0 <= b < |Lanes(info)| && a != b ==>
              IdString(IdAt(info, a)) != IdString(IdAt(info, b))
  {
    forall a, b | 0 <= a < |Lanes(info)| && 0 <= b < |Lanes(info)| && a != b
      ensures IdString(IdAt(info, a)) != IdString(IdAt(info, b))
    {
      if a < b { assert IdAt(info, a) != IdAt(info, b); } else { assert IdAt(info, b) != IdAt(info, a); }
      IdStringInjective(IdAt(info, a), IdAt(info, b));
    }
  }

  /** Lane |entry| + r is the r-th exit lanelet. */
  lemma ExitLane(info: IntersectionInfo, r: nat)
    requires r < |info.departureLanelets|
    ensures |info.entryLanelets| + r < |Lanes(info)|
    ensures Lanes(info)[|info.entryLanelets| + r] == info.departureLanelets[r]
    ensures IdAt(info, |info.entryLanelets| + r) == info.departureLanelets[r].id
  {
  }

  /** Lane LinkStart + r is the r-th link lanelet. */
  lemma LinkLane(info: IntersectionInfo, r: nat)
    requires r < |info.linkLanelets|
    ensures LinkStart(info) + r < |Lanes(info)|
    ensures Lanes(info)[LinkStart(info) + r] == info.linkLanelets[r]
    ensures IdAt(info, LinkStart(info) + r) == info.linkLanelets[r].id
  {
  }

  /** Under distinct ids, two lanes with the same id are the same lane. */
  lemma SameIdSameLane(info: IntersectionInfo, a: nat, b: nat)
    requires DistinctIds(info) && a < |Lanes(info)| && b < |Lanes(info)|
    requires IdAt(info, a) == IdAt(info, b)
    ensures a == b
  {
  }

  /** A rendered id is listed for some lanelets exactly when one of them carries that id. */
  lemma InLaneIds(x: int, lanes: seq<LaneletInfo>)
    ensures IdString(x) in LaneIds(lanes) <==> exists t :: 0 <= t < |lanes| && lanes[t].id == x
  {
    var ids := LaneIds(lanes);
    if IdString(x) in ids {
      var t :| 0 <= t < |ids| && ids[t] == IdString(x);
      IdStringInjective(lanes[t].id, x);
    }
    if exists t :: 0 <= t < |lanes| && lanes[t].id == x {
      var t :| 0 <= t < |lanes| && lanes[t].id == x;
      assert ids[t] == IdString(x);
    }
  }

  /** Lane `k`'s id string is among the entry ids exactly when `k` is an entry index. */
  lemma InEntryIds(info: IntersectionInfo, k: nat)
    requires DistinctIds(info) && k < |Lanes(info)|
    ensures IdString(IdAt(info, k)) in LaneIds(info.entryLanelets) <==> k < |info.entryLanelets|
  {
    InLaneIds(IdAt(info, k), info.entryLanelets);
    if exists t :: 0 <= t < |info.entryLanelets| && info.entryLanelets[t].id == IdAt(info, k) {
      var t :| 0 <= t < |info.entryLanelets| && info.entryLanelets[t].id == IdAt(info, k);
      assert IdAt(info, t) == info.entryLanelets[t].id;
      SameIdSameLane(info, t, k);
    }
    if k < |info.entryLanelets| {
      assert info.entryLanelets[k].id == IdAt(info, k);
    }
  }

  /** Lane `k`'s id string is among the exit ids exactly when `k` is an exit index. */
  lemma InExitIds(info: IntersectionInfo, k: nat)
    requires DistinctIds(info) && k < |Lanes(info)|
    ensures IdString(IdAt(info, k)) in LaneIds(info.departureLanelets) <==> |info.entryLanelets| <= k < LinkStart(info)
  {
    var e := |info.entryLanelets|;
    InLaneIds(IdAt(info, k), info.departureLanelets);
    if exists t :: 0 <= t < |info.departureLanelets| && info.departureLanelets[t].id == IdAt(info, k) {
      var t :| 0 <= t < |info.departureLanelets| && info.departureLanelets[t].id == IdAt(info, k);
      ExitLane(info, t);
      SameIdSameLane(info, e + t, k);
    }
    if e <= k < LinkStart(info) {
      ExitLane(info, k - e);
    }
  }

  /** Lane `k`'s id string is among the link ids exactly when `k` is a link index. */
  lemma InLinkIds(info: IntersectionInfo, k: nat)
    requires DistinctIds(info) && k < |Lanes(info)|
    ensures IdString(IdAt(info, k)) in LaneIds(info.linkLanelets) <==> LinkStart(info) <= k
  {
    var x := LinkStart(info);
    InLaneIds(IdAt(info, k), info.linkLanelets);
    if exists t :: 0 <= t < |info.linkLanelets| && info.linkLanelets[t].id == IdAt(info, k) {
      var t :| 0 <= t < |info.linkLanelets| && info.linkLanelets[t].id == IdAt(info, k);
      LinkLane(info, t);
      SameIdSameLane(info, x + t, k);
    }
    if x <= k {
      LinkLane(info, k - x);
    }
  }

  /** Cell (L, j) of link lane L: 1 when j is L or j's id string is among L's conflict strings. */
  lemma LinkRowCell(info: IntersectionInfo, q: nat, j: nat)
    requires q < |info.linkLanelets| && j < |Lanes(info)|
    ensures Cell(info, LinkStart(info) + q, j) ==
              if j == LinkStart(info) + q || IdString(IdAt(info, j)) in IdStrings(info.linkLanelets[q].conflictLaneletIds)
              then 1 else 0
  {
    assert Lanes(info)[LinkStart(info) + q] == info.linkLanelets[q];
    InIdStrings(IdAt(info, j), info.linkLanelets[q].conflictLaneletIds);
  }

  /**
   * The whole row of link lane LinkStart + q, given the id string of every
   * lane and a record carrying that lane's index and conflict strings.
   */
  lemma LinkRowCells(info: IntersectionInfo, ids: seq<string>, q: nat, rec: LaneInformation)
    requires q < |info.linkLanelets| && |ids| == |Lanes(info)|
    requires forall j :: 0 <= j < |ids| ==> ids[j] == IdString(IdAt(info, j))
    requires rec.index == LinkStart(info) + q
    requires rec.conflictingLaneIds == IdStrings(info.linkLanelets[q].conflictLaneletIds)
    ensures forall j :: 0 <= j < |ids| ==>
              Cell(info, rec.index, j) == if j == rec.index || ids[j] in rec.conflictingLaneIds then 1 else 0
  {
    forall j | 0 <= j < |ids|
      ensures Cell(info, rec.index, j) == if j == rec.index || ids[j] in rec.conflictingLaneIds then 1 else 0
    {
      LinkRowCell(info, q, j);
    }
  }

  /** The inner loop of the link pass: each conflict id rendered as a string, in source order. */
  method ConflictingLaneIds(lanelet: LaneletInfo) returns (conflicts: seq<string>)
    ensures |conflicts| == |lanelet.conflictLaneletIds|
    ensures forall p :: 0 <= p < |conflicts| ==> conflicts[p] == IdString(lanelet.conflictLaneletIds[p])
  {
    conflicts := [];
    var p := 0;
    while p < |lanelet.conflictLaneletIds|
      invariant 0 <= p <= |lanelet.conflictLaneletIds|
      invariant |conflicts| == p
      invariant forall t :: 0 <= t < p ==> conflicts[t] == IdString(lanelet.conflictLaneletIds[t])
    {
      conflicts := conflicts + [IdString(lanelet.conflictLaneletIds[p])];
      p := p + 1;
    }
  }

  /** Rendering one lanelet more appends its id string. */
  lemma LaneIdsSnoc(lanes: seq<LaneletInfo>, i: nat)
    requires i < |lanes|
    ensures LaneIds(lanes[..i + 1]) == LaneIds(lanes[..i]) + [IdString(lanes[i].id)]
  {
    assert lanes[..i + 1][..i] == lanes[..i];
  }

  /** The id list of all lanes is the entry, exit and link id lists concatenated. */
  lemma LaneIdsAppend(info: IntersectionInfo)
    ensures LaneIds(Lanes(info)) == LaneIds(info.entryLanelets) + LaneIds(info.departureLanelets) + LaneIds(info.linkLanelets)
  {
  }

  /**
   * The state of the registry after the first `count` lanes are recorded:
   * `ids` lists their id strings in order and `m` maps each to its record.
   */
  ghost predicate Registered(info: IntersectionInfo, count: nat, ids: seq<string>, m: map<string, LaneInformation>) {
    count <= |Lanes(info)|
    && |ids| == count
    && (forall k :: 0 <= k < count ==> ids[k] == IdString(IdAt(info, k)))
    && (forall key :: key in m <==> key in ids)
    && (forall k :: 0 <= k < count ==> ids[k] in m && m[ids[k]] == Record(info, k))
  }

  /** Recording the next lane's record extends the registry by exactly that lane. */
  lemma RegisterNext(info: IntersectionInfo, count: nat, ids: seq<string>, m: map<string, LaneInformation>)
    requires WellFormed(info)
    requires count < |Lanes(info)|
    requires Registered(info, count, ids, m)
    ensures Registered(info, count + 1, ids + [Record(info, count).id], m[Record(info, count).id := Record(info, count)])
  {
    LaneIdsDistinct(info);
    var key := Record(info, count).id;
    forall k | 0 <= k < count
      ensures ids[k] != key
    {
      assert ids[k] == IdString(IdAt(info, k));
      assert key == IdString(IdAt(info, count));
    }
  }

  class IntersectionClient {
    var intersectionName: string
    var intersectionId: int
    var laneCount: int
    var laneInfo: map<string, LaneInformation>
    var laneIdAll: seq<string>
    var laneIdEntry: seq<string>
    var laneIdExit: seq<string>
    var laneIdLink: seq<string>
    var laneConflictStatus: array2<int>

    /** The description the current state was built from (empty before a successful fetch). */
    ghost var source: IntersectionInfo

    /** Registry, lists and counters agree with `source`. */
    ghost predicate ValidRegistry()
      reads this
    {
      WellFormed(source)
      && intersectionName == source.name && intersectionId == source.id
      && laneCount == |Lanes(source)|
      && Registered(source, |Lanes(source)|, laneIdAll, laneInfo)
      && laneIdEntry == LaneIds(source.entryLanelets)
      && laneIdExit == LaneIds(source.departureLanelets)
      && laneIdLink == LaneIds(source.linkLanelets)
    }

    /** ValidRegistry and a conflict matrix of the right size filled as `Cell` says. */
    ghost predicate Valid()
      reads this, laneConflictStatus
    {
      ValidRegistry()
      && laneConflictStatus.Length0 == laneCount && laneConflictStatus.Length1 == laneCount
      && forall i, j :: 0 <= i < laneCount && 0 <= j < laneCount ==>
           laneConflictStatus[i, j] == Cell(source, i, j)
    }

    constructor ()
      ensures Valid() && laneCount == 0
      ensures laneIdAll == [] && laneInfo == map[]
    {
      intersectionName := "";
      intersectionId := 0;
      laneCount := 0;
      laneInfo := map[];
      laneIdAll := [];
      laneIdEntry := [];
      laneIdExit := [];
      laneIdLink := [];
      laneConflictStatus := new int[0, 0];
      source := IntersectionInfo("", 0, [], [], []);
    }

    /** A registered id is listed at the position its record carries as index. */
    lemma RegisteredIndex(laneId: string)
      requires ValidRegistry() && laneId in laneInfo
      ensures 0 <= laneInfo[laneId].index < laneCount
      ensures laneIdAll[laneInfo[laneId].index] == laneId
      ensures laneInfo[laneId] == Record(source, laneInfo[laneId].index)
    {
      var k :| 0 <= k < |laneIdAll| && laneIdAll[k] == laneId;
      assert laneInfo[laneIdAll[k]] == Record(source, k);
    }

    /** The fields the passes of `Build` have filled so far: the first `count` lanes. */
    ghost predicate Building(info: IntersectionInfo, count: nat)
      reads this
    {
      source == info && WellFormed(info)
      && intersectionName == info.name && intersectionId == info.id
      && Registered(info, count, laneIdAll, laneInfo)
    }

    /**
     * The body of the success callback of `call()`: walk entry, exit and link
     * lanelets, record each under the next index of one counter, then
     * allocate and fill the conflict matrix.
     */
    method Build(info: IntersectionInfo)
      requires Valid() && laneCount == 0
      requires WellFormed(info)
      modifies this
      ensures Valid() && source == info
      ensures fresh(laneConflictStatus)
    {
      assert Lanes(source) == [];
      source := info;
      intersectionName := info.name;
      intersectionId := info.id;
      var count := RegisterLanes(info);
      laneCount := count;
      laneConflictStatus := new int[count, count]((_, _) => 0);
      FillConflictStatus();
    }

    /** The three passes in order, sharing one counter that starts at 0. */
    method RegisterLanes(info: IntersectionInfo) returns (count: nat)
      requires Building(info, 0)
      requires laneIdEntry == [] && laneIdExit == [] && laneIdLink == []
      modifies this`laneInfo, this`laneIdAll, this`laneIdEntry, this`laneIdExit, this`laneIdLink
      ensures count == |Lanes(info)| && Building(info, count)
      ensures laneIdEntry == LaneIds(info.entryLanelets)
      ensures laneIdExit == LaneIds(info.departureLanelets)
      ensures laneIdLink == LaneIds(info.linkLanelets)
    {
      count := 0;
      count := RegisterEntryLanes(info, count);
      count := RegisterExitLanes(info, count);
      count := RegisterLinkLanes(info, count);
    }

    /** Store one record in `laneInfo` under its id and append the id to `laneIdAll`. */
    method AddLane(info: IntersectionInfo, count: nat, li: LaneInformation)
      requires Building(info, count) && count < |Lanes(info)| && li == Record(info, count)
      modifies this`laneInfo, this`laneIdAll
      ensures Building(info, count + 1)
      ensures laneIdAll == old(laneIdAll) + [li.id]
    {
      RegisterNext(info, count, laneIdAll, laneInfo);
      laneInfo := laneInfo[li.id := li];
      laneIdAll := laneIdAll + [li.id];
    }

    /** The entry pass: type "entry", priority -1, no conflict list. */
    method RegisterEntryLanes(info: IntersectionInfo, count0: nat) returns (count: nat)
      requires count0 == 0 && Building(info, count0)
      requires laneIdEntry == []
      modifies this`laneInfo, this`laneIdAll, this`laneIdEntry
      ensures count == |info.entryLanelets| && Building(info, count)
      ensures laneIdEntry == LaneIds(info.entryLanelets)
    {
      count := count0;
      var i := 0;
      while i < |info.entryLanelets|
        invariant 0 <= i <= |info.entryLanelets| && count == i
        invariant Building(info, count)
        invariant laneIdEntry == LaneIds(info.entryLanelets[..i])
      {
        var lanelet := info.entryLanelets[i];
        var li := LaneInformation(IdString(lanelet.id), count, "entry", lanelet.length,
                                  MphToMps(lanelet.speedLimit), EntryPriority, []);
        AddLane(info, count, li);
        LaneIdsSnoc(info.entryLanelets, i);
        laneIdEntry := laneIdEntry + [li.id];
        count := count + 1;
        i := i + 1;
      }
      assert info.entryLanelets[..i] == info.entryLanelets;
    }

    /** The exit (departure) pass: type "exit", priority -1, no conflict list. */
    method RegisterExitLanes(info: IntersectionInfo, count0: nat) returns (count: nat)
      requires count0 == |info.entryLanelets| && Building(info, count0)
      requires laneIdExit == []
      modifies this`laneInfo, this`laneIdAll, this`laneIdExit
      ensures count == LinkStart(info) && Building(info, count)
      ensures laneIdExit == LaneIds(info.departureLanelets)
    {
      count := count0;
      var i := 0;
      while i < |info.departureLanelets|
        invariant 0 <= i <= |info.departureLanelets| && count == |info.entryLanelets| + i
        invariant Building(info, count)
        invariant laneIdExit == LaneIds(info.departureLanelets[..i])
      {
        AddExitLane(info, i, count);
        LaneIdsSnoc(info.departureLanelets, i);
        count := count + 1;
        i := i + 1;
      }
      assert info.departureLanelets[..i] == info.departureLanelets;
    }

    /** One step of the exit pass: record the i-th departure lanelet under index `count`. */
    method AddExitLane(info: IntersectionInfo, i: nat, count: nat)
      requires i < |info.departureLanelets| && count == |info.entryLanelets| + i && Building(info, count)
      modifies this`laneInfo, this`laneIdAll, this`laneIdExit
      ensures Building(info, count + 1)
      ensures laneIdExit == old(laneIdExit) + [IdString(info.departureLanelets[i].id)]
    {
      var lanelet := info.departureLanelets[i];
      var li := LaneInformation(IdString(lanelet.id), count, "exit", lanelet.length,
                                MphToMps(lanelet.speedLimit), ExitPriority, []);
      ExitRecord(info, i);
      AddLane(info, count, li);
      laneIdExit := laneIdExit + [li.id];
    }

    /** The link pass: type "link", priority 1, conflict ids kept as strings. */
    method RegisterLinkLanes(info: IntersectionInfo, count0: nat) returns (count: nat)
      requires count0 == LinkStart(info) && Building(info, count0)
      requires laneIdLink == []
      modifies this`laneInfo, this`laneIdAll, this`laneIdLink
      ensures count == |Lanes(info)| && Building(info, count)
      ensures laneIdLink == LaneIds(info.linkLanelets)
    {
      count := count0;
      var i := 0;
      while i < |info.linkLanelets|
        invariant 0 <= i <= |info.linkLanelets| && count == LinkStart(info) + i
        invariant Building(info, count)
        invariant laneIdLink == LaneIds(info.linkLanelets[..i])
      {
        AddLinkLane(info, i, count);
        LaneIdsSnoc(info.linkLanelets, i);
        count := count + 1;
        i := i + 1;
      }
      assert info.linkLanelets[..i] == info.linkLanelets;
    }

    /** One step of the link pass: record the i-th link lanelet, with its conflict strings, under index `count`. */
    method AddLinkLane(info: IntersectionInfo, i: nat, count: nat)
      requires i < |info.linkLanelets| && count == LinkStart(info) + i && Building(info, count)
      modifies this`laneInfo, this`laneIdAll, this`laneIdLink
      ensures Building(info, count + 1)
      ensures laneIdLink == old(laneIdLink) + [IdString(info.linkLanelets[i].id)]
    {
      var lanelet := info.linkLanelets[i];
      var conflicts := ConflictingLaneIds(lanelet);
      var li := LaneInformation(IdString(lanelet.id), count, "link", lanelet.length,
                                MphToMps(lanelet.speedLimit), LinkPriority, conflicts);
      LinkRecord(info, i);
      AddLane(info, count, li);
      laneIdLink := laneIdLink + [li.id];
    }

    /**
     * The fill: for every link lane, in `laneIdLink` order, write its row.
     * Rows of entry and exit lanes stay 0.
     */
    method FillConflictStatus()
      requires ValidRegistry()
      requires laneConflictStatus.Length0 == laneCount && laneConflictStatus.Length1 == laneCount
      requires forall i, j :: 0 <= i < laneCount && 0 <= j < laneCount ==> laneConflictStatus[i, j] == 0
      modifies laneConflictStatus
      ensures Valid()
    {
      var q := 0;
      while q < |laneIdLink|
        invariant 0 <= q <= |laneIdLink|
        invariant forall i, j :: 0 <= i < laneCount && 0 <= j < laneCount ==>
                    laneConflictStatus[i, j] == (if i < LinkStart(source) + q then Cell(source, i, j) else 0)
      {
        FillRow(q);
        q := q + 1;
      }
    }

    /**
     * One link lane L = laneIdLink[q]: set [L][C] to 1 for every C in L's
     * conflict list, then [L][L] to 1. No other row is written.
     */
    method FillRow(q: nat)
      requires ValidRegistry() && q < |laneIdLink|
      requires laneConflictStatus.Length0 == laneCount && laneConflictStatus.Length1 == laneCount
      requires forall i, j :: 0 <= i < laneCount && 0 <= j < laneCount && i == LinkStart(source) + q ==>
                 laneConflictStatus[i, j] == 0
      modifies laneConflictStatus
      ensures forall i, j :: 0 <= i < laneCount && 0 <= j < laneCount ==>
                laneConflictStatus[i, j] ==
                  if i == LinkStart(source) + q then Cell(source, i, j) else old(laneConflictStatus[i, j])
    {
      LinkLaneRecord(q);
      LinkRow(q);
      var rec := laneInfo[laneIdLink[q]];
      WriteRow(rec.index, rec.conflictingLaneIds);
    }

    /**
     * What the fill of link lane q works with: the lane's record sits at
     * index LinkStart + q, its conflict strings are registered, and its row
     * of `Cell` has 1 exactly on the diagonal and under those strings.
     */
    lemma LinkRow(q: nat)
      requires ValidRegistry() && q < |laneIdLink|
      ensures laneIdLink[q] in laneInfo && |laneIdAll| == laneCount
      ensures 0 <= laneInfo[laneIdLink[q]].index < laneCount
      ensures forall c :: c in laneInfo[laneIdLink[q]].conflictingLaneIds ==>
                c in laneInfo && 0 <= laneInfo[c].index < laneCount && laneIdAll[laneInfo[c].index] == c
      ensures forall j :: 0 <= j < laneCount ==> laneIdAll[j] in laneInfo && laneInfo[laneIdAll[j]].index == j
      ensures forall j :: 0 <= j < laneCount ==>
                Cell(source, laneInfo[laneIdLink[q]].index, j) ==
                  if j == laneInfo[laneIdLink[q]].index || laneIdAll[j] in laneInfo[laneIdLink[q]].conflictingLaneIds
                  then 1 else 0
    {
      RowConflictsRegistered(q);
      IndexesAgree();
      RegistryRowCells(q);
    }

    /** Row of link lane q of `Cell`, read through the registered id strings. */
    lemma RegistryRowCells(q: nat)
      requires ValidRegistry() && q < |laneIdLink|
      ensures laneIdLink[q] in laneInfo && 0 <= laneInfo[laneIdLink[q]].index < laneCount
      ensures forall j :: 0 <= j < laneCount ==>
                Cell(source, laneInfo[laneIdLink[q]].index, j) ==
                  if j == laneInfo[laneIdLink[q]].index || laneIdAll[j] in laneInfo[laneIdLink[q]].conflictingLaneIds
                  then 1 else 0
    {
      LinkLaneRecord(q);
      ListedIds();
      LinkRowCells(source, laneIdAll, q, laneInfo[laneIdLink[q]]);
    }

    /** The registered id list renders every lane's id, in index order. */
    lemma ListedIds()
      requires ValidRegistry()
      ensures |laneIdAll| == laneCount == |Lanes(source)|
      ensures forall j :: 0 <= j < |laneIdAll| ==> laneIdAll[j] == IdString(IdAt(source, j))
    {
    }

    /** Row `row` after the fill: 1 on the diagonal and under each conflict string, 0 elsewhere. */
    method WriteRow(row: int, conflicts: seq<string>)
      requires 0 <= row < laneCount && |laneIdAll| == laneCount
      requires forall j :: 0 <= j < laneCount ==> laneIdAll[j] in laneInfo && laneInfo[laneIdAll[j]].index == j
      requires forall c :: c in conflicts ==>
                 c in laneInfo && 0 <= laneInfo[c].index < laneCount && laneIdAll[laneInfo[c].index] == c
      requires laneConflictStatus.Length0 == laneCount && laneConflictStatus.Length1 == laneCount
      requires forall j :: 0 <= j < laneCount ==> laneConflictStatus[row, j] == 0
      modifies laneConflictStatus
      ensures forall j :: 0 <= j < laneCount ==>
                laneConflictStatus[row, j] == (if j == row || laneIdAll[j] in conflicts then 1 else 0)
      ensures forall i, j :: 0 <= i < laneCount && 0 <= j < laneCount && i != row ==>
                laneConflictStatus[i, j] == old(laneConflictStatus[i, j])
    {
      MarkConflicts(row, conflicts);
      laneConflictStatus[row, row] := 1;
    }

    /** The record of link lane q is the one stored at index LinkStart + q. */
    lemma LinkLaneRecord(q: nat)
      requires ValidRegistry() && q < |laneIdLink|
      ensures laneIdLink[q] in laneInfo
      ensures laneInfo[laneIdLink[q]].index == LinkStart(source) + q
      ensures laneInfo[laneIdLink[q]].conflictingLaneIds == IdStrings(source.linkLanelets[q].conflictLaneletIds)
    {
      var row := LinkStart(source) + q;
      assert Lanes(source)[row] == source.linkLanelets[q];
      assert laneIdLink[q] == laneIdAll[row];
    }

    /**
     * The inner loop of the fill: set [row][C] to 1 for each C of the given
     * conflict strings, every one of which is registered.
     */
    method MarkConflicts(row: int, conflicts: seq<string>)
      requires 0 <= row < laneCount && |laneIdAll| == laneCount
      requires forall j :: 0 <= j < laneCount ==> laneIdAll[j] in laneInfo && laneInfo[laneIdAll[j]].index == j
      requires forall c :: c in conflicts ==>
                 c in laneInfo && 0 <= laneInfo[c].index < laneCount && laneIdAll[laneInfo[c].index] == c
      requires laneConflictStatus.Length0 == laneCount && laneConflictStatus.Length1 == laneCount
      requires forall j :: 0 <= j < laneCount ==> laneConflictStatus[row, j] == 0
      modifies laneConflictStatus
      ensures forall j :: 0 <= j < laneCount ==>
                laneConflictStatus[row, j] == (if laneIdAll[j] in conflicts then 1 else 0)
      ensures forall i, j :: 0 <= i < laneCount && 0 <= j < laneCount && i != row ==>
                laneConflictStatus[i, j] == old(laneConflictStatus[i, j])
    {
      var p := 0;
      while p < |conflicts|
        invariant 0 <= p <= |conflicts|
        invariant forall j :: 0 <= j < laneCount ==>
                    laneConflictStatus[row, j] == (if laneIdAll[j] in conflicts[..p] then 1 else 0)
        invariant forall i, j :: 0 <= i < laneCount && 0 <= j < laneCount && i != row ==>
                    laneConflictStatus[i, j] == old(laneConflictStatus[i, j])
      {
        assert conflicts[p] in conflicts;
        var col := laneInfo[conflicts[p]].index;
        laneConflictStatus[row, col] := 1;
        assert conflicts[..p + 1] == conflicts[..p] + [conflicts[p]];
        p := p + 1;
      }
      assert conflicts[..p] == conflicts;
    }

    /** Every conflict string of link lane q is registered, at the index listing it. */
    lemma RowConflictsRegistered(q: nat)
      requires ValidRegistry() && q < |laneIdLink|
      ensures laneIdLink[q] in laneInfo
      ensures forall c :: c in laneInfo[laneIdLink[q]].conflictingLaneIds ==>
                c in laneInfo && 0 <= laneInfo[c].index < laneCount && laneIdAll[laneInfo[c].index] == c
    {
      LinkLaneRecord(q);
      var conflicts := IdStrings(source.linkLanelets[q].conflictLaneletIds);
      forall c | c in conflicts
        ensures c in laneInfo && 0 <= laneInfo[c].index < laneCount && laneIdAll[laneInfo[c].index] == c
      {
        var p :| 0 <= p < |conflicts| && conflicts[p] == c;
        ConflictRegistered(q, p);
      }
    }

    /** Each listed id is registered under a record carrying its own position. */
    lemma IndexesAgree()
      requires ValidRegistry()
      ensures forall j :: 0 <= j < laneCount ==> laneIdAll[j] in laneInfo && laneInfo[laneIdAll[j]].index == j
    {
    }

    /** The p-th conflict of link lane q is registered, at the index listing it. */
    lemma ConflictRegistered(q: nat, p: nat)
      requires ValidRegistry() && q < |source.linkLanelets|
      requires p < |source.linkLanelets[q].conflictLaneletIds|
      ensures var c := IdString(source.linkLanelets[q].conflictLaneletIds[p]);
              && c in laneInfo
              && 0 <= laneInfo[c].index < laneCount
              && laneIdAll[laneInfo[c].index] == c
    {
      var ints := source.linkLanelets[q].conflictLaneletIds;
      assert ints[p] in ints;
      assert IsLaneId(source, ints[p]);
      var k :| 0 <= k < |Lanes(source)| && IdAt(source, k) == ints[p];
      assert laneIdAll[k] == IdString(ints[p]);
      RegisteredIndex(IdString(ints[p]));
    }

    /**
     * `call()`: on the success signal, build; on the error signal or the
     * timeout, leave everything as it is.
     */
    method Call(outcome: FetchOutcome)
      requires Valid() && laneCount == 0
      requires outcome.Received? ==> WellFormed(outcome.info)
      modifies this
      ensures Valid()
      ensures outcome.Received? ==> source == outcome.info && fresh(laneConflictStatus)
      ensures !outcome.Received? ==> unchanged(this)
    {
      match outcome
      case Received(info) => Build(info);
      case RequestError(_) =>
      case TimedOut =>
    }

    function IntersectionName(): (r: string)
      reads this, laneConflictStatus
      requires Valid()
      ensures r == source.name
    {
      intersectionName
    }

    function IntersectionId(): (r: int)
      reads this, laneConflictStatus
      requires Valid()
      ensures r == source.id
    {
      intersectionId
    }

    /** Number of lanes: entry + exit + link. */
    function LaneCount(): (r: int)
      reads this, laneConflictStatus
      requires Valid()
      ensures r == |Lanes(source)|
      ensures r == |LaneIdEntry()| + |LaneIdExit()| + |LaneIdLink()|
    {
      laneCount
    }

    /** All lane ids in index order: the entry, exit and link lists concatenated. */
    function LaneIdAll(): (r: seq<string>)
      reads this, laneConflictStatus
      requires Valid()
      ensures r == LaneIdEntry() + LaneIdExit() + LaneIdLink()
      ensures forall k :: 0 <= k < |r| ==> r[k] == IdString(Lanes(source)[k].id)
    {
      LaneIdsAppend(source);
      laneIdAll
    }

    function LaneIdEntry(): (r: seq<string>)
      reads this, laneConflictStatus
      requires Valid()
      ensures r == LaneIds(source.entryLanelets)
    {
      laneIdEntry
    }

    function LaneIdExit(): (r: seq<string>)
      reads this, laneConflictStatus
      requires Valid()
      ensures r == LaneIds(source.departureLanelets)
    {
      laneIdExit
    }

    function LaneIdLink(): (r: seq<string>)
      reads this, laneConflictStatus
      requires Valid()
      ensures r == LaneIds(source.linkLanelets)
    {
      laneIdLink
    }

    /** The dense index of a registered lane: its position in `LaneIdAll()`. */
    function LaneIndex(laneId: string): (r: int)
      reads this, laneConflictStatus
      requires Valid() && laneId in laneInfo
      ensures 0 <= r < laneCount && laneIdAll[r] == laneId
    {
      RegisteredIndex(laneId);
      laneInfo[laneId].index
    }

    /** "entry", "exit" or "link", according to the list the lane came from. */
    function LaneType(laneId: string): (r: string)
      reads this, laneConflictStatus
      requires Valid() && laneId in laneInfo
      ensures r == "entry" <==> laneId in laneIdEntry
      ensures r == "exit" <==> laneId in laneIdExit
      ensures r == "link" <==> laneId in laneIdLink
    {
      KindOfIndex(laneId);
      laneInfo[laneId].laneType
    }

    /** The length copied from the source lanelet. */
    function LaneLength(laneId: string): (r: real)
      reads this, laneConflictStatus
      requires Valid() && laneId in laneInfo
      ensures r == Lanes(source)[LaneIndex(laneId)].length
    {
      RegisteredIndex(laneId);
      laneInfo[laneId].length
    }

    /** The source speed limit converted from miles/hour to meters/second. */
    function LaneSpeedLimit(laneId: string): (r: real)
      reads this, laneConflictStatus
      requires Valid() && laneId in laneInfo
      ensures r == MphToMps(Lanes(source)[LaneIndex(laneId)].speedLimit)
    {
      RegisteredIndex(laneId);
      laneInfo[laneId].speedLimit
    }

    /** 1 for a link lane, -1 for an entry or exit lane. */
    function LanePriority(laneId: string): (r: int)
      reads this, laneConflictStatus
      requires Valid() && laneId in laneInfo
      ensures r == if laneId in laneIdLink then 1 else -1
    {
      KindOfIndex(laneId);
      laneInfo[laneId].priority
    }

    /**
     * Reads the matrix cell [index(a)][index(b)]: true exactly when `a` is a
     * link lane and `b` is `a` itself or listed among `a`'s conflicts.
     */
    function HasConflict(laneId1: string, laneId2: string): (r: bool)
      reads this, laneConflictStatus
      requires Valid() && laneId1 in laneInfo && laneId2 in laneInfo
      ensures r <==> laneConflictStatus[LaneIndex(laneId1), LaneIndex(laneId2)] == 1
      ensures r <==> laneId1 in laneIdLink && (laneId1 == laneId2 || laneId2 in laneInfo[laneId1].conflictingLaneIds)
    {
      KindOfIndex(laneId1);
      RegisteredIndex(laneId2);
      LaneIdsDistinct(source);
      var i := laneInfo[laneId1].index;
      var j := laneInfo[laneId2].index;
      InIdStrings(Lanes(source)[j].id, Lanes(source)[i].conflictLaneletIds);
      laneConflictStatus[i, j] == 1
    }

    /** The kind of a registered lane is decided by where its index falls. */
    lemma KindOfIndex(laneId: string)
      requires ValidRegistry() && laneId in laneInfo
      ensures var k := laneInfo[laneId].index;
              && 0 <= k < laneCount
              && (laneId in laneIdEntry <==> k < |source.entryLanelets|)
              && (laneId in laneIdExit <==> |source.entryLanelets| <= k < LinkStart(source))
              && (laneId in laneIdLink <==> LinkStart(source) <= k)
    {
      RegisteredIndex(laneId);
      var k := laneInfo[laneId].index;
      assert laneId == IdString(IdAt(source, k));
      InEntryIds(source, k);
      InExitIds(source, k);
      InLinkIds(source, k);
    }
  }
}
