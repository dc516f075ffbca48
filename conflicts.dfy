/**
 * Symmetry of the conflict matrix. The fill writes only [L][C] for a link
 * lane L and each C in L's own conflict list (and [L][L]); it never writes
 * [C][L]. So the matrix is symmetric exactly when the fetched conflict lists
 * already agree with each other.
 */
module ConflictMatrix {
  import opened Conversions
  import opened Intersection

  /** Every cell of the matrix the fill produces equals its mirror cell. */
  ghost predicate MatrixSymmetric(info: IntersectionInfo) {
    forall i, j :: 0 <= i < |Lanes(info)| && 0 <= j < |Lanes(info)| ==> Cell(info, i, j) == Cell(info, j, i)
  }

  /** Some link lanelet has id `c` and lists link lanelet q among its conflicts. */
  ghost predicate ListsBack(info: IntersectionInfo, q: nat, c: int)
    requires q < |info.linkLanelets|
  {
    exists r :: 0 <= r < |info.linkLanelets| && info.linkLanelets[r].id == c
                && info.linkLanelets[q].id in info.linkLanelets[r].conflictLaneletIds
  }

  /**
   * Mutually consistent conflict lists: whenever link lanelet q lists another
   * lane c, that lane c is itself a link lanelet and lists q back.
   */
  ghost predicate ListsConsistent(info: IntersectionInfo) {
    forall q, c ::
      0 <= q < |info.linkLanelets| && c in info.linkLanelets[q].conflictLaneletIds && c != info.linkLanelets[q].id
      ==> ListsBack(info, q, c)
  }

  /** Distinct ids: the lane carrying the r-th link lanelet's id is lane LinkStart + r. */
  lemma LinkIndexOf(info: IntersectionInfo, r: nat, j: nat)
    requires DistinctIds(info) && r < |info.linkLanelets| && j < |Lanes(info)|
    requires IdAt(info, j) == info.linkLanelets[r].id
    ensures j == LinkStart(info) + r
  {
    LinkLane(info, r);
  }

  /** Two different lanes carry different ids. */
  lemma DistinctLanes(info: IntersectionInfo, a: nat, b: nat)
    requires DistinctIds(info) && a < |Lanes(info)| && b < |Lanes(info)| && a != b
    ensures IdAt(info, a) != IdAt(info, b)
  {
    if b < a { assert IdAt(info, b) != IdAt(info, a); }
  }

  /** Link lanelet r listing link lanelet q puts a 1 in row r, column q. */
  lemma BackEdge(info: IntersectionInfo, q: nat, r: nat)
    requires q < |info.linkLanelets| && r < |info.linkLanelets|
    requires info.linkLanelets[q].id in info.linkLanelets[r].conflictLaneletIds
    ensures LinkStart(info) + r < |Lanes(info)| && LinkStart(info) + q < |Lanes(info)|
    ensures Cell(info, LinkStart(info) + r, LinkStart(info) + q) == 1
  {
    LinkLane(info, q);
    LinkLane(info, r);
  }

  /** A 1 off the diagonal is mirrored when the lists are consistent. */
  lemma MirrorCell(info: IntersectionInfo, i: nat, j: nat)
    requires DistinctIds(info) && ListsConsistent(info)
    requires i < |Lanes(info)| && j < |Lanes(info)| && Cell(info, i, j) == 1
    ensures Cell(info, j, i) == 1
  {
    if i != j {
      var q: nat := i - LinkStart(info);
      LinkLane(info, q);
      var c := IdAt(info, j);
      assert c in info.linkLanelets[q].conflictLaneletIds;
      DistinctLanes(info, i, j);
      assert c != info.linkLanelets[q].id;
      assert ListsBack(info, q, c);
      var r :| 0 <= r < |info.linkLanelets| && info.linkLanelets[r].id == IdAt(info, j)
               && info.linkLanelets[q].id in info.linkLanelets[r].conflictLaneletIds;
      LinkIndexOf(info, r, j);
      BackEdge(info, q, r);
    }
  }

  /** The matrix is symmetric exactly when the conflict lists are mutually consistent. */
  lemma SymmetricIffConsistent(info: IntersectionInfo)
    requires WellFormed(info)
    ensures MatrixSymmetric(info) <==> ListsConsistent(info)
  {
    if ListsConsistent(info) {
      forall i, j | 0 <= i < |Lanes(info)| && 0 <= j < |Lanes(info)|
        ensures Cell(info, i, j) == Cell(info, j, i)
      {
        if Cell(info, i, j) == 1 { MirrorCell(info, i, j); }
        if Cell(info, j, i) == 1 { MirrorCell(info, j, i); }
      }
    }
    if MatrixSymmetric(info) {
      forall q, c | 0 <= q < |info.linkLanelets| && c in info.linkLanelets[q].conflictLaneletIds
                    && c != info.linkLanelets[q].id
        ensures ListsBack(info, q, c)
      {
        LinkLane(info, q);
        var i := LinkStart(info) + q;
        assert IsLaneId(info, c);
        var k :| 0 <= k < |Lanes(info)| && IdAt(info, k) == c;
        assert Cell(info, i, k) == 1;
        assert Cell(info, k, i) == 1;
        var r := k - LinkStart(info);
        LinkLane(info, r);
        assert info.linkLanelets[r].id == c;
      }
    }
  }

  /** With consistent lists, `hasConflict` does not depend on the order of its arguments. */
  lemma HasConflictSymmetric(client: IntersectionClient, a: string, b: string)
    requires client.Valid() && a in client.laneInfo && b in client.laneInfo
    requires ListsConsistent(client.source)
    ensures client.HasConflict(a, b) == client.HasConflict(b, a)
  {
    SymmetricIffConsistent(client.source);
    var i := client.LaneIndex(a);
    var j := client.LaneIndex(b);
    assert client.laneConflictStatus[i, j] == Cell(client.source, i, j);
    assert client.laneConflictStatus[j, i] == Cell(client.source, j, i);
  }

  /**
   * A lane is its own conflict exactly when it is a link lane: the diagonal
   * of every entry and exit lane stays 0.
   */
  lemma DiagonalOnlyLinks(client: IntersectionClient, a: string)
    requires client.Valid() && a in client.laneInfo
    ensures client.HasConflict(a, a) <==> a in client.LaneIdLink()
  {
  }
}
