/**
 * The profile pop-up every screen opens from its toolbar.
 *
 * It shows the signed-in user's display name, their points (from the first
 * `userstats` row carrying their id), a rank computed on its own from all
 * point values, and how many discoveries the user has made.  The rank walk
 * sorts every present point value in descending order and steps through the
 * list with the same `prevPoints`/`rank` rule as the leaderboard, stopping at
 * the first value equal to the user's points.
 */
module Profile {
  import opened Records
  import opened Ranking
  import opened Leaderboard

  function Id(x: int): int {
    x
  }

  function RowPoints(r: StatRow): int {
    r.points.GetOr(0)
  }

  // ---------------------------------------------------------------------------
  // The user's points
  // ---------------------------------------------------------------------------

  /**
   * `currentUserPoints` after the first loop: the points of the first row with
   * the user's id, 0 when that row has none, and 0 when no row has the id.
   */
  function CurrentPointsOf(rows: seq<StatRow>, uid: string): int {
    if rows == [] then 0
    else if rows[0].userid == Some(uid) then RowPoints(rows[0])
    else CurrentPointsOf(rows[1..], uid)
  }

  /** The points are those of the first row with the id, and 0 when no row has it. */
  lemma {:induction false} CurrentPointsFacts(rows: seq<StatRow>, uid: string)
    ensures (forall k :: 0 <= k < |rows| ==> rows[k].userid != Some(uid)) ==> CurrentPointsOf(rows, uid) == 0
    ensures forall k ::
              (&& 0 <= k < |rows| && rows[k].userid == Some(uid)
               && (forall j :: 0 <= j < k ==> rows[j].userid != Some(uid)))
              ==> CurrentPointsOf(rows, uid) == RowPoints(rows[k])
  {
    if rows != [] && rows[0].userid != Some(uid) {
      CurrentPointsFacts(rows[1..], uid);
      assert forall k :: 0 < k < |rows| ==> rows[k] == rows[1..][k - 1];
    }
  }

  /** The first loop of the points listener, leaving at the first matching row. */
  method CurrentUserPoints(rows: seq<StatRow>, uid: string) returns (currentUserPoints: int)
    ensures currentUserPoints == CurrentPointsOf(rows, uid)
  {
    currentUserPoints := 0;
    var i := 0;
    while i < |rows|
      invariant 0 <= i <= |rows|
      invariant forall k :: 0 <= k < i ==> rows[k].userid != Some(uid)
      invariant currentUserPoints == 0
    {
      if rows[i].userid == Some(uid) {
        var points := rows[i].points;
        if points.Some? {
          currentUserPoints := points.value;
        }
        break;
      }
      i := i + 1;
    }
    CurrentPointsFacts(rows, uid);
  }

  // ---------------------------------------------------------------------------
  // The rank walk
  // ---------------------------------------------------------------------------

  /** `allPoints`: every present point value, in snapshot order; rows without points are left out. */
  function PresentPoints(rows: seq<StatRow>): (r: seq<int>)
    ensures |r| <= |rows|
  {
    if rows == [] then []
    else
      var last := rows[|rows| - 1];
      PresentPoints(rows[..|rows| - 1]) + (if last.points.Some? then [last.points.value] else [])
  }

  /** A value is in `allPoints` exactly when some row has it as its points. */
  lemma {:induction false} PresentPointsMembers(rows: seq<StatRow>)
    ensures forall v :: v in PresentPoints(rows) <==> exists k :: 0 <= k < |rows| && rows[k].points == Some(v)
  {
    if rows != [] {
      var init := rows[..|rows| - 1];
      PresentPointsMembers(init);
      forall v ensures v in PresentPoints(rows) <==> exists k :: 0 <= k < |rows| && rows[k].points == Some(v) {
        if exists k :: 0 <= k < |rows| && rows[k].points == Some(v) {
          var k :| 0 <= k < |rows| && rows[k].points == Some(v);
          if k < |rows| - 1 {
            assert init[k] == rows[k];
          }
        }
      }
    }
  }

  /** When every row has points, `allPoints` lists them all, row by row. */
  lemma {:induction false} PresentPointsAll(rows: seq<StatRow>)
    requires forall k :: 0 <= k < |rows| ==> rows[k].points.Some?
    ensures |PresentPoints(rows)| == |rows|
    ensures forall k :: 0 <= k < |rows| ==> PresentPoints(rows)[k] == RowPoints(rows[k])
  {
    if rows != [] {
      PresentPointsAll(rows[..|rows| - 1]);
    }
  }

  /** The collecting loop of the rank computation. */
  method CollectAllPoints(rows: seq<StatRow>) returns (allPoints: seq<int>)
    ensures allPoints == PresentPoints(rows)
  {
    allPoints := [];
    for i := 0 to |rows|
      invariant allPoints == PresentPoints(rows[..i])
    {
      assert rows[..i + 1][..i] == rows[..i];
      var points := rows[i].points;
      if points.Some? {
        allPoints := allPoints + [points.value];
      }
    }
    assert rows[..|rows|] == rows;
  }

  /**
   * The rank the walk reports on a descending list: the competition rank of
   * the user's value when it occurs; 1 on an empty list; otherwise the rank of
   * the last value in the list.
   */
  function WalkRank(ps: seq<int>, p: int): int {
    if p in ps then 1 + CountAbove(ps, Id, p)
    else if ps == [] then 1
    else 1 + CountAbove(ps, Id, ps[|ps| - 1])
  }

  /** The `prevPoints`/`rank` walk over the sorted values, leaving at the first value equal to `p`. */
  method RankWalk(ps: seq<int>, p: int) returns (rank: int)
    requires SortedDesc(ps, Id)
    ensures rank == WalkRank(ps, p)
  {
    rank := 1;
    var prevPoints := -1;
    var i := 0;
    while i < |ps|
      invariant 0 <= i <= |ps|
      invariant forall k :: 0 <= k < i ==> ps[k] != p
      invariant i == 0 ==> rank == 1 && prevPoints == -1
      invariant i > 0 ==> prevPoints == ps[i - 1] && rank == 1 + CountAbove(ps, Id, prevPoints)
    {
      var pts := ps[i];
      if pts != prevPoints {
        GroupStartRank(ps, Id, i);
        rank := i + 1;
        prevPoints := pts;
      } else if i == 0 {
        GroupStartRank(ps, Id, 0);
      }
      if pts == p {
        return;
      }
      i := i + 1;
    }
  }

  /**
   * What the reported rank means on a descending list: with the user's value
   * present it is 1 + the number of strictly greater values; on an empty list
   * it is 1; otherwise it is the 1-based start of the last group of equal values.
   */
  lemma WalkRankFacts(ps: seq<int>, p: int)
    requires SortedDesc(ps, Id)
    ensures p in ps ==> WalkRank(ps, p) == 1 + CountAbove(ps, Id, p)
    ensures ps == [] ==> WalkRank(ps, p) == 1
    ensures p !in ps && ps != [] ==>
              var g := WalkRank(ps, p) - 1;
              && 0 <= g < |ps|
              && (forall k :: g <= k < |ps| ==> ps[k] == ps[|ps| - 1])
              && (g > 0 ==> ps[g - 1] > ps[|ps| - 1])
  {
    if p !in ps && ps != [] {
      var n := |ps| - 1;
      CountAboveIsGroupStart(ps, Id, n);
    }
  }

  /** The rank the pop-up shows. */
  function ProfileRankOf(rows: seq<StatRow>, uid: string): int {
    WalkRank(SortDescBy(PresentPoints(rows), Id), CurrentPointsOf(rows, uid))
  }

  /** The points listener: the user's points, then the sorted values, then the walk. */
  method ComputeRanking(rows: seq<StatRow>, uid: string) returns (currentUserPoints: int, rank: int)
    ensures currentUserPoints == CurrentPointsOf(rows, uid)
    ensures rank == ProfileRankOf(rows, uid)
  {
    currentUserPoints := CurrentUserPoints(rows, uid);
    var allPoints := CollectAllPoints(rows);
    allPoints := SortDescBy(allPoints, Id);
    SortFacts(PresentPoints(rows), Id);
    rank := RankWalk(allPoints, currentUserPoints);
  }

  // ---------------------------------------------------------------------------
  // Discoveries made
  // ---------------------------------------------------------------------------

  /** The number of discovery rows carrying the user's id. */
  function DiscoveryCountOf(rows: seq<DiscoveryRow>, uid: string): (n: nat)
    ensures n <= |rows|
    ensures n == 0 <==> forall k :: 0 <= k < |rows| ==> rows[k].userId != Some(uid)
  {
    if rows == [] then 0
    else
      var n := DiscoveryCountOf(rows[..|rows| - 1], uid);
      assert forall k :: 0 <= k < |rows| - 1 ==> rows[..|rows| - 1][k] == rows[k];
      n + (if rows[|rows| - 1].userId == Some(uid) then 1 else 0)
  }

  /** Appending a discovery row raises the user's count by one exactly when it is theirs. */
  lemma DiscoveryCountAppend(rows: seq<DiscoveryRow>, d: DiscoveryRow, uid: string)
    ensures DiscoveryCountOf(rows + [d], uid) == DiscoveryCountOf(rows, uid) + (if d.userId == Some(uid) then 1 else 0)
  {
    assert (rows + [d])[..|rows|] == rows;
  }

  /** The counting loop of the discoveries listener. */
  method CountTreasuresDiscovered(rows: seq<DiscoveryRow>, uid: string) returns (totalTreasures: nat)
    ensures totalTreasures == DiscoveryCountOf(rows, uid)
  {
    totalTreasures := 0;
    for i := 0 to |rows|
      invariant totalTreasures == DiscoveryCountOf(rows[..i], uid)
    {
      assert rows[..i + 1][..i] == rows[..i];
      if rows[i].userId == Some(uid) {
        totalTreasures := totalTreasures + 1;
      }
    }
    assert rows[..|rows|] == rows;
  }

  // ---------------------------------------------------------------------------
  // The pop-up
  // ---------------------------------------------------------------------------

  /** What the pop-up shows once its three listeners have completed. */
  datatype ProfileView = ProfileView(name: string, points: int, rank: int, treasuresDiscovered: nat)

  method ShowProfilePopup(users: map<string, UserProfile>, stats: seq<StatRow>, discoveries: seq<DiscoveryRow>, uid: string)
    returns (view: ProfileView)
    ensures view.name == DisplayName(ProfileOf(users, uid).firstname, ProfileOf(users, uid).lastname)
    ensures view.points == CurrentPointsOf(stats, uid)
    ensures view.rank == ProfileRankOf(stats, uid)
    ensures view.treasuresDiscovered == DiscoveryCountOf(discoveries, uid)
  {
    var profile := ProfileOf(users, uid);
    var name := DisplayName(profile.firstname, profile.lastname);
    var points, rank := ComputeRanking(stats, uid);
    var treasures := CountTreasuresDiscovered(discoveries, uid);
    view := ProfileView(name, points, rank, treasures);
  }

  // ---------------------------------------------------------------------------
  // Agreement with the leaderboard
  // ---------------------------------------------------------------------------

  /** Every row has an id and points. */
  predicate CompleteRows(rows: seq<StatRow>) {
    forall k :: 0 <= k < |rows| ==> rows[k].userid.Some? && rows[k].points.Some?
  }

  /** No two rows carry the same id. */
  predicate DistinctUsers(rows: seq<StatRow>) {
    forall i, j :: 0 <= i < j < |rows| ==> rows[i].userid != rows[j].userid
  }

  /** On complete rows with distinct ids, `tempList` is the reversed rows, one entry each. */
  lemma TempListOfDistinct(rows: seq<StatRow>, users: map<string, UserProfile>)
    requires CompleteRows(rows) && DistinctUsers(rows)
    ensures |TempList(rows, users)| == |rows|
    ensures forall k :: 0 <= k < |rows| ==> TempList(rows, users)[k].points == RowPoints(Reverse(rows)[k])
    ensures UniqueIds(TempList(rows, users))
  {
    var n := |rows|;
    var ids := CollectedIds(rows);
    var temp := TempList(rows, users);
    CollectedIdsAllPresent(rows);
    forall k | 0 <= k < n
      ensures temp[k].userId == rows[n - 1 - k].userid.value
      ensures temp[k].points == RowPoints(Reverse(rows)[k])
    {
      var m := n - 1 - k;
      assert Reverse(ids)[k] == ids[m];
      PointsMapIsLastRead(rows, ids[m], m);
    }
  }

  /**
   * On complete rows with distinct ids, the rank on a user's leaderboard entry
   * is 1 + the number of rows with strictly more points than the user's row.
   */
  lemma LeaderboardRankIsCountAbove(rows: seq<StatRow>, users: map<string, UserProfile>, uid: string, m: nat)
    requires CompleteRows(rows) && DistinctUsers(rows)
    requires m < |rows| && rows[m].userid == Some(uid)
    ensures CurrentUserEntry(LeaderboardOf(rows, users), uid).Some?
    ensures CurrentUserEntry(LeaderboardOf(rows, users), uid).value.rank == 1 + CountAbove(rows, RowPoints, RowPoints(rows[m]))
  {
    var temp := TempList(rows, users);
    var t := LeaderboardOf(rows, users);
    var v := RowPoints(rows[m]);
    PointsMapIsLastRead(rows, uid, m);
    LeaderboardIds(rows, users);
    assert uid in IdSet(t);
    var i :| 0 <= i < |t| && t[i].userId == uid;
    LeaderboardEntryValues(rows, users, i);
    HighlightIsCurrentUserEntry(t, uid);
    TempListOfDistinct(rows, users);
    DedupOfUnique(temp);
    AssignRanksIsCompetitionRanking(temp);
    CountAboveSameKeys(temp, ItemPoints, Reverse(rows), RowPoints, v);
    ReverseMultiset(rows);
    CountAbovePerm(Reverse(rows), rows, RowPoints, v);
  }

  /**
   * When every row has points, the pop-up's rank is 1 + the number of rows
   * with strictly more points than the user's first row.
   */
  lemma ProfileRankIsCountAbove(rows: seq<StatRow>, uid: string, k: nat)
    requires forall j :: 0 <= j < |rows| ==> rows[j].points.Some?
    requires k < |rows| && rows[k].userid == Some(uid)
    requires forall j :: 0 <= j < k ==> rows[j].userid != Some(uid)
    ensures ProfileRankOf(rows, uid) == 1 + CountAbove(rows, RowPoints, RowPoints(rows[k]))
  {
    var v := RowPoints(rows[k]);
    assert CurrentPointsOf(rows, uid) == v by {
      CurrentPointsFacts(rows, uid);
    }
    var ps := PresentPoints(rows);
    assert |ps| == |rows| && (forall j :: 0 <= j < |rows| ==> ps[j] == RowPoints(rows[j])) by {
      PresentPointsAll(rows);
    }
    var sorted := SortDescBy(ps, Id);
    assert multiset(sorted) == multiset(ps) by {
      SortPerm(ps, Id);
    }
    assert v in sorted by {
      assert ps[k] == v;
      assert v in multiset(ps);
    }
    assert ProfileRankOf(rows, uid) == 1 + CountAbove(sorted, Id, v);
    assert CountAbove(sorted, Id, v) == CountAbove(ps, Id, v) by {
      CountAbovePerm(sorted, ps, Id, v);
    }
    CountAboveSameKeys(rows, RowPoints, ps, Id, v);
  }

  /**
   * When the leaderboard's snapshot and the pop-up's snapshot hold the same
   * rows (in any order), every row has an id and points and no user has two
   * rows, the rank on the signed-in user's leaderboard entry equals the rank
   * the pop-up shows.
   */
  lemma ProfileRankAgreesWithLeaderboard(
    leaderRows: seq<StatRow>, profileRows: seq<StatRow>, users: map<string, UserProfile>, uid: string)
    requires multiset(leaderRows) == multiset(profileRows)
    requires CompleteRows(leaderRows) && DistinctUsers(leaderRows)
    requires CompleteRows(profileRows) && DistinctUsers(profileRows)
    requires exists k :: 0 <= k < |profileRows| && profileRows[k].userid == Some(uid)
    ensures CurrentUserEntry(LeaderboardOf(leaderRows, users), uid).Some?
    ensures CurrentUserEntry(LeaderboardOf(leaderRows, users), uid).value.rank == ProfileRankOf(profileRows, uid)
  {
    var k :| 0 <= k < |profileRows| && profileRows[k].userid == Some(uid);
    var v := RowPoints(profileRows[k]);
    assert profileRows[k] in multiset(leaderRows);
    var m :| 0 <= m < |leaderRows| && leaderRows[m] == profileRows[k];
    LeaderboardRankIsCountAbove(leaderRows, users, uid, m);
    ProfileRankIsCountAbove(profileRows, uid, k);
    CountAbovePerm(leaderRows, profileRows, RowPoints, v);
  }

  /**
   * Why the agreement above asks every row to carry an id: a row without one
   * is skipped by the leaderboard but its points still count in the pop-up's
   * walk, so a user behind such a row ranks 1 on the leaderboard and 2 in the
   * pop-up.
   */
  lemma IdlessRowSplitsTheRanks(u: string, users: map<string, UserProfile>)
    ensures var rows := [StatRow(None, Some(100)), StatRow(Some(u), Some(50))];
      && DistinctUsers(rows) && !CompleteRows(rows)
      && ProfileRankOf(rows, u) == 2
      && CurrentUserEntry(LeaderboardOf(rows, users), u).Some?
      && CurrentUserEntry(LeaderboardOf(rows, users), u).value.rank == 1
  {
    IdlessRowProfileRank(u);
    IdlessRowLeaderboardRank(u, users);
  }

  /** The pop-up walks over both rows' points, 100 and 50, and puts the user second. */
  lemma IdlessRowProfileRank(u: string)
    ensures ProfileRankOf([StatRow(None, Some(100)), StatRow(Some(u), Some(50))], u) == 2
  {
    var r0, r1 := StatRow(None, Some(100)), StatRow(Some(u), Some(50));
    var rows := [r0, r1];
    assert rows[..1] == [r0] && [r0][..0] == [];
    assert PresentPoints(rows) == [100, 50];
    assert SortDescBy([50], Id) == [50];
    assert SortDescBy([100, 50], Id) == [100, 50];
    assert CurrentPointsOf(rows, u) == 50 by {
      assert rows[1..] == [r1];
    }
    assert CountAbove([100, 50], Id, 50) == 1 by {
      assert [100, 50][1..] == [50];
    }
  }

  /** The leaderboard skips the row without an id, so the user's entry is alone and ranks first. */
  lemma IdlessRowLeaderboardRank(u: string, users: map<string, UserProfile>)
    ensures CurrentUserEntry(LeaderboardOf([StatRow(None, Some(100)), StatRow(Some(u), Some(50))], users), u).Some?
    ensures CurrentUserEntry(LeaderboardOf([StatRow(None, Some(100)), StatRow(Some(u), Some(50))], users), u).value.rank == 1
  {
    var rows := [StatRow(None, Some(100)), StatRow(Some(u), Some(50))];
    var x := ItemFor(u, 50, users);
    IdlessRowTempList(u, users);
    SingleEntryRanksFirst(x);
    assert LeaderboardOf(rows, users) == [x.(rank := 1)];
  }

  lemma IdlessRowTempList(u: string, users: map<string, UserProfile>)
    ensures TempList([StatRow(None, Some(100)), StatRow(Some(u), Some(50))], users) == [ItemFor(u, 50, users)]
  {
    var r0, r1 := StatRow(None, Some(100)), StatRow(Some(u), Some(50));
    var rows := [r0, r1];
    assert rows[..1] == [r0] && [r0][..0] == [];
    assert Last(rows) == r1 && Last([r0]) == r0;
    assert CollectedIds([r0]) == [];
    assert CollectedIds(rows) == [u];
    assert PointsMap([r0]) == map[];
    assert PointsMap(rows) == map[u := 50];
    assert Reverse([u]) == [u];
  }

  /** A one-entry list is its own leaderboard, ranked 1. */
  lemma SingleEntryRanksFirst(x: LeaderboardItem)
    ensures Ranked(SortDescBy(Dedup([x]), ItemPoints)) == [x.(rank := 1)]
  {
    assert Dedup([x]) == [x] by {
      assert [x][..0] == [];
    }
    assert SortDescBy([x], ItemPoints) == [x];
    assert CountAbove([x], ItemPoints, x.points) == 0 by {
      assert [x][1..] == [];
    }
  }
}
