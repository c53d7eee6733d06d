/**
 * The leaderboard screen.
 *
 * From a `userstats` snapshot it collects the user ids (rows without an id are
 * skipped) and a map from id to points (a missing value reads as 0; a later
 * row for the same id overwrites an earlier one), reverses the id list, makes
 * one entry per id with the user's display name, drops repeated ids keeping
 * the first, and finally sorts the shared list by descending points and walks
 * it once to write standard competition ranks.
 */
module Leaderboard {
  import opened Records
  import opened Ranking
  import opened LeaderboardAdapters

  function ItemPoints(item: LeaderboardItem): int {
    item.points
  }

  function Last<T>(s: seq<T>): T
    requires s != []
  {
    s[|s| - 1]
  }

  // ---------------------------------------------------------------------------
  // Reading the userstats snapshot
  // ---------------------------------------------------------------------------

  /** The ids in snapshot order, one per row that has an id. */
  function CollectedIds(rows: seq<StatRow>): seq<string> {
    if rows == [] then []
    else CollectedIds(rows[..|rows| - 1]) + (if Last(rows).userid.Some? then [Last(rows).userid.value] else [])
  }

  /** `pointsMap` after the loop: every `put` overwrites, and a missing value is 0. */
  function PointsMap(rows: seq<StatRow>): map<string, int> {
    if rows == [] then map[]
    else
      var m := PointsMap(rows[..|rows| - 1]);
      if Last(rows).userid.Some? then m[Last(rows).userid.value := Last(rows).points.GetOr(0)] else m
  }

  /** An id is collected, and has points, exactly when some row carries it. */
  lemma {:induction false} CollectedIdsMembers(rows: seq<StatRow>)
    ensures forall id :: id in CollectedIds(rows) <==> exists k :: 0 <= k < |rows| && rows[k].userid == Some(id)
    ensures forall id :: id in PointsMap(rows) <==> id in CollectedIds(rows)
  {
    if rows != [] {
      var init := rows[..|rows| - 1];
      CollectedIdsMembers(init);
      forall id ensures id in CollectedIds(rows) <==> exists k :: 0 <= k < |rows| && rows[k].userid == Some(id) {
        if id in CollectedIds(rows) && id !in CollectedIds(init) {
          assert rows[|rows| - 1].userid == Some(id);
        }
        if exists k :: 0 <= k < |rows| && rows[k].userid == Some(id) {
          var k :| 0 <= k < |rows| && rows[k].userid == Some(id);
          if k < |rows| - 1 {
            assert init[k] == rows[k];
          }
        }
      }
    }
  }

  /**
   * The points recorded for an id are those of the LAST row carrying it,
   * and 0 when that row has no points.
   */
  lemma {:induction false} PointsMapIsLastRead(rows: seq<StatRow>, id: string, k: nat)
    requires k < |rows| && rows[k].userid == Some(id)
    requires forall j :: k < j < |rows| ==> rows[j].userid != Some(id)
    ensures id in PointsMap(rows) && PointsMap(rows)[id] == rows[k].points.GetOr(0)
  {
    if k < |rows| - 1 {
      var init := rows[..|rows| - 1];
      assert init[k] == rows[k];
      PointsMapIsLastRead(init, id, k);
    }
  }

  /** With an id on every row, the collected ids are the rows' ids in order. */
  lemma {:induction false} CollectedIdsAllPresent(rows: seq<StatRow>)
    requires forall k :: 0 <= k < |rows| ==> rows[k].userid.Some?
    ensures |CollectedIds(rows)| == |rows|
    ensures forall k :: 0 <= k < |rows| ==> CollectedIds(rows)[k] == rows[k].userid.value
  {
    if rows != [] {
      var init := rows[..|rows| - 1];
      CollectedIdsAllPresent(init);
    }
  }

  /** The collecting loop of the snapshot listener. */
  method CollectStats(rows: seq<StatRow>) returns (userIds: seq<string>, pointsMap: map<string, int>)
    ensures userIds == CollectedIds(rows)
    ensures pointsMap == PointsMap(rows)
  {
    userIds := [];
    pointsMap := map[];
    for i := 0 to |rows|
      invariant userIds == CollectedIds(rows[..i])
      invariant pointsMap == PointsMap(rows[..i])
    {
      assert rows[..i + 1][..i] == rows[..i];
      var child := rows[i];
      var points := child.points.GetOr(0);
      if child.userid.Some? {
        userIds := userIds + [child.userid.value];
        pointsMap := pointsMap[child.userid.value := points];
      }
    }
    assert rows[..|rows|] == rows;
  }

  /** `Collections.reverse`. */
  function Reverse<T>(s: seq<T>): (r: seq<T>)
    ensures |r| == |s|
    ensures forall i :: 0 <= i < |s| ==> r[i] == s[|s| - 1 - i]
  {
    if s == [] then [] else Reverse(s[1..]) + [s[0]]
  }

  lemma {:induction false} ReverseMultiset<T>(s: seq<T>)
    ensures multiset(Reverse(s)) == multiset(s)
  {
    if s != [] {
      ReverseMultiset(s[1..]);
      assert s == [s[0]] + s[1..];
    }
  }

  // ---------------------------------------------------------------------------
  // Building the entries
  // ---------------------------------------------------------------------------

  /** The entry made for one id before ranking (rank -1). */
  function ItemFor(id: string, points: int, users: map<string, UserProfile>): LeaderboardItem {
    var p := ProfileOf(users, id);
    LeaderboardItem(id, DisplayName(p.firstname, p.lastname), points, -1, p.profileImageUrl)
  }

  function ItemsFor(ids: seq<string>, pointsMap: map<string, int>, users: map<string, UserProfile>): seq<LeaderboardItem>
    requires forall i :: 0 <= i < |ids| ==> ids[i] in pointsMap
  {
    seq(|ids|, i requires 0 <= i < |ids| => ItemFor(ids[i], pointsMap[ids[i]], users))
  }

  /** The loop over the reversed ids that fills `tempList`. */
  method BuildItems(ids: seq<string>, pointsMap: map<string, int>, users: map<string, UserProfile>)
    returns (tempList: seq<LeaderboardItem>)
    requires forall i :: 0 <= i < |ids| ==> ids[i] in pointsMap
    ensures |tempList| == |ids|
    ensures forall i :: 0 <= i < |ids| ==>
              && tempList[i].userId == ids[i]
              && tempList[i].points == pointsMap[ids[i]]
              && tempList[i].rank == -1
              && tempList[i] == ItemFor(ids[i], pointsMap[ids[i]], users)
  {
    tempList := [];
    for i := 0 to |ids|
      invariant |tempList| == i
      invariant forall k :: 0 <= k < i ==> tempList[k] == ItemFor(ids[k], pointsMap[ids[k]], users)
    {
      var userId := ids[i];
      var profile := ProfileOf(users, userId);
      var fullName := DisplayName(profile.firstname, profile.lastname);
      var points := pointsMap[userId];
      tempList := tempList + [LeaderboardItem(userId, fullName, points, -1, profile.profileImageUrl)];
    }
  }

  // ---------------------------------------------------------------------------
  // Removing repeated ids
  // ---------------------------------------------------------------------------

  function IdSet(s: seq<LeaderboardItem>): set<string> {
    set i | 0 <= i < |s| :: s[i].userId
  }

  predicate UniqueIds(s: seq<LeaderboardItem>) {
    forall i, j :: 0 <= i < j < |s| ==> s[i].userId != s[j].userId
  }

  lemma IdSetSnoc(s: seq<LeaderboardItem>, x: LeaderboardItem)
    ensures IdSet(s + [x]) == IdSet(s) + {x.userId}
  {
    var t := s + [x];
    assert t[|s|].userId == x.userId;
    forall id | id in IdSet(s) ensures id in IdSet(t) {
      var i :| 0 <= i < |s| && s[i].userId == id;
      assert t[i] == s[i];
    }
  }

  /** `removeIf(item -> !seen.add(item.userId))`: keep an entry only if its id was not seen before. */
  function Dedup(s: seq<LeaderboardItem>): seq<LeaderboardItem> {
    if s == [] then []
    else
      var d := Dedup(s[..|s| - 1]);
      if Last(s).userId in IdSet(d) then d else d + [Last(s)]
  }

  /** The index of the first entry of s with the given id. */
  function FirstIndexOf(s: seq<LeaderboardItem>, id: string): (k: nat)
    requires id in IdSet(s)
    ensures k < |s| && s[k].userId == id
    ensures forall j :: 0 <= j < k ==> s[j].userId != id
  {
    if s[0].userId == id then 0
    else
      assert id in IdSet(s[1..]) by {
        var i :| 0 <= i < |s| && s[i].userId == id;
        assert s[1..][i - 1] == s[i];
      }
      1 + FirstIndexOf(s[1..], id)
  }

  lemma FirstIndexSnoc(p: seq<LeaderboardItem>, x: LeaderboardItem, id: string)
    requires id in IdSet(p)
    ensures id in IdSet(p + [x]) && FirstIndexOf(p + [x], id) == FirstIndexOf(p, id)
  {
    IdSetSnoc(p, x);
    var a := FirstIndexOf(p + [x], id);
    var b := FirstIndexOf(p, id);
    assert (p + [x])[b] == p[b];
  }

  lemma FirstIndexSnocNew(p: seq<LeaderboardItem>, x: LeaderboardItem)
    requires x.userId !in IdSet(p)
    ensures x.userId in IdSet(p + [x]) && FirstIndexOf(p + [x], x.userId) == |p|
  {
    IdSetSnoc(p, x);
  }

  /** After removing repeats each id occurs once and no id is lost. */
  lemma {:induction false} DedupKeepsIds(s: seq<LeaderboardItem>)
    ensures UniqueIds(Dedup(s))
    ensures IdSet(Dedup(s)) == IdSet(s)
  {
    if s != [] {
      var p := s[..|s| - 1];
      var x := Last(s);
      assert s == p + [x];
      DedupKeepsIds(p);
      var d := Dedup(p);
      IdSetSnoc(p, x);
      if x.userId !in IdSet(d) {
        assert Dedup(s) == d + [x];
        IdSetSnoc(d, x);
        forall i, j | 0 <= i < j < |d| + 1 ensures (d + [x])[i].userId != (d + [x])[j].userId {
          if j == |d| {
            assert d[i].userId in IdSet(d);
          }
        }
      }
    }
  }

  /** Every kept entry is the first entry of s with its id. */
  lemma {:induction false} DedupKeepsFirst(s: seq<LeaderboardItem>)
    ensures forall i :: 0 <= i < |Dedup(s)| ==>
              Dedup(s)[i].userId in IdSet(s) && Dedup(s)[i] == s[FirstIndexOf(s, Dedup(s)[i].userId)]
  {
    if s != [] {
      var p := s[..|s| - 1];
      var x := Last(s);
      assert s == p + [x];
      DedupKeepsFirst(p);
      DedupKeepsIds(p);
      var d := Dedup(p);
      IdSetSnoc(p, x);
      forall i | 0 <= i < |d| ensures d[i].userId in IdSet(s) && d[i] == s[FirstIndexOf(s, d[i].userId)] {
        var id := d[i].userId;
        assert id in IdSet(d);
        FirstIndexSnoc(p, x, id);
        assert s[FirstIndexOf(p, id)] == p[FirstIndexOf(p, id)];
      }
      if x.userId !in IdSet(d) {
        assert Dedup(s) == d + [x];
        FirstIndexSnocNew(p, x);
        assert s[|p|] == x;
      }
    }
  }

  /** The kept entries appear in the order of their ids' first occurrences in s. */
  lemma {:induction false} DedupKeepsOrder(s: seq<LeaderboardItem>)
    ensures forall i, j :: 0 <= i < j < |Dedup(s)| ==>
              Dedup(s)[i].userId in IdSet(s) && Dedup(s)[j].userId in IdSet(s) &&
              FirstIndexOf(s, Dedup(s)[i].userId) < FirstIndexOf(s, Dedup(s)[j].userId)
  {
    if s != [] {
      var p := s[..|s| - 1];
      var x := Last(s);
      assert s == p + [x];
      DedupKeepsOrder(p);
      DedupKeepsIds(p);
      var d := Dedup(p);
      IdSetSnoc(p, x);
      forall i | 0 <= i < |d| ensures d[i].userId in IdSet(p) && FirstIndexOf(s, d[i].userId) == FirstIndexOf(p, d[i].userId) < |p| {
        assert d[i].userId in IdSet(d);
        FirstIndexSnoc(p, x, d[i].userId);
      }
      var r := Dedup(s);
      if x.userId !in IdSet(d) {
        assert r == d + [x];
        FirstIndexSnocNew(p, x);
      } else {
        assert r == d;
      }
      forall i, j | 0 <= i < j < |r|
        ensures r[i].userId in IdSet(s) && r[j].userId in IdSet(s) && FirstIndexOf(s, r[i].userId) < FirstIndexOf(s, r[j].userId)
      {
        assert r[i] == d[i];
        if j < |d| {
          assert r[j] == d[j];
        } else {
          assert r[j] == x && FirstIndexOf(s, x.userId) == |p|;
        }
      }
    } else {
      assert Dedup(s) == [];
    }
  }

  /**
   * After removing repeats each id occurs once, no id is lost, every kept
   * entry is the first entry with its id, and the kept entries keep their order.
   */
  lemma DedupFacts(s: seq<LeaderboardItem>)
    ensures UniqueIds(Dedup(s))
    ensures IdSet(Dedup(s)) == IdSet(s)
    ensures forall i :: 0 <= i < |Dedup(s)| ==>
              Dedup(s)[i].userId in IdSet(s) && Dedup(s)[i] == s[FirstIndexOf(s, Dedup(s)[i].userId)]
    ensures forall i, j :: 0 <= i < j < |Dedup(s)| ==>
              Dedup(s)[i].userId in IdSet(s) && Dedup(s)[j].userId in IdSet(s) &&
              FirstIndexOf(s, Dedup(s)[i].userId) < FirstIndexOf(s, Dedup(s)[j].userId)
  {
    DedupKeepsIds(s);
    DedupKeepsFirst(s);
    DedupKeepsOrder(s);
  }

  /** Removing repeats changes nothing when every id already occurs once. */
  lemma {:induction false} DedupOfUnique(s: seq<LeaderboardItem>)
    requires UniqueIds(s)
    ensures Dedup(s) == s
  {
    if s != [] {
      var p := s[..|s| - 1];
      assert s == p + [Last(s)];
      DedupOfUnique(p);
    }
  }

  /** The de-duplicating loop with its `seen` set. */
  method RemoveDuplicates(items: seq<LeaderboardItem>) returns (kept: seq<LeaderboardItem>)
    ensures kept == Dedup(items)
  {
    kept := [];
    var seen: set<string> := {};
    for i := 0 to |items|
      invariant kept == Dedup(items[..i])
      invariant seen == IdSet(kept)
    {
      assert items[..i + 1][..i] == items[..i];
      var item := items[i];
      if item.userId !in seen {
        IdSetSnoc(kept, item);
        seen := seen + {item.userId};
        kept := kept + [item];
      }
    }
    assert items[..|items|] == items;
  }

  // ---------------------------------------------------------------------------
  // Ranking the shared list
  // ---------------------------------------------------------------------------

  /** The list with every entry's rank set to its competition rank within the list. */
  function Ranked(s: seq<LeaderboardItem>): seq<LeaderboardItem> {
    seq(|s|, i requires 0 <= i < |s| => s[i].(rank := CompetitionRank(s, ItemPoints, i)))
  }

  /** The list with the rank field erased (set to the -1 that new entries carry). */
  function Unranked(s: seq<LeaderboardItem>): seq<LeaderboardItem> {
    if s == [] then [] else [s[0].(rank := -1)] + Unranked(s[1..])
  }

  lemma {:induction false} UnrankedConcat(a: seq<LeaderboardItem>, b: seq<LeaderboardItem>)
    ensures Unranked(a + b) == Unranked(a) + Unranked(b)
  {
    if a == [] {
      assert a + b == b;
    } else {
      assert (a + b)[1..] == a[1..] + b;
      UnrankedConcat(a[1..], b);
    }
  }

  /** Two lists that differ only in rank fields erase to the same list. */
  lemma {:induction false} UnrankedIgnoresRank(a: seq<LeaderboardItem>, b: seq<LeaderboardItem>)
    requires |a| == |b|
    requires forall i :: 0 <= i < |a| ==> a[i].(rank := -1) == b[i].(rank := -1)
    ensures Unranked(a) == Unranked(b)
  {
    if a != [] {
      forall i | 0 <= i < |a| - 1 ensures a[1..][i].(rank := -1) == b[1..][i].(rank := -1) {
        assert a[1..][i] == a[i + 1] && b[1..][i] == b[i + 1];
      }
      UnrankedIgnoresRank(a[1..], b[1..]);
    }
  }

  /** Inserting adds exactly x, rank erased, to the erased entries. */
  lemma {:induction false} UnrankedInsert(x: LeaderboardItem, s: seq<LeaderboardItem>)
    ensures multiset(Unranked(Insert(x, s, ItemPoints))) == multiset(Unranked(s)) + multiset{x.(rank := -1)}
  {
    if s == [] || x.points >= s[0].points {
      assert ([x] + s)[1..] == s;
    } else {
      var rest := Insert(x, s[1..], ItemPoints);
      assert Insert(x, s, ItemPoints) == [s[0]] + rest;
      assert ([s[0]] + rest)[1..] == rest;
      UnrankedInsert(x, s[1..]);
    }
  }

  /** Sorting keeps the entries with ranks erased, as a multiset. */
  lemma {:induction false} UnrankedSort(s: seq<LeaderboardItem>)
    ensures multiset(Unranked(SortDescBy(s, ItemPoints))) == multiset(Unranked(s))
  {
    if s != [] {
      UnrankedSort(s[1..]);
      UnrankedInsert(s[0], SortDescBy(s[1..], ItemPoints));
    }
  }

  lemma {:induction false} WithKeyUnranked(s: seq<LeaderboardItem>, p: int)
    ensures WithKey(Unranked(s), ItemPoints, p) == Unranked(WithKey(s, ItemPoints, p))
  {
    if s != [] {
      assert Unranked(s) == Unranked([s[0]]) + Unranked(s[1..]) by {
        UnrankedConcat([s[0]], s[1..]);
        assert s == [s[0]] + s[1..];
      }
      assert Unranked(s)[1..] == Unranked(s[1..]);
      WithKeyUnranked(s[1..], p);
      UnrankedConcat(if s[0].points == p then [s[0]] else [], WithKey(s[1..], ItemPoints, p));
    }
  }

  /** Sorting, then ranking, orders the entries and only changes their rank fields. */
  lemma AssignRanksKeepsEntries(s: seq<LeaderboardItem>)
    ensures |Ranked(SortDescBy(s, ItemPoints))| == |s|
    ensures SortedDesc(Ranked(SortDescBy(s, ItemPoints)), ItemPoints)
    ensures multiset(Unranked(Ranked(SortDescBy(s, ItemPoints)))) == multiset(Unranked(s))
  {
    var sorted := SortDescBy(s, ItemPoints);
    SortFacts(s, ItemPoints);
    UnrankedIgnoresRank(Ranked(sorted), sorted);
    UnrankedSort(s);
  }

  /** Ranking an ordered list starts at 1, never decreases, stays at most i + 1 and gives ties one rank. */
  lemma RankedShape(sorted: seq<LeaderboardItem>)
    requires SortedDesc(sorted, ItemPoints)
    ensures var t := Ranked(sorted);
      && (t != [] ==> t[0].rank == 1)
      && (forall i, j :: 0 <= i < j < |t| ==> t[i].rank <= t[j].rank)
      && (forall i :: 0 <= i < |t| ==> t[i].rank <= i + 1)
      && (forall i, j :: 0 <= i < |t| && 0 <= j < |t| && t[i].points == t[j].points ==> t[i].rank == t[j].rank)
  {
    CompetitionRankFacts(sorted, ItemPoints);
  }

  /**
   * Every rank written is the competition rank: 1 + the number of entries
   * (of the list before or after sorting) with strictly more points.  Hence
   * the first entry has rank 1, ranks never decrease, the entry at index i has
   * rank at most i + 1 and equal points share a rank.
   */
  lemma AssignRanksIsCompetitionRanking(s: seq<LeaderboardItem>)
    ensures var t := Ranked(SortDescBy(s, ItemPoints));
      && (forall i :: 0 <= i < |t| ==> t[i].rank == 1 + CountAbove(s, ItemPoints, t[i].points))
      && (forall i :: 0 <= i < |t| ==> t[i].rank == 1 + CountAbove(t, ItemPoints, t[i].points))
      && (t != [] ==> t[0].rank == 1)
      && (forall i, j :: 0 <= i < j < |t| ==> t[i].rank <= t[j].rank)
      && (forall i :: 0 <= i < |t| ==> t[i].rank <= i + 1)
      && (forall i, j :: 0 <= i < |t| && 0 <= j < |t| && t[i].points == t[j].points ==> t[i].rank == t[j].rank)
  {
    var sorted := SortDescBy(s, ItemPoints);
    var t := Ranked(sorted);
    assert SortedDesc(sorted, ItemPoints) && multiset(sorted) == multiset(s) by {
      SortFacts(s, ItemPoints);
    }
    assert forall i :: 0 <= i < |t| ==> t[i].points == sorted[i].points;
    assert forall i :: 0 <= i < |t| ==> t[i].rank == CompetitionRank(sorted, ItemPoints, i);
    forall i | 0 <= i < |t|
      ensures t[i].rank == 1 + CountAbove(s, ItemPoints, t[i].points)
      ensures t[i].rank == 1 + CountAbove(t, ItemPoints, t[i].points)
    {
      var p := t[i].points;
      CountAboveSameKeys(t, ItemPoints, sorted, ItemPoints, p);
      CountAbovePerm(sorted, s, ItemPoints, p);
    }
    RankedShape(sorted);
  }

  /** Tied entries keep the relative order they had before sorting. */
  lemma AssignRanksIsStable(s: seq<LeaderboardItem>, p: int)
    ensures Unranked(WithKey(Ranked(SortDescBy(s, ItemPoints)), ItemPoints, p)) == Unranked(WithKey(s, ItemPoints, p))
  {
    var sorted := SortDescBy(s, ItemPoints);
    WithKeyUnranked(Ranked(sorted), p);
    UnrankedIgnoresRank(Ranked(sorted), sorted);
    WithKeyUnranked(sorted, p);
    SortStable(s, ItemPoints, p);
  }

  lemma IdSetCons(x: LeaderboardItem, s: seq<LeaderboardItem>)
    ensures IdSet([x] + s) == {x.userId} + IdSet(s)
  {
    var t := [x] + s;
    assert t[0] == x;
    forall id | id in IdSet(t) ensures id in {x.userId} + IdSet(s) {
      var i :| 0 <= i < |t| && t[i].userId == id;
      if i > 0 {
        assert t[i] == s[i - 1];
      }
    }
    forall id | id in IdSet(s) ensures id in IdSet(t) {
      var i :| 0 <= i < |s| && s[i].userId == id;
      assert t[i + 1] == s[i];
    }
  }

  lemma UniqueCons(x: LeaderboardItem, s: seq<LeaderboardItem>)
    ensures UniqueIds([x] + s) <==> UniqueIds(s) && x.userId !in IdSet(s)
  {
    var t := [x] + s;
    assert t[0] == x;
    if UniqueIds(t) {
      forall i, j | 0 <= i < j < |s| ensures s[i].userId != s[j].userId {
        assert s[i] == t[i + 1] && s[j] == t[j + 1];
      }
      forall i | 0 <= i < |s| ensures s[i].userId != x.userId {
        assert t[i + 1] == s[i];
      }
    }
    if UniqueIds(s) && x.userId !in IdSet(s) {
      forall i, j | 0 <= i < j < |t| ensures t[i].userId != t[j].userId {
        assert t[j] == s[j - 1];
        if i > 0 {
          assert t[i] == s[i - 1];
        } else {
          assert s[j - 1].userId in IdSet(s);
        }
      }
    }
  }

  lemma {:induction false} InsertKeepsIds(x: LeaderboardItem, s: seq<LeaderboardItem>)
    ensures IdSet(Insert(x, s, ItemPoints)) == IdSet(s) + {x.userId}
    ensures UniqueIds(s) && x.userId !in IdSet(s) ==> UniqueIds(Insert(x, s, ItemPoints))
  {
    if s == [] || x.points >= s[0].points {
      IdSetCons(x, s);
      UniqueCons(x, s);
    } else {
      var rest := Insert(x, s[1..], ItemPoints);
      InsertKeepsIds(x, s[1..]);
      assert s == [s[0]] + s[1..];
      IdSetCons(s[0], s[1..]);
      IdSetCons(s[0], rest);
      UniqueCons(s[0], s[1..]);
      UniqueCons(s[0], rest);
    }
  }

  /** Sorting neither loses nor repeats an id. */
  lemma {:induction false} SortKeepsIds(s: seq<LeaderboardItem>)
    ensures IdSet(SortDescBy(s, ItemPoints)) == IdSet(s)
    ensures UniqueIds(s) ==> UniqueIds(SortDescBy(s, ItemPoints))
  {
    if s != [] {
      SortKeepsIds(s[1..]);
      InsertKeepsIds(s[0], SortDescBy(s[1..], ItemPoints));
      assert s == [s[0]] + s[1..];
      IdSetCons(s[0], s[1..]);
      UniqueCons(s[0], s[1..]);
    }
  }

  // ---------------------------------------------------------------------------
  // The whole pipeline
  // ---------------------------------------------------------------------------

  lemma TempListWellFormed(rows: seq<StatRow>)
    ensures forall i :: 0 <= i < |Reverse(CollectedIds(rows))| ==> Reverse(CollectedIds(rows))[i] in PointsMap(rows)
  {
    CollectedIdsMembers(rows);
    var ids := CollectedIds(rows);
    forall i | 0 <= i < |Reverse(ids)| ensures Reverse(ids)[i] in PointsMap(rows) {
      assert Reverse(ids)[i] == ids[|ids| - 1 - i];
    }
  }

  /** `tempList` before repeats are removed. */
  function TempList(rows: seq<StatRow>, users: map<string, UserProfile>): seq<LeaderboardItem> {
    TempListWellFormed(rows);
    ItemsFor(Reverse(CollectedIds(rows)), PointsMap(rows), users)
  }

  /** The list the screen shows once both snapshots have arrived. */
  function LeaderboardOf(rows: seq<StatRow>, users: map<string, UserProfile>): seq<LeaderboardItem> {
    Ranked(SortDescBy(Dedup(TempList(rows, users)), ItemPoints))
  }

  /** The ids of the entries before removing repeats are the collected ids. */
  lemma TempListIds(rows: seq<StatRow>, users: map<string, UserProfile>)
    ensures forall id :: id in IdSet(TempList(rows, users)) <==> exists k :: 0 <= k < |rows| && rows[k].userid == Some(id)
  {
    CollectedIdsMembers(rows);
    var ids := CollectedIds(rows);
    var temp := TempList(rows, users);
    forall id ensures id in IdSet(temp) <==> id in ids {
      if id in ids {
        var k :| 0 <= k < |ids| && ids[k] == id;
        assert temp[|ids| - 1 - k].userId == id;
      }
    }
  }

  /** Every shown entry is an entry of `tempList` with its rank filled in. */
  lemma LeaderboardEntryFromTemp(rows: seq<StatRow>, users: map<string, UserProfile>, i: nat)
    requires i < |LeaderboardOf(rows, users)|
    ensures exists k :: 0 <= k < |TempList(rows, users)| &&
              LeaderboardOf(rows, users)[i] == TempList(rows, users)[k].(rank := LeaderboardOf(rows, users)[i].rank)
  {
    var temp := TempList(rows, users);
    var d := Dedup(temp);
    var sorted := SortDescBy(d, ItemPoints);
    SortFacts(d, ItemPoints);
    DedupFacts(temp);
    assert sorted[i] in multiset(d);
    var j :| 0 <= j < |d| && d[j] == sorted[i];
    var k := FirstIndexOf(temp, d[j].userId);
    assert LeaderboardOf(rows, users)[i] == temp[k].(rank := LeaderboardOf(rows, users)[i].rank);
  }

  /** The shown list has one entry per id that some row carries, and no other. */
  lemma LeaderboardIds(rows: seq<StatRow>, users: map<string, UserProfile>)
    ensures UniqueIds(LeaderboardOf(rows, users))
    ensures forall id :: id in IdSet(LeaderboardOf(rows, users)) <==> exists k :: 0 <= k < |rows| && rows[k].userid == Some(id)
  {
    var temp := TempList(rows, users);
    var d := Dedup(temp);
    var sorted := SortDescBy(d, ItemPoints);
    var t := Ranked(sorted);
    TempListIds(rows, users);
    DedupFacts(temp);
    SortKeepsIds(d);
    assert IdSet(t) == IdSet(sorted) by {
      forall id | id in IdSet(sorted) ensures id in IdSet(t) {
        var i :| 0 <= i < |sorted| && sorted[i].userId == id;
        assert t[i].userId == id;
      }
    }
    assert UniqueIds(t) by {
      forall i, j | 0 <= i < j < |t| ensures t[i].userId != t[j].userId {
        assert t[i].userId == sorted[i].userId && t[j].userId == sorted[j].userId;
      }
    }
  }

  /**
   * Each shown entry has the points of the last row carrying its id (0 when
   * that row has none) and the user's display name.
   */
  lemma LeaderboardEntryValues(rows: seq<StatRow>, users: map<string, UserProfile>, i: nat)
    requires i < |LeaderboardOf(rows, users)|
    ensures var e := LeaderboardOf(rows, users)[i];
      && e.userId in PointsMap(rows)
      && e.points == PointsMap(rows)[e.userId]
      && e.username == DisplayName(ProfileOf(users, e.userId).firstname, ProfileOf(users, e.userId).lastname)
      && e.profileImageUrl == ProfileOf(users, e.userId).profileImageUrl
  {
    LeaderboardEntryFromTemp(rows, users, i);
    TempListWellFormed(rows);
  }
  // ---------------------------------------------------------------------------
  // The signed-in user's entry
  // ---------------------------------------------------------------------------

  /** The first entry with the given id, if any. */
  function CurrentUserEntry(list: seq<LeaderboardItem>, uid: string): (r: Option<LeaderboardItem>)
    ensures r.None? <==> forall k :: 0 <= k < |list| ==> list[k].userId != uid
    ensures r.Some? ==> exists k ::
              && 0 <= k < |list| && list[k] == r.value && r.value.userId == uid
              && (forall j :: 0 <= j < k ==> list[j].userId != uid)
  {
    if list == [] then None
    else if list[0].userId == uid then Some(list[0])
    else
      var rest := CurrentUserEntry(list[1..], uid);
      assert rest.Some? ==> exists k ::
        && 0 <= k < |list| && list[k] == rest.value && rest.value.userId == uid
        && (forall j :: 0 <= j < k ==> list[j].userId != uid) by {
        if rest.Some? {
          var k :|
            && 0 <= k < |list[1..]| && list[1..][k] == rest.value && rest.value.userId == uid
            && (forall j :: 0 <= j < k ==> list[1..][j].userId != uid);
          assert list[k + 1] == rest.value;
          forall j | 0 <= j < k + 1 ensures list[j].userId != uid {
            if j > 0 {
              assert list[j] == list[1..][j - 1];
            }
          }
        }
      }
      assert rest.None? ==> forall k :: 0 <= k < |list| ==> list[k].userId != uid by {
        if rest.None? {
          forall k | 0 <= k < |list| ensures list[k].userId != uid {
            if k > 0 {
              assert list[k] == list[1..][k - 1];
            }
          }
        }
      }
      rest
  }

  /** The lookup loop of `setCurrentUserItemFromList`, stopping at the first match. */
  method FindCurrentUser(list: seq<LeaderboardItem>, uid: string) returns (found: Option<LeaderboardItem>)
    ensures found == CurrentUserEntry(list, uid)
  {
    found := None;
    var i := 0;
    while i < |list|
      invariant 0 <= i <= |list|
      invariant forall k :: 0 <= k < i ==> list[k].userId != uid
    {
      if list[i].userId == uid {
        found := Some(list[i]);
        break;
      }
      i := i + 1;
    }
  }

  /**
   * In a list where ids are unique (as every shown leaderboard is), a row is
   * highlighted exactly when it is the entry shown on the current-user card.
   */
  lemma HighlightIsCurrentUserEntry(list: seq<LeaderboardItem>, uid: string)
    requires UniqueIds(list)
    ensures forall k :: 0 <= k < |list| ==> (list[k].userId == uid <==> CurrentUserEntry(list, uid) == Some(list[k]))
  {
    forall k | 0 <= k < |list| && list[k].userId == uid ensures CurrentUserEntry(list, uid) == Some(list[k]) {
      var r := CurrentUserEntry(list, uid);
      var m :|
        && 0 <= m < |list| && list[m] == r.value && r.value.userId == uid
        && (forall j :: 0 <= j < m ==> list[j].userId != uid);
      assert m == k;
    }
  }

  // ---------------------------------------------------------------------------
  // The screen
  // ---------------------------------------------------------------------------

  class LeaderboardActivity {
    const leaderboardList: ItemList
    const adapter: LeaderboardAdapter
    const currentUserId: string
    var isLoading: bool
    /** The current-user card: the entry it shows, or None when it is hidden. */
    var currentUserItem: Option<LeaderboardItem>

    ghost predicate Valid()
      reads this
    {
      adapter.items == leaderboardList && adapter.currentUserId == currentUserId
    }

    constructor (currentUserId: string)
      ensures Valid() && fresh(leaderboardList) && fresh(adapter)
      ensures this.currentUserId == currentUserId
      ensures leaderboardList.elems == [] && !isLoading && !adapter.isLoading && currentUserItem == None
    {
      var list := new ItemList();
      leaderboardList := list;
      adapter := new LeaderboardAdapter(list, currentUserId);
      this.currentUserId := currentUserId;
      isLoading := false;
      currentUserItem := None;
    }

    /** Start of `fetchFullLeaderboard`: the screen and the adapter enter the loading state. */
    method FetchFullLeaderboard()
      requires Valid()
      modifies this, adapter
      ensures Valid() && isLoading && adapter.isLoading
      ensures currentUserItem == old(currentUserItem)
    {
      isLoading := true;
      adapter.ShowLoading(true);
    }

    /** Either listener's `onCancelled`: the flag is cleared, nothing else changes. */
    method OnFetchCancelled()
      modifies this
      ensures !isLoading && currentUserItem == old(currentUserItem)
    {
      isLoading := false;
    }

    /** `assignRanksToLeaderboard`: sort the shared list in place, then write the ranks. */
    method AssignRanksToLeaderboard()
      modifies leaderboardList
      ensures leaderboardList.elems == Ranked(SortDescBy(old(leaderboardList.elems), ItemPoints))
    {
      var list := leaderboardList;
      var sorted := SortDescBy(list.elems, ItemPoints);
      assert SortedDesc(sorted, ItemPoints) by {
        SortFacts(list.elems, ItemPoints);
      }
      list.elems := sorted;
      var prevPoints := -1;
      var rank := 1;
      for i := 0 to |sorted|
        invariant |list.elems| == |sorted|
        invariant forall k :: 0 <= k < i ==> list.elems[k] == sorted[k].(rank := CompetitionRank(sorted, ItemPoints, k))
        invariant forall k :: i <= k < |sorted| ==> list.elems[k] == sorted[k]
        invariant i == 0 ==> rank == 1
        invariant i > 0 ==> prevPoints == sorted[i - 1].points && rank == CompetitionRank(sorted, ItemPoints, i - 1)
      {
        var item := list.elems[i];
        RankStep(sorted, ItemPoints, i, prevPoints, rank);
        if item.points != prevPoints {
          rank := i + 1;
          prevPoints := item.points;
        }
        list.elems := list.elems[i := item.(rank := rank)];
      }
      assert forall k :: 0 <= k < |sorted| ==> list.elems[k] == Ranked(sorted)[k];
    }

    /** `setCurrentUserItemFromList`: show the signed-in user's entry, or hide the card. */
    method SetCurrentUserItemFromList()
      modifies this
      ensures currentUserItem == CurrentUserEntry(leaderboardList.elems, currentUserId)
      ensures isLoading == old(isLoading)
    {
      currentUserItem := FindCurrentUser(leaderboardList.elems, currentUserId);
    }

    /**
     * Both snapshot listeners of `fetchFullLeaderboard` completing: the shared
     * list becomes the ranked leaderboard, the loading row goes away, the
     * widget is told the data changed, and the current-user card is set.
     */
    method OnLeaderboardSnapshots(rows: seq<StatRow>, users: map<string, UserProfile>)
      requires Valid()
      modifies this, leaderboardList, adapter
      ensures Valid()
      ensures leaderboardList.elems == LeaderboardOf(rows, users)
      ensures !isLoading && !adapter.isLoading
      ensures adapter.GetItemCount() == |LeaderboardOf(rows, users)|
      ensures currentUserItem == CurrentUserEntry(LeaderboardOf(rows, users), currentUserId)
    {
      leaderboardList.elems := [];
      var userIds, pointsMap := CollectStats(rows);
      userIds := Reverse(userIds);
      TempListWellFormed(rows);
      var tempList := BuildItems(userIds, pointsMap, users);
      assert tempList == TempList(rows, users);
      tempList := RemoveDuplicates(tempList);
      leaderboardList.elems := leaderboardList.elems + tempList;
      assert leaderboardList.elems == Dedup(TempList(rows, users));
      AssignRanksToLeaderboard();
      adapter.ShowLoading(false);
      adapter.NotifyDataSetChanged();
      isLoading := false;
      SetCurrentUserItemFromList();
    }
  }
}
