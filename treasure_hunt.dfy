/**
 * The map screen: treasure markers, the rules of a discovery, bookmarks and
 * the creation of a treasure.
 *
 * A marker click runs a small state machine per (user, treasure): the
 * creator only sees their own treasure; a user who already has a discovery
 * record for it sees that record again; otherwise a location fix within 20 m
 * makes a discovery, which writes a discovery record, the treasure's counter
 * and the user's points.  The database is the shared `Database`; the reads
 * and writes that the app makes through listeners happen here one after the
 * other.
 */
module TreasureHunt {
  import opened Records
  import opened Store
  import Profile

  /** `DISCOVERY_RADIUS_METERS`. */
  const DISCOVERY_RADIUS_METERS: real := 20.0
  const FIRST_FINDER_POINTS: int := 10
  const FIRST_FINDERS: int := 3

  /** A marker's tag: the treasure id, its creator, and its discovery counter when the marker was made. */
  datatype TreasureInfo = TreasureInfo(treasureId: string, createdByUserId: Option<string>, totalDiscoveries: int)

  /** The outcome of a location request: no fix, or a fix at a given distance from the marker. */
  datatype LocationFix = NoFix | Fix(distanceMeters: real)

  datatype MarkerIcon = Discovered | Silver | Gold

  datatype Marker = Marker(position: Location, title: string, snippet: string, icon: MarkerIcon, info: TreasureInfo)

  /** One child of a `treasures` snapshot: its key and its fields. */
  datatype TreasureEntry = TreasureEntry(key: Option<string>, row: TreasureRow)

  /** What a marker click leads to. */
  datatype ClickOutcome =
    | OwnTreasure
    | Revisit(discoveryTime: int, pointsEarned: int)
    | NoLocation
    | MoveCloser
    | FirstDiscovery(pointsEarned: int)

  // ---------------------------------------------------------------------------
  // Searching a table for a (user, treasure) pair
  // ---------------------------------------------------------------------------

  function DiscoveryKey(r: DiscoveryRow): (Option<string>, Option<string>) {
    (r.userId, r.treasureId)
  }

  function BookmarkKey(r: BookmarkRow): (Option<string>, Option<string>) {
    (r.userId, r.treasureId)
  }

  /** The index of the first element of s whose key is k, if any. */
  function FirstIndexOfKey<T, K(==)>(s: seq<T>, key: T -> K, k: K): (r: Option<nat>)
    ensures r.None? <==> forall i :: 0 <= i < |s| ==> key(s[i]) != k
    ensures r.Some? ==> r.value < |s| && key(s[r.value]) == k && forall j :: 0 <= j < r.value ==> key(s[j]) != k
  {
    if s == [] then None
    else if key(s[0]) == k then Some(0)
    else
      var r := FirstIndexOfKey(s[1..], key, k);
      assert forall i :: 0 < i < |s| ==> s[i] == s[1..][i - 1];
      if r.Some? then Some(r.value + 1) else None
  }

  /** The number of elements of s whose key is k. */
  function CountKey<T, K(==)>(s: seq<T>, key: T -> K, k: K): nat {
    if s == [] then 0 else (if key(s[0]) == k then 1 else 0) + CountKey(s[1..], key, k)
  }

  lemma {:induction false} CountKeyConcat<T, K>(a: seq<T>, b: seq<T>, key: T -> K, k: K)
    ensures CountKey(a + b, key, k) == CountKey(a, key, k) + CountKey(b, key, k)
  {
    if a == [] {
      assert a + b == b;
    } else {
      assert (a + b)[1..] == a[1..] + b;
      CountKeyConcat(a[1..], b, key, k);
    }
  }

  lemma {:induction false} CountKeyZero<T, K>(s: seq<T>, key: T -> K, k: K)
    ensures CountKey(s, key, k) == 0 <==> forall i :: 0 <= i < |s| ==> key(s[i]) != k
  {
    if s != [] {
      CountKeyZero(s[1..], key, k);
      assert forall i :: 0 < i < |s| ==> s[i] == s[1..][i - 1];
    }
  }

  /** Removing the element at index i lowers the count of its key by one and leaves every other count alone. */
  lemma CountKeyRemove<T, K>(s: seq<T>, i: nat, key: T -> K, k: K)
    requires i < |s|
    ensures CountKey(s[..i] + s[i + 1..], key, k) == CountKey(s, key, k) - (if key(s[i]) == k then 1 else 0)
  {
    var pre, post := s[..i], s[i + 1..];
    var tail := [s[i]] + post;
    assert tail[1..] == post;
    assert CountKey(tail, key, k) == (if key(s[i]) == k then 1 else 0) + CountKey(post, key, k);
    assert s == pre + tail;
    CountKeyConcat(pre, tail, key, k);
    CountKeyConcat(pre, post, key, k);
  }

  // ---------------------------------------------------------------------------
  // Points
  // ---------------------------------------------------------------------------

  /** The points a discovery earns: 10 for one of the first three finders, else 0. */
  function PointsFor(totalDiscoveries: int): (r: int)
    ensures r == FIRST_FINDER_POINTS <==> totalDiscoveries < FIRST_FINDERS
    ensures r == 0 <==> totalDiscoveries >= FIRST_FINDERS
  {
    if totalDiscoveries < FIRST_FINDERS then FIRST_FINDER_POINTS else 0
  }

  /** The user's stats rows with `pts` added to each, a missing value counting as 0. */
  function Credit(rows: seq<StatRow>, uid: string, pts: int): (r: seq<StatRow>)
    ensures |r| == |rows|
    ensures forall k :: 0 <= k < |rows| ==> r[k].userid == rows[k].userid
  {
    seq(|rows|, k requires 0 <= k < |rows| =>
      if rows[k].userid == Some(uid) then rows[k].(points := Some(rows[k].points.GetOr(0) + pts)) else rows[k])
  }

  // ---------------------------------------------------------------------------
  // A marker click
  // ---------------------------------------------------------------------------

  /** The treasure's stored row; an absent treasure reads as a row of missing fields. */
  function StoredTreasure(treasures: map<string, TreasureRow>, tid: string): TreasureRow {
    if tid in treasures then treasures[tid] else EmptyTreasureRow
  }

  /** `handleDiscovery`: the record (when a push key was issued), the treasure's counter and the user's points. */
  function Discover(t: Tables, uid: string, info: TreasureInfo, discoveryKey: Option<string>, time: int): Tables {
    var pts := PointsFor(info.totalDiscoveries);
    var record := DiscoveryRow(Some(uid), Some(info.treasureId), Some(time), Some(pts));
    t.(discoveries := if discoveryKey.Some? then t.discoveries + [record] else t.discoveries,
       treasures := t.treasures[info.treasureId := StoredTreasure(t.treasures, info.treasureId).(totalDiscoveries := Some(info.totalDiscoveries + 1))],
       userstats := Credit(t.userstats, uid, pts))
  }

  /** A marker click: own treasure, revisit, no location, too far, or a first discovery. */
  function Click(t: Tables, uid: string, info: TreasureInfo, fix: LocationFix, discoveryKey: Option<string>, time: int)
    : (ClickOutcome, Tables)
  {
    if info.createdByUserId == Some(uid) then (OwnTreasure, t)
    else
      var found := FirstIndexOfKey(t.discoveries, DiscoveryKey, (Some(uid), Some(info.treasureId)));
      if found.Some? then
        var d := t.discoveries[found.value];
        (Revisit(d.discoveryTime.GetOr(0), d.pointsEarned.GetOr(0)), t)
      else match fix
        case NoFix => (NoLocation, t)
        case Fix(dist) =>
          if dist <= DISCOVERY_RADIUS_METERS then
            (FirstDiscovery(PointsFor(info.totalDiscoveries)), Discover(t, uid, info, discoveryKey, time))
          else (MoveCloser, t)
  }

  /** The user has at least one discovery record for the treasure. */
  predicate HasDiscovered(discoveries: seq<DiscoveryRow>, uid: string, tid: string) {
    CountKey(discoveries, DiscoveryKey, (Some(uid), Some(tid))) > 0
  }

  /** The creator never discovers their own treasure: the click shows it and changes nothing. */
  lemma CreatorBypass(t: Tables, uid: string, info: TreasureInfo, fix: LocationFix, discoveryKey: Option<string>, time: int)
    requires info.createdByUserId == Some(uid)
    ensures Click(t, uid, info, fix, discoveryKey, time) == (OwnTreasure, t)
  {
  }

  /**
   * A discovery happens exactly when the user did not create the treasure,
   * has no discovery record for it, and has a fix at most 20 m away; it earns
   * the points the counter on the marker allows.
   */
  lemma DiscoveryCondition(t: Tables, uid: string, info: TreasureInfo, fix: LocationFix, discoveryKey: Option<string>, time: int)
    ensures Click(t, uid, info, fix, discoveryKey, time).0.FirstDiscovery? <==>
              && info.createdByUserId != Some(uid)
              && !HasDiscovered(t.discoveries, uid, info.treasureId)
              && fix.Fix? && fix.distanceMeters <= DISCOVERY_RADIUS_METERS
    ensures Click(t, uid, info, fix, discoveryKey, time).0.FirstDiscovery? ==>
              Click(t, uid, info, fix, discoveryKey, time).0.pointsEarned == PointsFor(info.totalDiscoveries)
    ensures !Click(t, uid, info, fix, discoveryKey, time).0.FirstDiscovery? ==> Click(t, uid, info, fix, discoveryKey, time).1 == t
  {
    CountKeyZero(t.discoveries, DiscoveryKey, (Some(uid), Some(info.treasureId)));
  }

  /**
   * A user with a discovery record sees the first such record again, its time
   * and points defaulting to 0, and nothing is written.
   */
  lemma RevisitShowsFirstRecord(t: Tables, uid: string, info: TreasureInfo, fix: LocationFix, discoveryKey: Option<string>, time: int, k: nat)
    requires info.createdByUserId != Some(uid)
    requires k < |t.discoveries| && DiscoveryKey(t.discoveries[k]) == (Some(uid), Some(info.treasureId))
    requires forall j :: 0 <= j < k ==> DiscoveryKey(t.discoveries[j]) != (Some(uid), Some(info.treasureId))
    ensures Click(t, uid, info, fix, discoveryKey, time) ==
              (Revisit(t.discoveries[k].discoveryTime.GetOr(0), t.discoveries[k].pointsEarned.GetOr(0)), t)
  {
  }

  /**
   * What a discovery writes: exactly one record (when a key was issued), the
   * treasure's counter at the marker's value + 1, and the points added to
   * every one of the user's stats rows; other users' rows and other treasures
   * are untouched.
   */
  lemma DiscoveryEffects(t: Tables, uid: string, info: TreasureInfo, discoveryKey: Option<string>, time: int)
    ensures var t' := Discover(t, uid, info, discoveryKey, time);
      && (discoveryKey.Some? ==>
            t'.discoveries == t.discoveries + [DiscoveryRow(Some(uid), Some(info.treasureId), Some(time), Some(PointsFor(info.totalDiscoveries)))])
      && (discoveryKey.None? ==> t'.discoveries == t.discoveries)
      && t'.treasures[info.treasureId].totalDiscoveries == Some(info.totalDiscoveries + 1)
      && (forall tid :: tid in t.treasures && tid != info.treasureId ==> tid in t'.treasures && t'.treasures[tid] == t.treasures[tid])
      && |t'.userstats| == |t.userstats|
      && (forall k :: 0 <= k < |t.userstats| && t.userstats[k].userid == Some(uid) ==>
            t'.userstats[k].points == Some(t.userstats[k].points.GetOr(0) + PointsFor(info.totalDiscoveries)))
      && (forall k :: 0 <= k < |t.userstats| && t.userstats[k].userid != Some(uid) ==> t'.userstats[k] == t.userstats[k])
      && t'.users == t.users && t'.savedTreasures == t.savedTreasures
  {
  }

  /** After a first discovery, the user has exactly one more record for the treasure. */
  lemma DiscoveryAddsOneRecord(t: Tables, uid: string, info: TreasureInfo, discoveryKey: Option<string>, time: int)
    requires discoveryKey.Some?
    ensures var t' := Discover(t, uid, info, discoveryKey, time);
      && CountKey(t'.discoveries, DiscoveryKey, (Some(uid), Some(info.treasureId))) ==
           CountKey(t.discoveries, DiscoveryKey, (Some(uid), Some(info.treasureId))) + 1
      && HasDiscovered(t'.discoveries, uid, info.treasureId)
  {
    var record := DiscoveryRow(Some(uid), Some(info.treasureId), Some(time), Some(PointsFor(info.totalDiscoveries)));
    CountKeyConcat(t.discoveries, [record], DiscoveryKey, (Some(uid), Some(info.treasureId)));
    assert [record][1..] == [];
  }

  /**
   * Clicking again after a first discovery shows a revisit with the earned
   * points and writes nothing: a treasure pays out at most once per user.
   */
  lemma SecondClickIsRevisit(
    t: Tables, uid: string, info: TreasureInfo, fix: LocationFix, discoveryKey: Option<string>, time: int,
    fix2: LocationFix, discoveryKey2: Option<string>, time2: int)
    requires Click(t, uid, info, fix, discoveryKey, time).0.FirstDiscovery?
    requires discoveryKey.Some?
    ensures var t' := Click(t, uid, info, fix, discoveryKey, time).1;
      Click(t', uid, info, fix2, discoveryKey2, time2) == (Revisit(time, PointsFor(info.totalDiscoveries)), t')
  {
    var key := (Some(uid), Some(info.treasureId));
    var t' := Click(t, uid, info, fix, discoveryKey, time).1;
    assert FirstIndexOfKey(t.discoveries, DiscoveryKey, key).None?;
    var n := |t.discoveries|;
    assert t'.discoveries[n] == DiscoveryRow(Some(uid), Some(info.treasureId), Some(time), Some(PointsFor(info.totalDiscoveries)));
    var found := FirstIndexOfKey(t'.discoveries, DiscoveryKey, key);
    assert found == Some(n) by {
      assert forall j :: 0 <= j < n ==> t'.discoveries[j] == t.discoveries[j];
    }
  }

  /** No user has two discovery records for the same treasure (only records with both ids are constrained). */
  predicate AtMostOneDiscovery(t: Tables) {
    forall i, j :: 0 <= i < j < |t.discoveries| && t.discoveries[i].userId.Some? && t.discoveries[i].treasureId.Some? ==>
      DiscoveryKey(t.discoveries[i]) != DiscoveryKey(t.discoveries[j])
  }

  /** Marker clicks, made one after the other, keep at most one record per (user, treasure). */
  lemma ClickKeepsAtMostOneDiscovery(t: Tables, uid: string, info: TreasureInfo, fix: LocationFix, discoveryKey: Option<string>, time: int)
    requires AtMostOneDiscovery(t)
    ensures AtMostOneDiscovery(Click(t, uid, info, fix, discoveryKey, time).1)
  {
    var key := (Some(uid), Some(info.treasureId));
    var r := Click(t, uid, info, fix, discoveryKey, time);
    if r.0.FirstDiscovery? && discoveryKey.Some? {
      var ds := r.1.discoveries;
      var n := |t.discoveries|;
      assert FirstIndexOfKey(t.discoveries, DiscoveryKey, key).None?;
      forall i, j | 0 <= i < j < |ds| && ds[i].userId.Some? && ds[i].treasureId.Some?
        ensures DiscoveryKey(ds[i]) != DiscoveryKey(ds[j])
      {
        assert ds[i] == t.discoveries[i];
        if j < n {
          assert ds[j] == t.discoveries[j];
        }
      }
    } else {
      DiscoveryCondition(t, uid, info, fix, discoveryKey, time);
    }
  }

  /**
   * Crediting adds the points to what the profile pop-up shows for the user
   * (when the user has a stats row) and changes nobody else's points.
   */
  lemma {:induction false} CreditRaisesProfilePoints(rows: seq<StatRow>, uid: string, pts: int, other: string)
    ensures Profile.CurrentPointsOf(Credit(rows, uid, pts), uid) ==
              Profile.CurrentPointsOf(rows, uid) + (if exists k :: 0 <= k < |rows| && rows[k].userid == Some(uid) then pts else 0)
    ensures other != uid ==> Profile.CurrentPointsOf(Credit(rows, uid, pts), other) == Profile.CurrentPointsOf(rows, other)
  {
    if rows != [] {
      var c := Credit(rows, uid, pts);
      var tail := rows[1..];
      assert c[1..] == Credit(tail, uid, pts);
      CreditRaisesProfilePoints(tail, uid, pts, other);
      if rows[0].userid == Some(uid) {
        assert c[0] == rows[0].(points := Some(rows[0].points.GetOr(0) + pts));
        assert 0 < |rows| && rows[0].userid == Some(uid);
      } else {
        assert c[0] == rows[0];
        if exists k :: 0 <= k < |rows| && rows[k].userid == Some(uid) {
          var k :| 0 <= k < |rows| && rows[k].userid == Some(uid);
          assert tail[k - 1].userid == Some(uid);
        }
        if exists k :: 0 <= k < |tail| && tail[k].userid == Some(uid) {
          var k :| 0 <= k < |tail| && tail[k].userid == Some(uid);
          assert rows[k + 1].userid == Some(uid);
        }
      }
    }
  }

  /** A recorded discovery raises the user's discovery count in the pop-up by one, and nobody else's. */
  lemma DiscoveryRaisesProfileCount(t: Tables, uid: string, info: TreasureInfo, discoveryKey: Option<string>, time: int, other: string)
    requires discoveryKey.Some?
    ensures Profile.DiscoveryCountOf(Discover(t, uid, info, discoveryKey, time).discoveries, uid) ==
              Profile.DiscoveryCountOf(t.discoveries, uid) + 1
    ensures other != uid ==>
              Profile.DiscoveryCountOf(Discover(t, uid, info, discoveryKey, time).discoveries, other) ==
              Profile.DiscoveryCountOf(t.discoveries, other)
  {
    var record := DiscoveryRow(Some(uid), Some(info.treasureId), Some(time), Some(PointsFor(info.totalDiscoveries)));
    Profile.DiscoveryCountAppend(t.discoveries, record, uid);
    Profile.DiscoveryCountAppend(t.discoveries, record, other);
  }

  // ---------------------------------------------------------------------------
  // Markers
  // ---------------------------------------------------------------------------

  /** The icon rule: discovered first (even for the creator), then silver for the creator, else gold. */
  function IconFor(discovered: bool, uid: string, createdByUserId: Option<string>): (icon: MarkerIcon)
    ensures icon == Discovered <==> discovered
    ensures icon == Silver <==> !discovered && createdByUserId == Some(uid)
    ensures icon == Gold <==> !discovered && createdByUserId != Some(uid)
  {
    if discovered then Discovered
    else if createdByUserId == Some(uid) then Silver
    else Gold
  }

  /** A snapshot child becomes a marker only when latitude, longitude, title and key are all present. */
  predicate Showable(e: TreasureEntry) {
    e.row.latitude.Some? && e.row.longitude.Some? && e.row.title.Some? && e.key.Some?
  }

  /** `checkAndAddMarker` for one showable child. */
  function MarkerFor(e: TreasureEntry, discoveries: seq<DiscoveryRow>, uid: string): Marker
    requires Showable(e)
  {
    var tid := e.key.value;
    var discovered := FirstIndexOfKey(discoveries, DiscoveryKey, (Some(uid), Some(tid))).Some?;
    Marker(
      Location(e.row.latitude.value, e.row.longitude.value),
      e.row.title.value,
      e.row.description.GetOr(""),
      IconFor(discovered, uid, e.row.createdByUserId),
      TreasureInfo(tid, e.row.createdByUserId, e.row.totalDiscoveries.GetOr(0)))
  }

  /** The markers `loadTreasuresFromRealtimeDB` places, in snapshot order. */
  function ShownMarkers(snapshot: seq<TreasureEntry>, discoveries: seq<DiscoveryRow>, uid: string): seq<Marker> {
    if snapshot == [] then []
    else
      var e := snapshot[|snapshot| - 1];
      ShownMarkers(snapshot[..|snapshot| - 1], discoveries, uid) + (if Showable(e) then [MarkerFor(e, discoveries, uid)] else [])
  }

  /** A treasure gets a marker exactly when some snapshot child with its key is showable. */
  lemma {:induction false} ShownMarkersMembers(snapshot: seq<TreasureEntry>, discoveries: seq<DiscoveryRow>, uid: string)
    ensures forall m :: m in ShownMarkers(snapshot, discoveries, uid) ==>
              exists k :: 0 <= k < |snapshot| && Showable(snapshot[k]) && m == MarkerFor(snapshot[k], discoveries, uid)
    ensures forall k :: 0 <= k < |snapshot| && Showable(snapshot[k]) ==>
              MarkerFor(snapshot[k], discoveries, uid) in ShownMarkers(snapshot, discoveries, uid)
  {
    if snapshot != [] {
      var init := snapshot[..|snapshot| - 1];
      ShownMarkersMembers(init, discoveries, uid);
      assert forall k :: 0 <= k < |init| ==> init[k] == snapshot[k];
    }
  }

  /** After a discovery the treasure's marker, once reloaded, carries the discovered icon. */
  lemma DiscoveredIconAfterDiscovery(t: Tables, uid: string, info: TreasureInfo, discoveryKey: Option<string>, time: int, e: TreasureEntry)
    requires discoveryKey.Some? && Showable(e) && e.key == Some(info.treasureId)
    ensures MarkerFor(e, Discover(t, uid, info, discoveryKey, time).discoveries, uid).icon == Discovered
  {
    DiscoveryAddsOneRecord(t, uid, info, discoveryKey, time);
    var t' := Discover(t, uid, info, discoveryKey, time);
    CountKeyZero(t'.discoveries, DiscoveryKey, (Some(uid), Some(info.treasureId)));
  }

  // ---------------------------------------------------------------------------
  // Bookmarks
  // ---------------------------------------------------------------------------

  /** `toggleBookmark`: remove the first bookmark of the pair, or add one when a key is issued. */
  function Toggled(rows: seq<BookmarkRow>, uid: string, tid: string, bookmarkKey: Option<string>): seq<BookmarkRow> {
    var found := FirstIndexOfKey(rows, BookmarkKey, (Some(uid), Some(tid)));
    if found.Some? then rows[..found.value] + rows[found.value + 1..]
    else if bookmarkKey.Some? then rows + [BookmarkRow(Some(uid), Some(tid))]
    else rows
  }

  /**
   * A toggle removes one bookmark of the pair when there is one and adds one
   * otherwise (given a key); no other pair's bookmarks change.
   */
  lemma ToggleCounts(rows: seq<BookmarkRow>, uid: string, tid: string, bookmarkKey: Option<string>, other: (Option<string>, Option<string>))
    requires other != (Some(uid), Some(tid))
    ensures var n := CountKey(rows, BookmarkKey, (Some(uid), Some(tid)));
      CountKey(Toggled(rows, uid, tid, bookmarkKey), BookmarkKey, (Some(uid), Some(tid))) ==
        (if n > 0 then n - 1 else if bookmarkKey.Some? then 1 else 0)
    ensures CountKey(Toggled(rows, uid, tid, bookmarkKey), BookmarkKey, other) == CountKey(rows, BookmarkKey, other)
  {
    var key := (Some(uid), Some(tid));
    var found := FirstIndexOfKey(rows, BookmarkKey, key);
    CountKeyZero(rows, BookmarkKey, key);
    var added := [BookmarkRow(Some(uid), Some(tid))];
    assert added[1..] == [];
    if found.Some? {
      CountKeyRemove(rows, found.value, BookmarkKey, key);
      CountKeyRemove(rows, found.value, BookmarkKey, other);
    } else if bookmarkKey.Some? {
      CountKeyConcat(rows, added, BookmarkKey, key);
      CountKeyConcat(rows, added, BookmarkKey, other);
    }
  }

  /** Starting from at most one bookmark of the pair, toggling twice restores whether it is bookmarked. */
  lemma ToggleTwiceRestores(rows: seq<BookmarkRow>, uid: string, tid: string, key1: Option<string>, key2: Option<string>)
    requires key1.Some? && key2.Some?
    requires CountKey(rows, BookmarkKey, (Some(uid), Some(tid))) <= 1
    ensures CountKey(Toggled(Toggled(rows, uid, tid, key1), uid, tid, key2), BookmarkKey, (Some(uid), Some(tid))) ==
              CountKey(rows, BookmarkKey, (Some(uid), Some(tid)))
  {
    var other := (None, None);
    ToggleCounts(rows, uid, tid, key1, other);
    ToggleCounts(Toggled(rows, uid, tid, key1), uid, tid, key2, other);
  }

  // ---------------------------------------------------------------------------
  // Creating a treasure
  // ---------------------------------------------------------------------------

  datatype CreateOutcome = FillAllFields | UnableToGetLocation | UploadFailed | CreateError | SaveError | Created(treasureId: string)

  /** `createTreasureMap`, plus the image URL when there is one. */
  function CreateTreasureMap(title: string, desc: string, location: Location, uid: string, time: int, imageUrl: Option<string>)
    : TreasureRow
  {
    TreasureRow(Some(title), Some(desc), Some(location.latitude), Some(location.longitude), Some(uid), Some(time), Some(0), imageUrl)
  }

  /**
   * `handleSaveTreasureWithImage` and what follows it: the trimmed fields must
   * both be non-empty, a location must be available, a selected image must
   * upload, the store must issue a key, and the write must succeed.
   */
  function CreateTreasure(
    t: Tables, uid: string, titleText: string, descText: string, location: Option<Location>,
    imageSelected: bool, uploadedUrl: Option<string>, treasureKey: Option<string>, saveSucceeds: bool, time: int)
    : (CreateOutcome, Tables)
  {
    var title := Trim(titleText);
    var desc := Trim(descText);
    if title == [] || desc == [] then (FillAllFields, t)
    else if location.None? then (UnableToGetLocation, t)
    else if imageSelected && uploadedUrl.None? then (UploadFailed, t)
    else if treasureKey.None? then (CreateError, t)
    else if !saveSucceeds then (SaveError, t)
    else
      var row := CreateTreasureMap(title, desc, location.value, uid, time, if imageSelected then uploadedUrl else None);
      (Created(treasureKey.value), t.(treasures := t.treasures[treasureKey.value := row]))
  }

  /**
   * A treasure is rejected for missing fields exactly when its title or
   * description is blank; it is created exactly when every step succeeds, and
   * a refused or failed creation writes nothing.
   */
  lemma CreateRejectsBlank(
    t: Tables, uid: string, titleText: string, descText: string, location: Option<Location>,
    imageSelected: bool, uploadedUrl: Option<string>, treasureKey: Option<string>, saveSucceeds: bool, time: int)
    ensures CreateTreasure(t, uid, titleText, descText, location, imageSelected, uploadedUrl, treasureKey, saveSucceeds, time).0 == FillAllFields <==>
              (forall k :: 0 <= k < |titleText| ==> IsTrimmed(titleText[k])) ||
              (forall k :: 0 <= k < |descText| ==> IsTrimmed(descText[k]))
    ensures !CreateTreasure(t, uid, titleText, descText, location, imageSelected, uploadedUrl, treasureKey, saveSucceeds, time).0.Created? ==>
              CreateTreasure(t, uid, titleText, descText, location, imageSelected, uploadedUrl, treasureKey, saveSucceeds, time).1 == t
    ensures CreateTreasure(t, uid, titleText, descText, location, imageSelected, uploadedUrl, treasureKey, saveSucceeds, time).0.Created? <==>
              && Trim(titleText) != [] && Trim(descText) != [] && location.Some?
              && (imageSelected ==> uploadedUrl.Some?) && treasureKey.Some? && saveSucceeds
  {
    TrimEmptyIff(titleText);
    TrimEmptyIff(descText);
  }

  /**
   * A created treasure has no discoveries yet, is stored under its key with
   * the creator's id and the trimmed fields, and is shown as a marker: silver
   * to its creator and gold to everyone else who has not discovered it.
   */
  lemma CreatedTreasureIsShown(
    t: Tables, uid: string, titleText: string, descText: string, location: Option<Location>,
    imageSelected: bool, uploadedUrl: Option<string>, treasureKey: Option<string>, saveSucceeds: bool, time: int, viewer: string)
    requires CreateTreasure(t, uid, titleText, descText, location, imageSelected, uploadedUrl, treasureKey, saveSucceeds, time).0.Created?
    requires !HasDiscovered(t.discoveries, viewer, treasureKey.value)
    ensures var r := CreateTreasure(t, uid, titleText, descText, location, imageSelected, uploadedUrl, treasureKey, saveSucceeds, time);
      var tid := r.0.treasureId;
      && tid == treasureKey.value
      && tid in r.1.treasures
      && r.1.treasures[tid].totalDiscoveries == Some(0)
      && r.1.treasures[tid].createdByUserId == Some(uid)
      && r.1.treasures[tid].title == Some(Trim(titleText))
      && r.1.treasures[tid].description == Some(Trim(descText))
      && Showable(TreasureEntry(Some(tid), r.1.treasures[tid]))
      && MarkerFor(TreasureEntry(Some(tid), r.1.treasures[tid]), r.1.discoveries, viewer).info.totalDiscoveries == 0
      && MarkerFor(TreasureEntry(Some(tid), r.1.treasures[tid]), r.1.discoveries, viewer).icon == (if viewer == uid then Silver else Gold)
  {
    CountKeyZero(t.discoveries, DiscoveryKey, (Some(viewer), Some(treasureKey.value)));
  }

  // ---------------------------------------------------------------------------
  // The loops of the screen
  // ---------------------------------------------------------------------------

  /** The scan of the user's discoveries in `handleMarkerClick`, leaving at the first match. */
  method FindDiscovery(rows: seq<DiscoveryRow>, uid: string, tid: string)
    returns (alreadyDiscovered: bool, discoveryTime: int, pointsEarned: int)
    ensures alreadyDiscovered <==> FirstIndexOfKey(rows, DiscoveryKey, (Some(uid), Some(tid))).Some?
    ensures alreadyDiscovered ==>
              var k := FirstIndexOfKey(rows, DiscoveryKey, (Some(uid), Some(tid))).value;
              discoveryTime == rows[k].discoveryTime.GetOr(0) && pointsEarned == rows[k].pointsEarned.GetOr(0)
    ensures !alreadyDiscovered ==> discoveryTime == 0 && pointsEarned == 0
  {
    alreadyDiscovered := false;
    discoveryTime := 0;
    pointsEarned := 0;
    var i := 0;
    while i < |rows|
      invariant 0 <= i <= |rows|
      invariant forall k :: 0 <= k < i ==> DiscoveryKey(rows[k]) != (Some(uid), Some(tid))
    {
      // The query returns only the user's rows; among them, match the treasure.
      if rows[i].userId == Some(uid) && rows[i].treasureId == Some(tid) {
        alreadyDiscovered := true;
        if rows[i].discoveryTime.Some? {
          discoveryTime := rows[i].discoveryTime.value;
        }
        if rows[i].pointsEarned.Some? {
          pointsEarned := rows[i].pointsEarned.value;
        }
        return;
      }
      i := i + 1;
    }
  }

  /** The scan of the user's bookmarks in `toggleBookmark`, leaving at the first match. */
  method FindBookmark(rows: seq<BookmarkRow>, uid: string, tid: string) returns (found: Option<nat>)
    ensures found == FirstIndexOfKey(rows, BookmarkKey, (Some(uid), Some(tid)))
  {
    found := None;
    var i := 0;
    while i < |rows|
      invariant 0 <= i <= |rows|
      invariant forall k :: 0 <= k < i ==> BookmarkKey(rows[k]) != (Some(uid), Some(tid))
    {
      if rows[i].userId == Some(uid) && rows[i].treasureId == Some(tid) {
        found := Some(i);
        return;
      }
      i := i + 1;
    }
  }

  /** `checkAndAddMarker`: the discovered scan, then the icon rule. */
  method CheckAndAddMarker(e: TreasureEntry, discoveries: seq<DiscoveryRow>, uid: string) returns (marker: Marker)
    requires Showable(e)
    ensures marker == MarkerFor(e, discoveries, uid)
    ensures marker.icon == Discovered <==> HasDiscovered(discoveries, uid, e.key.value)
  {
    var tid := e.key.value;
    var discovered := false;
    var i := 0;
    while i < |discoveries|
      invariant 0 <= i <= |discoveries|
      invariant !discovered
      invariant forall k :: 0 <= k < i ==> DiscoveryKey(discoveries[k]) != (Some(uid), Some(tid))
    {
      if discoveries[i].userId == Some(uid) && discoveries[i].treasureId == Some(tid) {
        discovered := true;
        break;
      }
      i := i + 1;
    }
    CountKeyZero(discoveries, DiscoveryKey, (Some(uid), Some(tid)));
    var icon := IconFor(discovered, uid, e.row.createdByUserId);
    marker := Marker(
      Location(e.row.latitude.value, e.row.longitude.value),
      e.row.title.value,
      e.row.description.GetOr(""),
      icon,
      TreasureInfo(tid, e.row.createdByUserId, e.row.totalDiscoveries.GetOr(0)));
  }

  /** `loadTreasuresFromRealtimeDB`: one marker per showable child, in snapshot order. */
  method LoadMarkers(snapshot: seq<TreasureEntry>, discoveries: seq<DiscoveryRow>, uid: string) returns (markers: seq<Marker>)
    ensures markers == ShownMarkers(snapshot, discoveries, uid)
  {
    markers := [];
    for i := 0 to |snapshot|
      invariant markers == ShownMarkers(snapshot[..i], discoveries, uid)
    {
      assert snapshot[..i + 1][..i] == snapshot[..i];
      var e := snapshot[i];
      if Showable(e) {
        var m := CheckAndAddMarker(e, discoveries, uid);
        markers := markers + [m];
      }
    }
    assert snapshot[..|snapshot|] == snapshot;
  }

  // ---------------------------------------------------------------------------
  // The screen
  // ---------------------------------------------------------------------------

  class TreasureHuntActivity {
    const db: Database
    const uid: string

    constructor (db: Database, uid: string)
      ensures this.db == db && this.uid == uid
    {
      this.db := db;
      this.uid := uid;
    }

    /** The loop of the userstats listener in `handleDiscovery`: each of the user's rows gains `pts`. */
    method CreditUserPoints(pts: int)
      modifies db
      ensures db.State() == old(db.State()).(userstats := Credit(old(db.userstats), uid, pts))
    {
      ghost var before := db.userstats;
      var i := 0;
      while i < |db.userstats|
        invariant 0 <= i <= |db.userstats| == |before|
        invariant forall k :: 0 <= k < i ==> db.userstats[k] == Credit(before, uid, pts)[k]
        invariant forall k :: i <= k < |before| ==> db.userstats[k] == before[k]
        invariant db.users == old(db.users) && db.treasures == old(db.treasures)
        invariant db.discoveries == old(db.discoveries) && db.savedTreasures == old(db.savedTreasures)
      {
        var child := db.userstats[i];
        if child.userid == Some(uid) {
          var newPoints := child.points.GetOr(0) + pts;
          db.userstats := db.userstats[i := child.(points := Some(newPoints))];
        }
        i := i + 1;
      }
    }

    /** `handleDiscovery`. */
    method HandleDiscovery(info: TreasureInfo, discoveryKey: Option<string>, time: int) returns (pointsEarned: int)
      modifies db
      ensures pointsEarned == PointsFor(info.totalDiscoveries)
      ensures db.State() == Discover(old(db.State()), uid, info, discoveryKey, time)
    {
      if info.totalDiscoveries < FIRST_FINDERS {
        pointsEarned := FIRST_FINDER_POINTS;
      } else {
        pointsEarned := 0;
      }
      if discoveryKey.Some? {
        db.discoveries := db.discoveries + [DiscoveryRow(Some(uid), Some(info.treasureId), Some(time), Some(pointsEarned))];
      }
      db.treasures := db.treasures[info.treasureId :=
        StoredTreasure(db.treasures, info.treasureId).(totalDiscoveries := Some(info.totalDiscoveries + 1))];
      CreditUserPoints(pointsEarned);
    }

    /** `handleMarkerClick` followed by `checkProximityAndDiscover`. */
    method HandleMarkerClick(info: TreasureInfo, fix: LocationFix, discoveryKey: Option<string>, time: int)
      returns (outcome: ClickOutcome)
      modifies db
      ensures (outcome, db.State()) == Click(old(db.State()), uid, info, fix, discoveryKey, time)
    {
      if info.createdByUserId == Some(uid) {
        return OwnTreasure;
      }
      var alreadyDiscovered, discoveryTime, pointsEarned := FindDiscovery(db.discoveries, uid, info.treasureId);
      if alreadyDiscovered {
        return Revisit(discoveryTime, pointsEarned);
      }
      match fix
      case NoFix =>
        outcome := NoLocation;
      case Fix(dist) =>
        if dist <= DISCOVERY_RADIUS_METERS {
          var pts := HandleDiscovery(info, discoveryKey, time);
          outcome := FirstDiscovery(pts);
        } else {
          outcome := MoveCloser;
        }
    }

    /** `toggleBookmark` followed by `saveTreasureToBookmarks` when nothing was found. */
    method ToggleBookmark(info: TreasureInfo, bookmarkKey: Option<string>) returns (bookmarked: bool)
      modifies db
      ensures db.State() == old(db.State()).(savedTreasures := Toggled(old(db.savedTreasures), uid, info.treasureId, bookmarkKey))
      ensures bookmarked <==> FirstIndexOfKey(old(db.savedTreasures), BookmarkKey, (Some(uid), Some(info.treasureId))).None?
    {
      var found := FindBookmark(db.savedTreasures, uid, info.treasureId);
      if found.Some? {
        db.savedTreasures := db.savedTreasures[..found.value] + db.savedTreasures[found.value + 1..];
        bookmarked := false;
      } else {
        if bookmarkKey.Some? {
          db.savedTreasures := db.savedTreasures + [BookmarkRow(Some(uid), Some(info.treasureId))];
        }
        bookmarked := true;
      }
    }

    /** `handleSaveTreasureWithImage` through `saveTreasureToRealtimeDB`. */
    method HandleSaveTreasureWithImage(
      titleText: string, descText: string, location: Option<Location>,
      imageSelected: bool, uploadedUrl: Option<string>, treasureKey: Option<string>, saveSucceeds: bool, time: int)
      returns (outcome: CreateOutcome)
      modifies db
      ensures (outcome, db.State()) ==
                CreateTreasure(old(db.State()), uid, titleText, descText, location, imageSelected, uploadedUrl, treasureKey, saveSucceeds, time)
    {
      var title := Trim(titleText);
      var desc := Trim(descText);
      if title == [] || desc == [] {
        return FillAllFields;
      }
      if location.None? {
        return UnableToGetLocation;
      }
      var imageUrl: Option<string> := None;
      if imageSelected {
        if uploadedUrl.None? {
          return UploadFailed;
        }
        imageUrl := uploadedUrl;
      }
      if treasureKey.None? {
        return CreateError;
      }
      if !saveSucceeds {
        return SaveError;
      }
      var treasure := CreateTreasureMap(title, desc, location.value, uid, time, imageUrl);
      db.treasures := db.treasures[treasureKey.value := treasure];
      outcome := Created(treasureKey.value);
    }
  }
}
