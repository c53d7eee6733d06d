/**
 * Value shapes shared by the screens: the rows of the realtime-database tables
 * (`userstats`, `users`, `treasures`, `discoveries`, `savedTreasures`), the
 * leaderboard entry, and two small string rules every screen uses: Java's
 * `String.trim()` and the "first last" display-name rule.
 *
 * Every field the app reads with `getValue(...)` may be missing in the store,
 * so such fields are `Option`s; a missing value is `None` (Java's `null`).
 */
module Records {

  datatype Option<+T> = None | Some(value: T) {
    function GetOr(default: T): T {
      match this
      case Some(v) => v
      case None => default
    }
  }

  /** One child of `userstats`: the owner's id and the point total. */
  datatype StatRow = StatRow(userid: Option<string>, points: Option<int>)

  /** One child of `users/<uid>`. */
  datatype UserProfile = UserProfile(
    firstname: Option<string>,
    lastname: Option<string>,
    email: Option<string>,
    profileImageUrl: Option<string>)

  const NoProfile := UserProfile(None, None, None, None)

  /** `users.child(uid)`: a user without a node reads as all-null fields. */
  function ProfileOf(users: map<string, UserProfile>, uid: string): UserProfile {
    if uid in users then users[uid] else NoProfile
  }

  /** The record shape of a ranked entry (`LeaderboardItem`). */
  datatype LeaderboardItem = LeaderboardItem(
    userId: string,
    username: string,
    points: int,
    rank: int,
    profileImageUrl: Option<string>)

  /** One child of `discoveries`. */
  datatype DiscoveryRow = DiscoveryRow(
    userId: Option<string>,
    treasureId: Option<string>,
    discoveryTime: Option<int>,
    pointsEarned: Option<int>)

  /** One child of `savedTreasures` (a bookmark). */
  datatype BookmarkRow = BookmarkRow(userId: Option<string>, treasureId: Option<string>)

  /** One child of `treasures`. The formatted "location" string is not modelled. */
  datatype TreasureRow = TreasureRow(
    title: Option<string>,
    description: Option<string>,
    latitude: Option<real>,
    longitude: Option<real>,
    createdByUserId: Option<string>,
    timestamp: Option<int>,
    totalDiscoveries: Option<int>,
    imageUrl: Option<string>)

  const EmptyTreasureRow := TreasureRow(None, None, None, None, None, None, None, None)

  /** A device position. */
  datatype Location = Location(latitude: real, longitude: real)

  // ---------------------------------------------------------------------------
  // Java's String.trim(): strips every leading and trailing char <= U+0020.
  // ---------------------------------------------------------------------------

  predicate IsTrimmed(c: char) {
    c <= ' '
  }

  function TrimLeading(s: string): string {
    if s != [] && IsTrimmed(s[0]) then TrimLeading(s[1..]) else s
  }

  function TrimTrailing(s: string): string {
    if s != [] && IsTrimmed(s[|s| - 1]) then TrimTrailing(s[..|s| - 1]) else s
  }

  /** Cutting from the front leaves a suffix; every char cut is <= U+0020, the first one kept is not. */
  lemma {:induction false} TrimLeadingFacts(s: string)
    ensures |TrimLeading(s)| <= |s| && TrimLeading(s) == s[|s| - |TrimLeading(s)|..]
    ensures forall k :: 0 <= k < |s| - |TrimLeading(s)| ==> IsTrimmed(s[k])
    ensures TrimLeading(s) != [] ==> !IsTrimmed(TrimLeading(s)[0])
  {
    if s != [] && IsTrimmed(s[0]) {
      TrimLeadingFacts(s[1..]);
      var r := TrimLeading(s[1..]);
      assert TrimLeading(s) == r;
      forall k | 0 <= k < |s| - |r|
        ensures IsTrimmed(s[k])
      {
        if k > 0 {
          assert s[k] == s[1..][k - 1];
        }
      }
    }
  }

  /** Cutting from the back leaves a prefix; every char cut is <= U+0020, the last one kept is not. */
  lemma {:induction false} TrimTrailingFacts(s: string)
    ensures |TrimTrailing(s)| <= |s| && TrimTrailing(s) == s[..|TrimTrailing(s)|]
    ensures forall k :: |TrimTrailing(s)| <= k < |s| ==> IsTrimmed(s[k])
    ensures TrimTrailing(s) != [] ==> !IsTrimmed(TrimTrailing(s)[|TrimTrailing(s)| - 1])
  {
    if s != [] && IsTrimmed(s[|s| - 1]) {
      var p := s[..|s| - 1];
      TrimTrailingFacts(p);
      var r := TrimTrailing(p);
      assert TrimTrailing(s) == r;
      forall k | |r| <= k < |s|
        ensures IsTrimmed(s[k])
      {
        if k < |s| - 1 {
          assert s[k] == p[k];
        }
      }
    }
  }

  /** `s.trim()`. */
  function Trim(s: string): string {
    TrimTrailing(TrimLeading(s))
  }

  /** The trimmed string is the slice of s left after cutting chars <= U+0020 from both ends, and no more. */
  lemma TrimFacts(s: string)
    ensures exists i, j ::
              && 0 <= i <= j <= |s| && Trim(s) == s[i..j]
              && (forall k :: 0 <= k < i ==> IsTrimmed(s[k]))
              && (forall k :: j <= k < |s| ==> IsTrimmed(s[k]))
    ensures Trim(s) != [] ==> !IsTrimmed(Trim(s)[0]) && !IsTrimmed(Trim(s)[|Trim(s)| - 1])
  {
    var lead := TrimLeading(s);
    var r := TrimTrailing(lead);
    TrimLeadingFacts(s);
    TrimTrailingFacts(lead);
    var i := |s| - |lead|;
    var j := i + |r|;
    assert r == s[i..j];
    forall k | j <= k < |s|
      ensures IsTrimmed(s[k])
    {
      assert s[k] == lead[k - i];
    }
    if r != [] {
      assert r[0] == lead[0];
    }
  }

  /** A field is blank after trimming exactly when every char of it is <= U+0020. */
  lemma {:induction false} TrimEmptyIff(s: string)
    ensures Trim(s) == [] <==> forall k :: 0 <= k < |s| ==> IsTrimmed(s[k])
  {
    var lead := TrimLeading(s);
    TrimLeadingFacts(s);
    TrimTrailingFacts(lead);
    if !forall k :: 0 <= k < |s| ==> IsTrimmed(s[k]) {
      var k :| 0 <= k < |s| && !IsTrimmed(s[k]);
      assert k >= |s| - |lead|;
      assert lead != [];
    }
  }

  /** Trimming twice is trimming once. */
  lemma TrimIdempotent(s: string)
    ensures Trim(Trim(s)) == Trim(s)
  {
    var t := Trim(s);
    TrimFacts(s);
    if t != [] {
      assert TrimLeading(t) == t;
      assert TrimTrailing(t) == t;
    }
  }

  // ---------------------------------------------------------------------------
  // Display name used by the profile pop-up and by the leaderboard rows.
  // ---------------------------------------------------------------------------

  /** "first last" when both names are present, "first" when only the first is, else "User". */
  function DisplayName(first: Option<string>, last: Option<string>): (r: string)
    ensures first.Some? && last.Some? ==> r == first.value + " " + last.value
    ensures first.Some? && last.None? ==> r == first.value
    ensures first.None? ==> r == "User"
  {
    if first.Some? && last.Some? then first.value + " " + last.value
    else if first.Some? then first.value
    else "User"
  }

  /** When a first name is present the shown name begins with it; the last name alone is never shown. */
  lemma DisplayNameStartsWithFirst(first: Option<string>, last: Option<string>)
    ensures first.Some? ==> first.value <= DisplayName(first, last)
    ensures first.None? ==> DisplayName(first, last) == DisplayName(None, None)
  {
  }
}
