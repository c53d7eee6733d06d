/**
 * The realtime database as the screens see it: five tables held in memory.
 *
 * `users` and `treasures` are keyed by user id and treasure id.  The three
 * tables whose children are created with push keys (`userstats`,
 * `discoveries`, `savedTreasures`) are sequences in key order, which is also
 * creation order and the order in which a query returns them; their keys
 * themselves are not kept.
 */
module Store {
  import opened Records

  datatype Tables = Tables(
    users: map<string, UserProfile>,
    userstats: seq<StatRow>,
    treasures: map<string, TreasureRow>,
    discoveries: seq<DiscoveryRow>,
    savedTreasures: seq<BookmarkRow>)

  /** The one database every screen reads and writes. */
  class Database {
    var users: map<string, UserProfile>
    var userstats: seq<StatRow>
    var treasures: map<string, TreasureRow>
    var discoveries: seq<DiscoveryRow>
    var savedTreasures: seq<BookmarkRow>

    constructor (t: Tables)
      ensures State() == t
    {
      users := t.users;
      userstats := t.userstats;
      treasures := t.treasures;
      discoveries := t.discoveries;
      savedTreasures := t.savedTreasures;
    }

    /** The contents of all five tables. */
    function State(): Tables
      reads this
    {
      Tables(users, userstats, treasures, discoveries, savedTreasures)
    }
  }
}
