# StoryStroll: a verified model of its game logic

StoryStroll is an Android treasure-hunt app backed by a realtime database.
Users hide treasures at map locations. Other users discover them by walking
within 20 m. The first three finders of a treasure earn 10 points each, and
users compete on a leaderboard. Almost all of the app is UI and database
plumbing. This project models the sequential logic scattered through its
screens, and proves what that logic promises:

- **Leaderboard** (`LeaderboardActivity`):
  - collecting `(userid, points)` rows from a `userstats` snapshot;
  - reversing the id order and building one entry per id;
  - removing duplicate users;
  - the in-place descending sort;
  - the `prevPoints`/`rank` loop that assigns standard competition ranks ("1224");
  - the lookup of the signed-in user's entry.
- **Profile pop-up** (`BaseActivity.showProfilePopup`):
  - the user's points;
  - a second, independent rank walk with an early exit;
  - the discovery counter;
  - the display-name rule.
- **Map screen** (`TreasureHuntActivity`):
  - the marker-click state machine per (user, treasure): own treasure, revisit, no location, move closer, first discovery;
  - the points policy and the writes a discovery makes;
  - the marker-icon choice and the row filter of the treasure snapshot;
  - the bookmark toggle;
  - treasure creation.
- **Leaderboard adapter** (`LeaderboardAdapter`):
  - the `isLoading` flag, the item count and the loading row;
  - the notifications `showLoading` sends;
  - the current-user highlight.
- **Sign-up** (`SignUpActivity`):
  - the ordered field checks;
  - the 5 MiB profile-image limit;
  - the profile and the 0-point stats row written for a new account.

Modules (one file each):

- `Records` (`records.dfy`):
  - the row shapes of the five tables, where every field the app reads from the store is an `Option`;
  - the `LeaderboardItem` record;
  - Java's `String.trim()`;
  - the display-name rule.
- `Ranking` (`ranking.dfy`): the stable descending sort, and `CountAbove`, the reference definition of a competition rank. Both ranking screens share it.
- `LeaderboardAdapters` (`leaderboard_adapter.dfy`): the shared `ItemList` object and the adapter class. The adapter's calls into the list widget are recorded in a `notifications` log.
- `Leaderboard` (`leaderboard.dfy`): the specification functions of the pipeline, the loop methods proved against them, and the `LeaderboardActivity` class.
- `Profile` (`profile.dfy`): the pop-up's counters and rank, and the agreement of its rank with the leaderboard's.
- `Store` (`store.dfy`): the realtime database as a class `Database` with five tables. `users` and `treasures` are maps. The push-keyed tables are sequences in key order.
- `TreasureHunt` (`treasure_hunt.dfy`): the map screen's rules as functions on table states, the scans as loop methods, and the `TreasureHuntActivity` class whose methods update the `Database`.
- `SignUp` (`sign_up.dfy`): the validation chain, the image limit, the account writes, and the `SignUpActivity` class.

Each state-changing method is specified against a function of the old state. For example, `HandleMarkerClick` ensures `(outcome, db.State()) == Click(old(db.State()), ...)`. The lemmas then state what the source promises about those functions.

Inputs from outside the program are parameters:

- snapshots, in the order the store returns them;
- the distance to the marker, or the absence of a location fix;
- timestamps;
- the e-mail format test;
- the result of the authentication call;
- whether an upload or a save succeeds (`saveSucceeds` for the sign-up profile write and for the treasure write), and the URL the upload returns;
- the push keys the store issues (`None` when it issues none).

## Model

| member | source | states |
|---|---|---|
| Records.TrimFacts | app/src/main/java/edu/northeastern/numad25su_group6/activities/SignUpActivity.java:241-245 | the result is a slice of the input; every character cut before and after it is at most U+0020; a non-empty result starts and ends above U+0020 |
| Records.TrimEmptyIff | app/src/main/java/edu/northeastern/numad25su_group6/activities/SignUpActivity.java:248-249 | a field trims to empty exactly when every character of it is at most U+0020 |
| Records.TrimIdempotent | app/src/main/java/edu/northeastern/numad25su_group6/activities/TreasureHuntActivity.java:367-368 | trimming an already trimmed field changes nothing |
| Records.DisplayName | app/src/main/java/edu/northeastern/numad25su_group6/activities/BaseActivity.java:133-139 | "first last" when both names are present, "first" when only the first is, "User" when the first name is missing |
| Records.DisplayNameStartsWithFirst | app/src/main/java/edu/northeastern/numad25su_group6/activities/LeaderboardActivity.java:105-108 | a present first name is a prefix of the shown name; without a first name the last name is never shown |
| Ranking.SortFacts | app/src/main/java/edu/northeastern/numad25su_group6/activities/LeaderboardActivity.java:152 | the descending sort keeps the length and is a permutation (same multiset), and its output is ordered by non-increasing key |
| Ranking.SortStable | app/src/main/java/edu/northeastern/numad25su_group6/activities/LeaderboardActivity.java:152 | for every key value, the entries with that key leave the sort in their input order (List.sort is stable) |
| Ranking.CountAbovePerm | app/src/main/java/edu/northeastern/numad25su_group6/activities/BaseActivity.java:177-185 | the number of entries strictly above a value depends only on the multiset of entries, not their order |
| Ranking.CountAboveIsGroupStart | app/src/main/java/edu/northeastern/numad25su_group6/activities/LeaderboardActivity.java:157-165 | in a descending list, the count of entries strictly above position i's key is the index of the first entry of i's tie group: that entry has i's key and the one before it is strictly greater |
| Ranking.GroupStartRank | app/src/main/java/edu/northeastern/numad25su_group6/activities/LeaderboardActivity.java:160-163 | where the key changes along a descending list (the loop's `rank = i + 1` branch), the count of entries above is exactly i |
| Ranking.RankStep | app/src/main/java/edu/northeastern/numad25su_group6/activities/LeaderboardActivity.java:157-165 | one step of the `prevPoints`/`rank` loop on a descending list writes the competition rank of index i, including index 0 whose points may equal the initial `prevPoints` of -1 |
| Ranking.CompetitionRankFacts | app/src/main/java/edu/northeastern/numad25su_group6/activities/LeaderboardActivity.java:154-166 | on a descending list, the first rank is 1; ranks never decrease; the rank at index i is at most i+1; equal keys share a rank |
| LeaderboardAdapters.ItemList.constructor | app/src/main/java/edu/northeastern/numad25su_group6/activities/LeaderboardActivity.java:42 | the leaderboard list starts empty |
| LeaderboardAdapters.LoadingRowIsLast | app/src/main/java/edu/northeastern/numad25su_group6/adapters/LeaderboardAdapter.java:61-71 | the count is the entry count plus one while loading; a position in range is the loading row exactly when loading and it is the last position |
| LeaderboardAdapters.InsertedPositionAsWrittenIsPastEnd | app/src/main/java/edu/northeastern/numad25su_group6/adapters/LeaderboardAdapter.java:52-54 | the position `showLoading(true)` announces is the new row count, which is not the index of the loading row that was added |
| LeaderboardAdapters.InsertedPositionCorrectedIsLoadingRow | app/src/main/java/edu/northeastern/numad25su_group6/adapters/LeaderboardAdapter.java:52-54 | announcing count - 1 names a position in range that is the loading row |
| LeaderboardAdapters.RemovedPositionIsOldLoadingRow | app/src/main/java/edu/northeastern/numad25su_group6/adapters/LeaderboardAdapter.java:55-57 | the position `showLoading(false)` announces is where the loading row was before the flag was cleared |
| LeaderboardAdapters.LeaderboardAdapter.constructor | app/src/main/java/edu/northeastern/numad25su_group6/adapters/LeaderboardAdapter.java:38-41 | the adapter shows the given list for the given user, not loading, with no notification sent |
| LeaderboardAdapters.LeaderboardAdapter.ShowLoadingAsWritten | app/src/main/java/edu/northeastern/numad25su_group6/adapters/LeaderboardAdapter.java:48-58 | afterwards the flag equals `show`; with no change, nothing is sent; otherwise one insertion at the new count (show) or one removal at the new count (hide) is sent |
| LeaderboardAdapters.LeaderboardAdapter.ShowLoading | app/src/main/java/edu/northeastern/numad25su_group6/adapters/LeaderboardAdapter.java:48-58 | the same, except that showing announces the loading row's own position, size |
| LeaderboardAdapters.LeaderboardAdapter.NotifyDataSetChanged | app/src/main/java/edu/northeastern/numad25su_group6/activities/LeaderboardActivity.java:126 | one "data set changed" notification is sent; the flag is unchanged |
| LeaderboardAdapters.LeaderboardAdapter.BindRow | app/src/main/java/edu/northeastern/numad25su_group6/adapters/LeaderboardAdapter.java:88-101 | a row is bound exactly when it is an entry row. It then shows that entry's rank, name and points, and it is highlighted exactly when the entry's userId equals the adapter's user |
| Leaderboard.CollectedIdsMembers | app/src/main/java/edu/northeastern/numad25su_group6/activities/LeaderboardActivity.java:86-94 | an id is collected exactly when some row carries it (rows with a null id are skipped), and exactly the collected ids have an entry in the points map |
| Leaderboard.PointsMapIsLastRead | app/src/main/java/edu/northeastern/numad25su_group6/activities/LeaderboardActivity.java:88-92 | an id's points are those of the last row carrying it, 0 when that row's points are missing |
| Leaderboard.CollectedIdsAllPresent | app/src/main/java/edu/northeastern/numad25su_group6/activities/LeaderboardActivity.java:86-94 | when every row has an id, the collected ids are the rows' ids in row order |
| Leaderboard.CollectStats | app/src/main/java/edu/northeastern/numad25su_group6/activities/LeaderboardActivity.java:81-94 | the collecting loop yields the reference id list and points map |
| Leaderboard.Reverse | app/src/main/java/edu/northeastern/numad25su_group6/activities/LeaderboardActivity.java:96-97 | the reversal has the same length, and position i holds the element at position length-1-i |
| Leaderboard.ReverseMultiset | app/src/main/java/edu/northeastern/numad25su_group6/activities/LeaderboardActivity.java:97 | reversing keeps the same elements |
| Leaderboard.BuildItems | app/src/main/java/edu/northeastern/numad25su_group6/activities/LeaderboardActivity.java:104-113 | one entry per id, in id order, carrying the id, its mapped points, rank -1, and the name and image URL of its profile |
| Leaderboard.DedupFacts | app/src/main/java/edu/northeastern/numad25su_group6/activities/LeaderboardActivity.java:115-117 | after removing duplicates, ids are unique; the set of ids is unchanged; each kept entry is the first occurrence of its id; kept entries appear in their first-occurrence order |
| Leaderboard.DedupOfUnique | app/src/main/java/edu/northeastern/numad25su_group6/activities/LeaderboardActivity.java:115-117 | a list without duplicate ids is left as it is |
| Leaderboard.RemoveDuplicates | app/src/main/java/edu/northeastern/numad25su_group6/activities/LeaderboardActivity.java:116-117 | the loop with a `seen` set keeps exactly the reference de-duplication |
| Leaderboard.AssignRanksKeepsEntries | app/src/main/java/edu/northeastern/numad25su_group6/activities/LeaderboardActivity.java:152-166 | ranking keeps the length and orders by non-increasing points; apart from the rank fields the result is a permutation of the input |
| Leaderboard.AssignRanksIsCompetitionRanking | app/src/main/java/edu/northeastern/numad25su_group6/activities/LeaderboardActivity.java:154-166 | every rank is 1 + the number of entries with strictly more points, counted over the input and over the result alike. The first rank is 1, ranks never decrease, the rank at index i is at most i+1, and equal points share a rank |
| Leaderboard.AssignRanksIsStable | app/src/main/java/edu/northeastern/numad25su_group6/activities/LeaderboardActivity.java:151-152 | users tied on points keep their relative order from before the sort |
| Leaderboard.TempListIds | app/src/main/java/edu/northeastern/numad25su_group6/activities/LeaderboardActivity.java:104-113 | the built entries carry exactly the ids that some stats row carries |
| Leaderboard.LeaderboardEntryFromTemp | app/src/main/java/edu/northeastern/numad25su_group6/activities/LeaderboardActivity.java:115-122 | every final entry is a built entry with only its rank replaced |
| Leaderboard.LeaderboardIds | app/src/main/java/edu/northeastern/numad25su_group6/activities/LeaderboardActivity.java:80-122 | the final leaderboard has each user at most once, and it holds a user exactly when some stats row carries that user's id |
| Leaderboard.LeaderboardEntryValues | app/src/main/java/edu/northeastern/numad25su_group6/activities/LeaderboardActivity.java:104-112 | each final entry's points are the last value read for its id, and its name and image URL come from that user's profile |
| Leaderboard.CurrentUserEntry | app/src/main/java/edu/northeastern/numad25su_group6/activities/LeaderboardActivity.java:179-185 | nothing is found exactly when no entry has the user's id; otherwise the result is the first entry with that id |
| Leaderboard.FindCurrentUser | app/src/main/java/edu/northeastern/numad25su_group6/activities/LeaderboardActivity.java:176-185 | the loop with `break` returns the reference lookup |
| Leaderboard.HighlightIsCurrentUserEntry | app/src/main/java/edu/northeastern/numad25su_group6/adapters/LeaderboardAdapter.java:97-101 | with unique ids, the adapter highlights exactly the row the screen shows as the current user's |
| Leaderboard.LeaderboardActivity.constructor | app/src/main/java/edu/northeastern/numad25su_group6/activities/LeaderboardActivity.java:56-61 | the screen starts with an empty shared list, an adapter over it for the given user, not loading, and no current-user entry |
| Leaderboard.LeaderboardActivity.FetchFullLeaderboard | app/src/main/java/edu/northeastern/numad25su_group6/activities/LeaderboardActivity.java:71-73 | starting a fetch sets the screen's and the adapter's loading flags |
| Leaderboard.LeaderboardActivity.OnFetchCancelled | app/src/main/java/edu/northeastern/numad25su_group6/activities/LeaderboardActivity.java:133-143 | a cancelled query clears only the screen's loading flag |
| Leaderboard.LeaderboardActivity.AssignRanksToLeaderboard | app/src/main/java/edu/northeastern/numad25su_group6/activities/LeaderboardActivity.java:151-167 | the sort plus the `prevPoints`/`rank` loop leave the list equal to the competition ranking of the sorted old list |
| Leaderboard.LeaderboardActivity.SetCurrentUserItemFromList | app/src/main/java/edu/northeastern/numad25su_group6/activities/LeaderboardActivity.java:173-215 | the shown current-user entry is the first list entry with the user's id, or none |
| Leaderboard.LeaderboardActivity.OnLeaderboardSnapshots | app/src/main/java/edu/northeastern/numad25su_group6/activities/LeaderboardActivity.java:79-131 | the list becomes the full pipeline's leaderboard of the two snapshots; both loading flags are cleared; the adapter counts exactly the entries; the current-user entry is looked up in the new list |
| Profile.CurrentPointsFacts | app/src/main/java/edu/northeastern/numad25su_group6/activities/BaseActivity.java:165-175 | the user's points are those of the first row with their id (0 when that row's points are missing), and 0 when no row has the id |
| Profile.CurrentUserPoints | app/src/main/java/edu/northeastern/numad25su_group6/activities/BaseActivity.java:165-175 | the loop with `break` computes those points |
| Profile.PresentPointsMembers | app/src/main/java/edu/northeastern/numad25su_group6/activities/BaseActivity.java:177-183 | a value is in the ranking list exactly when some row has those points; rows with null points are left out |
| Profile.PresentPointsAll | app/src/main/java/edu/northeastern/numad25su_group6/activities/BaseActivity.java:177-183 | when every row has points, the ranking list is every row's points, in row order |
| Profile.CollectAllPoints | app/src/main/java/edu/northeastern/numad25su_group6/activities/BaseActivity.java:177-183 | the collecting loop yields that list |
| Profile.RankWalk | app/src/main/java/edu/northeastern/numad25su_group6/activities/BaseActivity.java:186-197 | on a descending list, the `prevPoints`/`rank` walk that stops at the user's points returns the reference walk rank |
| Profile.WalkRankFacts | app/src/main/java/edu/northeastern/numad25su_group6/activities/BaseActivity.java:186-197 | the walk rank is 1 + the count of strictly greater values when the user's points occur; 1 on an empty list; otherwise the 1-based start of the last group of equal values |
| Profile.ComputeRanking | app/src/main/java/edu/northeastern/numad25su_group6/activities/BaseActivity.java:164-198 | the pop-up reports the reference points and the walk rank over the sorted points list |
| Profile.DiscoveryCountOf | app/src/main/java/edu/northeastern/numad25su_group6/activities/BaseActivity.java:214-221 | the count is at most the number of rows, and it is 0 exactly when no row has the user's id |
| Profile.DiscoveryCountAppend | app/src/main/java/edu/northeastern/numad25su_group6/activities/BaseActivity.java:214-220 | one more row adds one to the count exactly when it is the user's |
| Profile.CountTreasuresDiscovered | app/src/main/java/edu/northeastern/numad25su_group6/activities/BaseActivity.java:213-221 | the counting loop yields the reference count |
| Profile.ShowProfilePopup | app/src/main/java/edu/northeastern/numad25su_group6/activities/BaseActivity.java:119-228 | the pop-up shows the display name of the user's profile, their points, their rank and their discovery count |
| Profile.TempListOfDistinct | app/src/main/java/edu/northeastern/numad25su_group6/activities/LeaderboardActivity.java:86-113 | with complete rows and distinct users, one entry is built per row, in reversed row order, each with its row's points, and ids are unique |
| Profile.LeaderboardRankIsCountAbove | app/src/main/java/edu/northeastern/numad25su_group6/activities/LeaderboardActivity.java:151-185 | with complete rows and distinct users, a user with a row is on the leaderboard, ranked 1 + the number of rows with strictly more points |
| Profile.ProfileRankIsCountAbove | app/src/main/java/edu/northeastern/numad25su_group6/activities/BaseActivity.java:165-197 | when every row has points, the pop-up's rank of a user with a row is 1 + the number of rows with strictly more points |
| Profile.ProfileRankAgreesWithLeaderboard | app/src/main/java/edu/northeastern/numad25su_group6/activities/BaseActivity.java:177-197 | for two snapshots holding the same complete rows of distinct users, in any order, the pop-up's rank equals the leaderboard rank of the user's entry |
| Profile.IdlessRowSplitsTheRanks | app/src/main/java/edu/northeastern/numad25su_group6/activities/BaseActivity.java:177-193 | why the agreement needs every row to carry an id: with rows (no id, 100) and (u, 50), distinct and not complete, the pop-up ranks u 2nd, counting the id-less row, while the leaderboard, which skips it (LeaderboardActivity.java:90), ranks u 1st |
| TreasureHunt.PointsFor | app/src/main/java/edu/northeastern/numad25su_group6/activities/TreasureHuntActivity.java:679-684 | 10 points exactly when fewer than 3 discoveries were made before, 0 exactly otherwise |
| TreasureHunt.Credit | app/src/main/java/edu/northeastern/numad25su_group6/activities/TreasureHuntActivity.java:700-708 | adding points keeps every stats row in place with its owner |
| TreasureHunt.CreatorBypass | app/src/main/java/edu/northeastern/numad25su_group6/activities/TreasureHuntActivity.java:602-603 | a click by the treasure's creator shows their own treasure and changes nothing |
| TreasureHunt.DiscoveryCondition | app/src/main/java/edu/northeastern/numad25su_group6/activities/TreasureHuntActivity.java:602-666 | a click discovers exactly when the user is not the creator, has no discovery record for the treasure, and has a location fix within 20 m inclusive. The points earned are the policy's; any other outcome leaves every table unchanged |
| TreasureHunt.RevisitShowsFirstRecord | app/src/main/java/edu/northeastern/numad25su_group6/activities/TreasureHuntActivity.java:613-631 | when a record exists, the click is a revisit showing the first matching record's time and points (each 0 when missing), and nothing changes |
| TreasureHunt.DiscoveryEffects | app/src/main/java/edu/northeastern/numad25su_group6/activities/TreasureHuntActivity.java:676-708 | a discovery appends one record (user, treasure, time, points) when the store issues a key and the counter becomes the marker's value + 1. Every stats row of the user gains the points (missing points count as 0), and all other rows and tables are unchanged |
| TreasureHunt.DiscoveryAddsOneRecord | app/src/main/java/edu/northeastern/numad25su_group6/activities/TreasureHuntActivity.java:685-692 | a discovery adds exactly one record for the (user, treasure) pair, so afterwards the user has discovered it |
| TreasureHunt.SecondClickIsRevisit | app/src/main/java/edu/northeastern/numad25su_group6/activities/TreasureHuntActivity.java:594-634 | after a first discovery, the next click by that user on that treasure is a revisit with the recorded time and points, whatever the location, and changes nothing |
| TreasureHunt.ClickKeepsAtMostOneDiscovery | app/src/main/java/edu/northeastern/numad25su_group6/activities/TreasureHuntActivity.java:602-692 | if no (user, treasure) pair has two discovery records, a click keeps it so |
| TreasureHunt.CreditRaisesProfilePoints | app/src/main/java/edu/northeastern/numad25su_group6/activities/TreasureHuntActivity.java:700-708 | the points the pop-up shows rise by the credited points exactly when the user has a stats row, and other users' points are unchanged |
| TreasureHunt.DiscoveryRaisesProfileCount | app/src/main/java/edu/northeastern/numad25su_group6/activities/TreasureHuntActivity.java:685-692 | a recorded discovery raises the pop-up's discovery count of the user by one and no one else's |
| TreasureHunt.IconFor | app/src/main/java/edu/northeastern/numad25su_group6/activities/TreasureHuntActivity.java:562-569 | the icon is "discovered" exactly when discovered (even for the creator), "silver" exactly for an undiscovered own treasure, "gold" exactly otherwise |
| TreasureHunt.ShownMarkersMembers | app/src/main/java/edu/northeastern/numad25su_group6/activities/TreasureHuntActivity.java:494-509 | every marker comes from a snapshot entry with latitude, longitude, title and key present, and every such entry gets its marker |
| TreasureHunt.DiscoveredIconAfterDiscovery | app/src/main/java/edu/northeastern/numad25su_group6/activities/TreasureHuntActivity.java:553-569 | once a discovery is recorded, the treasure's marker is drawn with the "discovered" icon |
| TreasureHunt.ToggleCounts | app/src/main/java/edu/northeastern/numad25su_group6/activities/TreasureHuntActivity.java:937-956 | a toggle removes one bookmark of the pair when there is one, or else adds exactly one (when a key is issued); other pairs' bookmarks are untouched |
| TreasureHunt.ToggleTwiceRestores | app/src/main/java/edu/northeastern/numad25su_group6/activities/TreasureHuntActivity.java:937-956 | starting from at most one bookmark for the pair, toggling twice restores the original count |
| TreasureHunt.CreateRejectsBlank | app/src/main/java/edu/northeastern/numad25su_group6/activities/TreasureHuntActivity.java:366-445 | creation is refused with "fill all fields" exactly when the title or the description is blank; a treasure is created exactly when both trimmed fields are non-empty, a location is known, a selected image uploaded, a key was issued and the write succeeded; a refused or failed creation (including a failed write, "Error adding treasure") writes nothing |
| TreasureHunt.CreatedTreasureIsShown | app/src/main/java/edu/northeastern/numad25su_group6/activities/TreasureHuntActivity.java:420-469 | a created treasure is stored under its new key with the trimmed title and description, its creator and 0 discoveries. It passes the marker filter and is drawn silver for its creator and gold for others |
| TreasureHunt.FindDiscovery | app/src/main/java/edu/northeastern/numad25su_group6/activities/TreasureHuntActivity.java:609-627 | the scan with `break` finds a record exactly when one exists, and returns the first one's time and points (0 when missing, and 0 when none is found) |
| TreasureHunt.FindBookmark | app/src/main/java/edu/northeastern/numad25su_group6/activities/TreasureHuntActivity.java:935-944 | the scan with `break` returns the first bookmark of the pair, or none |
| TreasureHunt.CheckAndAddMarker | app/src/main/java/edu/northeastern/numad25su_group6/activities/TreasureHuntActivity.java:546-580 | the marker is the reference marker of the entry, and its icon is "discovered" exactly when the user has a discovery record for it |
| TreasureHunt.LoadMarkers | app/src/main/java/edu/northeastern/numad25su_group6/activities/TreasureHuntActivity.java:485-511 | the loop over the snapshot yields the reference list of shown markers |
| TreasureHunt.TreasureHuntActivity.CreditUserPoints | app/src/main/java/edu/northeastern/numad25su_group6/activities/TreasureHuntActivity.java:697-708 | only the stats table changes, and it becomes the credited table |
| TreasureHunt.TreasureHuntActivity.HandleDiscovery | app/src/main/java/edu/northeastern/numad25su_group6/activities/TreasureHuntActivity.java:676-722 | returns the policy's points and leaves the database in the reference discovery state |
| TreasureHunt.TreasureHuntActivity.HandleMarkerClick | app/src/main/java/edu/northeastern/numad25su_group6/activities/TreasureHuntActivity.java:594-668 | the outcome and the new database are those of the reference click |
| TreasureHunt.TreasureHuntActivity.ToggleBookmark | app/src/main/java/edu/northeastern/numad25su_group6/activities/TreasureHuntActivity.java:929-964 | only the bookmarks table changes, to the reference toggle; the star is on exactly when no bookmark was found |
| TreasureHunt.TreasureHuntActivity.HandleSaveTreasureWithImage | app/src/main/java/edu/northeastern/numad25su_group6/activities/TreasureHuntActivity.java:366-446 | the outcome and the new database are those of the reference creation, including the `SaveError` outcome that stores nothing when the write fails |
| SignUp.ValidateSignUp | app/src/main/java/edu/northeastern/numad25su_group6/activities/SignUpActivity.java:241-260 | "all fields required" exactly when a trimmed field is empty; "invalid e-mail" exactly when none is but the e-mail fails the test; "passwords do not match" exactly when both earlier checks pass and the trimmed passwords differ; otherwise it proceeds with the trimmed fields |
| SignUp.BlankFieldSkipsEmailCheck | app/src/main/java/edu/northeastern/numad25su_group6/activities/SignUpActivity.java:248-252 | with a blank field the verdict is "all fields required" whatever the e-mail test says |
| SignUp.InvalidEmailSkipsPasswordCheck | app/src/main/java/edu/northeastern/numad25su_group6/activities/SignUpActivity.java:253-256 | with a rejected e-mail the verdict is "invalid e-mail" whatever non-blank passwords are typed |
| SignUp.ProceedMeansFilledIn | app/src/main/java/edu/northeastern/numad25su_group6/activities/SignUpActivity.java:248-260 | when sign-up proceeds, every field has a character above U+0020 and the trimmed passwords agree |
| SignUp.AcceptsImage | app/src/main/java/edu/northeastern/numad25su_group6/activities/SignUpActivity.java:179-210 | an image is accepted exactly when its size is unknown (read as 0) or at most 5·1024·1024 bytes |
| SignUp.ImageLimitIsInclusive | app/src/main/java/edu/northeastern/numad25su_group6/activities/SignUpActivity.java:65 | 5242880 bytes are accepted, 5242881 are refused, an unknown size is accepted |
| SignUp.SignUpWrites | app/src/main/java/edu/northeastern/numad25su_group6/activities/SignUpActivity.java:266-353 | nothing is written unless the user signs up. On sign-up the account was created and validation passed; the profile holds the trimmed names and e-mail; one stats row (uid, 0) is appended when a key is issued; no other table changes |
| SignUp.NewUserHasZeroPoints | app/src/main/java/edu/northeastern/numad25su_group6/activities/SignUpActivity.java:346-352 | a new user's points, as the pop-up reads them, are 0 |
| SignUp.NewUserOnLeaderboard | app/src/main/java/edu/northeastern/numad25su_group6/activities/SignUpActivity.java:325-352 | a new user with a stats row appears on the leaderboard with 0 points under the name "first last" |
| SignUp.SignUpActivity.OnActivityResult | app/src/main/java/edu/northeastern/numad25su_group6/activities/SignUpActivity.java:174-191 | a picked image within the limit is selected and its card shown; one over the limit clears the selection and hides the card; any other result changes nothing |
| SignUp.SignUpActivity.AddUserStatsRow | app/src/main/java/edu/northeastern/numad25su_group6/activities/SignUpActivity.java:346-353 | only the stats table changes, gaining the new user's 0-point row when a key is issued |
| SignUp.SignUpActivity.OnSignUpClick | app/src/main/java/edu/northeastern/numad25su_group6/activities/SignUpActivity.java:240-339 | the outcome and the new database are those of the reference sign-up with the selected image |

## Left out

- Remote I/O is not modelled. Authentication, database queries and listeners, and storage uploads are out of scope. Snapshots, the authentication result, upload and save success, and push keys are parameters, and a handler's reads and writes run one after the other. The non-atomic check-then-write of a discovery, with its race between two devices, is not modelled.
- `Location.distanceBetween` is a geodesic computation on floats. The model takes the distance as an input, and only the inclusive 20 m threshold is modelled.
- The marker bounce animation, Glide image loading, dialogs, toasts, permissions, date formatting and navigation are UI.
- `System.currentTimeMillis` is a clock, so timestamps are parameters.
- `Patterns.EMAIL_ADDRESS` is a library regular expression. The model takes it as the parameter `isValidEmail`.
- Points and counters are unbounded integers. Java's 32-bit `int` wrap-around is not modelled.
- Parsing the counter string with `Integer.parseInt` is not modelled: the marker's counter is an integer, read as 0 when missing. The counter written on a discovery is that value + 1, taken from the marker made when the map was loaded, not from the current store.
- Push keys are not stored. The push-keyed tables are sequences in key order. A missing discovery key means no record is written, while the counter and the points still change, as in the source.
- The `location` string that `formatLocationString` stores with a treasure is not modelled.
- In the profile pop-up, the branch without a signed-in user, the points label when no row matches, and the cancelled-query labels are UI.
- Markers are drawn in the snapshot's order. The per-treasure queries behind `checkAndAddMarker` may actually complete in any order.
- Leaderboard.LeaderboardActivity.OnFetchCancelled: a cancelled query leaves the adapter's loading row shown and the list unchanged (cleared when the users query fails), as in the source. This member states only the screen's flag.
- `showTreasureInfoDialog` in `BaseActivity` (the saved-treasures dialog), MainActivity, SignInActivity, MyTreasuresActivity, SavedTreasuresActivity and TreasureListAdapter are lists and routing around the core, and they are not part of this model.
- LeaderboardAdapters.LeaderboardAdapter.ShowLoadingAsWritten is kept only as the as-written half of the finding below. The leaderboard screen uses `ShowLoading`.
- Leaderboard.LeaderboardActivity.FetchFullLeaderboard: calls the corrected `ShowLoading`, so the insertion it announces is at `items.size()`, while the source's `showLoading(true)` announces `items.size() + 1` (see Findings). None of its other effects depend on this.
- TreasureHunt.TreasureHuntActivity.HandleDiscovery: the clicked marker's own icon change to "discovered" (TreasureHuntActivity.java:720-721), which happens even when no discovery key is issued, is not modelled. Marker icons are modelled only as rebuilt when the map reloads (`CheckAndAddMarker`, `DiscoveredIconAfterDiscovery`).

## Findings

| source | as written | input that shows it | evidently intended | confidence | as-written member | corrected member |
|---|---|---|---|---|---|---|
| app/src/main/java/edu/northeastern/numad25su_group6/adapters/LeaderboardAdapter.java:52-54 | `showLoading(true)` sets `isLoading` and then announces an insertion at `getItemCount()`, which is now `items.size() + 1` | an empty list: the loading row appears at position 0, but position 1 is announced, past the end of the one-row list | announce the insertion at `items.size()`, the loading row's own index, as the hide path already does for its removal | not executed | LeaderboardAdapters.InsertedPositionAsWrittenIsPastEnd | LeaderboardAdapters.InsertedPositionCorrectedIsLoadingRow |
