/**
 * Descending sort and standard competition ranking ("1224"), shared by the
 * leaderboard screen and the profile pop-up.
 *
 * Both screens sort with a library call (`List.sort` with a descending
 * comparator, `allPoints.sort(Collections.reverseOrder())`); the sort is
 * modelled by a stable insertion sort on an integer key, and the properties
 * the screens rely on (ordered, a permutation, ties keep their order) are
 * proved about it.  `CountAbove` is the reference definition of a rank: an
 * entry's competition rank is 1 + the number of entries with a strictly
 * greater key.
 */
module Ranking {

  /** s is ordered by non-increasing key. */
  predicate SortedDesc<T>(s: seq<T>, key: T -> int) {
    forall i, j :: 0 <= i < j < |s| ==> key(s[i]) >= key(s[j])
  }

  /** Puts x in front of the first element whose key is not greater than its own. */
  function Insert<T>(x: T, s: seq<T>, key: T -> int): seq<T> {
    if s == [] || key(x) >= key(s[0]) then [x] + s
    else [s[0]] + Insert(x, s[1..], key)
  }

  /** The descending sort: a stable insertion sort. */
  function SortDescBy<T>(s: seq<T>, key: T -> int): seq<T> {
    if s == [] then [] else Insert(s[0], SortDescBy(s[1..], key), key)
  }

  /** The elements of s whose key is p, in their order in s. */
  function WithKey<T>(s: seq<T>, key: T -> int, p: int): seq<T> {
    if s == [] then []
    else (if key(s[0]) == p then [s[0]] else []) + WithKey(s[1..], key, p)
  }

  /** How many elements of s have a key strictly greater than p. */
  function CountAbove<T>(s: seq<T>, key: T -> int, p: int): nat {
    if s == [] then 0
    else (if key(s[0]) > p then 1 else 0) + CountAbove(s[1..], key, p)
  }

  /** The competition rank of position i: 1 + the number of entries strictly ahead on points. */
  function CompetitionRank<T>(s: seq<T>, key: T -> int, i: nat): int
    requires i < |s|
  {
    1 + CountAbove(s, key, key(s[i]))
  }

  // ---------------------------------------------------------------------------
  // The sort
  // ---------------------------------------------------------------------------

  /** Inserting adds exactly x. */
  lemma {:induction false} InsertPerm<T>(x: T, s: seq<T>, key: T -> int)
    ensures |Insert(x, s, key)| == |s| + 1
    ensures multiset(Insert(x, s, key)) == multiset(s) + multiset{x}
  {
    if s != [] && key(x) < key(s[0]) {
      InsertPerm(x, s[1..], key);
      assert s == [s[0]] + s[1..];
    }
  }

  /** The inserted sequence starts with x or with the old first element. */
  lemma InsertHead<T>(x: T, s: seq<T>, key: T -> int)
    ensures Insert(x, s, key) != []
    ensures Insert(x, s, key)[0] == x || (s != [] && Insert(x, s, key)[0] == s[0])
  {
  }

  /** Inserting into an ordered sequence keeps it ordered. */
  lemma {:induction false} InsertSorted<T>(x: T, s: seq<T>, key: T -> int)
    requires SortedDesc(s, key)
    ensures SortedDesc(Insert(x, s, key), key)
  {
    if s != [] && key(x) < key(s[0]) {
      var rest := Insert(x, s[1..], key);
      assert SortedDesc(s[1..], key) by {
        forall i, j | 0 <= i < j < |s[1..]| ensures key(s[1..][i]) >= key(s[1..][j]) {
          assert s[1..][i] == s[i + 1] && s[1..][j] == s[j + 1];
        }
      }
      InsertSorted(x, s[1..], key);
      InsertHead(x, s[1..], key);
      assert key(s[0]) >= key(rest[0]) by {
        if rest[0] != x {
          assert rest[0] == s[1];
        }
      }
      var r := [s[0]] + rest;
      assert Insert(x, s, key) == r;
      forall i, j | 0 <= i < j < |r| ensures key(r[i]) >= key(r[j]) {
        if i == 0 {
          assert r[j] == rest[j - 1];
          if j > 1 {
            assert key(rest[0]) >= key(rest[j - 1]);
          }
        } else {
          assert r[i] == rest[i - 1] && r[j] == rest[j - 1];
        }
      }
    }
  }

  function Min(a: int, b: int): int {
    if a <= b then a else b
  }

  /** The sort returns an ordering of the same elements by non-increasing key. */
  lemma {:induction false} SortFacts<T>(s: seq<T>, key: T -> int)
    ensures |SortDescBy(s, key)| == |s|
    ensures multiset(SortDescBy(s, key)) == multiset(s)
    ensures SortedDesc(SortDescBy(s, key), key)
  {
    SortPerm(s, key);
    SortSorted(s, key);
  }

  lemma {:induction false} SortPerm<T>(s: seq<T>, key: T -> int)
    ensures |SortDescBy(s, key)| == |s|
    ensures multiset(SortDescBy(s, key)) == multiset(s)
  {
    if s != [] {
      SortPerm(s[1..], key);
      InsertPerm(s[0], SortDescBy(s[1..], key), key);
      assert s == [s[0]] + s[1..];
    }
  }

  lemma {:induction false} SortSorted<T>(s: seq<T>, key: T -> int)
    ensures SortedDesc(SortDescBy(s, key), key)
  {
    if s != [] {
      SortSorted(s[1..], key);
      InsertSorted(s[0], SortDescBy(s[1..], key), key);
    }
  }

  lemma {:induction false} InsertStable<T>(x: T, s: seq<T>, key: T -> int, p: int)
    ensures WithKey(Insert(x, s, key), key, p) == WithKey([x] + s, key, p)
  {
    if s == [] || key(x) >= key(s[0]) {
    } else {
      InsertStable(x, s[1..], key, p);
      assert ([s[0]] + Insert(x, s[1..], key))[1..] == Insert(x, s[1..], key);
      assert ([x] + s[1..])[1..] == s[1..];
      assert ([x] + s)[1..] == s;
      assert s == [s[0]] + s[1..];
    }
  }

  /** Stability: for every key value, the entries with that key come out in their input order. */
  lemma {:induction false} SortStable<T>(s: seq<T>, key: T -> int, p: int)
    ensures WithKey(SortDescBy(s, key), key, p) == WithKey(s, key, p)
  {
    if s != [] {
      SortStable(s[1..], key, p);
      InsertStable(s[0], SortDescBy(s[1..], key), key, p);
      assert ([s[0]] + SortDescBy(s[1..], key))[1..] == SortDescBy(s[1..], key);
    }
  }

  // ---------------------------------------------------------------------------
  // Counting entries ahead
  // ---------------------------------------------------------------------------

  lemma {:induction false} CountAboveConcat<T>(a: seq<T>, b: seq<T>, key: T -> int, p: int)
    ensures CountAbove(a + b, key, p) == CountAbove(a, key, p) + CountAbove(b, key, p)
  {
    if a == [] {
      assert a + b == b;
    } else {
      assert (a + b)[1..] == a[1..] + b;
      CountAboveConcat(a[1..], b, key, p);
    }
  }

  lemma RemoveAt<T>(b: seq<T>, k: nat, key: T -> int, p: int)
    requires k < |b|
    ensures multiset(b[..k] + b[k + 1..]) == multiset(b) - multiset{b[k]}
    ensures CountAbove(b, key, p) == CountAbove(b[..k] + b[k + 1..], key, p) + (if key(b[k]) > p then 1 else 0)
  {
    var pre, post := b[..k], b[k + 1..];
    var tail := [b[k]] + post;
    assert tail[1..] == post;
    assert CountAbove(tail, key, p) == (if key(b[k]) > p then 1 else 0) + CountAbove(post, key, p);
    assert b == pre + tail;
    CountAboveConcat(pre, tail, key, p);
    CountAboveConcat(pre, post, key, p);
  }

  /** The count does not depend on the order of the entries. */
  lemma {:induction false} CountAbovePerm<T>(a: seq<T>, b: seq<T>, key: T -> int, p: int)
    requires multiset(a) == multiset(b)
    ensures CountAbove(a, key, p) == CountAbove(b, key, p)
  {
    if a == [] {
      assert |b| == |multiset(b)| == 0;
    } else {
      var x := a[0];
      assert x in multiset(b);
      var k :| 0 <= k < |b| && b[k] == x;
      RemoveAt(b, k, key, p);
      assert a == [x] + a[1..];
      assert multiset(a[1..]) == multiset(a) - multiset{x};
      CountAbovePerm(a[1..], b[..k] + b[k + 1..], key, p);
    }
  }

  /** Two sequences with the same keys position by position have the same counts. */
  lemma {:induction false} CountAboveSameKeys<T, U>(a: seq<T>, ka: T -> int, b: seq<U>, kb: U -> int, p: int)
    requires |a| == |b|
    requires forall i :: 0 <= i < |a| ==> ka(a[i]) == kb(b[i])
    ensures CountAbove(a, ka, p) == CountAbove(b, kb, p)
  {
    if a != [] {
      CountAboveSameKeys(a[1..], ka, b[1..], kb, p);
    }
  }

  lemma {:induction false} CountAboveNone<T>(s: seq<T>, key: T -> int, p: int)
    requires forall i :: 0 <= i < |s| ==> key(s[i]) <= p
    ensures CountAbove(s, key, p) == 0
  {
    if s != [] {
      CountAboveNone(s[1..], key, p);
    }
  }

  /** A higher key has no more entries above it. */
  lemma {:induction false} CountAboveMonotone<T>(s: seq<T>, key: T -> int, p: int, q: int)
    requires p >= q
    ensures CountAbove(s, key, p) <= CountAbove(s, key, q)
  {
    if s != [] {
      CountAboveMonotone(s[1..], key, p, q);
    }
  }

  /**
   * In a descending list, the number of entries ahead of position i is the
   * index of the first entry of i's tie group: that entry has i's key and the
   * one before it (if any) has a strictly greater key.
   */
  lemma {:induction false} CountAboveIsGroupStart<T>(s: seq<T>, key: T -> int, i: nat)
    requires SortedDesc(s, key) && i < |s|
    ensures CountAbove(s, key, key(s[i])) <= i
    ensures key(s[CountAbove(s, key, key(s[i]))]) == key(s[i])
    ensures CountAbove(s, key, key(s[i])) > 0 ==> key(s[CountAbove(s, key, key(s[i])) - 1]) > key(s[i])
  {
    var v := key(s[i]);
    if key(s[0]) > v {
      assert i > 0;
      assert SortedDesc(s[1..], key);
      assert s[1..][i - 1] == s[i];
      CountAboveIsGroupStart(s[1..], key, i - 1);
    } else {
      CountAboveNone(s, key, v);
    }
  }

  /** Where the key changes along a descending list, the rank is the 1-based position. */
  lemma GroupStartRank<T>(s: seq<T>, key: T -> int, i: nat)
    requires SortedDesc(s, key) && i < |s|
    requires i == 0 || key(s[i]) != key(s[i - 1])
    ensures CountAbove(s, key, key(s[i])) == i
  {
    CountAboveIsGroupStart(s, key, i);
  }

  /**
   * One step of the `prevPoints`/`rank` loop over a descending list: starting
   * from rank 1, or from the previous entry's rank and key, the loop's choice
   * (i + 1 when the key changes, the old rank otherwise) is the competition rank of i.
   */
  lemma RankStep<T>(s: seq<T>, key: T -> int, i: nat, prevKey: int, rank: int)
    requires SortedDesc(s, key) && i < |s|
    requires i == 0 ==> rank == 1
    requires i > 0 ==> prevKey == key(s[i - 1]) && rank == CompetitionRank(s, key, i - 1)
    ensures (if key(s[i]) != prevKey then i + 1 else rank) == CompetitionRank(s, key, i)
  {
    if i == 0 || key(s[i]) != key(s[i - 1]) {
      GroupStartRank(s, key, i);
    }
  }

  /**
   * Competition ranking of a descending list: the first entry has rank 1,
   * ranks never decrease along the list, the entry at index i has rank at most
   * i + 1, and equal keys share a rank.
   */
  lemma CompetitionRankFacts<T>(s: seq<T>, key: T -> int)
    requires SortedDesc(s, key)
    ensures s != [] ==> CompetitionRank(s, key, 0) == 1
    ensures forall i, j :: 0 <= i < j < |s| ==> CompetitionRank(s, key, i) <= CompetitionRank(s, key, j)
    ensures forall i :: 0 <= i < |s| ==> CompetitionRank(s, key, i) <= i + 1
    ensures forall i, j :: 0 <= i < |s| && 0 <= j < |s| && key(s[i]) == key(s[j]) ==>
              CompetitionRank(s, key, i) == CompetitionRank(s, key, j)
  {
    if s != [] {
      CountAboveIsGroupStart(s, key, 0);
    }
    forall i, j | 0 <= i < j < |s| ensures CompetitionRank(s, key, i) <= CompetitionRank(s, key, j) {
      CountAboveMonotone(s, key, key(s[i]), key(s[j]));
    }
    forall i | 0 <= i < |s| ensures CompetitionRank(s, key, i) <= i + 1 {
      CountAboveIsGroupStart(s, key, i);
    }
  }
}
