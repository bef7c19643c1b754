/** The leaderboard's final ordering: `totalScore` descending, then
    `username` ascending by `String.compareTo`. */
module Ranking {
  import opened Entities

  /** `a.compareTo(b) <= 0`: lexicographic order on characters, a proper
      prefix first. */
  predicate LexLe(a: string, b: string)
    ensures a <= b ==> LexLe(a, b)
    decreases |a|
  {
    if |a| == 0 then true
    else if |b| == 0 then false
    else if a[0] != b[0] then a[0] < b[0]
    else LexLe(a[1..], b[1..])
  }

  lemma {:induction false} LexLeTotal(a: string, b: string)
    ensures LexLe(a, b) || LexLe(b, a)
    decreases |a|
  {
    if |a| > 0 && |b| > 0 && a[0] == b[0] {
      LexLeTotal(a[1..], b[1..]);
    }
  }

  /** Two usernames each at most the other are equal: `compareTo` returns 0
      only on equal strings. */
  lemma {:induction false} LexLeAntisymmetric(a: string, b: string)
    requires LexLe(a, b) && LexLe(b, a)
    ensures a == b
    decreases |a|
  {
    if |a| > 0 && |b| > 0 {
      LexLeAntisymmetric(a[1..], b[1..]);
      assert a == [a[0]] + a[1..] && b == [b[0]] + b[1..];
    }
  }

  lemma {:induction false} LexLeTransitive(a: string, b: string, c: string)
    requires LexLe(a, b) && LexLe(b, c)
    ensures LexLe(a, c)
    decreases |a|
  {
    if |a| > 0 && |b| > 0 && |c| > 0 && a[0] == b[0] && b[0] == c[0] {
      LexLeTransitive(a[1..], b[1..], c[1..]);
    }
  }

  /** `x` may stand before `y` under the comparator
      `comparing(totalScore).reversed().thenComparing(username)`. */
  predicate Precedes(x: LeaderboardEntry, y: LeaderboardEntry) 
    ensures Precedes(x, y) ==> x.totalScore >= y.totalScore
    ensures x.totalScore > y.totalScore ==> Precedes(x, y)
  {
    x.totalScore > y.totalScore || (x.totalScore == y.totalScore && LexLe(x.username, y.username))
  }

  lemma PrecedesTotal(x: LeaderboardEntry, y: LeaderboardEntry)
    ensures Precedes(x, y) || Precedes(y, x)
  {
    LexLeTotal(x.username, y.username);
  }

  lemma PrecedesTransitive(x: LeaderboardEntry, y: LeaderboardEntry, z: LeaderboardEntry)
    requires Precedes(x, y) && Precedes(y, z)
    ensures Precedes(x, z)
  {
    if x.totalScore == y.totalScore == z.totalScore {
      LexLeTransitive(x.username, y.username, z.username);
    }
  }

  /** Every entry may stand before every later one. */
  predicate Ranked(s: seq<LeaderboardEntry>) {
    forall i, j :: 0 <= i < j < |s| ==> Precedes(s[i], s[j])
  }

  /** Places `x` before the first entry it precedes. */
  function Insert(x: LeaderboardEntry, s: seq<LeaderboardEntry>): (r: seq<LeaderboardEntry>)
    ensures multiset(r) == multiset(s) + multiset{x}
  {
    if s == [] then [x]
    else if Precedes(x, s[0]) then [x] + s
    else
      assert s == [s[0]] + s[1..];
      [s[0]] + Insert(x, s[1..])
  }

  /** The stream's `sorted(comparator)` step. */
  function Sort(s: seq<LeaderboardEntry>): (r: seq<LeaderboardEntry>)
    ensures multiset(r) == multiset(s)
  {
    if s == [] then []
    else
      assert s == [s[0]] + s[1..];
      Insert(s[0], Sort(s[1..]))
  }

  /** Prepending an entry that precedes every entry keeps a list ranked. */
  lemma ConsRanked(y: LeaderboardEntry, t: seq<LeaderboardEntry>)
    requires Ranked(t)
    requires forall j :: 0 <= j < |t| ==> Precedes(y, t[j])
    ensures Ranked([y] + t)
  {
    var r := [y] + t;
    forall i, j | 0 <= i < j < |r| ensures Precedes(r[i], r[j]) {
      assert r[j] == t[j - 1];
      if i > 0 { assert r[i] == t[i - 1]; }
    }
  }

  /** An entry that precedes both `x` and every entry of `s` precedes every
      entry of `Insert(x, s)`, which holds the same entries. */
  lemma PrecedesInserted(y: LeaderboardEntry, x: LeaderboardEntry, s: seq<LeaderboardEntry>)
    requires Precedes(y, x)
    requires forall j :: 0 <= j < |s| ==> Precedes(y, s[j])
    ensures forall j :: 0 <= j < |Insert(x, s)| ==> Precedes(y, Insert(x, s)[j])
  {
    var t := Insert(x, s);
    forall j | 0 <= j < |t| ensures Precedes(y, t[j]) {
      assert t[j] in multiset(t);
      if t[j] != x {
        assert t[j] in multiset(s);
        var k :| 0 <= k < |s| && s[k] == t[j];
      }
    }
  }

  lemma {:induction false} InsertKeepsRanked(x: LeaderboardEntry, s: seq<LeaderboardEntry>)
    requires Ranked(s)
    ensures Ranked(Insert(x, s))
  {
    if s == [] {
    } else if Precedes(x, s[0]) {
      forall j | 0 <= j < |s| ensures Precedes(x, s[j]) {
        if j > 0 { PrecedesTransitive(x, s[0], s[j]); }
      }
      ConsRanked(x, s);
    } else {
      PrecedesTotal(x, s[0]);
      InsertKeepsRanked(x, s[1..]);
      PrecedesInserted(s[0], x, s[1..]);
      ConsRanked(s[0], Insert(x, s[1..]));
    }
  }

  /** The sorted leaderboard is ranked. */
  lemma {:induction false} SortIsRanked(s: seq<LeaderboardEntry>)
    ensures Ranked(Sort(s))
  {
    if s != [] {
      SortIsRanked(s[1..]);
      InsertKeepsRanked(s[0], Sort(s[1..]));
    }
  }
}
