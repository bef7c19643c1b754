/** `LeaderboardService.getLeaderboard`: one entry per user of the contest,
    holding the sum of the user's best accepted score per problem and the
    number of such problems, ranked by score and then username. */
module Leaderboard {
  import opened Wrappers
  import opened Entities
  import opened ScoreKey
  import opened Queries
  import opened Ranking
  import opened Tables

  // ---------------------------------------------------------------------
  // Best accepted score per (user, problem)
  // ---------------------------------------------------------------------

  /** `userProblemBestScore.getOrDefault(key, 0)`. */
  function ScoreOr0(best: map<string, int>, key: string): int {
    if key in best then best[key] else 0
  }

  function KeyOf(s: Submission): string {
    Key(s.userId, s.problemId)
  }

  /** `s` is an accepted submission under `key` scoring `score`. */
  predicate Attains(s: Submission, key: string, score: int) {
    s.status == ACCEPTED && KeyOf(s) == key && s.score == score
  }

  /** `best` holds, for every key, the largest accepted score under that key
      among the submissions `ids`, and holds a key only when that score is
      positive. */
  ghost predicate IsBestScoreMap(subs: map<nat, Submission>, ids: set<nat>, best: map<string, int>)
    requires ids <= subs.Keys
  {
    && (forall key :: key in best ==>
          best[key] > 0 && exists id :: id in ids && Attains(subs[id], key, best[key]))
    && (forall id :: id in ids && subs[id].status == ACCEPTED ==>
          subs[id].score <= ScoreOr0(best, KeyOf(subs[id])))
  }

  /** One pass of the submission loop: an accepted submission replaces the
      stored best of its key when it scores strictly more (a missing key
      counts as 0). */
  function Absorb(best: map<string, int>, s: Submission): (next: map<string, int>)
    ensures s.status != ACCEPTED ==> next == best
    ensures s.status == ACCEPTED ==>
      ScoreOr0(next, KeyOf(s)) == if s.score > ScoreOr0(best, KeyOf(s)) then s.score else ScoreOr0(best, KeyOf(s))
    ensures forall key :: key != KeyOf(s) ==> (key in next <==> key in best) && (key in best ==> next[key] == best[key])
  {
    if s.status == ACCEPTED && s.score > ScoreOr0(best, KeyOf(s)) then best[KeyOf(s) := s.score] else best
  }

  /** After a pass every stored value is still positive and attained by an
      accepted submission seen so far. */
  lemma AbsorbKeepsAttained(subs: map<nat, Submission>, ids: set<nat>, id: nat, best: map<string, int>, key: string)
    requires ids <= subs.Keys && id in subs
    requires IsBestScoreMap(subs, ids, best)
    requires key in Absorb(best, subs[id])
    ensures var next := Absorb(best, subs[id]);
            next[key] > 0 && exists j :: j in ids + {id} && Attains(subs[j], key, next[key])
  {
    var next := Absorb(best, subs[id]);
    if next != best && key == KeyOf(subs[id]) {
      assert Attains(subs[id], key, next[key]);
    } else {
      var j :| j in ids && Attains(subs[j], key, best[key]);
      assert j in ids + {id};
    }
  }

  lemma AbsorbKeepsBest(subs: map<nat, Submission>, ids: set<nat>, id: nat, best: map<string, int>)
    requires ids <= subs.Keys && id in subs
    requires IsBestScoreMap(subs, ids, best)
    ensures IsBestScoreMap(subs, ids + {id}, Absorb(best, subs[id]))
  {
    var s := subs[id];
    var next := Absorb(best, s);
    forall key | key in next
      ensures next[key] > 0 && exists j :: j in ids + {id} && Attains(subs[j], key, next[key])
    {
      AbsorbKeepsAttained(subs, ids, id, best, key);
    }
    forall j | j in ids + {id} && subs[j].status == ACCEPTED
      ensures subs[j].score <= ScoreOr0(next, KeyOf(subs[j]))
    {
      assert ScoreOr0(best, KeyOf(subs[j])) <= ScoreOr0(next, KeyOf(subs[j]));
    }
  }

  /** The best-score map built by visiting `ids` in a fixed order. */
  ghost function BestScoresOver(subs: map<nat, Submission>, ids: set<nat>): map<string, int>
    requires ids <= subs.Keys
    decreases ids
  {
    if ids == {} then map[]
    else
      var id := Pick(ids);
      Absorb(BestScoresOver(subs, ids - {id}), subs[id])
  }

  lemma {:induction false} BestScoresOverIsBest(subs: map<nat, Submission>, ids: set<nat>)
    requires ids <= subs.Keys
    ensures IsBestScoreMap(subs, ids, BestScoresOver(subs, ids))
    decreases ids
  {
    if ids != {} {
      var id := Pick(ids);
      BestScoresOverIsBest(subs, ids - {id});
      AbsorbKeepsBest(subs, ids - {id}, id, BestScoresOver(subs, ids - {id}));
      assert ids - {id} + {id} == ids;
    }
  }

  /** A key stored in one best-score map is stored in any other, with at
      least the same value. */
  lemma BestScoreBelow(subs: map<nat, Submission>, ids: set<nat>, b1: map<string, int>, b2: map<string, int>, key: string)
    requires ids <= subs.Keys
    requires IsBestScoreMap(subs, ids, b1) && IsBestScoreMap(subs, ids, b2)
    requires key in b1
    ensures key in b2 && b1[key] <= b2[key]
  {
    var id :| id in ids && Attains(subs[id], key, b1[key]);
    assert subs[id].score <= ScoreOr0(b2, KeyOf(subs[id]));
  }

  /** At most one map is the best-score map of a set of submissions, so the
      result does not depend on the order the loop visits them in. */
  lemma BestScoreMapUnique(subs: map<nat, Submission>, ids: set<nat>, b1: map<string, int>, b2: map<string, int>)
    requires ids <= subs.Keys
    requires IsBestScoreMap(subs, ids, b1) && IsBestScoreMap(subs, ids, b2)
    ensures b1 == b2
  {
    forall key | key in b1 ensures key in b2 && b1[key] <= b2[key] {
      BestScoreBelow(subs, ids, b1, b2, key);
    }
    forall key | key in b2 ensures key in b1 && b2[key] <= b1[key] {
      BestScoreBelow(subs, ids, b2, b1, key);
    }
    assert b1.Keys == b2.Keys;
  }

  /** The best-score map of all the given submissions. */
  ghost function BestScores(subs: map<nat, Submission>): map<string, int> {
    BestScoresOver(subs, subs.Keys)
  }

  // ---------------------------------------------------------------------
  // Per-user totals
  // ---------------------------------------------------------------------

  /** The keys whose first field parses to `userId`. */
  function KeysOfUser(keys: set<string>, userId: nat): set<string> {
    set k | k in keys && UserIdOfKey(k) == Some(userId)
  }

  ghost function SumScores(best: map<string, int>, keys: set<string>): int
    requires keys <= best.Keys
    decreases keys
  {
    if keys == {} then 0
    else
      var k := Pick(keys);
      best[k] + SumScores(best, keys - {k})
  }

  lemma {:induction false} SumScoresRemove(best: map<string, int>, keys: set<string>, k: string)
    requires keys <= best.Keys && k in keys
    ensures SumScores(best, keys) == best[k] + SumScores(best, keys - {k})
    decreases keys
  {
    var p := Pick(keys);
    if p != k {
      SumScoresRemove(best, keys - {p}, k);
      SumScoresRemove(best, keys - {k}, p);
      assert keys - {p} - {k} == keys - {k} - {p};
    }
  }

  /** The entry of a user after the third loop has visited `keys`. */
  ghost function Tally(username: string, best: map<string, int>, keys: set<string>, userId: nat): LeaderboardEntry
    requires keys <= best.Keys
  {
    var mine := KeysOfUser(keys, userId);
    LeaderboardEntry(username, SumScores(best, mine), |mine|)
  }

  lemma TallyAdd(username: string, best: map<string, int>, keys: set<string>, k: string, userId: nat)
    requires keys <= best.Keys && k in best && k !in keys
    ensures var before := Tally(username, best, keys, userId);
            Tally(username, best, keys + {k}, userId) ==
              if UserIdOfKey(k) == Some(userId)
              then before.(totalScore := before.totalScore + best[k], solvedProblems := before.solvedProblems + 1)
              else before
  {
    var mine := KeysOfUser(keys, userId);
    if UserIdOfKey(k) == Some(userId) {
      assert KeysOfUser(keys + {k}, userId) == mine + {k};
      SumScoresRemove(best, mine + {k}, k);
      assert mine + {k} - {k} == mine;
    } else {
      assert KeysOfUser(keys + {k}, userId) == mine;
    }
  }

  /** Every entry of `table` is its user's tally over `keys`. */
  ghost predicate TalliedOver(members: map<nat, User>, best: map<string, int>, keys: set<string>, table: map<nat, LeaderboardEntry>)
    requires keys <= best.Keys
  {
    table.Keys == members.Keys &&
    forall u :: u in table ==> table[u] == Tally(members[u].username, best, keys, u)
  }

  /** One pass of the third loop: the entry of the user `owner` names, if
      there is one, gains `score` and one solved problem. */
  function Credit(table: map<nat, LeaderboardEntry>, owner: Option<int>, score: int): (credited: map<nat, LeaderboardEntry>)
    ensures credited.Keys == table.Keys
    ensures forall u :: u in table && owner != Some(u as int) ==> credited[u] == table[u]
    ensures forall u :: u in table && owner == Some(u as int) ==>
      credited[u] == table[u].(totalScore := table[u].totalScore + score, solvedProblems := table[u].solvedProblems + 1)
  {
    if owner.Some? && owner.value >= 0 && owner.value in table then
      var e := table[owner.value];
      table[owner.value := e.(totalScore := e.totalScore + score, solvedProblems := e.solvedProblems + 1)]
    else table
  }

  /** One pass of the third loop keeps every entry equal to its tally. */
  lemma TallyStep(members: map<nat, User>, best: map<string, int>, keys: set<string>, key: string,
                  table: map<nat, LeaderboardEntry>)
    requires keys <= best.Keys && key in best && key !in keys
    requires TalliedOver(members, best, keys, table)
    ensures TalliedOver(members, best, keys + {key}, Credit(table, UserIdOfKey(key), best[key]))
  {
    var owner := UserIdOfKey(key);
    var after := Credit(table, owner, best[key]);
    forall u | u in after
      ensures after[u] == Tally(members[u].username, best, keys + {key}, u)
    {
      TallyAdd(members[u].username, best, keys, key, u);
      if owner == Some(u) {
        assert after[u] == table[u].(totalScore := table[u].totalScore + best[key],
                                     solvedProblems := table[u].solvedProblems + 1);
      } else {
        assert after[u] == table[u];
      }
    }
  }

  /** The entry the leaderboard holds for contest user `userId`. */
  ghost function StandingOf(members: map<nat, User>, best: map<string, int>, userId: nat): LeaderboardEntry
    requires userId in members
  {
    Tally(members[userId].username, best, best.Keys, userId)
  }

  /** The entry every user of the contest should end up with. */
  ghost function StandingsTable(members: map<nat, User>, best: map<string, int>): (t: map<nat, LeaderboardEntry>)
    ensures t.Keys == members.Keys
  {
    map u | u in members :: StandingOf(members, best, u)
  }

  lemma NothingTallied(members: map<nat, User>, best: map<string, int>, table: map<nat, LeaderboardEntry>)
    requires table.Keys == members.Keys
    requires forall u :: u in table ==> table[u] == LeaderboardEntry(members[u].username, 0, 0)
    ensures TalliedOver(members, best, {}, table)
  {
    forall u | u in table ensures table[u] == Tally(members[u].username, best, {}, u) {
      assert KeysOfUser({}, u) == {};
    }
  }

  lemma AllTallied(members: map<nat, User>, best: map<string, int>, table: map<nat, LeaderboardEntry>)
    requires TalliedOver(members, best, best.Keys, table)
    ensures table == StandingsTable(members, best)
  {
  }

  /** What `getLeaderboard(contestId)` returns, up to order: one entry per
      user of the contest. */
  ghost function Standings(users: map<nat, User>, submissions: map<nat, Submission>, contestId: nat): multiset<LeaderboardEntry> {
    var members := UsersOfContest(users, contestId);
    ValuesOver(StandingsTable(members, BestScores(SubmissionsOfContest(submissions, users, contestId))), members.Keys)
  }

  // ---------------------------------------------------------------------
  // Properties of the standings
  // ---------------------------------------------------------------------

  /** `s` is an accepted submission of `userId` for `problemId`. */
  predicate IsAcceptedFor(s: Submission, userId: nat, problemId: nat) {
    s.status == ACCEPTED && s.userId == userId && s.problemId == problemId
  }

  /** Every key of the best-score map is the key of an accepted submission
      scoring exactly the stored value, and names that submission's user. */
  lemma BestKeyHasWitness(subs: map<nat, Submission>, key: string)
    requires key in BestScores(subs)
    ensures exists id :: id in subs && Attains(subs[id], key, BestScores(subs)[key])
                         && UserIdOfKey(key) == Some(subs[id].userId)
  {
    BestScoresOverIsBest(subs, subs.Keys);
    var id :| id in subs && Attains(subs[id], key, BestScores(subs)[key]);
    KeyRoundTrip(subs[id].userId, subs[id].problemId);
  }

  /** Only the largest accepted score of a (user, problem) pair counts, and
      only when it is positive: several accepted submissions for one problem
      are not summed. */
  lemma BestScoreIsMaximum(subs: map<nat, Submission>, userId: nat, problemId: nat, top: int)
    requires exists id :: id in subs && IsAcceptedFor(subs[id], userId, problemId) && subs[id].score == top
    requires forall id :: id in subs && IsAcceptedFor(subs[id], userId, problemId) ==> subs[id].score <= top
    ensures ScoreOr0(BestScores(subs), Key(userId, problemId)) == if top > 0 then top else 0
  {
    var best := BestScores(subs);
    var key := Key(userId, problemId);
    BestScoresOverIsBest(subs, subs.Keys);
    var id :| id in subs && IsAcceptedFor(subs[id], userId, problemId) && subs[id].score == top;
    assert top <= ScoreOr0(best, key);
    if key in best {
      var j :| j in subs && Attains(subs[j], key, best[key]);
      KeyInjective(subs[j].userId, subs[j].problemId, userId, problemId);
      assert best[key] <= top;
    }
  }

  /** A (user, problem) pair with no positively scored accepted submission
      has no best score: it is neither solved nor counted. */
  lemma NoPositiveScoreNoEntry(subs: map<nat, Submission>, userId: nat, problemId: nat)
    requires forall id :: id in subs && IsAcceptedFor(subs[id], userId, problemId) ==> subs[id].score <= 0
    ensures Key(userId, problemId) !in BestScores(subs)
  {
    var key := Key(userId, problemId);
    if key in BestScores(subs) {
      BestKeyHasWitness(subs, key);
      var j :| j in subs && Attains(subs[j], key, BestScores(subs)[key]);
      KeyInjective(subs[j].userId, subs[j].problemId, userId, problemId);
      BestScoresOverIsBest(subs, subs.Keys);
      assert false;
    }
  }

  /** The keys credited to a user are exactly the keys of that user's
      problems with a best score: a user's total is the sum of their
      per-problem best scores and their solved count the number of them. */
  lemma CreditedKeysAreOwnProblems(subs: map<nat, Submission>, userId: nat)
    ensures forall problemId :: Key(userId, problemId) in BestScores(subs) ==>
              Key(userId, problemId) in KeysOfUser(BestScores(subs).Keys, userId)
    ensures forall key :: key in KeysOfUser(BestScores(subs).Keys, userId) ==>
              exists problemId :: key == Key(userId, problemId)
  {
    forall problemId | Key(userId, problemId) in BestScores(subs)
      ensures Key(userId, problemId) in KeysOfUser(BestScores(subs).Keys, userId)
    {
      KeyRoundTrip(userId, problemId);
    }
    forall key | key in KeysOfUser(BestScores(subs).Keys, userId)
      ensures exists problemId :: key == Key(userId, problemId)
    {
      BestKeyHasWitness(subs, key);
      var j :| j in subs && Attains(subs[j], key, BestScores(subs)[key]) && UserIdOfKey(key) == Some(subs[j].userId);
      assert key == Key(userId, subs[j].problemId);
    }
  }

  /** The key of every best score of a contest parses to the id of a user
      of that contest: the parse never fails and the null check on the
      entry never skips a score. */
  lemma BestScoreOwnersAreMembers(users: map<nat, User>, submissions: map<nat, Submission>, contestId: nat, key: string)
    requires key in BestScores(SubmissionsOfContest(submissions, users, contestId))
    ensures exists userId: nat :: UserIdOfKey(key) == Some(userId) && userId in UsersOfContest(users, contestId)
  {
    var contestSubmissions := SubmissionsOfContest(submissions, users, contestId);
    BestKeyHasWitness(contestSubmissions, key);
    var j :| j in contestSubmissions && Attains(contestSubmissions[j], key, BestScores(contestSubmissions)[key])
             && UserIdOfKey(key) == Some(contestSubmissions[j].userId);
    assert contestSubmissions[j].userId in UsersOfContest(users, contestId);
  }

  /** A user of the contest with no positively scored accepted submission
      is listed with total score 0 and no solved problems. */
  lemma IdleUserScoresZero(users: map<nat, User>, submissions: map<nat, Submission>, contestId: nat, userId: nat)
    requires InContest(users, contestId, userId)
    requires forall id :: id in submissions && submissions[id].userId == userId && submissions[id].status == ACCEPTED
               ==> submissions[id].score <= 0
    ensures var members := UsersOfContest(users, contestId);
            var best := BestScores(SubmissionsOfContest(submissions, users, contestId));
            StandingOf(members, best, userId) == LeaderboardEntry(users[userId].username, 0, 0)
  {
    var members := UsersOfContest(users, contestId);
    var contestSubmissions := SubmissionsOfContest(submissions, users, contestId);
    var best := BestScores(contestSubmissions);
    BestScoresOverIsBest(contestSubmissions, contestSubmissions.Keys);
    forall key | key in KeysOfUser(best.Keys, userId) ensures false {
      BestKeyHasWitness(contestSubmissions, key);
    }
    assert KeysOfUser(best.Keys, userId) == {};
  }

  /** The submissions that are ACCEPTED, with their ids. */
  function AcceptedOnly(subs: map<nat, Submission>): (r: map<nat, Submission>)
    ensures forall id :: id in r <==> id in subs && subs[id].status == ACCEPTED
  {
    map id | id in subs && subs[id].status == ACCEPTED :: subs[id]
  }

  lemma BestScoresSeeOnlyAccepted(s1: map<nat, Submission>, s2: map<nat, Submission>)
    requires AcceptedOnly(s1) == AcceptedOnly(s2)
    ensures BestScores(s1) == BestScores(s2)
  {
    var b1 := BestScores(s1);
    BestScoresOverIsBest(s1, s1.Keys);
    BestScoresOverIsBest(s2, s2.Keys);
    forall key | key in b1 ensures exists id :: id in s2.Keys && Attains(s2[id], key, b1[key]) {
      var id :| id in s1.Keys && Attains(s1[id], key, b1[key]);
      assert id in AcceptedOnly(s1);
    }
    forall id | id in s2.Keys && s2[id].status == ACCEPTED ensures s2[id].score <= ScoreOr0(b1, KeyOf(s2[id])) {
      assert id in AcceptedOnly(s2);
    }
    assert IsBestScoreMap(s2, s2.Keys, b1);
    BestScoreMapUnique(s2, s2.Keys, b1, BestScores(s2));
  }

  /** Only submissions whose status is exactly "ACCEPTED" affect the
      leaderboard: two tables that agree on their accepted submissions give
      the same standings. */
  lemma OnlyAcceptedCounts(users: map<nat, User>, s1: map<nat, Submission>, s2: map<nat, Submission>, contestId: nat)
    requires AcceptedOnly(s1) == AcceptedOnly(s2)
    ensures Standings(users, s1, contestId) == Standings(users, s2, contestId)
  {
    var c1 := SubmissionsOfContest(s1, users, contestId);
    var c2 := SubmissionsOfContest(s2, users, contestId);
    assert AcceptedOnly(c1) == AcceptedOnly(c2) by {
      forall id | id in AcceptedOnly(c1) ensures id in AcceptedOnly(c2) {
        assert id in AcceptedOnly(s1);
      }
      forall id | id in AcceptedOnly(c2) ensures id in AcceptedOnly(c1) {
        assert id in AcceptedOnly(s2);
      }
    }
    BestScoresSeeOnlyAccepted(c1, c2);
  }

  /** The standings hold one entry per user of the contest. */
  lemma StandingsSize(users: map<nat, User>, submissions: map<nat, Submission>, contestId: nat)
    ensures |Standings(users, submissions, contestId)| == |UsersOfContest(users, contestId)|
  {
    var members := UsersOfContest(users, contestId);
    var best := BestScores(SubmissionsOfContest(submissions, users, contestId));
    ValuesOverSize(StandingsTable(members, best), members.Keys);
  }

  /** When usernames are unique within the contest (as joining keeps them),
      every user of the contest appears exactly once, under their username. */
  lemma EveryUserExactlyOnce(users: map<nat, User>, submissions: map<nat, Submission>, contestId: nat, userId: nat)
    requires UniqueLogins(users)
    requires InContest(users, contestId, userId)
    ensures var members := UsersOfContest(users, contestId);
            var best := BestScores(SubmissionsOfContest(submissions, users, contestId));
            var entry := StandingOf(members, best, userId);
            entry.username == users[userId].username && Standings(users, submissions, contestId)[entry] == 1
  {
    var members := UsersOfContest(users, contestId);
    var best := BestScores(SubmissionsOfContest(submissions, users, contestId));
    var table := StandingsTable(members, best);
    var entry := StandingOf(members, best, userId);
    ValuesOverRemove(table, members.Keys, userId);
    forall v | v in members.Keys - {userId} ensures table[v] != entry {
      assert !IsLogin(users[v], users[userId].username, users[userId].contestId);
    }
    ValuesOverAbsent(table, members.Keys - {userId}, entry);
  }

  // ---------------------------------------------------------------------
  // The service
  // ---------------------------------------------------------------------

  /** First loop: one zero entry per user of the contest. */
  method SeedEntries(members: map<nat, User>) returns (table: map<nat, LeaderboardEntry>)
    ensures table.Keys == members.Keys
    ensures forall u :: u in table ==> table[u] == LeaderboardEntry(members[u].username, 0, 0)
  {
    table := map[];
    var unseeded := members.Keys;
    while unseeded != {}
      invariant unseeded <= members.Keys
      invariant table.Keys == members.Keys - unseeded
      invariant forall u :: u in table ==> table[u] == LeaderboardEntry(members[u].username, 0, 0)
      decreases unseeded
    {
      var u :| u in unseeded;
      table := table[u := LeaderboardEntry(members[u].username, 0, 0)];
      unseeded := unseeded - {u};
    }
  }

  /** Second loop: the best accepted score per "userId-problemId" key. */
  method CollectBestScores(contestSubmissions: map<nat, Submission>) returns (best: map<string, int>)
    ensures best == BestScores(contestSubmissions)
  {
    best := map[];
    ghost var read: set<nat> := {};
    var unread := contestSubmissions.Keys;
    while unread != {}
      invariant read == contestSubmissions.Keys - unread
      invariant IsBestScoreMap(contestSubmissions, read, best)
      decreases unread
    {
      var id :| id in unread;
      AbsorbKeepsBest(contestSubmissions, read, id, best);
      best := BestAfter(best, contestSubmissions[id]);
      read := read + {id};
      unread := unread - {id};
    }
    BestScoresOverIsBest(contestSubmissions, contestSubmissions.Keys);
    BestScoreMapUnique(contestSubmissions, read, best, BestScores(contestSubmissions));
  }

  /** The body of the second loop: an accepted submission raises the best
      score of its user-problem key when it beats the stored one. */
  method BestAfter(best: map<string, int>, submission: Submission) returns (next: map<string, int>)
    ensures next == Absorb(best, submission)
  {
    next := best;
    if submission.status == ACCEPTED {
      var key := Key(submission.userId, submission.problemId);
      var currentBest := if key in best then best[key] else 0;
      if submission.score > currentBest {
        next := best[key := submission.score];
      }
    }
  }

  /** The body of the third loop: parse the user id out of the key and, if
      the table has an entry for it, add the score and one solved problem. */
  method CreditBestScore(table: map<nat, LeaderboardEntry>, key: string, score: int)
    returns (credited: map<nat, LeaderboardEntry>)
    ensures credited == Credit(table, UserIdOfKey(key), score)
  {
    credited := table;
    var parsed := UserIdOfKey(key);
    if parsed.Some? && parsed.value >= 0 && parsed.value in credited {
      var userId: nat := parsed.value;
      var entry := credited[userId];
      credited := credited[userId := entry.(totalScore := entry.totalScore + score,
                                            solvedProblems := entry.solvedProblems + 1)];
    }
  }

  /** Third loop: add every best score to the entry of the user its key
      names; a key naming no entry is skipped. */
  method AddBestScores(members: map<nat, User>, seeded: map<nat, LeaderboardEntry>, best: map<string, int>)
    returns (table: map<nat, LeaderboardEntry>)
    requires seeded.Keys == members.Keys
    requires forall u :: u in seeded ==> seeded[u] == LeaderboardEntry(members[u].username, 0, 0)
    ensures table == StandingsTable(members, best)
  {
    table := seeded;
    ghost var tallied: set<string> := {};
    NothingTallied(members, best, table);
    var untallied := best.Keys;
    while untallied != {}
      invariant tallied == best.Keys - untallied
      invariant TalliedOver(members, best, tallied, table)
      decreases untallied
    {
      var key :| key in untallied;
      TallyStep(members, best, tallied, key, table);
      table := CreditBestScore(table, key, best[key]);
      tallied := tallied + {key};
      untallied := untallied - {key};
    }
    assert tallied == best.Keys;
    AllTallied(members, best, table);
  }

  /** `getLeaderboard(contestId)` over the users and submissions tables. The
      first two loops visit query results, whose order the query leaves
      unspecified; the third visits a `HashMap`'s keys, also in no set order. */
  method GetLeaderboard(users: map<nat, User>, submissions: map<nat, Submission>, contestId: nat)
    returns (board: seq<LeaderboardEntry>)
    ensures multiset(board) == Standings(users, submissions, contestId)
    ensures Ranked(board)
  {
    var members := UsersOfContest(users, contestId);
    var contestSubmissions := SubmissionsOfContest(submissions, users, contestId);
    var seeded := SeedEntries(members);
    var best := CollectBestScores(contestSubmissions);
    var table := AddBestScores(members, seeded, best);
    var entries := ListValues(table);
    board := Sort(entries);
    SortIsRanked(entries);
  }
}
