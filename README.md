# Shodh contest platform: backend bookkeeping in Dafny

This project models the contest bookkeeping of the Shodh contest platform's
Spring backend and proves properties about it. It covers four services.

- **Leaderboard** (`LeaderboardService.getLeaderboard`). One zero entry is
  seeded per user of the contest. The best ACCEPTED score is kept per
  `"userId-problemId"` key. The key is split and parsed back to credit each
  best score to its user. The entries are ranked by total score descending,
  then username ascending.
- **Judge** (`JudgeService`). `analyzeCode` is a chain of substring rules over
  the lowered code and title. `judgeSubmissionAsync` moves a submission to
  RUNNING, then to ACCEPTED (score = the problem's points) or to WRONG_ANSWER
  (score 0), each with its result message.
- **Submissions** (`SubmissionService`). It submits a PENDING record, looks a
  submission up, lists a contest's submissions and overwrites a verdict.
- **Contests** (`ContestService`). It looks a contest up and joins a contest
  under a username (find-or-create).

How the model is built:

- The JPA repositories are one in-memory `Store.Database` object. It holds a
  map per table, keyed by id, plus the IDENTITY counters for new users and
  submissions.
- The services are classes holding that database. Their methods modify it as
  `save` does.
- The derived queries `findByContestId` and `findByUsernameAndContestId`
  are filter functions in `Queries`.
- Entities and the leaderboard DTO are datatypes in `Entities`.
- A Java `RuntimeException` with a message becomes `Err(message)` or
  `Failed(message)`.

How each service is specified:

- **Leaderboard.** `getLeaderboard` keeps its three loops. The first two
  visit the query results for the contest's users and their submissions,
  whose order the JPQL query leaves unspecified. The third visits the keys of
  a `HashMap`, also in an unspecified order. Each loop is proved against a
  specification function:
  - `BestScores` is the unique map satisfying `IsBestScoreMap`.
  - `StandingsTable` sums each user's best scores.
  - `Standings` is the resulting multiset of entries.

  The final stream sort is an insertion sort (`Ranking.Sort`), proved to be a
  permutation that is `Ranked`.
- **Judge.** `analyzeCode` is a function. The two `random.nextDouble()`
  comparisons are the boolean parameters `aboveSeventy` (`> 0.7`) and
  `aboveThirty` (`> 0.3`). `VerdictCharacterised` restates the chain with its
  order resolved. The rule-by-rule properties follow from it.

## Model

| member | source | states |
|---|---|---|
| Leaderboard.GetLeaderboard | backend/src/main/java/com/shodhacode/service/LeaderboardService.java:20-57 | the list holds exactly the standings (one entry per contest user with the sum and count of their best accepted scores), as a permutation, ranked by score descending then username ascending |
| Leaderboard.SeedEntries | backend/src/main/java/com/shodhacode/service/LeaderboardService.java:24-28 | the table has one key per contest user, each mapped to (username, 0, 0) |
| Leaderboard.CollectBestScores | backend/src/main/java/com/shodhacode/service/LeaderboardService.java:30-41 | the loop over submissions ends with exactly `BestScores`, whatever the visiting order |
| Leaderboard.BestAfter | backend/src/main/java/com/shodhacode/service/LeaderboardService.java:33-39 | one loop pass: an accepted submission replaces its key's best (missing = 0) only when it scores strictly more |
| Leaderboard.Absorb | backend/src/main/java/com/shodhacode/service/LeaderboardService.java:33-39 | a non-accepted submission changes nothing; an accepted one sets its key's best to the larger of the stored best (missing = 0) and its score; every other key is untouched |
| Leaderboard.AbsorbKeepsAttained | backend/src/main/java/com/shodhacode/service/LeaderboardService.java:33-39 | after a pass every stored value is positive and attained by an accepted submission seen so far |
| Leaderboard.AbsorbKeepsBest | backend/src/main/java/com/shodhacode/service/LeaderboardService.java:32-41 | each pass keeps the map a best-score map: every stored value is positive and attained by an accepted submission seen so far, and no seen accepted submission scores above its key's value |
| Leaderboard.BestScoresOverIsBest | backend/src/main/java/com/shodhacode/service/LeaderboardService.java:30-41 | a best-score map exists for every set of submissions |
| Leaderboard.BestScoreMapUnique | backend/src/main/java/com/shodhacode/service/LeaderboardService.java:30-41 | the best-score map is unique, so the visiting order does not matter |
| Leaderboard.BestScoreBelow | backend/src/main/java/com/shodhacode/service/LeaderboardService.java:30-41 | a key of one best-score map is in any other with at least the same value |
| Leaderboard.BestKeyHasWitness | backend/src/main/java/com/shodhacode/service/LeaderboardService.java:33-38 | every stored best score is the score of an accepted submission with that key, and the key parses to that submission's user |
| Leaderboard.BestScoreIsMaximum | backend/src/main/java/com/shodhacode/service/LeaderboardService.java:34-39 | the best score of (user, problem) is the maximum of its accepted scores when positive and 0 otherwise; scores are not summed |
| Leaderboard.NoPositiveScoreNoEntry | backend/src/main/java/com/shodhacode/service/LeaderboardService.java:35-38 | a (user, problem) pair whose accepted scores are all at most 0 gets no best-score entry |
| Leaderboard.CreditBestScore | backend/src/main/java/com/shodhacode/service/LeaderboardService.java:44-50 | parsing the key's user id and adding the score and one solved problem to that user's entry, only if the table has one |
| Leaderboard.Credit | backend/src/main/java/com/shodhacode/service/LeaderboardService.java:44-50 | the table keeps its keys; only the entry of the user the key names gains the score and one solved problem, every other entry is unchanged |
| Leaderboard.AddBestScores | backend/src/main/java/com/shodhacode/service/LeaderboardService.java:43-51 | the loop over best scores turns the seeded table into `StandingsTable`: per user, the sum of their best scores and the number of them |
| Leaderboard.TallyStep | backend/src/main/java/com/shodhacode/service/LeaderboardService.java:43-51 | crediting one more best score keeps every entry equal to the tally of the keys credited so far |
| Leaderboard.TallyAdd | backend/src/main/java/com/shodhacode/service/LeaderboardService.java:48-49 | adding a key to a user's tally adds its score and one solved problem exactly when the key parses to that user |
| Leaderboard.StandingsTable | backend/src/main/java/com/shodhacode/service/LeaderboardService.java:43-51 | the intended table has exactly the contest users as keys |
| Leaderboard.CreditedKeysAreOwnProblems | backend/src/main/java/com/shodhacode/service/LeaderboardService.java:43-50 | the keys credited to a user are exactly the keys `Key(user, problem)` that hold a best score |
| Leaderboard.BestScoreOwnersAreMembers | backend/src/main/java/com/shodhacode/service/LeaderboardService.java:44-47 | every best-score key of the contest parses to the id of a user of the contest, so the parse never fails and no score is skipped by the null check |
| Leaderboard.IdleUserScoresZero | backend/src/main/java/com/shodhacode/service/LeaderboardService.java:26-28 | a contest user with no positively scored accepted submission stands at (username, 0, 0) |
| Leaderboard.BestScoresSeeOnlyAccepted | backend/src/main/java/com/shodhacode/service/LeaderboardService.java:33 | submission tables that agree on their ACCEPTED rows have the same best scores |
| Leaderboard.OnlyAcceptedCounts | backend/src/main/java/com/shodhacode/service/LeaderboardService.java:33 | submission tables that agree on their ACCEPTED rows give the same standings: no other status affects any entry |
| Leaderboard.StandingsSize | backend/src/main/java/com/shodhacode/service/LeaderboardService.java:24-28 | the standings have as many entries as the contest has users |
| Leaderboard.EveryUserExactlyOnce | backend/src/main/java/com/shodhacode/service/LeaderboardService.java:26-28 | with usernames unique per contest, each contest user's entry carries their username and occurs exactly once |
| Tables.ListValues | backend/src/main/java/com/shodhacode/service/LeaderboardService.java:53 | listing a map's values yields each key's value exactly once |
| ScoreKey.NatToString | backend/src/main/java/com/shodhacode/service/LeaderboardService.java:34 | an id's decimal text is non-empty and all digits |
| ScoreKey.FirstField | backend/src/main/java/com/shodhacode/service/LeaderboardService.java:44 | `split("-")[0]` is a dash-free prefix of the key |
| ScoreKey.FirstFieldOfJoin | backend/src/main/java/com/shodhacode/service/LeaderboardService.java:44 | the first field of `a + "-" + b` is `a` when `a` has no dash |
| ScoreKey.Key | backend/src/main/java/com/shodhacode/service/LeaderboardService.java:34 | the key is the user id's decimal text, a dash, and the problem id's decimal text: its first field is the user id's text and the rest after the dash the problem id's |
| ScoreKey.ParseLong | backend/src/main/java/com/shodhacode/service/LeaderboardService.java:44 | `parseLong` fails exactly on empty text or text with a non-digit, and never yields a negative value |
| ScoreKey.UserIdOfKey | backend/src/main/java/com/shodhacode/service/LeaderboardService.java:44 | `parseLong(key.split("-")[0])` yields a non-negative id, and only when the first field is a non-empty run of digits |
| ScoreKey.DigitsHaveNoDash | backend/src/main/java/com/shodhacode/service/LeaderboardService.java:34-44 | decimal text holds no dash, so `split("-")` cuts a key right after the user id |
| ScoreKey.DigitsValueOfNatToString | backend/src/main/java/com/shodhacode/service/LeaderboardService.java:44 | the value of an id's decimal digits is the id |
| ScoreKey.ParseLongOfNatToString | backend/src/main/java/com/shodhacode/service/LeaderboardService.java:44 | `parseLong` of an id's decimal text returns the id |
| ScoreKey.KeyRoundTrip | backend/src/main/java/com/shodhacode/service/LeaderboardService.java:34-44 | splitting `userId + "-" + problemId` and parsing the first field gives back `userId` |
| ScoreKey.KeyInjective | backend/src/main/java/com/shodhacode/service/LeaderboardService.java:34 | distinct (user, problem) pairs have distinct keys |
| Ranking.LexLeTotal | backend/src/main/java/com/shodhacode/service/LeaderboardService.java:55 | any two usernames are ordered one way or the other |
| Ranking.LexLeTransitive | backend/src/main/java/com/shodhacode/service/LeaderboardService.java:55 | the username order is transitive |
| Ranking.LexLe | backend/src/main/java/com/shodhacode/service/LeaderboardService.java:55 | `a.compareTo(b) <= 0`; a prefix comes first |
| Ranking.LexLeAntisymmetric | backend/src/main/java/com/shodhacode/service/LeaderboardService.java:55 | two usernames each at most the other are equal |
| Ranking.Precedes | backend/src/main/java/com/shodhacode/service/LeaderboardService.java:54-55 | the comparator: a higher total always comes first, and an entry placed first never has the lower total |
| Ranking.PrecedesTotal | backend/src/main/java/com/shodhacode/service/LeaderboardService.java:54-55 | the comparator (score descending, then username) orders any two entries |
| Ranking.PrecedesTransitive | backend/src/main/java/com/shodhacode/service/LeaderboardService.java:54-55 | the comparator is transitive |
| Ranking.Insert | backend/src/main/java/com/shodhacode/service/LeaderboardService.java:53-55 | inserting keeps all entries and adds exactly the new one |
| Ranking.Sort | backend/src/main/java/com/shodhacode/service/LeaderboardService.java:53-55 | sorting is a permutation of its input |
| Ranking.InsertKeepsRanked | backend/src/main/java/com/shodhacode/service/LeaderboardService.java:53-55 | inserting into a ranked list keeps it ranked |
| Ranking.ConsRanked | backend/src/main/java/com/shodhacode/service/LeaderboardService.java:53-55 | an entry ranked before all of a ranked list can head it |
| Ranking.PrecedesInserted | backend/src/main/java/com/shodhacode/service/LeaderboardService.java:53-55 | an entry ranked before `x` and before every entry of a list is ranked before every entry once `x` is inserted |
| Ranking.SortIsRanked | backend/src/main/java/com/shodhacode/service/LeaderboardService.java:53-55 | the sorted leaderboard is ranked by score descending, then username ascending |
| Queries.UsersOfContest | backend/src/main/java/com/shodhacode/repository/UserRepository.java:13 | exactly the users whose contestId is the given one |
| Queries.SubmissionsOfContest | backend/src/main/java/com/shodhacode/repository/SubmissionRepository.java:15-17 | exactly the submissions whose userId is the id of a user of the contest |
| Queries.FindLogin | backend/src/main/java/com/shodhacode/repository/UserRepository.java:12 | finds a user exactly when one has this username and contest, and only such a user |
| Queries.FindLoginFinds | backend/src/main/java/com/shodhacode/repository/UserRepository.java:12 | with unique logins the lookup returns the one user holding the login |
| Text.ToLower | backend/src/main/java/com/shodhacode/service/JudgeService.java:36 | lowering keeps the length, turns every upper-case ASCII letter into its lower-case letter and leaves every other character as it is; no upper-case letter remains |
| Text.ToLowerSameUpToCase | backend/src/main/java/com/shodhacode/service/JudgeService.java:36 | a string and its lowered form differ only in the case of letters |
| Text.SameUpToCaseLowersAlike | backend/src/main/java/com/shodhacode/service/JudgeService.java:36 | strings that differ only in the case of letters lower to the same string |
| Text.ToLowerIdempotent | backend/src/main/java/com/shodhacode/service/JudgeService.java:36 | lowering twice is lowering once |
| Text.ContainsAt | backend/src/main/java/com/shodhacode/service/JudgeService.java:58 | `contains` holds exactly when the text occurs at some position |
| Text.Contains | backend/src/main/java/com/shodhacode/service/JudgeService.java:58 | `s.contains(t)`: the empty text is always contained, and a text longer than `s` never is; `ContainsAt` states it exactly |
| Text.Trim | backend/src/main/java/com/shodhacode/service/JudgeService.java:58 | `trim()` is no longer than the text, and what remains starts and ends with a character above a space, or is empty |
| Text.TrimStart | backend/src/main/java/com/shodhacode/service/JudgeService.java:58 | the leading-trimmed text starts with a character above a space, or is empty |
| Text.TrimEnd | backend/src/main/java/com/shodhacode/service/JudgeService.java:58 | the trailing-trimmed text is a prefix of the text and ends with a character above a space, or is empty |
| Text.TrimStartEmptyIffBlank | backend/src/main/java/com/shodhacode/service/JudgeService.java:58 | trimming the start empties the text exactly when every character is at most a space |
| Text.TrimEndOfNonEmptyStart | backend/src/main/java/com/shodhacode/service/JudgeService.java:58 | trimming the end of text that starts with a character above a space leaves it non-empty |
| Text.TrimEmptyIffBlank | backend/src/main/java/com/shodhacode/service/JudgeService.java:58 | `trim().isEmpty()` holds exactly when the text is blank |
| Text.ToLowerKeepsBlank | backend/src/main/java/com/shodhacode/service/JudgeService.java:36-58 | lowering neither makes text blank nor makes blank text non-blank |
| Judge.AnalyzeCode | backend/src/main/java/com/shodhacode/service/JudgeService.java:57-99 | the verdict chain on lowered code; an accept always has code without "syntax error" that is non-empty after trimming (lines 58-60) |
| Judge.Verdict | backend/src/main/java/com/shodhacode/service/JudgeService.java:36-38 | the code is lowered before `analyzeCode`; an accepted submission's code has no "syntax error" in any case and is not blank |
| Judge.LoweredBlankIffBlank | backend/src/main/java/com/shodhacode/service/JudgeService.java:36-58 | code trims to nothing after lowering exactly when it is blank |
| Judge.VerdictCharacterised | backend/src/main/java/com/shodhacode/service/JudgeService.java:57-99 | accepted iff the code has no "syntax error" and is not blank, and then either CPP code without streams wins the 0.7 draw, or a title rule holds, or the code reads input and wins the 0.3 draw |
| Judge.SyntaxErrorOrBlankRejected | backend/src/main/java/com/shodhacode/service/JudgeService.java:58-60 | code with "syntax error" in any case, or blank code, is rejected for every language and draw |
| Judge.AddRuleAccepts | backend/src/main/java/com/shodhacode/service/JudgeService.java:83-85 | outside CPP, an "add" title with "+" or "add" in the code is accepted for every draw |
| Judge.SquareRuleAccepts | backend/src/main/java/com/shodhacode/service/JudgeService.java:86-88 | outside CPP, a "square" title with "*", "math.pow" or "**" in the code is accepted for every draw |
| Judge.FactorialRuleAccepts | backend/src/main/java/com/shodhacode/service/JudgeService.java:89-91 | outside CPP, a "factorial" title with "factorial" or "*" in the code is accepted for every draw |
| Judge.CppTitleRuleAccepts | backend/src/main/java/com/shodhacode/service/JudgeService.java:69-77 | in CPP, code using streams that meets the add, square or factorial rule is accepted for every draw |
| Judge.CppWithoutStreamsIsChance | backend/src/main/java/com/shodhacode/service/JudgeService.java:64-67 | in CPP, valid code without `#include`, `cout` and `cin` is accepted exactly when the 0.7 draw says so, whatever the title |
| Judge.AcceptedHasReason | backend/src/main/java/com/shodhacode/service/JudgeService.java:79-98 | an accepted verdict always has a reason: a title rule, or reading input with the 0.3 draw, or CPP without streams with the 0.7 draw; otherwise the verdict is reject |
| Judge.VerdictIgnoresCase | backend/src/main/java/com/shodhacode/service/JudgeService.java:36-62 | code and titles that differ only in the case of their letters get the same verdict |
| Judge.AnalyzeCodeSeesLoweredTitle | backend/src/main/java/com/shodhacode/service/JudgeService.java:62 | problems whose titles lower alike get the same verdict: the title is read only once lowered |
| Judge.Judged | backend/src/main/java/com/shodhacode/service/JudgeService.java:40-48 | the judged record is terminal; it is ACCEPTED with the points and "All test cases passed!" exactly when the verdict is accept, otherwise WRONG_ANSWER with 0 and the mismatch message; no other field changes |
| Judge.WrongAnswerKeepsStandings | backend/src/main/java/com/shodhacode/service/JudgeService.java:44-48 | judging a not-yet-accepted submission WRONG_ANSWER changes no leaderboard |
| Judge.AcceptedCountsTowardsBest | backend/src/main/java/com/shodhacode/service/JudgeService.java:40-43 | after an ACCEPTED verdict, the best score of that user and problem is at least the problem's points |
| Judge.JudgeService.JudgeSubmission | backend/src/main/java/com/shodhacode/service/JudgeService.java:20-55 | an unknown submission fails with "Submission not found" and nothing is written; otherwise RUNNING is saved first; a missing problem then fails with "Problem not found", leaving RUNNING; else the verdict's judged record is saved second; nothing else in the database changes |
| Judge.JudgeService.constructor | backend/src/main/java/com/shodhacode/service/JudgeService.java:13-18 | the service works on the given database |
| Store.Database.SaveNewUser | backend/src/main/java/com/shodhacode/service/ContestService.java:27-31 | saving a new user assigns the next id, adds exactly that row and keeps the database valid |
| Store.Database.SaveNewSubmission | backend/src/main/java/com/shodhacode/service/SubmissionService.java:22-31 | saving a new submission assigns the next id, adds exactly that row and keeps the database valid |
| Submissions.SubmissionService.constructor | backend/src/main/java/com/shodhacode/service/SubmissionService.java:14-19 | the service works on the given database |
| Submissions.SubmissionService.SubmitCode | backend/src/main/java/com/shodhacode/service/SubmissionService.java:21-36 | the saved record has the given user, problem, code and time; it is PENDING with score 0 and no result; its language is the given one or "JAVA"; the store grows by exactly that record under a fresh id, and the user counter is unchanged; judging is requested for that id |
| Submissions.SubmissionService.GetSubmission | backend/src/main/java/com/shodhacode/service/SubmissionService.java:38-41 | the stored record for a known id, "Submission not found" otherwise |
| Submissions.SubmissionService.GetSubmissionsByContestId | backend/src/main/java/com/shodhacode/service/SubmissionService.java:43-45 | the list holds exactly the stored submissions of the contest's users, each row's record once per row (as a multiset of the filtered table's values) |
| Submissions.SubmissionService.UpdateSubmission | backend/src/main/java/com/shodhacode/service/SubmissionService.java:47-54 | a known submission gets the new status, result and score and keeps every other field; other rows and tables are unchanged; an unknown id fails with "Submission not found" and changes nothing |
| Submissions.SubmitThenGet | backend/src/main/java/com/shodhacode/service/SubmissionService.java:21-41 | a submission is read back unchanged under the id `submitCode` returned |
| Submissions.UpdateThenGet | backend/src/main/java/com/shodhacode/service/SubmissionService.java:47-54 | after an update the submission reads back with the three new fields; after a failed update it reads back as before |
| Contests.ContestService.constructor | backend/src/main/java/com/shodhacode/service/ContestService.java:10-14 | the service works on the given database |
| Contests.ContestService.GetContest | backend/src/main/java/com/shodhacode/service/ContestService.java:16-19 | the stored contest for a known id, "Contest not found" otherwise |
| Contests.ContestService.JoinContest | backend/src/main/java/com/shodhacode/service/ContestService.java:21-33 | an unknown contest fails with "Contest not found" and creates no user; an existing (username, contest) user is returned with the store and the id counter unchanged; otherwise exactly one new user is added under the next id, the counter advances by one, and the user is returned; logins stay unique |
| Contests.JoinTwice | backend/src/main/java/com/shodhacode/service/ContestService.java:26-32 | joining twice returns the same result, and no other user holds that login |
| Contests.JoinTwoContests | backend/src/main/java/com/shodhacode/service/ContestService.java:26-30 | the same username in two different contests yields two distinct users |

## Left out

- The controllers and the frontend are left out. They are HTTP and UI
  wrappers around the services.
- `User.java`, `ContestRepository.java` and `ProblemRepository.java` are not
  part of this model. A user is modelled as (id, username, contestId), as the
  services and queries use it. Contests and problems are looked up by id in
  `Store.Database`.
- The user table's uniqueness of (username, contestId) is not enforced by any
  schema in the source. `Store.Database.Valid` assumes it, because
  `findByUsernameAndContestId` returns an `Optional`, and `JoinContest`
  preserves it.
- `Thread.sleep`, `@Async` and the `InterruptedException` handler are left
  out. Judging runs as one sequential step. `SubmitCode` returns the id handed
  to the judge instead of starting it.
- `random.nextDouble()` is left out. Each comparison is a boolean parameter.
- `LocalDateTime.now()` is left out. The time is a parameter.
- Java `null` is not modelled for `userId`, `problemId`, `code`, `title`,
  `points` or `score`. In Java these would throw a `NullPointerException`
  (for example, a null score in the leaderboard's comparison). A null
  `result` or `language` is modelled as `None`.
- Leaderboard.GetLeaderboard: totals are unbounded integers. The Java
  `Integer` sum of best scores can wrap around at 2^31, which is not modelled.
- Leaderboard.GetLeaderboard: the Java sort is stable (TimSort) over
  `HashMap` order. Entries with equal score and username therefore appear in
  an unspecified order. The model states the order only up to the comparator
  (`Ranked`).
- Ranking.LexLe: usernames are compared by Unicode code point. Java's
  `compareTo` compares UTF-16 code units. The two differ only for characters
  beyond the Basic Multilingual Plane.
- ScoreKey.ParseLong: only unsigned strings of ASCII digits are parsed.
  Leading signs and the `Long` overflow check are not modelled. Java's
  `parseLong` also accepts non-ASCII decimal digits (it reads them through
  `Character.digit`, so Arabic-Indic one parses to 1), where the model
  returns `None`. A key built from non-negative ids by `Long.toString` never
  has a sign, an overflow or such digits, and ids are generated and so
  non-negative.
- Leaderboard.Credit: a key whose first field does not parse (or is empty)
  is skipped. Java throws `NumberFormatException` (or
  `ArrayIndexOutOfBoundsException` for a key made only of dashes, which
  splits into no fields) instead.
  `Leaderboard.BestScoreOwnersAreMembers` shows that no key the leaderboard
  builds takes this path, so no result differs.
- Entities.Submission: `userId` and `problemId` are `nat`. `submitCode`
  stores whatever ids the request carries, negative ones included. A
  negative user id matches no generated user id. A negative problem id
  matches no stored problem. Such rows therefore behave like rows with an
  absent id, which the model covers.
- Text.ToLower: only ASCII letters are lowered. Java's locale-dependent
  Unicode lowering is not modelled.
- `Submission.java` has no `language` field, yet `JudgeService` reads one and
  `submitCode` sets one. The model gives `Submission` a `language` field.
- `SubmissionController` calls `submitCode` with three arguments; the service
  takes four. The model follows the service. A missing language is `None`,
  stored as "JAVA".
- Judge.JudgeService.JudgeSubmission: a missing problem is detected after
  RUNNING has been saved. The submission therefore stays RUNNING; it is not
  left in its previous status. The model follows the code.
