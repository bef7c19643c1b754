/** The persistent entities and the leaderboard DTO, as plain values.
    Identifiers are `nat`. Row ids are generated by the database (IDENTITY
    columns) and so are never negative; a submission's `userId` and
    `problemId` come from the request unchecked, and the model takes them
    non-negative as well. */
module Entities {
  import opened Wrappers

  /** Submission statuses. The column is a free string; these are the values
      the services write. */
  const PENDING: string := "PENDING"
  const RUNNING: string := "RUNNING"
  const ACCEPTED: string := "ACCEPTED"
  const WRONG_ANSWER: string := "WRONG_ANSWER"

  /** Language stored when a submission names none. */
  const DEFAULT_LANGUAGE: string := "JAVA"

  /** A point in time (`LocalDateTime`), supplied by the caller. */
  type Timestamp = nat

  datatype Problem = Problem(
    id: nat,
    title: string,
    description: Option<string>,
    sampleInput: Option<string>,
    expectedOutput: Option<string>,
    points: int,
    contestId: nat)

  datatype Contest = Contest(
    id: nat,
    name: string,
    description: Option<string>,
    problems: seq<Problem>)

  /** A participant: one row per (username, contest) pair. */
  datatype User = User(id: nat, username: string, contestId: nat)

  /** `result` is null until the submission is judged. */
  datatype Submission = Submission(
    id: nat,
    userId: nat,
    problemId: nat,
    code: string,
    language: string,
    status: string,
    result: Option<string>,
    submittedAt: Timestamp,
    score: int)

  datatype LeaderboardEntry = LeaderboardEntry(
    username: string,
    totalScore: int,
    solvedProblems: int)

  predicate IsTerminal(status: string) {
    status == ACCEPTED || status == WRONG_ANSWER
  }
}
