/** `JudgeService`: the verdict rules of `analyzeCode` and the status
    transitions of `judgeSubmissionAsync`. The two `random.nextDouble()`
    draws are parameters: `aboveSeventy` stands for `nextDouble() > 0.7` and
    `aboveThirty` for `nextDouble() > 0.3`. */
module Judge {
  import opened Wrappers
  import opened Entities
  import opened Text
  import opened ScoreKey
  import opened Leaderboard
  import opened Store

  const CPP: string := "CPP"
  const ACCEPTED_RESULT: string := "All test cases passed!"
  const WRONG_ANSWER_RESULT: string := "Expected output doesn't match. Check your logic."

  // ---------------------------------------------------------------------
  // The verdict
  // ---------------------------------------------------------------------

  /** `analyzeCode(code, problem, language)`, where `code` is already lower
      case. The rules are tried in order and the first that applies decides. */
  function AnalyzeCode(code: string, problem: Problem, language: string, aboveSeventy: bool, aboveThirty: bool)
    : (accepted: bool)
    ensures accepted ==> !Contains(code, "syntax error") && Trim(code) != []
  {
    if Contains(code, "syntax error") || Trim(code) == [] then false
    else
      var problemTitle := ToLower(problem.title);
      if language == CPP then
        if !Contains(code, "#include") && !Contains(code, "cout") && !Contains(code, "cin") then aboveSeventy
        else if Contains(problemTitle, "add") && Contains(code, "+") then true
        else if Contains(problemTitle, "square") && (Contains(code, "*") || Contains(code, "pow")) then true
        else if Contains(problemTitle, "factorial") && Contains(code, "*") then true
        else if Contains(code, "cin") && Contains(code, "cout") then aboveThirty
        else false
      else
        if Contains(problemTitle, "add") && (Contains(code, "+") || Contains(code, "add")) then true
        else if Contains(problemTitle, "square") && (Contains(code, "*") || Contains(code, "math.pow") || Contains(code, "**")) then true
        else if Contains(problemTitle, "factorial") && (Contains(code, "factorial") || Contains(code, "*")) then true
        else if Contains(code, "scanner") || Contains(code, "input") then aboveThirty
        else false
  }

  /** The verdict the judge reaches for a submission's code: the code is
      lowered before `analyzeCode` sees it. */
  function Verdict(code: string, problem: Problem, language: string, aboveSeventy: bool, aboveThirty: bool)
    : (accepted: bool)
    ensures accepted ==> !Contains(ToLower(code), "syntax error") && !IsBlank(code)
  {
    LoweredBlankIffBlank(code);
    AnalyzeCode(ToLower(code), problem, language, aboveSeventy, aboveThirty)
  }

  // A reference reading of the rules, with the order of the chain resolved.

  /** CPP code that mentions any of `#include`, `cout` or `cin`. */
  predicate UsesStreams(code: string) {
    Contains(code, "#include") || Contains(code, "cout") || Contains(code, "cin")
  }

  /** The title-keyed rules that accept outright, per language. */
  predicate TitleRuleHolds(code: string, title: string, language: string) {
    if language == CPP then
      || (Contains(title, "add") && Contains(code, "+"))
      || (Contains(title, "square") && (Contains(code, "*") || Contains(code, "pow")))
      || (Contains(title, "factorial") && Contains(code, "*"))
    else
      || (Contains(title, "add") && (Contains(code, "+") || Contains(code, "add")))
      || (Contains(title, "square") && (Contains(code, "*") || Contains(code, "math.pow") || Contains(code, "**")))
      || (Contains(title, "factorial") && (Contains(code, "factorial") || Contains(code, "*")))
  }

  /** Code that reads its input, which passes on the 0.3 draw. */
  predicate ReadsInput(code: string, language: string) {
    if language == CPP then Contains(code, "cin") && Contains(code, "cout")
    else Contains(code, "scanner") || Contains(code, "input")
  }

  /** Code trims to nothing after lowering exactly when it is blank. */
  lemma LoweredBlankIffBlank(code: string)
    ensures Trim(ToLower(code)) == [] <==> IsBlank(code)
  {
    ToLowerKeepsBlank(code);
    TrimEmptyIffBlank(ToLower(code));
  }

  /** The verdict in one piece: code with "syntax error" in it or nothing but
      white space fails; CPP code without streams is left to the 0.7 draw;
      anything else passes on a title rule, or on reading input and the 0.3
      draw. */
  lemma VerdictCharacterised(code: string, problem: Problem, language: string, aboveSeventy: bool, aboveThirty: bool)
    ensures Verdict(code, problem, language, aboveSeventy, aboveThirty) <==>
      var lowered := ToLower(code);
      && !Contains(lowered, "syntax error")
      && !IsBlank(code)
      && if language == CPP && !UsesStreams(lowered) then aboveSeventy
         else TitleRuleHolds(lowered, ToLower(problem.title), language)
              || (ReadsInput(lowered, language) && aboveThirty)
  {
    LoweredBlankIffBlank(code);
  }

  /** Code that contains "syntax error" in any case, or is blank after
      trimming, is rejected whatever the language and the draws. */
  lemma SyntaxErrorOrBlankRejected(code: string, problem: Problem, language: string, aboveSeventy: bool, aboveThirty: bool)
    requires Contains(ToLower(code), "syntax error") || IsBlank(code)
    ensures !Verdict(code, problem, language, aboveSeventy, aboveThirty)
  {
    VerdictCharacterised(code, problem, language, aboveSeventy, aboveThirty);
  }

  /** Outside CPP, an "add" title with "+" or "add" in the code is accepted
      whatever the draws. */
  lemma AddRuleAccepts(code: string, problem: Problem, language: string, aboveSeventy: bool, aboveThirty: bool)
    requires language != CPP
    requires !Contains(ToLower(code), "syntax error") && !IsBlank(code)
    requires Contains(ToLower(problem.title), "add")
    requires Contains(ToLower(code), "+") || Contains(ToLower(code), "add")
    ensures Verdict(code, problem, language, aboveSeventy, aboveThirty)
  {
    LoweredBlankIffBlank(code);
  }

  /** Outside CPP, a "square" title with "*", "math.pow" or "**" in the code
      is accepted whatever the draws. */
  lemma SquareRuleAccepts(code: string, problem: Problem, language: string, aboveSeventy: bool, aboveThirty: bool)
    requires language != CPP
    requires !Contains(ToLower(code), "syntax error") && !IsBlank(code)
    requires Contains(ToLower(problem.title), "square")
    requires Contains(ToLower(code), "*") || Contains(ToLower(code), "math.pow") || Contains(ToLower(code), "**")
    ensures Verdict(code, problem, language, aboveSeventy, aboveThirty)
  {
    LoweredBlankIffBlank(code);
  }

  /** Outside CPP, a "factorial" title with "factorial" or "*" in the code is
      accepted whatever the draws. */
  lemma FactorialRuleAccepts(code: string, problem: Problem, language: string, aboveSeventy: bool, aboveThirty: bool)
    requires language != CPP
    requires !Contains(ToLower(code), "syntax error") && !IsBlank(code)
    requires Contains(ToLower(problem.title), "factorial")
    requires Contains(ToLower(code), "factorial") || Contains(ToLower(code), "*")
    ensures Verdict(code, problem, language, aboveSeventy, aboveThirty)
  {
    LoweredBlankIffBlank(code);
  }

  /** In CPP, code that uses streams and meets a title rule is accepted
      whatever the draws. */
  lemma CppTitleRuleAccepts(code: string, problem: Problem, aboveSeventy: bool, aboveThirty: bool)
    requires !Contains(ToLower(code), "syntax error") && !IsBlank(code)
    requires UsesStreams(ToLower(code))
    requires TitleRuleHolds(ToLower(code), ToLower(problem.title), CPP)
    ensures Verdict(code, problem, CPP, aboveSeventy, aboveThirty)
  {
    LoweredBlankIffBlank(code);
  }

  /** CPP code mentioning none of `#include`, `cout` and `cin` is decided by
      the 0.7 draw alone: the title and the other draw play no part. */
  lemma CppWithoutStreamsIsChance(code: string, problem: Problem, aboveSeventy: bool, aboveThirty: bool)
    requires !Contains(ToLower(code), "syntax error") && !IsBlank(code)
    requires !UsesStreams(ToLower(code))
    ensures Verdict(code, problem, CPP, aboveSeventy, aboveThirty) == aboveSeventy
  {
    LoweredBlankIffBlank(code);
  }

  /** When no rule applies the verdict is a rejection: an accepted
      submission met a title rule, or read its input and won the 0.3 draw,
      or is CPP without streams and won the 0.7 draw. */
  lemma AcceptedHasReason(code: string, problem: Problem, language: string, aboveSeventy: bool, aboveThirty: bool)
    requires Verdict(code, problem, language, aboveSeventy, aboveThirty)
    ensures var lowered := ToLower(code);
      || TitleRuleHolds(lowered, ToLower(problem.title), language)
      || (ReadsInput(lowered, language) && aboveThirty)
      || (language == CPP && !UsesStreams(lowered) && aboveSeventy)
  {
    VerdictCharacterised(code, problem, language, aboveSeventy, aboveThirty);
  }

  /** `analyzeCode` reads the title only once lowered. */
  lemma AnalyzeCodeSeesLoweredTitle(code: string, p1: Problem, p2: Problem, language: string, aboveSeventy: bool, aboveThirty: bool)
    requires ToLower(p1.title) == ToLower(p2.title)
    ensures AnalyzeCode(code, p1, language, aboveSeventy, aboveThirty) == AnalyzeCode(code, p2, language, aboveSeventy, aboveThirty)
  {
  }

  /** Matching ignores case in both the code and the title: code and titles
      that differ only in the case of their letters get the same verdict. */
  lemma VerdictIgnoresCase(code1: string, code2: string, title1: string, title2: string, problem: Problem,
                           language: string, aboveSeventy: bool, aboveThirty: bool)
    requires SameUpToCase(code1, code2) && SameUpToCase(title1, title2)
    ensures Verdict(code1, problem.(title := title1), language, aboveSeventy, aboveThirty)
         == Verdict(code2, problem.(title := title2), language, aboveSeventy, aboveThirty)
  {
    SameUpToCaseLowersAlike(code1, code2);
    SameUpToCaseLowersAlike(title1, title2);
    AnalyzeCodeSeesLoweredTitle(ToLower(code1), problem.(title := title1), problem.(title := title2),
                                language, aboveSeventy, aboveThirty);
  }

  // ---------------------------------------------------------------------
  // The status transitions
  // ---------------------------------------------------------------------

  /** The submission once judged: ACCEPTED with the problem's points, or
      WRONG_ANSWER with score 0, each with its result message. */
  function Judged(s: Submission, points: int, accepted: bool): (r: Submission)
    ensures IsTerminal(r.status) && (r.status == ACCEPTED <==> accepted)
    ensures r.score == if accepted then points else 0
    ensures r.result == Some(if accepted then ACCEPTED_RESULT else WRONG_ANSWER_RESULT)
    ensures r.(status := s.status, result := s.result, score := s.score) == s
  {
    if accepted then s.(status := ACCEPTED, result := Some(ACCEPTED_RESULT), score := points)
    else s.(status := WRONG_ANSWER, result := Some(WRONG_ANSWER_RESULT), score := 0)
  }

  /** Judging a submission that was not accepted as WRONG_ANSWER leaves
      every leaderboard as it was. */
  lemma WrongAnswerKeepsStandings(users: map<nat, User>, submissions: map<nat, Submission>, contestId: nat, id: nat, points: int)
    requires id in submissions && submissions[id].status != ACCEPTED
    ensures Standings(users, submissions[id := Judged(submissions[id], points, false)], contestId)
         == Standings(users, submissions, contestId)
  {
    var judged := submissions[id := Judged(submissions[id], points, false)];
    assert AcceptedOnly(judged) == AcceptedOnly(submissions);
    OnlyAcceptedCounts(users, judged, submissions, contestId);
  }

  /** After an ACCEPTED verdict the best score of the submission's user and
      problem is at least the problem's points. */
  lemma AcceptedCountsTowardsBest(submissions: map<nat, Submission>, id: nat, points: int)
    requires id in submissions
    ensures var s := submissions[id];
            ScoreOr0(BestScores(submissions[id := Judged(s, points, true)]), Key(s.userId, s.problemId)) >= points
  {
    var judged := submissions[id := Judged(submissions[id], points, true)];
    BestScoresOverIsBest(judged, judged.Keys);
    assert judged[id].status == ACCEPTED;
  }

  // ---------------------------------------------------------------------
  // The service
  // ---------------------------------------------------------------------

  class JudgeService {
    const db: Database

    constructor (db: Database)
      ensures this.db == db
    {
      this.db := db;
    }

    /** `judgeSubmissionAsync(submissionId)` run to completion. `saves` lists
        the records written by each `save`, in order. A missing submission
        fails before any write; a missing problem fails after RUNNING was
        written, and so leaves the submission RUNNING. */
    method JudgeSubmission(submissionId: nat, aboveSeventy: bool, aboveThirty: bool)
      returns (outcome: Outcome, saves: seq<Submission>)
      requires db.Valid()
      modifies db
      ensures db.Valid()
      ensures db.contests == old(db.contests) && db.problems == old(db.problems) && db.users == old(db.users)
      ensures db.nextUserId == old(db.nextUserId) && db.nextSubmissionId == old(db.nextSubmissionId)
      ensures submissionId !in old(db.submissions) ==>
        outcome == Failed("Submission not found") && saves == [] && db.submissions == old(db.submissions)
      ensures submissionId in old(db.submissions) ==>
        var running := old(db.submissions)[submissionId].(status := RUNNING);
        if running.problemId !in db.problems then
          && outcome == Failed("Problem not found")
          && saves == [running]
          && db.submissions == old(db.submissions)[submissionId := running]
        else
          var problem := db.problems[running.problemId];
          var judged := Judged(running, problem.points,
                               Verdict(running.code, problem, running.language, aboveSeventy, aboveThirty));
          && outcome == Done
          && saves == [running, judged]
          && db.submissions == old(db.submissions)[submissionId := judged]
    {
      saves := [];
      if submissionId !in db.submissions {
        return Failed("Submission not found"), saves;
      }
      var submission := db.submissions[submissionId];
      submission := submission.(status := RUNNING);
      db.submissions := db.submissions[submissionId := submission];
      saves := saves + [submission];

      if submission.problemId !in db.problems {
        return Failed("Problem not found"), saves;
      }
      var problem := db.problems[submission.problemId];
      var code := ToLower(submission.code);
      var language := submission.language;
      var isAccepted := AnalyzeCode(code, problem, language, aboveSeventy, aboveThirty);
      if isAccepted {
        submission := submission.(status := ACCEPTED, result := Some(ACCEPTED_RESULT), score := problem.points);
      } else {
        submission := submission.(status := WRONG_ANSWER, result := Some(WRONG_ANSWER_RESULT), score := 0);
      }
      db.submissions := db.submissions[submissionId := submission];
      saves := saves + [submission];
      outcome := Done;
    }
  }
}
