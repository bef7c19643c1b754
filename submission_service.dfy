/** `SubmissionService`: storing new submissions, looking them up and
    overwriting their verdict. */
module Submissions {
  import opened Wrappers
  import opened Entities
  import opened Queries
  import opened Tables
  import opened Store

  const SUBMISSION_NOT_FOUND: string := "Submission not found"

  class SubmissionService {
    const db: Database

    constructor (db: Database)
      ensures this.db == db
    {
      this.db := db;
    }

    /** `submitCode(userId, problemId, code, language)` at time `now`. The
        record is saved PENDING with score 0 and no result; a missing
        language is stored as "JAVA". `judgeRequest` is the id handed to
        `judgeSubmissionAsync`, which runs later. */
    method SubmitCode(userId: nat, problemId: nat, code: string, language: Option<string>, now: Timestamp)
      returns (saved: Submission, judgeRequest: nat)
      requires db.Valid()
      modifies db
      ensures db.Valid()
      ensures saved == Submission(saved.id, userId, problemId, code, language.GetOr(DEFAULT_LANGUAGE), PENDING, None, now, 0)
      ensures saved.id !in old(db.submissions) && db.submissions == old(db.submissions)[saved.id := saved]
      ensures judgeRequest == saved.id
      ensures db.contests == old(db.contests) && db.problems == old(db.problems) && db.users == old(db.users)
      ensures db.nextUserId == old(db.nextUserId)
    {
      var submission := Submission(0, userId, problemId, code,
                                   if language.Some? then language.value else DEFAULT_LANGUAGE,
                                   PENDING, None, now, 0);
      saved := db.SaveNewSubmission(submission);
      judgeRequest := saved.id;
    }

    /** `getSubmission(submissionId)`: the stored record, or a failure. */
    function GetSubmission(submissionId: nat): (r: Result<Submission>)
      reads db
      ensures r.Ok? <==> submissionId in db.submissions
      ensures r.Ok? ==> r.value == db.submissions[submissionId]
      ensures r.Err? ==> r.message == SUBMISSION_NOT_FOUND
    {
      if submissionId in db.submissions then Ok(db.submissions[submissionId]) else Err(SUBMISSION_NOT_FOUND)
    }

    /** `getSubmissionsByContestId(contestId)`: every submission of a user of
        the contest, once each, in table order. */
    method GetSubmissionsByContestId(contestId: nat) returns (list: seq<Submission>)
      ensures forall s :: s in list <==> s in db.submissions.Values && InContest(db.users, contestId, s.userId)
      ensures var found := SubmissionsOfContest(db.submissions, db.users, contestId);
              multiset(list) == ValuesOver(found, found.Keys)
      ensures |list| == |SubmissionsOfContest(db.submissions, db.users, contestId)|
    {
      var found := SubmissionsOfContest(db.submissions, db.users, contestId);
      list := ListValues(found);
      ValuesOverSize(found, found.Keys);
      forall s ensures s in list <==> s in db.submissions.Values && InContest(db.users, contestId, s.userId) {
        ValuesOverHas(found, found.Keys, s);
        assert s in list <==> s in multiset(list);
      }
    }

    /** `updateSubmission(id, status, result, score)`: overwrites exactly
        those three fields of a stored submission. */
    method UpdateSubmission(id: nat, status: string, result: Option<string>, score: int) returns (outcome: Outcome)
      requires db.Valid()
      modifies db
      ensures db.Valid()
      ensures id !in old(db.submissions) ==>
        outcome == Failed(SUBMISSION_NOT_FOUND) && db.submissions == old(db.submissions)
      ensures id in old(db.submissions) ==>
        && outcome == Done
        && db.submissions == old(db.submissions)[id := old(db.submissions)[id].(status := status, result := result, score := score)]
      ensures db.contests == old(db.contests) && db.problems == old(db.problems) && db.users == old(db.users)
      ensures db.nextUserId == old(db.nextUserId) && db.nextSubmissionId == old(db.nextSubmissionId)
    {
      if id !in db.submissions {
        return Failed(SUBMISSION_NOT_FOUND);
      }
      var submission := db.submissions[id];
      submission := submission.(status := status, result := result, score := score);
      db.submissions := db.submissions[id := submission];
      outcome := Done;
    }
  }

  /** A submission can be read back under the id `submitCode` returned, and
      judging is requested for that same record. */
  method SubmitThenGet(service: SubmissionService, userId: nat, problemId: nat, code: string, language: Option<string>, now: Timestamp)
    returns (saved: Submission, judgeRequest: nat, fetched: Result<Submission>)
    requires service.db.Valid()
    modifies service.db
    ensures fetched == Ok(saved)
    ensures judgeRequest == saved.id
    ensures saved.status == PENDING && saved.score == 0 && saved.result == None
    ensures saved.language == if language.Some? then language.value else DEFAULT_LANGUAGE
  {
    saved, judgeRequest := service.SubmitCode(userId, problemId, code, language, now);
    fetched := service.GetSubmission(judgeRequest);
  }

  /** After an update the stored submission carries the new status, result
      and score and its other fields as before. */
  method UpdateThenGet(service: SubmissionService, id: nat, status: string, result: Option<string>, score: int)
    returns (before: Result<Submission>, outcome: Outcome, after: Result<Submission>)
    requires service.db.Valid()
    modifies service.db
    ensures before.Err? <==> outcome.Failed?
    ensures before.Err? ==> after == before
    ensures before.Ok? ==> after.Ok? && after.value == before.value.(status := status, result := result, score := score)
  {
    before := service.GetSubmission(id);
    outcome := service.UpdateSubmission(id, status, result, score);
    after := service.GetSubmission(id);
  }
}
