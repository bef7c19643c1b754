/** The JPA repositories behind the services, as one in-memory database: a
    table per entity, keyed by id, and the IDENTITY counters that hand out
    the ids of new users and submissions. */
module Store {
  import opened Entities
  import opened Queries

  class Database {
    var contests: map<nat, Contest>
    var problems: map<nat, Problem>
    var users: map<nat, User>
    var submissions: map<nat, Submission>
    /** The id the next saved user receives. */
    var nextUserId: nat
    /** The id the next saved submission receives. */
    var nextSubmissionId: nat

    /** Every row is stored under its own id, generated ids stay below their
        counter, and no two users share a (username, contest) pair. */
    ghost predicate Valid()
      reads this
    {
      && (forall id :: id in contests ==> contests[id].id == id)
      && (forall id :: id in problems ==> problems[id].id == id)
      && (forall id :: id in users ==> users[id].id == id && id < nextUserId)
      && (forall id :: id in submissions ==> submissions[id].id == id && id < nextSubmissionId)
      && UniqueLogins(users)
    }

    /** A database holding the given contests and problems, with no users
        and no submissions yet. */
    constructor (contests: map<nat, Contest>, problems: map<nat, Problem>)
      requires forall id :: id in contests ==> contests[id].id == id
      requires forall id :: id in problems ==> problems[id].id == id
      ensures Valid()
      ensures this.contests == contests && this.problems == problems
      ensures users == map[] && submissions == map[]
    {
      this.contests := contests;
      this.problems := problems;
      users := map[];
      submissions := map[];
      nextUserId := 1;
      nextSubmissionId := 1;
    }

    /** `save` of a new user: the row gets the next generated id. */
    method SaveNewUser(user: User) returns (saved: User)
      requires Valid()
      requires forall id :: id in users ==> !IsLogin(users[id], user.username, user.contestId)
      modifies this
      ensures Valid()
      ensures saved == user.(id := old(nextUserId)) && saved.id !in old(users)
      ensures users == old(users)[saved.id := saved] && nextUserId == old(nextUserId) + 1
      ensures contests == old(contests) && problems == old(problems)
      ensures submissions == old(submissions) && nextSubmissionId == old(nextSubmissionId)
    {
      saved := user.(id := nextUserId);
      users := users[saved.id := saved];
      nextUserId := nextUserId + 1;
    }

    /** `save` of a new submission: the row gets the next generated id. */
    method SaveNewSubmission(submission: Submission) returns (saved: Submission)
      requires Valid()
      modifies this
      ensures Valid()
      ensures saved == submission.(id := old(nextSubmissionId)) && saved.id !in old(submissions)
      ensures submissions == old(submissions)[saved.id := saved] && nextSubmissionId == old(nextSubmissionId) + 1
      ensures contests == old(contests) && problems == old(problems)
      ensures users == old(users) && nextUserId == old(nextUserId)
    {
      saved := submission.(id := nextSubmissionId);
      submissions := submissions[saved.id := saved];
      nextSubmissionId := nextSubmissionId + 1;
    }
  }
}
