/** The derived queries of the user and submission repositories, as filters
    over the id-keyed tables. A user's id is its key in the users table
    (`Store.Database.Valid` keeps the two equal). */
module Queries {
  import opened Wrappers
  import opened Entities

  /** `userRepository.findByContestId(contestId)`. */
  function UsersOfContest(users: map<nat, User>, contestId: nat): (r: map<nat, User>)
    ensures forall id :: id in r <==> id in users && users[id].contestId == contestId
    ensures forall id :: id in r ==> r[id] == users[id]
  {
    map id | id in users && users[id].contestId == contestId :: users[id]
  }

  /** `userId` is the id of a user of the contest. */
  predicate InContest(users: map<nat, User>, contestId: nat, userId: nat) {
    userId in users && users[userId].contestId == contestId
  }

  /** `submissionRepository.findByContestId(contestId)`: the submissions whose
      `userId` is among the ids of the contest's users. */
  function SubmissionsOfContest(submissions: map<nat, Submission>, users: map<nat, User>, contestId: nat)
    : (r: map<nat, Submission>)
    ensures forall id :: id in r <==> id in submissions && InContest(users, contestId, submissions[id].userId)
    ensures forall id :: id in r ==> r[id] == submissions[id]
  {
    map id | id in submissions && InContest(users, contestId, submissions[id].userId) :: submissions[id]
  }

  predicate IsLogin(user: User, username: string, contestId: nat) {
    user.username == username && user.contestId == contestId
  }

  /** At most one user per (username, contest): the derived query
      `findByUsernameAndContestId` returns an `Optional` and so admits no more. */
  predicate UniqueLogins(users: map<nat, User>) {
    forall a, b :: a in users && b in users && IsLogin(users[b], users[a].username, users[a].contestId) ==> a == b
  }

  /** `userRepository.findByUsernameAndContestId(username, contestId)`. */
  function FindLogin(users: map<nat, User>, username: string, contestId: nat): (r: Option<User>)
    requires UniqueLogins(users)
    ensures r.Some? <==> exists id :: id in users && IsLogin(users[id], username, contestId)
    ensures r.Some? ==> r.value in users.Values
    ensures r.Some? ==> IsLogin(r.value, username, contestId)
  {
    if exists id :: id in users && IsLogin(users[id], username, contestId) then
      var id :| id in users && IsLogin(users[id], username, contestId);
      Some(users[id])
    else
      None
  }

  /** With logins unique, the lookup finds the one user holding the login. */
  lemma FindLoginFinds(users: map<nat, User>, id: nat)
    requires UniqueLogins(users)
    requires id in users
    ensures FindLogin(users, users[id].username, users[id].contestId) == Some(users[id])
  {
    var found := FindLogin(users, users[id].username, users[id].contestId);
    var j :| j in users && users[j] == found.value;
  }
}
