/** `ContestService`: looking up a contest and joining it under a username. */
module Contests {
  import opened Wrappers
  import opened Entities
  import opened Queries
  import opened Store

  const CONTEST_NOT_FOUND: string := "Contest not found"

  class ContestService {
    const db: Database

    constructor (db: Database)
      ensures this.db == db
    {
      this.db := db;
    }

    /** `getContest(contestId)`: the stored contest, or a failure. */
    function GetContest(contestId: nat): (r: Result<Contest>)
      reads db
      ensures r.Ok? <==> contestId in db.contests
      ensures r.Ok? ==> r.value == db.contests[contestId]
      ensures r.Err? ==> r.message == CONTEST_NOT_FOUND
    {
      if contestId in db.contests then Ok(db.contests[contestId]) else Err(CONTEST_NOT_FOUND)
    }

    /** `joinContest(username, contestId)`: the user already holding this
        username in this contest, or else a new one saved with the next id. */
    method JoinContest(username: string, contestId: nat) returns (r: Result<User>)
      requires db.Valid()
      modifies db
      ensures db.Valid()
      ensures db.contests == old(db.contests) && db.problems == old(db.problems)
      ensures db.submissions == old(db.submissions) && db.nextSubmissionId == old(db.nextSubmissionId)
      ensures contestId !in old(db.contests) ==>
        r == Err(CONTEST_NOT_FOUND) && db.users == old(db.users) && db.nextUserId == old(db.nextUserId)
      ensures contestId in old(db.contests) && FindLogin(old(db.users), username, contestId).Some? ==>
        && r == Ok(FindLogin(old(db.users), username, contestId).value)
        && db.users == old(db.users) && db.nextUserId == old(db.nextUserId)
      ensures contestId in old(db.contests) && FindLogin(old(db.users), username, contestId).None? ==>
        && r == Ok(User(old(db.nextUserId), username, contestId))
        && r.value.id !in old(db.users)
        && db.users == old(db.users)[r.value.id := r.value]
        && db.nextUserId == old(db.nextUserId) + 1
      ensures forall id :: id in old(db.users) ==> id in db.users && db.users[id] == old(db.users)[id]
      ensures r.Ok? ==> r.value.id in db.users && db.users[r.value.id] == r.value
      ensures r.Ok? ==> IsLogin(r.value, username, contestId) && FindLogin(db.users, username, contestId) == Some(r.value)
    {
      if contestId !in db.contests {
        return Err(CONTEST_NOT_FOUND);
      }
      var existing := FindLogin(db.users, username, contestId);
      if existing.Some? {
        var id :| id in db.users && db.users[id] == existing.value;
        FindLoginFinds(db.users, id);
        return Ok(existing.value);
      }
      var newUser := User(0, username, contestId);
      var saved := db.SaveNewUser(newUser);
      FindLoginFinds(db.users, saved.id);
      r := Ok(saved);
    }
  }

  /** Joining twice with the same username and contest returns the same
      user, and no other user holds that login. */
  method JoinTwice(service: ContestService, username: string, contestId: nat) returns (first: Result<User>, second: Result<User>)
    requires service.db.Valid()
    modifies service.db
    ensures first == second
    ensures first.Ok? ==> forall id :: id in service.db.users && IsLogin(service.db.users[id], username, contestId) ==> id == first.value.id
  {
    first := service.JoinContest(username, contestId);
    second := service.JoinContest(username, contestId);
  }

  /** The same username in two different contests yields two distinct users. */
  method JoinTwoContests(service: ContestService, username: string, contest1: nat, contest2: nat)
    returns (first: Result<User>, second: Result<User>)
    requires service.db.Valid()
    requires contest1 != contest2
    modifies service.db
    ensures first.Ok? && second.Ok? ==> first.value.id != second.value.id
    ensures first.Ok? && second.Ok? ==> first.value.id in service.db.users && second.value.id in service.db.users
  {
    first := service.JoinContest(username, contest1);
    second := service.JoinContest(username, contest2);
  }
}
