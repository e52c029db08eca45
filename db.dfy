/** The bot's two tables, `jobs` and `users`, and the helpers that read and
    write them (`create_job`, `update_job_status`, `get_job`,
    `inc_user_free`, `get_user_free_used`). The SQLite file becomes two maps
    in one object; `time.time()` becomes a logical clock. */
module Db {
  import opened Wrappers

  datatype Status = Queued | Processing | Done | Failed

  /** One row of the `jobs` table. */
  datatype Job = Job(
    id: string,
    userId: int,
    chatId: int,
    prompt: string,
    duration: int,
    status: Status,
    resultPath: Option<string>,
    createdAt: int,
    updatedAt: int)

  /** Python's `if result_path:`: a path counts only when given and non-empty. */
  predicate Truthy(path: Option<string>) {
    path.Some? && path.value != ""
  }

  /** A row after `update_job_status(job_id, status, result_path)` at time
      `ts`: the status and the update time are set, the result path only
      when a truthy one is passed, and nothing else changes. */
  function WithStatus(j: Job, status: Status, path: Option<string>, ts: int): (r: Job)
    ensures r.status == status && r.updatedAt == ts
    ensures Truthy(path) ==> r.resultPath == path
    ensures !Truthy(path) ==> r.resultPath == j.resultPath
    ensures r.(status := j.status, resultPath := j.resultPath, updatedAt := j.updatedAt) == j
  {
    if Truthy(path) then j.(status := status, resultPath := path, updatedAt := ts)
    else j.(status := status, updatedAt := ts)
  }

  /** Writing the same status and path twice leaves the row as one write does,
      up to the update time. */
  lemma WithStatusIdempotent(j: Job, status: Status, path: Option<string>, t1: int, t2: int)
    ensures WithStatus(WithStatus(j, status, path, t1), status, path, t2) == WithStatus(j, status, path, t2)
  {
  }

  /** The table after `UPDATE jobs ... WHERE id=?`: only the row with that id
      changes, and no row appears or disappears. */
  function UpdatedJobs(jobs: map<string, Job>, id: string, status: Status, path: Option<string>, ts: int)
    : (r: map<string, Job>)
    ensures r.Keys == jobs.Keys
    ensures forall other :: other in jobs && other != id ==> r[other] == jobs[other]
    ensures id in jobs ==> r[id] == WithStatus(jobs[id], status, path, ts)
  {
    if id in jobs then jobs[id := WithStatus(jobs[id], status, path, ts)] else jobs
  }

  /** `free_used` of a user: 0 for a user without a row. */
  function FreeUsed(users: map<int, int>, userId: int): int {
    if userId in users then users[userId] else 0
  }

  /** The `users` table after one `inc_user_free`: the user's count goes up
      by one (a missing row is created at 1), every other count is kept. */
  function Charged(users: map<int, int>, userId: int): (r: map<int, int>)
    ensures r.Keys == users.Keys + {userId}
    ensures FreeUsed(r, userId) == FreeUsed(users, userId) + 1
    ensures userId !in users ==> r[userId] == 1
    ensures forall u :: u != userId ==> FreeUsed(r, u) == FreeUsed(users, u)
  {
    users[userId := if userId in users then users[userId] + 1 else 1]
  }

  /** The `users` table after one admission per entry of `submitters`. */
  function ChargedAll(users: map<int, int>, submitters: seq<int>): map<int, int>
    decreases |submitters|
  {
    if submitters == [] then users else ChargedAll(Charged(users, submitters[0]), submitters[1..])
  }

  function Occurrences(s: seq<int>, x: int): nat {
    if s == [] then 0 else (if s[0] == x then 1 else 0) + Occurrences(s[1..], x)
  }

  /** Over any sequence of admissions, each user's count grows by exactly the
      number of jobs that user submitted, whatever became of the jobs. */
  lemma {:induction false} ChargedAllCounts(users: map<int, int>, submitters: seq<int>, u: int)
    ensures FreeUsed(ChargedAll(users, submitters), u) == FreeUsed(users, u) + Occurrences(submitters, u)
    decreases |submitters|
  {
    if submitters != [] {
      ChargedAllCounts(Charged(users, submitters[0]), submitters[1..], u);
    }
  }

  /** Counts never go down. */
  lemma ChargedAllMonotone(users: map<int, int>, submitters: seq<int>, u: int)
    ensures FreeUsed(ChargedAll(users, submitters), u) >= FreeUsed(users, u)
  {
    ChargedAllCounts(users, submitters, u);
  }

  /** The log entries of writing `statuses`, in order, to the job `id`. */
  function WritesOf(id: string, statuses: seq<Status>): (r: seq<(string, Status)>)
    ensures |r| == |statuses|
    ensures forall i :: 0 <= i < |r| ==> r[i] == (id, statuses[i])
  {
    seq(|statuses|, i requires 0 <= i < |statuses| => (id, statuses[i]))
  }

  /** Logging one status and then a run of statuses logs them all, in order. */
  lemma WritesOfCons(id: string, first: Status, rest: seq<Status>)
    ensures WritesOf(id, [first] + rest) == [(id, first)] + WritesOf(id, rest)
  {
  }

  /** The database. `clock` is the last value handed out by `time.time()`. */
  class Database {
    var jobs: map<string, Job>
    var users: map<int, int>
    var clock: int
    /** Every `update_job_status` issued so far, in order: the job id and
        the status written. */
    ghost var writes: seq<(string, Status)>

    /** Rows are keyed by their own id, were updated no earlier than they were
        created and no later than now; a user row exists only once counted. */
    ghost predicate Valid()
      reads this
    {
      && (forall id :: id in jobs ==> jobs[id].id == id && jobs[id].createdAt <= jobs[id].updatedAt <= clock)
      && (forall u :: u in users ==> users[u] >= 1)
    }

    /** `init_db` on a fresh database file: both tables empty. */
    constructor ()
      ensures Valid()
      ensures jobs == map[] && users == map[] && clock == 0 && writes == []
    {
      jobs, users, clock := map[], map[], 0;
      writes := [];
    }

    /** `time.time()`: a clock that only moves forward. */
    method Now() returns (ts: int)
      modifies this`clock
      ensures clock == old(clock) + 1 && ts == clock
    {
      clock := clock + 1;
      ts := clock;
    }

    /** `create_job`: inserts a `queued` row with no result path, created and
        updated at the same instant. `id` is the fresh `uuid4().hex`; an id
        already in the table makes the INSERT fail and nothing is stored. */
    method CreateJob(id: string, userId: int, chatId: int, prompt: string, duration: int)
      returns (created: bool)
      requires Valid()
      modifies this
      ensures Valid()
      ensures created == (id !in old(jobs))
      ensures clock == old(clock) + 1
      ensures created ==> jobs == old(jobs)[id := Job(id, userId, chatId, prompt, duration, Queued, None, clock, clock)]
      ensures !created ==> jobs == old(jobs)
      ensures users == old(users) && writes == old(writes)
    {
      var ts := Now();
      created := id !in jobs;
      if created {
        jobs := jobs[id := Job(id, userId, chatId, prompt, duration, Queued, None, ts, ts)];
      }
    }

    /** `update_job_status`: see `UpdatedJobs`. An unknown id changes no row. */
    method UpdateJobStatus(id: string, status: Status, path: Option<string>)
      requires Valid()
      modifies this
      ensures Valid()
      ensures clock == old(clock) + 1
      ensures jobs == UpdatedJobs(old(jobs), id, status, path, clock)
      ensures users == old(users)
      ensures writes == old(writes) + [(id, status)]
    {
      var ts := Now();
      writes := writes + [(id, status)];
      if id in jobs {
        jobs := jobs[id := WithStatus(jobs[id], status, path, ts)];
      }
    }

    /** `get_job`: the row with that id, if there is one. */
    function GetJob(id: string): (r: Option<Job>)
      reads this
      ensures r.Some? <==> id in jobs
      ensures r.Some? ==> r.value == jobs[id]
    {
      if id in jobs then Some(jobs[id]) else None
    }

    /** `inc_user_free`: counts one more job for the user and returns the new
        count (1 for a user seen for the first time). */
    method IncUserFree(userId: int) returns (used: int)
      requires Valid()
      modifies this`users
      ensures Valid()
      ensures users == Charged(old(users), userId)
      ensures used == old(FreeUsed(users, userId)) + 1 && used == FreeUsed(users, userId)
    {
      if userId !in users {
        users := users[userId := 1];
        return 1;
      }
      used := users[userId] + 1;
      users := users[userId := used];
    }

    /** `get_user_free_used`: how many jobs the user has been counted for,
        0 for a user never seen. */
    function GetUserFreeUsed(userId: int): (n: int)
      requires Valid()
      reads this
      ensures n >= 0
      ensures userId !in users ==> n == 0
      ensures userId in users ==> n == users[userId] && n >= 1
    {
      FreeUsed(users, userId)
    }
  }
}
