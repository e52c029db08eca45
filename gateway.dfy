/** Admission of a new video request (`receive_prompt`): parse the message,
    look at the user's free quota, store a queued job and count it. */
module Gateway {
  import opened Wrappers
  import opened Prompt
  import opened Db

  /** `FREE_JOBS_PER_USER` when the environment does not set it. */
  const DefaultFreeJobsPerUser := 3

  /** `receive_prompt`. `newId` is the fresh job id; `limit` is
      `FREE_JOBS_PER_USER`. Returns the id of the stored job (None when the
      insert fails and the handler stops) and whether the user was already at
      or over the limit, which only triggers a warning: the job is stored and
      counted either way. */
  method ReceivePrompt(db: Database, message: string, userId: int, chatId: int, newId: string, limit: int)
    returns (jobId: Option<string>, overLimit: bool)
    requires db.Valid()
    modifies db
    ensures db.Valid()
    ensures overLimit == (FreeUsed(old(db.users), userId) >= limit)
    ensures db.writes == old(db.writes)
    ensures newId !in old(db.jobs) ==>
      var request := ParsePrompt(message);
      && jobId == Some(newId)
      && db.jobs == old(db.jobs)[newId := Job(newId, userId, chatId, request.prompt, request.duration,
                                               Queued, None, db.clock, db.clock)]
      && db.users == Charged(old(db.users), userId)
    ensures newId in old(db.jobs) ==>
      jobId == None && db.jobs == old(db.jobs) && db.users == old(db.users)
  {
    var request := ParsePrompt(message);
    var used := db.GetUserFreeUsed(userId);
    overLimit := used >= limit;
    var created := db.CreateJob(newId, userId, chatId, request.prompt, request.duration);
    if !created {
      return None, overLimit;
    }
    var _ := db.IncUserFree(userId);
    jobId := Some(newId);
  }
}
