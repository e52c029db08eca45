/** The background worker, `process_job`: it drives one job through the
    stages script, frames, voice and assembly, records the outcome in the
    jobs table and hands the video to the chat. Every call that reaches
    outside the bot (the chat transport, the generators, the renderer, the
    muxer) is an oracle in `Env` that either answers or raises. */
module Worker {
  import opened Wrappers
  import opened Db
  import opened Script
  import opened Frames

  /** The chat calls in the `try` block of `process_job` that may raise. */
  datatype Step =
    | AnnounceScript    // "Генерирую сценарий..."
    | AnnounceFrames    // "Генерирую кадры..."
    | AnnounceVoice     // "Генерирую голос..."
    | AnnounceAssembly  // "Склеиваю видео..."
    | UploadAction      // send_chat_action(UPLOAD_VIDEO)
    | SendVideo         // open(out_path) and send_video
    | AnnounceDone      // "Готово!"

  /** What the outside world does during one run.
      - `scriptReply`: the model-based generator's answer, None when it is
        not configured or raised;
      - `render(idx, chunk, footer)`: the saved path of one placeholder
        frame, None when drawing or saving raises;
      - `premiumKey`, `premiumVoice`: whether the premium voice is configured
        and what it returned (None on failure);
      - `baselineVoice`: the baseline voice's path, None when it raises;
      - `assembles`: whether muxing the video succeeds;
      - `outPath`: the temporary path chosen for the video;
      - `raises`: the chat calls that raise. */
  datatype Env = Env(
    scriptReply: Option<string>,
    render: (nat, string, string) -> Option<string>,
    premiumKey: bool,
    premiumVoice: Option<string>,
    baselineVoice: Option<string>,
    assembles: bool,
    outPath: string,
    raises: set<Step>)

  /** `generate_images_external`: no provider is wired in, so it never
      returns a frame and the placeholders are always drawn. */
  function ExternalImages(prompt: string, count: int): (frames: seq<string>)
    ensures frames == []
  {
    []
  }

  /** The narration stage: the premium voice when it is configured and gives
      a path, otherwise the baseline voice (None when that raises). */
  function Narration(env: Env): (voice: Option<string>)
    ensures env.premiumKey && Truthy(env.premiumVoice) ==> voice == env.premiumVoice
    ensures !(env.premiumKey && Truthy(env.premiumVoice)) ==> voice == env.baselineVoice
    ensures voice.Some? <==> (env.premiumKey && Truthy(env.premiumVoice)) || env.baselineVoice.Some?
  {
    var premium := if env.premiumKey then env.premiumVoice else None;
    if Truthy(premium) then premium else env.baselineVoice
  }

  /** The run gets through every stage up to and including assembly. */
  ghost predicate Assembled(j: Job, env: Env) {
    var script := ScriptText(j.prompt, j.duration, env.scriptReply);
    && AnnounceScript !in env.raises
    && AnnounceFrames !in env.raises
    && AllRendered(script, FrameCount(j.duration), env.render)
    && AnnounceVoice !in env.raises
    && Narration(env).Some?
    && AnnounceAssembly !in env.raises
    && env.assembles
  }

  /** Every delivery call after `done` succeeds. */
  predicate Delivered(env: Env) {
    UploadAction !in env.raises && SendVideo !in env.raises && AnnounceDone !in env.raises
  }

  /** The statuses a run writes, in order, given whether it got through
      assembly and whether delivery then succeeded: `processing`, then `done`
      once the video is assembled, then `failed` if anything raised, before
      or after `done`. */
  function Outcome(assembled: bool, delivered: bool): seq<Status> {
    if !assembled then [Processing, Failed]
    else if delivered then [Processing, Done]
    else [Processing, Done, Failed]
  }

  /** The result path after a run: the video's path once assembled (if it is
      truthy), the old value otherwise. The `failed` write after a delivery
      error passes no path and so keeps it. */
  function PathAfter(assembled: bool, outPath: string, old_path: Option<string>): Option<string> {
    if assembled && outPath != "" then Some(outPath) else old_path
  }

  /** The statuses `process_job` writes for job `j`. */
  ghost function ExpectedTrace(j: Job, env: Env): seq<Status> {
    Outcome(Assembled(j, env), Delivered(env))
  }

  /** The result path of job `j` after `process_job`. */
  ghost function ExpectedPath(j: Job, env: Env): Option<string> {
    PathAfter(Assembled(j, env), env.outPath, j.resultPath)
  }

  /** The transitions of a job's status. `done -> failed` is taken when
      delivery fails after the video was recorded. */
  predicate Allowed(from: Status, to: Status) {
    || (from == Queued && to == Processing)
    || (from == Processing && (to == Done || to == Failed))
    || (from == Done && to == Failed)
  }

  predicate IsTerminal(s: Status) {
    s == Done || s == Failed
  }

  /** A queued job's statuses follow the allowed transitions, start with the
      single `processing` and end in `done` or `failed`. */
  lemma ExpectedTraceFollowsTransitions(j: Job, env: Env)
    ensures var t := ExpectedTrace(j, env);
      && 2 <= |t| <= 3
      && t[0] == Processing && Allowed(Queued, t[0])
      && (forall k :: 0 < k < |t| ==> Allowed(t[k - 1], t[k]) && t[k] != Processing)
      && IsTerminal(t[|t| - 1])
  {
  }

  /** The job ends `done` exactly when every stage and every delivery call
      succeeds, and `done` always comes with the video's path. */
  lemma DoneIffEverythingSucceeds(j: Job, env: Env)
    requires env.outPath != ""
    ensures var t := ExpectedTrace(j, env);
      (t[|t| - 1] == Done <==> Assembled(j, env) && Delivered(env))
      && (t[|t| - 1] == Done ==> ExpectedPath(j, env) == Some(env.outPath))
  {
  }

  /** A failure before `done` leaves the result path as it was: unset for a
      job just created. */
  lemma FailureBeforeDoneKeepsPath(j: Job, env: Env)
    requires !Assembled(j, env)
    ensures ExpectedTrace(j, env) == [Processing, Failed]
    ensures ExpectedPath(j, env) == j.resultPath
  {
  }

  /** A delivery failure after `done` rewrites the status to `failed`, yet
      the recorded path of the finished video stays. */
  lemma DeliveryFailureKeepsVideo(j: Job, env: Env)
    requires Assembled(j, env) && !Delivered(env) && env.outPath != ""
    ensures ExpectedTrace(j, env) == [Processing, Done, Failed]
    ensures ExpectedPath(j, env) == Some(env.outPath)
  {
  }

  /** With no model-based script and no premium voice, working fallbacks
      (frames drawn, baseline voice, muxing and chat all fine) carry the run
      through assembly. */
  lemma FallbacksAssemble(j: Job, env: Env)
    requires env.scriptReply.None? && !env.premiumKey
    requires forall i: nat, chunk: string, footer: string :: env.render(i, chunk, footer).Some?
    requires env.baselineVoice.Some? && env.assembles && env.raises == {}
    ensures Assembled(j, env)
  {
    var script := ScriptText(j.prompt, j.duration, env.scriptReply);
    RendersAllTotal(PlaceholderChunks(script, FrameCount(j.duration)), env.render);
  }

  /** With the same fallbacks the job reaches `done`. */
  lemma FallbacksReachDone(j: Job, env: Env)
    requires env.scriptReply.None? && !env.premiumKey
    requires forall i: nat, chunk: string, footer: string :: env.render(i, chunk, footer).Some?
    requires env.baselineVoice.Some? && env.assembles && env.raises == {}
    ensures ExpectedTrace(j, env) == [Processing, Done]
  {
    FallbacksAssemble(j, env);
    assert Delivered(env);
  }

  /** The placeholder renderer of the bot as written calls image-library
      names that are never imported, so every frame raises: then every job
      ends `failed` without a result path being written. */
  lemma RenderFailureFailsEveryJob(j: Job, env: Env)
    requires forall i: nat, chunk: string, footer: string :: env.render(i, chunk, footer).None?
    ensures ExpectedTrace(j, env) == [Processing, Failed]
    ensures ExpectedPath(j, env) == j.resultPath
  {
    var count := FrameCount(j.duration);
    var script := ScriptText(j.prompt, j.duration, env.scriptReply);
    assert env.render(0, PlaceholderChunks(script, count)[0], Footer(0, count)).None?;
  }

  /** The four stages of the `try` block of `process_job`, up to and
      including assembly, each announced in the chat first. Tells whether
      the run got through all of them; the first call that raises stops it. */
  method RunStages(j: Job, env: Env) returns (assembled: bool)
    ensures assembled == Assembled(j, env)
  {
    assembled := AnnounceScript !in env.raises;
    var script := "";
    if assembled {
      script := GenerateScript(j.prompt, j.duration, env.scriptReply);
      assembled := AnnounceFrames !in env.raises;
    }
    if assembled {
      var count := FrameCount(j.duration);
      var images := ExternalImages(j.prompt, count);
      if images == [] {
        var frames := MakePlaceholderImages(script, count, env.render);
        assembled := frames.Some?;
      }
      assembled := assembled && AnnounceVoice !in env.raises;
    }
    if assembled {
      var audio := Narration(env);
      assembled := audio.Some? && AnnounceAssembly !in env.raises && env.assembles;
    }
  }

  /** The writes after the stages: `done` with the video's path once it is
      assembled, and `failed` (with no path) when a stage or a delivery call
      raised. Returns the statuses written. */
  method RecordOutcome(db: Database, id: string, assembled: bool, delivered: bool, outPath: string)
    returns (written: seq<Status>)
    requires db.Valid() && id in db.jobs
    modifies db
    ensures db.Valid()
    ensures db.users == old(db.users)
    ensures written == Outcome(assembled, delivered)[1..]
    ensures db.writes == old(db.writes) + WritesOf(id, written)
    ensures db.jobs.Keys == old(db.jobs).Keys
    ensures forall other :: other in old(db.jobs) && other != id ==> db.jobs[other] == old(db.jobs[other])
    ensures db.jobs[id] == old(db.jobs[id]).(status := written[|written| - 1],
                                             resultPath := PathAfter(assembled, outPath, old(db.jobs[id].resultPath)),
                                             updatedAt := db.clock)
  {
    written := [];
    assert db.writes == old(db.writes) + WritesOf(id, written);
    var ok := assembled;
    if ok {
      db.UpdateJobStatus(id, Done, Some(outPath));
      written := [Done];
      ok := delivered;
    }
    // The `except` block; its failure message is sent best-effort.
    if !ok {
      db.UpdateJobStatus(id, Failed, None);
      written := written + [Failed];
    }
  }

  /** `process_job(application, job_id)`. Returns the statuses it wrote, in
      order; none when the job does not exist. */
  method ProcessJob(db: Database, id: string, env: Env) returns (trace: seq<Status>)
    requires db.Valid()
    modifies db
    ensures db.Valid()
    ensures db.users == old(db.users)
    ensures id !in old(db.jobs) ==> trace == [] && db.jobs == old(db.jobs)
    ensures db.writes == old(db.writes) + WritesOf(id, trace)
    ensures id in old(db.jobs) ==>
      && trace == ExpectedTrace(old(db.jobs[id]), env)
      && db.jobs.Keys == old(db.jobs).Keys
      && (forall other :: other in old(db.jobs) && other != id ==> db.jobs[other] == old(db.jobs[other]))
      && db.jobs[id] == old(db.jobs[id]).(status := trace[|trace| - 1],
                                           resultPath := ExpectedPath(old(db.jobs[id]), env),
                                           updatedAt := db.clock)
  {
    var job := db.GetJob(id);
    if job.None? {
      assert old(db.writes) + WritesOf(id, []) == old(db.writes);
      return [];
    }
    var j := job.value;
    db.UpdateJobStatus(id, Processing, None);
    var ok := RunStages(j, env);
    var written := RecordOutcome(db, id, ok, Delivered(env), env.outPath);
    trace := [Processing] + written;
    WritesOfCons(id, Processing, written);
    assert ExpectedTrace(j, env) == Outcome(ok, Delivered(env));
    assert ExpectedPath(j, env) == PathAfter(ok, env.outPath, j.resultPath);
  }
}
