# AutoVideoBot core in Dafny

AutoVideoBot is a Telegram bot that turns a short text ("topic, seconds")
into a narrated slide-show video. A user's message is parsed into a topic and
a clamped duration. The bot stores a queued job in SQLite and counts it
against the user's free quota. A background worker then moves the job through
four stages: script, frames, voice and assembly. It records `done` or
`failed`, and hands the video to the chat transport.

This project models that core:

- `Text`: the Python string operations the bot relies on. This covers
  `strip`, `rstrip(chars)`, `rsplit(",", 1)` (last comma), `splitlines`,
  `isdigit`, `int` and `str` of numbers, and `join`.
- `Prompt`: how `receive_prompt` reads a message.
- `Script`: `generate_script`, meaning the model-based answer or the local
  five-scene template with its second counts.
- `Frames`: the frame count `max(3, min(10, ceil(d/6)))` and
  `make_placeholder_images`, which cuts the script into chunks and gives each
  frame a footer.
- `Db`: the `jobs` and `users` tables as a `Database` object with map
  fields, and the five helpers that read and write them.
- `Worker`: `process_job`. Every outside call (chat transport, script
  generator, renderer, voices, muxer) is an oracle that answers or raises.
- `Gateway`: `receive_prompt`, i.e. parse, check the quota, create the job
  and count it.

Facts about the code that the model keeps:

- The template for 45 seconds is 3, 11, 22, 5, 4 seconds, because
  `int(45 * 0.08)` is 3 and the middle scene absorbs the rounding difference.
- `done` can be followed by `failed`: a delivery failure after `done`
  rewrites the status, and the recorded video path stays.
- The free quota is not enforced. A user at or over the limit only gets a
  warning, and the job is still stored and counted.
- The placeholder frames do not always cover the whole script. Text beyond
  `count * chunk_len` characters is cut off.
- The external image provider never returns a frame, so the placeholders
  are always drawn.

## Model

| member | source | states |
|---|---|---|
| Text.LStripShape | main.py:396 | left-stripping removes a prefix made only of whitespace and leaves a string that starts with a non-space |
| Text.RStripShape | main.py:396 | right-stripping removes a suffix made only of whitespace and leaves a string that ends with a non-space |
| Text.Strip | main.py:396 | `str.strip()` gives a string no longer than its input whose first and last characters are not whitespace |
| Text.StripUntouched | main.py:396 | a string already without whitespace at either end is its own strip |
| Text.StripAfterLStrip | main.py:402 | stripping after left-stripping gives the same as stripping once |
| Text.LStripAppend | main.py:396 | leading whitespace of a message is stripped without touching a tail that starts with a non-space |
| Text.RStripChars | main.py:181 | `rstrip(".!?")` removes exactly the trailing run of those characters: a prefix is kept, every dropped character is one of them and the kept text does not end in one |
| Text.LastIndexOf | main.py:398-399 | the split point of `rsplit(",", 1)`: absent exactly when there is no comma, otherwise the unique comma with no comma after it |
| Text.SplitLines | main.py:223 | the model's line split (at every break character, keeping empty pieces, so `""` gives one empty piece where Python gives none) yields at least one piece, none holding a line break |
| Text.SplitLinesNoBreak | main.py:223 | text without a line break is a single line |
| Text.JoinSplitLines | main.py:223 | splitting at every break loses no text: when every break is `\n`, joining the pieces with `\n` restores the text |
| Text.NatToString | main.py:196 | the decimal form of a count is all digits, one digit exactly below ten |
| Text.NatToStringSmall | main.py:196 | numbers 0 to 9 are written as their single digit |
| Text.NatToStringInjective | main.py:253 | different numbers have different decimal forms |
| Text.ParseNatToString | main.py:400-401 | `int(str(n)) == n`: reading the decimal form of a count gives the count back |
| Text.ParseNat | main.py:401 | `int(...)` of a digit string is zero exactly when every digit is `0` |
| Text.JoinAppend | main.py:197 | `sep.join`: one more piece appends the separator and that piece, so the pieces appear in order with one separator between each pair |
| Text.IntToString | main.py:196 | an integer is written with a leading minus exactly when it is negative |
| Script.Hundredths | main.py:191 | `int(total * p)` for a whole-percent `p`: the quotient by 100 truncated toward zero, bounded on both sides |
| Script.InitialSeconds | main.py:190-191 | one share per scene, each at least two seconds |
| Script.SceneSeconds | main.py:189-193 | five scene lengths that add up to the requested duration exactly; every scene but the middle keeps `max(2, int(total*p))` |
| Script.SceneSecondsAtLeastTwo | main.py:189-193 | for any accepted duration (at least 10 s) the middle scene too lasts at least two seconds |
| Script.SceneSecondsOf45 | main.py:189-193 | a 45-second template has scenes of 3, 11, 22, 5 and 4 seconds |
| Script.Topic | main.py:181 | the topic quoted in scene 1 never ends in `.`, `!` or `?` |
| Script.Bullets | main.py:182-188 | the template has five scene descriptions |
| Script.SceneLines | main.py:194-196 | the template has five scene lines |
| Script.JoinFive | main.py:197 | five lines joined with a separator are the lines with the separator between each pair |
| Script.FallbackScriptLayout | main.py:194-197 | the template is exactly "Сцена 1 (…s): …" to "Сцена 5 (…s): …" separated by blank lines, each line carrying its scene's seconds and description |
| Script.LocalScript | main.py:180-197 | the loop that folds the rounding difference into scene 3 and appends the lines yields exactly the template |
| Script.GenerateScript | main.py:159-197 | the script is the stripped model answer when there is one, the template otherwise; it never fails |
| Frames.CeilSixth | main.py:331 | `ceil(d/6)` is the least `c` with `d <= 6c` |
| Frames.FrameCount | main.py:331-333 | between 3 and 10 frames; one per started six seconds between 13 and 60 s; 3 up to 12 s; 10 beyond 60 s |
| Frames.FrameCountOf45 | main.py:331 | a 45-second video gets 8 frames |
| Frames.NonBlankLines | main.py:223 | no more lines are kept than there are lines |
| Frames.NonBlankLinesStripped | main.py:223 | every kept line is non-empty and has no whitespace at either end |
| Frames.NonBlankLinesEmpty | main.py:223-225 | no line is kept exactly when every line strips to nothing, which is when the `[script_text]` fallback fires |
| Frames.NonBlankLinesSingle | main.py:223 | one line is kept, stripped, exactly when it is not blank |
| Frames.NonBlankLinesAppend | main.py:223 | the filter keeps the order of the lines: filtering two runs is filtering each and putting the results side by side |
| Frames.Flatten | main.py:223-227 | a script with no non-blank line is used as it is |
| Frames.FlattenBlank | main.py:223-227 | a script whose every line is blank is put on the frames untouched |
| Frames.FlattenOneLine | main.py:223-227 | a one-line script without whitespace at either end is put on the frames as it is |
| Frames.ChunkLen | main.py:228 | `chunk_len` is at least 80 |
| Frames.Slices | main.py:229 | every slice holds 1 to `chunk_len` characters |
| Frames.SlicesConcat | main.py:229 | the slices concatenate back to the whole text, in order |
| Frames.SlicesPrefix | main.py:229 | the first `k` slices are the first `k * chunk_len` characters |
| Frames.SlicesCount | main.py:229 | there are at most `k` slices exactly when the text fits into `k * chunk_len` characters |
| Frames.FitTo | main.py:230 | exactly `count` chunks: the first `count` slices, padded with blank chunks |
| Frames.ChunksOf | main.py:228-230 | exactly `count` chunks, none longer than `chunk_len` |
| Frames.PlaceholderChunks | main.py:223-230 | the script yields exactly `count` frame texts |
| Frames.ConcatAppendEmpty | main.py:230 | padding with blank chunks adds no text |
| Frames.ChunksCover | main.py:228-230 | the chunks hold, in order, the first `count * chunk_len` characters of the text, and a chunk starting past the end is blank |
| Frames.ChunksComplete | main.py:228-230 | no text is lost exactly when it fits into `count * chunk_len`; always so up to `80 * count` characters |
| Frames.ChunksDropTail | main.py:228-230 | a text of at least `80 * count` characters loses its last `len % count` characters |
| Frames.FooterDistinct | main.py:253 | the frames of one video carry pairwise different footers |
| Frames.RendersAllTotal | main.py:232-256 | a renderer that never fails draws every chunk |
| Frames.RenderFrames | main.py:232-257 | the drawing loop gives frames exactly when every chunk renders; then one per chunk, in order, frame `i` from chunk `i` with footer `i+1/n` |
| Frames.MakePlaceholderImages | main.py:213-257 | frames exist exactly when every chunk renders; then there are `count` of them, frame `i` drawn from chunk `i` and footer `i+1/count` |
| Prompt.ClampDuration | main.py:401 | the duration lies in 10..480 and is kept when already inside, raised to 10 or lowered to 480 otherwise |
| Prompt.ParsePrompt | main.py:396-406 | every request has a duration in 10..480; a message without a comma is the stripped message at 60 seconds |
| Prompt.ParsePromptAtLastComma | main.py:398-405 | at the last comma, a digits-only tail gives the stripped topic before it and the clamped number; any other tail keeps the whole message at 60 seconds |
| Prompt.ParsePromptTopicDigits | main.py:396-406 | "topic, digits" reads back as the stripped topic and the clamped value of the digits |
| Prompt.ParsePromptRoundTrip | main.py:396-406 | "topic, N" reads back as the stripped topic and N clamped to 10..480 |
| Db.WithStatus | main.py:124-131 | an update sets status and update time, replaces the result path only when a truthy one is given, and leaves every other column alone |
| Db.WithStatusIdempotent | main.py:124-131 | repeating the same update changes nothing but the update time |
| Db.UpdatedJobs | main.py:124-131 | `UPDATE ... WHERE id=?` changes only that row and adds or removes none |
| Db.Charged | main.py:138-150 | counting a job adds one to that user only, creating the row at 1 |
| Db.ChargedAllCounts | main.py:138-150 | over any run of admissions each user's count grows by exactly the number of jobs they submitted |
| Db.ChargedAllMonotone | main.py:138-150 | free-use counts never go down |
| Db.Database.constructor | main.py:81-110 | a fresh database has no jobs and no users |
| Db.Database.Now | main.py:115 | time moves strictly forward |
| Db.Database.CreateJob | main.py:113-122 | a fresh id inserts one `queued` row with no result path and equal created and updated times; a taken id stores nothing |
| Db.Database.UpdateJobStatus | main.py:124-131 | the table becomes `UpdatedJobs` at a later time, the write `(id, status)` is appended to the log of status writes; users untouched |
| Db.Database.GetJob | main.py:133-136 | the row with that id exactly when it exists |
| Db.Database.IncUserFree | main.py:138-150 | the user's count goes up by one, returned as the new value; other users untouched |
| Db.Database.GetUserFreeUsed | main.py:152-156 | the user's stored count (`row[0]`), at least 1, and 0 for a user without a row |
| Worker.ExternalImages | main.py:200-211 | the external provider returns no frame, whatever the configuration |
| Worker.Narration | main.py:336-340 | the premium voice when it is configured and returns a path, otherwise the baseline voice; a voice exists exactly when one of the two gives one |
| Worker.ExpectedTraceFollowsTransitions | main.py:315-353 | a job's statuses go `processing`, then `done` and/or `failed`, along allowed transitions only, ending in `done` or `failed` |
| Worker.DoneIffEverythingSucceeds | main.py:324-353 | a job ends `done` exactly when every stage and every delivery call succeeds, and then its path is the video's |
| Worker.FailureBeforeDoneKeepsPath | main.py:324-353 | a failure before assembly ends `failed` with the result path unchanged |
| Worker.DeliveryFailureKeepsVideo | main.py:345-353 | a delivery failure after `done` ends `failed` but keeps the video's path |
| Worker.FallbacksAssemble | main.py:325-344 | with no model script and no premium voice, working fallbacks carry the run through assembly |
| Worker.FallbacksReachDone | main.py:325-350 | with no model script and no premium voice, working fallbacks still bring the job to `done` |
| Worker.RenderFailureFailsEveryJob | main.py:213-257 | when drawing a frame always raises, every job ends `failed` with no path written |
| Worker.RunStages | main.py:326-344 | the stages script, frames, voice and assembly succeed together exactly when the run is `Assembled`: every announcement sent, every frame rendered, a voice found and the video muxed |
| Worker.RecordOutcome | main.py:345-353 | after the stages, `done` with the video's path is written once assembled, then `failed` (keeping the path) when a stage or delivery raised; exactly these statuses are appended to the log of status writes, in this order; only that row changes |
| Worker.ProcessJob | main.py:315-366 | an unknown job changes nothing; otherwise the log of status writes grows by exactly `processing` and then the expected `done` and/or `failed` for that job, in that order, its row ends with the last status and the expected path, and no other row or user count changes |
| Gateway.ReceivePrompt | main.py:395-425 | the over-limit warning fires exactly when the user had used the limit; a fresh id stores the parsed request as `queued` and counts it for the user; a taken id stores and counts nothing; no status is written |

## Left out

- The Telegram side is not modelled: `/start`, `/help`, `/status`, `/credits`, `/cancel`, the conversation handler, `main`, and the texts of replies and progress messages. `Worker.ProcessJob` only records which chat calls raise.
- The chat calls in `process_job` (`send_message`, `send_chat_action`, `send_video`) are not awaited in the code, so in python-telegram-bot 20 they neither send nor raise; only `open(out_path)` can fail at delivery. `Worker.Env.raises` lets any of them raise, which covers more runs than the code can take.
- `asyncio.create_task` is not modelled, so jobs do not run concurrently. `Gateway.ReceivePrompt` and `Worker.ProcessJob` are separate methods that the caller runs in sequence.
- The SQLite store never fails and starts empty (`init_db` on a new file). Its durability and a pre-existing database file are not modelled.
- `time.time()` is a logical clock that advances by one on each call. `uuid4().hex` becomes a parameter, and an id already taken stands for the failed INSERT.
- The OpenAI, ElevenLabs and gTTS calls, PIL drawing and word wrap, and moviepy assembly (including its per-frame float durations) are oracles in `Worker.Env`.
- The font fallback in `make_placeholder_images` is not modelled, since a failure there shows up as a failed render.
- The float portions 0.08 … 0.10 are exact whole percents. A float product that rounds just below an integer is not modelled.
- `Text.IsDigits`: only the ASCII digits count as `isdigit`. Python's `isdigit` also accepts other Unicode digits.
- `Text.SplitLines` splits at every line-break character, so `\r\n` gives an extra empty piece. `make_placeholder_images` drops blank lines, so the frames are the same.
- `Frames.MakePlaceholderImages` requires `count >= 1`. Python raises ZeroDivisionError for 0, but the only caller passes 3 to 10.
- The `finally` block of `process_job` only reads the job and does nothing, so it is left out.
- `FREE_JOBS_PER_USER` is the `limit` parameter of `Gateway.ReceivePrompt`. Its default of 3 is `Gateway.DefaultFreeJobsPerUser`.
- Job statuses are an enumeration instead of free strings. The bot only ever writes the four values.
- The "accepted" reply between `create_job` and `inc_user_free` is not modelled. If it raised, the job would stay stored but not counted.
