# playback, modelled in Dafny

playback turns an agent's newline-delimited JSON log into a list of *steps* and replays them. One step runs from
one `user_message` to the next, and holds the user text, the first agent message, the first reasoning summary, the
accumulated message output and the tool calls with their results. This project models the three parts of the
repository that carry logic:

- **The log-to-step reducer.** `parseJSONL` in `cli.js` and its near-copy in `public/app.js`.
  - `reducer.dfy` states the loop as a left fold: `Reducer.Apply` is one turn of the loop body and `Reducer.Reduce` is the whole run. A `Dialect` selects the one place where the two copies differ, which is how they read a reasoning summary.
  - `payloads.dfy` holds the pure helpers the loop calls: `extractContentText`, `parseReasoningSummary` and the viewer's `summary.find(...)`. It also holds JavaScript `||` on strings.
  - Each copy of `parseJSONL` is an imperative method with the loop's own variables: `Cli.ParseJsonl` and `App.ParseJsonl`. Each is proved equal to the fold. Both methods model the corrected loop, in which a line that parses to `null` is skipped; the loop as written, which throws on such a line, is the fold `Reducer.RunAsWritten` (see "## Findings").
- **The fallback reasoning synthesis of `cli.js`.** `unique` and `generateReasoning`, plus the post-pass that fills empty reasoning (`cli.dfy`).
- **The session store of `server.js`.** `Server.SessionStore` is a class holding:
  - the ids in insertion order (the iteration order of the JavaScript `Map`);
  - a map from id to entry.

  It models `pruneExpired`, `enforceMaxSessions` and the store logic of the two handlers. Each method is specified by a function: `LiveOrder`/`LiveEntries` for the sweep and `Evict`/`Restrict` for eviction. The properties are proved about those functions.

The viewer's `truncate` and its playback position (`setActiveStep`, `next`, `prev`, `loadSession`) are in `app.dfy`. The position is the class `App.Player`.

Each log line arrives already parsed, as a `Reducer.Event` with one variant per recognised `(type, payload.type)` pair. The other variants are:
- `Unparseable`: a blank line or a line that is not JSON;
- `Other`: any other record;
- `NullRecord`: a line that parses to JSON `null`.

Fields the source reads only through `a || b || ""` are strings, with `""` for a missing or falsy value. Fields the source tests by JSON type get small datatypes: a message's `content`/`text` and a reasoning `summary`.

The outside world enters as parameters:
- the clock (`now`, and the ISO time that `new Date().toISOString()` would give);
- the fresh id of `crypto.randomUUID()`, as a precondition that the id is not stored;
- `TTL_SECONDS` and `MAX_SESSIONS`, as the store's constants (`SessionStore.WithDefaults` builds the store with the defaults 3600 and 200).

## Model

| member | source | states |
|---|---|---|
| Payloads.Or | cli.js:83-84 | JavaScript `a \|\| b` on strings: "" exactly when both are empty, else the first non-empty one |
| Payloads.Either | cli.js:105 | `payload.content \|\| payload.text \|\| ""`: the content when truthy, else the text when truthy, else a falsy value |
| Payloads.PartText | cli.js:18-25 | an array element contributes itself when a string, else its string `text`, else its string `output_text`, else "" |
| Payloads.PartsText | cli.js:17-26 | the joined text is "" exactly when every element contributes "", and is at least as long as any element's text; that it is the in-order concatenation of the elements' texts is `PartsTextAppend` |
| Payloads.ExtractContentText | cli.js:13-29 | a string maps to itself, a missing/non-string non-array value to "", an empty array to ""; the viewer's copy (public/app.js:41-57) is the same and shares this definition |
| Payloads.PartsTextAppend | cli.js:16-26 | the array text of `a + b` is the text of `a` followed by the text of `b` (map-then-join distributes) |
| Payloads.PartsTextSingle | cli.js:17-26 | a one-element array joins to that element's text; with `PartsTextAppend` the join of any array is its elements' texts in order |
| Payloads.PartsTextOfObjectsWithoutText | cli.js:18-25 | elements with no string `text`/`output_text`, or non-object elements, contribute nothing |
| Payloads.FirstStringEntry | cli.js:33-38 | the first entry holding a string `summary_text` or `text` decides the result, even an empty string; no such entry gives "" |
| Payloads.ParseReasoningSummary | cli.js:31-41 | a string summary is returned verbatim, an array is searched for its first string entry, anything else gives "" |
| Payloads.FirstTextEntry | public/app.js:108-109 | the first entry with a non-empty `summary_text` (preferred) or `text` decides; the result is "" exactly when there is none |
| Payloads.FindReasoningSummary | public/app.js:107-109 | only an array summary is searched; a string or any other summary gives "" |
| Payloads.ReadersDisagreeOnEmptyString | cli.js:34-37 | with an empty-string `summary_text` first, cli.js returns "" where the viewer skips on to "plan" |
| Reducer.Decimal | cli.js:82 | the rendering of a number is at least one digit, two from 10 on |
| Reducer.DecimalInjective | cli.js:82 | different step numbers render differently |
| Reducer.StepIdInjective | cli.js:80-82 | `t${n}` ids of different counters differ |
| Reducer.OpenStep | cli.js:80-89 | a new step has id t(n), no tools and empty summary, reasoning and output; its user text is empty exactly when both `message` and `text` are |
| Reducer.Apply | cli.js:75-128 | one turn: closed steps are only appended to; a `user_message` closes the open step as the end of input does, opens one with no tools and moves the counter by one; nothing else closes or opens a step or moves the counter; only a `function_call` changes the call_id table, which a new step does not clear (the viewer's turn, public/app.js:75-129, is the same up to the reasoning reader) |
| Reducer.Run | cli.js:66-129 | the loop over any prefix: closed steps are never changed or removed, and the counter never goes back |
| Reducer.Finish | cli.js:131 | the end of input keeps the closed steps and appends the open step, if any, as the last one |
| Reducer.Reduce | cli.js:59-131 | `parseJSONL` before the post-pass returns one step per `user_message` |
| Reducer.FirstNonEmpty | cli.js:96-98 | "" exactly when every string is empty, else the first non-empty one |
| Reducer.FirstNonEmptySnoc | cli.js:96-98 | keeping the first non-empty message is `\|\|` of the earlier result with the new message |
| Reducer.RunAppend | cli.js:66-129 | running the loop over `a + b` is running it over `a` and then over `b` |
| Reducer.RunNumbered | cli.js:78-91 | after any prefix, closed step `i` has id t(i+1), the open step the newest id, and the counter equals the number of `user_message` events |
| Reducer.FinishNumbered | cli.js:131 | pushing the open step at end of input keeps every step numbered by its position |
| Reducer.StepIds | cli.js:78-91 | one step per `user_message`; step `i` has id "t" + (i+1); all ids are distinct |
| Reducer.IgnoredWhileClosed | cli.js:93 | with no step open, every event but `user_message` leaves the whole state unchanged, tool results included |
| Reducer.NoUserMessageNoState | cli.js:93 | a log without `user_message` leaves the initial state and yields no steps |
| Reducer.LeadingEventsDropped | public/app.js:78-93 | events before the first `user_message` do not affect the result |
| Reducer.SegmentKeepsStep | cli.js:93-128 | inside a step, no event closes it, renumbers it, changes its user text or timestamp, or touches the closed steps |
| Reducer.SegmentOutput | cli.js:104-105 | `agent_output` grows by the extracted text of each `message` item, in order |
| Reducer.SegmentSummary | cli.js:95-100 | `agent_summary` is the first non-empty agent message unless it was already set |
| Reducer.SegmentReasoning | cli.js:106-109 | `reasoning_summary` is set only while empty, to the first non-empty text the dialect's reader yields |
| Reducer.SegmentTools | cli.js:110-127 | tools are only appended, one per call, in call order; results change only output and status; with no results the tools are exactly the calls |
| Reducer.ToolsAfter | cli.js:110-127 | one event appends at most one pending tool and otherwise changes only tools' output and status (`ResultFillsOpenStepTool` pins the change to one index) |
| Reducer.SegmentAccumulates | cli.js:93-128 | the open step relates to the events seen since it opened by all of the above at once |
| Reducer.SegmentBecomesStep | cli.js:78-131 | the step opened by a `user_message` and closed by the next one (or the end of input) is step k+1, carrying exactly the accumulated text, summary, reasoning and tools |
| Reducer.StepClosed | cli.js:131 | the open step becomes the next returned step at end of input or at the next `user_message` |
| Reducer.CallAppendsPendingTool | cli.js:110-119 | a call appends one tool with output "" and status pending; a non-empty call_id is (re)mapped to its index, overwriting any earlier mapping |
| Reducer.ResultFillsOpenStepTool | cli.js:120-127 | a result with a mapped, in-range call_id sets that tool's output and status ok and changes nothing else |
| Reducer.UnmatchedResultDropped | cli.js:121-123 | a result with an unknown call_id, an index past the open step's tools, or no open step changes nothing |
| Reducer.UnrecognisedLinesSkipped | cli.js:67-73 | unparseable, unrecognised and (corrected) `null` lines change nothing |
| Reducer.FixBugOpening | cli.js:110-126 | in the worked example the call and its result meet in step t1 |
| Reducer.FixBugScenario | cli.js:59-131 | the worked example yields steps t1 (grep answered, summary "Found it") and t2 (open, empty) |
| Reducer.BoundaryOpening | cli.js:79-91 | a second `user_message` closes t1 with its pending call; the call_id map is kept |
| Reducer.BoundarySecondCall | cli.js:119 | a call in t2 registers at index 0 of t2's tools; the earlier mapping of c1 is still there |
| Reducer.ResultCrossesStepBoundary | cli.js:120-126 | a result for a call made in t1 lands on the tool at the same index of the open step t2; t1's call stays pending |
| Reducer.ReRegistrationOpening | cli.js:119 | two calls with the same call_id: the map points at the later one |
| Reducer.LaterRegistrationWins | public/app.js:120-127 | a result then fills the later call; the earlier call stays pending |
| Reducer.RunAsWrittenAborts | cli.js:66-75 | the loop as written (`ApplyAsWritten`: a `null` line throws at `obj.type` whether or not a step is open; `RunAsWritten`: the throw escapes the loop) fails exactly on a log holding a `null` line, and otherwise ends in the state of the corrected fold |
| Reducer.ReduceAsWritten | cli.js:59-131 | `parseJSONL` as written yields nothing exactly when some line is `null`, and otherwise the corrected result |
| Reducer.NullLineAbortsAsWritten | cli.js:68-75 | one `null` line after a user message loses the log as written, while the corrected fold keeps the step |
| Cli.Unique | cli.js:9-11 | no value twice; the same values as the input; never longer |
| Cli.FirstIndex | cli.js:9-11 | the position of the first occurrence |
| Cli.UniqueKeepsFirstOccurrenceOrder | cli.js:9-11 | the values appear in the order of their first occurrence, like a Set |
| Cli.NonEmpty | cli.js:44 | `.filter(Boolean)` keeps exactly the non-empty names, each as often as in the input |
| Cli.NonEmptyAppend | cli.js:44 | filtering splits over concatenation and keeps a single value exactly when it is non-empty, so the kept names stay in their original order |
| Cli.NonEmptyKeepsDistinct | cli.js:44 | filtering a list without repeats gives a list without repeats |
| Cli.ToolNames | cli.js:44 | the tool names of a step: each non-empty name of a tool exactly once |
| Cli.ToolNamesInCallOrder | cli.js:44 | the tool names are listed in the order of each name's first call |
| Cli.NonEmptyKeepsOrder | cli.js:44 | two values kept by the filter come from input positions in the same order |
| Cli.Join | cli.js:47 | `join`: "" for no parts; the first part starts the result, followed by the separator when there are more |
| Cli.JoinPair | cli.js:56 | one part joins to itself, two parts to the first, the separator and the second |
| Cli.StripFinalDot | cli.js:50 | `replace(/\.$/, "")` removes one final full stop and nothing else: the result is the text, or the text is the result plus "." |
| Cli.Clip | cli.js:53 | a text of at most 80 characters is kept; a longer one becomes exactly 80 characters, its first 77 and "..." |
| Cli.PartsCases | cli.js:44-56 | the parts collected: the tools sentence then the stripped summary; the summary alone; the quoted user text alone; or none |
| Cli.ToolNamesNonEmpty | cli.js:44-46 | the tool-name list is non-empty exactly when some tool has a non-empty name |
| Cli.GenerateReasoning | cli.js:43-57 | non-empty exactly when there is a named tool, an agent summary or user text; then it ends in "."; with a named tool it is "Used tools: " and the names once each joined by ", ", then ". " and the summary with one final "." stripped when there is a summary, then "."; otherwise the stripped summary; otherwise the user text quoted and clipped |
| Cli.ToolNamesOfRepeatedCalls | cli.js:44 | calls grep, grep, ls give the names grep, ls |
| Cli.FallbackListsEachToolOnce | cli.js:44-47 | those calls alone give "Used tools: grep, ls." |
| Cli.FallbackQuotesLongUserText | cli.js:52-54 | a 100-character user text is quoted as its first 77 characters and "..." |
| Cli.QuotesShortUserText | cli.js:52-56 | a step with only a user text of at most 80 characters gets `Responded to: "` + the text + `".` |
| Cli.FixBugReasoning | cli.js:43-57 | the first step of the worked example gets "Used tools: grep. Found it." |
| Cli.Fill | cli.js:134-136 | the post-pass on one step changes only the reasoning, keeps non-empty reasoning, and leaves it empty only when there is no named tool, summary or user text |
| Cli.Transform | cli.js:133-137 | one output step per step of the reducer, each equal to it but for the reasoning, and equal to it outright when it had reasoning |
| Cli.TransformFillsReasoning | cli.js:133-137 | the post-pass keeps ids and all fields but reasoning, keeps non-empty reasoning, and leaves reasoning empty only when there is nothing to synthesise from |
| Cli.FixBugScenarioWithFallback | cli.js:59-143 | the worked example after the post-pass |
| Cli.ParseJsonl | cli.js:59-144 | the loop's variables follow the fold turn by turn; the result is titled "Playback", stamped with the given time, and holds the post-passed steps |
| Cli.FillMissingReasoning | cli.js:133-137 | each step with empty reasoning gets `generateReasoning` of itself; the others are unchanged |
| App.SlicePrefix | public/app.js:38 | `slice(0, end)`: a prefix, with a negative end counted back from the end and clamped |
| App.Truncate | public/app.js:36-39 | "" for empty text; text of length at most `len` unchanged; a longer one, with `len >= 3`, has exactly `len` characters, keeps its first `len - 3` and ends in "..." |
| App.TruncateDefault | public/app.js:36 | `truncate(text)` with the default length 120: at most 120 characters, short text unchanged, long text keeps its first 117 |
| App.TruncateBelowThreeCountsFromTheEnd | public/app.js:38 | with `len` 2 the slice end is -1: "abcdef" becomes "abcde..." |
| App.ParseJsonl | public/app.js:59-139 | the viewer's loop follows the fold with the viewer's reasoning reader; there is no post-pass |
| App.StringSummaryIgnoredByViewer | public/app.js:106-110 | a string summary leaves the viewer's reasoning empty, where cli.js copies it |
| App.ViewerSynthesisesNothing | public/app.js:132-138 | a step with only user text keeps empty reasoning in the viewer |
| App.NavigationStaysInRange | public/app.js:228-259 | from an in-range position, scrubbing, next and prev all stay in range; next never passes the last step and prev never goes below 0 |
| App.PrevUndoesNext | public/app.js:249-259 | before the last step, next moves one forward and prev brings it back |
| App.NextUndoesPrev | public/app.js:249-259 | after the first step, prev moves one back and next brings it back |
| App.AdvanceStopsAtLastStep | public/app.js:249-255 | k calls of next reach `min(i + k, last step)` |
| App.Settle | public/app.js:228-230 | the position moves to `index` exactly when it names a step (or is the current one); it stays in range |
| App.NextIndex | public/app.js:249-255 | from an in-range position, one forward exactly when not on the last step, else unchanged; stays in range |
| App.PrevIndex | public/app.js:257-259 | from an in-range position, one back when above 0, else 0; stays in range |
| App.Player.constructor | public/app.js:1-7 | no steps, position 0 |
| App.Player.SetActiveStep | public/app.js:228-230 | moves to `index` exactly when it names a step, otherwise changes nothing |
| App.Player.Next | public/app.js:249-255 | one step forward unless on the last step; stays in range |
| App.Player.Prev | public/app.js:257-259 | one step back, not below 0; stays in range |
| App.Player.LoadSession | public/app.js:300-303 | the session's steps when it has an array of them, else none; back to position 0 |
| Server.LiveOrder | server.js:23-30 | the ids a sweep keeps, never more than there were |
| Server.LiveOrderMembers | server.js:25-28 | a sweep keeps exactly the listed ids whose entries have `expiresAt > now` |
| Server.LiveOrderDistinct | server.js:25-28 | a sweep never lists an id twice |
| Server.LiveEntries | server.js:23-30 | the kept entries are exactly the stored ones with `expiresAt > now`, unchanged |
| Server.Evict | server.js:32-41 | the survivors of eviction are a suffix of the insertion order |
| Server.Restrict | server.js:32-41 | the entries left after deleting every id not listed: exactly the stored entries of the listed ids, unchanged |
| Server.SweepKeepsExactlyLive | server.js:23-30 | the entries of the kept ids are exactly the live entries |
| Server.LaterSweepSubsumes | server.js:23-30 | a sweep at t1 followed by one at t2 >= t1 is one sweep at t2; in particular a sweep is idempotent |
| Server.SweepKeepsOrder | server.js:25-28 | the surviving ids keep their insertion order |
| Server.EvictKeepsNewest | server.js:32-41 | within capacity nothing goes; over it exactly `MAX_SESSIONS` newest remain, in order; with a capacity of 0 or less nothing remains |
| Server.InsertAtCapacityEvictsOldest | server.js:63-64 | inserting into a full store evicts exactly the oldest id |
| Server.InsertedSurvives | server.js:63-64 | with capacity at least 1 the inserted id survives as the newest |
| Server.Stored | server.js:52-61 | the stored session keeps the id and the steps, defaults the title to "Playback", `createdAt` to the current time and `meta` to `{}` |
| Server.SessionStore.constructor | server.js:15 | an empty store with the given TTL and capacity |
| Server.SessionStore.WithDefaults | server.js:12-13 | the store with `TTL_SECONDS` 3600 and `MAX_SESSIONS` 200, as with no environment settings |
| Server.SessionStore.PruneExpired | server.js:23-30 | the delete loop leaves exactly `LiveOrder` and `LiveEntries` of the old store, still consistent |
| Server.SessionStore.EnforceMaxSessions | server.js:32-41 | the delete loop with its counter leaves exactly `Evict` of the old order and their entries |
| Server.SessionStore.PostSession | server.js:45-67 | no array `steps` gives 400 "Missing steps[]" and no change; otherwise the session is inserted with expiry `now + TTL*1000`, eviction follows, and the reply names the id and the TTL; with capacity at least 1 the new entry is kept |
| Server.SessionStore.GetSession | server.js:69-76 | sweep first, then the stored session of a live id, and not found for an id never stored, evicted or expired |

## Left out

- JSON parsing, line splitting and `line.trim()`: lines arrive as classified events. A field whose JSON type the source does not test is modelled as a string. So the following are not modelled:
  - a truthy non-string `name`, `arguments`, `call_id` or `output`, which the source would copy into a step as it is;
  - a truthy non-string `message` of a `user_message` (copied as it is) or of an `agent_message`. The latter becomes `agent_summary`; in cli.js, when the step has no reasoning, the post-pass then calls `step.agent_summary.replace(...)` on it (cli.js:50, reached from cli.js:135), which throws a TypeError and aborts `parseJSONL` like a `null` line. An example is the line `{"type":"event_msg","payload":{"type":"agent_message","message":42}}` after a user message. The model, whose messages are strings, does not capture this abort;
  - a truthy non-string `summary_text` or `text` that the viewer's `find` would pick.
- String lengths count Dafny characters, not UTF-16 code units (`text.length`, `slice`).
- Clock, randomness and identifiers are parameters: `Date.now()`, `new Date().toISOString()` and `crypto.randomUUID()`. Freshness of the id is a precondition.
- `TTL_SECONDS` and `MAX_SESSIONS` are any integers. A `NaN` from a non-numeric environment value is not modelled.
- The periodic `setInterval(pruneExpired, …)` timer is not modelled. The sweep is a method the GET handler calls, and that anything may call.
- Express wiring is not modelled: routing, the JSON body limit, static files, `/health`, `listen` and response serialisation. The POST reply is `PostResult` and the GET reply is an `Option`.
- The session `meta` is modelled as a map from strings to strings, and the stored `steps` as already-reduced steps. The server stores whatever JSON it receives.
- CLI I/O is not modelled: `main`, `usage`, argument handling, file reading, upload, `open`.
- In the viewer, the DOM, rendering, scrolling, `play`/`pause`, timers, the visualiser, `localStorage` and `loadFromServer` are not modelled. The `pause()` that `next` calls at the last step only stops playback; the position is unchanged, as modelled.
- The scrubber's `Number.parseInt` is not modelled: `SetActiveStep` takes the parsed integer.
- Float-valued speed and timecode are not modelled.

## Findings

| source | as written | input that shows it | evidently intended | confidence | as-written member | corrected member |
|---|---|---|---|---|---|---|
| cli.js:75 | `obj.type` is read without checking that `JSON.parse` returned an object. A line that parses to `null` throws a TypeError outside the `try`, which aborts the whole `parseJSONL`. The same happens at public/app.js:75. | a log whose lines are `{"type":"event_msg","payload":{"type":"user_message","message":"hi"}}` and `null` | skip the line like any other unusable line, keeping step t1 | not executed | Reducer.NullLineAbortsAsWritten | Reducer.UnrecognisedLinesSkipped |
