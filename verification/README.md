# Template repository and training client — a Dafny model

This project models the client-side core of a PDF template designer:

* **The template repository** (`TemplateStorage`, `frontend/js/storage.js`):
  `getAll`, `getById`, `save`, `delete`, `clear`, `export`, `import`,
  `search` and `getStats` over one stored sequence of template records.
* **The generation history** in the same file: a most-recent-first log of
  generation records capped at twenty.
* **The training client** (`frontend/js/train.js`): the submission guard and
  request configuration, the dispatch on the POST reply, each poll tick, the
  model descriptor stored on completion, error classification, upload
  progress scaling, and the two URL rewrites (port migration and the status
  URL).
* **Relative-time labels** (`formatDate` in `frontend/js/index.js`).

Everything is pure functions over immutable values. The browser's key/value
store is a `Slot` (an absent key or a whole collection). Ids produced by the
id generator and clock readings are parameters. Server replies are
JavaScript values (`JsValue.Value`) with JavaScript truthiness, and property
access on them throws on `null`/`undefined` as it does in the browser. The
training client is a step function over a `Job` driven by events: a
submission, upload progress, the POST reply, and one poll reply per tick.

Files: `wrappers.dfy` (Option/Result), `seqs.dfy` (order-preserving filter),
`text.dfy` (lower-casing, substring search, first-occurrence replace,
decimal numerals), `record_store.dfy`, `js_value.dfy`,
`template_storage.dfy`, `generation_history.dfy`, `training.dfy`,
`relative_time.dfy`.

The model follows the code as written; in particular:

* Progress is not monotone. It is set to 10, the upload callback then
  rescales it into 0..10, and then it jumps to 20. A `running` tick with a
  missing or zero progress shows 50, not the last value.
* A status other than `running`, `complete` or `error` leaves the job
  polling, unchanged. It is not rejected as malformed.
* `save` of a known id replaces the record in place, at the index of the
  first record with that id.
* `import` also fails when an element of the array is `null`, because
  reading its `name` throws. The count it returns is the length of the parsed
  array, not the number of records added.
* With no `task_id` in the POST reply, the whole reply body is taken as the
  result. The server's synchronous reply is `{status: "complete", result}`,
  so the stored descriptor gets none of the run's metrics
  (`Training.SyncEnvelopeLosesMetrics`).

## Model

| member | source | states |
|---|---|---|
| RecordStore.Read | frontend/js/storage.js:14-17 | an absent key reads as the empty collection; a present key reads as its collection |
| RecordStore.Remove | frontend/js/storage.js:199-201 | after the key is removed, the collection reads as empty |
| TemplateStorage.GetAll | frontend/js/storage.js:14-17 | with nothing stored, the template list is empty |
| TemplateStorage.FindIndex | frontend/js/storage.js:46 | the result is the first index of a record with the id, or none when no record has it |
| TemplateStorage.GetById | frontend/js/storage.js:24-27 | the result is absent exactly when no record has the id; otherwise it is the first record with that id |
| TemplateStorage.Save | frontend/js/storage.js:34-58 | a missing id is replaced by the generated one and the record gets a creation time; every save sets the update time; nothing else in the record changes; the record replaces the first stored record with its id, or is appended when there is none |
| TemplateStorage.SaveNewRecord | frontend/js/storage.js:38-54 | a save without an id appends exactly one record, under an id not in the store, with createdAt <= updatedAt when the clock does not run backwards |
| TemplateStorage.SaveExistingRecord | frontend/js/storage.js:46-50 | a save with a stored id keeps the count, puts the record at the index of that id, and leaves every other record unchanged |
| TemplateStorage.SaveThenGetById | frontend/js/storage.js:24-58 | looking up the id returned by a save gives back exactly the saved record |
| TemplateStorage.SavePreservesValid | frontend/js/storage.js:34-58 | saves keep ids unique and assigned and keep createdAt <= updatedAt, given a fresh generated id, a clock that does not run backwards, and a caller-supplied createdAt not after the save |
| TemplateStorage.Delete | frontend/js/storage.js:65-73 | reports a removal exactly when some record has the id; the remaining records are exactly those with another id; an absent id leaves the collection unchanged |
| TemplateStorage.DeleteKeepsOrder | frontend/js/storage.js:69 | deleting from a concatenation deletes from each part, so the remaining records keep their order |
| TemplateStorage.DeleteThenGetById | frontend/js/storage.js:65-73 | after a delete, no record has the deleted id |
| TemplateStorage.DeleteKeepsValid | frontend/js/storage.js:65-73 | a delete keeps ids unique and assigned and createdAt <= updatedAt |
| TemplateStorage.Clear | frontend/js/storage.js:78-80 | after clearing, the collection reads as empty |
| TemplateStorage.Export | frontend/js/storage.js:86-89 | the export holds every stored record, in order |
| TemplateStorage.Admit | frontend/js/storage.js:107-115 | the import loop fails exactly when some element is null; otherwise it returns the objects with a truthy name and fields, in input order, the k-th with the k-th generated id and import time |
| TemplateStorage.Import | frontend/js/storage.js:97-123 | a non-array input fails; a null element fails; otherwise the store is the old records (merge) or nothing (replace) followed by the reissued accepted records, and the count is the input length |
| TemplateStorage.ImportCountCanExceedAdded | frontend/js/storage.js:107-118 | importing one valid record and one object without a name returns 2 but adds only 1 record |
| TemplateStorage.ImportPreservesUniqueIds | frontend/js/storage.js:107-114 | with distinct, fresh generated ids, an import keeps the ids unique and assigned |
| TemplateStorage.ExportImportRoundTrip | frontend/js/storage.js:86-118 | for a store whose every record passes the import check (a non-empty name and a fields list), replacing the store with its own export keeps the count, and keeps each record's name, description and field order |
| TemplateStorage.Search | frontend/js/storage.js:130-138 | the result holds exactly the stored records whose lower-cased name or present description contains the lower-cased query; an empty query returns all records |
| TemplateStorage.SearchSingle | frontend/js/storage.js:130-138 | a one-record store yields that record once when it matches or the query is empty, and nothing otherwise; with SearchKeepsOrder this fixes every result, repeats included |
| TemplateStorage.MatchesIffOccurs | frontend/js/storage.js:134-137 | a record matches exactly when the query occurs at some index of its name or present description |
| TemplateStorage.SearchIgnoresQueryCase | frontend/js/storage.js:132 | lower-casing the query first does not change the result |
| TemplateStorage.SearchKeepsOrder | frontend/js/storage.js:134-137 | searching a concatenation searches each part, so results come back in stored order |
| TemplateStorage.GetStats | frontend/js/storage.js:144-161 | the count is the number of records; with no records, lastUpdated is null |
| TemplateStorage.LatestIsEarliestMaximum | frontend/js/storage.js:154-158 | from a timed seed, the reduce yields the maximum of the seed and the times of the timed records; records with neither timestamp are skipped; a record only wins when its time is strictly later, so the earliest record with the maximum wins |
| TemplateStorage.StatsLastUpdated | frontend/js/storage.js:153-159 | lastUpdated is missing exactly for an empty store (null) or a first record with neither timestamp (undefined, the seed); otherwise it is the latest time among the timed records, taken from the earliest record that has it |
| TemplateStorage.StatsUntimedFirstRecord | frontend/js/storage.js:154-158 | when the first record has neither timestamp, the seed is an invalid date and lastUpdated stays missing |
| GenerationHistory.GetRecent | frontend/js/storage.js:191-194 | with nothing stored, the history is empty |
| GenerationHistory.SaveRecent | frontend/js/storage.js:175-185 | the stamped record is at index 0, earlier records move back one place, and the length is min(old length + 1, 20) |
| GenerationHistory.ClearRecent | frontend/js/storage.js:199-201 | after clearing, the history is empty |
| GenerationHistory.SaveAllContents | frontend/js/storage.js:175-185 | after any non-empty series of saves, the history is the series newest first, followed by the older records, cut at 20 |
| GenerationHistory.HistoryBoundedNewestFirst | frontend/js/storage.js:179-182 | however many saves are made, the history has at most 20 records and the last save is at index 0 |
| Training.StartTraining | frontend/js/train.js:43-84 | no templates means no request; below 3, a request only with confirmation; a request carries the whole template snapshot and epochs, batch_size, generate_synthetic and min_templates = 10 |
| Training.RequestSentIff | frontend/js/train.js:43-53 | a request is sent exactly when there are at least 3 templates, or at least 1 and the user confirmed |
| Training.UploadPercent | frontend/js/train.js:94-96 | the value is loaded*10/total rounded to the nearest integer, halves up; it lies in 0..10 when 0 <= loaded <= total |
| Training.NewErrorMessage | frontend/js/train.js:137-139 | `new Error(v)` has the empty message for undefined and keeps a string message as it is |
| Training.ClassifyError | frontend/js/train.js:185-201 | a response gives a server error with status and (detail or statusText); otherwise a request gives cannot-connect; otherwise the error's own message; with a null response body the handler itself throws |
| Training.Describe | frontend/js/train.js:151-167 | the descriptor takes accuracy, epochs, template_count as templateCount, training_time as trainingTime, and the completion time; a null or undefined result throws |
| Training.Complete | frontend/js/train.js:151-167 | completion sets progress to 100 and overwrites the descriptor; a null or undefined result ends in Failed with the old descriptor kept |
| Training.OnPostReply | frontend/js/train.js:100-115 | after the POST settles the job polls or has ended; it polls exactly when a body arrived with a truthy task_id; a rejection fails with its classification; a received body leaves progress at 20, or 100 on completion; the log is untouched |
| Training.OnPollReply | frontend/js/train.js:124-145 | a tick keeps the phase or ends the job; the log grows by at most one line; the descriptor changes only on completion |
| Training.Step | frontend/js/train.js:43-145 | the phase only moves forward (idle or finished to submitting, submitting to polling or an outcome, polling to an outcome); a finished job ignores every event but a submission; without a submission the log only grows, by at most one line; the descriptor changes only on completion |
| Training.Run | frontend/js/train.js:100-145 | without a new submission, the log after any series of events extends the old log by at most one line per event |
| Training.SubmitStartsJob | frontend/js/train.js:60-87 | an accepted submission starts a job at 10% with a cleared log and the old descriptor kept; a refused one changes nothing |
| Training.UploadProgressBounded | frontend/js/train.js:94-96 | while submitting, upload progress with 0 <= loaded <= total and a positive total keeps the bar within 0..10 |
| Training.PostReplyDispatch | frontend/js/train.js:100-110 | a truthy task_id starts polling at 20%; without one, the job completes and the descriptor is read from the whole reply body |
| Training.RejectedPost | frontend/js/train.js:90-115 | a rejected POST fails the job with the error's classification and changes nothing else |
| Training.NullPostBody | frontend/js/train.js:100-115 | a null or undefined POST body throws on reading task_id after progress reached 20, and the job fails with that TypeError |
| Training.PostReplyEndsSubmittingIff | frontend/js/train.js:100-115 | after the POST reply the job polls or has ended, and polls exactly when a body arrived with a truthy task_id |
| Training.SyncEnvelopeLosesMetrics | frontend/js/train.js:104-109 | for the server's synchronous `{status: "complete", result}` reply, the stored descriptor has every metric undefined, whatever the result holds |
| Training.RunningTick | frontend/js/train.js:129-133 | a running tick stays in polling; progress becomes the reported value, or 50 when it is missing or 0; a log line is appended only when log is truthy |
| Training.CompleteTick | frontend/js/train.js:134-136 | a complete tick stops polling; with a result object, the job completes at 100% with the descriptor taken from that result |
| Training.ErrorTick | frontend/js/train.js:137-143 | an error tick stops polling and fails with the message of `new Error(status.error)` |
| Training.RejectedTick | frontend/js/train.js:141-144 | a failed status request stops polling and fails with its classification |
| Training.UnrecognisedTick | frontend/js/train.js:129-140 | any other status value leaves the job unchanged and still polling |
| Training.TickEndsPollingIff | frontend/js/train.js:124-145 | after a tick the job is still polling exactly when the reply was received and its status is neither complete nor error; otherwise the job is Completed or Failed |
| Training.TerminalIsFinal | frontend/js/train.js:134-144 | once Completed or Failed, no later reply, tick or upload event changes the job |
| Training.AsyncScenario | frontend/js/train.js:104-167 | task t1, then running at 40, then complete with accuracy 0.9: the job completes at 100% with that descriptor, and a later tick is ignored |
| Training.LoadConfig | frontend/js/train.js:243-255 | with no saved URL, the current URL stays; a saved URL is rewritten and written back exactly when it contains ":8000", keeping its length; otherwise it is used as saved |
| Training.MigrationRewritesFirstOldPort | frontend/js/train.js:247-249 | the rewrite replaces exactly the first ":8000" with ":9000" |
| Training.LoadConfigStable | frontend/js/train.js:250-252 | a saved URL without ":8000" is used unchanged, not written back, and loads the same way again |
| Training.StatusUrl | frontend/js/train.js:122 | the first "/train" of the API URL becomes "/train/status/<taskId>"; a URL without "/train" is used as is |
| Training.StatusUrlOfDefault | frontend/js/train.js:122 | with the default endpoint, the status poll goes to the default URL followed by "/status/<taskId>" |
| Training.MigratesOldDefault | frontend/js/train.js:246-249 | an endpoint saved under the old default port loads as the current default and is written back |
| Text.ContainsIffOccurs | frontend/js/storage.js:135-136 | `includes` holds exactly when the substring occurs at some index |
| Text.Lower | frontend/js/storage.js:132-136 | lower-casing keeps the length, maps each ASCII capital to its small letter, leaves every other character as it is, and leaves no ASCII capital |
| Text.IndexOf | frontend/js/train.js:122 | the first index where the pattern occurs, or none exactly when it occurs nowhere; this is where `replace` with a string pattern substitutes |
| JsValue.Get | frontend/js/train.js:104 | reading a property of null or undefined throws a TypeError naming the value and key; an object yields the property or undefined; any other value yields undefined |
| JsValue.Or | frontend/js/train.js:130 | `a || b` is a when a is truthy, b otherwise |
| Text.ReplaceFirst | frontend/js/train.js:248 | `replace` with a string pattern changes only the first occurrence and returns a string without the pattern unchanged |
| Text.NatToStringRoundTrip | frontend/js/index.js:250 | the rendered count reads back as the count |
| RelativeTime.Bucket | frontend/js/index.js:239-267 | "just now" exactly below one minute, negative times included; locale date exactly from one week on; otherwise a count c of minutes, hours or days with c*unit <= diff < (c+1)*unit |
| RelativeTime.CountRanges | frontend/js/index.js:245-263 | minutes are 1..59, hours 1..23 and days 1..6 |
| RelativeTime.CountedLabel | frontend/js/index.js:250-262 | a counted label starts with the count in decimal and the unit name, and ends in "s ago" exactly when the count is not 1; nothing else lies between, so the label is exactly "<count> <unit>[s] ago" |
| RelativeTime.FormatDate | frontend/js/index.js:239-267 | below one minute the label is "Just now"; from one week on it is the locale date; in between it starts with a non-zero digit and ends in " ago" (the exact counted text is stated by RelativeTime.CountedLabel) |
| RelativeTime.BucketMonotone | frontend/js/index.js:245-266 | a longer elapsed time never gets an earlier label, nor a smaller count in the same unit |

## Left out

- Serialization and the storage medium: JSON parsing and stringifying and `localStorage` reads and writes are not modelled. A stored key holds its collection directly, and `import` takes an already-parsed value (array or not). A JSON syntax error inside `import` is not modelled.
- `getStats` sizes: `sizeBytes`, `sizeKB` and `sizeMB` are not modelled. They measure the serialized text and format floats (frontend/js/storage.js:146-152).
- The id generator (`generateId`, frontend/js/storage.js:167-169) and every clock reading (`Date.now`, ISO timestamps) are parameters. Generated ids are assumed fresh where a lemma needs it; they are not proved unique.
- Timers: `setInterval`, the shared `trainingInterval`, overlapping ticks and `resetTraining` are not modelled. Each tick is one step, and a job that has left `Polling` ignores further ticks. The 2-second poll interval (frontend/js/train.js:145) is not modelled.
- Training.Step: a submission while a job is submitting or polling is ignored. In the source the form is hidden then, and a second job would share the one timer.
- The DOM is not modelled: alerts, the confirm dialog (a boolean input), notifications, the fixed local log lines and their timestamps, the progress text (`status.message`), `updateStatus`, `saveTrainingConfig` and `escapeHtml`. The locale formatting in frontend/js/train.js:270-273 and frontend/js/index.js:266 is an input string.
- Training.UploadPercent: needs a positive total. When the total is 0 or unknown, the source shows a non-finite percentage; in the model, `Training.Step` leaves the progress unchanged.
- Training.NewErrorMessage: a non-string `status.error` stays a value. Its conversion to a string is not modelled.
- Training.ClassifyError: the report is structured (status and reason, cannot-connect, message) rather than the concatenated display string. The TypeError text uses the V8 wording.
- TemplateStorage.Search: matching ignores case for ASCII letters only; a name "CAFÉ" does not match the query "é", which `toLowerCase` would make match (frontend/js/storage.js:132-136). See `Text.Lower`.
- Text.Lower: lower-cases only ASCII letters. The source's `toLowerCase` is full Unicode.
- Training.StatusUrl: a task id containing `$` replacement patterns (such as "$&") is spliced in literally, where `replace` expands them (frontend/js/train.js:122). See `Text.ReplaceFirst`.
- Text.ReplaceFirst: `$` patterns in a replacement string are not interpreted. They would matter only for a task id containing `$`.
- Record shape: a template holds only its id, name, description, fields and the three timestamps, and a field only its name and kind. Any other property of a stored record or field is dropped, so "nothing else in the record changes" in `TemplateStorage.Save` and the round trip of `TemplateStorage.ExportImportRoundTrip` speak only of these.
- Missing versus empty strings: `""` stands for both a missing and an empty id or description. So `delete(undefined)` and `delete("")` (frontend/js/storage.js:69) are the same call in the model, and a missing id and an empty id both get a generated id on save.
- A truthy `fields` that is not an array passes the import check (frontend/js/storage.js:109) but cannot be represented: `fields` is either absent or a list of field descriptors.
- Template names and descriptions are strings. A stored record with no `name` makes `search` throw in the source; the model cannot represent it. Non-string names of imported objects are not represented either.
- JavaScript values: NaN is not represented. Built-in properties of primitives (such as `length`) are not modelled; the client never reads them.
- `epochs` and `batch_size` are integers; the NaN that `parseInt` returns on bad input is not modelled.
- RelativeTime.Bucket: the elapsed time is an integer. An unparsable date string gives NaN, which in the source also reaches the locale-date fallback.
- `backend/app.py` (service endpoints) and `backend/services/pdf_to_html_converter.py` are not part of this model. Only the shape of the synchronous training reply (backend/app.py:153-158) is used, in `Training.SyncEnvelopeLosesMetrics`.
