# nsfwbot moderation pipeline, modelled in Dafny

This project models the core of the `nsfwbot` Maubot plugin, which moderates images posted in Matrix rooms. Each image is classified as safe or NSFW, and the plugin then replies, reports to an audit room, or redacts the message, depending on its configuration. The model covers:

- **Image processing** (`process_images`). Every image is downloaded to its own temporary file. The classifier then runs once over the batch of files, and the predictions are re-keyed from file name to image URL. Every file recorded in `temp_files` is deleted on every way out, and any failure gives the empty result. `ProcessImages` is an imperative method over a `FileSystem` object. The object keeps the set of existing files plus logs of files created and removed. The method is proved against the specification function `ProcessResult`. Lemmas about `ProcessResult` prove that the result's keys are the distinct URLs in first-seen order, and that each key holds the prediction of its URL's last occurrence. The method's postconditions, with `RemovedOnce`, prove that exactly the recorded files are removed, each once. The one file that can be left behind is described below.
- **Permalink** (`create_matrix_to_url`). The link is the `matrix.to` event path plus one `via=` parameter per configured server. A parser reads the query back into the server list.
- **Summary** (`format_response`). The summary is empty for no results, the bare line for one result, and bulleted lines for several. For one or more results it splits back into one line per result.
- **Image extraction** (`extract_img_tags`). The `src` of each parsed `<img>` element is taken in document order.
- **Dispatch** (`send_responses`). First comes the ignore rule, then the reply, the report and the redaction, in that order. The predicate `Dispatched` states which of the three calls are attempted, as if-and-only-if conditions. It also states how the dispatch ends, for each way a call can fail. The method `SendResponses` follows the code's branches and is proved to satisfy `Dispatched`, and `Dispatched` is proved to allow exactly one behaviour.
- **Start-up** (`start`). Start-up loads the configuration into the plugin's fields. It classifies `report_to_room` as unset, a room id (`!`), an alias (`#`) or invalid, and resolves an alias through the client.

The outside world enters through parameters:
- how each image's fetch ends (`fetch`);
- the classifier's batch answer (`predict`);
- the temporary file names (`names`, standing for `uuid4`);
- the rendering of a score as a percentage (`pct`);
- the outcome of each chat call (`Outcomes`);
- the answer of alias resolution (`aliasLookup`).

Some behaviours of the code worth noting, which the model keeps:
- **Reply failures.** `evt.reply` (nsfwbot.py:228) has no handler of its own. So its exception reaches the outer `except` at nsfwbot.py:251 and ends the dispatch, and neither the report nor the redaction is attempted. `Dispatch.ReplyFailureSkipsRest` proves this. Likewise, only MBadJSON is swallowed from the report (nsfwbot.py:236) and only MForbidden from the redaction (nsfwbot.py:249). Any other failure of those calls also ends the dispatch.
- **Job limit.** Only a negative `max_concurrent_jobs` makes `Semaphore` raise (nsfwbot.py:78), which skips the rest of `start`. A limit of 0 is accepted.
- **Failed alias resolution.** The alias is assigned to `report_to_room` before the call that resolves it (nsfwbot.py:79-84). So when that call raises, the raw `#alias` stays in the field.
- **File left behind.** Suppose `open(..., "wb")` succeeds and `write` raises (nsfwbot.py:149-150). The file then exists but was never appended to `temp_files`, so the `finally` loop does not remove it. `Processing.Leaked` names that file, and the postconditions of `ProcessImages` account for it.

## Model

| member | source | states |
|---|---|---|
| Processing.ProcessImages | nsfwbot.py:136-165 | The result is `ProcessResult` of the inputs. The files created are those opened, in order. The files removed are exactly the recorded ones, each once, in order, whatever fails. The only file left on disk is the one whose write raised. |
| Processing.FetchImages | nsfwbot.py:146-151 | The download loop stops at the first fetch that raises, and `failed` is set exactly then. Every earlier image is recorded in `temp_files` with its file. Each file that was opened exists on disk, and nothing is removed. |
| Processing.PopPredictions | nsfwbot.py:153-158 | Popping each file's prediction in `temp_files` order gives the left-to-right comprehension `Rekey`. A missing or already-popped name is a failure. |
| Processing.RemoveTempFiles | nsfwbot.py:163-165 | Every recorded file is removed exactly once, in `temp_files` order. Those files leave the file set, and nothing else changes. |
| Processing.FirstFailure | nsfwbot.py:146-151 | The index of the first fetch that does not succeed. Every fetch before it succeeded; it equals the length when all succeed. |
| Processing.FileSystem.Create | nsfwbot.py:149 | Opening a file for writing adds it to the files and logs its creation. |
| Processing.FileSystem.Remove | nsfwbot.py:165 | Removing an existing file deletes it from the files and logs its removal. |
| Processing.RekeyDefined | nsfwbot.py:155-158 | When the file names are distinct, the comprehension succeeds exactly when every file has a prediction. When it succeeds, every file had one. |
| Processing.RekeyPrefixFails | nsfwbot.py:155-158 | If any prefix of the comprehension raises, the whole comprehension raises. |
| Processing.RekeyKeySet | nsfwbot.py:155-158 | The keys of the result are distinct, and a key is present exactly when it is one of the URLs. |
| Processing.RekeyKeyOrder | nsfwbot.py:155-158 | The keys appear in the order in which their URLs were first seen. |
| Processing.RekeyLastWins | nsfwbot.py:155-158 | Each URL holds the prediction of its last occurrence, so later duplicates overwrite earlier ones. |
| Processing.RemovedOnce | nsfwbot.py:163-165 | With distinct temporary names, each recorded file occurs exactly once among the removals. The file whose write raised is never among them. |
| Processing.ProcessFailureIsEmpty | nsfwbot.py:145-162 | The result is `{}` if a fetch fails, if the classifier fails, or if some file has no prediction. |
| Processing.ProcessSuccess | nsfwbot.py:145-159 | When all fetches and predictions succeed, the result has one key per distinct URL, in first-seen order. Each key holds the prediction for its URL's last occurrence. |
| Results.PutKeys | nsfwbot.py:155-158 | Assigning a key that is present keeps the key order; assigning a new key appends it. |
| Results.PutGet | nsfwbot.py:155-158 | After assigning a value to a key, that key reads back that value and every other key reads as before. |
| Results.NsfwResults | nsfwbot.py:220 | Every value kept carries the NSFW label and is one of the dictionary's values. Every NSFW-labelled value is kept. The result is empty exactly when no result is NSFW. |
| Results.NsfwResultsAppend | nsfwbot.py:220 | The filter distributes over concatenation, so it keeps the values in the order of the dictionary. |
| Permalink.MatrixToUrl | nsfwbot.py:167-180 | The URL starts with `https://matrix.to/#/<room>/<event>`. With no via servers the URL is exactly that. Otherwise `?` follows, and the query reads back as the configured servers in order, provided no server name contains `&`. |
| Permalink.ViaQueryRoundTrip | nsfwbot.py:175-179 | Provided no server name contains `&`, parsing the via query gives back exactly the configured servers, in order. |
| Response.FormatResponse | nsfwbot.py:192-207 | No results give `""`. One result gives its bare line. Several results give the lines joined by newlines, each behind `- `. |
| Response.FormatResponseSplitsIntoLines | nsfwbot.py:200-207 | If no line contains a newline, splitting the summary on newlines gives back one line per result, in order, for one or more results. The lines are bulleted when there are several. With no results the empty summary is a single empty piece. |
| Extract.ExtractImgSrcs | nsfwbot.py:182-190 | A string is returned exactly when it is the `src` of some `<img>` that has one. There are never more sources than images. |
| Extract.ExtractAppend | nsfwbot.py:190 | Extraction works element by element, so document order is kept. |
| Extract.ExtractAllSources | nsfwbot.py:190 | When every image has a `src`, the result is one source per image, in order. |
| Settings.ClassifyTarget | nsfwbot.py:79-86 | The target is unset exactly when empty. It is an alias exactly when it starts with `#` and a room id exactly when it starts with `!`. It is invalid exactly when it is non-empty and starts with neither. |
| Dispatch.AttemptsAreDispatched | nsfwbot.py:217-252 | The calls the code attempts, and the status it ends with, satisfy every rule of `Dispatched`. |
| Dispatch.AttemptsInPlanOrder | nsfwbot.py:226-247 | The attempted calls come from reply, report and redaction, in that order, each at most once. |
| Dispatch.AttemptsFollowRules | nsfwbot.py:218-247 | The reply is attempted iff the message is not ignored and `direct_reply` is set. The report is attempted iff the message is not ignored, `report_to_room` is non-empty and no reply failed. The redaction is attempted iff some result is NSFW, `redact_nsfw` is set, no reply failed, and the report failed with nothing but MBadJSON. |
| Dispatch.FinalStatusFollowsRules | nsfwbot.py:217-252 | The dispatch is ignored iff `ignore_sfw` is set and nothing is NSFW. It completes iff no attempted call has an uncaught failure. Otherwise it is aborted by the failure of the last attempted call. |
| Dispatch.DispatchedIsDeterministic | nsfwbot.py:217-252 | The rules of `Dispatched` allow exactly one list of calls and one status. |
| Dispatch.ReplyFailureSkipsRest | nsfwbot.py:227-229 | A failed direct reply is the only call made, and its failure ends the dispatch. |
| Dispatch.EmptyBatchStillReplies | nsfwbot.py:219-228 | With no results, `ignore_sfw` off and `direct_reply` on, the response is still sent as a reply first. |
| Plugin.NsfwPlugin.constructor | nsfwbot.py:51-54 | The defaults are no via servers, no actions, one job slot and no report room. |
| Plugin.NsfwPlugin.Start | nsfwbot.py:65-89 | Unconfigured: nothing changes. Configured: via servers and actions are loaded. A negative job limit fails before `report_to_room` is set. An alias is looked up once; on success the resolved room id replaces it, and on failure the raw alias stays. A room id or empty value is kept as is. Any other value is kept with a warning. |
| Plugin.NsfwPlugin.SendResponses | nsfwbot.py:209-252 | The calls made and the status follow the rules of `Dispatched`. |
| Plugin.NsfwPlugin.ModerateImages | nsfwbot.py:106-109 | The pipeline runs in order: the results of `ProcessImages`, then the summary with the event's permalink, then a dispatch by the rules of `Dispatched`. The files created, removed and left on disk are those of `ProcessImages`. |
| Plugin.NsfwPlugin.HandleImageMessage | nsfwbot.py:96-111 | A message without a URL is skipped and leaves the disk and its logs untouched. Otherwise its one image goes through the pipeline, with the file effects of `ProcessImages`. |
| Plugin.NsfwPlugin.HandleTextMessage | nsfwbot.py:118-134 | A body with no `<img src>` is skipped and leaves the disk and its logs untouched. Otherwise the extracted sources, in document order, go through the pipeline, with the file effects of `ProcessImages`. |

## Left out

- Semaphore throttling: the semaphore's bound on concurrent batches (nsfwbot.py:143) is not modelled. `jobSlots` only records its initial value, because the model has no concurrency.
- Processing.ProcessImages: with a job limit of 0, `async with self.semaphore` (nsfwbot.py:143) never acquires, so every batch in the code waits forever. The model runs the batch anyway, because it does not model the semaphore.
- Transport calls: download, reply, send, redact and alias resolution are oracles given as parameters (`fetch`, `Outcomes`, `aliasLookup`), not the Matrix client. The model has no asynchrony and no cancellation. `BaseException` subclasses that bypass `except Exception` are not modelled.
- Classifier: `Model.predict` is an oracle. It answers with a map from file name to prediction, or fails.
- Score rendering: Python's `:.2%` formatting of a float is the abstract parameter `pct`, and scores are `real`, not floating point.
- Temporary names: the `uuid4` file names are supplied, and assumed distinct and not already on disk.
- File removal: `os.remove` is assumed to succeed. The model proves that every file it removes exists, but it does not model a removal that raises.
- HTML parsing: BeautifulSoup is not modelled. `Extract.ExtractImgSrcs` starts from the `<img>` elements already found, in document order.
- Handler triggers: the regular-expression triggers of the handlers and their `isinstance` checks on the content type are not modelled. A handler receives the URL or the parsed images directly.
- Error handling in the handlers: the outer `except` of the handlers (nsfwbot.py:110, 133) only logs. `send_responses` catches every `Exception` itself (nsfwbot.py:251), so an aborted dispatch never reaches it. Only a raising `os.remove` could, and the model assumes removal succeeds.
- Logging: no log line is modelled.
- Configuration loading: `load_and_update` and the `Config` class are not modelled. The model also leaves out the `str()` conversion of a non-string `report_to_room`. The configuration arrives as an already-typed `Config` value.
- Permalink.MatrixToUrl: the round trip through `ParseViaQuery` is proved only when no server name contains `&`. With such a name the query cannot be read back.
- Permalink.ViaQueryRoundTrip: requires that no server name contains `&`, for the same reason.
- Response.FormatResponseSplitsIntoLines: proved only when no line contains a newline. Such a newline could come from a URL, a label or the rendered score.
