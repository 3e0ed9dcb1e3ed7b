# watch-bot: the change-detection pass, modelled in Dafny

watch-bot runs a list of checks. Each check fetches JSON, renders it through a template, and compares the result with the text stored for that check last time (its baseline file). When the text is new, watch-bot posts it to a Slack webhook, or prints it when no webhook is configured, and then overwrites the baseline. A render failure becomes the text `*Unhandled error:*` followed by a newline and the error message, and that text goes through the same path. A failed POST or a failed write ends the run through `?`.

This project models that pass, i.e. `src/main.rs` lines 40-51 and 68-87, in seven modules:

- `Wrappers`: `Option`.
- `CacheKey`: the baseline file name, which is the prefix in force (`.last-` by default) followed by the lower-case hex of the URL's digest. It also has a hex decoder, used to prove that the name determines the digest.
- `Baseline`: the baseline files, as a map from file name to text; `content_has_changed`; a successful `update_content`.
- `Checks`: the configuration, the per-check observations, error folding, notifications, and one iteration of the loop (`Step`) with its contract split into small lemmas.
- `Loop`: the `for` loop over the checks with early exit (`Run`), for any loop body, plus lemmas that lift facts about one iteration to the whole pass.
- `Pipeline`: the program's own loop body and the pass (`Pass`), plus the properties of a pass: what it records, what it leaves alone, idempotence and its failure on a shared URL, what an abort leaves behind, and how errors flow.
- `Driver`: class `Watcher`. It holds the baseline map and the sequence of sent notifications as fields, and `RunPass` updates them in place, check by check, as `main` does. `RunPass` is proved to compute `Pipeline.Pass`.

The outside world enters through parameters:

- Each check has an `Observation`: the outcome of `perform_check` (`Ok(text)` or `Err(message)`), whether the webhook POST succeeds, and whether the file write succeeds.
- MD5 is the parameter `digest`, an arbitrary deterministic function from the URL to bytes.
- The disk is the `Store` map. An absent name stands for a file that was never written or could not be read.

## Model

| member | source | states |
|---|---|---|
| `Baseline.ContentHasChanged` | src/main.rs:40-46 | a missing or unreadable baseline always reads as changed; otherwise there is no change exactly when the stored text equals the new text |
| `Baseline.Written` | src/main.rs:48-51 | after a successful write, the file holds exactly the new content, so reading it back reports no change; the set of files gains only this name, and every other file keeps its text |
| `CacheKey.HexDigit` | src/main.rs:74 | `DigitValue` reads each emitted digit back as the nibble it was made from |
| `CacheKey.DigitValue` | src/main.rs:74 | a character is a digit exactly when it is `0`-`9` or `a`-`f`, and its value is below 16 |
| `CacheKey.HexByte` | src/main.rs:74 | every byte is written as exactly two digits |
| `CacheKey.Hex` | src/main.rs:74 | a digest of n bytes becomes 2n characters |
| `CacheKey.HexIsDigits` | src/main.rs:74 | everything `{:x}` writes is a lower-case hex digit |
| `CacheKey.HexDecode` | src/main.rs:74 | a successful decode returns half as many bytes as there are characters |
| `CacheKey.HexRoundTrip` | src/main.rs:74 | decoding the hex of a digest gives the digest back |
| `CacheKey.EffectivePrefix` | src/main.rs:73 | the configured prefix when there is one, `.last-` otherwise |
| `CacheKey.ContentFilename` | src/main.rs:73-74 | the file name starts with the prefix in force, followed by two characters per digest byte |
| `CacheKey.FilenameDecodes` | src/main.rs:73-74 | the URL's digest can be recovered from the file name |
| `CacheKey.FilenameIdentifiesDigest` | src/main.rs:73-74 | under a given prefix setting, two URLs share a file name exactly when their digests are equal; the template plays no part |
| `Checks.Rendering` | src/main.rs:69-70 | a successful rendering passes through unchanged; for a failure, `ReportedError`'s contract and `ErrorRoundTrip` fix the text as the banner followed by the error's text |
| `Checks.ReportedError` | src/main.rs:70 | any error text it finds is exactly what follows the banner |
| `Checks.ErrorRoundTrip` | src/main.rs:69-70 | the error message can be recovered from its folded text |
| `Checks.MessageFor` | src/main.rs:80-84 | the notification carries the rendering; it is a POST to the webhook exactly when one is configured, and a printed line otherwise |
| `Checks.StepSkipsUnchanged` | src/main.rs:76-78 | an unchanged check sends nothing and leaves every baseline as it was |
| `Checks.StepNotifiesChange` | src/main.rs:80-86 | a changed check that does not stop the pass appends exactly one notification, equal to the rendering, and stores the rendering under its own key only |
| `Checks.StepRecordsRendering` | src/main.rs:86 | after a check that lets the pass go on, its baseline holds its rendering |
| `Checks.StepTouchesOnlyItsFile` | src/main.rs:86 | a check changes no baseline file except its own |
| `Checks.StepSendsAtMostOne` | src/main.rs:80-84 | a check adds no notification, or exactly one carrying its rendering |
| `Checks.StepStoresOnlySent` | src/main.rs:80-86 | a check changes the store only after the notification of the same text went out |
| `Checks.StepHaltsOnFailure` | src/main.rs:80-87 | the loop stops at a check exactly when the check is changed and its POST or its write fails |
| `Checks.StepHaltKeepsBaseline` | src/main.rs:80-87 | on a stop, the check's baseline is untouched and still reads as changed; the stop is a failed notification exactly when the POST failed, and then nothing was sent; a failed write comes after that check's notification |
| `Loop.Run` | src/main.rs:68-87 | a pass can stop only at one of its checks |
| `Loop.RunKeepsFile` | src/main.rs:68-87 | over a body that touches only the current check's file, a file that no remaining check is named after comes through the pass unchanged |
| `Loop.RunRecordsTexts` | src/main.rs:68-87 | over checks with distinct files, a pass that goes through leaves every rendering stored |
| `Loop.RunQuiet` | src/main.rs:68-87 | when every check finds its rendering stored, the pass completes and changes nothing |
| `Loop.RunCompletes` | src/main.rs:68-87 | a pass in which no check halts goes through |
| `Loop.StateBeforeAbort` | src/main.rs:68-87 | a pass that stopped did so at or after its first check, because check `at` halted from the state `before`; the earlier checks, run on their own, go through and leave exactly `before` |
| `Loop.RunSplits` | src/main.rs:68-87 | a pass splits at any check: when the checks before it go through, the pass continues from the state they left; when they stop, the pass stops there with the same result |
| `Loop.RunIgnoresAfterAbort` | src/main.rs:68-87 | the checks after the stopping point play no part in the result |
| `Loop.RunAgrees` | src/main.rs:68-87 | bodies that agree on every check give the same pass |
| `Loop.RunAppends` | src/main.rs:68-87 | notifications are only appended, at most one per check |
| `Loop.RunStoresWhatItSends` | src/main.rs:68-87 | a file the pass changed holds the text of a notification sent during that pass |
| `Pipeline.Pass` | src/main.rs:68-87 | the program's pass can stop only at one of the configured checks |
| `Pipeline.BodyTouchesOnlyKeys` | src/main.rs:72-86 | the program's loop body touches only the current check's baseline file |
| `Pipeline.BodyRecordsTexts` | src/main.rs:76-86 | the program's loop body, when it lets the pass go on, leaves the check's rendering stored |
| `Pipeline.BodySkipsMatching` | src/main.rs:76-78 | the program's loop body skips a check whose rendering is already stored |
| `Pipeline.BodyAppendsAtMostOne` | src/main.rs:80-84 | the program's loop body appends at most one notification |
| `Pipeline.BodyStoresWhatItSends` | src/main.rs:80-86 | the program's loop body stores only the text it has just sent |
| `Pipeline.DistinctNamesGiveDistinctKeys` | src/main.rs:73-74 | distinct names per check give distinct keys for the loop |
| `Pipeline.PassKeepsOtherBaselines` | src/main.rs:68-87 | a file that no check is named after is left exactly as it was |
| `Pipeline.CompletedPassRecordsRenderings` | src/main.rs:68-87 | over checks with distinct files, a completed pass leaves every check's rendering stored as its baseline |
| `Pipeline.MatchingBaselinesGiveQuietPass` | src/main.rs:76-78 | when every check's rendering is already stored, the pass completes, sends nothing and changes nothing |
| `Pipeline.SecondPassIsQuiet` | src/main.rs:68-87 | idempotence: after a completed pass over distinctly named checks, a pass with the same renderings sends nothing and changes nothing, whatever the webhook and the disk would do |
| `Pipeline.PassUpTo` | src/main.rs:68-87 | the checks before check `j`, run on their own, can stop only at one of them |
| `Pipeline.FirstSightNotifies` | src/main.rs:41-46 | in a completed pass, a check with no baseline file at the start has its rendering sent during the pass, even when the rendering is empty, and also when checks share a file |
| `Pipeline.FirstSightNotifiesOnce` | src/main.rs:41-86 | when no two checks share a file, a check with no baseline file at the start, in a completed pass, itself appends exactly one notification of its rendering (to the webhook when configured) and writes its baseline, and that notification is among those the pass sent |
| `Pipeline.AbortIgnoresLaterChecks` | src/main.rs:80-87 | after a stop at check `at`, later checks are not processed: changing them changes nothing |
| `Pipeline.AbortedCheckStaysPending` | src/main.rs:80-87 | after a stop, the check the pass stopped at still reads as changed; the stop is a failed notification exactly when that check's POST failed, and otherwise its write failed |
| `Pipeline.FailedWriteFollowsNotification` | src/main.rs:80-86 | when the write fails, the notification for that check was the last one sent |
| `Pipeline.NotificationsAppended` | src/main.rs:80-84 | a pass only appends notifications, at most one per check |
| `Pipeline.WrittenBaselinesWereSent` | src/main.rs:80-86 | every baseline file the pass changed holds the text of a notification sent during the pass |
| `Pipeline.ErrorFlowsLikeRendering` | src/main.rs:69-70 | a failed render behaves exactly like a successful render of the banner plus the message |
| `Pipeline.RenderFailuresDoNotStopPass` | src/main.rs:69-70 | when every POST and every write would succeed, the pass completes whatever the renderings are |
| `Pipeline.DistinctDigestsGiveDistinctNames` | src/main.rs:73-74 | checks share a baseline file exactly when their URLs share a digest |
| `Pipeline.PassIsIdempotent` | src/main.rs:68-87 | idempotence with the program's file naming, when no two URLs share a digest |
| `Pipeline.SharedUrlRenotifies` | src/main.rs:68-87 | two checks on one URL that render differently overwrite each other's baseline, so a second pass notifies both again |
| `Pipeline.HelloScenario` | src/main.rs:68-87 | with standard output as the sink: "Hello x" is printed and stored; the same text again does nothing; "Hello y" is printed and replaces it |
| `Driver.Watcher.constructor` | src/main.rs:66 | the watcher starts from the files on disk, having sent nothing |
| `Driver.Watcher.Notify` | src/main.rs:80-84 | posts or prints the rendering; a failed POST sends nothing and reports failure; the files are not touched |
| `Driver.Watcher.UpdateContent` | src/main.rs:49-51 | a successful write leaves exactly `Written` of the old files; a failed one leaves them as they were |
| `Driver.Watcher.RunPass` | src/main.rs:68-87 | the in-place loop ends with the files, notifications and outcome given by `Pipeline.Pass` under the program's file naming |

## Left out

- `read_config` and the command-line parsing (src/main.rs:25-29, 54-66): the parsed `Config` is an input.
- `perform_check` (src/main.rs:31-38). The HTTP GET, the JSON parse, reading the template and Handlebars rendering are foreign I/O and libraries. Only their outcome, `Ok(text)` or `Err(message)`, enters the model. The error's `to_string()` is that message.
- MD5 itself: `digest` is any deterministic function from the URL to bytes. The model does not use the fact that MD5 yields 16 bytes, and collisions are not ruled out, so idempotence is stated under distinct digests (`Pipeline.PassIsIdempotent`).
- The HTTP POST, including the JSON body `{"text": rendered}`, and `println!`. A POST is a `Posted(webhook, text)` appended on success. Printing is a `Printed(text)` that always succeeds, so a panic of `println!` is not modelled.
- The file system. The store is a map. A read error and a missing file both appear as an absent name, as `content_has_changed` treats them alike.
- Driver.Watcher.UpdateContent: a failed `fs::write` is modelled as leaving the file as it was. A real failed write may instead leave the file empty or partly written. The model and the program then disagree on a later run in two cases. If the later rendering equals the old baseline, the program notifies and the model stays quiet. If the later rendering equals the partial text, the program stays quiet and the model notifies.
- Concurrency and several runs of the program at once are not modelled. `Pipeline.Pass` models one run over the checks. Several runs are lemmas that chain passes from the state the previous one left.
