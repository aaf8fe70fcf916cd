# Telegram workspace: verified models

A Dafny model of the parts of this Telegram scraping workspace that keep state
through branches, batches and interleavings, with proofs of what they promise.
`dafny verify dfyconfig.toml` checks the whole project.

* **Request recorder** (`request_recording`, `recording_*`). Pages, sync runs,
  tallies and the process's buffer are classes whose methods are specified by
  functions on their values. `recording_runs` runs those functions under every
  interleaving of tasks whose contexts are copied while the objects are shared.
  Conservation, chains, charges and the stamp of each sync are proved over all
  runs. A page has no closed flag, unlike a run: an answer recorded into a page
  after it closed is never drained, and `DrainedExactlyOnce` says that this is
  the only way to lose one.
* **Chat backfill** (`chat_backfill`, `chat_backfill_laws`, `chat_titles`). The
  batched keyset walk against the set of rows it should move; dry run against real run.
* **CRAP ratchet, coverage, pre-push check** (`ratchet`, `ratchet_laws`,
  `coverage`). The checker, the writer that must satisfy it, the merge that
  feeds it and the check that must agree with it.
* **Text machines** (`diff_lines`, `diff_lines_laws`, `glossary_words`). The
  diff line tracker against the new files themselves, and the identifier
  tokenizer against the styles identifiers are written in.
* **View-as gate** (`view_as`, `view_as_laws`). Templates as regular
  expressions against segment-wise matching, and the ladder of tiers.
* **Retention** (`retention`, `retention_posts`, `retention_reports`). Grouped
  and batched deletes against per-row rules.
* **Scheduling** (`auto_sync`, `auto_summary`, `discover_lane`). The rotation,
  the failure counter, the backoff, and the probe lane between two sweeps.
* **Job status** (`job_status`, `job_status_runs`). Announcements over a
  broadcast that may lose them.

`options`, `strings`, `decimals`, `ordering` and `dicts` hold the shared
vocabulary: Python's order of strings, its stable sort, its insertion-ordered
dictionary.

Times, ids and clock readings are inputs. A database's collation is any ranking
under which different ids compare differently. Sets that a database or a
dictionary yields in some order are taken in any order.

Where the code falls short of what its documentation suggests, the model follows
the code and says exactly when:

* A sync run inside another of its kind and Channel can lose its record's stamp
  to it (`StampLasts`), and a Budget named inside a tally is charged there
  (`TallyExactly`).
* The dry run of the chat backfill miscounts when a kept summary's chat id is
  the id of a chat-only summary read in another batch (`DryRunTellsTheTruth`).
* `update` does not satisfy `check` for a file outside every directory
  (`OwnSidesSuffice`), two functions can be given one key
  (`EveryFunctionKeyed`), and the pre-push check does not know numbered keys
  (`PrePushExactly`).
* End-to-end coverage never lowers a function below the unit tests, but a later
  report can lower it below an earlier one (`OneMoreReport`,
  `LaterReportCanLower`).
* The diff tracker counts the no-newline marker as a line (`NumbersAreExact`)
  and takes added lines that start with two pluses and a space for paths
  (`RightThroughout`, `PathBlindExactly`).
* A checked phrase without words, such as a trailing comma leaves, offends on
  every added line without words (`PhraseIsFound`).
* The trailing-slash tolerance of the View-as inventories never decides
  (`ListedIs`).
* A Post sweep that is cut off can leave an anchor dangling until another Post
  of the Channel expires (`InterruptedSweep`).
* A put-back does not look whether its message is still on the lane
  (`LaneKeptExactly`), a harvest reads the backlog and fills it in two steps
  (`HarvestRespectsTheCeiling`), two overlapping ticks regenerate one Summary
  twice and can fork its chain (`PacedExactly`, `ChainForksExactly`), and
  comparing announcement counts for inequality does not survive every worker
  restart (`RestartHidesARun`).

## Model

| member | source | states |
|---|---|---|
| `RequestRecording.Page.RecordAttempt` | backend/app/core/request_recording.py:224-279 | One attempt changes the page, the open tally, the open sync run and the buffer as the value functions the interleavings run on say: numbered next in its chain, an answer kept only by the ambient page, everything else pushed |
| `RequestRecording.Page.NextRecord` | backend/app/core/request_recording.py:231-273 | The record is charged exactly when the attempt was paid for and a Budget is attributed; a paid attempt is counted in the open tally and nothing else is |
| `RecordingPages.SoftBlocksAreNamed` | backend/app/core/request_recording.py:200-288 | In every interleaving each record, wherever it is, has its page's type, and its cause is a soft block only when that is what its page calls a withheld page: none does in a page that asks for a handle |
| `RequestRecording.Page.Close` | backend/app/core/request_recording.py:290-317 | Closing lets every kept answer go in order, judged as PageCloses says, and leaves none behind |
| `RequestRecording.Page.ReportPosts` | backend/app/core/request_recording.py:214-222 | The counts a page is judged by replace the earlier ones, everything else stays |
| `RequestRecording.SyncRun.HoldBack` | backend/app/core/request_recording.py:344-362 | A loop over offered records keeps at most one and lets the others go in order, as the one-record rule applied in turn; a closed run keeps none |
| `RequestRecording.Recorder.Push` | backend/app/core/request_recording.py:319-327 | What the context's open run does not keep back is appended to the buffer, in order |
| `RequestRecording.Recorder.CloseRun` | backend/app/core/request_recording.py:364-396 | A closing run stamps the record it held with its own verdict and offers it to the enclosing run, or to the buffer |
| `RequestRecording.Recorder.Drain` | backend/app/core/request_recording.py:398-404 | Draining hands over the whole buffer and empties it, and gives out no id |
| `RequestRecording.PageForFetch` | backend/app/core/request_recording.py:476-486 | A fetch joins the open page unless it is a picture or there is none, when it gets a page of its own |
| `RecordingRuns.NextWellFormed` | backend/app/core/request_recording.py:378-474 | Every step of every task keeps blocks and the pages and runs they opened pointing at each other, so each open page or run has one block |
| `RecordingRuns.BlocksRestore` | backend/app/core/request_recording.py:378-474 | Whatever runs inside a block and whatever other tasks do meanwhile, a task leaves it with the attribution, page, tally and sync run it entered it with |
| `RecordingConservation.HoldConserves` | backend/app/core/request_recording.py:344-362 | Offering records to a run neither loses nor repeats one: held and let go together are what went in |
| `RecordingConservation.NextConserves` | backend/app/core/request_recording.py:224-404 | No step changes how often a record is held anywhere, except that an attempt adds its own once |
| `RecordingConservation.Conservation` | backend/app/core/request_recording.py:224-404 | In every interleaving each attempt's record is in exactly one of an open page, an open run, the buffer and the drained records |
| `RecordingPages.ChainIsThePage` | backend/app/core/request_recording.py:200-279 | Records share a chain id exactly when they share a page, are numbered in order, the first bears the chain's id, and are Wasted exactly when a cause is set |
| `RecordingPages.NumberedWithoutGaps` | backend/app/core/request_recording.py:231-273 | Every number from 1 to the page's count belongs to an attempt of that page |
| `RecordingPages.OneUsefulPerPage` | backend/app/core/request_recording.py:290-317 | At most one record of a page is Useful, and it is the last answered attempt of the page |
| `RecordingPages.DrainedUnlessLate` | backend/app/core/request_recording.py:224-317 | Once all blocks are closed and the buffer is drained, an attempt has been drained once, unless it was an answer recorded into a page after it closed, which is drained never |
| `RecordingPages.DrainedExactlyOnce` | backend/app/core/request_recording.py:290-317 | Every attempt is drained exactly once if and only if no answer is recorded into a page after it has closed |
| `RecordingAnswers.AnswersAreJudged` | backend/app/core/request_recording.py:214-317 | Over every run each record, wherever it is, bears the new and repeated Posts its page had last been told of as it closed, and is Useful exactly when those were new or something changed, if it was the page's last answer then; every other record bears no Posts and is not Useful |
| `RecordingAnswers.PageCloses` | backend/app/core/request_recording.py:290-317 | As a page's block is left, its last answer goes on with what the page was last told, every other answer, or all if nothing was told, with nothing; and each is then in one place |
| `RecordingAnswers.RecordsTellTheAttempt` | backend/app/core/request_recording.py:224-288 | Over every run a record, wherever it is, has its attempt's times and lane, its page's type and the next number, the attribution of the task that made it, is charged if answered over web view with a Budget, and names a soft block as its page does, or no fault where a private Channel answers that its handle exists |
| `RecordingAnswers.AnswersWait` | backend/app/core/request_recording.py:274-279 | A record waits in its page exactly when it has no cause and the page is the one its task is in; otherwise it goes on at once |
| `RecordingAnswers.ContextsAreInherited` | backend/app/core/request_recording.py:412-474 | A task starts with nothing attributed and nothing open, a spawned one with what the spawning one had; entering a block sets the one variable it is for, an attribution field by field, keeping what is not named, and no step touches another task's |
| `RecordingAnswers.OpenedFor` | backend/app/core/request_recording.py:378-486 | A block opens a page of the type and with the name for soft blocks asked for, a run for what is then attributed, or a tally at zero with a Budget if one is attributed; a fetch's own page is a picture's or the metadata's |
| `RecordingCharges.TallyAgreesWithCharges` | backend/app/core/request_recording.py:244-273 | Over every interleaving a tally equals the paid attempts made with it innermost; opened with a Budget, it equals their charged records; opened without one, none of them is charged as long as no block naming a Budget is entered while that tally is innermost |
| `RecordingCharges.TallyExactly` | backend/app/core/request_recording.py:244-273 | Over every run a tally, however it was opened, equals its charged records if and only if nothing is paid for directly inside it without a Budget, and has no charged record if and only if nothing is with one |
| `RecordingCharges.BudgetInsideCharges` | backend/app/core/request_recording.py:244-273 | A run that names a Budget inside a tally opened without one charges its attempt |
| `RecordingSyncs.HoldChooses` | backend/app/core/request_recording.py:344-362 | A run holds the first charged record of its kind and Channel offered so far, or the first of them at all when none is charged |
| `RecordingStamps.OneStampPerRun` | backend/app/core/request_recording.py:329-396 | In every interleaving, however runs nest, the record a closed run should answer on is in one place and bears the verdict of that run or of a later one that held it, and no other record bears that run's stamp; a run that no open run encloses and in which none is opened stamps it with its own verdict, and no other record it was offered bears any |
| `RecordingStamps.StampLasts` | backend/app/core/request_recording.py:364-396 | The stamp a run puts on that record as it closes lasts if and only if no run closes holding the record after it |
| `RecordingStamps.StampIsTheLastHolders` | backend/app/core/request_recording.py:329-396 | A record that was let go bears the verdict of the last run that held it as it closed, which had chosen it, and none if no run did |
| `RecordingStamps.VerdictIs` | backend/app/core/request_recording.py:364-396 | A closing run's verdict is failed exactly when it was last set to failed or its block was left by a fault |
| `RecordingStamps.NestedRunLosesItsVerdict` | backend/app/core/request_recording.py:329-396 | A run of the process in which a failed sync, nested in one that did not fail, leaves no record that says so |
| `RecordingSyncs.NestedRunLosesItsStamp` | backend/app/core/request_recording.py:364-375 | A run of the same kind and Channel around another stamps the other's record again, with its own verdict |
| `ChatBackfill.Store.BackfillChats` | backend/scripts/backfill_chat_sessions.py:168-208 | The keyset walk visits the candidates in the database's order once each, whatever the batch size; a dry run changes no row and counts each batch from the unchanged tables |
| `ChatBackfill.Store.MoveOne` | backend/scripts/backfill_chat_sessions.py:108-165 | One move writes the chat, as ChatsTellTheirSummaries says, and either deletes the summary or clears its transcript |
| `ChatBackfill.VisitsKeep` | backend/scripts/backfill_chat_sessions.py:99-208 | A walk leaves every summary, payload and chat it does not visit as it was |
| `ChatBackfill.OrderedIsOnly` | backend/scripts/backfill_chat_sessions.py:168-198 | There is only one ascending list of the candidates, so what is read does not depend on how it is split into batches |
| `ChatBackfillLaws.TranscriptsConserved` | backend/scripts/backfill_chat_sessions.py:108-208 | Every run keeps the multiset of owners with their transcripts, without any hypothesis on the ids |
| `ChatBackfillLaws.InterruptedAndRerun` | backend/scripts/backfill_chat_sessions.py:168-208 | A run cut off after any number of rows and started again ends in the same tables as one run |
| `ChatBackfillLaws.DryRunTellsTheTruth` | backend/scripts/backfill_chat_sessions.py:168-208 | A dry run of a given batch size reports what the real run then does if and only if the two rows of every clash, a kept summary and a chat-only one with the id its chat would get, are read in one batch |
| `ChatBackfillLaws.DryRunAlwaysTellsTheTruth` | backend/scripts/backfill_chat_sessions.py:168-208 | It does so for every batch size if and only if there is no such clash |
| `ChatBackfillLaws.ClashMisleads` | backend/scripts/backfill_chat_sessions.py:99-208 | A clash of two rows makes a dry run of one row at a time promise a move the real run does not make, under any collation |
| `ChatBackfillLaws.EveryChatMoved` | backend/scripts/backfill_chat_sessions.py:99-165 | Without such a clash every transcript not yet moved becomes a chat of its own, and its summary goes with it or stays with the transcript cleared |
| `ChatTitles.ChatsTellTheirSummaries` | backend/scripts/backfill_chat_sessions.py:99-140 | Every chat a walk adds has its summary's owner, scope, language, model, Post count and timestamp and its whole transcript; the extra bag only of a summary that was only the chat, whose label is then its title; otherwise the title is what the user first says, words one space apart, cut to 80 characters with an ellipsis |
| `ChatTitles.WhatIsMoved` | backend/scripts/backfill_chat_sessions.py:71-96 | A complete run visits exactly the summaries whose payload holds an array of at least one message |
| `Ratchet.KeyRows` | scripts/crap/ratchet.py:68-76 | The loop with its counter gives the rows, in source order, the keys the recursive definition gives them |
| `Ratchet.Check` | scripts/crap/ratchet.py:84-128 | Reports the failures of the over-threshold rows and then those of the baseline's entries in key order |
| `Ratchet.Update` | scripts/crap/ratchet.py:131-141 | Writes the sorted baseline of the over-threshold rows and the other sides' entries |
| `Ratchet.Verdicts` | scripts/crap/backend_complexity.py:34-53 | Fails exactly the rows without a bare entry whose complexity is above 30, and warns of those between 25 and 30, in the order given |
| `RatchetLaws.CheckFinds` | scripts/crap/ratchet.py:84-128 | A failure is reported if and only if it is there: new, risen, improved, stale or without a reason |
| `RatchetLaws.FailuresInOrder` | scripts/crap/ratchet.py:84-128 | No failure is reported twice, those of functions come first, and those of entries follow in the order of their keys |
| `RatchetLaws.UpdatedAt` | scripts/crap/ratchet.py:131-141 | An updated baseline has one entry per function over the threshold, within half a hundredth of its score and with its old reason, and the other sides' entries untouched |
| `RatchetLaws.RoundsToHundredths` | scripts/crap/ratchet.py:131-141 | A recorded score is whole hundredths, the nearest to the score, the even one of two as near |
| `RatchetLaws.UpdateIsSorted` | scripts/crap/ratchet.py:131-141 | The updated baseline has its keys in order, each once |
| `RatchetLaws.UpdateSatisfiesCheck` | scripts/crap/ratchet.py:84-141 | After `update`, `check` asks for nothing but reasons if and only if every function over the threshold is on a side that is checked |
| `RatchetLaws.OwnSidesSuffice` | scripts/crap/ratchet.py:144-148 | With the sides the command line takes from the rows that holds if and only if every function over the threshold is in a file in some directory or has a key that some row's side is spelled like, which none has where no file has a colon |
| `RatchetLaws.UpdateTwice` | scripts/crap/ratchet.py:131-141 | Updating an updated baseline changes nothing, not even its order |
| `RatchetLaws.KeyInjective` | scripts/crap/ratchet.py:68-76 | Keys tell functions apart by file, name and number, when no file holds a colon and no name ends like a number |
| `RatchetLaws.NumberedNamesCollide` | scripts/crap/ratchet.py:74-75 | A name ending like a number has the key of a repeat of the shorter name, so keys can be shared |
| `RatchetLaws.KeyedAt` | scripts/crap/ratchet.py:68-76 | A key that no function of another name is given holds the n-th function of its own name, and nothing when there are fewer |
| `RatchetLaws.NumberedInSourceOrder` | scripts/crap/ratchet.py:68-76 | The functions of one name in one file are numbered by their lines, each once |
| `RatchetLaws.EveryFunctionKeyed` | scripts/crap/ratchet.py:68-76 | Every function is found under the key it is given if and only if no two functions are given one key |
| `RatchetLaws.PlainNamesAreFound` | scripts/crap/ratchet.py:68-76 | Where no file has a colon and no name ends like a number, no two functions are given one key, so every function is found under its own |
| `RatchetLaws.CleanMeans` | scripts/crap/ratchet.py:84-128 | No failure is reported if and only if the functions over the threshold and the entries checked have the same keys, scores within the tolerance and reasons |
| `RatchetLaws.EntriesAndFunctionsPairUp` | scripts/crap/ratchet.py:84-128 | After a clean check each entry is for a function over the threshold, and for exactly one where no two functions are given one key |
| `RatchetLaws.DriftStaysBounded` | scripts/crap/ratchet.py:84-128 | Over any run of clean checks against one baseline no score drifts by more than 1.5 |
| `RatchetLaws.InsertedNameFailsAsNew` | scripts/crap/ratchet.py:68-128 | Inserting a same-named function above a recorded one always fails as new, whatever it scores, unless a function of another name is given the key the last one moves to |
| `RatchetLaws.CrapFallsWithCoverage` | scripts/crap/ratchet.py:64-65 | More coverage never raises a score, and no coverage brings it below the complexity |
| `RatchetLaws.ScoresAsDocumented` | scripts/crap/backend_complexity.py:29-31 | A complexity of 25 scores 25.6 at 90% coverage and 34.8 at 75%; fully covered a function is over the threshold from complexity 31, not covered at all from 6 |
| `RatchetLaws.WarnedNeedsCoverage` | scripts/crap/backend_complexity.py:29-53 | What the pre-push check warns of is over the threshold at 75% coverage and not when fully covered |
| `RatchetLaws.PrePushAgrees` | scripts/crap/backend_complexity.py:34-53 | So a function the pre-push check fails, being the first of its name, fails the ratchet as new, at any coverage and on any side, if and only if it is found under its key |
| `RatchetLaws.PrePushIgnoresNumbers` | scripts/crap/backend_complexity.py:41-42 | A second function of a name, with an entry of its own, fails before the push although the ratchet accepts its score |
| `RatchetLaws.PrePushExactly` | scripts/crap/backend_complexity.py:34-53 | The ratchet refuses the score of the n-th function of a name that the pre-push check fails, when it is found under its key, if and only if it has no entry of its own within the tolerance, and refuses it as new if and only if it has none at all; not found there, it is not judged at all |
| `RatchetLaws.OrderDoesNotMatter` | scripts/crap/ratchet.py:68-128 | The failures and their order do not depend on the order of the rows or of the baseline's entries, when no two rows tie |
| `Coverage.MergeAll` | scripts/crap/frontend_crap.ts:36-44 | Merging the reports one by one, their files and lines in any order, sums each line's hits and adds lines only to files the unit tests never loaded |
| `Coverage.HitsAreSummed` | scripts/crap/frontend_crap.ts:36-44 | A line is there after the merge if the unit tests have it, or never loaded its file and a report has it, and its hits are the unit tests' and every report's added up |
| `Coverage.MeasureCoverage` | scripts/crap/frontend_crap.ts:126-139 | The counting loop gives the share that was run of a function's own reported lines, those of nested functions below its first line not counting |
| `Coverage.EndToEndNeverRaisesAScore` | scripts/crap/frontend_crap.ts:36-44 | However many end-to-end reports are merged, no function of any file scores higher than on the unit tests alone |
| `Coverage.OneMoreReport` | scripts/crap/frontend_crap.ts:36-44 | One report more raises no score, whichever lines the function spans and whatever its complexity, if and only if the unit tests loaded the file, every line the report adds was run, or no line was run before |
| `Coverage.LaterReportCanLower` | scripts/crap/frontend_crap.ts:36-44 | In a file the unit tests never loaded a later report can halve a function's coverage |
| `Coverage.ReportsInAnyOrder` | scripts/crap/frontend_crap.ts:36-44 | The merge does not depend on the order of the reports |
| `DiffLines.Offenders` | scripts/check_em_dashes.py:22-39 | The loop reports what reading the rows one by one into path, line and findings reports |
| `DiffLines.EmDashOffenders` | scripts/check_em_dashes.py:14-39 | The em dash check is that loop, wanting the added rows that hold one outside the generated files |
| `DiffLinesLaws.SkippedAre` | scripts/check_em_dashes.py:14-18 | The files left alone are those under the generated client and the recorded fixtures, the schema, and those named as generated |
| `DiffLinesLaws.HeaderIsRead` | scripts/check_em_dashes.py:19-19 | A printed hunk header gives back the line number it was printed with, whatever its counts and heading |
| `DiffLinesLaws.TrackerReportsAdded` | scripts/check_em_dashes.py:22-39 | On every printed diff exactly the added lines that are wanted under the path the tracker holds are reported, in order, under that path and as far from their line of the new file as the markers and false paths above them in the hunk put its count |
| `DiffLinesLaws.NumbersAreExact` | scripts/check_em_dashes.py:27-38 | Where no added line starts with two pluses and a space, the report is the new files' own wanted lines if and only if none of those has a no-newline marker above it in its hunk |
| `DiffLinesLaws.RewrittenLastLineIsLate` | scripts/check_em_dashes.py:37-38 | A last line rewritten in a file without a final newline is reported one line too low |
| `DiffLinesLaws.RightThroughout` | scripts/check_em_dashes.py:22-39 | On every printed diff and for any test, the report is right after every file if and only if each wanted added line is not itself taken for a path, stands where the tracker holds its path and counts right, and no line is reported only because of another file's path |
| `DiffLinesLaws.PathBlindExactly` | scripts/check_em_dashes.py:22-39 | On every printed diff, a deleted file having no lines, and for a test that ignores the path, the whole report is right if and only if each wanted added line is not itself taken for a path and stands where the tracker holds its path and counts right |
| `DiffLinesLaws.RightInTheEnd` | scripts/check_em_dashes.py:22-39 | The same for any test, where no line is reported only because of another file's path |
| `DiffLinesLaws.StraysCancel` | scripts/check_em_dashes.py:14-39 | Otherwise a line reported under another path can stand in for a missed line of that path: the em dash check's report is right for the wrong reason |
| `DiffLinesLaws.FalsePathMisleads` | scripts/check_em_dashes.py:28-30 | The line under an added line that starts with two pluses, a space and b/ is reported in the file that line names, one line too high |
| `GlossaryWords.PascalMergesSingles` | scripts/check_glossary_words.py:27-32 | Capitalised and run together, words come back with each run of one-letter words merged into one |
| `GlossaryWords.StylesRoundTrip` | scripts/check_glossary_words.py:27-32 | Snake, kebab and upper snake give their words back; Pascal and camel if and only if no two one-letter words they capitalise are neighbours |
| `GlossaryWords.NumbersAreWords` | scripts/check_glossary_words.py:27-32 | A number is a word of its own, whether letters come before it or after |
| `GlossaryWords.PhraseIsFound` | scripts/check_glossary_words.py:60-66 | The padded search finds a phrase if and only if its words are neighbours in the line, in order; a phrase without words is found in the lines without words and in no other |
| `GlossaryWords.AnyStyleIsFound` | scripts/check_glossary_words.py:27-66 | A phrase in any style is found in an identifier of any style if and only if what the style lets be heard of its words stands in a row in what is heard of the identifier's; that is the words themselves unless one-letter words are neighbours |
| `ViewAs.TemplateIsSegmentwise` | backend/app/api/deps.py:446-459 | The regular expression of a template matches exactly the paths that agree with it segment by segment, a parameter taking one whole segment |
| `ViewAsLaws.ListedIs` | backend/app/api/deps.py:451-459 | A path is listed if and only if an entry agrees with it segment by segment; the tolerance for a missing trailing slash never decides |
| `ViewAsLaws.NothingReadSpends` | backend/app/api/deps.py:62-226 | No path whatever is both a spend path and listed as read-only |
| `ViewAsLaws.TiersFormALadder` | backend/app/api/deps.py:406-443 | On every method and path read-only allows less than elevated and elevated less than spend, the last step adding exactly the spend paths and the first exactly the writes neither spending, refused nor listed |
| `ViewAsLaws.UnknownModeIsReadOnly` | backend/app/api/deps.py:406-478 | A mode nobody recognises decides and is answered as read-only |
| `ViewAsLaws.NoTierWritesCredentials` | backend/app/api/deps.py:342-507 | For every unsafe method and mode, the paths /api/v1/users/me, /api/v1/users/me/password, /api/v1/data/ai-keys and /api/v1/view-as, and all under the last two, are refused, with any number of slashes after them; and an elevated session writes every other path that does not spend |
| `ViewAsLaws.ReadingIsAllowed` | backend/app/api/deps.py:406-443 | Reading is GET, HEAD and OPTIONS in whatever case, and every session reads what does not spend |
| `ViewAsLaws.AdviceIsTrue` | backend/app/api/deps.py:462-478 | A refused session that may write is sent to a spend session if and only if one would be allowed; otherwise no mode is |
| `Retention.Logs.SweepLogs` | backend/app/jobs/retention.py:267-338 | Whatever the order of accounts and windows, a row is deleted exactly when it is older than the deployment's window, for a sync or network row or one nobody owns, or than its own account's, for any other, no window keeping it; and the counts are the rows and payloads removed |
| `Retention.Logs.DeleteLogsBefore` | backend/app/services/logs.py:472-502 | Each family's rows before the cutoff that the owners reach go, and the payloads with the sync family |
| `Retention.OwnersByWindow` | backend/app/jobs/retention.py:319-323 | The accounts are grouped by the window each chose, 0 meaning none |
| `RetentionPosts.Corpus.SweepPosts` | backend/app/jobs/retention.py:341-419 | The batched loop ends; a Post is still there, unchanged, exactly when it is an anchor or no older than the cutoff, an embedding or translation goes exactly with its Post, and a Channel loses its anchor exactly when it lost a Post and the anchor is not there |
| `RetentionPosts.Corpus.DeleteBatch` | backend/app/jobs/retention.py:374-400 | Deleting a batch Channel by Channel deletes that batch and what hangs off it, and counts it |
| `RetentionPosts.AnchorsStayWhole` | backend/app/jobs/retention.py:402-413 | The sweep keeps every Channel's anchor naming a Post that is there, and clears exactly the anchors whose Post it deleted |
| `RetentionPosts.InterruptedSweep` | backend/app/jobs/retention.py:363-413 | A sweep cut off between batches and run again leaves the same rows, and the same anchors if and only if every Channel whose anchor was already deleted still had an expired Post |
| `RetentionReports.ReportTable.Prune` | backend/app/jobs/retention.py:134-202 | One account's reports lose those past the age cap and then those past the newest so many: what is left is young enough and few enough, and what went was too old or no newer than a full number that stayed |
| `RetentionReports.CapsAreOnesOwn` | backend/app/jobs/retention.py:134-202 | One account's caps never reach another's report or one without an owner |
| `RetentionReports.CapKeepsTheNewest` | backend/app/jobs/retention.py:184-200 | The count cap keeps as many reports as it allows, each newer than any it removes |
| `AutoSync.RotationIsFair` | backend/app/jobs/auto_sync.py:134-153 | While the candidates stay the same, each has been taken the floor or the ceiling of its share of all slots, whatever the batch sizes, the first cursor and the order they are found in |
| `AutoSync.BatchTakesEachOnce` | backend/app/jobs/auto_sync.py:147-153 | A batch takes no candidate twice, has the size asked for up to one lap, and then takes all |
| `AutoSync.BatchesGoInOrder` | backend/app/jobs/auto_sync.py:134-153 | Within a lap a batch goes by Channel id and then account, taking up where the cursor stands, a lap starting with the first of all |
| `AutoSync.BatchIgnoresOrder` | backend/app/jobs/auto_sync.py:144-149 | A batch does not depend on the order the candidates come in |
| `AutoSync.SchedulerState.StartTick` | backend/app/jobs/auto_sync.py:287-294 | A tick within a pause runs nothing and changes nothing; one after it clears the pause and the counter |
| `AutoSync.SchedulerState.RecordOutcome` | backend/app/jobs/auto_sync.py:475-515 | A job's failed Channels are added to the counter, which at the threshold sets a pause; a job without failures resets it |
| `AutoSync.CounterCountsFailures` | backend/app/jobs/auto_sync.py:475-515 | Over every run the counter is the sum of the Channels that failed in the jobs since the last reset, and there is always such a reset or the start |
| `AutoSync.PauseStands` | backend/app/jobs/auto_sync.py:287-294 | Over every run a pause is set until a time if and only if a job brought the counter to the threshold ten minutes before it, no later job did again, and no tick came at or after it |
| `AutoSync.TickIsSkipped` | backend/app/jobs/auto_sync.py:287-294 | A tick plans nothing if and only if such a pause has yet to end |
| `DiscoverLane.LaneAlways` | backend/app/jobs/discover_probe.py:282-364 | In every interleaving of sweeps, claims, lapses, verdicts, put-backs and crashes whose put-backs are harmless, no handle is on the lane twice, no more than a batch is, and there is room for what a sweep in progress has read |
| `DiscoverLane.PutBackKeepsExactly` | backend/app/jobs/sync_queue.py:1122-1132 | A put-back leaves the lane so if and only if it is harmless: its message is still there, or its handle is neither on the lane nor read by a sweep in progress, there is room for it beside both, and no sweep has just seen the lane empty |
| `DiscoverLane.LaneKeptExactly` | backend/app/jobs/discover_probe.py:282-364 | Over every run, no handle is ever on the lane twice and no more than a batch, at any step and after any continuation of the sweep, if and only if every put-back was harmless when it happened |
| `DiscoverLane.PutBackDuringASweep` | backend/app/jobs/sync_queue.py:1122-1132 | A put-back that looks harmless on the lane, while a sweep has read its handle, leaves the handle there twice once the sweep enqueues |
| `DiscoverLane.LapsedMessageComesBackTwice` | backend/app/jobs/sync_queue.py:1082-1132 | After any run that leaves the lane in order and nobody at work, a message claimed, lapsed, claimed again and put back by both consumers leaves its handle on the lane twice |
| `DiscoverLane.HarvestRespectsTheCeiling` | backend/app/jobs/directory_harvest.py:130-240 | Over every run, a harvest tick that has read the backlog takes it no further than the ceiling or than it was, whatever unknown handles it finds, if and only if the backlog is then no larger than what it read |
| `DiscoverLane.OvershootIsTheGrowth` | backend/app/jobs/directory_harvest.py:130-240 | Otherwise it can pass the ceiling by exactly what the backlog has grown since it was read, which is no more than others queued since, and never by more |
| `DiscoverLane.ReportTakesItPastTheCeiling` | backend/app/jobs/directory_harvest.py:228-237 | A handle reported between the read of the backlog and the harvest takes an empty backlog past the ceiling in one tick |
| `DiscoverLane.ProbesNeverAddToTheBacklog` | backend/app/services/channel_directory.py:1220-1268 | No verdict, conclusive or not, and no other step of the lane makes a handle pending |
| `DiscoverLane.VerdictsAnswer` | backend/app/services/channel_directory.py:1220-1320 | Over every run a conclusive verdict answers its handle, which is pending no more, and changes no other; an inconclusive one changes none |
| `DiscoverLane.ConsumersOnTheLane` | backend/app/jobs/sync_queue.py:1082-1132 | A claim hides a message, a lapse shows it again, an archive takes it off the lane, a put-back sends its handle under a new number and a crash does nothing to the lane; no other message is touched |
| `DiscoverLane.SweepsOnTheLane` | backend/app/jobs/discover_probe.py:282-364 | A probe sweep goes on only from an empty lane, sends one message for each handle it read, in order, and nothing when it stops |
| `JobStatus.Job.RunGuarded` | backend/app/jobs/scheduler.py:187-204 | A guarded run announces that it is disabled, or that it runs and then how it ended, with consecutive counts |
| `JobStatus.Job.ApplyEvent` | backend/app/jobs/scheduler.py:302-316 | A process's own announcement changes nothing; another's replaces entry and count together |
| `JobStatus.Job.WaitForRun` | backend/app/jobs/scheduler.py:382-404 | The wait ends before its deadline only after an announcement of another process, with a new count and a status other than running, and at the first look that finds one |
| `JobStatus.LatestWins` | backend/app/jobs/scheduler.py:302-316 | After any announcements what a process shows is the last one of another process as a whole, or what it showed |
| `JobStatusRuns.StepsOfAProcess` | backend/app/jobs/scheduler.py:95-326 | A process started, or started again, knows nothing and has announced nothing; a mark changes the entry alone, an announcement counts one more and sends entry and count to those it reaches, and what is heard of another replaces both |
| `JobStatus.FinishedRunIsSeen` | backend/app/jobs/scheduler.py:388-402 | A finished run whose announcements arrive is taken for an answer if and only if its last count differs from the one remembered |
| `JobStatus.RestartHidesARun` | backend/app/jobs/scheduler.py:391-397 | A worker that announced one run, was started again and runs the job once more is not noticed |
| `JobStatusRuns.ListenerShowsLatest` | backend/app/jobs/scheduler.py:302-326 | In every run over the lossy broadcast a process that only listens shows the initial entry or exactly the latest announcement delivered to it |
| `JobStatusRuns.NeverGoesBack` | backend/app/jobs/scheduler.py:302-326 | What a process shows is never an earlier announcement than before |
| `JobStatusRuns.EchoesChangeNothing` | backend/app/jobs/scheduler.py:302-307 | A runner's entry is what its own marks made it as long as nobody else announced the job since it started |
| `JobStatusRuns.OnlyARestartHidesARun` | backend/app/jobs/scheduler.py:365-404 | A finished run that is heard of goes unnoticed only by a listener whose last news came from an earlier worker process |
| `AutoSummary.Row.RecordFailure` | backend/app/jobs/auto_summary.py:587-612 | A failure adds one and sets the next attempt off by the new count's wait |
| `AutoSummary.Row.HandOver` | backend/app/jobs/auto_summary.py:346-388 | The successor takes the chain with no failures and no wait; the predecessor no longer regenerates, and has the failures and the wait it was read with |
| `AutoSummary.WaitLadder` | backend/app/jobs/auto_summary.py:137-145 | The waits start at a minute and double with each failure until they are a day, which they are from the twelfth on |
| `AutoSummary.TicksAreTimely` | backend/app/jobs/auto_summary.py:148-172 | Over every run a tick chooses, or is at, the Summary exactly when that has no successor, its window is a minute long at least, its length has passed again since its end, and the wait after its last failed run is over; to be chosen it must not be being regenerated |
| `AutoSummary.MarkedWhileAtIt` | backend/app/jobs/auto_summary.py:634-675 | Where ticks come to the Summary one at a time it is marked as being regenerated exactly while one is at it |
| `AutoSummary.PacedExactly` | backend/app/jobs/auto_summary.py:148-172 | Over every run, however ticks overlap, each failure is ticked after the one before and its wait if and only if no tick records a failure that was at the Summary, or starting its successor, when another tick's was recorded; and the ladder stands at the number of failures as long as the Summary has its chain |
| `AutoSummary.OneAtATimeIsNeverLate` | backend/app/jobs/auto_summary.py:634-675 | Ticks of which one at a time is at the Summary never fail late |
| `AutoSummary.FailuresAreSpacedOut` | backend/app/jobs/auto_summary.py:148-172 | Over any run in which no tick fails late, the k-th failed run is ticked at least the first k - 1 waits after the first |
| `AutoSummary.OverlappingTicksServeNoWait` | backend/app/jobs/auto_summary.py:634-675 | Two ticks that both chose the Summary before either was at it fail it twice without a wait between |
| `AutoSummary.ChainForksExactly` | backend/app/jobs/auto_summary.py:340-412 | Over every run the Summary gets one successor at most if and only if no tick hands its chain over after another did while it was at the Summary; and once it has one it is never due |
| `AutoSummary.OneAtATimeNeverForks` | backend/app/jobs/auto_summary.py:634-675 | Ticks of which one at a time is at the Summary never fork its chain |
| `AutoSummary.OverlappingTicksFork` | backend/app/jobs/auto_summary.py:634-675 | Two ticks that both chose the Summary before either was at it open two successors |

## Left out

- DiffLinesLaws.RightInTheEnd: asks that no line is reported only because of another file's path; RightThroughout needs no such condition, and StraysCancel shows that the end of the report alone does.
- AutoSummary.PacedExactly: after a hand-over the count need not be the number of failures, since the hand-over writes back what its run had read when it began.
- Records are values: the recorder changes a record in place only while one container holds it, which Conservation proves.
- Context variables are restored through a stack of blocks, not through reset tokens; the lock around the buffer is an atomic step; kind refusals and lane labels are not modelled.
- Rewriting payload and chat columns through the repository's upsert helpers: the model writes whole rows.
- Real arithmetic stands for floating point: scores, coverage and rounding to hundredths are exact.
- Unicode: digits, letters and blanks are the ASCII ones; splitting a diff at separators other than line ends is not modelled, nor are quoted paths in diff headers.
- Reading an lcov file, walking the TypeScript tree for complexity, and running radon are outside; coverage starts from the parsed lines.
- The glossary file's own parsing and its offenders loop, which is the diff tracker's loop with the phrase search as its test.
- The inventory of View-as paths that do not spend, which no decision reads; token decoding and the sessions themselves.
- Channel collection, sample expiry, view observations, job pruning and the thumbnail and avatar sweeps of retention: single deletes behind services.
- Which Channels are due, the merging of an account's due and partial Channels, and the enqueueing of jobs in auto-sync.
- Fetching, parsing and judging a probe's page; the Directory's priorities, backoff and refresh dates: a batch is any distinct known handles.
- The connection handling of the notification listener: any announcement may miss any listener, and what reaches one keeps its order.
- Enabled flags, next run times, details and the other jobs of the status dictionary; the trigger's own delivery.
- The successor's window, its syncs before freezing, auto-publishing and the quota switch of auto-summary.
- Stripping media counters by key order, the settings store with its cutoffs, and regenerating the example environment file: simpler walks and merges than those modelled.
- HTTP, proxies, AI providers, React components, migrations and model declarations.
