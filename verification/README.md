# QuickSurvey: a verified model of surveys, answers and tallies

This project models the part of QuickSurvey that decides what a survey's numbers mean: how an answer is recorded
against options that move while people answer, how votes follow merge pointers, how the tally is cached beside
concurrent writers, how the one-time exposure backfill survives crashes and competing processes, and how a survey is
saved, restored and exported. `dafny verify dfyconfig.toml` checks all of it.

## How it is organised

| file | what it models |
|---|---|
| `Model.dfy` | surveys, options, responses; looking an option up; accepting answers |
| `MergeGraph.dfy` | merge pointers and the bounded walk `Resolve` |
| `Editing.dfy` | moderation, the edit form, adding options, the checks of a survey write |
| `Tally.dfy` | counting votes and exposures, the stable sort, merging and undoing a merge |
| `Submission.dfy` | recording an answer, the exposure set, write-ins |
| `Ballot.dfy` | the ballot a respondent is shown |
| `Lifecycle.dfy` | runs of all these transactions on one survey, from its creation |
| `TallyCache.dfy` | the cache's two critical sections, and the protocol between writers and readers |
| `Backfill.dfy` | the exposure backfill as a multi-process, crash-resumable protocol |
| `Portable.dfy` | saving a survey to a document and restoring a document |
| `RoundTrips.dfy`, `Copies.dfy` | what saving and restoring preserve, with the ids kept and with fresh ones |
| `Restores.dfy` | when a restore is accepted, what it stores and what it spares |
| `Reachable.dfy` | that every reachable survey can be saved and restored; backups read while answers come in |
| `Export.dfy` | `responses.tsv` and its agreement with the tally |

Loops and in-place updates of the program are methods (some in classes: `SurveyRecord`, `ResponseTables`,
`TallyCache`, `Migration`, `SurveyStore`), each proved equal to a specification function; the theorems are about those
functions and about runs of them. Lemmas named `...Means` and `...ExactlyWhen` say what those functions promise field by
field, without naming them. Inductions are written out: every lemma turns automatic induction off. A transaction is one
atomic step. Random identifiers and the clock are parameters: an identifier is assumed new, an instant is assumed not to
be the zero time.

Two spellings of the tally meet. `Tally.TallyOf` counts over the lists the queries return, as the program does;
`Tally.TallyOver` counts sets of respondents, with no lists and no order. `Tally.TallyIgnoresReadingOrder` makes them
equal, so a theorem about either is a theorem about what is displayed.

## What the proofs found

- `Resolve` allows one more iteration than any survey needs: with n options, n iterations give the same answer on
  every chain that ends (`OneIterationFewerSuffices`), and n - 1 do not (`TwoIterationsFewerFails`).
- Skipping the exposure write when the length is unchanged rests on every stored exposure naming an option of the
  survey. Without that the skip loses an exposure exactly when as many options are newly on the ballot as there are
  dangling rows (`SkippedWriteLosesExactlyWhen`), and an answer choosing one of those is then chosen and not shown, and
  in no other case (`SavedRowShownExactlyWhen`). A restore under kept ids can leave such rows
  (`RestoreThenAnswerBreaksTheBound`).
- A restore under kept ids stores the option list it was told exactly when the ids are distinct and belong to no other
  survey; otherwise the scoped upsert drops or moves rows without a word (`StoredAsToldExactlyWhen`).
- A survey past 500 options can be saved in full but not restored (`SaveDeleteRestore`); no survey created by this code
  gets there (`ReachableSurveysRoundTrip`).
- A backup reads the survey and its responses one after the other. A write-in between the two reads leaves a document
  that restore refuses (`BackupRestoresExactlyWhen`, `SuggestionBetweenReads`).
- The comment at `internal/store/portable.go:209` says a restore under fresh ids is always a draft. The code makes it
  a draft exactly when the document's state is absent or `draft` (`RestoredAsDraftExactlyWhen`); a full document with no
  responses keeps its state (`FullCopyKeepsItsState`).
- The comment at `internal/store/survey.go:96-98` says a passed closing time still applies to an editor's preview. The
  code takes previews of a draft whatever its closing time (`AnswerTakenExactlyWhen`).
- A tally computed while a survey's responses are being cleared can show more votes than exposures for that one
  answer (`TornAnswerBeyondBounds`); only taking away responses or exposures between its last two reads can do that
  (`TornAnswerWithinBounds`), and it is never served once the clearing has been counted (`QuiescentCacheIsFresh`).

## Model

| member | source | states |
|---|---|---|
| Model.TrimMeans | internal/store/survey.go:326 | what trimming takes off is white space on both sides, and what is left neither begins nor ends with any |
| Model.SpacesAre | internal/store/survey.go:326 | white space is the 25 code points of Unicode's property |
| Model.ByteLenMeans | internal/store/survey.go:443-445 | a text's length is its bytes in UTF-8: a letter takes as many as its code point needs |
| Model.ApprovedOnlyMeans | internal/store/survey.go:146-152 | the approved options are listed each once, at its place among the approved ones, and nothing else |
| MergeGraph.ResolveLoop | internal/store/survey.go:128-141 | the loop over the option list computes the specified bounded walk |
| MergeGraph.EndingChainVisitsOnce | internal/store/survey.go:128-141 | a pointer chain that ends visits no id twice |
| MergeGraph.EndingChainLength | internal/store/survey.go:128-141 | pigeonhole: a chain that ends has at most one id more than there are options, and then its end is unknown |
| MergeGraph.ResolveFindsTheEnd | internal/store/survey.go:125-141 | on every chain that ends, the walk returns the true end and whether it is approved |
| MergeGraph.ResolveOnACycle | internal/store/survey.go:125-141 | on every chain that never ends, the walk says not counted and returns an id whose option is still merged |
| MergeGraph.ResolveDecidesEnding | internal/store/survey.go:125-141 | the id returned points nowhere if and only if the chain ends, and a vote counts if and only if it ends at an approved option |
| MergeGraph.OneIterationFewerSuffices | internal/store/survey.go:129 | n iterations give the same answer as n + 1 on every chain that ends |
| MergeGraph.TwoIterationsFewerFails | internal/store/survey.go:129 | for every n, some survey of n options needs more than n - 1 iterations |
| MergeGraph.ChainAfterEdit | internal/store/survey.go:458-489 | after one option's pointer changes, a chain through it stops where the new pointer says, and every other chain is as before |
| MergeGraph.EditReroutesLeaders | internal/store/survey.go:458-489 | changing an option, merged before or not, re-routes exactly the ids whose pointers pass through it, on any graph, cyclic or not |
| MergeGraph.EditMovesExactly | internal/store/survey.go:458-489 | when the option pointed nowhere, those are exactly the ids that resolved to it |
| Editing.SurveyRecord.SetOptionStatus | internal/store/survey.go:458-489 | in place: the new option list or the error, and nothing else of the survey changes |
| Editing.SurveyRecord.SetOptionText | internal/store/survey.go:438-453 | in place: the trimmed text on that option, or the error for empty, too long or unknown |
| Editing.SurveyRecord.ModerateOption | internal/web/admin.go:237-254 | an optional rewording, then the moderation action, and nothing else of the survey changes |
| Editing.SurveyRecord.EditOptions | internal/web/admin.go:141-154 | the loop leaves the moderation queue alone; any other option is removed if ticked and approved if not, under the text typed if there is one, and nothing else of it changes |
| Editing.SurveyRecord.AddOptions | internal/web/admin.go:155-162 | non-blank new options are appended in order, or the first error |
| Editing.SurveyRecord.SaveForm | internal/web/admin.go:126-164 | the whole edit form as one function of the survey |
| Editing.SetStatusMeans | internal/store/survey.go:458-489 | a status change is accepted if and only if the option exists and a merge names another, existing, unmerged one; it sets that option's status and pointer and moves no other |
| Editing.SetTextMeans | internal/store/survey.go:438-453 | a rename is accepted if and only if the option exists and the trimmed text has 1 to 200 bytes, and leaves exactly that text |
| Editing.ModerateMeans | internal/web/admin.go:237-254 | which moderations are accepted, the status, pointer and wording each leaves, and that no other option moves |
| Editing.AddAllAppends | internal/web/admin.go:155-162 | the new options are the non-blank texts, trimmed, approved, in order, after the old ones |
| Editing.AddAllAccepts | internal/store/survey.go:492-511 | they are accepted if and only if each has at most 200 bytes and together they fit under 500 |
| Editing.FormMeans | internal/web/admin.go:126-164 | the whole form, field by field and option by option, and exactly when it is accepted |
| Editing.SetStatusKeepsGraph | internal/store/survey.go:458-489 | a status change keeps the graph acyclic, every pointer naming an existing option, and only merged options pointing |
| Editing.ModerateKeepsGraph | internal/web/admin.go:237-254 | every moderation action keeps the graph acyclic, its pointers inside the survey, and only merged options pointing |
| Editing.EditAllKeepsGraph | internal/web/admin.go:141-154 | the edit form's loop keeps the graph acyclic and its pointers inside the survey, with the same option ids |
| Editing.AddAllKeepsGraph | internal/web/admin.go:155-162 | the options the form adds keep the graph acyclic and its pointers inside the survey, and no option is dropped |
| Editing.WellFormedResolves | internal/store/survey.go:125-141 | in an acyclic graph whose pointers stay inside the survey, every chain ends in an existing option that is not merged, and the walk returns it |
| Tally.CountOnce | internal/store/response.go:698-707 | each distinct approved target is counted once, however many ids lead to it |
| Tally.ComputeTally | internal/store/response.go:667-696 | the loops over responses and options compute the specified tally and the number of respondents |
| Tally.TallyIgnoresReadingOrder | internal/store/response.go:667-696 | in whatever order rows are read, votes and shown are the numbers of respondents holding, and shown, something that resolves to the option |
| Tally.TallyRowsAreApproved | internal/store/response.go:681-693 | the tally has a row for every approved option, with its own counts, and no other row |
| Tally.SortKeepsElements | internal/store/response.go:709-711 | the sort puts most votes first and keeps every row, as often as it was there |
| Tally.SortIsStable | internal/store/response.go:709-711 | rows with equal votes keep the editor's order |
| Tally.StableOrderIsUnique | internal/store/response.go:709-711 | most votes first and stability leave a single possible order |
| Tally.TiesKeepTheEditorsOrder | internal/store/response.go:681-711 | in the tally, options with equal votes stand in the order of the survey |
| Tally.TallyRowMeans | internal/store/response.go:681-693 | a row's votes and exposures as numbers of respondents, the first percentage of the respondents and the second of the exposures |
| Tally.ShareMeans | internal/store/response.go:685-691 | a percentage times the whole is a hundred times the part; none of nothing; never past 100 |
| Tally.VotesWithinShown | internal/store/response.go:698-707 | if every response chose only what it was shown, votes are at most shown and shown at most respondents, on any merge graph |
| Tally.TallyWithinBounds | internal/store/response.go:667-696 | with choices within seen, every row of the displayed tally has votes at most shown and shown at most respondents |
| Tally.MergeResolves | internal/store/survey.go:455-489 | merging x into y, whether or not x was merged before, moves exactly the ids that lead to x |
| Tally.MergeMovesVotes | internal/store/survey.go:455-489 | y gets the voters and viewers of everything leading to x besides its own; where x led before keeps those who reach it otherwise; nobody else's votes or exposures move |
| Tally.MergedVotesAddUp | internal/store/survey.go:455-489 | merging two approved options, y's votes become between the maximum and the sum, and its exposures likewise |
| Tally.UndoingAMergeRestoresTheTally | internal/store/survey.go:455-489 | putting x back to its old status restores the option list and every tally |
| Submission.PickChoices | internal/store/response.go:146-180 | the two loops leave exactly: visible and submitted, or not visible and previously chosen, each once |
| Submission.WalkSeen | internal/store/response.go:185-202 | the seen list is the ballot and the earlier seen set, walked through the survey's options |
| Submission.InsertSeen | internal/store/response.go:268-299 | the batched inserts store the union, in statements of one to 1000 rows |
| Submission.BuildRow | internal/store/response.go:136-245 | everything one answer writes, in terms of the stored row and the submission |
| Submission.Answer | internal/store/response.go:117-247 | the check, whose exact condition is Lifecycle.AnswerTakenExactlyWhen, and the row one answer writes |
| Submission.AnswerMeans | internal/store/response.go:101-209 | option by option: on the ballot it is chosen as submitted, off it as before; seen are the ballot and what was seen before; which comment and times are stored |
| Submission.ResponseTables.Save | internal/store/response.go:88-99 | an accepted answer replaces that voter's row and no other; a refused one changes nothing |
| Submission.ResponseTables.AddWriteIn | internal/store/response.go:349-400 | the option and the vote for it are stored together or not at all |
| Submission.CountPending | internal/store/response.go:402-415 | the number of the respondent's selections still awaiting moderation |
| Submission.Propose | internal/store/response.go:358-386 | the checks of a suggestion, in order, and the survey with the option in it |
| Submission.SkippedWriteStoresTheUnion | internal/store/response.go:232-245 | when stored exposures name the survey's options, skipping on an unchanged length stores the full union |
| Submission.SkippedWriteLosesExactlyWhen | internal/store/response.go:232-245 | skipping on an unchanged length stores less than the union if and only if as many options are newly visible as there are dangling exposures, and some are |
| Submission.SavedRowShownExactlyWhen | internal/store/response.go:146-245 | one answer leaves everything chosen recorded as shown if and only if it is not the case that as many options are newly visible as there are dangling exposures and one of the new ones is chosen |
| Submission.SeenOnlyGrows | internal/store/response.go:182-195 | no answer shrinks anybody's seen set |
| Submission.SavedRowChosenWasShown | internal/store/response.go:146-202 | one answer keeps: rows name options of the survey, and what was chosen was shown |
| Submission.RepeatingChangesNothing | internal/store/response.go:117-247 | submitting the same answer again changes nothing but the time |
| Submission.SuggestionStores | internal/store/response.go:349-400 | a successful suggestion makes the choices exactly the earlier ones and the new option |
| Submission.SuggestionShows | internal/store/response.go:382-394 | a suggestion's exposures are the earlier ones, the approved options, the voter's own pending ones and the new one; the earlier comment stays |
| Submission.SuggestionMovesNoVotes | internal/store/response.go:335-400 | a successful suggestion touches no other respondent and changes no option's votes |
| Ballot.Shuffle | internal/store/survey.go:174-176 | the swaps, done in place, are the specified reordering |
| Ballot.BallotFor | internal/store/survey.go:161-184 | the ballot as built by the loops, for any swaps the seed asks for |
| Ballot.BallotIsExactlyWhatIsVisible | internal/store/survey.go:143-184 | for any shuffle the ballot lists exactly the options a submission may pick, each once; first the approved ones, with the swaps applied or in the editor's order, then the respondent's own pending ones |
| Ballot.OwnPendingInOrder | internal/store/survey.go:178-182 | the respondent's own suggestions stand in the order they were given |
| Ballot.ApprovedOrderIsStable | internal/store/survey.go:161-169 | the same seed gives the same order of approved options, whatever happened meanwhile to options that are not approved and however many suggestions were added |
| Lifecycle.StepKeepsSound | internal/store/response.go:117-247 | every transaction keeps: distinct ids, rows naming options of the survey, choices within seen |
| Lifecycle.RunsKeepSound | internal/store/response.go:117-247 | every run from a sound state keeps: distinct ids, rows naming options of the survey, choices within seen |
| Lifecycle.RunsBoundVotes | internal/store/response.go:667-707 | after every run votes are at most shown and shown at most respondents, for every option |
| Lifecycle.AnswerTakenExactlyWhen | internal/store/survey.go:89-104 | an answer is taken if and only if the survey is open and its closing time, if any, has not come, or it is a preview of a draft |
| Lifecycle.SuggestionTakenExactlyWhen | internal/store/response.go:349-400 | a suggestion is taken if and only if an answer would be, suggestions are allowed, fewer than 5 of the voter's and 50 in all await review, and its text is neither blank nor too long and fits |
| Lifecycle.NothingTakenTooLate | internal/store/response.go:132-134 | while a survey is closed, past its closing time or an unpreviewed draft, no sequence of answers and suggestions changes anything |
| Lifecycle.PublishMeans | internal/store/response.go:568-601 | publishing opens, clears a closing time only if it has passed, notes the first opening, discards rows only then, and touches nothing else |
| Lifecycle.SetStateMeans | internal/web/admin.go:211-214 | the state asked for is set, an opening is noted, and no row or option changes |
| Lifecycle.ClearMeans | internal/store/response.go:535-562 | clearing leaves no row and the survey as it was |
| Lifecycle.AnswerIsStored | internal/store/response.go:211-246 | an answer taken is stored under its voter, and nothing else changes |
| Lifecycle.SuggestionIsStored | internal/store/response.go:380-394 | a suggestion taken adds its option, awaiting review, and that choice, and touches no other row |
| Lifecycle.EditIsStored | internal/store/survey.go:393-416 | an accepted form is stored as a whole and keeps the rows |
| Lifecycle.ModerationIsStored | internal/store/survey.go:393-416 | an accepted moderation is stored, past the ceiling too, and keeps the rows |
| Lifecycle.FormMovesNoVotes | internal/web/admin.go:141-162 | saving the form, an approved option that is not ticked keeps its voters and viewers, and one that is counts for nobody |
| Lifecycle.StepKeepsQueue | internal/store/response.go:326-400 | every transaction keeps: at most 5 pending options a voter, 50 a survey, one holder each, 500 options in all |
| Lifecycle.PublishKeepsAcceptedAnswers | internal/store/response.go:564-601 | publishing keeps every answer ever accepted from the public and leaves the survey accepting at that instant |
| Lifecycle.RunsStayGood | internal/store/response.go:326-400 | all invariants together, over every run of submissions, suggestions, moderation, edits, state changes, publishing and clearing |
| Lifecycle.ListOptions | internal/store/survey.go:342-348 | the loop keeps the non-blank texts, trimmed, in order |
| Lifecycle.CreateSurveyCreates | internal/store/survey.go:325-353 | a created survey is an unopened draft without answers, with distinct approved options |
| Lifecycle.CreateSurveyMeans | internal/store/survey.go:325-353 | a survey is created if and only if it has a title and its options fit, with the trimmed title and, in order, the non-blank texts, trimmed, as options |
| Lifecycle.ReachableSurveys | internal/store/survey.go:325-353 | from creation, every reachable graph is acyclic with every chain ending in an unmerged option, and every limit holds |
| Lifecycle.PublishIsSafeInEveryRun | internal/store/response.go:564-601 | in no run from creation does publishing delete an answer accepted from the public |
| Lifecycle.PublicAnswersStay | internal/store/response.go:564-601 | from creation, an answer taken while the survey was open stays stored through every run that does not clear it, publishing included |
| Lifecycle.HiddenKeepsHolders | internal/store/response.go:158-195 | over any run in which an option stays removed, rejected or merged, its holders and viewers are constant |
| Lifecycle.RestoringBringsBackTheVotes | internal/store/response.go:158-195 | hide an approved option by moderation or the form, let anything happen while it and what leads to it stay hidden, bring it back: it has exactly its old voters and viewers, if the same ids lead to it as when it was hidden |
| CacheSections.TallyCache.LookUp | internal/store/response.go:634-643 | a hit needs the loaded generation, and returns a new copy of what is held, so a caller writing into it changes nothing that is served |
| CacheSections.TallyCache.Store | internal/store/response.go:647-663 | reset on another generation, keep only if nothing was committed meanwhile; a copy is kept, never the caller's slice |
| CacheSections.TallyCache.ReadTally | internal/store/response.go:631-665 | one whole call: hit or miss, the new cache, and a result aliased with nothing held |
| CacheSections.KeptIsServed | internal/store/response.go:635-663 | what is kept with nothing committed meanwhile is served to the next lookup of its generation, with what that generation held before and nothing older |
| CacheProtocol.OneSnapshotIsFresh | internal/store/response.go:667-696 | a tally whose five reads see one database is that database's tally |
| CacheProtocol.NextKeepsInv | internal/store/response.go:631-665 | every commit, bump, load, lookup, read and store keeps the cache invariant |
| CacheProtocol.QuiescentCacheIsFresh | internal/store/store.go:537-542 | whenever no writer is between commit and bump, an entry of the current generation is the tally of the current database, in every interleaving |
| CacheProtocol.NoReturnedWriteIsMissed | internal/store/response.go:624-665 | in every interleaving, a Tally that starts after the writer of a commit has returned answers, hit or miss, only out of databases containing that commit |
| CacheProtocol.TornExactly | internal/store/response.go:667-707 | with choices and seen read apart, whoever holds has seen, under any option list, if and only if no row chose what it was not shown |
| CacheProtocol.TornBoundExactlyWhen | internal/store/response.go:667-707 | the same of a torn computation: if and only if every response read chose, in the choices read, only what it was shown in the seen rows read |
| CacheProtocol.TornAnswerWithinBounds | internal/store/response.go:667-696 | in every interleaving an answer keeps votes within shown within respondents, if no commit between its last two reads took away a response or a seen row |
| CacheProtocol.TornAnswerBeyondBounds | internal/store/response.go:674-680 | a run in which the responses are cleared between the last two reads and the answer shows more votes than exposures |
| IdOrder.BeforeTotal | internal/store/store.go:387 | the binary order on ids that the listing sorts by is total |
| Backfill.Migration.SurveyIdsAfter | internal/store/store.go:384-401 | exactly the surveys after the mark, in order |
| Backfill.Migration.InsertDue | internal/store/store.go:430-444 | the loops over responses and options, with the status test and the test on the response's choices, insert exactly the rows the rule demands |
| Backfill.Migration.BackfillSurvey | internal/store/store.go:408-450 | one transaction: nothing once another process is done, otherwise exactly the rows due and the mark |
| Backfill.Migration.BackfillSeen | internal/store/store.go:319-382 | one uninterrupted process: the rows of every survey after the mark, then the marker, with the mark gone |
| Backfill.NextKeepsInv | internal/store/store.go:319-450 | every step of every process, a kill included, keeps the invariant |
| Backfill.BackfillIsExact | internal/store/store.go:291-382 | surveys up to the mark have their rows; done implies all have and the mark is gone; until somebody serves the table is exactly the old rows and those due |
| Backfill.ProgressIsKept | internal/store/store.go:408-450 | a survey done is the mark, so whoever resumes lists only surveys after it |
| Backfill.NothingAfterDone | internal/store/store.go:412-429 | after the marker no step of the backfill adds a row, and the marker stays |
| Backfill.BackfillMarks | internal/store/store.go:293-315 | once done, every approved, removed or merged option is seen by every response of its survey, and a pending or rejected one by whoever had voted for it or seen it, and nobody else |
| Backfill.BackfillShowsApproved | internal/store/store.go:298-305 | so an option approved when the backfill finishes was shown to everyone who answered |
| Backfill.BackfilledChosenWasShown | internal/store/store.go:307-315 | a finished backfill leaves every response's choices within what it saw |
| Backfill.BackfilledRunsBoundVotes | internal/store/store.go:307-315 | so votes stay within shown through every run that starts from a finished backfill |
| Documents.SurveyDocument | internal/store/portable.go:149-205 | the loops build the document; a definition lists, one for one and in order, the approved options with text and source and nothing more |
| Documents.DefinitionMeans | internal/store/portable.go:136-181 | what a definition carries: the wording, the switches and the approved options, and neither state, times nor responses |
| Documents.NamesReadBack | internal/store/portable.go:308-318 | every status, state and source is read back from its name |
| Restoring.BuildOptions | internal/store/portable.go:298-334 | the option loop and the map from document ids to stored ids |
| Restoring.RepointOptions | internal/store/portable.go:335-347 | the second pass over merge pointers, forward references included |
| Restoring.RestorableResponses | internal/store/portable.go:365-432 | the responses with every id renamed, or the first reason to refuse |
| Restoring.CollectSeen | internal/store/portable.go:392-428 | seen without repeats, then every choice not in it |
| Restoring.SurveyStore.RestoreSurvey | internal/store/portable.go:227-363 | the whole restore: the new database or the reason for refusing, with nothing changed |
| Restores.RestoreSparesTheRest | internal/store/portable.go:255-280 | an accepted restore adds one survey, under an id that was free, and leaves every stored survey as it was |
| Restores.RestoreAcceptedExactlyWhen | internal/store/portable.go:227-432 | the exact condition, on the document's own fields and the ids in use, under which a restore is accepted |
| Restores.RestoredRowsMean | internal/store/portable.go:365-432 | each response is stored for its voter with its choices, those and its seen ids as seen, its comment and times |
| Restores.RestoredFieldsMean | internal/store/portable.go:262-334 | the survey's fields and each option's id, text, source, status and time, with the absent ones filled in |
| Restores.UpsertedMeans | internal/store/survey.go:309-320 | the upsert stores no id twice, and exactly the ids no other survey owns |
| Restores.UpsertedOption | internal/store/survey.go:309-320 | an id listed more than once is stored as listed last, with the time it was first inserted with |
| RoundTrips.StoredAsToldExactlyWhen | internal/store/survey.go:309-320 | the scoped upsert stores the list it was given if and only if the ids are distinct and nobody else's |
| RoundTrips.RestoredChosenWasShown | internal/store/portable.go:407-428 | any accepted restore, partial seen sets included, has choices within seen and rows naming the options it read |
| RoundTrips.RestoredSurveyIsSound | internal/store/portable.go:227-363 | with distinct, free option ids the restored survey satisfies the run invariant |
| RoundTrips.RestoredRunsBoundVotes | internal/store/portable.go:227-363 | votes stay within shown through every run that starts from a restore |
| RoundTrips.SaveDeleteRestore | internal/store/portable.go:149-363 | saving in full, deleting and restoring under the old id gives back the very same database, other surveys included, if and only if there are at most 500 options |
| RoundTrips.RestoreThenAnswerBreaksTheBound | internal/store/survey.go:309-320 | a backup whose option another survey owns by now restores with that option skipped and a dangling exposure, and the next public answer is chosen without being shown |
| Reachable.StepKeepsTidy | internal/store/survey.go:325-511 | every transaction keeps texts trimmed, times set and voters named |
| Reachable.ReachableSurveysRoundTrip | internal/store/portable.go:149-363 | create a survey, let anything happen to it, save it in full, delete it, restore it: the database is as it was |
| Reachable.BackupRestoresExactlyWhen | internal/store/portable.go:149-204 | with survey and responses read apart, the backup restores if and only if the options fit and every id in the responses is among the options read |
| Reachable.SuggestionBetweenReads | internal/store/portable.go:149-204 | a write-in committed between the two reads makes the backup unrestorable |
| RoundTrips.PreSeenBackup | internal/store/portable.go:417-428 | a backup without seen sets restores with every option shown to exactly those who chose it |
| Copies.CopyCommutesWithResolve | internal/store/portable.go:298-347 | renaming ids injectively commutes with the walk, on any graph, cycles included |
| Copies.NewSurveyIsACopy | internal/store/portable.go:298-347 | under fresh ids, the options of any document that repeats no option id become the same graph under other names, named or not, with every id resolving to the renamed end |
| Copies.RestoredAsDraftExactlyWhen | internal/store/portable.go:262-296 | the stored survey is a draft if and only if the document's state is absent or draft; without state it was never opened; an open one counts as opened |
| Copies.PublishAfterRestore | internal/store/portable.go:183-186 | publishing a restored survey discards its responses exactly when the document records no first opening and is not open |
| Copies.FullCopyKeepsItsState | internal/store/portable.go:279-296 | a full document without responses, under fresh ids, is the saved survey renamed, with its state and history |
| Copies.DefinitionRoundTrip | internal/store/portable.go:136-181 | a definition restores to a never-opened draft without responses, with the approved options under new ids, whose own definition has the same body |
| Export.CellsAreSafe | internal/export/tsv.go:18-54 | a second pass over a cell changes nothing, and no text cell begins a formula |
| Export.CellLetters | internal/export/tsv.go:18-31 | letter by letter, tabs and line breaks become spaces, other control characters go, and everything else stays |
| Export.TextCellMeans | internal/export/tsv.go:33-54 | a text cell is the sanitised text, with an apostrophe exactly before one of = + - @ |
| Export.BuildResolveMap | internal/export/tsv.go:99-126 | the loop records where each merged option ends up |
| Export.ResolveViaAgrees | internal/export/tsv.go:113-135 | the precomputed map agrees with the walk for every id, known or unknown |
| Export.ResolvedSet | internal/export/tsv.go:80-97 | the set of targets reached by a list of ids |
| Export.ColumnsMean | internal/export/tsv.go:153-158 | there is one column for each option that is not merged, in the editor's order |
| Export.HeaderMeans | internal/export/tsv.go:71-78 | a heading is the option's sanitised text, and its status when it is not approved |
| Export.RecordMeans | internal/export/tsv.go:169-187 | id and times, 1, 0 or blank for each column by what choices and seen ids resolve to, a selections field that reads back as the number of ones, and the comment |
| Export.BuildRecord | internal/export/tsv.go:170-187 | one response's fields: 1, 0 or blank an option, the selection count, the comment |
| Export.WriteRow | internal/export/tsv.go:56-69 | one line: the sanitised fields between tabs, ended by a newline |
| Export.Responses | internal/export/tsv.go:137-193 | the whole file is the rendered grid |
| Export.ExportRoundTrips | internal/export/tsv.go:137-193 | splitting the file on newline and tab gives back the sanitised grid: a header and a row a response, all of the same width |
| Export.NoFormulas | internal/export/tsv.go:33-54 | no option label, mark, count or comment field begins a formula |
| Export.ColumnAgreesWithTally | internal/export/tsv.go:169-187 | for an approved option the 1 cells are its votes, and the non-blank cells are its shown if and only if nobody chose it unshown |
| Export.ColumnsMatchTheTally | internal/export/tsv.go:169-187 | with choices within seen, both columns agree with the tally outright |

## Left out

- SQLite, its SQL text, pragmas, write-ahead log and backup files: transactions are atomic steps in some order, with cascading deletes.
- Failed reads: the program shows an empty result when a query fails; here every query answers.
- HTTP handlers, cookies, templates and the command line, beyond the closures that edit a survey.
- Accounts, invitations, password resets and the rate limiter: short guarded transactions that would add only easy members.
- Tokens, hashing and the seeded generator: a new id is assumed new, and a shuffle is any sequence of swaps.
- JSON: documents are values, not bytes.
- Comment trimming and the comment length limit: a comment is stored as given.
- Times as text, time zones, file names and the summary export: an instant is an integer, and the export's time fields are opaque text.
- Floating point: percentages are reals.
- The generation counter's wrap-around at 64 bits.
- Response row ids: a survey's rows are keyed by voter (by row id in the backfill and the cache protocol); a restore mints new ones, which nothing else reads.
- Two processes with their own caches over one database: the counter belongs to one process.
- Older program versions writing between upgrades.
- Ballot.BallotIsExactlyWhatIsVisible: assumes each of the respondent's pending ids is passed once, as callers do.
- Backfill.BackfillIsExact: assumes, as the upgrade does, that surveys, options and responses change only after some process has finished.
- Backfill.Migration.BackfillSeen: one process on its own; other processes and kills are the protocol's steps in the same module.
- RoundTrips.SaveDeleteRestore: the survey and its responses are read from one snapshot, and no other survey owns its option ids; Reachable.BackupRestoresExactlyWhen says what several snapshots do.
- Copies.NewSurveyIsACopy: documents that repeat an option id, which no save writes; there the options have no graph of their own, and pointers to the id go to its last option.
- Reachable.ReachableSurveysRoundTrip: voter identifiers are assumed non-empty, as digests are.
- Tally.UndoingAMergeRestoresTheTally: assumes the option carried no pointer while unmerged, which every reachable survey satisfies.
