# The Work — worksheet progression, modelled in Dafny

This project models the core of "The Work", a journaling app for Byron
Katie's method of inquiry. A user fills in a six-question worksheet. The
user then picks sentences from the answers and takes each sentence through
four inquiry questions and a set of turnarounds. The model covers how this
progresses:

- **Records** (`types.dfy`, module `Types`). Worksheets, sentences and
  turnarounds become datatypes. The same file holds JavaScript's `trim`,
  `filter`, `reduce` and the "map over the sentence with the current id"
  update that every screen uses.
- **Store** (`storage.dfy`, module `Storage`). The records are a sequence
  held by a `Store` object, with upsert (`save`), delete, lookup and the
  blank-record constructor. Migration turns legacy single-string answers
  into lists.
- **Inquiry** (`inquiry.dfy`, module `InquiryProcess`). Answer edits recount
  `completedQuestions`. Sub-question records are edited and counted. The
  question index is stepped by yes/no, Next and Back, and "no" to the
  first question skips the second.
- **Turnarounds** (`turnarounds.dfy`, module `TurnaroundProcess`). These
  operations add, re-text and remove turnarounds and add or remove their
  examples. Some of them refresh `completedTurnarounds`.
- **Sentence selection** (`sentences.dfy`, module `SentenceSelector`).
  Suggestions are extracted from the six lists by nested loops.
  Adding, removing and toggling sentences keeps their texts distinct.
- **Worksheet form** (`worksheet_form.dfy`, module `WorksheetForm`). The
  six-step form edits one list per step. No list is ever left empty, and
  Next is gated by a "filled" test.
- **Dashboard** (`dashboard.dfy`, module `Dashboard`). It provides the status
  and search filter, the card title cut from question 1, and the progress
  counters.
- **Shell** (`app.dfy`, module `App`). The `AppContent` class holds the
  open record, the sentence under work and the view. It implements the
  resume rule when a record is opened and the forward scan to the next
  unfinished sentence. It is also the one place a record becomes
  `completed`.

The screens never mutate a record in place. Each builds a new worksheet and
hands it to `onChange`, so their operations are functions. When a screen
does not call `onChange` at all, the function returns `None`. The state the
source keeps in React hooks is modelled as classes whose methods assign
fields: the shell's four fields, the inquiry's question index and the
form's step. Where the source fills a local array in a loop
(`getSuggestedSentences`) or writes into a copied array
(`handleMultiChange`), the model uses a method with a loop or an array, and
proves its result equal to a function: `SuggestedSentences` for the loops,
`Worksheet.WithQuestion` of the list with one entry replaced for the array.

The model follows the code's quirks as written:

- A turnaround counts as done when its text is non-empty as typed, without
  trimming, so a text of only spaces counts
  (`TurnaroundProcess.TurnaroundDone`).
- `completedTurnarounds` is recounted after example and turnaround edits
  only, never after a text edit (`TurnaroundProcess.RetextLeavesCounterStale`).
- The turnaround counter and the dashboard's turnaround figure have no cap
  at 3 (`Dashboard.TurnaroundCountUncapped`).
- The "all turnarounds complete" test only chooses a button label.
- The inquiry screen starts at question index 0 when it mounts, not at the
  sentence's first unanswered question
  (`InquiryProcess.InquiryStepper.constructor`).
- Back from the third question shows the skipped second one.
- Finishing a sentence scans only forward, so a record can be marked
  completed while an earlier sentence is unfinished
  (`CompletionSkipsEarlierSentences`).

## Model

| member | source | states |
|---|---|---|
| Types.TrimSlice | src/components/SentenceSelector.tsx:36-37 | `trim` returns a contiguous slice of its input that neither starts nor ends with white space |
| Types.BlankIffAllSpace | src/components/WorksheetForm.tsx:79 | a string is blank after `trim` exactly when every character is white space |
| Types.TrimIdempotent | src/components/SentenceSelector.tsx:36-37 | trimming an already trimmed text changes nothing |
| Types.Filter | src/lib/storage.ts:48 | `filter` keeps the passing elements and only them, and never grows the sequence |
| Types.FilterMultiplicity | src/lib/storage.ts:48 | `filter` keeps every passing element as many times as it occurs, and no failing one |
| Types.FilterIsSubsequence | src/lib/storage.ts:48 | `filter` keeps the surviving elements in their original order |
| Types.RemoveAt | src/components/TurnaroundProcess.tsx:134 | `filter((_, i) => i !== index)` removes just the element at `index` and shifts the rest down; an out-of-range index removes nothing |
| Types.UpdateSentences | src/components/InquiryProcess.tsx:59-69 | the map over sentences changes exactly the sentences carrying the current id and leaves the others as they were |
| Types.SumZero | src/components/Dashboard.tsx:48-50 | a `reduce` sum of non-negative terms is non-negative, and zero exactly when every term is |
| Types.SumBounded | src/components/Dashboard.tsx:163 | a `reduce` sum of terms in `lo..hi` lies between `lo·n` and `hi·n` |
| Storage.MigrateWorksheet | src/lib/storage.ts:6-16 | a list field is kept, a legacy string `v` becomes `[v]`, a missing field becomes `[""]`; every other field is carried over |
| Storage.MigrateRoundTrip | src/lib/storage.ts:6-16 | migrating a record already in list form returns it unchanged, so reading back what was written gives the record |
| Storage.MigratedFieldsNonEmpty | src/lib/storage.ts:9-14 | after migration each question list has an entry unless it was stored as an empty list |
| Storage.FindIndex | src/lib/storage.ts:33 | `findIndex` gives the first index holding the id, or -1 when no record has it |
| Storage.GetById | src/lib/storage.ts:26-29 | `getById` returns the first record with the id, or nothing when there is none |
| Storage.Saved | src/lib/storage.ts:31-41 | `save` grows the store by at most one, the stamped record is in it, and every record with another id keeps its place and value; the stamped record replaces the first record with its id and every other position is kept, or it is appended when there is none |
| Storage.Create | src/lib/storage.ts:52-66 | a new record is in progress, each of the six lists is `[""]`, and it has no sentences |
| Storage.SaveThenGet | src/lib/storage.ts:26-44 | after `save(w)`, `getById(w.id)` returns `w` with the new timestamp |
| Storage.SaveKeepsOthers | src/lib/storage.ts:31-44 | `save(w)` does not change what `getById` finds for any other id |
| Storage.DeleteThenGet | src/lib/storage.ts:46-50 | after `delete(id)` nothing is found under `id`, and every other id is found as before |
| Storage.DeleteKeepsOrder | src/lib/storage.ts:46-50 | `delete` keeps the other records, in order and each as many times as it occurred |
| Storage.Deleted | src/lib/storage.ts:46-50 | the sequence `delete` writes back holds exactly the records without the id |
| Storage.Store.constructor | src/lib/storage.ts:19-24 | the store starts from the records it is given |
| Storage.Store.Save | src/lib/storage.ts:31-44 | the stored sequence becomes the upsert of the stamped record, and the stamped record is returned |
| Storage.Store.Delete | src/lib/storage.ts:46-50 | the stored sequence loses every record with the id |
| InquiryProcess.Label | src/components/InquiryProcess.tsx:77-78 | the yes/no label stored as an answer is never blank, in either language |
| InquiryProcess.CountAnsweredBounds | src/components/InquiryProcess.tsx:63-65 | the answer count lies in 0..4; it is 4 exactly when all four answers are filled and 0 exactly when none is |
| InquiryProcess.CountAnsweredQuestions | src/components/InquiryProcess.tsx:63-65 | the recount stored by `handleChange` is at most 4 (`CountAnsweredBounds` gives both extremes) |
| InquiryProcess.SetAnswer | src/components/InquiryProcess.tsx:61-66 | the shown answer becomes the value, the other answers are kept, and `completedQuestions` agrees with the answers again |
| InquiryProcess.HandleChange | src/components/InquiryProcess.tsx:58-75 | `handleChange` edits exactly the sentences with the current id, as `SetAnswer` says, and nothing else |
| InquiryProcess.YesNoAnswerCounts | src/components/InquiryProcess.tsx:77-78 | after a yes/no answer the shown question counts as answered and the counter is at least 1 |
| InquiryProcess.SubQuestionCatalogue | src/components/InquiryProcess.tsx:39-46 | the question-3 sub-questions form six categories of 2, 4, 3, 5, 4 and 2 keys, 20 in all; question 4 has 6 keys |
| InquiryProcess.HandleSubQuestionChange | src/components/InquiryProcess.tsx:107-125 | only the sub-answer under `key` of the current sentence changes: the record exists afterwards, every other key is present exactly when it was and keeps its value; the main answers, the counter and the other sentences stay |
| InquiryProcess.HandleSubQuestion4Change | src/components/InquiryProcess.tsx:127-145 | the same for the question-4 sub-answers: only `key` changes, every other key keeps its presence and value |
| InquiryProcess.CountAnsweredSub | src/components/InquiryProcess.tsx:147-157 | the answered sub-question count is 0 without a record and at most the number of keys written |
| InquiryProcess.CountInCategory | src/components/InquiryProcess.tsx:159-167 | a category's answered count never exceeds its number of keys, and is 0 without a record |
| InquiryProcess.SubAnsweredBound | src/components/InquiryProcess.tsx:147-157 | while only shown keys are written, the answered sub-question count is at most the number shown |
| InquiryProcess.SubEditKeepsKeys | src/components/InquiryProcess.tsx:107-145 | writing a shown key keeps a record within the shown keys |
| InquiryProcess.YesNoStep | src/components/InquiryProcess.tsx:80-90 | "no" at the first question goes to the third; any other yes/no answer goes one question on; only at the last question does the inquiry complete |
| InquiryProcess.NextStep | src/components/InquiryProcess.tsx:93-99 | Next goes one question on, and completes the inquiry at the last question |
| InquiryProcess.PreviousIndex | src/components/InquiryProcess.tsx:101-105 | Back goes one question back, and does nothing at the first |
| InquiryProcess.BackAfterSkipShowsSkippedQuestion | src/components/InquiryProcess.tsx:82-105 | after the skip from the first to the third question, Back shows the skipped second question |
| InquiryProcess.IsCurrentStepFilled | src/components/InquiryProcess.tsx:170-175 | the gate on the shown answer (`|| ''` then `trim`) holds exactly when the answer counts as filled for `completedQuestions` |
| InquiryProcess.NextEnabled | src/components/InquiryProcess.tsx:443-447 | Next is usable exactly on question 3 or 4 with the shown answer filled |
| InquiryProcess.PreviousEnabled | src/components/InquiryProcess.tsx:436 | the Back button is enabled exactly when pressing it moves the index |
| InquiryProcess.NextRequiresAnswer | src/components/InquiryProcess.tsx:443-447 | Next can be pressed only on an answered free-text question, so leaving through Next needs answer 4 |
| InquiryProcess.InquiryStepper.constructor | src/components/InquiryProcess.tsx:30 | on mount the inquiry screen is at the first question |
| InquiryProcess.InquiryStepper.HandleYesNo | src/components/InquiryProcess.tsx:77-91 | records the label as the shown answer and moves the index as `YesNoStep` says, or reports completion |
| InquiryProcess.InquiryStepper.HandleNext | src/components/InquiryProcess.tsx:93-99 | moves the index as `NextStep` says, or reports completion |
| InquiryProcess.InquiryStepper.HandlePrevious | src/components/InquiryProcess.tsx:101-105 | moves the index as `PreviousIndex` says |
| TurnaroundProcess.Recount | src/components/TurnaroundProcess.tsx:140-147 | after a recount the counter equals the number of done turnarounds and is at most the number of turnarounds |
| TurnaroundProcess.WithNewTurnaround | src/components/TurnaroundProcess.tsx:43-59 | exactly one empty turnaround of the given type is appended, and the counter is left as it was |
| TurnaroundProcess.WithTurnaroundText | src/components/TurnaroundProcess.tsx:70-81 | only the turnarounds with that id get the new text, and the counter is not recomputed |
| TurnaroundProcess.WithExampleAdded | src/components/TurnaroundProcess.tsx:93-114 | the example is appended to the matching turnaround only, and the counter is then up to date |
| TurnaroundProcess.WithExampleRemoved | src/components/TurnaroundProcess.tsx:127-148 | exactly the example at the index is dropped from the matching turnaround, and the counter is then up to date |
| TurnaroundProcess.WithTurnaroundRemoved | src/components/TurnaroundProcess.tsx:159-168 | every turnaround with that id goes, the others stay in order and each as many times as it occurred, and the counter is then up to date |
| TurnaroundProcess.AddTurnaround | src/components/TurnaroundProcess.tsx:43-68 | the sentences with the current id get the new turnaround as `WithNewTurnaround` says; every other sentence and every field of the record stay |
| TurnaroundProcess.UpdateTurnaroundText | src/components/TurnaroundProcess.tsx:70-87 | the sentences with the current id are re-texted as `WithTurnaroundText` says; everything else stays |
| TurnaroundProcess.RemoveExample | src/components/TurnaroundProcess.tsx:127-157 | the sentences with the current id lose the example as `WithExampleRemoved` says; everything else stays |
| TurnaroundProcess.RemoveTurnaround | src/components/TurnaroundProcess.tsx:159-177 | the sentences with the current id lose the turnaround as `WithTurnaroundRemoved` says; everything else stays |
| TurnaroundProcess.AddExample | src/components/TurnaroundProcess.tsx:89-125 | nothing happens when the pending example is missing or blank; otherwise the trimmed example is added |
| TurnaroundProcess.ByType | src/components/TurnaroundProcess.tsx:179-181 | the turnarounds of a type are exactly those of the sentence with that type |
| TurnaroundProcess.AddOffered | src/components/TurnaroundProcess.tsx:238-250 | the "add" button of a type is shown exactly when no turnaround has that type |
| TurnaroundProcess.AllTurnaroundsComplete | src/components/TurnaroundProcess.tsx:183-184 | when the label reads "complete", there are at least three turnarounds and every one is done |
| TurnaroundProcess.CountDoneBounds | src/components/TurnaroundProcess.tsx:106-108 | the done count is at most the number of turnarounds, and at least 1 when one is done |
| TurnaroundProcess.HandlersEditOnlyCurrentSentence | src/components/TurnaroundProcess.tsx:43-177 | every turnaround handler leaves the other sentences and the record's own fields as they were |
| TurnaroundProcess.RecountingHandlersConsistent | src/components/TurnaroundProcess.tsx:89-177 | after adding or removing an example or removing a turnaround, the current sentence's counter is up to date |
| TurnaroundProcess.CompleteLabelMeansCounterAtLeastThree | src/components/TurnaroundProcess.tsx:183-184 | when the button reads "complete" and the counter is up to date, the counter is at least 3 |
| TurnaroundProcess.CounterCanPassWithoutCompleteLabel | src/components/TurnaroundProcess.tsx:183-184 | the converse fails: three done turnarounds of four give a counter of 3 while the label still reads "continue later" |
| TurnaroundProcess.RetextLeavesCounterStale | src/components/TurnaroundProcess.tsx:70-87 | clearing the text of a done turnaround leaves the counter stale |
| TurnaroundProcess.AddWithdrawsOffer | src/components/TurnaroundProcess.tsx:240-250 | once a turnaround of a type exists, its "add" button is no longer offered |
| TurnaroundProcess.RemoveUndoesAdd | src/components/TurnaroundProcess.tsx:159-168 | removing a freshly added turnaround gives back the sentence, with its counter refreshed |
| TurnaroundProcess.RemoveTurnaroundUndoesAdd | src/components/TurnaroundProcess.tsx:159-177 | on a record whose counters are up to date, adding and then removing a turnaround gives back the very record |
| SentenceSelector.SuggestedSentences | src/components/SentenceSelector.tsx:23-43 | every suggestion is tagged with a question 1..6 (`SuggestedSentencesSound` and `SuggestedSentencesComplete` give the rest) |
| SentenceSelector.GetSuggestedSentences | src/components/SentenceSelector.tsx:23-43 | the nested loops produce exactly the suggestion sequence of the worksheet |
| SentenceSelector.SuggestionsOfFacts | src/components/SentenceSelector.tsx:35-39 | one list yields, for each non-blank entry, its trimmed text tagged with the list's question, and nothing else |
| SentenceSelector.SuggestionsUpToOrdered | src/components/SentenceSelector.tsx:27-40 | suggestions carry questions 1..k in non-decreasing order |
| SentenceSelector.SuggestionsUpToSound | src/components/SentenceSelector.tsx:27-40 | each suggestion is a trimmed, non-empty text to which some entry of its question trims |
| SentenceSelector.SuggestionsUpToComplete | src/components/SentenceSelector.tsx:27-40 | every non-blank entry of the lists is suggested |
| SentenceSelector.SuggestedSentencesSound | src/components/SentenceSelector.tsx:23-43 | a worksheet's suggestions are trimmed, non-empty, tagged 1..6 with a question one of whose entries they come from, and listed in question order |
| SentenceSelector.SuggestedSentencesComplete | src/components/SentenceSelector.tsx:23-43 | every non-blank entry of every question is suggested |
| SentenceSelector.AddSentence | src/components/SentenceSelector.tsx:48-64 | nothing happens when the text is already chosen; otherwise exactly `NewSentence` is appended, the earlier sentences keep their places, and nothing else changes |
| SentenceSelector.NewSentence | src/components/SentenceSelector.tsx:51-58 | a new sentence carries the id, text and source, has no answers, no sub-answer records, no turnarounds and both counters at 0 |
| SentenceSelector.NewSentenceConsistent | src/components/SentenceSelector.tsx:51-58 | both counters of a new sentence agree with its answers and turnarounds |
| SentenceSelector.RemoveSentence | src/components/SentenceSelector.tsx:66-71 | exactly the sentences with that id go, together with their turnarounds, and the rest stay in their order, each as many times as it occurred |
| SentenceSelector.AddCustomSentence | src/components/SentenceSelector.tsx:73-78 | a blank custom text adds nothing; otherwise its trimmed text is added with source 0 |
| SentenceSelector.FirstWithText | src/components/SentenceSelector.tsx:82 | `find` by text returns the first sentence with that text, or nothing when there is none |
| SentenceSelector.ToggleSentence | src/components/SentenceSelector.tsx:80-87 | a toggle always changes the record: a chosen text removes the first sentence with it (that sentence always exists), an unchosen one is added |
| SentenceSelector.ToggleFlipsSelection | src/components/SentenceSelector.tsx:80-87 | with distinct texts, a toggle flips whether the text is chosen |
| SentenceSelector.CanStartInquiry | src/components/SentenceSelector.tsx:203 | the start button is enabled exactly when some sentence is chosen |
| SentenceSelector.PickingEnablesStart | src/components/SentenceSelector.tsx:48-64 | after picking a text the start button is enabled, whether the text was new or already chosen |
| SentenceSelector.SelectionKeepsTextsDistinct | src/components/SentenceSelector.tsx:46-87 | adding, removing, custom adding and toggling all keep sentence texts pairwise distinct |
| SentenceSelector.ToggleTwiceRestores | src/components/SentenceSelector.tsx:80-87 | toggling a text that is not chosen twice gives back the worksheet |
| WorksheetForm.MultiChange | src/components/WorksheetForm.tsx:33-41 | the result is the worksheet with the shown list replaced by the list with the entry at the index set to the value: only the entry at the index of the shown list changes, to the value; the length, the other entries, the other lists and the sentences are kept |
| WorksheetForm.AddMultiInput | src/components/WorksheetForm.tsx:43-49 | exactly one empty entry is appended to the shown list, and nothing else changes |
| WorksheetForm.RemoveMultiInput | src/components/WorksheetForm.tsx:51-59 | nothing happens while the list has one entry; otherwise just the entry at the index is removed from the shown list |
| WorksheetForm.IsStepFilled | src/components/WorksheetForm.tsx:77-80 | the "filled" test holds exactly when some entry of the shown list is not blank; its length test adds nothing |
| WorksheetForm.ListsStayNonEmpty | src/components/WorksheetForm.tsx:43-59 | no form edit leaves any of the six lists empty |
| WorksheetForm.FilledIffSuggests | src/components/WorksheetForm.tsx:77-80 | a step is filled exactly when its list yields a suggested sentence |
| WorksheetForm.FilledAfterEdits | src/components/WorksheetForm.tsx:77-80 | adding an empty entry does not change whether a step is filled, and writing a non-blank entry fills it |
| WorksheetForm.FreshRecordNotFilled | src/components/WorksheetForm.tsx:77-80 | no step of a newly created record is filled |
| WorksheetForm.FormStepper.constructor | src/components/WorksheetForm.tsx:23 | the form opens at step 0 |
| WorksheetForm.FormStepper.HandleNext | src/components/WorksheetForm.tsx:61-67 | Next goes one step on, and completes at the last step |
| WorksheetForm.FormStepper.HandlePrevious | src/components/WorksheetForm.tsx:69-75 | Back goes one step back, and at the first step stays and reports leaving the form |
| Dashboard.Lower | src/components/Dashboard.tsx:27 | lower-casing keeps the length and maps each character |
| Dashboard.LowerIdempotent | src/components/Dashboard.tsx:26-28 | lower-casing twice is lower-casing once |
| Dashboard.ContainsLower | src/components/Dashboard.tsx:26-28 | a substring stays a substring once both sides are lower-cased |
| Dashboard.SearchTextSurvivesMigration | src/components/Dashboard.tsx:24-25 | a legacy field searches the same as its migrated list |
| Dashboard.FilteredWorksheets | src/components/Dashboard.tsx:22-30 | a record is listed exactly when it passes the status filter and the search |
| Dashboard.FilteredIsSubsequence | src/components/Dashboard.tsx:22-30 | the list keeps record order, and with "all" and no query it is the whole list |
| Dashboard.SearchIgnoresCase | src/components/Dashboard.tsx:26-28 | a query finds what its lower-cased form finds, and finds every record whose question 1 or 5 contains it verbatim |
| Dashboard.StatusTabsPartition | src/components/Dashboard.tsx:23 | with no query, the in-progress and completed tabs split the records between them |
| Dashboard.BeforeDot | src/components/Dashboard.tsx:44 | `split('.')[0]` is the longest prefix without a full stop |
| Dashboard.Shorten | src/components/Dashboard.tsx:45 | a title over 50 characters becomes its first 50 and an ellipsis; a shorter one is kept |
| Dashboard.FirstSentence | src/components/Dashboard.tsx:40-46 | the card title has at most 53 characters and is empty when every entry is blank |
| Dashboard.FirstSentenceOfFirstEntry | src/components/Dashboard.tsx:40-46 | the card title is the shortened first sentence of the first filled entry |
| Dashboard.LeadingDotGivesEmptyTitle | src/components/Dashboard.tsx:42-44 | a filled entry starting with a full stop gives an empty title |
| Dashboard.TurnaroundCount | src/components/Dashboard.tsx:48-50 | the turnaround figure is non-negative and zero exactly when no sentence has a turnaround |
| Dashboard.QuestionsAnswered | src/components/Dashboard.tsx:163 | with non-negative counters the questions-answered figure is non-negative and zero exactly when every counter is |
| Dashboard.QuestionsAnsweredBounded | src/components/Dashboard.tsx:163-164 | with up-to-date counters the questions-answered figure lies between 0 and 4 times the number of sentences |
| Dashboard.TurnaroundCountCoversCompleted | src/components/Dashboard.tsx:48-50 | the turnaround figure counts every turnaround, at least the done ones the counters record |
| Dashboard.TurnaroundCountUncapped | src/components/Dashboard.tsx:164 | the turnaround figure can exceed three per sentence |
| App.Incomplete | src/App.tsx:89 | a sentence that is not unfinished opens on its turnarounds |
| App.ViewFor | src/App.tsx:44-48 | a sentence opens on the questions exactly when fewer than four are answered, else on the turnarounds |
| App.FirstIncompleteFrom | src/App.tsx:86-89 | the scan returns the first unfinished sentence at or after the start, or nothing when all from there are finished |
| App.SentenceIndex | src/App.tsx:86 | `findIndex` by id gives the first index with the id, or -1 (always for no id) |
| App.TruthyId | src/App.tsx:50 | `id || null` keeps a non-empty id and drops the empty one |
| App.ScreenOf | src/App.tsx:125-182 | the dashboard is rendered exactly in dashboard view, and without a record nothing else is rendered (`ScreenFollowsView` gives the full case split) |
| App.ScreenFollowsView | src/App.tsx:125-182 | nothing is rendered exactly when a non-dashboard view has no record, or a sentence view has no sentence id |
| App.CompletionSkipsEarlierSentences | src/App.tsx:86-104 | finishing the last sentence completes the record although an earlier sentence is unfinished |
| App.AppContent.CurrentScreen | src/App.tsx:125-182 | in any state the shell reaches, the form and the selector always render, and nothing renders only for a missing sentence id |
| App.AppContent.constructor | src/App.tsx:12-20 | the shell starts on the dashboard, with nothing open and the stored records loaded |
| App.AppContent.CreateWorksheet | src/App.tsx:22-26 | a blank record opens on the form, without being stored |
| App.AppContent.SelectWorksheet | src/App.tsx:28-55 | opening a record with no sentences shows the form; otherwise the first unfinished sentence on its screen, or the first sentence's turnarounds when all are finished; an unknown id changes nothing |
| App.AppContent.UpdateWorksheet | src/App.tsx:57-61 | the record is stored stamped, stays open, and the dashboard list reloads and finds it |
| App.AppContent.WorksheetComplete | src/App.tsx:63-67 | with a record open the form leads to sentence selection |
| App.AppContent.SentenceSelectionComplete | src/App.tsx:69-74 | with at least one sentence, the inquiry starts on the first; otherwise nothing changes |
| App.AppContent.InquiryComplete | src/App.tsx:76-80 | the turnarounds open only with a record and a non-empty sentence id |
| App.AppContent.TurnaroundComplete | src/App.tsx:82-105 | the next unfinished sentence after the current one opens on its screen; if there is none, the record is stored completed and the dashboard shows with nothing open |
| App.AppContent.SelectSentence | src/App.tsx:107-117 | the id is always taken, and the screen changes only when the open record has that sentence |
| App.AppContent.BackToDashboard | src/App.tsx:119-123 | the dashboard shows with no record and no sentence |
| App.AppContent.BackToWorksheetForm | src/App.tsx:152 | the sentence selector's back button returns to the form |
| App.AppContent.BackToQuestions | src/App.tsx:175 | the turnaround screen's back button returns to the questions |

## Left out

- Rendering (JSX, styling, tooltips, collapsibles, progress bars) is left out; only the gates that enable or show buttons are modelled.
- Browser storage and JSON encoding are left out. The store is a sequence of records that are already migrated, so `getAll`'s migration on every read is captured by `MigrateRoundTrip`.
- Random UUIDs and the current time are parameters (`newId`, `now`, `createdAt`, `updatedAt`).
- The 300 ms delay before the yes/no auto-advance is left out; the advance is immediate.
- The translation tables are left out. Only the yes/no labels are modelled, as fixed non-blank strings in two languages.
- `formatDate` and its locale formatting are left out.
- Types.IsSpace: trimming removes ASCII white space, no-break space and the byte-order mark, not the full Unicode white-space set that `trim` removes.
- Dashboard.Lower: lower-cases ASCII letters only, not full Unicode case mapping.
- Storage.Store.Save: in the source, `save` writes the timestamp into the caller's own object. The model returns a stamped copy instead, and the shell keeps that copy open, which is the state the aliasing produces.
- WorksheetForm.MultiChange: requires the index to be in range. Its callers pass the index of a rendered entry, and writing past the end of a JavaScript array is not modelled.
- Dashboard.FirstSentence: takes the migrated list. The scalar branch of `getFirstSentence` is left out; a missing field is dropped as blank, as in the source.
- InquiryProcess.InquiryStepper: the question index is modelled as restarting at 0 each time the inquiry screen opens. In the source, picking another sentence in the inquiry sidebar keeps the same mounted component, so the index carries over to the new sentence (from question 4 of one sentence to question 4 of another); the model does not capture that.
- Dashboard.Shorten / Dashboard.FirstSentence: lengths are counted in characters, where JavaScript's `length` and `substring` count UTF-16 code units. A title with characters outside the Basic Multilingual Plane is cut later than in the source, and the 53 bound is in characters rather than code units.
- React's batching of state updates is left out. Handlers assign fields in order, which gives the same final state for every handler modelled, including `handleTurnaroundComplete` setting the record and then clearing it.
- The UI edit buffers (`editText`, `editingTurnaround`, `newExample`, `subQuestionsOpen`) are left out. The pending example is the `pending` parameter of `AddExample`.
- The language switch and `LanguageProvider` are framework code and are left out.
