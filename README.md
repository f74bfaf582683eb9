# Lesson-planner scheduling core in Dafny

This project models the scheduling and document-handling core of a lesson-planning backend: the class generator, which turns a week-by-week plan into class rows; manual overrides and the agenda; holiday rescheduling suggestions; the topic calendar of a class schedule; document chunking and ingest counting; plan-file normalisation; the activity reports; the plan-review drafts; and the synchronisation of academic-plan trees. Each module models one source file:

- `ClassGenerator` models `backend/services/scheduler.py`, over a `Calendar` class that holds the levels, groups, schedule slots, blackout days and class rows.
  - `generate_classes` is a method with loop invariants over weeks, topics and slots.
  - The class rows of a (group, week) are replaced, except that a manually overridden row blocks the whole pair.
  - Dates are computed as `start + (week - 1) * 7 + weekday`, and blackout days are skipped.
  - Colours are last-write-wins.
- `ClassApi` models the generate-classes level check, `update_class` and the agenda of `backend/app.py`.
  - `update_class` is a partial update with change detection and a three-state `end_time`, followed by the status and override transitions.
  - The agenda is a filtered, sorted query.
- `HolidaySuggestions` models `backend/scheduler.py`: ISO dates, `_coerce_date`, inclusive overlap, and the delete-then-insert recomputation of one holiday's suggestions in a `HolidayStore` class. That class keeps (class, holiday) unique.
- `Topics`, `TopicGeneration` and `TopicCalendar` model `backend/routers/classes.py` over a `TopicStore` class:
  - `Topics`: the tables and the update-by-id loops;
  - `TopicGeneration`: superseding content with history, storing planner output, and selecting topics for regeneration;
  - `TopicCalendar`: holiday markers, shifting later topics by one day, resequencing positions, and the loop over distinct dates.
- `Chunkers`, `DocumentLoaders` and `Pipeline` model `backend/chunkers.py`, `backend/document_loaders.py` and `backend/pipeline.py`:
  - the sliding-window chunker;
  - supported-suffix dispatch;
  - ingest counting and chunk metadata.
- `PlanParser` models `backend/services/plan_parser.py`:
  - bijective base-26 column references;
  - shared-string resolution;
  - sheet-row placement;
  - XLSX and CSV record building with default headers;
  - suffix dispatch;
  - the combined text.
- `Reports` models `backend/services/reports.py`:
  - group-by summaries in sorted key order with hours and session counts;
  - the CSV tables;
  - PDF string escaping;
  - the PDF object offsets and cross-reference table. By the definition of `PdfFile`, the cross-reference count and the trailer's `/Size` are both the object count plus one.
- `PlanReview` models `backend/services/plan_review.py`. A `ReviewStore` class holds the JSON files as a map from file name to record. The module covers the draft file names, seeding, the whitelisted patch, approval, re-parse requests and the append-only history.
- `AcademicPlan` models `backend/services/academic_plan.py`. Units, lessons and resources are synchronised by title or name: children are reused, overwritten, appended or pruned.
- `Common` holds shared definitions:
  - Option and Result;
  - Python's whitespace, `strip` and `split`;
  - string order;
  - decimal text;
  - dict-as-list helpers;
  - the sort used for SQL `ORDER BY`.

Database tables are sequences of rows held in the fields of a class, with integer ids, and methods replace those fields.
- A `Valid()` predicate states the database's own constraints: ids below the next id to hand out, and the UNIQUE (class, holiday) constraint of `backend/database.py:178`.
- Dates are day numbers. Times are integers, used only as ordered values.
- Hours in reports are integers counting hundredths of an hour.
- Wall-clock timestamps, the AI planner's output and file contents are parameters.

## Model

| member | source | states |
|---|---|---|
| Chunkers.ParameterError | backend/chunkers.py:9-14 | the parameters are refused exactly when `chunk_size <= 0`, `overlap < 0` or `overlap >= chunk_size`, and the first failing test names the error |
| Chunkers.ChunkTexts | backend/chunkers.py:24-26 | one chunk string per window |
| Chunkers.WindowsShape | backend/chunkers.py:21-29 | the loop's windows: at least one, the first starts at `start`, the last ends at the final word, each is non-empty and at most `chunk_size` words, and every window but the last is full and is followed by one starting `step` words later |
| Chunkers.WindowsEnds | backend/chunkers.py:21-29 | the first window starts where the loop starts and the last ends at the final word |
| Chunkers.WindowsWithin | backend/chunkers.py:23-25 | every window is a non-empty range of at most `chunk_size` words inside the text |
| Chunkers.WindowsAdvance | backend/chunkers.py:27-29 | the loop only continues after a full window, and the next window starts `step` words later |
| Chunkers.SpansWithinBounds | backend/chunkers.py:23-25 | every window lies inside the word list |
| Chunkers.ChunkBounds | backend/chunkers.py:21-29 | every chunk has between 1 and `chunk_size` words; the first starts at word 0 and the last ends at the final word |
| Chunkers.ConsecutiveChunksOverlap | backend/chunkers.py:22-29 | consecutive chunks start `chunk_size - overlap` words apart and share exactly `overlap` words |
| Chunkers.ShortTextOneChunk | backend/chunkers.py:23-28 | a text of at most `chunk_size` words gives exactly one chunk, holding all its words |
| Chunkers.WindowsCover | backend/chunkers.py:21-29 | every word from `start` on lies in some window |
| Chunkers.EveryWordCovered | backend/chunkers.py:21-29 | every word of the text lies in some chunk |
| Chunkers.EmitChunks | backend/chunkers.py:20-30 | the `while` loop emits exactly the joined words of each window, in order; it terminates because the step is at least one |
| Chunkers.SlidingWindowChunk | backend/chunkers.py:7-30 | an error exactly when the parameter checks fail, naming the first failed check; otherwise the chunks of the text's windows |
| Chunkers.ChunksEmptyIffBlank | backend/chunkers.py:16-18 | a text gives no chunk exactly when it has no word, that is, when it is blank |
| Chunkers.AllChunksSnoc | backend/chunkers.py:36-37 | the chunks of one more text are the earlier chunks followed by that text's chunks |
| Chunkers.ChunkDocuments | backend/chunkers.py:33-38 | the concatenation of each text's chunks, in order; bad parameters fail only when there is a text to chunk, with the same error the single-text chunker names |
| DocumentLoaders.BaseNameShape | backend/document_loaders.py:77 | the name is the part of the path after its last `/` |
| DocumentLoaders.RFindLast | backend/document_loaders.py:77 | the found index holds the character and no later index does |
| DocumentLoaders.SuffixShape | backend/document_loaders.py:77 | `Path.suffix` is empty or a dot and at least one more character, ends the path, and holds no further dot or separator |
| DocumentLoaders.LowerAt | backend/document_loaders.py:77 | ASCII `lower()` maps each character on its own |
| DocumentLoaders.SuffixUpToCase | backend/document_loaders.py:77 | paths that differ only in ASCII letter case have suffixes that differ only in ASCII letter case |
| DocumentLoaders.SupportedIgnoresCase | backend/document_loaders.py:77-78 | paths that differ only in ASCII letter case are both supported or both refused |
| DocumentLoaders.LoaderTableCoversSupported | backend/document_loaders.py:26 | every supported extension has an entry in the loader table (`backend/document_loaders.py:66-72`), and the text loader serves exactly `.txt` and `.md` |
| DocumentLoaders.IterSupportedFiles | backend/document_loaders.py:86-90 | every path yielded is supported, and there are no more of them than inputs |
| DocumentLoaders.IterSupportedFilesMembers | backend/document_loaders.py:86-90 | a path is yielded exactly when it is an input with a supported suffix |
| DocumentLoaders.IterSupportedFilesAppend | backend/document_loaders.py:88-90 | the filter keeps input order: the supported files of a concatenation are those of each part, in turn |
| DocumentLoaders.LoadDocument | backend/document_loaders.py:75-83 | an unsupported suffix is an error naming the lower-cased suffix, raised before any loader runs; otherwise the text of the loader the table names for the suffix |
| Pipeline.LoadedDocuments | backend/pipeline.py:31-39 | no more documents are kept than there are files |
| Pipeline.LoadedDocumentsNonBlank | backend/pipeline.py:33-36 | every kept document has a non-blank text, comes from one of the files and holds that file's loaded text |
| Pipeline.ChunkLists | backend/pipeline.py:44-47 | one chunk list per document, each the chunker's output for its text |
| Pipeline.FlattenIsChunkDocuments | backend/pipeline.py:41-53 | the pipeline's chunk list equals `chunk_documents` on the kept texts |
| Pipeline.MetadataFor | backend/pipeline.py:48-53 | one metadata entry per chunk of a document, with the document's source, the chunk's index and the document's index as text |
| Pipeline.MetadataMatchesChunks | backend/pipeline.py:52-53 | there is exactly one metadata entry per chunk |
| Pipeline.FlattenPlacement | backend/pipeline.py:52 | chunk `j` of document `d` sits right after the chunks of the earlier documents |
| Pipeline.MetadataPlacement | backend/pipeline.py:49-53 | the metadata of chunk `j` of document `d` sits at the same offset and names that source, chunk index `j` and document index `d` |
| Pipeline.ChunkMetadataPlacement | backend/pipeline.py:44-53 | a chunk and its metadata sit at the same position of the two lists; the chunk index starts again at 0 in every document |
| Pipeline.LoadNonBlank | backend/pipeline.py:27-39 | the loading loop keeps the non-blank documents in file order and counts the others, so kept + skipped = supported |
| Pipeline.ChunkAllStep | backend/pipeline.py:44-53 | one more document extends the chunk list by its chunks and the metadata by its entries |
| Pipeline.AppendDocumentChunks | backend/pipeline.py:48-53 | the inner loop appends the document's chunks and one metadata entry per chunk |
| Pipeline.ChunkAll | backend/pipeline.py:41-53 | the chunks of every document in order, with their metadata; bad chunking parameters fail only once there is a document |
| Pipeline.IngestFiles | backend/pipeline.py:14-69 | no supported file is an error before any loading; unsupported = provided - supported; ingested + empty = supported; the chunks are `chunk_documents` of the kept texts and `chunks_created` is their positive number; no chunk is an error |
| Common.StripEmptyIffBlank | backend/pipeline.py:34 | `text.strip()` is empty exactly when the text is all white space |
| Common.SplitEmptyIffBlank | backend/chunkers.py:16-18 | `text.split()` has no word exactly when the text is all white space |
| Common.TrimLeftShape | backend/pipeline.py:34 | stripping on the left drops a blank prefix and keeps the rest |
| Common.TrimRightShape | backend/pipeline.py:34 | stripping on the right drops a blank suffix and keeps the rest |
| Common.DigitsOfNat | backend/pipeline.py:50-51 | `str(n)` is all digits and reads back as `n` |
| Common.SortBy | backend/app.py:327-331 | `ORDER BY` on two keys: the output is sorted by the key pair and is a permutation of the input |
| Common.PutGet | backend/services/plan_review.py:157 | after `d[k] = v`, `k` looks up `v` and every other key looks up what it did before |
| ClassGenerator.FindLevel | backend/services/scheduler.py:43-48 | the level found has the requested id; no level is found only when none has it |
| ClassGenerator.FindGroup | backend/services/scheduler.py:63-67 | the group found has the requested id; no group is found only when none has it |
| ClassGenerator.SlotsOf | backend/services/scheduler.py:80-83 | exactly the schedule slots of the group |
| ClassGenerator.LastEntryFor | backend/services/scheduler.py:28-33 | the last plan entry for (group, week): it is for that pair and no later entry is |
| ClassGenerator.ColourMapLastWins | backend/services/scheduler.py:28-33 | colour is last-write-wins: the map holds a (group, week) exactly when some entry is for it, and then the last such entry's colour |
| ClassGenerator.ColourMapSnoc | backend/services/scheduler.py:32 | one more topic overwrites its pair's colour |
| ClassGenerator.CollectWeekColours | backend/services/scheduler.py:28-33 | the nested loop builds the last-write-wins colour map of all entries |
| ClassGenerator.DeleteUnlocked | backend/services/scheduler.py:70-73 | the DELETE removes exactly the pair's rows with `manual_override = 0` |
| ClassGenerator.NewDataFrom | backend/services/scheduler.py:85-112 | at most one new row per slot |
| ClassGenerator.NewDataFromSnoc | backend/services/scheduler.py:89-112 | a slot dated on a no-class day adds nothing; any other adds the row dated `start + (week - 1) * 7 + weekday` with the slot's times, the topic, the pair's colour, status `scheduled` and no hand edit |
| ClassGenerator.InsertSlotStep | backend/services/scheduler.py:85-119 | what one slot adds to the numbered rows of an entry |
| ClassGenerator.InsertSlot | backend/services/scheduler.py:89-119 | one slot: on a no-class day nothing changes; otherwise the row above is inserted with the next AUTOINCREMENT id and the counter moves on by one |
| ClassGenerator.InsertSlots | backend/services/scheduler.py:75-119 | with a hand-edited row left for the pair nothing is inserted; otherwise the entry's new rows are appended with consecutive ids and returned |
| ClassGenerator.InsertEach | backend/services/scheduler.py:85-119 | the slot loop appends the new rows of the given slots with consecutive ids, to the table and to the returned list |
| ClassGenerator.ProcessEntry | backend/services/scheduler.py:62-119 | the body of the topic loop is one `Step` of the specification fold |
| ClassGenerator.ProcessWeek | backend/services/scheduler.py:62-119 | the topic loop of one plan week is the fold over that week's entries |
| ClassGenerator.RunSnoc | backend/services/scheduler.py:61-62 | the fold over one more entry is one more step |
| ClassGenerator.GenerateClasses | backend/services/scheduler.py:36-121 | an unknown level is an error and changes nothing, checked before the empty-plan check; a plan with no weeks returns `[]` and changes nothing; otherwise result and table are those of the fold over the plan's entries; levels, groups, schedules and no-class days are untouched |
| ClassGenerator.PairRowsDeleteOther | backend/services/scheduler.py:70-73 | deleting another pair's unlocked rows leaves this pair's rows alone |
| ClassGenerator.PairRowsDeleteSame | backend/services/scheduler.py:70-73 | after the DELETE a pair holds exactly its hand-edited rows |
| ClassGenerator.NewDataPair | backend/services/scheduler.py:96-112 | every new row belongs to the entry's (group, week) and is not hand edited |
| ClassGenerator.NewDataFromSlots | backend/services/scheduler.py:85-112 | every new row is the row of some slot whose date is `start + (week - 1) * 7 + weekday` and not a no-class day, and every such slot yields one |
| ClassGenerator.FreshRows | backend/services/scheduler.py:96-113 | the inserted rows belong to the pair, are not hand edited and carry consecutive new ids |
| ClassGenerator.RunValid | backend/services/scheduler.py:96-113 | every class id stays below the id counter, and the counter never goes back |
| ClassGenerator.OverrideRowsSurvive | backend/services/scheduler.py:70-73 | a hand-edited row is never deleted or changed by the generator |
| ClassGenerator.NoNewOverrides | backend/services/scheduler.py:101 | the generator never creates a hand-edited row |
| ClassGenerator.UnprocessedPairUnchanged | backend/services/scheduler.py:63-68 | a pair no valid entry acts on (its group missing or in another level) keeps its rows: nothing is deleted or inserted |
| ClassGenerator.StepOtherPair | backend/services/scheduler.py:63-73 | an entry for another pair, or one whose group is skipped, leaves this pair's rows alone |
| ClassGenerator.LastEntryDetermines | backend/services/scheduler.py:61-112 | a processed pair without hand-edited rows holds exactly the rows of the last entry for it, one per slot not on a no-class day; an earlier entry's rows for a repeated pair are deleted |
| ClassGenerator.StepReplacesPair | backend/services/scheduler.py:70-112 | one valid entry for a pair without hand-edited rows leaves exactly the entry's new rows for the pair |
| ClassGenerator.OverrideBlocksPair | backend/services/scheduler.py:75-87 | once a pair with a hand-edited row is processed it holds exactly its hand-edited rows: nothing is inserted and they are unchanged |
| ClassGenerator.OverrideAtLast | backend/services/scheduler.py:70-87 | the induction step of the previous row, for the last entry |
| ClassGenerator.OverrideKept | backend/services/scheduler.py:70-78 | the DELETE keeps a hand-edited row, so the override check finds it |
| ClassGenerator.RerunSameContents | backend/services/scheduler.py:61-112 | running the same plan again reproduces every (group, week)'s row contents; only regenerated ids differ |
| ClassApi.GenerateClassesEndpoint | backend/app.py:219-230 | a body level that differs from the path is a 400 before anything is generated; an unknown level is a 400 naming it; otherwise the number of rows the generator returns, with the generator's effect on the table |
| ClassApi.Updated | backend/app.py:249-292 | the group of a class never changes |
| ClassApi.DiffWhen | backend/app.py:252-267 | date and start time enter the UPDATE exactly when supplied and different from the stored value; `end_time` enters when set to a different time, or when explicitly null and a time is stored (then as NULL); omitting it leaves it alone |
| ClassApi.DiffWhat | backend/app.py:268-279 | week, topic and colour enter the UPDATE exactly when supplied and different from the stored value |
| ClassApi.ComputeUpdates | backend/app.py:249-286 | `changed` holds exactly when some supplied field differs; a supplied status is written verbatim, otherwise `rescheduled` exactly when something changed; `manual_override` is set exactly when something changed or a status was supplied; there are no updates exactly when neither happened |
| ClassApi.FindClass | backend/app.py:242-247 | the row found has the requested id; none is found only when no row has it |
| ClassApi.UpdateClass | backend/app.py:233-305 | a body with no field is a 400 before storage is read; an unknown id is a 404 with no write; otherwise only the matching row changes, to `Updated`, it is returned with its group's name (or `""`), and nothing else in the database changes |
| ClassApi.UpdateIdempotent | backend/app.py:249-292 | applying the same PATCH twice leaves what applying it once left |
| ClassApi.UpdateMarksOverride | backend/app.py:280-286 | with no status and no changed field the row is untouched; otherwise it is marked as edited by hand (never reset to 0), and a change without a status sets `rescheduled` |
| ClassApi.JoinGroups | backend/app.py:318-324 | the join yields a class with a group's name exactly for the groups of the level with the class's group id |
| ClassApi.AgendaRowsMembers | backend/app.py:318-326 | the agenda rows are exactly the classes of that week whose group belongs to the level, each with its group's name |
| ClassApi.Agenda | backend/app.py:309-335 | a week below one is a 400; an unknown level is a 404; otherwise the joined rows, sorted by (date, start time) and a permutation of the matching rows |
| HolidaySuggestions.MonthsTile | backend/scheduler.py:94 | the calendar months tile the year: each ends where the next begins, and December ends the year |
| HolidaySuggestions.DayNumberMonotone | backend/scheduler.py:27 | an earlier (year, month, day) has a smaller day number, so comparing ISO text, dates or day numbers agrees |
| HolidaySuggestions.ParseDigitsOfDigits | backend/scheduler.py:94 | reading back `w` zero-padded digits of `n` gives `n mod 10^w` |
| HolidaySuggestions.DigitsOfParseDigits | backend/scheduler.py:94 | a run of digits is the zero-padded form of its value |
| HolidaySuggestions.FormatIso | backend/scheduler.py:44 | `isoformat()` of a date is ten characters |
| HolidaySuggestions.ParseIso | backend/scheduler.py:94 | `fromisoformat` accepts only real calendar dates |
| HolidaySuggestions.FormatIsoFields | backend/scheduler.py:94 | the ISO text is `YYYY-MM-DD` with the year, month and day in their fixed places |
| HolidaySuggestions.ParseFormatIso | backend/scheduler.py:94 | formatting a date and parsing the text gives the date back |
| HolidaySuggestions.FormatParseIso | backend/scheduler.py:94 | text that parses is exactly the ISO form of the date it names |
| HolidaySuggestions.CoerceDate | backend/scheduler.py:90-95 | a date passes unchanged; text is accepted exactly when it parses, and otherwise is a value error naming it; anything else is a type error |
| HolidaySuggestions.CoerceIsoText | backend/scheduler.py:90-95 | a date given as its ISO text coerces to the same day as the date itself |
| HolidaySuggestions.FindHoliday | backend/scheduler.py:13-17 | the holiday found has the requested id; none is found only when no holiday has it |
| HolidaySuggestions.SqliteDateOfIso | backend/scheduler.py:27 | on a real `YYYY-MM-DD` date, SQLite's `DATE` gives the same day as Python's `date.fromisoformat` |
| HolidaySuggestions.SqliteDayCarry | backend/scheduler.py:27 | `DATE` carries a day past the end of its month into the matching day of the next month of the same year |
| HolidaySuggestions.LeapFebruaryCarry | backend/scheduler.py:27 | in a leap year, text for February 30 is no date for Python, yet `DATE` reads it as March 1 of that year |
| HolidaySuggestions.SqliteDateCarryExample | backend/scheduler.py:27 | `2024-02-30` is no date for Python, yet `DATE` reads it as `2024-03-01` |
| HolidaySuggestions.SqliteDateYearZero | backend/scheduler.py:27 | `0000-01-01` is no date for Python, yet `DATE` reads it as the day 366 days before `0001-01-01` |
| HolidaySuggestions.OverlapFilter | backend/scheduler.py:23-31 | exactly the classes of the holiday's academic year whose date, as SQLite's `DATE` reads it, lies between start and end, both included |
| HolidaySuggestions.Overlapping | backend/scheduler.py:23-31 | the same classes, ordered by that date (same-date classes in id order) |
| HolidaySuggestions.SuggestionTextShape | backend/scheduler.py:40-46 | the text is "Class '<topic>'" (or "Class" without a topic), then " scheduled on <date> overlaps with holiday '<name>'. Consider rescheduling." |
| HolidaySuggestions.DeleteFor | backend/scheduler.py:33-36 | the DELETE removes exactly the holiday's suggestions |
| HolidaySuggestions.RemovePair | backend/scheduler.py:47-53 | the REPLACE half removes exactly the rows for that (class, holiday) |
| HolidaySuggestions.FillSnoc | backend/scheduler.py:39-53 | one more overlapping class does one more insert-or-replace, with the next id |
| HolidaySuggestions.JoinClass | backend/scheduler.py:66-75 | the join pairs a suggestion with its class's topic and date exactly for the class with its id |
| HolidaySuggestions.JoinFor | backend/scheduler.py:66-75 | every returned row belongs to this holiday |
| HolidaySuggestions.StoredFor | backend/scheduler.py:66-87 | the returned rows are the joined suggestions of the holiday, ordered by suggestion id |
| HolidaySuggestions.RecomputeForHoliday | backend/scheduler.py:11-87 | a missing holiday or a bad date is an error and nothing is deleted; otherwise the table becomes `Recomputed` over the overlapping classes, the counter moves on by their number, and the holiday's stored suggestions come back in id order; the `UNIQUE (class_id, holiday_id)` invariant is kept |
| HolidaySuggestions.InsertSuggestion | backend/scheduler.py:48-53 | one insert-or-replace: the new row takes the next autoincrement id and replaces any row for the same (class, holiday); classes and holidays are untouched |
| HolidaySuggestions.FillValid | backend/database.py:171-177 | the insert loop keeps (class, holiday) unique and leaves every id below the counter moved on by the number of classes |
| HolidaySuggestions.StoreSuggestions | backend/scheduler.py:39-53 | the insert loop performs one insert-or-replace per overlapping class with consecutive ids |
| HolidaySuggestions.InsertOrReplaceValid | backend/database.py:178 | insert-or-replace keeps (class, holiday) unique and ids below the counter |
| HolidaySuggestions.RemovePairSubsequence | backend/database.py:178 | removing rows keeps (class, holiday) unique |
| HolidaySuggestions.DeleteForValid | backend/scheduler.py:33-36 | the DELETE keeps (class, holiday) unique and ids below the counter |
| HolidaySuggestions.OthersRemovePair | backend/scheduler.py:47-53 | inserting for this holiday does not touch another holiday's rows |
| HolidaySuggestions.DeleteForIdempotent | backend/scheduler.py:33-36 | the DELETE removes every row of the holiday, so running it again removes nothing more |
| HolidaySuggestions.RecomputeKeepsOthers | backend/scheduler.py:33-53 | suggestions for other holidays are untouched, in content and order |
| HolidaySuggestions.RecomputeOnlyOverlapping | backend/scheduler.py:33-53 | afterwards every suggestion of the holiday is new and belongs to an overlapping class, with that class's text; all earlier ones are gone |
| HolidaySuggestions.RecomputeCoversOverlapping | backend/scheduler.py:39-53 | afterwards every overlapping class has a suggestion for the holiday |
| HolidaySuggestions.FillCovers | backend/scheduler.py:39-53 | the insert loop leaves a row for every class it visited |
| HolidaySuggestions.KeptCovers | backend/scheduler.py:47-53 | replacing one class's row keeps every other class's row for the holiday |
| HolidaySuggestions.NoOverlapNoSuggestions | backend/scheduler.py:33-53 | a holiday that overlaps no class (as after moving it to an empty range) is left with no suggestions |
| HolidaySuggestions.JoinForMembers | backend/scheduler.py:66-75 | the returned rows are exactly this holiday's suggestions joined with the classes they name |
| Topics.FindSchedule | backend/routers/classes.py:136-142 | the schedule found has the requested id; none is found only when no schedule has it |
| Topics.MapWhere | backend/routers/classes.py:162-165 | `UPDATE ... WHERE id = ?` rewrites exactly the rows with that id |
| Topics.UpdateStep | backend/routers/classes.py:157-165 | one UPDATE by id of a snapshot row extends the loop invariant "snapshot rows done so far are rewritten, all others unchanged" by that row |
| Topics.Where | backend/routers/classes.py:153-156 | a SELECT keeps exactly the rows satisfying its condition |
| Topics.WhereUnique | backend/routers/classes.py:153-156 | a SELECT keeps ids unique |
| Topics.SnapshotMembers | backend/routers/classes.py:153-157 | every snapshot row is a table row satisfying the query |
| Topics.UpdatedAll | backend/routers/classes.py:153-165 | a loop over the whole snapshot leaves exactly the matching rows rewritten and the others unchanged |
| Topics.UniqueByPermutation | backend/routers/classes.py:308-315 | a reordered snapshot of rows with unique ids has unique ids |
| TopicGeneration.Contexts | backend/routers/classes.py:259 | one planner context per candidate topic |
| TopicGeneration.SupersedeAll | backend/routers/classes.py:151-179 | every active row of the topic becomes superseded with exactly one more history entry; already superseded rows and rows of other topics are untouched; ids and order are kept |
| TopicGeneration.SupersedeIdempotent | backend/routers/classes.py:151-179 | superseding again changes nothing: only active rows are selected |
| TopicGeneration.SupersedeRows | backend/routers/classes.py:153-165 | the snapshot-then-UPDATE loop over one table yields `SupersedeAll` |
| TopicGeneration.SupersedeKeepsIds | backend/routers/classes.py:157-179 | superseding keeps ids unique and below the counter |
| TopicGeneration.SupersedeExistingContent | backend/routers/classes.py:151-179 | both content tables are superseded with one timestamp; topics, schedules and counters are untouched |
| TopicGeneration.NewContent | backend/routers/classes.py:199-233 | one new row per planned artifact |
| TopicGeneration.AppendContent | backend/routers/classes.py:199-214 | the INSERT loop appends the new rows with consecutive ids and moves the counter on by their number |
| TopicGeneration.AppendFresh | backend/routers/classes.py:199-233 | fresh rows keep ids unique and below the advanced counter |
| TopicGeneration.StoreGenerationResult | backend/routers/classes.py:182-233 | the activities, then the resources, are appended with the shared provenance (a copy of the planner's, model defaulting to `unknown`, with trigger, topic and time written over it) and their artifact kind; nothing else changes |
| TopicGeneration.StoredProvenance | backend/routers/classes.py:189-206 | every stored row keeps the planner's model (or `unknown`), its history list and its other keys, under the router's trigger, topic, time and the row's artifact kind |
| TopicGeneration.Regenerated | backend/routers/classes.py:264-271 | regeneration only adds rows and only advances the counters |
| TopicGeneration.OnlyFreshStep | backend/routers/classes.py:265-266 | after superseding and storing for a topic, its only active rows are the fresh ones |
| TopicGeneration.RegeneratedOnlyFresh | backend/routers/classes.py:264-271 | afterwards every active activity or resource of a regenerated topic was created by this regeneration |
| TopicGeneration.KeepsOthersStep | backend/routers/classes.py:265-266 | one topic's turn keeps every earlier row in place, and rows of other topics unchanged |
| TopicGeneration.RegeneratedKeepsOthers | backend/routers/classes.py:264-271 | rows already present keep their place and id, and those of topics not regenerated are untouched |
| TopicGeneration.MarkGenerated | backend/routers/classes.py:267-270 | setting `last_generated_at` changes no other column |
| TopicGeneration.MarkGeneratedSnoc | backend/routers/classes.py:267-270 | marking one more topic extends the marked list |
| TopicGeneration.RegenerateTopic | backend/routers/classes.py:265-271 | one loop turn: supersede (stamped with the supersede step's own clock read), store and set the topic's `last_generated_at` (both stamped with the time read before the loop) |
| TopicGeneration.Candidates | backend/routers/classes.py:255 | exactly the non-holiday topics, in input order |
| TopicGeneration.GenerateForTopics | backend/routers/classes.py:248-273 | holiday topics are never regenerated; the regenerated ids are the candidates' ids in input order; the content tables are the fold of supersede-then-store over the candidates, the k-th supersede stamped with its own clock read |
| TopicGeneration.RegeneratedSnoc | backend/routers/classes.py:264-271 | regenerating one more topic is one more turn of the loop |
| TopicGeneration.Available | backend/routers/classes.py:394 | the lookup finds a topic exactly for the ids of the class's topics |
| TopicGeneration.Missing | backend/routers/classes.py:395 | exactly the requested ids that name no topic of the class, in request order |
| TopicGeneration.Selection | backend/routers/classes.py:393-405 | with explicit ids: an error listing exactly the missing ones if any, otherwise those topics in request order; otherwise all topics when asked to or when there are none; otherwise exactly the non-holiday topics |
| TopicGeneration.TriggerGeneration | backend/routers/classes.py:383-414 | an unknown class, or missing topic ids (listed), is a 404 that changes nothing; otherwise the selected non-holiday topics are regenerated, their `last_generated_at` set, and their ids returned; schedules are never touched |
| TopicCalendar.Shifted | backend/routers/classes.py:307-323 | every ordinary topic of the class dated on or after the day moves exactly one day later; earlier topics, holiday markers and other classes' topics keep their dates; no other column changes |
| TopicCalendar.ShiftOrder | backend/routers/classes.py:308-315 | the snapshot holds exactly the topics that move, each as often as the table holds it, ordered by (old date, id) |
| TopicCalendar.WithMarkerValid | backend/routers/classes.py:297-305 | the marker's id is fresh, so ids stay unique and the counter moves on only when a marker is inserted |
| TopicCalendar.ShiftStep | backend/routers/classes.py:317-322 | one UPDATE of the shifting loop extends its invariant by one row |
| TopicCalendar.ShiftEach | backend/routers/classes.py:317-323 | the loop moves each snapshot row one day later, leaves the rest, and collects the ids in snapshot order |
| TopicCalendar.ShiftTopics | backend/routers/classes.py:307-325 | the table becomes `Shifted` and the impacted ids are those of the (old date, id) ordered snapshot |
| TopicCalendar.InsertMarker | backend/routers/classes.py:289-305 | 1 and a marker row titled "No class - <reason>" when the class has no marker on the day, else 0 and no change |
| TopicCalendar.ApplyNoClassDay | backend/routers/classes.py:288-325 | returns 1 exactly when no marker existed; the table is the marker insert followed by the shift; impacted ids in (old date, id) order; content tables untouched |
| TopicCalendar.ShiftedKeepsIds | backend/routers/classes.py:317-322 | the shift keeps ids unique and below the counter |
| TopicCalendar.ApplyDayClears | backend/routers/classes.py:288-325 | after a no-class day the class has a marker on it and no ordinary topic on it, and earlier markers stay |
| TopicCalendar.WithMarkerMarks | backend/routers/classes.py:297-305 | after the INSERT the day has a marker, and so does every day that had one |
| TopicCalendar.ShiftedKeepsMarker | backend/routers/classes.py:308-315 | the shift does not move markers |
| TopicCalendar.ShiftedClearsDay | backend/routers/classes.py:307-323 | after the shift no ordinary topic of the class is on the day |
| TopicCalendar.DayEffectTwice | backend/routers/classes.py:290-305 | a second request for the same day inserts no second marker |
| TopicCalendar.ByDate | backend/routers/classes.py:277-280 | the class's topics, ordered by (date, id) |
| TopicCalendar.IndexOfId | backend/routers/classes.py:281-285 | the first place of the id in the order, or the order's length |
| TopicCalendar.Resequenced | backend/routers/classes.py:276-285 | only positions change, and only for the class's topics |
| TopicCalendar.ResequencedKeepsIds | backend/routers/classes.py:281-285 | renumbering keeps ids unique and below the counter |
| TopicCalendar.NumberStep | backend/routers/classes.py:281-285 | one UPDATE of the renumbering loop extends its invariant by one row |
| TopicCalendar.NumberEach | backend/routers/classes.py:281-285 | the loop gives row `k` of the ordered snapshot position `k` and leaves the rest |
| TopicCalendar.NumberByDate | backend/routers/classes.py:276-285 | snapshot plus loop yield `Resequenced` |
| TopicCalendar.ResequenceTopics | backend/routers/classes.py:276-285 | `_resequence_topics` leaves the table `Resequenced`, and nothing else changes |
| TopicCalendar.PlaceOf | backend/routers/classes.py:281-285 | a class topic's new position is its place in the (date, id) order |
| TopicCalendar.ResequencedFollowsOrder | backend/routers/classes.py:276-285 | positions follow (date, id) order |
| TopicCalendar.ResequencedRange | backend/routers/classes.py:276-285 | the class's n topics get positions in 0..n-1 |
| TopicCalendar.ResequencedOnto | backend/routers/classes.py:276-285 | every position in 0..n-1 is taken |
| TopicCalendar.ResequencedDistinct | backend/routers/classes.py:276-285 | no two topics of the class share a position |
| TopicCalendar.InsertDistinct | backend/routers/classes.py:432 | inserting into an increasing list keeps it increasing and adds exactly that date |
| TopicCalendar.SortedDistinct | backend/routers/classes.py:432 | `sorted(set(dates))`: strictly increasing, holding exactly the given dates |
| TopicCalendar.Days | backend/routers/classes.py:432-435 | the total inserted grows by at most one per day, and the id counter grows by the same amount |
| TopicCalendar.ApplyDayMarks | backend/routers/classes.py:288-325 | a day's marker exists after it, and so does every earlier marker |
| TopicCalendar.DaysMarkStep | backend/routers/classes.py:432-435 | one more day keeps the markers of the days before it and adds its own |
| TopicCalendar.DaysMarkAll | backend/routers/classes.py:432-435 | after the loop every listed day has a marker |
| TopicCalendar.DaysSnoc | backend/routers/classes.py:432-435 | one more day is one more `_apply_no_class_day` |
| TopicCalendar.ApplyDays | backend/routers/classes.py:432-435 | the loop is the fold of the day effect over the days, summing the inserted counts and concatenating the impacted ids |
| TopicCalendar.SameCalendar | backend/routers/classes.py:437-446 | rows that differ at most in position or generation time keep the markers |
| TopicCalendar.MarkersKept | backend/routers/classes.py:437-446 | renumbering and stamping leave the markers where they are |
| TopicCalendar.AdjustCalendar | backend/routers/classes.py:429-450 | the days loop, the renumbering and the regeneration of the moved non-holiday topics; at most one marker per day, and every day ends with a marker |
| TopicCalendar.AdjustForHolidays | backend/routers/classes.py:417-450 | an unknown class is a 404; no dates returns (0, []) with no change; otherwise each distinct date once in ascending order, then renumbering and regeneration, returning the inserted total and the regenerated ids |
| TopicCalendar.DistinctBound | backend/routers/classes.py:432 | there are no more distinct dates than dates |
| PlanParser.LeadingUpper | backend/services/plan_parser.py:212 | the captured prefix is the longest run of capital letters the reference starts with |
| PlanParser.Base26 | backend/services/plan_parser.py:216-218 | the letters read as a bijective base-26 numeral are zero exactly for the empty run, and never negative |
| PlanParser.ColumnIndex | backend/services/plan_parser.py:210-219 | the column loop computes the zero-based column of the reference; without leading capitals the result is the reference's length |
| PlanParser.Letters | backend/tests/test_plan_parser.py:85-91 | the letters the fixture writes for a column are all capitals |
| PlanParser.Base26Letters | backend/tests/test_plan_parser.py:85-91 | reading the written letters of n back gives n |
| PlanParser.LettersBase26 | backend/services/plan_parser.py:216-218 | writing the number of a run of capitals gives the same run |
| PlanParser.ColumnRoundTrip | backend/services/plan_parser.py:210-219 | the column of the fixture's letters for column i is i |
| PlanParser.ColumnLetterOf | backend/services/plan_parser.py:210-219 | every non-empty run of capitals names exactly one column, whose letters it is |
| PlanParser.ResolveCellAsWritten | backend/services/plan_parser.py:190-208 | as written, resolution fails exactly when a shared-string cell holds an integer below minus the list length; a negative index within that reach takes a string from the end |
| PlanParser.ResolveCell | backend/services/plan_parser.py:196-208 | a cell without a value node gives its inline text or ""; a non-shared cell gives its raw text; a shared cell gives the indexed string for an in-range integer and its raw text otherwise |
| PlanParser.ResolveAgreesOffNegative | backend/services/plan_parser.py:202-207 | the written and the intended resolution agree on every cell that is not a shared-string cell with a negative index |
| PlanParser.NegativeSharedIndex | backend/services/plan_parser.py:207 | with shared strings ["first", "second"], a cell holding "-1" gives "second" and one holding "-3" raises |
| PlanParser.ResolveSharedIndex | backend/services/plan_parser.py:202-207 | a shared cell holding the decimal text of an in-range index resolves to that string |
| PlanParser.Place | backend/services/plan_parser.py:184-186 | placing a value at a column pads the row with "" up to that column, sets that column and keeps every other value |
| PlanParser.PlaceRowShape | backend/services/plan_parser.py:179-187 | a row is as wide as its right-most cell, each position holds the last cell written there, and positions no cell names hold "" |
| PlanParser.PlaceCell | backend/services/plan_parser.py:184-186 | the padding loop and the assignment place the value at its column |
| PlanParser.ReadSheetRow | backend/services/plan_parser.py:180-187 | the cell loop builds the placed row of the sheet row (with the corrected cell resolution, see "## Findings") |
| PlanParser.ReadSheetRows | backend/services/plan_parser.py:169-188 | every row of the sheet is read, in order |
| PlanParser.PlaceRowsSnoc | backend/services/plan_parser.py:179-187 | the rows of a longer sheet prefix are those of the shorter prefix plus the next row |
| PlanParser.StripIsStripped | backend/services/plan_parser.py:225 | a stripped string has no whitespace at either end |
| PlanParser.NormaliseCell | backend/services/plan_parser.py:221-225 | a missing value gives ""; any other is stripped, no longer than before, and empty exactly when it was blank |
| PlanParser.ColumnName | backend/services/plan_parser.py:230 | the default name starts with "column_" followed by at least one character |
| PlanParser.NormaliseHeader | backend/services/plan_parser.py:227-230 | a header is never empty and is stripped: the stripped value when not blank, else the column's default name |
| PlanParser.PutAll | backend/services/plan_parser.py:118-121 | successive assignments keep keys distinct, add only the given keys, and hold every given key |
| PlanParser.Zip | backend/services/plan_parser.py:118-121 | the zipped items pair key i with value i |
| PlanParser.PutAllFresh | backend/services/plan_parser.py:118-121 | with fresh and distinct keys every assignment appends one item |
| PlanParser.Fit | backend/services/plan_parser.py:117-120 | a data row padded with "" or cut to the header count has that many values, position by position |
| PlanParser.Headers | backend/services/plan_parser.py:111-114 | there is one header per cell of the first row, none empty and all stripped |
| PlanParser.RowValues | backend/services/plan_parser.py:117-121 | a data row gives one stripped value per header |
| PlanParser.KeepMappedSound | backend/services/plan_parser.py:122-123 | every kept record passes the filter and comes from some data row |
| PlanParser.KeepMappedComplete | backend/services/plan_parser.py:122-123 | every data row whose record passes the filter is kept |
| PlanParser.KeepMappedLength | backend/services/plan_parser.py:122-123 | no more records are kept than there are data rows |
| PlanParser.SheetRecords | backend/services/plan_parser.py:115-123 | the record loop keeps the records of the data rows that hold a non-empty value, in order |
| PlanParser.ParseXlsx | backend/services/plan_parser.py:102-131 | the sheet loop gives one table per sheet that has rows (with the corrected cell resolution, see "## Findings") |
| PlanParser.SheetRecordDistinct | backend/services/plan_parser.py:116-121 | with distinct headers a record holds every header in order with the stripped value of its column, or "" past the end of the row |
| PlanParser.SheetRecordKeys | backend/services/plan_parser.py:118-121 | any record has distinct keys drawn from the headers and stripped values |
| PlanParser.KeptRecordsFilter | backend/services/plan_parser.py:115-123 | a record is kept exactly when it comes from a data row and holds a non-empty value; there are no more records than data rows |
| PlanParser.XlsxTablesShape | backend/services/plan_parser.py:107-130 | every table is named after the file stem and one of the sheets, and its headers are non-empty |
| PlanParser.FoldSnoc | backend/services/plan_parser.py:92-97 | the loop over a longer prefix is one more step after the shorter prefix, unless that has raised |
| PlanParser.FoldErrSticks | backend/services/plan_parser.py:92-97 | once a prefix of the loop has raised, the whole loop raises the same |
| PlanParser.FoldOkIff | backend/services/plan_parser.py:92-97 | when a step raises exactly on bad items, the loop succeeds exactly when no item is bad |
| PlanParser.FoldCollect | backend/services/plan_parser.py:92-97 | a loop whose every step appends one output collects the outputs in order |
| PlanParser.FoldKeeps | backend/services/plan_parser.py:92-97 | a property every step keeps holds of the state the loop ends in |
| PlanParser.DataRows | backend/services/plan_parser.py:89-92 | the reader yields exactly the non-empty rows |
| PlanParser.NormaliseCsvRow | backend/services/plan_parser.py:93-96 | the normalising loop computes the record of one reader row, or raises |
| PlanParser.ParseCsv | backend/services/plan_parser.py:87-100 | the CSV loop builds the table named after the stem, with the header row and one record per non-empty data row |
| PlanParser.ReaderRowLong | backend/services/plan_parser.py:92-96 | a row longer than the header leaves a list of extra fields among its values |
| PlanParser.ReaderRowShort | backend/services/plan_parser.py:92-96 | a row no longer than the header holds only fields and missing values |
| PlanParser.CsvStepRaises | backend/services/plan_parser.py:96 | one normalising step raises exactly on the list of extra fields |
| PlanParser.CsvRecordOk | backend/services/plan_parser.py:93-96 | normalising a row raises exactly when the row is longer than the header |
| PlanParser.CsvTableOk | backend/services/plan_parser.py:87-100 | a CSV file parses exactly when no data row is longer than its header row |
| PlanParser.DataRowsShort | backend/services/plan_parser.py:89-92 | dropping the empty rows keeps every row within a width exactly when all rows were |
| PlanParser.CsvHeaderFallbackUnused | backend/services/plan_parser.py:98-99 | with an empty header row, a file that parses has no records and no headers, so the fallback to the first record's keys never takes effect |
| PlanParser.CsvStepKeeps | backend/services/plan_parser.py:94-96 | a normalising step keeps a record's keys distinct and non-empty and its values stripped |
| PlanParser.CsvRecordWellFormed | backend/services/plan_parser.py:93-96 | every normalised record has distinct, non-empty keys and stripped values |
| PlanParser.CsvTableWellFormed | backend/services/plan_parser.py:87-100 | every record of a parsed CSV table is well formed, and the table is named after the stem |
| PlanParser.ReaderRowDistinct | backend/services/plan_parser.py:89-92 | with distinct header names the reader gives each header, in order, its field or None |
| PlanParser.CsvRecordDistinct | backend/services/plan_parser.py:93-96 | with distinct, non-empty headers and a row no longer than the header, the record holds every header in order with its stripped field, or "" where the row ran out |
| PlanParser.RowsFold | backend/services/plan_parser.py:92-97 | when every row normalises, the records are those rows' records, in order |
| PlanParser.ScheduleTable | backend/tests/test_plan_parser.py:28-29 | a day/activity file with two rows of stripped values gives a table with one record per row |
| PlanParser.CsvScheduleExample | backend/tests/test_plan_parser.py:28-29 | the schedule fixture parses to a table named "schedule" with headers day and activity and the two records of its rows |
| PlanParser.StemSuffix | backend/services/plan_parser.py:100 | the stem followed by the suffix is the last path component |
| PlanParser.Parse | backend/services/plan_parser.py:52-70 | the path loop computes the parsed plan, stopping at the first path that raises (with the corrected cell resolution, see "## Findings") |
| PlanParser.ParseStepOk | backend/services/plan_parser.py:54-69 | an accepted path passed validation, has a suffix the parser reads, joins the sources, and adds at most one text segment |
| PlanParser.FoldRecords | backend/services/plan_parser.py:54-69 | a loop whose every successful step records its item and grows a measure by at most one records every item, in order |
| PlanParser.ParseSucceeded | backend/services/plan_parser.py:52-70 | when parse succeeds every path was accepted and the sources are the paths in order, with at most one text segment per path |
| PlanParser.ParseRejects | backend/services/plan_parser.py:66-68 | a path whose suffix the parser does not read makes parse fail |
| PlanParser.ParseUnsupportedNamesSuffix | backend/services/plan_parser.py:66-68 | a refused suffix is the lower-cased suffix of one of the paths and is not one the parser reads |
| PlanParser.ParseStepUnsupported | backend/services/plan_parser.py:56-68 | the step that refuses a suffix refuses its own path's lower-cased suffix |
| PlanParser.NonBlank | backend/services/plan_parser.py:40 | the kept segments are all non-empty |
| PlanParser.NonBlankSnoc | backend/services/plan_parser.py:40 | a further segment adds its stripped text when that is not empty, and nothing otherwise |
| PlanParser.NonBlankEmpty | backend/services/plan_parser.py:40 | no segment is kept exactly when every segment is blank |
| PlanParser.CombinedTextEmpty | backend/services/plan_parser.py:38-40 | the combined text is empty exactly when every segment is blank |
| PlanParser.CombinedTextSnoc | backend/services/plan_parser.py:38-40 | a blank segment leaves the combined text as it was; another adds a blank line and the stripped segment, or starts the text |
| Reports.PrepareRecords | backend/services/reports.py:43-52 | no records given means the built-in dataset; given records are used as they are |
| Reports.WhereMembers | backend/services/reports.py:61-63 | a key's selection holds exactly the records of that key |
| Reports.WhereNone | backend/services/reports.py:61-63 | without a record of a key its selection is empty |
| Reports.GroupsStep | backend/services/reports.py:61-79 | folding one more record into its bucket, fetched with setdefault or created, keeps the grouping of all records seen |
| Reports.SumUpd | backend/services/reports.py:71-79 | updating one bucket changes the sum over buckets by that bucket's change |
| Reports.SortItems | backend/services/reports.py:82 | sorted(d.items()) compares keys only, as keys are distinct |
| Reports.SortPermutes | backend/services/reports.py:82 | sorting the items only reorders them |
| Reports.SortAscends | backend/services/reports.py:82 | with distinct keys under a strict total order the sorted keys strictly ascend |
| Reports.SumSort | backend/services/reports.py:82 | sorting keeps the sum of the values |
| Reports.GroupsPermutation | backend/services/reports.py:82 | a reordering of a grouping with distinct keys is still a grouping |
| Reports.Stats | backend/services/reports.py:84-98 | the breakdown list has one line per item |
| Reports.BreakdownOf | backend/services/reports.py:84-98 | the sorted lines of a tally give each name that occurs, once and in order, with its total hours and its number of sessions |
| Reports.SortedGroups | backend/services/reports.py:82 | sorted items of a grouping by name are a grouping in strictly ascending name order |
| Reports.StatsCounted | backend/services/reports.py:84-98 | each line's hours and sessions are the total and the count of the records with its name, and such records exist |
| Reports.StatsCover | backend/services/reports.py:84-98 | every record's name appears on some line |
| Reports.TrimesterRecord | backend/services/reports.py:61-79 | one pass of the first loop keeps the grouping by (group, trimester) of the records seen |
| Reports.GroupByTrimester | backend/services/reports.py:58-79 | the first loop groups every record under its (group, trimester) |
| Reports.ListTrimesterRows | backend/services/reports.py:81-107 | the second loop gives one summary per sorted item |
| Reports.TrimesterSummary | backend/services/reports.py:55-109 | the summaries are in strictly ascending (group, trimester) order, every record's pair has one, and each summary's total, topic breakdown and activity breakdown describe exactly the records of its pair |
| Reports.CountInTopic | backend/services/reports.py:127-136 | the body of the first loop counts the record in the topic's hours, its group's hours, sessions and trimester hours, and its activity |
| Reports.TopicRecord | backend/services/reports.py:118-136 | one pass of the first loop keeps the grouping by topic of the records seen |
| Reports.GroupByTopic | backend/services/reports.py:115-136 | the first loop groups every record under its topic, and within it by group and activity |
| Reports.TrimesterBreakdown | backend/services/reports.py:143-148 | the trimester list of a group has one line per trimester |
| Reports.GroupRows | backend/services/reports.py:141-156 | the group list of a topic has one line per group |
| Reports.HoursBreakdownOf | backend/services/reports.py:143-148 | the sorted trimester sums of a group give each trimester once, in order, with the hours of its records |
| Reports.GroupBreakdownOf | backend/services/reports.py:141-156 | the sorted groups of a topic give each group once, in order, with its hours, sessions and trimester breakdown |
| Reports.ListGroupRows | backend/services/reports.py:141-156 | the inner loop gives one group entry per sorted item |
| Reports.TopicRowFor | backend/services/reports.py:139-174 | the body of the outer loop builds one topic's summary |
| Reports.ListTopicRows | backend/services/reports.py:139-174 | the outer loop gives one summary per sorted topic |
| Reports.TopicSummary | backend/services/reports.py:112-176 | the summaries are in strictly ascending topic order, every record's topic has one, and each summary's total, group breakdown and activity breakdown describe exactly the records of its topic |
| Reports.DotIndex | backend/services/reports.py:193 | a helper of the reader that `Reports.HoursRoundTrip` uses as the inverse of the hours text (no parser exists in the source): the index of the first dot lies within the text |
| Reports.ParseSigned | backend/services/reports.py:193 | a helper of the same reader, the inverse of the hours text: a signed hours text reads back as its signed value |
| Reports.HoursRoundTrip | backend/services/reports.py:193 | the printed text of any hours value, rounded to hundredths, reads back as that value |
| Reports.CsvRowWidths | backend/services/reports.py:188-238 | every trimester and topic CSV row has one field per header |
| Reports.PdfEscapeCharwise | backend/services/reports.py:241-242 | replacing backslashes first and then parentheses escapes each character on its own |
| Reports.PdfEscapeLength | backend/services/reports.py:241-242 | each backslash or parenthesis gains exactly one character |
| Reports.PdfEscapeRoundTrip | backend/services/reports.py:241-242 | escaped text reads back as the original |
| Reports.BuildTrimesterCsv | backend/services/reports.py:188-212 | the header row comes first, then one row per given summary; with none given, the rows of a trimester report of the built-in dataset |
| Reports.WriteTrimesterCsv | backend/services/reports.py:179-212 | the header row, then one row per summary, in order |
| Reports.BuildTopicCsv | backend/services/reports.py:215-238 | the header row comes first, then one row per given summary; with none given, the rows of a topic report of the built-in dataset |
| Reports.WriteTopicCsv | backend/services/reports.py:179-185 | the header row, then one row per summary, in order |
| Reports.TextStream | backend/services/reports.py:245-261 | the stream is its lines joined by newlines |
| Reports.StreamLinesShape | backend/services/reports.py:245-261 | the stream lines are the eight-line prologue, then each escaped line shown and followed by a line break, then ET |
| Reports.TextLines | backend/services/reports.py:265-269 | the text lines are the header line, a rule, one line per row, a blank line and the timestamp |
| Reports.Offsets | backend/services/reports.py:287-289 | there is one recorded position per object |
| Reports.WriteObjects | backend/services/reports.py:286-291 | the objects loop writes the header and numbered objects and records each object's position before writing it |
| Reports.WriteXrefTable | backend/services/reports.py:294-297 | the cross-reference part is the entry count, the free entry, then one entry per position |
| Reports.AppendXrefEntries | backend/services/reports.py:296-297 | the entries loop appends one entry per recorded position |
| Reports.WritePdf | backend/services/reports.py:286-308 | the file is the body, the cross-reference table of the positions and the trailer pointing at that table |
| Reports.BuildPdfDocument | backend/services/reports.py:264-308 | the document is the PDF file of the five objects around the text stream of the report's lines |
| Reports.ObjectAtOffset | backend/services/reports.py:287-291 | each recorded offset is where that object's "N 0 obj" text starts in the file, and the offsets grow with the object number |
| Reports.BodySnoc | backend/services/reports.py:288-291 | writing one more object makes the body longer by that object's text |
| Reports.StartXrefPointsAtXref | backend/services/reports.py:293-304 | the startxref value is the position of the xref keyword |
| Reports.LeadingZeros | backend/services/reports.py:297 | leading zeros do not change the value of a digit string |
| Reports.ZeroPadValue | backend/services/reports.py:297 | the ten-digit padding of an offset below ten thousand million is ten digits whose value is the offset |
| Reports.XrefLocatesObjects | backend/services/reports.py:293-297 | reading the table as 20-byte entries after the free entry gives back, for each object, the offset where it starts |
| Reports.BuildTrimesterPdf | backend/services/reports.py:311-323 | the given rows, or those of a trimester report of the built-in dataset, become one PDF line each under the trimester headers |
| Reports.BuildTopicPdf | backend/services/reports.py:326-337 | the given rows, or those of a topic report of the built-in dataset, become one PDF line each under the topic headers |
| PlanReview.SafeId | backend/services/plan_review.py:38 | the safe id is as long as the draft id, with every "/" turned into "_" and every other character kept |
| PlanReview.DraftFileShape | backend/services/plan_review.py:37-39 | a draft's file name never holds "/" and is the safe id followed by ".json"; an id without "/" is used as it is |
| PlanReview.DraftFileSame | backend/services/plan_review.py:37-39 | two ids share a file exactly when they agree everywhere except where one has "/" and the other "_" |
| PlanReview.DraftFileCollision | backend/services/plan_review.py:37-39 | the drafts "a/b" and "a_b" are stored in one file |
| PlanReview.StampIsUpdate | backend/services/plan_review.py:111-117 | a template with the default template's keys has none of the stamped keys, so the update appends id, created_at and updated_at in order |
| PlanReview.SeedIsUpdate | backend/services/plan_review.py:108-117 | the seeded draft is the default template updated with the id and the two times |
| PlanReview.StampFacts | backend/services/plan_review.py:111-117 | the stamped template has distinct keys, carries the id and both times, and keeps the template's status and notes |
| PlanReview.SeedFacts | backend/services/plan_review.py:108-125 | a seeded draft carries its own id, was created and updated at the given time, awaits review with empty notes, and has exactly one history entry, a seed |
| PlanReview.ToResponseFields | backend/services/plan_review.py:27-30 | the response holds the whole history under "history" and, under every other key, what the draft holds |
| PlanReview.NumberOf | backend/services/plan_review.py:155 | only booleans and numbers stand for a number under Python's `==` |
| PlanReview.JsonEqRefl | backend/services/plan_review.py:155 | every JSON value equals itself under Python's `==` |
| PlanReview.JsonEqSymmetric | backend/services/plan_review.py:155 | Python's `==` on JSON values does not depend on the side |
| PlanReview.ReorderedObjectsEqual | backend/services/plan_review.py:155 | two dicts listing the same fields in another order are equal, though their key orders differ |
| PlanReview.TrueEqualsOne | backend/services/plan_review.py:155 | `True == 1` and `0 == False`, while `True != 2` and `"1" != 1` |
| PlanReview.ApplyChanges | backend/services/plan_review.py:147-160 | the change loop and the stamp compute the changed draft and whether something changed |
| PlanReview.ApplyAllGet | backend/services/plan_review.py:150-157 | after the changes a key whose change is written (mutable, not null, and not equal under Python's `==` to what the draft holds) holds the changed value; every other key holds what it held |
| PlanReview.NoWriteNoChange | backend/services/plan_review.py:152-157 | changes of which none is written leave the draft as it was |
| PlanReview.AnyWriteIff | backend/services/plan_review.py:152-157 | something is written exactly when some change is to a mutable key, not null, and differs from the draft's value under Python's `!=` |
| PlanReview.WritesSnoc | backend/services/plan_review.py:152-157 | some change is written exactly when one of the earlier ones is or the last one is |
| PlanReview.AppliedFacts | backend/services/plan_review.py:147-160 | the result reports a change exactly when the draft differs afterwards; only mutable keys and updated_at can differ; every mutable key with a non-null change ends equal to it under Python's `==`; updated_at is the current time exactly when something changed |
| PlanReview.PatchedFacts | backend/services/plan_review.py:171-190 | no changes, or changes that write nothing, return the record as it was; otherwise the draft is the changed draft stamped now and exactly one patch entry with the changes is appended |
| PlanReview.ReorderedPatchUnchanged | backend/services/plan_review.py:155 | a patch that sends back a draft's dict with its keys reordered writes nothing and appends no history |
| PlanReview.ApprovedFacts | backend/services/plan_review.py:193-214 | approval sets status approved and approved_at and updated_at to now, replaces the notes only when given and not null, keeps every other key, and appends one approve entry with the payload |
| PlanReview.ReparsedFacts | backend/services/plan_review.py:217-237 | a re-parse request sets status reparse_requested and updated_at to now, applies the same notes rule, keeps every other key, and appends one reparse entry |
| PlanReview.SaveExtends | backend/services/plan_review.py:140-144 | saving a record whose history extends the stored one extends every stored history |
| PlanReview.ActionsExtend | backend/services/plan_review.py:163-237 | every action rewrites at most the draft's own file and only appends to its history |
| PlanReview.LoadedFacts | backend/services/plan_review.py:128-137 | loading a draft with a file returns that file; loading one without seeds it under this id with one seed entry |
| PlanReview.SharedFileReadsOtherDraft | backend/services/plan_review.py:37-39 | because ids share files, reading "a_b" after "a/b" was seeded returns the draft whose id is "a/b" |
| PlanReview.SaveTwice | backend/services/plan_review.py:140-144 | writing a file twice leaves the second record |
| PlanReview.ReviewStore.Load | backend/services/plan_review.py:128-137 | loading returns the loaded record and stores it under the draft's file (a missing draft is seeded and written) |
| PlanReview.ReviewStore.GetDraft | backend/services/plan_review.py:163-168 | the response is that of the loaded record, and only the loaded draft's file is written |
| PlanReview.ReviewStore.PatchDraft | backend/services/plan_review.py:171-190 | the response is that of the patched record, which is what the draft's file holds afterwards; a missing draft is seeded at its own clock read, separate from the patch's |
| PlanReview.ReviewStore.ApproveDraft | backend/services/plan_review.py:193-214 | the response is that of the approved record, which replaces the draft's file; a missing draft is seeded at its own clock read |
| PlanReview.ReviewStore.RequestReparse | backend/services/plan_review.py:217-237 | the response is that of the re-parse record, which replaces the draft's file; a missing draft is seeded at its own clock read |
| PlanReview.PatchRecord | backend/services/plan_review.py:175-189 | the body of the patch computes the patched record, and the file is to be rewritten exactly when there were changes and one applied |
| PlanReview.Approve | backend/services/plan_review.py:196-212 | the body of the approval computes the approved record |
| PlanReview.RequestReparseOf | backend/services/plan_review.py:220-235 | the body of the re-parse request computes the re-parse record |
| AcademicPlan.LastIndex | backend/services/academic_plan.py:62 | the child a comprehension-built dict finds under a key is the last child with that key, and no child has the key when none is found |
| AcademicPlan.Step | backend/services/academic_plan.py:64-72 | one pass of the loop never shortens the children |
| AcademicPlan.Merge | backend/services/academic_plan.py:64-72 | the loop never shortens the children |
| AcademicPlan.Updated | backend/services/academic_plan.py:64-72 | the existing children, updated in place, are as many as before |
| AcademicPlan.MergeClosedForm | backend/services/academic_plan.py:64-72 | the loop leaves the existing children, updated in place, followed by one new child per incoming item whose key no existing child has |
| AcademicPlan.StepClosedForm | backend/services/academic_plan.py:66-72 | one pass overwrites the child the dict finds, or appends a new one, keeping the shape updated-then-created |
| AcademicPlan.SyncClosedForm | backend/services/academic_plan.py:61-74 | a synchronisation keeps the surviving existing children in their order, each found child overwritten by the incoming items with its key, then the new children in incoming order |
| AcademicPlan.SyncKeys | backend/services/academic_plan.py:61-74 | after a synchronisation the children's keys are exactly the incoming keys |
| AcademicPlan.SyncFromEmpty | backend/services/academic_plan.py:61-74 | synchronising into no children creates one child per incoming item, in order |
| AcademicPlan.NewKeyCount | backend/services/academic_plan.py:62-69 | the dict is built once before the loop, so an incoming key no existing child has gives one new child per occurrence |
| AcademicPlan.MergersKeepKeys | backend/services/academic_plan.py:64-104 | overwriting a resource, lesson or unit keeps its name or title |
| AcademicPlan.ResourceLastWins | backend/services/academic_plan.py:70-72 | a reused resource ends with the fields of the last incoming item with its name |
| AcademicPlan.ResourceSync | backend/services/academic_plan.py:61-74 | a surviving resource keeps its id and name, and the one the dict finds takes the fields of the last incoming item with its name; the names afterwards are exactly the incoming names |
| AcademicPlan.SynchroniseResources | backend/services/academic_plan.py:61-74 | the lesson's resources become their synchronisation with the incoming resources |
| AcademicPlan.MergeLesson | backend/services/academic_plan.py:80-88 | one pass of the lesson loop is one merge step |
| AcademicPlan.SynchroniseLessons | backend/services/academic_plan.py:77-90 | the unit's lessons become their synchronisation with the incoming lessons, resources included |
| AcademicPlan.MergeUnit | backend/services/academic_plan.py:96-104 | one pass of the unit loop is one merge step |
| AcademicPlan.SynchroniseUnits | backend/services/academic_plan.py:93-106 | the plan's units become their synchronisation with the incoming units, lessons included |
| AcademicPlan.UpdatePlan | backend/services/academic_plan.py:124-131 | the four plan fields are overwritten and the units synchronised |
| AcademicPlan.CreatePlan | backend/services/academic_plan.py:109-121 | a new plan for the teacher with the given fields and its units synchronised into an empty list |
| AcademicPlan.CreateYieldsData | backend/services/academic_plan.py:109-121 | a nested create yields exactly the units, lessons and resources given, in order, each new |
| AcademicPlan.SamplePlanCreated | backend/tests/test_models.py:78-89 | creating the sample plan gives two units; the first unit's first lesson has two resources, the first "Lesson Slides" of type slides |

## Left out

- HTTP wiring (routing, CORS, static files, uploads) is not modelled. Only the validation branches of the endpoints listed above are kept.
- SQLite and SQLAlchemy plumbing (connections, transactions, migrations) is not modelled. Tables are in-memory sequences.
- Three `ORDER BY` clauses can tie, and SQLite does not promise an order for ties. The model breaks those ties by id:
  - `TopicGeneration.ClassTopics` for `ORDER BY position` in `_fetch_topics`;
  - `TopicCalendar.ImpactedTopics` for `ORDER BY position` in `_fetch_topics_by_ids`;
  - `HolidaySuggestions.Overlapping` for `ORDER BY DATE(date)` in `backend/scheduler.py`.
  
  So the order of the ids `TriggerGeneration` returns, the order in which new content gets its ids, and the order of the suggestion ids follow that tie-break.
- The ZIP and XML reading of workbooks (`_read_shared_strings`, `_iter_sheet_manifest`) is left out. Sheets arrive as rows of cells, and shared strings as a list.
- The CSV tokenising of the `csv` module, and the quoting of the report CSV writer, are left out. Files arrive as lists of fields, and reports are produced as tables of fields.
- Python's `int()` is modelled on ASCII decimal text with optional sign and surrounding whitespace. Underscores and non-ASCII digits are not modelled.
- Float hours and `round(…, 2)` are left out. Hours are exact integers in hundredths, and their text is the shortest two-decimal form Python prints.
- The latin-1 encoding of the PDF is left out, and the timestamp line is a parameter. The PDF is modelled as a string, and its character count stands for its byte count. That holds only for text whose characters are all at most U+00FF.
- Reports.WritePdf, Reports.BuildPdfDocument, Reports.BuildTrimesterPdf, Reports.BuildTopicPdf: these always return a PDF. In the code, each object is encoded with a strict `.encode("latin-1")` (`backend/services/reports.py:290`). So a title, header or row holding a character above U+00FF (an emoji, a Greek letter, a curly quote) raises UnicodeEncodeError, and no PDF comes back. The stream's `/Length` is counted with `errors="replace"` (`backend/services/reports.py:271`), which would replace such a character rather than raise; but the strict encode of the object that holds the stream fails first.
- Wall-clock time (`datetime.now`, `utcnow`) is left out: timestamps are parameters, one per clock read. `threading.Lock` is left out too, since every operation is modelled as sequential.
- Two parameters stand for clock reads:
  - In `TopicGeneration.GenerateForTopics`, `clock(k)` is the read that stamps the k-th candidate's supersede entries.
  - In the `PlanReview.ReviewStore` actions, `seedTime` is the read that seeds a missing draft.
  
  The model does not require these reads to be ordered after earlier ones.
- The AI planner is an abstract function returning one output per input; its async execution is left out.
- Embeddings and the vector store are left out, and so are the PDF, DOCX and PPTX loader bodies. Loaders are a function parameter from (loader, path) to text.
- Reading and writing the review JSON files is modelled as a map from file name to record. JSON serialisation and the `history` default for a file without one are left out.
- PlanReview: JSON numbers are integers; floats are left out. Objects are compared as Python dicts, reading each key's first entry. JSON parsing never gives an object a repeated key.
- StoreGenerationResult: the planner's provenance is taken apart into its `model` (a string when present), its `history` list (entries shaped like the supersede entries) and its other keys (kept with their JSON text). A `model` key holding `null`, or a `history` that is not such a list, is not modelled.
- ClassApi.UpdateClass: requires the class ids in the table to be distinct, which the table's primary key guarantees.
- ClassApi.GenerateClassesEndpoint: requires `Valid()`, the primary-key invariant of the class table.
- ClassGenerator.GenerateClasses: requires `Valid()`, the primary-key invariant of the class table.
- HolidaySuggestions.RecomputeForHoliday: requires `Valid()`, the primary-key and UNIQUE (class, holiday) constraints of the suggestion table.
- TopicGeneration.GenerateForTopics, TopicGeneration.TriggerGeneration, TopicCalendar.AdjustCalendar and TopicCalendar.AdjustForHolidays: these require the planner to return one output per input, as the planner promises.
- The local `suggestions` list built in `recompute_for_holiday` is never returned, since the function returns a fresh query. It is not modelled.
- AcademicPlan: ORM objects are modelled as values, so an object's identity is its position in its parent's list.
  - `session.add`, `session.flush` and database-assigned ids are left out.
  - The teacher functions are left out.
  - The relationship ordering after a reload is left out.
- `ClassUpdate.ensure_any_field`, `PlanPayload` and `ensure_no_class_days_table` are not part of this model. Their shapes are taken from how they are used.
- `backend/services/plan_extractor.py` (regex and embedding heuristics with float confidence scores) is not part of this model. Neither is `backend/services/plan_repository.py` (a JSON file append with a uuid and a timestamp).
- ReadSheetRow, ParseXlsx and Parse use the corrected cell resolution `PlanParser.ResolveCell` (see "## Findings"). So, unlike the code as written, a negative shared-string index gives the raw text. It neither picks a string counted from the end of the list nor raises IndexError. `PlanParser.ResolveCellAsWritten` models the code as written.
- HolidaySuggestions.Overlaps, HolidaySuggestions.OverlapFilter, HolidaySuggestions.Overlapping: SQLite's `DATE(x)` is modelled by `HolidaySuggestions.SqliteDate` on text of exactly the form `YYYY-MM-DD`. Like SQLite, it takes any year 0000-9999, month 01-12 and day 01-31, and carries a day past the month's end into the next month. Any other text is NULL in the model. SQLite also accepts a time suffix, a leading `-` for years before 0000, Julian day numbers and other time-value forms; these are left out, so such a class is never found to overlap in the model.
- HolidaySuggestions.RecomputeForHoliday: the query reads the columns `date`, `topic` and `academic_year_id` of `classes` (`backend/scheduler.py:23-31`, lines 41, 44 and 68). The model's `YearClass` has exactly these. No schema in the repository has all three: `backend/database.py:153-159` defines `classes` with `name`, `scheduled_date` and `academic_year_id`, and there the query as written fails with "no such column: date". The class generator (`backend/services/scheduler.py:97-100`) writes `date` and `topic` into `classes` but no `academic_year_id`. The model follows the columns the query names, so a suggestion's text carries the class's `topic`, where the holiday test expects the `name` of the `backend/database.py` seed.
- HolidaySuggestions.ParseIso: `date.fromisoformat` is modelled as it behaves before Python 3.11, accepting only `YYYY-MM-DD`. The basic `YYYYMMDD` and week-date forms accepted from 3.11 on are left out.
- DocumentLoaders.Lower, DocumentLoaders.LowerAt, DocumentLoaders.SuffixUpToCase, DocumentLoaders.SupportedIgnoresCase, DocumentLoaders.LoadDocument: `str.lower()` is modelled on the ASCII letters `A`-`Z` only. Python lowers every Unicode capital, and a few into more than one character (`"İ".lower()` is two characters).
  - This changes only the text of the unsupported-document error. For `x.ÄBC` the code names `.äbc`, and the model names `.ÄBC`.
  - It does not change which files are supported. No non-ASCII capital lowers into any of `.pdf`, `.docx`, `.pptx`, `.txt`, `.md`: only U+0130 and U+212A lower into ASCII letters, giving `i̇` and `k`.
  - So "case" in SuffixUpToCase and SupportedIgnoresCase means ASCII case.
- DocumentLoaders.Suffix: `pathlib` normalisation of the path (a trailing `/`, repeated separators, `.` components) is left out. The suffix is taken from the text as given, so `notes.txt/` has no suffix in the model, while `Path("notes.txt/").suffix` is `.txt`.
- Pipeline.MetadataFor, Pipeline.IngestFiles: the `source` metadata is the path text as given. It stands for `str(Path(p))`, which `backend/pipeline.py:16` and `:36` store, and which would drop a repeated or trailing `/` and `./` components.
- PlanParser: a CSV row longer than its header puts a list under the key `None`, and stripping that list raises. The model keeps this as an error outcome. Whether it is intended is unclear, so it is not listed as a finding.
- PlanReview: the ids `a/b` and `a_b` share one draft file. This is modelled as the code does it, and `PlanReview.DraftFileCollision` and `PlanReview.SharedFileReadsOtherDraft` state it.

## Findings

| source | as written | input that shows it | evidently intended | confidence | as-written member | corrected member |
|---|---|---|---|---|---|---|
| backend/services/plan_parser.py:202-207 | the test `index < len(shared_strings)` lets a negative index through, and Python then counts it from the end of the list | a cell of type "s" with value "-1", with shared strings ["first", "second"], resolves to "second"; the value "-3" raises IndexError | an index inside the list picks its string; any other index gives the raw text | not executed | PlanParser.ResolveCellAsWritten (shown by PlanParser.NegativeSharedIndex) | PlanParser.ResolveCell |
