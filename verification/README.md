# Verified models of the classroom management system

This project models the parts of the classroom management system whose correctness
rests on code rather than on the database or a library, and proves what they keep on
every run or every input:

- **Room occupancy.** Bookings and course sessions live in two tables without an overlap
  constraint. `OccupancyProtocol` interleaves the SQL statements of the six operations
  that write them, with room locks, row locks, errors and lost commit acknowledgements;
  `OccupancySteps` and `OccupancyInvariant` prove that no room is double-booked,
  `OccupancyHistory` and `OccupancyProgress` what follows for bookings and for waiting, and
  `OccupancyAnswers` that every answer is true;
  `RoomStore` holds the operations as methods and ties both to one decision table;
  `Timetable`, `TimetableExport` and `OccupancyViews` hold the views that read the tables.
- **The SSE byte pipeline.** `Utf8` and `Sse` hold the server's frame printer and the
  mini-program's incremental decoder and frame splitter (section 3 of RFC 3629, section
  2.1 of RFC 2781, section 9.2 of the WHATWG HTML Standard); `SseCutOff` proves what a
  stream that breaks off has delivered, and `JsonEvents` what that means for the JSON objects
  the server emits (section 4 of RFC 8259).
- **The persistent queue.** `EventQueue` holds the gateway's FIFO with a snapshot swapped
  by rename, with failed writes and crashes at any step, as the outgoing side of
  at-least-once delivery (section 4.3.2 of MQTT 3.1.1).
- **Attendance.** `ScanProtocol` interleaves scans, closes and corrections, `ScanSteps` and
  `ScanHistory` prove what their runs keep, `ScanDeadline` what a deadline prevents and
  `ScanAnswers` that every answer is true; `CheckinStore` holds them as methods;
  `AttendanceTables`, `AttendanceCounts`, `AttendanceSummary` and `AttendanceRuns` hold the grouped counts, the per-student list and the semester matrix.
- **The assistant.** `ToolCalls` and `AgentLoop` hold the stream reader, the bounded tool
  loop and the choice of the terminal event, `AgentTurns` what a whole turn tells the model
  and the client, `Reassembly` the round trip of tool calls;
  `ListSampler` holds the byte-budgeted list results.
- **Two small algorithms.** `LikePattern` (literal-contains patterns, section 9.7.1 of the
  PostgreSQL manual) and `WrapText` (bounded line wrapping).

`dafny verify dfyconfig.toml` checks everything.

## How the program is modelled

- An SQL statement is one atomic step on the latest committed tables; a transaction keeps
  what it has read in its program counter and its uncommitted writes to itself. A statement
  that waits for a lock is not enabled. Tables are maps by primary key, or sequences of rows
  where row counts or insertion order matter.
- Query results that enter a method as parameters are constrained by a predicate that says
  what the query selects (`ListsSessions`, `GroupsByStatus`, ...); the order of rows is free
  unless the query orders them.
- Dates are day numbers and instants are seconds. Wall clock readings are parameters, or
  readings of one clock that never runs backwards.
- The active regime of a date, JSON encoding and decoding, broker, upstream model, tools and
  permissions are parameters: arbitrary functions, constrained only where a property says so.
- Bit masks and shifts are written as arithmetic. Text is a sequence of bytes, UTF-16 units
  or code points as in the code at hand.
- A queued entry carries a ticket, the number of its add call. No code reads it; it lets the
  properties tell equal frames apart.

## What turned out

- An approving review can report a conflict only if its own booking, pending when the review
  read it, has been cancelled or rejected by the time of the report
  (`ConflictMeansItDiedInBetween`); run alone it never does, and under a race it can
  (`ApproveCanConflictUnderARace`).
- A scan reads the clock twice, once for the expiry check and once for `checked_at`, and commits
  later still. So after the deadline of a checkin a record can still be inserted, exactly if some
  scan has passed its expiry check for a student without a record, and at most one
  (`InsertsAfterTheDeadlineIff`, `AtMostOneAfterTheDeadline`, `AnInsertCanFollowTheDeadline`). Its
  `checked_at` misses the deadline exactly if that scan has not read the clock again in time
  (`LateStampIff`, `AStampCanMissTheDeadline`).
- The comment on `ScanByCode` says that an expired checkin auto-closes. The UPDATE is followed by
  a return without a commit, so it is rolled back: a checkin is closed exactly if it was before or
  a close has been run (`OnlyACloseCloses`, `AnExpiredCheckinStaysOpen`).
- Calls that arrive whole come back as sent exactly if their indexes increase
  (`WholeCallsComeBackIff`). An upstream that leaves the index out gets parallel calls merged into
  one (`SharedIndexMerges`); the non-streaming fallback of `openai.go` produces this when the
  provider's message carries no index.
- The list sampler may keep one row that exceeds the budget (`OneHugeRowExceedsTheBudget`). If the
  added keys and the note fit the reserve, a result is within its budget unless the list does not
  fit as a whole and its first row exceeds half of what is left (`ResultWithinBudget`); in that case
  it is so exactly if the first row still fits with the keys (`WithinBudgetIff`, `SqueezedResult`).
- A connection that completes in the middle of a frame has its rest handled as a last frame. This
  delivers nothing wrong exactly if no beginning of an event's JSON text parses as something else
  (`FlushIsHarmlessIff`); a cut number would be misread (`ACutNumberIsMistaken`). The server never
  sends a bare number: the data of every event is an object, whose beginnings leave it open, so for
  what it does send the flush is harmless at every cut (`CutOffIsHarmless`).
- The counts of a checkin are read by several queries outside a transaction. If scans or corrections
  run in between, `absent` comes out too small by exactly the roster records they add
  (`CountsReadDuringARun`).
- A text that `truncate` cuts comes out longer than its limit, by 11 to 14 bytes if it is valid UTF-8
  (`TruncatedTextSize`). A list result is only cut in the one case above in which the sampler
  exceeds the budget (`ListReachesTheModelIff`).
- An add that reports an error has still queued its entry in memory (`AddShedsOnlyTheOldest` holds
  for every outcome).

## Model

| member | source | states |
|---|---|---|
| Occupancy.ClashMeansSharedPeriod | backend/internal/booking/store.go:372-403 | the range comparison of the conflict queries holds exactly if the two slots share a period |
| Occupancy.NonOverlapIffNoClash | backend/internal/booking/store.go:372-403 | no two occupants of a room share a period on a date iff no two clash under the queries' comparison |
| Occupancy.ConflictsSeesEveryOccupant | backend/internal/booking/store.go:372-403 | the two-statement check is true iff a session or an active booking other than the excluded one covers a period of the range |
| Occupancy.HitsAreClashes | backend/internal/course/sessions.go:311-342 | the session-side check with its exclusions finds exactly the clashing occupants |
| OccupancyInvariant.NeverDoubleBooked | backend/internal/booking/store.go:224-367 | from non-overlapping tables, after any interleaving of the statements of create, cancel, review, and creating, moving and deleting sessions, with errors and lost acknowledgements, no two occupants of a room share a period |
| OccupancyInvariant.EventKeepsInv | backend/internal/course/sessions.go:232-357 | every single statement, rollback or unacknowledged commit keeps non-overlap, the lock discipline and what each other transaction has already checked |
| OccupancyInvariant.RunKeepsInv | backend/internal/course/sessions.go:232-357 | every run keeps the whole invariant |
| OccupancyHistory.DeadBookingsStayDead | backend/internal/booking/store.go:265-367 | in every run bookings never vanish, move or change owner, a cancelled or rejected one never revives, an approved one stays approved or is cancelled |
| OccupancyHistory.ApproveConflictMeansBookingDied | backend/internal/booking/store.go:316-349 | at the moment when approve sees a conflict its booking is no longer pending or approved |
| OccupancyHistory.ConflictMeansItDiedInBetween | backend/internal/booking/store.go:302-349 | in every run, an approve that ends in a conflict read its booking as pending in its first statement and reports the conflict in a later one, at which moment the booking is cancelled or rejected |
| OccupancyHistory.ActiveBookingHasNoConflict | backend/internal/booking/store.go:372-403 | under non-overlap the check that excludes an active booking finds nothing in its slot |
| OccupancyHistory.TwoWinnersCannotBothStand | backend/internal/booking/store.go:224-261 | of two acknowledged creates with clashing slots at most one booking is still active |
| OccupancyAnswers.EveryAnswerIsTrue | backend/internal/booking/store.go:224-367 | in every run each of the six operations is answered truly by one of its own statements: on Ok the tables change there exactly by its own values, from a status it admits and by the owner or an administrator; every refusal has its reason in the tables at that moment and changes nothing |
| OccupancyAnswers.EventIsTrue | backend/internal/booking/store.go:224-367 | one statement, rollback or lost acknowledgement: the same for a transaction that ends, no change of the tables for one that goes on |
| OccupancyAnswers.OneReviewWins | backend/internal/booking/store.go:302-367 | of all approving and rejecting reviews of one booking at most one is told that it succeeded |
| OccupancyProgress.NeverDeadlocked | backend/internal/booking/store.go:231-257 | while a transaction is unfinished some statement is enabled, whatever locks are held |
| OccupancyProgress.CanAlwaysFinish | backend/internal/course/sessions.go:239-300 | from every reachable state the operations can all be run to their end without an abort |
| OccupancyProgress.EveryScheduleTerminates | backend/internal/course/sessions.go:239-300 | no schedule has more than five statements per operation, and an unfinished one can go on |
| RoomStore.Store.Create | backend/internal/booking/store.go:224-261 | creates a pending booking under a new id, or answers unknown room or conflict and changes nothing; non-overlap is kept |
| RoomStore.Store.Cancel | backend/internal/booking/store.go:265-299 | the answers not found, forbidden and invalid transition in that order, otherwise the booking becomes cancelled |
| RoomStore.Store.Review | backend/internal/booking/store.go:302-367 | approve or reject of a pending booking; run alone the re-check never refuses |
| RoomStore.Store.CreateSession | backend/internal/course/sessions.go:232-264 | inserts the session unless its room is unknown or its slot is occupied |
| RoomStore.Store.UpdateSession | backend/internal/course/sessions.go:268-306 | moves the session unless the target is occupied by something else or the session is unknown |
| RoomStore.Store.DeleteSession | backend/internal/course/sessions.go:344-357 | deletes the session or answers not found |
| RoomStore.ProtocolServesAlone | backend/internal/booking/store.go:224-367 | a lone run of the statement-level protocol gives the same answer and tables as the decision table of the methods, for all six operations |
| RoomStore.ApproveCanConflictUnderARace | backend/internal/booking/store.go:316-349 | a concrete run in which approve reports a conflict |
| Timetable.FillByDate | backend/internal/course/sessions.go:427-451 | the nested maps hold, per date and period, the last listed session or booking that covers it |
| Timetable.LastCoverIsLast | backend/internal/course/sessions.go:427-451 | the record they hold covers the date and period and none listed behind it does |
| Timetable.BuildTimetableDays | backend/internal/course/sessions.go:426-493 | one day per date, its slots those of the active regime in period order, each with the covering session and booking |
| Timetable.DayShowsPeriods | backend/internal/course/sessions.go:453-493 | a day has one slot per period of its regime, with its index and times, the session of that period, and its booking only without a session |
| Timetable.SlotShowsTheOccupant | backend/internal/course/sessions.go:426-493 | under non-overlap a slot shows a record iff that record covers it, whatever the order of the lists |
| Timetable.SlotFreeIffUncovered | backend/internal/course/sessions.go:426-493 | a slot is free iff nothing covers its period |
| Timetable.SortingSorts | backend/internal/course/sessions.go:426-493 | the slots of a day come out in period order, strictly if the indexes differ |
| Timetable.SortingKeepsElements | backend/internal/course/sessions.go:426-493 | sorting a day loses and adds no slot |
| OccupancyViews.ConflictsDetail | backend/internal/booking/store.go:423-480 | one item per selected session with its periods, then one per selected booking with its status and periods, in order |
| OccupancyViews.ListAvailable | backend/internal/classroom/store.go:226-262 | a page of the selected rooms together with their full number |
| OccupancyViews.GridFreeIffUncovered | backend/internal/course/sessions.go:426-493 | all slots of a range are free iff nothing covers a period of it |
| OccupancyViews.FourViewsAgree | backend/internal/booking/store.go:372-480 | no conflict iff the detail list is empty iff the room is offered as available iff every slot of the range is free |
| TimetableExport.UnionPeriods | backend/internal/course/timetable_export.go:30-50 | the sorted union of the days' periods, each index once |
| TimetableExport.WriteRow | backend/internal/course/timetable_export.go:152-215 | one grid row writes what the per-column skip counters allow and leaves the counters for the next row |
| TimetableExport.BuildTimetableGrid | backend/internal/course/timetable_export.go:30-215 | the writes of the whole grid, row by row |
| TimetableExport.SheetIsTiled | backend/internal/course/timetable_export.go:152-240 | every body cell is covered by exactly one write, and all merge ranges stay inside the body |
| TimetableExport.BlocksAreTheRecords | backend/internal/course/timetable_export.go:152-240 | every record that starts in a day is written, with its own range, and everything written is such a record or a free cell |
| TimetableExport.GridInOrder | backend/internal/course/timetable_export.go:152-215 | cells are written in sheet order, so none is written twice |
| TimetableExport.TimetableDayIsWellFormed | backend/internal/course/sessions.go:426-493 | the days built from non-overlapping tables meet the grid's preconditions |
| TimetableExport.UnionIsNumbered | backend/internal/course/timetable_export.go:36-50 | if each regime counts from 1 the union is 1 to the longest day |
| TimetableExport.ExportedTimetableIsTiled | backend/internal/course/timetable_export.go:30-240 | from non-overlapping tables to the sheet: every cell lies in one write, the blocks are exactly those of the sessions and active bookings of the room whose date is in the range and whose first period is in that date's regime, each in its column and rows, and every other write is a free cell |
| Utf8.Decoder.DecodeAppend | miniapp/utils/sse.ts:57-86 | returns the output of all complete sequences of the pending bytes plus the chunk, and keeps the rest pending |
| Utf8.ParseIsChunkInvariant | miniapp/utils/sse.ts:57-86 | for all byte strings, valid or not, splitting in two chunks changes neither the sequences nor the pending bytes |
| Utf8.DecodingIsChunkInvariant | miniapp/utils/sse.ts:57-86 | the same for the output, and at most 3 bytes are pending |
| Utf8.DecodeUndoesEncode | miniapp/utils/sse.ts:74-78 | the decoder's arithmetic inverts UTF-8 for every scalar value |
| Utf8.UnitsAreUtf16 | miniapp/utils/sse.ts:79-82 | the units put out for a code are its UTF-16 form |
| Utf8.DecodeValid | miniapp/utils/sse.ts:57-86 | on valid UTF-8 the output is the UTF-16 form of the text and nothing is pending |
| Utf8.StrayByteIsKept | miniapp/utils/sse.ts:57-86 | a byte no sequence starts with is put out as it is |
| Utf8.OnlyLowBitsCount | miniapp/utils/sse.ts:74-78 | continuation bytes are masked and never checked |
| Sse.ResponseWriter.Emit | backend/internal/ai/handler.go:119-128 | appends the encoded frame, or nothing if marshalling fails |
| Sse.FrameIs | backend/internal/ai/handler.go:124 | the text of a frame |
| Sse.StreamClient.HandleFrame | miniapp/utils/sse.ts:88-101 | delivers the event of a frame with a name, data and data that parses, and nothing otherwise |
| Sse.LastLineCounts | miniapp/utils/sse.ts:88-101 | the last event line names a frame, data lines count in order, other lines not at all |
| Sse.TrimMeans | miniapp/utils/sse.ts:92 | trimming takes away the white space at both ends and nothing else |
| Sse.JoinUndoesSplit | miniapp/utils/sse.ts:88-101 | splitting cuts at every line feed and joining undoes it |
| Sse.CrlfBecomesLf | miniapp/utils/sse.ts:103-105 | a carriage return goes away before a line feed and only there |
| Sse.StreamClient.ParseChunk | miniapp/utils/sse.ts:103-111 | cuts off all complete frames, delivers their events in order and keeps the rest |
| Sse.StreamClient.OnChunk | miniapp/utils/sse.ts:103-111 | one chunk takes the client's whole state through one step of the fold that the chunking properties are about |
| Sse.StreamClient.FlushResidual | miniapp/utils/sse.ts:113-118 | handles a non-blank rest as a last frame, in the same terms |
| Sse.FramingIsChunkInvariant | miniapp/utils/sse.ts:103-111 | cutting a text in two anywhere, also between the two newlines, gives the same frames and rest |
| Sse.ClientIsChunkInvariant | miniapp/utils/sse.ts:57-118 | on bytes without CR the client's whole state depends only on the concatenation of the chunks |
| Sse.FrameDelivers | miniapp/utils/sse.ts:88-101 | a printed frame is read back as its name and data |
| Sse.EveryChunkingDelivers | miniapp/utils/sse.ts:57-118 | for every list of printable events and every chunking of the emitted bytes the client delivers exactly those events, with an empty buffer and no pending bytes |
| SseCutOff.CutOffDeliversAPrefix | miniapp/utils/sse.ts:57-118 | when the connection is lost after any byte, a prefix of the events has been delivered |
| SseCutOff.FlushDeliversAPrefix | miniapp/utils/sse.ts:113-118 | so it is after the flush that follows completion, if no beginning of an event's JSON text parses as something else |
| SseCutOff.FlushIsHarmlessIff | miniapp/utils/sse.ts:88-118 | that condition is exact: if it fails for some event there is a cut after which the flush delivers a wrong event |
| SseCutOff.ACutNumberIsMistaken | miniapp/utils/sse.ts:88-118 | the condition is needed: an event whose data were the number 12 would be misread at some cut |
| JsonEvents.RenderedIsBalanced | backend/internal/ai/handler.go:119-128 | rendered JSON is one line that closes what it opens, whatever quotes, braces and escapes its strings hold, and an object is enclosed in its braces |
| JsonEvents.ObjectInOrder | backend/internal/ai/handler.go:119-128 | an object holds all its members in order, separated by commas |
| JsonEvents.EscapingReadsBack | backend/internal/ai/handler.go:119-128 | the inside of a rendered string stands for exactly its text |
| JsonEvents.BeginningsAreOpen | backend/internal/ai/handler.go:119-128 | a non-empty beginning of a rendered object leaves something open iff it is not the whole object |
| JsonEvents.EmittedAreDelivered | backend/internal/ai/handler.go:119-136 | for every list of emitted objects and every chunking of their bytes the client delivers exactly those events |
| JsonEvents.CutOffIsHarmless | miniapp/utils/sse.ts:57-118 | for every list of emitted objects and every byte at which the connection ends, what has been delivered is a prefix of the events, before and after the flush, if the parser refuses the empty text and objects left open |
| JsonEvents.SomeParserWillDo | miniapp/utils/sse.ts:88-101 | the two demands on the parser can be met together |
| EventQueue.Queue.constructor | iot/mqttc/queue.go:36-68 | loads the decodable lines of the snapshot in order; without a path the queue is empty and lives in memory |
| EventQueue.Queue.Persist | iot/mqttc/queue.go:117-145 | the outcome and the file for every failure or crash at every step: replaced as a whole or untouched, an error reported for each failed step, success exactly if all went well |
| EventQueue.Queue.Add | iot/mqttc/queue.go:71-81 | appends, trims the oldest beyond max and rewrites the snapshot; on a healthy disk it succeeds and the file holds the queue |
| EventQueue.Queue.Drain | iot/mqttc/queue.go:86-108 | publishes a prefix in order, stops at the first failure, keeps the rest including the failed frame and rewrites the snapshot, whose failure is not reported |
| EventQueue.LoadUndoesSave | iot/mqttc/queue.go:51-62 | reading a written snapshot gives the entries back |
| EventQueue.CorruptLineIsSkipped | iot/mqttc/queue.go:51-62 | a line that does not decode is skipped and the others are loaded |
| EventQueue.NothingAcknowledgedIsLost | iot/mqttc/client.go:229-254 | over every history of failed writes, crashes and restarts, an entry whose add returned nil was published, had max newer entries queued behind it at some add, or is queued in memory and on disk |
| EventQueue.ShedIsOverflow | iot/mqttc/queue.go:69-81 | over every history the entries shed are exactly those that had max or more newer entries queued behind them at some add |
| EventQueue.MemoryQueueKeepsUntilCrash | iot/mqttc/queue.go:34-44 | without a file the same holds until the first crash |
| EventQueue.DrainsFollowAddOrder | iot/mqttc/queue.go:86-108 | within one process life frames are drained in add order, before everything still queued |
| EventQueue.AddShedsOnlyTheOldest | iot/mqttc/queue.go:69-81 | an add leaves at most max entries, keeps its own, and drops only from the front and only when full |
| EventQueue.ReopenRestores | iot/mqttc/queue.go:117-145 | after a successful add a reopened queue holds exactly what the queue held |
| EventQueue.NextKeepsInv | iot/mqttc/queue.go:71-145 | every operation and every crash keeps the delivery and order invariant |
| AttendanceTables.RosterIsDistinct | backend/internal/attendance/store.go:344-350 | under the schema's unique constraints nobody is on a roster twice, and no offering means no roster |
| AttendanceTables.ListAgreesWithFastCount | backend/internal/attendance/store_records.go:77-105 | rows of the roster and extra branches with a status, counted, equal the fast form |
| AttendanceTables.RosterBranchShows | backend/internal/attendance/store_records.go:68-103 | the list has a row for every seat, not extra, with the recorded status or absent |
| AttendanceTables.ExtraBranchShows | backend/internal/attendance/store_records.go:68-103 | its extra rows are exactly the records of users outside the roster |
| AttendanceCounts.BackfillCounts | backend/internal/attendance/store.go:452-547 | the loops over grouped rows fill in, for every listed checkin, its status counts, roster size and derived absences, each query answered from the tables at its own moment |
| AttendanceCounts.CountsAtOnce | backend/internal/attendance/store.go:539-545 | when nothing changes between the queries these are the counts of one moment |
| AttendanceCounts.CountsAgreeWithList | backend/internal/attendance/store_records.go:77-105 | each status count of a checkin is the number of rows with that status in its list |
| AttendanceCounts.CountsAddUp | backend/internal/attendance/store.go:539-545 | present, late, absent and leave add up to expected plus the records outside the roster |
| AttendanceCounts.StandaloneListsItsRecords | backend/internal/attendance/store_records.go:66-76 | without an offering the list is exactly the records |
| AttendanceSummary.GroupByStudent | backend/internal/attendance/store_records.go:304-333 | the per-student maps hold exactly the recorded statuses |
| AttendanceSummary.OfferingSummary | backend/internal/attendance/store_records.go:199-351 | one row per roster student and per outside student with a record; its cells and totals are those of that student |
| AttendanceSummary.RosterTotalsAddUp | backend/internal/attendance/store_records.go:335-349 | the totals of a roster row add up to the number of checkins |
| AttendanceSummary.ColumnIsCount | backend/internal/attendance/store_records.go:335-349 | the cells of a checkin's column with a status are as many as its count |
| AttendanceSummary.RowsAndColumnsAgree | backend/internal/attendance/store_records.go:335-349 | a status adds up to the same over the rows' totals as over the checkins' counts |
| ScanSteps.EventKeepsInv | backend/internal/attendance/store.go:237-318 | every statement keeps: one row per key, lock holders' checkins open, no rival of an uncommitted row, instants in order |
| ScanHistory.OneRecordPerStudent | backend/internal/attendance/store.go:291-295 | after every interleaving there is at most one record per checkin and user |
| ScanHistory.RecordsAreKept | backend/internal/attendance/store_records.go:152-160 | a record stays with the checked_at of its insertion; its status is the inserted one until corrected, then the last correction, whatever scans do |
| ScanHistory.AddedRows | backend/internal/attendance/store.go:279-295 | a new row is that of one fresh scan, late exactly if more than 60 seconds for each minute of grace have passed since the start, or of a correction, which has no checked_at |
| ScanHistory.ClosedTakesNoScans | backend/internal/attendance/store.go:204-230 | after a close has committed no scan inserts a record and the checkin stays closed |
| ScanHistory.LateStaysLate | backend/internal/attendance/store.go:279-283 | once a fresh scan of a checkin is late all later ones are |
| ScanHistory.GraceIsInMinutes | backend/internal/attendance/store.go:279-283 | ten minutes of grace: second 600 is in time, second 601 late |
| ScanHistory.FreshScansPassTheirExpiryCheck | backend/internal/attendance/store.go:266-283 | in every run each fresh scan read the clock in time for its expiry check; its checked_at is a second reading |
| ScanHistory.AStampCanMissTheDeadline | backend/internal/attendance/store.go:266-283 | a concrete run with a record stamped after the deadline |
| ScanHistory.OnlyACloseCloses | backend/internal/attendance/store.go:204-276 | a checkin is open after a run iff it was before and the run has no close of it, whatever expired scans are refused |
| ScanHistory.AnExpiredCheckinStaysOpen | backend/internal/attendance/store.go:266-276 | a concrete run in which a scan is refused as expired and the checkin stays open |
| ScanDeadline.AtMostOneAfterTheDeadline | backend/internal/attendance/store.go:266-318 | after the deadline any run inserts at most one more record by a scan, and none unless some scan had passed its expiry check for a student without a record |
| ScanDeadline.InsertsAfterTheDeadlineIff | backend/internal/attendance/store.go:266-318 | a state past the deadline has a run with a further insert iff it holds such a scan |
| ScanDeadline.LateStampIff | backend/internal/attendance/store.go:266-318 | the record that it inserts is its student's, and its checked_at misses the deadline iff the clock had not been read again in time |
| ScanDeadline.AnInsertCanFollowTheDeadline | backend/internal/attendance/store.go:266-318 | a concrete run with a record stamped in time and inserted after the deadline |
| ScanAnswers.EveryScanAnswerIsTrue | backend/internal/attendance/store.go:237-318 | in every run a scan is answered truly by one of its own statements: recorded with the status its time calls for if its student had no record of the open checkin of its code, repeated if there was one, otherwise refused for the reason given; a refusal and a repeat change no record |
| CheckinStore.Store.ScanByCode | backend/internal/attendance/store.go:237-318 | each refusal exactly in its case; a new scan is late exactly if the minutes of grace have passed and adds its row; a repeated scan changes nothing and reports the stored status |
| CheckinStore.Store.CloseCheckin | backend/internal/attendance/store.go:206-230 | closes an open checkin, otherwise tells unknown from closed |
| CheckinStore.Store.UpsertRecord | backend/internal/attendance/store_records.go:140-162 | unknown checkin, unknown student, or the row of the key set or created and no other touched |
| CheckinStore.ProtocolServesAlone | backend/internal/attendance/store.go:237-318 | a lone scan of the protocol refuses or records as the method does |
| AttendanceRuns.CountsAgreeAfterAnyRun | backend/internal/attendance/store.go:452-547 | after every interleaving of scans, closes and corrections the counts agree with the list and add up |
| AttendanceRuns.CountsReadDuringARun | backend/internal/attendance/store.go:452-547 | when a run goes on between the queries, the counts fall short of roster plus outside records by exactly the roster records it adds, and only absent differs from the list |
| ToolCalls.ConsumeStream | backend/internal/ai/agent.go:369-456 | relays all that was heard before the stream stopped; succeeds iff the stream ended properly, with the text, the reasoning and the calls heard; otherwise the failure of each ending |
| ToolCalls.HeardUntilTheEnd | backend/internal/ai/agent.go:398-456 | heard are all choices up to the first arrival that is neither a chunk nor keep-alive traffic, which is the ending |
| ToolCalls.HeardInOrder | backend/internal/ai/agent.go:424-452 | text, reasoning and fragments are those of the choices heard, in order |
| ToolCalls.RelayedInOrder | backend/internal/ai/agent.go:424-435 | of each choice the reasoning is emitted before the content, and empty ones are not |
| ToolCalls.FinishRound | backend/internal/ai/agent.go:459-473 | every accumulated call once, by increasing index |
| Reassembly.MergedIsReassembled | backend/internal/ai/agent.go:436-452 | each call depends on the fragments of its own index alone: the last id, type and name given and the arguments in order |
| Reassembly.FragmentationInvariance | backend/internal/ai/agent.go:436-473 | fragment streams that stand for the same calls give the same list |
| Reassembly.EveryFragmentationIsReassembled | backend/internal/ai/agent.go:436-473 | calls with increasing indexes, sent in whatever fragments and interleaving, come back as sent |
| Reassembly.HeadsAndPiecesAreReassembled | backend/internal/ai/agent.go:436-473 | so do calls whose first fragment carries id, type and name and whose others carry pieces of the arguments |
| Reassembly.WholeCallsComeBackIff | backend/internal/ai/openai.go:256-281 | calls that arrive whole come back as sent iff their indexes increase |
| Reassembly.SharedIndexMerges | backend/internal/ai/openai.go:256-281 | any number of calls under one index come back as one, with the last id, type and name given and all arguments in order |
| ToolCalls.RelayedIsWhatWasRead | backend/internal/ai/agent.go:424-435 | the emitted delta and thinking events concatenate to the kept text and reasoning |
| AgentLoop.Turn.ExecuteTool | backend/internal/ai/agent.go:478-515 | the permission gate, the events of a call and its answer |
| AgentLoop.Turn.RunRounds | backend/internal/ai/agent.go:252-307 | the requests and everything emitted follow from what the model said and the tools answered in each round, and the turn ends as its last stream, request or first broken tool says |
| AgentTurns.LaterRequestsCarryResults | backend/internal/ai/agent.go:268-291 | every later request holds, behind what the request of a round held, the reasoning and calls of that round as streamed and for each call the result of its tool or its denial |
| AgentTurns.FirstAndLastRequest | backend/internal/ai/agent.go:252-318 | the first request is the given one; the eighth ends in the note and has no tools |
| AgentTurns.WhyItEnds | backend/internal/ai/agent.go:252-307 | the verdict of a turn with fewer than seven answered rounds |
| AgentTurns.WhyAFullTurnEnds | backend/internal/ai/agent.go:295-334 | the verdict of a turn with seven answered rounds |
| AgentTurns.LogIsShownInOrder | backend/internal/ai/agent.go:252-307 | the client sees each answered round as the text and reasoning of its stream and then its calls, in order |
| AgentTurns.CallIsShown | backend/internal/ai/agent.go:276-515 | the events of a call that is denied, breaks, or runs, with its proposal |
| AgentLoop.TurnIsTerminated | backend/internal/ai/agent.go:252-334 | a turn emits exactly one done, last, iff it is nil, and no error |
| AgentLoop.Turn.FinalAnswer | backend/internal/ai/agent.go:313-334 | one request without tools and with the note; nil iff its stream ends properly with text or without calls, otherwise the failure met |
| AgentLoop.Turn.Chat | backend/internal/ai/handler.go:100-136 | once streaming, the client gets everything the turn emits and exactly one terminal event, last: done on success, error with the failure otherwise, none only for a cancelled turn whose client has gone; before streaming nothing is emitted |
| AgentLoop.RequestsAreWellFormed | backend/internal/ai/agent.go:252-334 | at most eight requests, only the eighth without tools, and in each every assistant message with calls is followed at once by one tool message per call, same ids, same order |
| AgentLoop.RequestsOnlyGrow | backend/internal/ai/agent.go:252-334 | each request repeats the whole transcript before it |
| ListSampler.SampleBothEnds | backend/internal/ai/agent.go:989-1014 | the longest prefix within half of the budget and the longest disjoint suffix within the rest, or the first row alone |
| ListSampler.SumListBytes | backend/internal/ai/agent.go:1017-1023 | the sum of sizes and separators |
| ListSampler.SampleIsUnique | backend/internal/ai/agent.go:989-1014 | the two ends of a greedy sample are determined |
| ListSampler.SampleFitsAndShrinks | backend/internal/ai/agent.go:989-1014 | a sample of an over-budget list fits and drops a row |
| ListSampler.MarshalToolListBudget | backend/internal/ai/agent.go:959-985 | the rendered envelope with the rows kept for the remaining budget |
| ListSampler.ListSays | backend/internal/ai/agent.go:976-985 | read back, the result holds the kept rows under its key, the number of matches and of shown rows as decimal numbers, and on an incomplete list the mark and the note |
| ListSampler.RowAt | backend/internal/ai/agent.go:976-985 | the array text holds the kept rows whole and in order, separated by commas |
| ListSampler.FieldAt | backend/internal/ai/agent.go:976-985 | the object text holds its fields whole and in order, separated by commas |
| ListSampler.KeptRowsFit | backend/internal/ai/agent.go:959-1014 | a non-empty list keeps a row, and the kept rows fit or are the first row alone |
| ListSampler.RenderedSize | backend/internal/ai/agent.go:959-985 | the exact byte size of a list result |
| ListSampler.ResultWithinBudget | backend/internal/ai/agent.go:38-51 | if the added keys and note fit the reserve, the result is within its budget when the list fits as a whole or its first row fits half of what is left |
| ListSampler.SqueezedResult | backend/internal/ai/agent.go:989-1014 | the exact size in the remaining case, whatever the keys and the note need |
| ListSampler.WithinBudgetIff | backend/internal/ai/agent.go:959-1014 | for all inputs whose added keys and note fit the reserve: within budget iff a list in the remaining case still fits with its first row alone |
| ListSampler.OneHugeRowExceedsTheBudget | backend/internal/ai/agent.go:989-1014 | a single row of 13000 bytes is kept and exceeds the default budget |
| ListSampler.Truncate | backend/internal/ai/agent.go:915-930 | cuts at the last sequence start within max, or not at all; at most 14 bytes over max |
| ListSampler.TruncationKeepsCharacters | backend/internal/ai/agent.go:915-930 | valid text keeps the longest run of whole characters within max bytes |
| ListSampler.TruncatedTextSize | backend/internal/ai/agent.go:915-930 | a valid text that is cut ends up 11 to 14 bytes longer than max |
| ListSampler.CappedToolList | backend/internal/ai/agent.go:507-514 | a list tool followed by the cap on its result: at most 14 bytes over the budget |
| ListSampler.ListReachesTheModelIff | backend/internal/ai/agent.go:953-1014 | through the cap, a list result reaches the model as the object it was rendered as iff it is not a squeezed one whose first row does not fit |
| LikePattern.ThreePassesAreOne | backend/internal/dbutil/pagination.go:39-50 | the three replace passes are one per-character escape |
| LikePattern.PatternMeansContains | backend/internal/dbutil/pagination.go:39-55 | the pattern of an escaped term matches a text iff the text contains the term literally |
| WrapText.LimitWidths | backend/internal/docx/fill.go:36-50 | the explicit widths, or maxCharsPerLine for each of maxLines lines, or none |
| WrapText.UniformLimitIsKept | backend/internal/docx/fill.go:36-96 | with a limit of so many lines of so many characters the output has no more and none is longer |
| WrapText.WrapTextToLines | backend/internal/docx/fill.go:56-96 | the wrapped source lines, or the text itself without a usable limit |
| WrapText.SplitMeansSourceLines | backend/internal/docx/fill.go:65-68 | normalising and splitting cuts at every line end, CRLF counting once |
| WrapText.WrapIsBoundedAndFaithful | backend/internal/docx/fill.go:56-96 | at most one line per width, together a prefix of the newline-free text, all of it if a width is left over |
| WrapText.WrapIsGreedy | backend/internal/docx/fill.go:72-91 | with positive widths every line is within its width, no line runs over a source line end, and a line is short only at the end of a source line |

## Left out

- HTTP routing, authentication, database drivers, the MQTT client library, spreadsheet styling, document zipping and logging: I/O and foreign code.
- Importers and the deletion of rooms: the set of rooms is fixed and the initial tables do not overlap.
- Reading a record back for the response after a commit, and the notes, purposes and labels of records: they do not take part in the properties.
- The active regime and the schedule tables: a function from dates to regimes; that periods count from 1 without gaps is a precondition of the grid results, documented but not enforced by the code.
- The room filter of the session list: the model covers the timetable, which always names a room.
- Frame splitting on streams with a carriage return: CRLF is normalised per chunk, so invariance is stated for bytes without CR, which is all that the printer writes for names and JSON without CR.
- The retry and abort logic around the SSE client: only the byte pipeline is modelled.
- Sse.EveryChunkingDelivers: event names are non-empty, without line ends or surrounding space, and JSON texts are non-empty, on one line and not starting with a space; `JsonEvents` proves this of the names and objects that the server emits.
- JsonEvents.CutOffIsHarmless: the JSON parser is a parameter; that it refuses the empty text and objects left open is assumed. Values that cannot be marshalled drop their event.
- Power loss in the queue: a crash ends the process, not the disk; the code does not call fsync. A rename is atomic.
- Queue lines beyond the scanner's limit of 1 MiB and a buffer file that cannot be opened: both make openQueue fail.
- Retained-state replay, command handling and the payload formats of the gateway.
- Creating checkins: the protocol runs over a fixed set of checkins; the retry on a code collision adds nothing to the properties.
- The roster test of a scan and the read-back of a correction: both only read.
- Counts in checkin lists: the paged list never fills them in, so count properties are about the single view.
- AttendanceSummary.OfferingSummary: its four queries are taken at one instant, while the code runs them one after the other outside a transaction; the order of extra rows is free.
- AttendanceRuns.CountsReadDuringARun: rosters do not change between the queries.
- Chunk parsing of the upstream's own event stream and the two timers: a stream is a sequence of arrivals in the order the loop picks them up; one that falls silent ends with the idle timer.
- The arguments and counts carried by tool events, and proposal payloads: events carry id, name and status.
- ListSampler.MarshalToolListBudget: envelope keys are assumed different from the added ones, and fields are rendered in the order they were added; the encoder sorts them, which does not change the size.
- Case folding of ILIKE: a parameter applied to single characters; a pattern that ends in a lone backslash matches nothing instead of raising an error, which escaped terms never contain.
- Text in invalid UTF-8 in the line wrapper: text is a sequence of code points.
- Roles, settings, dashboards, simulators and the web console: each stores, filters or shows rows one at a time, with no rule that spans operations.
