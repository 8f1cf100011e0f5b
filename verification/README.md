# Room booking and timetable bot: a verified model

This project models the parts of the university room booking system in which correctness is not
visible in any single function, and proves what they promise: bookings made by racing requests,
the import of the university timetable, the lock that lets one replica import, the timetable bot's
parallel filler, its account binding and its homework texts.

| file | what it models |
|---|---|
| Text.dfy, RoomNames.dfy | trimming and searching strings; room names split in two layers |
| BookingDomain.dfy, BookingStore.dfy, ScheduleImport.dfy | roles, the booking tables with their constraints, the import transaction, and what it means once ids are taken away |
| BookingStoreClass.dfy | the store as a class whose fields its methods reassign, on connections that may be cut |
| BookingService.dfy, BookingEvents.dfy, BookingConflicts.dfy | create, cancel and import as interleaved steps: invariants, event history, races |
| BookingAnswers.dfy | what the answers to requests say over runs: whose a booking is, who may cancel |
| BookingServiceClass.dfy | the service as a class; each method equals the uninterrupted steps |
| ImportLock.dfy, StartupImport.dfy | replicas around the import lock; one replica's retry loop and status |
| Calendar.dfy, WeekParity.dfy, ParserService.dfy | week numbers, parity over stretches of weeks, lessons into dated slots, and the whole run |
| WorkerPool.dfy | producer, workers, job channel, one-slot error channel, cancellation |
| TimetableView.dfy, TimetableFill.dfy, ParallelFill.dfy | what a fill means, the tables with their row numbers, and the pool at work on them |
| UserIds.dfy, AccountRows.dfy, Accounts.dfy, UserRepoClass.dfy | made-up ids and logins; binding of users to student and teacher rows |
| Homework.dfy | homework texts and their edits |

How it is built. A transaction or a single statement is one atomic step. Concurrent parts are state
machines with a total step function (an action that is not possible changes nothing); a run is any
sequence of actions, and the theorems quantify over all of them. Code that updates state is a class
or a method with loops, proved equal to a specification function, and the theorems are about that
function. What each operation answers and writes is stated a second time without those functions: in
its arguments and the columns of the tables (the members named "in columns" or "in words", and the
last clauses of the methods). Generated row numbers are kept in the tables and taken away by a view
where a statement is "up to ids"; a sequence value is used up even by an insert that conflicts or is
rolled back. Instants are whole minutes for the parser and unspecified whole numbers for bookings.

Findings worth knowing:

- The import can lose its mutual exclusion exactly while a replica is inside on a lost lock connection
  (`ImportLock.TwoInsideIffLost`); the booking table still keeps its constraints then.
- A replica cancelled before it holds the lock, while it waits or while an attempt is under way, goes on
  reporting "running" (`StartupImport.CancelledKeepsRunning`).
- The service takes a write whose reply was lost for failed: the booking is held, or gone, with no event
  (`BookingEvents.LostReplyHidesBooking`). An import whose COMMIT loses its reply reports a failure and has loaded.
- The two layers that split room names disagree on names made of white space only, when no building is given.
  No run of the import gets there: the parser service always hands over a building (`RoomNames.SecondPassIsIdentity`).
- Two edits of a text are the last one alone only if the text has a colon or the first edit brought none. Every
  homework the bot gives out has a colon (`Homework.EditsKeepPrefix`); a subject with a colon of its own is kept only
  up to that colon.
- Student and teacher placeholders meet once teacher numbers pass those of students by 10^14. A user id that is
  itself a placeholder, which Telegram never gives out, can be in both tables at once (`Accounts.StudentLoginSharesIff`).
- A lesson of odd weeks gets half of the weeks ahead, rounded down, or one more, for every start up to 262 weeks. Of
  more weeks, which the configuration accepts, it can get too many, as of 263 from some starts; the exact condition
  for every start and number of weeks is `ParserService.AlternatingLessonExact`.
- If a new teacher's made-up id is that of another new teacher, or is held by one already there, the fill fails in
  every order of the groups.

## Model

| member | source | states |
|---|---|---|
| BookingDomain.CancelPowerOrder | internal/core/booking/domain/role.go:18-54 | power to cancel is transitive, needs two known roles, holds one way or the other between different known roles, and holds both ways only between two admins |
| BookingDomain.CancelPowerTable | internal/core/booking/domain/role.go:18-54 | the roles that are known, and role by role whom each may cancel: student_b below student_m below student_a below teacher, and admin everybody |
| BookingDomain.OverlapsIsIntersection | internal/core/booking/service/service.go:186-188 | for proper ranges the overlap test holds if and only if the half-open ranges share an instant, which is what the exclusion constraint forbids |
| BookingStore.InsertBooking | migrations/booking/00002_init_bookings.sql:5-21 | an INSERT succeeds exactly when its text has no NUL character and every CHECK, the foreign key and the exclusion constraint allow it; it adds one row under the next id, and a constraint that refuses it has still used that id up |
| BookingStore.InsertInColumns | migrations/booking/00002_init_bookings.sql:5-21 | the exact condition of each answer to an INSERT, in the columns of the row and of the table: stored, invalid time range, conflict, or another failure |
| BookingStore.Cleared | internal/adapter/booking/postgres/store.go:188-208 | the two DELETEs remove exactly the parser's rows and leave every room that a booking still needs, whichever rooms else they drop |
| BookingStore.ClearedInColumns | internal/adapter/booking/postgres/store.go:188-208 | exactly which bookings and rooms the two DELETEs take, column by column: user 0 with role admin; unused rooms that are one of three samples or, in the university's own building, end in a parenthesis |
| BookingStore.UpsertRoom | internal/adapter/booking/postgres/store.go:361-374 | the upserted room is there under one id, no other room changes, bookings are untouched, and the constraints still hold |
| BookingStore.UpsertInColumns | internal/adapter/booking/postgres/store.go:361-374 | the row written has the given name, building and capacity, under the id of the row of that name and building or the next new one |
| BookingStore.SlotRoomOk | internal/adapter/booking/postgres/store.go:230-246 | the room a slot is booked into, remembered or upserted late, has the slot's own name and building |
| BookingStore.ReplaceOk | internal/adapter/booking/postgres/store.go:181-270 | the import transaction ends in tables that satisfy every constraint and in remembered ids that name the right rooms |
| ScheduleImport.GreedyIsStored | internal/adapter/booking/postgres/store.go:228-262 | the running first-come-first-served load equals the declarative choice: a slot is stored if and only if it clashes with no kept row and no earlier stored slot |
| ScheduleImport.SkippedHasWitness | internal/adapter/booking/postgres/store.go:248-262 | every slot left out clashes with some row of the final timetable |
| ScheduleImport.RowsApart | migrations/booking/00002_init_bookings.sql:17-20 | no two bookings give the same row of the timetable as a reader sees it |
| ScheduleImport.TakenIsBlocked | migrations/booking/00002_init_bookings.sql:17-20 | the exclusion constraint on room ids is the clash on room names |
| ScheduleImport.ImportIsGreedy | internal/adapter/booking/postgres/store.go:181-270 | a committed import is exactly the rows that are not the parser's plus the greedy choice of the slots, and its counters add up |
| ScheduleImport.ImportKeepsOthers | internal/adapter/booking/postgres/store.go:187-264 | a committed import neither touches nor renumbers a booking that is not the parser's; every row it adds is the parser's under a new id |
| ScheduleImport.OthersUntouched | internal/adapter/booking/postgres/store.go:187-264 | the same in columns: a row stays as it is under its id unless its user is 0 and its role admin; those are all taken away, and new rows are of that user and role, under new ids |
| ScheduleImport.RowFromSlot | internal/adapter/booking/postgres/store.go:228-262 | after an import each parser's row has the room name, building, times and details of some slot that was handed over |
| ScheduleImport.SlotStoredOrTaken | internal/adapter/booking/postgres/store.go:228-262 | after an import each slot's room is taken at some of the slot's time |
| ScheduleImport.FreeSlotStored | internal/adapter/booking/postgres/store.go:228-262 | a slot that shares no time with a row kept or with an earlier slot of its room is stored as it is |
| ScheduleImport.RoomsListed | internal/adapter/booking/postgres/store.go:211-226 | every room listed is in the table after an import |
| ScheduleImport.ImportSucceedsIff | internal/adapter/booking/postgres/store.go:181-270 | whether the import commits depends on the inputs alone: it does if and only if every listed room is storable and each slot has storable text, a proper time and a listed or storable room |
| ScheduleImport.ImportForgetsPast | internal/adapter/booking/postgres/store.go:188-263 | up to ids the outcome, the timetable and the counters depend only on the inputs and the rows that are not the parser's, not on what was imported before |
| ScheduleImport.ImportTwiceIsOnce | internal/adapter/booking/postgres/store.go:187-264 | importing the same input again succeeds and leaves the same timetable |
| BookingStoreClass.Store.ListByRoomID | internal/adapter/booking/postgres/store.go:63-85 | all bookings of the room, each once, ordered by start and id |
| BookingStoreClass.ListingIsChronological | internal/adapter/booking/postgres/store.go:63-85 | under the constraints each booking of a listing ends before the next one starts |
| BookingStoreClass.Store.Create | internal/adapter/booking/postgres/store.go:128-152 | one row more under a fresh id, or the right error and no change |
| BookingStoreClass.Store.DeleteByID | internal/adapter/booking/postgres/store.go:154-163 | removes exactly that row, or reports that there is none; every other row stays |
| BookingStoreClass.Store.HasParsed | internal/adapter/booking/postgres/store.go:165-179 | true exactly when some row has user 0 and role admin |
| BookingStoreClass.Store.UpsertParsedRoom | internal/adapter/booking/postgres/store.go:361-374 | the statement on the fields is the specified upsert; it is refused exactly for a NUL character or a capacity that is not a positive 32-bit number |
| BookingStoreClass.Store.LoadSelectors | internal/adapter/booking/postgres/store.go:211-226 | the first loop computes the specified fold over the selectors, or the connection was lost or a room refused |
| BookingStoreClass.Store.LoadOne | internal/adapter/booking/postgres/store.go:228-262 | the body of the second loop is one specified load step |
| BookingStoreClass.Store.LoadScheduled | internal/adapter/booking/postgres/store.go:228-262 | the second loop computes the specified fold over the slots, or the connection was cut or a statement refused |
| BookingStoreClass.Store.ReplaceParsedSchedule | internal/adapter/booking/postgres/store.go:181-270 | all or nothing on a connection cut after any number of statements, the COMMIT among them: either the whole specified result or the tables as before; an error leaves that open only if the reply to the COMMIT was lost. In columns: everybody else's rows stay under their ids, each parser's row is a slot's, each slot that is in nobody's way has its row, each other one a row in its way, and each room listed is there |
| BookingStoreClass.NamedInWords | internal/adapter/booking/postgres/store.go:376-396 | what normalisation puts in where a name, a building or a capacity is missing, and that it leaves times, details and what is given alone |
| BookingService.RunKeepsInv | internal/core/booking/service/service.go:89-175 | in every state of every interleaving of create, cancel and import steps, no two bookings of a room overlap, every row is within the CHECKs and has its room |
| BookingService.RunKeepsSchema | migrations/booking/00002_init_bookings.sql:5-21 | the same in columns: of two bookings of one room one ends before the other starts, over every run |
| BookingService.IdsNeverReused | internal/adapter/booking/postgres/store.go:128-152 | over a run a row never changes under its id, and an id given out never names another row |
| BookingService.StepDisappearance | internal/core/booking/service/service.go:138-155 | a row that is not the parser's leaves the table in a step only if that step is the DELETE of a cancel request authorised for this very row |
| BookingService.DisappearsOnlyByCancel | internal/core/booking/service/service.go:138-155 | over every run a booking that is not the parser's disappears only by a cancel of its owner, an admin, or a known role ranked above its creator; the row deleted is the row authorised |
| BookingAnswers.CreatedIsOwn | internal/core/booking/service/service.go:113-133 | over every run the row and the event behind an answered create carry the room, the times, the id and the role of the request that was answered, and no details |
| BookingAnswers.DeletedWasCancellable | internal/core/booking/service/service.go:138-155 | over every run what a cancel deletes was the caller's own, or the caller is admin, or the caller's role is above the creator's in the order written out |
| BookingAnswers.CancelGoesThrough | internal/core/booking/service/service.go:138-175 | from any state a caller so entitled whose cancel nothing comes between is answered with success; that row and no other is gone, and the event says who cancelled what |
| BookingAnswers.ForbiddenIsReal | internal/core/booking/service/service.go:138-151 | over every run a cancel is answered forbidden only to an unknown role or to a caller not so entitled to the row as it was in the table |
| BookingEvents.RunKeepsBooks | internal/core/booking/service/service.go:124-172 | in every run, lost replies included, the bookings held are those written and not deleted, where every write and deletion is published, about to be, or one whose reply was lost, and only one of these |
| BookingEvents.CancelledAtMostOnce | internal/core/booking/service/service.go:153-172 | in every run whatsoever no booking is reported cancelled twice |
| BookingEvents.HistoryAccountsForBookings | internal/core/booking/service/service.go:124-172 | once nothing is in flight the bookings held that are not the parser's are exactly those created, by event or by an INSERT whose reply was lost, and not cancelled, by event or by a DELETE whose reply was lost |
| BookingEvents.EventsTellIff | internal/core/booking/service/service.go:113-133 | the events alone account for the bookings held if and only if each booking of a lost INSERT is gone again and each of a lost DELETE had lost its INSERT, too |
| BookingEvents.EventsAccountForBookings | internal/core/booking/service/service.go:124-172 | with no reply lost, a booking that is not the parser's is held if and only if its created event is published and no cancelled event of it is |
| BookingEvents.LostReplyHidesBooking | internal/core/booking/service/service.go:113-122 | the failing input: a create whose INSERT loses its reply is answered with a failure, published nowhere, and held |
| BookingConflicts.ListWasRead | internal/core/booking/service/service.go:97-101 | the list a request checks was the table's content in some state of that request |
| BookingConflicts.ConflictIsReal | internal/core/booking/service/service.go:102-122 | a conflict answer implies a state of the request in which an overlapping booking was stored |
| BookingConflicts.RunKeepsRace | internal/core/booking/service/service.go:89-136 | while requests race for one interval, every booking in the way is the racers' own and belongs to one of them |
| BookingConflicts.ExactlyOneWins | internal/core/booking/service/service.go:89-136 | among any number of creates for one free interval exactly one is answered with its booking, which is stored; all others are told conflict |
| BookingServiceClass.Service.CreateBooking | internal/core/booking/service/service.go:89-136 | the exact condition of each answer in the arguments and the old tables; on success one new row with the room, the caller's id and role and the times, no details, and its event; else nothing changes. The method equals the machine's steps when nothing comes between them |
| BookingServiceClass.Service.CancelBooking | internal/core/booking/service/service.go:138-175 | success exactly for a known role and a booking there that is the caller's own, or that an admin or a role above the creator's cancels; the exact conditions of not found and forbidden; the row gone and no other, and the event. The method equals the machine's steps when nothing comes between them |
| BookingServiceClass.Service.GetRoomSchedule | internal/core/booking/service/service.go:57-79 | one item for every booking of the room, in order of time, with its times, teacher, groups and the text shown for its subject and type; or room not found |
| ImportLock.RunKeepsInv | internal/adapter/booking/postgres/import_lock.go:15-38 | over every run the lock is held by exactly the replica that is inside on a live connection, and the booking table keeps its constraints |
| ImportLock.MutualExclusion | internal/adapter/booking/postgres/import_lock.go:15-38 | of two replicas inside at once at least one has lost its lock connection |
| ImportLock.LostConnectionAdmitsTwo | internal/adapter/booking/postgres/import_lock.go:15-38 | in whatever state a replica is inside on a lost connection, another is inside already or can be, with the first still inside |
| ImportLock.TwoInsideIffLost | internal/adapter/booking/postgres/import_lock.go:15-38 | from any state and with no further connection lost, two replicas can come to be inside at once if and only if some replica is inside on a lost connection now |
| ImportLock.TwoCanImport | internal/adapter/booking/postgres/import_lock.go:15-38 | it reaches as far as two replicas importing at once |
| ImportLock.ImportedOnce | cmd/booking/main.go:117-157 | with no lock connection lost, once an import has stored a row and while a parsed row is left, nobody imports again |
| StartupImport.AwaitLock | internal/adapter/booking/postgres/import_lock.go:15-38 | the retry loop enters, gives up with an error, or still waits, each exactly by the first attempt that is not a refusal waited out |
| StartupImport.ImportStatusTracker.Inside | cmd/booking/main.go:121-157 | under the lock: skip if a schedule is there, else import, with the status that goes with each result |
| StartupImport.ImportStatusTracker.Start | cmd/booking/main.go:110-169 | the exact condition of each status left: ready if inside a schedule was found or loaded and the lock's transaction did not fail other than by cancellation; running if still waiting, or cancelled while waiting or while a lock attempt was under way; failed in all other cases, with that error |
| StartupImport.CancelledKeepsRunning | cmd/booking/main.go:160-164 | after any number of refusals both ways of being cancelled before the lock is held leave running |
| RoomNames.RoomKeyInjective | internal/adapter/booking/postgres/store.go:412-414 | the key of a storable room is the key of no other pair of strings |
| RoomNames.ParenthesesInWords | internal/core/parser/service/service.go:245-253 | the text before the last opening and between it and the last closing parenthesis, both trimmed, unless one of them is blank |
| RoomNames.NoParentheses | internal/core/parser/service/service.go:245-253 | a text with no opening parenthesis, or none closed after the last one, is not split |
| RoomNames.PlainName | internal/core/parser/service/service.go:237-254 | a name with no parenthesis is trimmed and gets the default building; a blank one becomes unknown |
| RoomNames.StoreDefaults | internal/adapter/booking/postgres/store.go:376-396 | the store's stand-ins: unknown, the university's building, 30 seats |
| RoomNames.PrintedRoundTrip | internal/core/parser/service/service.go:237-254 | printing name and building and splitting again gives both back if and only if the building has no opening parenthesis |
| RoomNames.SecondPassIsIdentity | internal/adapter/booking/postgres/store.go:376-396 | the store's normalisation changes nothing the parser service has normalised |
| RoomNames.NormalizeParsedRoomIdempotent | internal/adapter/booking/postgres/store.go:376-396 | normalising twice is normalising once |
| RoomNames.LayersAgree | internal/adapter/booking/postgres/store.go:376-410 | given no building, the store's splitting agrees with the parser's if and only if the raw name is empty or has a character that is not white space |
| Calendar.YearOf | internal/core/parser/service/service.go:220-235 | the year whose days include the day |
| Calendar.YearStartInWords | internal/core/parser/service/service.go:220-235 | the first day of any year by the Gregorian leap rule |
| Calendar.FirstWeekInWords | internal/core/parser/service/service.go:220-235 | the week of 4 January is week 1 in every year (ISO 8601:2004, section 3.2.2) |
| Calendar.WeekIsConstant | internal/core/parser/service/service.go:220-235 | all seven days of a Monday week have the same ISO week number (ISO 8601:2004, section 3.2.2) |
| Calendar.NextWeek | internal/core/parser/service/service.go:220-235 | from week to week the number grows by one or returns to 1 after 52 or 53 |
| Calendar.LongYearsApart | internal/core/parser/service/service.go:220-235 | two weeks numbered 53 are at least 261 weeks apart |
| WeekParity.OddGap | internal/core/parser/service/service.go:220-235 | after an odd week the next odd week is 14 days later, or 7 after a week 53 |
| WeekParity.EvenGap | internal/core/parser/service/service.go:220-235 | after an even week the next even week is 14 days later, or 21 across a week 53 |
| WeekParity.Balance | internal/core/parser/service/service.go:220-235 | how far odd weeks outnumber even ones, by the year ends inside and the parity of the last week |
| WeekParity.OddCountExact | internal/core/parser/service/service.go:130-137 | how many of any number of consecutive weeks are odd: half of the sum of their number, the ends of years with a week 53 inside, and one if the last is odd |
| WeekParity.OddBoundIff | internal/core/parser/service/service.go:130-137 | the odd weeks are never less than half, rounded down, and at most one more if and only if the year ends inside, one for an odd last week and one for an odd number make no more than three |
| WeekParity.OddCountBounds | internal/core/parser/service/service.go:130-137 | up to 262 weeks, whenever they start, the odd ones are half of them rounded down, or one more |
| WeekParity.OddCountBoundFailsAt263 | internal/core/parser/service/service.go:130-137 | 263 weeks starting in the last week of 2015 have one odd week too many, so 262 is the most up to which every number and every start is within the bound |
| ParserService.WeekStart | internal/core/parser/service/service.go:204-211 | the Monday on or before the day |
| ParserService.WeekStartConstant | internal/core/parser/service/service.go:204-211 | the same Monday for all days of its week; taking it twice is taking it once |
| ParserService.WeekdayOffset | internal/core/parser/service/service.go:213-218 | the number of days from a Monday to the weekday |
| ParserService.LabelIgnoresWeekday | internal/core/parser/service/service.go:220-235 | the label's decision is the same for all seven days of a week |
| ParserService.LabelsSplit | internal/core/parser/service/service.go:130-137 | the odd and the even dates of a lesson together are its unlabelled dates, with nothing lost and nothing twice |
| ParserService.AlternatingLessonExact | internal/core/parser/service/service.go:130-137 | for any number of weeks ahead, the number of dates of an odd-week lesson, and the exact condition for it to be half of the weeks, rounded down, or one more |
| ParserService.AlternatingLessonCount | internal/core/parser/service/service.go:130-137 | for up to 262 weeks ahead that always holds; a lesson of even weeks gets the rest |
| ParserService.AlternatingLessonFailsAt263 | internal/core/parser/service/service.go:130-137 | for 263 weeks ahead and a lesson on any weekday there is a start for which it does not |
| ParserService.OddDateGap | internal/core/parser/service/service.go:130-137 | neighbouring dates of an odd-week lesson are 14 days apart, or 7 when the first is in a week 53 |
| ParserService.EvenDateGap | internal/core/parser/service/service.go:130-137 | neighbouring dates of an even-week lesson are 14 days apart, or 21 when a week 53 is between |
| ParserService.ExpandedSlots | internal/core/parser/service/service.go:119-158 | exactly one slot for each date of the lesson and none for any other: on its weekday, in the weeks ahead that begin with this week's Monday, of odd or even ISO weeks where the label asks; at the lesson's clock time, 95 minutes long, with its details, in its room; in order of time and disjoint |
| ParserService.DateIff | internal/core/parser/service/service.go:119-137 | the first date and the step of a week, said in weekdays and ISO week numbers |
| ParserService.ExpandWeeks | internal/core/parser/service/service.go:130-157 | the loop over the weeks builds the slots of the selected dates in order |
| ParserService.Expand | internal/core/parser/service/service.go:119-158 | succeeds exactly for a readable clock and weekday, and then gives exactly one slot for each date of the lesson, at its clock time for 95 minutes, and no other |
| ParserService.ExpandAll | internal/core/parser/service/service.go:69-107 | reading and expanding every room, with a clock reading of its own for each lesson, gives all slots and the number of lessons, or fails if any page or lesson does |
| ParserService.AllSlotsFrom | internal/core/parser/service/service.go:69-107 | every slot of a run is some lesson's of some room, on one of its dates and at its time |
| ParserService.AllSlotsHave | internal/core/parser/service/service.go:69-107 | every lesson of every room has its slot on each of its dates |
| ParserService.RunInputsKnown | internal/core/parser/service/service.go:75-107 | every slot's twice normalised room key is the key of a listed room |
| ParserService.RunConserves | internal/core/parser/service/service.go:69-116 | a run commits if and only if its rooms and the texts of its slots are storable, and then imports every room it saw and stores or skips every slot it built; the late upsert of a room is never taken |
| ParserService.BookingsAreLessons | internal/core/parser/service/service.go:60-117 | after a committed run each parser's booking is some lesson's of some room, with that room's name, on one of the lesson's dates, at its time and with its details |
| ParserService.LessonsAreBooked | internal/core/parser/service/service.go:60-117 | after a committed run the room of each lesson is taken at the lesson's time on each of its dates |
| ParserService.Run | internal/core/parser/service/service.go:60-117 | a timetable not readable in full changes nothing; else the store holds its own rows plus the greedy choice and the reported counters add up, or nothing has changed; after an error the first is possible only if the reply to the COMMIT was lost. After success each parser's booking is a lesson's and each lesson's room is taken at its time on each of its dates |
| WorkerPool.StepJobs | timetable-homework-tgbot/internal/infrastracture/database/fill_database.go:50-105 | no step of the pool loses, doubles or invents a job |
| WorkerPool.EachJobOnce | timetable-homework-tgbot/internal/infrastracture/database/fill_database.go:50-105 | in every reachable state each job handed out is waiting, in hand, saved or failed, in one of these and once; no more wait than the channel holds |
| WorkerPool.QueueInTurn | timetable-homework-tgbot/internal/infrastracture/database/fill_database.go:50-105 | what waits in the channel is the last few jobs handed out, the oldest in front |
| WorkerPool.RunInv | timetable-homework-tgbot/internal/infrastracture/database/fill_database.go:50-105 | the invariant over all runs: jobs, errors named and kept, and what the producer may be doing when |
| WorkerPool.ReturnIsTruthful | timetable-homework-tgbot/internal/infrastracture/database/fill_database.go:83-113 | an error is returned if and only if a save failed, and is the error of such a save; nil means every group was saved exactly once |
| WorkerPool.NilIffNothingFailed | timetable-homework-tgbot/internal/infrastracture/database/fill_database.go:83-113 | with a context nobody cancels, nil is returned if and only if no save failed |
| WorkerPool.NeverStuck | timetable-homework-tgbot/internal/infrastracture/database/fill_database.go:58-105 | every state before the return has a possible step, even with all workers gone and the channel full |
| WorkerPool.RunsEnd | timetable-homework-tgbot/internal/infrastracture/database/fill_database.go:58-113 | no run has more than 4 n + size + 3 steps, so one that goes on as long as it can returns |
| UserIds.DefaultLoginInjective | timetable-homework-tgbot/internal/infrastracture/database/fill_database.go:196-201 | no two teacher rows have the same default login |
| UserIds.DefaultLoginInWords | timetable-homework-tgbot/internal/infrastracture/database/fill_database.go:196-201 | the default login is teacher_ and the row's number in decimal |
| TimetableView.PseudoId | timetable-homework-tgbot/internal/infrastracture/database/fill_database.go:294-298 | the made-up id is the one number from -9000000000000 to -1 that is congruent to minus one minus the hash of the name with its mark in front |
| TimetableView.NormalizeGroupTwice | timetable-homework-tgbot/internal/infrastracture/database/fill_database.go:251-253 | the group name is normalised twice to the effect of once |
| TimetableView.NormalizeGroupInWords | timetable-homework-tgbot/internal/infrastracture/database/fill_database.go:251-253 | the normal form is the trimmed name without its spaces: every other character, in order |
| TimetableView.NamedApart | timetable-homework-tgbot/internal/infrastracture/database/fill_database.go:129-160 | two items give one entry if and only if they agree in subject, weekday, time, week, trimmed type, teacher, room and group, where only white space around names, spaces in the group and a default for no name do not count |
| TimetableView.FillOutcome | timetable-homework-tgbot/internal/infrastracture/database/fill_database.go:129-249 | a fill succeeds if and only if every time is one and no new teacher shares a made-up id, and then it has added every entry once |
| TimetableView.OrderIndependent | timetable-homework-tgbot/internal/infrastracture/database/fill_database.go:116-249 | order and repetition of the entries change neither whether a fill succeeds nor what it leaves |
| TimetableView.SecondFill | timetable-homework-tgbot/internal/infrastracture/database/fill_database.go:116-249 | filling again with the same timetable succeeds and adds nothing |
| TimetableFill.LessonKeysUnique | timetable-homework-tgbot/internal/infrastracture/database/migrations/00001_init.sql:149-150 | no two lesson rows stand for the same lesson, and no two links for the same lesson and group |
| TimetableFill.ViewAfterSave | timetable-homework-tgbot/internal/infrastracture/database/fill_database.go:129-160 | whichever row numbers were used, the names after saving are those of the entry added |
| TimetableFill.NothingNew | timetable-homework-tgbot/internal/infrastracture/database/fill_database.go:222-249 | an entry that is there already brings no row |
| TimetableFill.LinkSays | timetable-homework-tgbot/internal/infrastracture/database/fill_database.go:129-249 | a link has the names of an item if and only if its rows have, column by column, the item's subject, weekday, time and week, the trimmed type, and the trimmed names of teacher, room and group or the defaults |
| TimetableFill.RowsSayOne | timetable-homework-tgbot/internal/infrastracture/database/fill_database.go:222-249 | the rows of one link cannot stand for two items that differ in one of these |
| TimetableFill.TimetableDb.EnsureGroup | timetable-homework-tgbot/internal/infrastracture/database/fill_database.go:162-174 | returns the row of that name, adding it if there was none; no other row changes |
| TimetableFill.DefaultLoginFree | timetable-homework-tgbot/internal/infrastracture/database/fill_database.go:196-201 | the login filled in is never another teacher's, because every login is the default one of its row |
| TimetableFill.TimetableDb.EnsureTeacher | timetable-homework-tgbot/internal/infrastracture/database/fill_database.go:176-203 | row by row the import of a teacher; fails, with no teacher changed, exactly when the name is new and another teacher holds its made-up id; else returns the row of that name, its login the default one and its password kept or the default one, and changes no other row |
| TimetableFill.TimetableDb.EnsureRoom | timetable-homework-tgbot/internal/infrastracture/database/fill_database.go:205-220 | returns the row of that name, adding it if there was none |
| TimetableFill.TimetableDb.EnsureLesson | timetable-homework-tgbot/internal/infrastracture/database/fill_database.go:222-249 | returns the row with that key, adding it if there was none; text that is no time fails |
| TimetableFill.TimetableDb.UpsertGroupLesson | timetable-homework-tgbot/internal/infrastracture/database/fill_database.go:129-160 | one transaction: succeeds exactly for a time of day and a teacher whose name is known or whose made-up id is free; then there is a link whose rows say what the item says of the group, and at most one row more in each table; else nothing has changed. An item there already brings no lesson and no link |
| TimetableFill.TimetableDb.FillGroupSchedule | timetable-homework-tgbot/internal/infrastracture/database/fill_database.go:116-127 | saves the lessons of a group up to the first that fails, as the specified fill; after success every lesson has its link and rows that say what it says, and no link is there that was not there or is not of one of the lessons; a timetable there already brings no row |
| ParallelFill.RunFill | timetable-homework-tgbot/internal/infrastracture/database/fill_database.go:33-127 | the invariant of pool and tables together over all runs |
| ParallelFill.NilIsSequential | timetable-homework-tgbot/internal/infrastracture/database/fill_database.go:33-127 | every run that returns nil leaves what filling one group after the other leaves |
| ParallelFill.NilSavesAll | timetable-homework-tgbot/internal/infrastracture/database/fill_database.go:33-127 | after nil every lesson of every group has a link whose rows say what it says |
| ParallelFill.NothingElseSaved | timetable-homework-tgbot/internal/infrastracture/database/fill_database.go:33-127 | at every moment of every run every link was there before or is of a lesson of one of the groups |
| ParallelFill.AnswerIsScheduleFree | timetable-homework-tgbot/internal/infrastracture/database/fill_database.go:33-127 | when the caller does not cancel, every run that returns gives nil if the sequential fill succeeds and the error of a save if not |
| ParallelFill.FillNeverStuck | timetable-homework-tgbot/internal/infrastracture/database/fill_database.go:33-127 | with the tables in the picture, too, every reachable state before the return has a possible step |
| ParallelFill.FillEnds | timetable-homework-tgbot/internal/infrastracture/database/fill_database.go:33-127 | no fill has more than 4 n + 23 steps |
| Accounts.UnbindAcceptedIff | timetable-homework-tgbot/internal/infrastracture/repositories/user_repository.go:163-197 | giving up a row is refused by the database if and only if another row has its placeholder |
| Accounts.BindAcceptedIff | timetable-homework-tgbot/internal/infrastracture/repositories/user_repository.go:103-105 | taking a row is refused if and only if another row still has the user |
| Accounts.StudentLoginSharesIff | timetable-homework-tgbot/internal/infrastracture/repositories/user_repository.go:74-108 | for any number as user id: after a login as student the id is in both tables if and only if it is the placeholder of a teacher row that carried it |
| Accounts.TeacherLoginSharesIff | timetable-homework-tgbot/internal/infrastracture/repositories/user_repository.go:110-144 | the same for a login as teacher |
| Accounts.LoginStudentEffect | timetable-homework-tgbot/internal/infrastracture/repositories/user_repository.go:74-108 | for a user of Telegram a login as student is never refused and gives that role and that row; of all other users only the one who held the row loses a role, and becomes a guest |
| Accounts.LoginTeacherEffect | timetable-homework-tgbot/internal/infrastracture/repositories/user_repository.go:110-144 | the same for a login as teacher |
| Accounts.LeaveEffect | timetable-homework-tgbot/internal/infrastracture/repositories/user_repository.go:146-161 | leaving is never refused to a user of Telegram, makes a guest of the user and changes nobody else's role |
| Accounts.ImportEffect | timetable-homework-tgbot/internal/infrastracture/database/fill_database.go:176-203 | an import of a teacher changes nobody's role |
| AccountRows.RefusedIff | timetable-homework-tgbot/internal/infrastracture/database/fill_database.go:176-203 | while logins are the default ones, which the import keeps them, it is refused if and only if the name is new and another teacher has its made-up id |
| Accounts.ImportOutcome | timetable-homework-tgbot/internal/infrastracture/database/fill_database.go:176-203 | after an import the name is there if and only if it was before or its made-up id was free |
| Accounts.RunKeepsLogins | timetable-homework-tgbot/internal/infrastracture/database/fill_database.go:196-201 | over every run every teacher's login stays the default one of its row |
| Accounts.RunKeepsConstraints | timetable-homework-tgbot/internal/infrastracture/database/migrations/00001_init.sql:13-38 | over every run, whatever numbers come as user ids, user ids, logins and teacher names stay unique in their tables and all user ids known |
| Accounts.RunKeepsInv | timetable-homework-tgbot/internal/infrastracture/repositories/user_repository.go:74-197 | over every sequence of logins, leaves and imports user ids stay unique in each table and no user of Telegram is in both |
| Accounts.RunKeepsAccounts | timetable-homework-tgbot/internal/infrastracture/repositories/user_repository.go:74-197 | over every run logins and leaves move nothing but user ids: each account keeps its owner and the credentials it has, and no student account appears |
| Accounts.PlaceholdersMeet | timetable-homework-tgbot/internal/infrastracture/repositories/user_repository.go:163-197 | the placeholders of a student and a teacher row are equal if and only if the teacher's number is 10^14 higher |
| Accounts.SharedIsPlaceholder | timetable-homework-tgbot/internal/infrastracture/repositories/user_repository.go:163-197 | any id that both tables hold is such a pair of placeholders |
| Accounts.DisjointIff | timetable-homework-tgbot/internal/infrastracture/repositories/user_repository.go:163-197 | the tables share no id if and only if no free student row stands beside the free teacher row whose number is 10^14 higher |
| Accounts.RunKeepsDisjoint | timetable-homework-tgbot/internal/infrastracture/repositories/user_repository.go:74-197 | while teacher numbers stay within 10^14 no id at all is in both tables |
| Accounts.DisjointFailsBeyond | timetable-homework-tgbot/internal/infrastracture/repositories/user_repository.go:163-197 | beyond that two leaves are enough for one id in both tables |
| UserRepoClass.UserRepo.GetRole | timetable-homework-tgbot/internal/infrastracture/repositories/user_repository.go:34-53 | student exactly if a student row has the user id, guest exactly if no row of either table has; for a user of Telegram the order of the two queries does not matter |
| UserRepoClass.UserRepo.UnbindStudentRows | timetable-homework-tgbot/internal/infrastracture/repositories/user_repository.go:163-179 | every row of the user gets the number -300000000000000 minus its own, all else stays; or refused, exactly if another row has that number |
| UserRepoClass.UserRepo.UnbindTeacherRows | timetable-homework-tgbot/internal/infrastracture/repositories/user_repository.go:181-197 | the same for teachers with -200000000000000 |
| UserRepoClass.UserRepo.LoginStudent | timetable-homework-tgbot/internal/infrastracture/repositories/user_repository.go:74-108 | success only with the trimmed login and the very password of some row, which then is the user's, with the user's other rows of both tables given up; bad credentials exactly if no row has both, so a known login with any other password changes nothing; the database never refuses a user of Telegram; anything but a login changes nothing |
| UserRepoClass.UserRepo.LoginTeacher | timetable-homework-tgbot/internal/infrastracture/repositories/user_repository.go:110-144 | the same for teachers |
| UserRepoClass.UserRepo.Leave | timetable-homework-tgbot/internal/infrastracture/repositories/user_repository.go:146-161 | the specified leave, or refused with nothing changed; a user of Telegram is never refused and a guest after it |
| Homework.CleanedAgain | timetable-homework-tgbot/internal/infrastracture/repositories/homework_repository.go:68-69 | the words of an edit lose white space at both ends and one bullet, and the line shown for them can be sent again to the same effect |
| Homework.CleanedInWords | timetable-homework-tgbot/internal/infrastracture/repositories/homework_repository.go:68-69 | cleaning takes away the white space around the words, one bullet in front and the white space after it, and nothing else |
| Homework.EditedInWords | timetable-homework-tgbot/internal/infrastracture/repositories/homework_repository.go:68-80 | the text after an edit: all before the first colon, the colon, a bullet and the cleaned words; without a colon the cleaned words alone |
| Homework.EditKeepsPrefix | timetable-homework-tgbot/internal/infrastracture/repositories/homework_repository.go:68-80 | an edit keeps a text up to and with its first colon |
| Homework.LastEditWins | timetable-homework-tgbot/internal/infrastracture/repositories/homework_repository.go:68-80 | two edits are the second alone if and only if the text has a colon or the first edit brings none |
| Homework.EditsKeepPrefix | timetable-homework-tgbot/internal/infrastracture/repositories/homework_repository.go:49-80 | every text reachable from one given out keeps its prefix, and only the last edit shows |
| Homework.SubjectKept | timetable-homework-tgbot/internal/infrastracture/repositories/homework_repository.go:49-53 | the prefix is the whole subject if and only if the subject has no colon |
| Homework.PrefixesForEver | timetable-homework-tgbot/internal/infrastracture/repositories/homework_repository.go:31-88 | over every sequence of saves and edits by any users a homework stays and keeps the prefix it was created with, which is that of its own subject and text |
| Homework.HomeworkRepo.SaveForGroup | timetable-homework-tgbot/internal/infrastracture/repositories/homework_repository.go:31-66 | stores one homework of the caller with the subject, a colon, a blank and the text, linked to the one group of that name, or names what is missing; all others stay |
| Homework.HomeworkRepo.Update | timetable-homework-tgbot/internal/infrastracture/repositories/homework_repository.go:68-88 | the text of the caller's own homework becomes the edited one and nothing else changes; refused exactly when it is not the caller's |

## Left out

- HTTP handlers, generated servers, gateway, middleware, the authentication service and JSON web tokens: plumbing and library cryptography.
- Scraping and text extraction: lessons, clock times and weekdays are inputs; week labels are odd, even or none; the bot's weekday and week texts are numbers (a text it does not know counts as Monday, or as every week).
- RabbitMQ, logging and configuration: publishing is appending to a history.
- PostgreSQL itself: statements and transactions are atomic and constraints enforced as declared; READ COMMITTED interleavings inside one of the bot's transactions are not modelled, nor is text with NUL characters in the bot's tables. A booking's text may have them, and is refused.
- Time zones with daylight saving: the offset is fixed. The rounding of instants to microseconds by the database is not modelled.
- Integer widths, except where a column refuses a value (room capacity): ids and times are unbounded.
- The FNV hash of a teacher's name is a parameter; the fill's properties hold for every hash.
- Logins and leaves that run while the timetable is being filled: the fill is modelled on tables nobody else changes.
- A database that fails by itself during the parallel fill: saves fail by collision, by text that is no time, or by cancellation (the pool alone is proved for saves that fail for any reason).
- The loops over the faculties and their groups that gather the jobs, and the log lines with their counters.
- Homework statuses, listings and deletion, notifications, room and user listings: simple queries.
- Seed data and the Down parts of the migrations, the frontend.
- ParserService.Run: the normalisation of rooms and slots that the store does inside its loops is done before them, which no result depends on.
