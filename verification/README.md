# Barbershop backend: a verified model

This project models the parts of the barbershop backend that decide *when somebody works, who may
book them, and what happens to a booking afterwards*, and proves what those parts promise. Verify it
with `dafny verify dfyconfig.toml`.

| module | models |
|---|---|
| `Intervals`, `Spans` | half-open intervals of real time; sort-and-merge, two-pointer intersection, subtraction with a carried index, clipping |
| `Calendar` | dates, wall clocks and time zones |
| `Weekly`, `Schedules`, `TwoShops` | repeating weekly hours, a barber's template and overrides, one person at several branches |
| `Windows` | `WorkingWindows`: all of that as real instants |
| `Catalog`, `Offers` | prices, offerings, who performs all chosen services |
| `Availability`, `BookingApp`, `EndToEnd` | slots, the availability query, booking, and the two joined up to the store |
| `Appointments`, `Lifecycle`, `BookingStore` | the appointment, whole lives of it, and the store with its constraints |
| `ExpiryJob` | what the expiry job changes for somebody who asks for a time |
| `OtpGuard`, `OtpRequests` | the wrong-code guard and the limit on login codes (file `Otp.dfy`) |
| `Sessions` | sessions and single-use refresh tokens |
| `Outbox`, `Branches` | event fan-out, and newest-version-wins copies of a branch (file `Outbox.dfy`) |
| `Notifier` | push-once notification |
| `Sorting`, `Slices`, `Counting`, `Wrappers` | helpers |

## Reading the model

**Time.** Instants and durations are integers in nanoseconds; dates are day numbers with weekday
`d % 7`. A `Zone` is what `time.Date` answers for each wall-clock minute together with the offset at
each instant. `Zone.Valid` says what is assumed: whole-minute offsets, every date one stretch of
instants from its midnight to the next, no date longer than 48 hours. `FixedZoneValid` shows that
every fixed offset (Asia/Riyadh is the default) is such a zone, `ChangingZoneValid` that a zone with
a clock change away from midnight is one too.

**The central statement.** `WindowsInput.Working(t)` is the plain formula "open on some date,
scheduled on some date, on no closed date, in no time off", ranging over *all* dates.
`World.Possible` adds "every instant of the booking is a working instant and none is taken". The fast
code is proved against these: `WorkingWindows` returns exactly the working instants of its range in
normal form; `Query` lists a start and a barber exactly when the branch offers the start and the
barber is possible; booking's own route accepts exactly the same pairs (`AvailabilityIsBooking`); and
`BookAppointment` carries a request through to a committed store.

**State.** Objects the source updates in place are classes (`BarberSchedule`, `Appointment`,
`OTPGuard`, `Session`, `RefreshToken`, `Bus`, `Branch`, `Handlers`); each method is proved equal to a
transition function on values, and statements about whole runs are about those functions. What each
transition does, by conditions a reader can check, is stated once more in the lemmas ending in `Means`.
Slices that are sorted or filtered in place are arrays. Databases, queues and the push service appear only
through the contracts their interfaces, migrations and comments document: one transaction is one
step, a failure is an explicit parameter. A use case of two transactions is two steps.

**Where the code does less, or more, than is said of it.**

- *One person in two shops at once.* `Set` exists to rule this out, but it compares weekly templates,
  minute by minute on the wall clock, and nothing else. In any zones it happens exactly when two
  started intervals overlap in real time (`SharedInstantIsOverlap`). Set's comparison falls short of
  that in three ways, each shown at an input where an instant is in the working windows of both
  branches: overrides are not compared (`OverridesAreNotCompared`, `OverridesCanClash`), branches may
  be in different zones (`DifferentZonesClash`), and times in a skipped hour, as `time.Date` may
  answer them, run into the hour after it (`SkippedHourClashes`). What it takes is stated exactly: for
  templates, `ZonesDecide` says that the comparison suffices in two real zones if and only if their
  clocks agree on every five-minute mark and skip nothing (between fixed offsets: if and only if the
  offsets are equal, `OffsetsDecide`); where they do, `OverridesDecide` says that somebody is in two
  shops if and only if an override overlaps what the other branch has on that day or next to it.
- *The guard's bound.* With the lockout at least as long as the failure window, a window's length
  holds at most `2 * MaxFailures - 2` counted failures (1 when `MaxFailures` is 1); `BoundIsTight`
  reaches it, and `LockoutDecides` says that the bound holds if and only if the lockout is that long.
- *The expiry job* cannot be noticed through any other action on the appointment
  (`ExpiryTimingUnobservable`, given a clock that does not go back), but somebody who asks for a time
  does notice it. Until the job has written the expiry down, an overdue booking holds its barber's
  time, counts against its customer's limit, and counts as work its barber has that day, so that "any
  barber" goes to somebody else (`OverdueHoldsTheTime`, `OverdueHoldsThePlace`,
  `OverdueCountsAsLoad`). `JobShowsToRequest` states exactly when the reply to a request differs, by
  what can be seen before the job: the request gets as far as looking for free time, and either nobody
  is free and the overdue booking's barber would be without it, or somebody is free and the overdue
  booking takes the customer's last place or its barber would come first without it.
  `JobShowsToQuery` states what the job adds to the slots shown.
- *A branch's first version* has no event: a copy exists only from the first change on.

## Model

| member | source | states |
|---|---|---|
| `Intervals.NewInterval` | internal/shared/interval.go:20-25 | an interval is refused exactly when it contains no instant |
| `Intervals.OverlapIsSharedInstant` | internal/shared/interval.go:37-39 | two intervals overlap if and only if some instant is in both; touching is not overlapping |
| `Intervals.CoversIsEveryInstant` | internal/shared/interval.go:48-50 | one interval covers another if and only if it contains every instant of it |
| `Intervals.OneSpanCovers` | internal/shared/interval.go:46-50 | over merged spans, being inside one span is the same as every instant being covered |
| `Intervals.NormalFormUnique` | internal/scheduling/domain/windows.go:60-74 | merged lists with the same instants are equal, so a specification by instants fixes the result |
| `Spans.MustSpan` | internal/scheduling/domain/windows.go:143-150 | the span of exactly those instants; every call in the project meets the condition that avoids the panic |
| `Spans.AppendSpan` | internal/scheduling/domain/windows.go:51-58 | adds exactly the instants from start to end, nothing when that is empty |
| `Spans.Normalize` | internal/scheduling/domain/windows.go:60-74 | sorts its own slice to a permutation; the result has the same instants and a gap between neighbours |
| `Spans.Merged` | internal/scheduling/domain/windows.go:63-73 | the merging loop keeps the instants of sorted spans and leaves gaps |
| `Spans.Intersect` | internal/scheduling/domain/windows.go:76-91 | exactly the instants in both lists, separated again |
| `Spans.Remains` | internal/scheduling/domain/windows.go:102-112 | from the carried index on, exactly what of the span lies in nothing subtracted |
| `Spans.Subtract` | internal/scheduling/domain/windows.go:93-115 | exactly the instants of the first list not in the second: the carried index skips nothing that matters |
| `Spans.Clip` | internal/scheduling/domain/windows.go:117-127 | exactly the instants within the range, separated again |
| `Calendar.FixedZoneValid` | internal/business/domain/branch.go:51-52 | a fixed offset meets every assumption made about zones |
| `Calendar.ChangingZoneValid` | internal/scheduling/domain/date.go:42-48 | so does a zone with a clock change, forward or back, away from midnight |
| `Calendar.Zone.DateIs` | internal/scheduling/domain/date.go:16-20 | an instant has a date exactly when it lies between that date's midnight and the next |
| `Calendar.Zone.DatesInOrder` | internal/booking/domain/day.go:26-48 | dates never go back as time goes on |
| `Weekly.NewWeeklyHours` | internal/scheduling/domain/weekly.go:43-73 | accepts exactly the lists of valid intervals, at most four starting per day, whose copies over all weeks are pairwise disjoint; sorted permutation; each error only for its own reason |
| `Weekly.CheckEach` | internal/scheduling/domain/weekly.go:49-61 | the first loop passes exactly when every interval is well formed and no day has more than four |
| `Weekly.CheckNeighbours` | internal/scheduling/domain/weekly.go:62-71 | the second loop passes exactly when each interval ends before the next starts, the last before the first a week later |
| `Weekly.NeighboursSuffice` | internal/scheduling/domain/weekly.go:62-71 | for sorted intervals, those neighbour comparisons hold if and only if no two copies in any weeks overlap |
| `Weekly.SameVerdict` | internal/scheduling/domain/weekly.go:47-48 | sorting first changes neither the verdict nor what an error says |
| `Weekly.ThreeShiftsDecide` | internal/scheduling/domain/weekly.go:104-119 | two weekly intervals meet in some pair of weeks if and only if they meet at a shift of -1, 0 or 1 week |
| `Weekly.MeetAtAShift` | internal/scheduling/domain/weekly.go:110-115 | the innermost loop decides whether a pair ever meets |
| `Weekly.Overlaps` | internal/scheduling/domain/weekly.go:107-119 | true exactly when some interval of one week is ever on at the same time as one of the other |
| `Weekly.ClockThenInterval` | internal/scheduling/domain/weekly.go:85-102 | printing an interval's clock times and reading them back returns it, past midnight and 24 hours included |
| `Weekly.IntervalThenClock` | internal/scheduling/domain/weekly.go:85-102 | reading clock times and printing them returns them, a closing at 00:00 as 24:00 |
| `Schedules.CheckDayIntervals` | internal/scheduling/domain/schedule.go:23-36 | accepts exactly at most four well-formed intervals that do not overlap, and returns them sorted; an error names a fault the day has |
| `Schedules.DayRules` | internal/scheduling/domain/schedule.go:23-36 | the weekly rules applied to one day come to those plain rules |
| `Schedules.StartingOn` | internal/scheduling/domain/schedule.go:104-112 | exactly the template's intervals that start on the weekday |
| `Schedules.StartingByPlan` | internal/scheduling/domain/schedule.go:95-102 | exactly what starts on the date: its override if there is one, else the template |
| `Schedules.OverrideReplacesDate` | internal/scheduling/domain/schedule.go:38-42 | an override replaces what starts on its date and on no other; an empty one is a day off |
| `Schedules.ClashesElsewhere` | internal/scheduling/domain/schedule.go:73-77 | true exactly when some other template ever meets this one |
| `Schedules.CheckOverrides` | internal/scheduling/domain/schedule.go:78-88 | accepts exactly when every date's intervals are acceptable, whatever order the map is walked in; an error names a fault of some date |
| `Schedules.BarberSchedule.Set` | internal/scheduling/domain/schedule.go:66-93 | which changes are refused with which error, what an override's error says, that a refusal changes nothing, and the whole new state |
| `Schedules.BarberSchedule.IntervalsStarting` | internal/scheduling/domain/schedule.go:95-102 | exactly what the schedule starts on the date |
| `Windows.WindowsInput.DateInReach` | internal/scheduling/domain/windows.go:32-34 | an interval reaching into the range starts on one of the dates enumerated: one day early is enough |
| `Windows.AppendDay` | internal/scheduling/domain/windows.go:35-40 | adds exactly the instants within one date's intervals |
| `Windows.Expand` | internal/scheduling/domain/windows.go:33-44 | opening, schedule and closure spans are exactly those of the enumerated dates |
| `Windows.ReachSuffices` | internal/scheduling/domain/windows.go:32-44 | within the range the enumerated dates say what all dates say, for opening, schedule and closures |
| `Windows.WorkingWindows` | internal/scheduling/domain/windows.go:20-49 | an instant is in the result if and only if it is in the range and open, scheduled, not closed and not off, over all dates; separated; the caller's time off is untouched |
| `Windows.WindowsUnique` | internal/scheduling/domain/windows.go:20-49 | that determines the result completely |
| `TwoShops.UpdateSchedule` | internal/scheduling/adapters/postgres/schedules.go:56-98 | a version conflict exactly when the version is not the expected one; then refused exactly for its own faults or a clash with another branch's template; then not saved exactly when the next version exceeds 32 bits; an error saves nothing |
| `TwoShops.UpdateKeepsApart` | internal/scheduling/domain/schedule.go:135-143 | an update keeps the person's templates apart |
| `TwoShops.TemplatesStayApart` | internal/scheduling/domain/schedule.go:66-93 | over every sequence of updates, templates at different branches never meet |
| `TwoShops.SharedInstantIsOverlap` | internal/scheduling/domain/schedule.go:66-68 | in any two zones, two schedules share an instant if and only if two started intervals overlap in real time |
| `TwoShops.SharedInstantIsClash` | internal/scheduling/domain/schedule.go:66-68 | in zones a fixed distance apart: if and only if they clash on the wall clock, the one moved by the distance |
| `TwoShops.FixedZonesClash` | internal/business/domain/branch.go:95-105 | between two fixed offsets: if and only if they clash after moving the one by the difference |
| `TwoShops.TemplatesDecide` | internal/scheduling/domain/weekly.go:104-119 | without overrides: if and only if the templates meet in some weeks, the one moved |
| `TwoShops.NeverInTwoShops` | internal/scheduling/domain/weekly.go:104-119 | templates apart, no overrides and clocks that agree: the windows at two branches share no instant, over any ranges |
| `TwoShops.NeverInTwoShopsInAnyRun` | internal/scheduling/domain/schedule.go:66-93 | so in every sequence of updates, for any two of the person's branches |
| `TwoShops.ZonesDecide` | internal/business/domain/branch.go:95-105 | for any two real zones, wherever their clocks change, comparing templates keeps everybody out of two shops if and only if the clocks agree on every five-minute mark and skip nothing |
| `TwoShops.OffsetsDecide` | internal/business/domain/branch.go:95-105 | between fixed offsets, if and only if they are equal |
| `TwoShops.ChangingKeepsTime` | internal/scheduling/domain/date.go:42-48 | a zone with one clock change agrees with itself unless it skips more than five minutes |
| `TwoShops.DifferentZonesClash` | internal/scheduling/domain/weekly.go:104-119 | templates that pass in Riyadh and Dubai, and an instant in the windows of both |
| `TwoShops.SkippedHourClashes` | internal/scheduling/domain/weekly.go:104-119 | templates that pass in one zone, and an instant in the windows of both on the day an hour is skipped |
| `TwoShops.OverridesDecide` | internal/scheduling/domain/schedule.go:66-102 | where clocks agree and templates are apart, the person is in two shops at some instant if and only if an override overlaps what the other branch has that day or next to it |
| `TwoShops.OverridesAreNotCompared` | internal/scheduling/domain/schedule.go:73-91 | the same override is accepted at two branches |
| `TwoShops.OverridesCanClash` | internal/scheduling/domain/schedule.go:66-91 | and then that morning is in the windows of both branches |
| `Catalog.Money.Add` | internal/shared/money.go:60-70 | exact or refused: never a wrapped 64-bit sum, never two currencies |
| `Catalog.CheckOfferings` | internal/catalog/domain/offering.go:40-63 | accepts exactly at most 100 valid offerings with nobody twice, and returns them strictly sorted by staff; each error only for its own reason |
| `Catalog.CapsMean` | internal/catalog/domain/offering.go:65-71 | durations are 5 to 480 minutes in steps of 5, prices 0 to 100,000 riyals |
| `Catalog.MenuItemFor` | internal/catalog/app/app.go:304-325 | a menu item of checked offerings has no barber twice, within the caps; each price and duration is the offering's own if it has one, else the service's |
| `Offers.ByStaff` | internal/booking/app/availability.go:186-189 | the map holds exactly the performers, each under their own ID |
| `Offers.KeepPerformers` | internal/booking/app/availability.go:196-210 | filtering over its own backing array gives the filtered list of the original; an error exactly when some price does not add |
| `Offers.KeptMembers` | internal/booking/app/availability.go:196-210 | what is kept are exactly the barbers who perform the next service too, with it added in, once each |
| `Offers.TotalsBounded` | internal/catalog/domain/offering.go:65-71 | the catalog's caps bound every total of durations and prices |
| `Offers.NextServiceFits` | internal/booking/app/availability.go:201-205 | so adding the next service's price never overflows |
| `Offers.OffersFor` | internal/booking/app/availability.go:177-214 | exactly the barbers who perform every chosen service, once each, by ID, with their own totals; an error exactly for a service not on the menu |
| `Offers.StillThere` | internal/booking/app/availability.go:216-243 | filtering in place gives the offers of active staff of the original list |
| `Offers.StaffedMembers` | internal/booking/app/availability.go:216-243 | those are exactly the offers whose barber is active, still by ID |
| `Offers.ItemsFor` | internal/booking/app/book.go:345-355 | one item per service in the barber's own version; no index is out of range |
| `Offers.ItemsMean` | internal/booking/app/book.go:345-355 | each item is the chosen service as this barber performs it on the menu, with their own duration and price |
| `Appointments.AddUp` | internal/booking/domain/appointment.go:147-156 | the sums of durations and prices, refused exactly when some running sum leaves riyals or 64 bits |
| `Appointments.Appointment.Book` | internal/booking/domain/appointment.go:121-165 | each error exactly when; otherwise every field of the draft, its span, price, expiry and first event |
| `Appointments.Appointment.Rehydrate` | internal/booking/domain/appointment.go:167-176 | the snapshot back as an appointment, no events |
| `Appointments.Appointment.Change` | internal/booking/domain/lifecycle.go:160-167 | the new state, one version on, and one event from the old status |
| `Appointments.Appointment.Confirm` | internal/booking/domain/lifecycle.go:62-71 | result, state and event are the transition function's |
| `Appointments.Appointment.Reject` | internal/booking/domain/lifecycle.go:73-80 | result, state and event are the transition function's |
| `Appointments.Appointment.Cancel` | internal/booking/domain/lifecycle.go:141-149 | a reason too long changes nothing; otherwise cancelled by whom, why and when |
| `Appointments.Appointment.CancelByCustomer` | internal/booking/domain/lifecycle.go:82-98 | result, state and event are the transition function's, deadlines included |
| `Appointments.Appointment.CancelByStaff` | internal/booking/domain/lifecycle.go:100-107 | result, state and event are the transition function's |
| `Appointments.Appointment.Expire` | internal/booking/domain/lifecycle.go:109-117 | result, state and event are the transition function's |
| `Appointments.Appointment.Finish` | internal/booking/domain/lifecycle.go:119-139 | result, state and event are the transition function's, for completed and no-show |
| `Lifecycle.ActIsSound` | internal/booking/domain/lifecycle.go:56-167 | every action keeps an expiry iff pending and a cancellation iff cancelled, moves along the diagram or not at all, and never touches span, barber or price |
| `Lifecycle.ActMeans` | internal/booking/domain/lifecycle.go:62-167 | the table of the lifecycle: when each action succeeds, by status, deadline and reason; the status it ends in; for a cancellation by whom, why and when |
| `Lifecycle.RefusalMeans` | internal/booking/domain/lifecycle.go:62-158 | why each action fails, and that a refusal names the status as anyone reads it then |
| `Lifecycle.FinalMeans` | internal/booking/domain/lifecycle.go:62-158 | a status is final exactly when nothing can ever succeed any more |
| `Lifecycle.EdgesAreActions` | internal/booking/domain/lifecycle.go:56-167 | each line of the diagram is some action's |
| `Lifecycle.LifeStory` | internal/booking/domain/lifecycle.go:56-167 | in every life the events form an unbroken chain ending in the current state, one per version, never more than three versions |
| `Lifecycle.FinalAbsorbs` | internal/booking/domain/lifecycle.go:56-167 | a final status refuses every action for ever, naming that status |
| `Lifecycle.CancelOrFinish` | internal/booking/domain/lifecycle.go:82-139 | customer cancellation and completion or no-show are never both possible at one instant |
| `Lifecycle.JobIsInvisibleFrom` | internal/booking/domain/lifecycle.go:109-158 | the simulation: a run with the expiry job and one without give the same results to everything else |
| `Lifecycle.ExpiryTimingUnobservable` | internal/booking/domain/lifecycle.go:151-158 | two runs that differ only in when the job ran answer every other action alike and read the same afterwards |
| `Lifecycle.BackwardClockShowsTheJob` | internal/booking/domain/lifecycle.go:109-158 | a clock going back does show it, so the condition on the clock is needed |
| `BookingStore.FirstFree` | internal/booking/adapters/postgres/book.go:107-154 | the first draft whose barber still works then and is free; every earlier one fails one of the two |
| `BookingStore.BookKeeps` | internal/booking/app/book.go:52-62 | a booking keeps the store good and leaves every earlier appointment and key as it was |
| `BookingStore.ChangeKeeps` | internal/booking/adapters/postgres/change.go:35-62 | every lifecycle action keeps the store good: nothing moves, changes hands or comes back to life |
| `BookingStore.ChangeLeaves` | internal/booking/adapters/postgres/change.go:35-62 | it leaves its appointment as the action does, and everything else as it was |
| `BookingStore.NeverDoubleBooked` | migrations/00017_booking_appointments.sql:35-38 | in every interleaving of bookings and actions, a barber's active appointments never overlap |
| `BookingStore.RetryIsReplayed` | internal/booking/adapters/postgres/book.go:156-181 | a retry with the same key after any history gets the first appointment and changes nothing; a different request is refused |
| `BookingStore.BookedIsUpcoming` | internal/booking/adapters/postgres/queries.sql:27-31 | a booking counts against its customer at its branch until it starts, and against nobody else |
| `BookingStore.FinalIsNotUpcoming` | internal/booking/adapters/postgres/queries.sql:27-31 | a change takes a booking off the count exactly when it leaves it final |
| `BookingStore.StepKeepsLimit` | internal/booking/adapters/postgres/book.go:95-106 | one step keeps a customer's upcoming bookings at the branch within the limit, at any instant its clock has reached |
| `BookingStore.LimitHolds` | internal/booking/adapters/postgres/queries.sql:27-36 | so does every history, in whatever order transactions commit and whenever each read its clock |
| `BookingStore.OnlyTheJobFreesTheTime` | internal/booking/adapters/postgres/change.go:64-99 | an overdue pending booking blocks its barber's time; once the expiry is written a draft is free if and only if nothing else blocks it |
| `BookingStore.OnlyTheJobFreesThePlace` | internal/booking/adapters/postgres/queries.sql:27-31 | until then it counts among its customer's upcoming bookings, and the job takes exactly it out |
| `BookingStore.JobShowsToAttempt` | internal/booking/adapters/postgres/book.go:72-126 | the transaction's answer to one given attempt differs before and after the job if and only if the key is new, there is a draft, and the overdue booking holds the last place or alone blocks a better draft with another answer |
| `BookingStore.JobShowsToNewDrafts` | internal/booking/adapters/postgres/book.go:72-126 | for an attempt whose drafts have new IDs: holds the last place, or alone blocks a working draft before the one chosen |
| `Availability.Candidate.CanTake` | internal/booking/domain/availability.go:90-113 | true exactly when the booking has length, one window covers it and no appointment overlaps it |
| `Availability.TakesByInstants` | internal/booking/domain/availability.go:90-113 | with merged windows: exactly when every instant is covered and none is taken |
| `Availability.GridReads` | internal/booking/domain/availability.go:115-121 | in any zone, a start is on the grid exactly when the local clock reads a whole number of steps past midnight, and no seconds |
| `Availability.FixedGrid` | internal/booking/domain/availability.go:115-121 | without clock changes: the clock times that are multiples of the interval |
| `Availability.FixedGridIsAt` | internal/booking/domain/availability.go:115-121 | and nothing but those |
| `Availability.Grid` | internal/booking/domain/availability.go:74-88 | in order, exactly the day's instants whose local clock is on the grid, on days with clock changes too |
| `Availability.Slots` | internal/booking/domain/availability.go:42-72 | strictly increasing; every slot is offered and lists exactly who can take it; no start that somebody can take is missing |
| `Availability.SlotsByStart` | internal/booking/domain/availability.go:42-72 | a start and a barber are listed if and only if the start is offered and that candidate can take it |
| `Availability.FreeStaffInOrder` | internal/booking/domain/availability.go:60-69 | candidates by ID give each slot's barbers by ID, each once |
| `BookingApp.HasDuplicates` | internal/booking/app/availability.go:284-293 | true exactly when two positions hold the same ID |
| `BookingApp.FetchWindows` | internal/scheduling/app/windows.go:60-95 | an error exactly for a bad range; the working instants of active staff, though only time off not yet over is listed; nothing for anyone else, as booking's adapter answers |
| `BookingApp.ClippingIsInvisible` | internal/booking/app/availability.go:255-257 | cutting windows and appointments to the fetched range changes no answer for a start on the day |
| `BookingApp.Longest` | internal/booking/app/availability.go:249-254 | the running maximum is at least every booking's length and keeps the range within what scheduling answers |
| `BookingApp.Candidates` | internal/booking/app/availability.go:245-282 | one candidate per offer, who can take a start of the day exactly when every instant is working and free; never an error |
| `BookingApp.Select` | internal/booking/app/availability.go:149-155 | exactly the offer of the barber asked for; refused exactly when there is none |
| `BookingApp.ChooseOffers` | internal/booking/app/availability.go:141-155 | exactly the active barbers who perform everything, narrowed to the one asked for; which error, exactly when |
| `BookingApp.NoneThatDay` | internal/booking/app/availability.go:158-163 | returning early for a day past or too far off loses no slot |
| `BookingApp.Query` | internal/booking/app/availability.go:127-175 | every error exactly when, a branch that takes no bookings included; otherwise exactly the chosen barbers' offers by ID, and a start and a barber are listed if and only if the branch offers the start that day and the barber is possible |
| `BookingApp.StartMeans` | internal/booking/app/book.go:300-311 | a start is offered exactly when it is on the grid, at least the lead time away, and on no later date than the horizon |
| `BookingApp.ListedStarts` | internal/booking/app/availability.go:127-175 | each start listed is a multiple of the interval past the day's midnight |
| `BookingApp.Loads` | internal/booking/app/book.go:320-333 | exactly who can take the start, each with what they are booked for that day |
| `BookingApp.BookedTime` | internal/booking/app/book.go:325-330 | the sum of what the appointments take of the day |
| `BookingApp.BookedIsBusyTime` | internal/booking/app/book.go:325-330 | for appointments that do not overlap, that sum is the number of instants of the day that are taken |
| `BookingApp.FreeAt` | internal/booking/app/book.go:313-343 | exactly the possible barbers, each once, least booked that day first, then by ID |
| `BookingApp.LeastBusyFirst` | internal/booking/app/book.go:313-343 | by how many instants of the day each one's appointments take, then by ID |
| `BookingApp.ItemsAddUp` | internal/booking/domain/appointment.go:147-158 | the items' sums are the offer's totals and adding them never overflows |
| `BookingApp.Draft` | internal/booking/app/book.go:132-145 | every field of the draft: the span that was checked, the offer's price within the store's cap, expiry and deadline by the branch's policy, assignment by the request; only a long note is refused |
| `BookingApp.PrepareBooking` | internal/booking/app/book.go:89-145 | every error exactly when; otherwise one draft per possible barber, best first |
| `BookingApp.AvailabilityIsBooking` | internal/booking/app/book.go:300-343 | a start and barber are among the slots shown if and only if booking passes the start and finds that barber free |
| `BookingApp.StillWorking` | internal/booking/app/book.go:160-171 | with windows clipped to just the draft's span: true exactly when the barber is still active staff and every instant of it is a working instant |
| `BookingApp.SecondLookAgrees` | internal/booking/app/book.go:160-171 | with nothing changed, the second look always agrees with the first |
| `EndToEnd.DraftsFitTheStore` | internal/booking/app/book.go:146-157 | the drafts meet what the store expects of an attempt |
| `EndToEnd.PossibleIsFree` | migrations/00017_booking_appointments.sql:35-38 | a possible barber's draft passes the exclusion constraint |
| `EndToEnd.Rechecked` | internal/booking/adapters/postgres/book.go:136-142 | which drafts' barbers still work throughout, by the hours as re-read |
| `EndToEnd.ShownIsBookable` | internal/booking/app/book.go:80-88 | a slot shown is booked if nothing changed, and goes to the least booked barber |
| `EndToEnd.MakeAttempt` | internal/booking/app/book.go:100-157 | which request is turned down with which error; otherwise the attempt of exactly the possible barbers, with its second look |
| `EndToEnd.Commit` | internal/booking/adapters/postgres/book.go:53-126 | a used key is replayed; a booking is the one thing added, of a possible barber who still works and is free; anything else changes nothing; with nothing changed, exactly which answer, and that the first of the free barbers gets it |
| `EndToEnd.BookNew` | internal/booking/app/book.go:97-158 | the same for a key found to be new, with the list of who is free |
| `EndToEnd.BookAppointment` | internal/booking/app/book.go:80-158 | from request to store, even if hours, bookings or the key changed in between: retries replay, nothing is double booked or lost; with nothing changed, exactly the reply and who will see the customer |
| `BookingApp.FreeIsDetermined` | internal/booking/app/book.go:313-343 | who is free, and in what order, leaves nothing open |
| `ExpiryJob.JobFreesInstants` | internal/booking/adapters/postgres/queries.sql:3-11 | after the job, a barber's taken time is what it was before but for the overdue booking's |
| `ExpiryJob.PossibleAfter` | internal/booking/domain/availability.go:90-113 | nobody but its barber becomes possible, and they exactly when only that booking was in the way |
| `ExpiryJob.LoadAfter` | internal/booking/app/book.go:320-333 | the load that orders the barbers drops by what the booking takes of the day, for its barber alone |
| `ExpiryJob.FirstAfter` | internal/booking/app/book.go:313-343 | another barber comes first exactly when the overdue booking's takes over: could take it, was not first, and precedes everyone free without those hours |
| `ExpiryJob.JobShowsToRequest` | internal/booking/app/book.go:80-158 | the reply to a request differs before and after the job if and only if it looks for free time, and nobody is free and that barber would be, or somebody is and the booking takes the last place or that barber takes over |
| `ExpiryJob.JobShowsToQuery` | internal/booking/app/availability.go:127-175 | the slots of a day gain exactly the starts that barber could take but for the overdue booking |
| `ExpiryJob.OverdueHoldsTheTime` | internal/booking/adapters/postgres/queries.sql:3-11 | a request for the time it holds: unavailable before the job, booked after it |
| `ExpiryJob.OverdueHoldsThePlace` | internal/booking/adapters/postgres/queries.sql:27-31 | a request by its customer for another barber: too many bookings before the job, booked after it |
| `ExpiryJob.OverdueCountsAsLoad` | internal/booking/app/book.go:313-343 | a request for any barber: the other one before the job, its own after it |
| `OtpGuard.OTPGuard.Check` | internal/iam/domain/otp_guard.go:17-23 | locked or not, and for how much longer |
| `OtpGuard.OTPGuard.Fail` | internal/iam/domain/otp_guard.go:25-41 | the new state and answer are the transition function's |
| `OtpGuard.OTPGuard.Reset` | internal/iam/domain/otp_guard.go:43-44 | the guard is as new |
| `OtpGuard.FailKeeps` | internal/iam/domain/otp_guard.go:25-41 | a counted failure keeps the fields true to what was counted, and the counted ones sparse |
| `OtpGuard.InvRun` | internal/iam/domain/otp_guard.go:17-41 | so does every sequence of failures |
| `OtpGuard.FailuresBounded` | internal/iam/domain/otp_guard.go:17-41 | in every run without a success, no stretch as long as the failure window holds more than 2 * MaxFailures - 2 counted failures (1 if one locks) |
| `OtpGuard.BoundIsTight` | internal/iam/domain/otp_guard.go:17-41 | a run that reaches the bound |
| `OtpGuard.ShortLockoutBreaksIt` | internal/iam/domain/otp_guard.go:17-41 | every lockout shorter than the window, none at all included, admits a run over the bound |
| `OtpGuard.LockoutDecides` | internal/iam/domain/otp_guard.go:17-41 | the bound holds over every run if and only if the lockout is at least as long as the window (or the window is empty) |
| `OtpRequests.PhoneStore.RequestOTP` | internal/iam/app/request_otp.go:41-99 | the codes stored and the answer are the transition function's, a message that cannot be sent included; the guard is only read |
| `OtpRequests.RequestMeans` | internal/iam/app/request_otp.go:49-91 | a code is made exactly when the phone is not locked, the cooldown is over, the closed hour ending now holds fewer than the cap, and saving works; otherwise which refusal, and how long to wait |
| `OtpRequests.NoCodeWhileLocked` | internal/iam/app/request_otp.go:49-57 | in every run no code is made while the phone is locked |
| `OtpRequests.OneMoreCode` | internal/iam/app/request_otp.go:62-79 | one request keeps any MaxPerHour + 1 codes in a row more than an hour long |
| `OtpRequests.CodesLimited` | internal/iam/app/request_otp.go:49-91 | in every run, codes are at least the cooldown apart and no closed hour, wherever it starts, holds more than the cap |
| `Sessions.Session.Rotate` | internal/iam/domain/session.go:63-90 | session, token and answer are the transition function's |
| `Sessions.Session.Revoke` | internal/iam/domain/session.go:92-99 | ends the session; an ended one keeps its first reason |
| `Sessions.AcceptsExactly` | internal/iam/domain/session.go:63-90 | a token is taken exactly when its session is live, it is neither spent nor expired, and a next one can be made |
| `Sessions.AcceptedLeaves` | internal/iam/app/sessions.go:107-140 | an accepted refresh spends the token, makes the next one good for its lifetime, and gives it out unless the user is blocked or gone |
| `Sessions.UnusableIsRefused` | internal/iam/domain/session.go:63-90 | an unknown or expired token, or one of an ended session, is refused as invalid with nothing changed |
| `Sessions.StartMeans` | internal/iam/app/sessions.go:38-56 | a session starts exactly with a user, new names and a lifetime, with one token |
| `Sessions.LogOutMeans` | internal/iam/app/sessions.go:154-168 | logging out ends the caller's own live session and nothing else |
| `Sessions.EndBlockedMeans` | internal/iam/app/sessions.go:131-139 | a blocked user's live session is ended for that reason and nothing else changes |
| `Sessions.LifetimesHold` | internal/iam/domain/session.go:141-152 | in every run a token expires exactly its lifetime after it was made |
| `Sessions.RefreshIsGood` | internal/iam/app/sessions.go:93-125 | a refresh keeps at most one unspent token per session |
| `Sessions.StepIsGood` | internal/iam/app/sessions.go:93-141 | so does every transaction, a blocked user's second one included; nothing is undone, and a token taken was unspent and is spent |
| `Sessions.EveryRun` | internal/iam/domain/repository.go:44-58 | in every run of start, refresh and logout: at most one unspent token, ended sessions stay ended for their first reason and never get a token |
| `Sessions.TakenOnce` | internal/iam/domain/session.go:63-90 | in every run each token is accepted at most once |
| `Sessions.ReuseEndsTheSession` | internal/iam/app/sessions.go:93-125 | presenting a spent token is refused and still ends a live session |
| `Sessions.TwiceMeansOver` | internal/iam/domain/session.go:63-90 | a token taken and presented again at any later point leaves its session ended for good |
| `Outbox.RecipientsAreTheUnion` | internal/platform/outbox/outbox.go:227-240 | the names fanned out to are the union of publisher's and worker's subscribers, each once |
| `Outbox.Bus.Subscribe` | internal/platform/outbox/outbox.go:100-111 | adds the name to its kind and to nothing else; a name taken is the panic |
| `Outbox.Bus.PublishTx` | internal/platform/outbox/outbox.go:138-156 | one job per event, in order, with the subscribers known here |
| `Outbox.Bus.Work` | internal/platform/outbox/outbox.go:224-252 | all the deliveries and the event done, or nothing |
| `Outbox.DeliveredOnceToEach` | internal/platform/outbox/outbox.go:224-252 | exactly one delivery per name in the union |
| `Branches.Branch.New` | internal/business/domain/branch.go:122-136 | refused exactly for an invalid profile; a draft of version 1, the default policy if none is given, and no event |
| `Branches.Branch.Edit` | internal/business/domain/branch.go:138-152 | refused with nothing changed, or the new state is the event |
| `Branches.Readiness.Missing` | internal/business/domain/branch.go:185-194 | nothing is missing exactly when the branch is ready; what is listed, and that a barber is asked for only once there is a service |
| `Branches.Branch.Publish` | internal/business/domain/branch.go:176-202 | refused with nothing changed and what is missing, or the new state is the event |
| `Branches.Branch.Unpublish` | internal/business/domain/branch.go:204-214 | refused with nothing changed, or the new state is the event |
| `Branches.Branch.Touch` | internal/business/domain/branch.go:226-230 | one version on |
| `Branches.ChangeMeans` | internal/business/domain/branch.go:138-214 | when each change is made or refused, and which status and profile it leaves |
| `Branches.KeepMeans` | internal/discovery/domain/listing.go:152-155 | a copy is replaced exactly by something newer |
| `Branches.NewestIsCurrent` | internal/business/domain/branch.go:138-230 | in every life there is one event per version and the newest is the branch as it is |
| `Branches.CopyIsNewest` | internal/discovery/domain/listing.go:152-155 | whatever arrives in whatever order, the copy is the newest of it |
| `Branches.CopyConverges` | internal/discovery/domain/listing.go:152-155 | deliveries holding each event at least once, in any order with repeats, leave the copy equal to the branch |
| `Branches.MoveKeeps` | internal/platform/outbox/outbox.go:138-284 | each commit, fan-out or delivery, completed or given up, keeps every event queued, on its way, in the copy, or noted as missed |
| `Branches.RunKeeps` | internal/platform/outbox/outbox.go:138-284 | so does every sequence of them |
| `Branches.QuietMeansCurrent` | internal/platform/outbox/outbox.go:138-284 | whenever nothing is queued or on its way to a listener, its copy is the branch exactly as it is if and only if the last event was not missed |
| `Branches.CurrentIsHandedOver` | internal/platform/outbox/outbox.go:138-284 | in every run the copy is current if and only if some move handed over the last event; once quiet, if none did, some move gave that event up |
| `Branches.FairMissesNothing` | internal/platform/outbox/outbox.go:224-284 | nothing is missed while the listener is subscribed at one end and deliveries end only by being handled |
| `Notifier.Handlers.PushOnce` | internal/notification/app/app.go:154-180 | state and answer are the transition function's, for every fault |
| `Notifier.Handlers.Notify` | internal/notification/app/app.go:123-152 | nothing when not due or not listed; otherwise every device in turn |
| `Notifier.PushMeans` | internal/notification/app/app.go:154-180 | whether a device is pushed to, when it is forgotten, which outcome goes on record, and when the call has done its part |
| `Notifier.NotifyWitnessed` | internal/notification/app/app.go:123-180 | whoever is forgotten was reported gone, and what is on record is what the push service said |
| `Notifier.NotifyAll` | internal/notification/app/app.go:123-180 | recorded deliveries stay, nothing recorded is pushed, every device is tried or failed first, and success means every device is recorded or forgotten |
| `Notifier.ReplayIsSilent` | internal/notification/app/app.go:154-160 | an event replayed to recorded devices pushes and changes nothing |
| `Notifier.NotifyThenReplay` | internal/notification/app/app.go:123-180 | so after a success, with no new device, a replay is silent |
| `Notifier.RecordedIsNeverPushed` | internal/notification/app/app.go:154-180 | over any calls in any order with any faults, a recorded device is never pushed that event again |
| `Notifier.PushedAtMostOnce` | internal/notification/app/app.go:154-180 | while recording works, nothing is pushed again after the push service took it |

## Left out

- HTTP, routing, configuration, logging, migrations and wiring: no property beyond the calls they make.
- PostgreSQL, River, advisory locks and JSON: present only as one-step transactions with their documented constraints.
- Booking by staff (`StaffBook`, `checkStaffStart`): it reuses the same parts with fewer rules; the store model admits such attempts, without a limit.
- Dates as year, month and day, and dates that do not exist: a date is its day number.
- Clock changes within reach of midnight: `time.Date` does not promise which instant it answers; `Zone.Valid` states the assumption.
- Schedules.CheckOverrides: leaves out the refusal of dates that do not exist, since a day number always does.
- Schedules.BarberSchedule.Set: leaves out the same refusal.
- TwoShops.ZonesDecide: takes zones within a day of UTC whose clock is later a day later, as all are but for the few that once skipped a whole date.
- Branches.Branch.New: whether a profile validates is a parameter; the texts, city and coordinates behind it are short guards.
- Branches.Branch.Edit: the same.
- BookingApp.Query: failing reads of other modules end the request and are not modelled.
- BookingApp.FetchWindows: failing reads, as above.
- Notifier.PushedAtMostOnce: assumes recording works; a push whose record fails may be repeated, as the code accepts.
- Names of services, barbers and customers, and the wording of messages: carried along or dropped, never decided on.
- Trimming and counting of characters: texts arrive trimmed and are counted by their length.
- The two concurrent reads in `candidates`: made one after the other, since they do not depend on each other.
- Hashes, tokens, IDs, SMS and push providers: opaque values and explicit outcomes.
- Verifying a login code against its challenge: a short chain of guards.
- Media, billing, business review, invitations and search: short guard chains or decided in SQL.
