# Movie showtimes and seat booking, in Dafny

This project models the two programs of the `reservation` package.

**The showtime generator** (`reservation/movie_schedule.py`, `generate_schedule`):

- It keeps the catalogue movies that are running on the start date.
- It sorts them newest release first, longer runtime first among equals.
- It sorts the auditoriums largest first.
- Every movie except the last two gets a dedicated auditorium. The last two share the smallest auditorium and alternate in it.
- For each requested date it looks up the opening hours of the day's class ("Weekday" or "Weekend"). The first showing is 5 minutes after opening, rounded up to the next 5-minute mark.
- It then makes passes over the movies. Each pass places a showing wherever the room's next 5-minute start is no later than 5 minutes before closing. The day ends at the first pass that places nothing.
- Each showing is priced at the matinee rate before 18:00 and at the adult rate from 18:00.

**The seat-booking ledger** (`reservation/movie_booking.py`, `MovieBookingApp`):

- It holds four movies with their free seats and prices.
- It holds one booking per customer name.
- Booking a seat takes one seat of the chosen movie.
- If the customer already holds a booking, it first gives one seat back to the first movie carrying that booking's title.

**Files:**

- `wrappers.dfy`: `Option` and `Result`.
- `sorting.dfy`: the stable sort that Python's `list.sort` performs.
- `showtimes.dfy`: the configuration values, the 5-minute rounding, weekend detection, prices and the release filter.
- `auditoriums.dfy`: `assign_auditoriums`.
- `day_schedule.dfy`: the day loop and what it guarantees.
- `generate.dfy`: `generate_schedule` over a run of dates.
- `booking.dfy`: the booking class.

**Representation:**

- Dates are proleptic Gregorian ordinals, as Python's `date.toordinal()` gives them.
- Times are minutes after the scheduled day's midnight.
- The exceptions that end `generate_schedule` (`IndexError` and `StopIteration`) become `Failure` results, reported in the order the source raises them.

Two facts about the code shape the model:

- The eligibility window is half-open: a movie runs up to, but not including, the day `release + 7 * weeks`.
- Eligibility is decided once, on the start date, for every scheduled date.

## Model

| member | source | states |
|---|---|---|
| Showtimes.RoundToNext5 | reservation/movie_schedule.py:10-15 | the result is the least multiple of 5 minutes at or after the input: on the 5-minute grid and less than 5 minutes later, minute 60 carrying into the next hour |
| Showtimes.RoundToNext5Aligned | reservation/movie_schedule.py:10-15 | a time already on the grid is unchanged, so rounding is idempotent |
| Showtimes.IsWeekend | reservation/movie_schedule.py:17-18 | a date is a weekend day exactly when it is a Saturday or a Sunday: its ordinal is 6 or 0 modulo 7 |
| Showtimes.PriceSplit | reservation/movie_schedule.py:107 | a start within the day before 18:00 gets the matinee price, from 18:00 the adult price |
| Showtimes.FilterActive | reservation/movie_schedule.py:20-32 | the kept movies are at most as many as the input, each released on or before the start date with the start date before its end date, each a copy of an input movie with its release date as a date |
| Showtimes.FilterActiveAppend | reservation/movie_schedule.py:20-32 | filtering keeps input order: the filter of a concatenation is the concatenation of the filters |
| Showtimes.FilterActiveKeeps | reservation/movie_schedule.py:28-31 | every movie active on the start date appears, normalised, in the filtered list |
| Sorting.SortByPermutation | reservation/movie_schedule.py:36-38 | sorting returns a permutation of its input (same multiset) |
| Sorting.SortBySorted | reservation/movie_schedule.py:36-38 | under a total preorder, the sorted list is ordered |
| Auditoriums.MovieOrderIsTotal | reservation/movie_schedule.py:36 | "newer release first, then longer runtime first" is a total preorder on movies |
| Auditoriums.AuditoriumOrderIsTotal | reservation/movie_schedule.py:38 | "smaller size rank first" is a total preorder on auditoriums |
| Auditoriums.SortKeepsDistinct | reservation/movie_schedule.py:36 | sorting keeps titles distinct when they were distinct |
| Auditoriums.TableKeys | reservation/movie_schedule.py:40 | the assignment table has exactly one entry per movie title |
| Auditoriums.RoomTableCovers | reservation/movie_schedule.py:40-49 | every movie has a table entry, every room handed out is a configured auditorium, and with fewer than two movies every entry is empty |
| Auditoriums.RoomTableOfDistinct | reservation/movie_schedule.py:43-49 | with distinct titles, movie i before the last two gets auditorium i and each of the last two gets the last (smallest) auditorium |
| Auditoriums.BuildRoomTable | reservation/movie_schedule.py:40-49 | the table-building loops fail with IndexError exactly when there are fewer auditoriums than movies minus two, or there are two or more movies and no auditorium; otherwise they build the assignment table |
| Auditoriums.AssignAuditoriums | reservation/movie_schedule.py:34-51 | fails exactly under that IndexError condition; otherwise returns both lists sorted, the table of the sorted lists and the last two sorted movies as the shared pair (none with fewer than two) |
| DaySchedule.TryPlace | reservation/movie_schedule.py:103-114 | a showing is placed exactly when the room's next 5-minute start is no later than closing minus 5. It is placed at that start, at the clock price, and the room's end becomes start + runtime + 5. Placing keeps every day invariant and strictly uses up room time. Not placing changes nothing. Either way the new end times are `Offer` of the old ones: only this room's entry can move |
| DaySchedule.OfferRooms | reservation/movie_schedule.py:121-135 | a dedicated (non-shared) movie is offered its assigned rooms. The earlier showings are kept as a prefix, every added showing is of this movie, and the shared turn is unchanged. The day invariants are kept, and a placement uses up room time. If nothing was placed, the state is unchanged and the movie is blocked in every room. A movie without rooms places nothing. The new end times are `OfferAll` of the listed rooms in list order, so each listed room is offered exactly once, and at most one showing is added per listed room |
| DaySchedule.OfferAllMoves | reservation/movie_schedule.py:121-135 | offering a movie its rooms never moves a room's end time back, leaves every unlisted room as it was, and moves forward every listed room whose next start fits before closing minus 5 |
| DaySchedule.OfferAllDistinct | reservation/movie_schedule.py:121-135 | when no room is listed twice, each listed room ends exactly where one offer of it puts it: at its next 5-minute start + runtime + 5 if that start fits, else where it was |
| DaySchedule.OfferRoom | reservation/movie_schedule.py:122-135 | one room of a dedicated movie's list: the loop's invariants carry over to the next room, the end times advance by `Offer` of this room, and the placed flag is set after this room exactly when it was set before or this room's next start fits |
| DaySchedule.OfferMovie | reservation/movie_schedule.py:92-135 | one movie of a pass: a shared movie whose turn it is not places nothing. Earlier showings stay a prefix, every added one is of this movie, and the day invariants are kept. Placing uses up room time; placing nothing leaves the state unchanged with the movie blocked. With no rooms nothing is placed |
| DaySchedule.Pass | reservation/movie_schedule.py:90-135 | one pass over the sorted movies keeps the earlier showings as a prefix and keeps the invariants. A pass that places something strictly uses up room time; one that places nothing leaves every movie blocked |
| DaySchedule.ScheduleDay | reservation/movie_schedule.py:82-139 | the day's showings start on the 5-minute grid, between the first showing time and closing minus 5, each when its room became free, in an assigned room (shared movies in the shared room, alternating), at the clock price; at the end no room can take another showing; with no rooms nothing is shown |
| DaySchedule.PlaceKeeps | reservation/movie_schedule.py:103-118 | appending a placed showing, its new room end and the next shared turn keeps the day invariants |
| DaySchedule.PlaceDrops | reservation/movie_schedule.py:114 | each placement strictly decreases the total time left before closing, so the day loop ends |
| DaySchedule.SaturatedAtEnd | reservation/movie_schedule.py:137-139 | when a pass places nothing, every dedicated room and the shared room would next start after closing minus 5 |
| DaySchedule.NoOverlap | reservation/movie_schedule.py:114 | a later showing in the same auditorium starts no earlier than the earlier one's start + runtime + 5 |
| DaySchedule.PlacementsNoOverlap | reservation/movie_schedule.py:103-134 | no two showings of a day in one auditorium overlap, the 5-minute padding included |
| DaySchedule.SharedTurns | reservation/movie_schedule.py:97-118 | two successive shared showings are of the two shared movies in turn |
| Generate.FindHours | reservation/movie_schedule.py:75-76 | a found entry is in the hours table and carries the day's label |
| Generate.FindHoursFirst | reservation/movie_schedule.py:75-76 | the lookup fails exactly when no entry carries the label, and otherwise returns the first entry that does |
| Generate.DayCount | reservation/movie_schedule.py:56-57 | at least one date is scheduled; a `days` of 1 or more is kept |
| Generate.ScheduledMoviesAdvance | reservation/movie_schedule.py:63-66 | the sorted active movies are as many as the active ones, and every runtime moves a room's clock forward |
| Generate.SetupWellFormed | reservation/movie_schedule.py:82-86 | a day's inputs from a successful assignment are consistent: shared movies among the movies, every movie in the table, every handed-out room has an end time, the shared room is an auditorium |
| Generate.DayPricedByClock | reservation/movie_schedule.py:107 | within hours that parse, every showing's price is matinee before 18:00 and adult from 18:00 |
| Generate.FirstMissing | reservation/movie_schedule.py:68-76 | a reported date is within the requested run and has no hours entry for its label |
| Generate.FirstMissingIsFirst | reservation/movie_schedule.py:68-76 | every date before the first missing one has its hours entry |
| Generate.ScheduleDate | reservation/movie_schedule.py:69-139 | one date fails with the missing-hours error when its label has no entry, else with IndexError when there are no auditoriums, and otherwise yields a day satisfying all the day guarantees |
| Generate.ScheduleDays | reservation/movie_schedule.py:68-139 | over the run of dates: the first date without hours (or an empty auditorium list on the first date) ends it with that error; otherwise every date of the run, and no other, is scheduled and satisfies the day guarantees |
| Generate.GenerateSchedule | reservation/movie_schedule.py:53-141 | errors in the source's order (assignment IndexError, the first date's hours, `auditoriums[-1]`, later dates' hours); on success the keys are exactly the DayCount(days) dates from the start date, each day satisfies the day guarantees, and with fewer than two active movies every day is empty |
| Booking.FirstWithTitle | reservation/movie_booking.py:26-29 | a found movie is in the catalogue order and carries the searched title |
| Booking.FirstWithTitleIsFirst | reservation/movie_booking.py:26-29 | the search finds nothing exactly when no movie carries the title, and otherwise finds the first one in iteration order |
| Booking.ReturnSeatEffect | reservation/movie_booking.py:23-29 | undoing a booking adds one seat to the first movie with the previous title and changes no other seat count, title or price |
| Booking.SeatSumWithSeats | reservation/movie_booking.py:28-31 | changing one movie's seats changes the total free seats by exactly the difference |
| Booking.BookingKeepsLedger | reservation/movie_booking.py:20-36 | a booking of a movie with a free seat keeps every seat count non-negative and every booking naming a catalogue title |
| Booking.BookingConserves | reservation/movie_booking.py:23-36 | a booking keeps free seats plus bookings constant: a returning customer's old seat comes back, a new customer adds one booking |
| Booking.MovieBookingApp.constructor | reservation/movie_booking.py:3-10 | the ledger starts with Avatar (10 seats, 15), Titanic (8, 12), Avengers: Endgame (5, 18) and The Dark Knight (7, 14) under ids 1 to 4 in that order, 30 free seats and no bookings |
| Booking.MovieBookingApp.BookTicket | reservation/movie_booking.py:15-39 | an unknown id or a sold-out movie changes nothing. Otherwise the previous seat is returned, one seat of the movie is taken, and the booking records title, seats left and price. The ledger invariant and the seats-plus-bookings total are preserved |
| Booking.MovieBookingApp.ReturnPreviousSeat | reservation/movie_booking.py:26-29 | the undo loop leaves the catalogue exactly as `ReturnSeat` of the old catalogue: the first movie with the title regains one seat |

## Left out

- Reading the YAML configuration, printing the schedule and the script entry point are not modelled. They are I/O.
- `show_movies`, `view_bookings`, `run` and the menu are not modelled. They are console I/O.
- `book_ticket` reads the movie id and the name with `input()`; the model takes them as parameters. A non-numeric id makes `int()` raise, and that is not modelled. The printed messages become the `Outcome` value.
- Dates and times are numbers. Parsing and formatting of "YYYY-MM-DD" and "HH:MM", seconds, and today's date are not modelled; the caller supplies today's ordinal.
- `days` given as a non-integer is not modelled. The model's `days` is always an integer, clamped to 1 when below 1.
- Generate.GenerateSchedule: requires that the first "Weekday" entry and the first "Weekend" entry of the hours table parse as "HH:MM" (`HoursParse`). Those are the only entries the source reads. A malformed time makes the source raise `ValueError`, which is not modelled. The requirement covers both entries even when the run of dates uses only one of them, so it is stronger than the source needs for such runs.
- Generate.GenerateSchedule: requires every movie active on the start date to have a runtime above -5 minutes (`RuntimesAdvance`). Otherwise a room's clock does not advance once such a movie is placed, and the source loops forever. An active movie that is never placed (for example, the only active movie) is covered by the requirement although the source would end; it is stronger than the source needs there.
- A movie is identified by four fields: title, runtime, release date and weeks. The source decides whether a movie takes the shared branch (`movie in shared_movies`, and the turn test against `shared_movies[...]`) by equality of whole configuration entries. Two entries that differ only in another key are different there but equal in the model, so such a pair is not captured.
- Sorting.SortBySorted: stability of the sort (equal keys keep their input order) is implemented but not stated as a separate property.
- Auditoriums.AssignAuditoriums: the source sorts `movies` and `config["auditoriums"]` in place. The model returns the sorted lists as values, so aliasing of the configuration lists is not captured.
- Generate.GenerateSchedule: a schedule partly built before a later date raises is discarded. The source also loses it, because the exception leaves `generate_schedule`.
- Generate.GenerateSchedule: the movies that play on each date are those active on the start date, even for later dates.
- DaySchedule.ScheduleDay: only a showing's start is checked against closing minus 5. A showing may run past closing, as in the source.
- DaySchedule.ScheduleDay: a single active movie is never shown. With one movie, no room is assigned and there is no shared pair.
- DaySchedule.ScheduleDay: the shared room is the last sorted auditorium. With exactly as many auditoriums as movies minus two, it is also the last dedicated movie's room. The two can then both show in that room, and `NoOverlaps` holds over all showings of the room either way.
- DaySchedule.ScheduleDay: the contract does not fix which movie takes each slot of a room used by more than one movie. That room is the shared room when it doubles as a dedicated room, or a room listed under a title held by two catalogue movies. For example, with three movies and one auditorium, the contract also accepts a day where only the dedicated movie plays, while the source alternates it with the shared pair. Nor does the contract fix the order of showings across rooms, which the source appends pass by pass in movie order.
- The movie behind each showing and the day records are ghost outputs. They let runtimes be mentioned in contracts; they are not part of the returned schedule.
- DaySchedule.Pass: the contract states that a pass keeps the earlier showings as a prefix, keeps the day invariants and either uses up room time or leaves every movie blocked. It does not state what the pass appends: that the added showings come movie by movie in the order of the sorted list, nor how many each movie adds. DaySchedule.OfferMovie states, for each single movie, that its showings are all of that movie.
- DaySchedule.OfferRooms: the contract fixes every room's new end time (`OfferAll` over the list, exactly one offer per room when no room is listed twice) and bounds the added showings by the list's length. It does not state the order in which the added showings follow the rooms of the list.
- Generate.GenerateSchedule: dates are unbounded ordinals. Python's dates end at 9999-12-31 (ordinal 3652059), and date and datetime arithmetic past it raises `OverflowError`: the end date `release + weeks` (reservation/movie_schedule.py:27), the dates of the run and their opening times (:69, :79), the hour carry of the rounding (:14) and a room's new end time (:114, :134). None of these errors is modelled. For example, a movie released on 9999-12-01 for 8 weeks makes the source raise while filtering; the model counts it as not active and goes on.
- Showtimes.FilterActive: `weeks` is an integer in the model. A fractional `weeks`, which `timedelta` accepts, is not modelled.
- DaySchedule.TryPlace: states that the day invariants are kept only when a showing is placed. When nothing is placed the state is unchanged, so the invariants hold trivially.
