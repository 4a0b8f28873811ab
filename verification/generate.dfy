/** `generate_schedule` (reservation/movie_schedule.py): filter the catalogue
    on the start date, assign auditoriums once, then schedule each of the
    requested consecutive dates. */
module Generate {
  import opened Wrappers
  import opened Sorting
  import opened Showtimes
  import opened Auditoriums
  import opened DaySchedule

  /** The first entry of the `hours` table carrying `dayName` (the `next(...)`
      lookup), or None where the source raises StopIteration. */
  function FindHours(hours: seq<Hours>, dayName: Label): (r: Option<Hours>)
    ensures r.Some? ==> r.value in hours && r.value.day == dayName
  {
    if hours == [] then None
    else if hours[0].day == dayName then Some(hours[0])
    else FindHours(hours[1..], dayName)
  }

  /** The lookup fails exactly when no entry carries the label, and when it
      succeeds no earlier entry carries it. */
  lemma {:induction false} FindHoursFirst(hours: seq<Hours>, dayName: Label)
    ensures FindHours(hours, dayName).None? <==> forall h :: h in hours ==> h.day != dayName
    ensures FindHours(hours, dayName).Some? ==>
              exists i :: 0 <= i < |hours| && hours[i] == FindHours(hours, dayName).value &&
                          forall j :: 0 <= j < i ==> hours[j].day != dayName
  {
    if hours != [] && hours[0].day != dayName {
      var rest := hours[1..];
      FindHoursFirst(rest, dayName);
      assert forall h :: h in hours ==> h == hours[0] || h in rest;
      if FindHours(rest, dayName).Some? {
        var i :| 0 <= i < |rest| && rest[i] == FindHours(rest, dayName).value &&
                 forall j :: 0 <= j < i ==> rest[j].day != dayName;
        assert hours[i + 1] == rest[i];
        forall j | 0 <= j < i + 1 ensures hours[j].day != dayName {
          if j > 0 {
            assert hours[j] == rest[j - 1];
          }
        }
      }
    }
  }

  /** `days` is clamped to 1 when it is below 1. */
  function DayCount(days: int): (n: int)
    ensures n >= 1
    ensures days >= 1 ==> n == days
    ensures days < 1 ==> n == 1
  {
    if days < 1 then 1 else days
  }

  /** The first scheduled date: the given start date, or today's. */
  function StartOf(startDate: Option<int>, today: int): int
  {
    if startDate.Some? then startDate.value else today
  }

  /** The entry the lookup finds for `dayName`, if any, has opening and
      closing times that parse as "HH:MM": minutes within one day. */
  predicate EntryParses(hours: seq<Hours>, dayName: Label)
  {
    FindHours(hours, dayName).Some? ==>
      var h := FindHours(hours, dayName).value;
      0 <= h.open < MinutesPerDay && 0 <= h.close < MinutesPerDay
  }

  /** The two entries the day loop can look up parse; entries under any
      other label are never read. */
  ghost predicate HoursParse(hours: seq<Hours>)
  {
    EntryParses(hours, Weekday) && EntryParses(hours, Weekend)
  }

  /** The scheduling loop terminates only when every movie it places has a
      runtime above -5 minutes. */
  ghost predicate RuntimesAdvance(movies: seq<Movie>)
  {
    forall m :: m in movies ==> m.runtime + Padding > 0
  }

  /** The active movies in the order the day loop visits them: newest
      first, longer first on equal dates. */
  function ScheduledMovies(config: Config, start: int): seq<Movie>
  {
    SortBy(FilterActive(config.movies, start), MovieBefore)
  }

  /** The auditoriums by size rank, largest first. */
  function SortedAuditoriums(config: Config): seq<Auditorium>
  {
    SortBy(config.auditoriums, AuditoriumBefore)
  }

  /** Sorting keeps the active movies and their runtimes. */
  lemma ScheduledMoviesAdvance(config: Config, start: int)
    requires RuntimesAdvance(FilterActive(config.movies, start))
    ensures |ScheduledMovies(config, start)| == |FilterActive(config.movies, start)|
    ensures forall m :: m in ScheduledMovies(config, start) ==> m.runtime + Padding > 0
  {
    var active := FilterActive(config.movies, start);
    SortByPermutation(active, MovieBefore);
    forall m | m in ScheduledMovies(config, start) ensures m.runtime + Padding > 0 {
      assert m in multiset(active);
    }
  }

  lemma SortedAuditoriumsLength(config: Config)
    ensures |SortedAuditoriums(config)| == |config.auditoriums|
  {
    SortByPermutation(config.auditoriums, AuditoriumBefore);
  }

  /** The inputs of one day's scheduling, from the sorted movies and
      auditoriums, the prices and that day's hours. */
  function SetupOf(ms: seq<Movie>, auds: seq<Auditorium>, pricing: Pricing, h: Hours): DaySetup
    requires !AssignFails(|ms|, |auds|) && |auds| > 0
  {
    DaySetup(ms, RoomTable(ms, auds), if |ms| >= 2 then ms[|ms| - 2..] else [],
             Rooms(auds), auds[|auds| - 1].room, RoundToNext5(h.open + Padding), h.close, pricing)
  }

  /** The day's inputs satisfy what the day loop relies on. */
  lemma SetupWellFormed(ms: seq<Movie>, auds: seq<Auditorium>, pricing: Pricing, h: Hours)
    requires !AssignFails(|ms|, |auds|) && |auds| > 0
    requires forall m :: m in ms ==> m.runtime + Padding > 0
    ensures WellFormed(SetupOf(ms, auds, pricing, h))
  {
    RoomTableCovers(ms, auds);
    var d := SetupOf(ms, auds, pricing, h);
    forall m | m in d.movies ensures m.title in d.assignments {
      var j :| 0 <= j < |ms| && ms[j] == m;
    }
    forall m | m in d.shared ensures m in d.movies {
      var j :| 0 <= j < |d.shared| && d.shared[j] == m;
      assert m == ms[|ms| - 2 + j];
    }
    assert d.sharedRoom == Rooms(auds)[|auds| - 1];
  }

  /** Matinee price before 18:00, adult price from 18:00. */
  ghost predicate PricedByClock(shows: seq<Showing>, pricing: Pricing)
  {
    forall i :: 0 <= i < |shows| ==>
      shows[i].price == if shows[i].start < EveningStart then pricing.matinee else pricing.adult
  }

  /** Within opening hours that parse, every showing starts inside the day,
      so the price follows the clock directly. */
  lemma DayPricedByClock(d: DaySetup, shows: seq<Showing>, placed: seq<Movie>)
    requires Placements(d, shows, placed) && 0 <= d.first && d.close <= MinutesPerDay
    ensures PricedByClock(shows, d.pricing)
  {
    forall i | 0 <= i < |shows|
      ensures shows[i].price == if shows[i].start < EveningStart then d.pricing.matinee else d.pricing.adult
    {
      PriceSplit(d.pricing, shows[i].start);
    }
  }

  /** Everything one scheduled date satisfies, given the sorted movies `ms`
      and auditoriums `auds`: its showings were placed by the day loop from
      the day's inputs (on the 5-minute grid, inside the opening window, in
      their assigned rooms, shared movies alternating, each starting when
      its room is free), the day ended only when no room could take another
      showing, showings in one auditorium do not overlap, prices follow the
      clock, and with fewer than two movies nothing is shown. */
  ghost predicate DayOkFor(ms: seq<Movie>, auds: seq<Auditorium>, config: Config, date: int,
                           shows: seq<Showing>, placed: seq<Movie>)
  {
    && !AssignFails(|ms|, |auds|)
    && |auds| > 0
    && FindHours(config.hours, DayLabel(date)).Some?
    && var d := SetupOf(ms, auds, config.pricing, FindHours(config.hours, DayLabel(date)).value);
       && Placements(d, shows, placed)
       && Saturated(d, shows, placed)
       && (forall i :: 0 <= i < |shows| ==> shows[i].start % Padding == 0)
       && NoOverlaps(shows, placed)
       && PricedByClock(shows, config.pricing)
       && (|ms| < 2 ==> shows == [])
  }

  /** `DayOkFor` with the movies active on `start` and the auditoriums, both
      sorted as `generate_schedule` sorts them. */
  ghost predicate DayOk(config: Config, start: int, date: int, shows: seq<Showing>, placed: seq<Movie>)
  {
    DayOkFor(ScheduledMovies(config, start), SortedAuditoriums(config), config, date, shows, placed)
  }

  /** What the day loop needs of the assignment: it was computed from the
      sorted movies and auditoriums without an error, and every movie's
      runtime moves the clock forward. */
  ghost predicate AssignmentOk(a: Assignment)
  {
    && !AssignFails(|a.movies|, |a.auditoriums|)
    && a.rooms == RoomTable(a.movies, a.auditoriums)
    && a.shared == (if |a.movies| >= 2 then a.movies[|a.movies| - 2..] else [])
    && (forall m :: m in a.movies ==> m.runtime + Padding > 0)
  }

  /** The body of the day loop for one date: look up the day's hours, take
      the last sorted auditorium as the shared room, and schedule the day. */
  method ScheduleDate(config: Config, a: Assignment, date: int)
    returns (r: Result<seq<Showing>, ScheduleError>, ghost placed: seq<Movie>)
    requires HoursParse(config.hours) && AssignmentOk(a)
    ensures FindHours(config.hours, DayLabel(date)).None? ==> r == Failure(MissingHours(DayLabel(date)))
    ensures FindHours(config.hours, DayLabel(date)).Some? && |a.auditoriums| == 0 ==> r == Failure(AuditoriumIndex)
    ensures FindHours(config.hours, DayLabel(date)).Some? && |a.auditoriums| > 0 ==>
              && r.Success? && RecordsOk(config, a, {DayRecord(date, r.value, placed)})
  {
    placed := [];
    var dayName := DayLabel(date);
    var hours := FindHours(config.hours, dayName);
    if hours.None? {
      return Failure(MissingHours(dayName)), placed;
    }
    assert EntryParses(config.hours, dayName);
    var first := RoundToNext5(hours.value.open + Padding);
    var close := hours.value.close;
    if |a.auditoriums| == 0 {
      return Failure(AuditoriumIndex), placed;
    }
    var d := DaySetup(a.movies, a.rooms, a.shared, Rooms(a.auditoriums), a.auditoriums[|a.auditoriums| - 1].room,
                      first, close, config.pricing);
    assert d == SetupOf(a.movies, a.auditoriums, config.pricing, hours.value);
    SetupWellFormed(a.movies, a.auditoriums, config.pricing, hours.value);
    if |a.movies| < 2 {
      RoomTableCovers(a.movies, a.auditoriums);
      assert NoRooms(d);
    }
    var shows;
    shows, placed := ScheduleDay(d);
    PlacementsNoOverlap(d, shows, placed);
    DayPricedByClock(d, shows, placed);
    r := Success(shows);
    assert DayRecordOk(config, a, DayRecord(date, shows, placed));
  }

  /** The first of the `n` dates from `start` whose label has no `hours`
      entry. */
  function FirstMissing(hours: seq<Hours>, start: int, n: int): (r: Option<int>)
    ensures r.Some? ==> start <= r.value < start + n && FindHours(hours, DayLabel(r.value)).None?
  {
    if n <= 0 then None
    else
      var earlier := FirstMissing(hours, start, n - 1);
      if earlier.Some? then earlier
      else if FindHours(hours, DayLabel(start + n - 1)).None? then Some(start + n - 1)
      else None
  }

  /** No date before the first missing one (or none of the `n` dates, when
      none is missing) lacks its hours entry. */
  lemma {:induction false} FirstMissingIsFirst(hours: seq<Hours>, start: int, n: int, date: int)
    requires start <= date < start + n
    requires FirstMissing(hours, start, n).Some? ==> date < FirstMissing(hours, start, n).value
    ensures FindHours(hours, DayLabel(date)).Some?
  {
    if date < start + n - 1 {
      FirstMissingIsFirst(hours, start, n - 1, date);
    }
  }

  /** Once a missing date is found, looking at more dates finds the same one. */
  lemma {:induction false} FirstMissingStable(hours: seq<Hours>, start: int, k: int, n: int)
    requires 0 <= k <= n && FirstMissing(hours, start, k).Some?
    ensures FirstMissing(hours, start, n) == FirstMissing(hours, start, k)
    decreases n - k
  {
    if k < n {
      FirstMissingStable(hours, start, k, n - 1);
    }
  }

  /** Looking at one more date finds that date exactly when it is the first
      one without hours. */
  lemma FirstMissingNext(hours: seq<Hours>, start: int, k: int)
    requires 0 <= k && FirstMissing(hours, start, k).None?
    ensures FirstMissing(hours, start, k + 1) ==
              if FindHours(hours, DayLabel(start + k)).None? then Some(start + k) else None
  {
    assert start + (k + 1) - 1 == start + k;
  }

  /** One scheduled date: its showings and the movie of each. */
  datatype DayRecord = DayRecord(date: int, shows: seq<Showing>, placed: seq<Movie>)

  /** The recorded date satisfies `DayOkFor`. */
  ghost predicate DayRecordOk(config: Config, a: Assignment, r: DayRecord)
  {
    |r.shows| == |r.placed| && DayOkFor(a.movies, a.auditoriums, config, r.date, r.shows, r.placed)
  }

  /** Every recorded date satisfies `DayOkFor`.  The quantifier is
      instantiated only where `DayRecordOk` is asked about a record, which
      keeps the day facts out of the day loop's reasoning. */
  ghost predicate RecordsOk(config: Config, a: Assignment, records: set<DayRecord>)
  {
    forall r {:trigger DayRecordOk(config, a, r)} :: r in records ==> DayRecordOk(config, a, r)
  }

  lemma RecordsOkUnion(config: Config, a: Assignment, records: set<DayRecord>, more: set<DayRecord>)
    requires RecordsOk(config, a, records) && RecordsOk(config, a, more)
    ensures RecordsOk(config, a, records + more)
  {
  }

  /** The day loop of `generate_schedule` over the `n` dates from `start`,
      given the successful auditorium assignment `a`.  It stops at the first
      date that fails: one without hours, or (on the first date) an empty
      auditorium list.  The ghost `records` collects each scheduled date with
      its showings and their movies. */
  method ScheduleDays(config: Config, start: int, n: int, a: Assignment)
    returns (result: Result<map<int, seq<Showing>>, ScheduleError>, ghost placedByDay: map<int, seq<Movie>>,
             ghost records: set<DayRecord>)
    requires HoursParse(config.hours) && AssignmentOk(a)
    requires n >= 1
    ensures var missing := FirstMissing(config.hours, start, n);
            && (missing == Some(start) ==> result == Failure(MissingHours(DayLabel(start))))
            && (missing != Some(start) && |a.auditoriums| == 0 ==> result == Failure(AuditoriumIndex))
            && (|a.auditoriums| > 0 && missing.Some? ==> result == Failure(MissingHours(DayLabel(missing.value))))
            && (|a.auditoriums| > 0 && missing.None? ==> result.Success?)
    ensures result.Success? ==>
              && (forall date :: date in result.value <==> start <= date < start + n)
              && (forall date :: date in result.value ==>
                    date in placedByDay && DayRecord(date, result.value[date], placedByDay[date]) in records)
              && RecordsOk(config, a, records)
  {
    placedByDay, records := map[], {};
    var schedule: map<int, seq<Showing>> := map[];
    for k := 0 to n
      invariant forall date :: date in schedule <==> start <= date < start + k
      invariant forall date :: date in schedule ==>
                  date in placedByDay && DayRecord(date, schedule[date], placedByDay[date]) in records
      invariant RecordsOk(config, a, records)
      invariant FirstMissing(config.hours, start, k).None?
      invariant k > 0 ==> |a.auditoriums| > 0
    {
      var date := start + k;
      FirstMissingNext(config.hours, start, k);
      var shows, placed := ScheduleDate(config, a, date);
      if shows.Failure? {
        if FindHours(config.hours, DayLabel(date)).None? {
          FirstMissingStable(config.hours, start, k + 1, n);
        }
        return Failure(shows.error), placedByDay, records;
      }
      RecordsOkUnion(config, a, records, {DayRecord(date, shows.value, placed)});
      schedule := schedule[date := shows.value];
      placedByDay := placedByDay[date := placed];
      records := records + {DayRecord(date, shows.value, placed)};
    }
    result := Success(schedule);
  }

  /** `generate_schedule`: the schedule maps each of the `DayCount(days)`
      consecutive dates from the start date to its showings.  The errors
      come in the source's order: the assignment's IndexError, then the
      first date's hours lookup, then `auditoriums[-1]` on the first date,
      then the hours lookup of a later date.  The ghost `placedByDay` names
      the movie of each showing. */
  method GenerateSchedule(config: Config, days: int, startDate: Option<int>, today: int)
    returns (result: Result<map<int, seq<Showing>>, ScheduleError>, ghost placedByDay: map<int, seq<Movie>>)
    requires HoursParse(config.hours) && RuntimesAdvance(FilterActive(config.movies, StartOf(startDate, today)))
    ensures var start := StartOf(startDate, today);
            var n := DayCount(days);
            var assignFails := AssignFails(|FilterActive(config.movies, start)|, |config.auditoriums|);
            var missing := FirstMissing(config.hours, start, n);
            && (assignFails ==> result == Failure(AuditoriumIndex))
            && (!assignFails && missing == Some(start) ==> result == Failure(MissingHours(DayLabel(start))))
            && (!assignFails && missing != Some(start) && |config.auditoriums| == 0 ==>
                  result == Failure(AuditoriumIndex))
            && (!assignFails && |config.auditoriums| > 0 && missing.Some? ==>
                  result == Failure(MissingHours(DayLabel(missing.value))))
            && (!assignFails && |config.auditoriums| > 0 && missing.None? ==> result.Success?)
    ensures var start := StartOf(startDate, today);
            result.Success? ==>
              && (forall date :: date in result.value <==> start <= date < start + DayCount(days))
              && (forall date :: date in result.value ==>
                    date in placedByDay && |result.value[date]| == |placedByDay[date]| &&
                    DayOk(config, start, date, result.value[date], placedByDay[date]))
              && (|FilterActive(config.movies, start)| < 2 ==> forall date :: date in result.value ==> result.value[date] == [])
  {
    var start := StartOf(startDate, today);
    var n := DayCount(days);
    var movies := FilterActive(config.movies, start);
    SortedAuditoriumsLength(config);
    ScheduledMoviesAdvance(config, start);
    var assignment := AssignAuditoriums(movies, config.auditoriums);
    placedByDay := map[];
    if assignment.Failure? {
      return Failure(assignment.error), placedByDay;
    }
    var a := assignment.value;
    ghost var records;
    result, placedByDay, records := ScheduleDays(config, start, n, a);
    if result.Success? {
      forall date | date in result.value
        ensures |result.value[date]| == |placedByDay[date]|
        ensures |FilterActive(config.movies, start)| < 2 ==> result.value[date] == []
        ensures DayOk(config, start, date, result.value[date], placedByDay[date])
      {
        assert DayRecordOk(config, a, DayRecord(date, result.value[date], placedByDay[date]));
      }
    }
    assert a.movies == ScheduledMovies(config, start) && a.auditoriums == SortedAuditoriums(config);
  }
}
