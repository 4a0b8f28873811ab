/** Values of the daily showtime generator (reservation/movie_schedule.py)
    and its pure helpers.

    Time model: a calendar date is a proleptic Gregorian ordinal (day 1 is
    1 January of year 1, a Monday, as Python's `date.toordinal()`); a time on
    the day being scheduled is a number of minutes after that day's midnight
    (it may exceed one day, as a `datetime` may roll into the next date).
    Midnight of any date is a whole number of hours after midnight of
    another, so rounding to the 5-minute grid is the same in both views. */
module Showtimes {
  import opened Wrappers

  /** The fixed 5-minute turnover gap, also the grid of start times. */
  const Padding: int := 5
  const MinutesPerDay: int := 1440
  /** Start times before 18:00 are sold at the matinee price. */
  const EveningStart: int := 18 * 60

  /** A release date as given in the configuration: already a date, or a
      "YYYY-MM-DD" string, carried with the date it names. */
  datatype ReleaseDate = OnDate(day: int) | AsText(day: int)

  /** A catalogue movie: title, runtime in minutes, release date and the
      number of weeks it runs. */
  datatype Movie = Movie(title: string, runtime: int, release: ReleaseDate, weeks: int)

  /** One auditorium of the configuration; rank 1 is the largest. */
  datatype Auditorium = Auditorium(room: int, sizeRank: int)

  /** The `day` text of an `hours` entry: "Weekday", "Weekend", or any other
      text, which no lookup ever matches.  The text "Weekday" is always
      `Weekday` and "Weekend" always `Weekend`, never `Other`. */
  datatype Label = Weekday | Weekend | Other(text: string)

  /** One entry of the `hours` table: a day label with its opening and
      closing time as minutes after midnight. */
  datatype Hours = Hours(day: Label, open: int, close: int)

  datatype Pricing = Pricing(matinee: int, adult: int)

  datatype Config = Config(pricing: Pricing, hours: seq<Hours>, auditoriums: seq<Auditorium>, movies: seq<Movie>)

  /** One scheduled showing: the movie's title, the auditorium, the start
      time (the "HH:MM" of the source, as minutes after midnight) and its price. */
  datatype Showing = Showing(title: string, room: int, start: int, price: int)

  /** The errors that abort `generate_schedule`: an auditorium index out of
      range, or no `hours` entry for the day's label. */
  datatype ScheduleError = AuditoriumIndex | MissingHours(dayLabel: Label)

  /** `round_to_next_5min`: ceiling of the minute-of-hour to a multiple of 5;
      minute 60 carries into the next hour. */
  function RoundToNext5(t: int): (r: int)
    ensures r % Padding == 0
    ensures t <= r < t + Padding
    ensures r % 60 % Padding == 0
  {
    var minute := t % 60;
    var rounded := (minute + 4) / 5 * 5;
    if rounded == 60 then t - minute + 60 else t - minute + rounded
  }

  /** A time already on the grid is returned unchanged, and rounding twice
      is rounding once. */
  lemma RoundToNext5Aligned(t: int)
    ensures t % Padding == 0 ==> RoundToNext5(t) == t
    ensures RoundToNext5(RoundToNext5(t)) == RoundToNext5(t)
  {
  }

  /** Python's `date.weekday()`: Monday is 0, Sunday is 6. */
  function DayOfWeek(d: int): int
  {
    (d + 6) % 7
  }

  /** `is_weekend`: Saturday or Sunday.  Ordinal 7 is a Sunday, so weekend
      ordinals are those congruent to 6 or 0 modulo 7. */
  function IsWeekend(d: int): (r: bool)
    ensures r <==> d % 7 == 6 || d % 7 == 0
  {
    DayOfWeek(d) >= 5
  }

  /** The label the `hours` table is searched for on date `d`. */
  function DayLabel(d: int): Label
  {
    if IsWeekend(d) then Weekend else Weekday
  }

  /** The price of a showing starting at `t`: matinee before 18:00 by the
      clock, adult from 18:00. */
  function PriceAt(pricing: Pricing, t: int): int
  {
    if t % MinutesPerDay < EveningStart then pricing.matinee else pricing.adult
  }

  /** On the day being scheduled the clock time is the start itself. */
  lemma PriceSplit(pricing: Pricing, t: int)
    requires 0 <= t < MinutesPerDay
    ensures t < EveningStart ==> PriceAt(pricing, t) == pricing.matinee
    ensures t >= EveningStart ==> PriceAt(pricing, t) == pricing.adult
  {
  }

  /** The release window is half-open: released on or before `start`, and
      `start` before release + 7 * weeks days. */
  predicate Active(m: Movie, start: int)
  {
    m.release.day <= start && m.release.day + 7 * m.weeks > start
  }

  /** The copy kept by the filter: the release date as a date. */
  function Normalised(m: Movie): Movie
  {
    m.(release := OnDate(m.release.day))
  }

  /** `filter_active_movies`: the movies active on `start`, in input order,
      as copies with a normalised release date. */
  function FilterActive(movies: seq<Movie>, start: int): (r: seq<Movie>)
    ensures |r| <= |movies|
    ensures forall k :: 0 <= k < |r| ==> r[k].release.OnDate? && Active(r[k], start)
    ensures forall k :: 0 <= k < |r| ==> exists i :: 0 <= i < |movies| && r[k] == Normalised(movies[i])
  {
    if movies == [] then []
    else
      var rest := FilterActive(movies[1..], start);
      assert forall k :: 0 <= k < |rest| ==> exists i :: 0 <= i < |movies| && rest[k] == Normalised(movies[i]) by {
        forall k | 0 <= k < |rest| ensures exists i :: 0 <= i < |movies| && rest[k] == Normalised(movies[i]) {
          var i :| 0 <= i < |movies[1..]| && rest[k] == Normalised(movies[1..][i]);
          assert rest[k] == Normalised(movies[i + 1]);
        }
      }
      if Active(movies[0], start) then [Normalised(movies[0])] + rest else rest
  }

  /** The filter distributes over concatenation: it keeps the input order. */
  lemma {:induction false} FilterActiveAppend(a: seq<Movie>, b: seq<Movie>, start: int)
    ensures FilterActive(a + b, start) == FilterActive(a, start) + FilterActive(b, start)
  {
    if a == [] {
      assert a + b == b;
    } else {
      assert (a + b)[0] == a[0];
      assert (a + b)[1..] == a[1..] + b;
      FilterActiveAppend(a[1..], b, start);
    }
  }

  /** Every active movie of the input is kept. */
  lemma {:induction false} FilterActiveKeeps(movies: seq<Movie>, start: int, i: int)
    requires 0 <= i < |movies| && Active(movies[i], start)
    ensures Normalised(movies[i]) in FilterActive(movies, start)
  {
    if i > 0 {
      FilterActiveKeeps(movies[1..], start, i - 1);
    }
  }
}
