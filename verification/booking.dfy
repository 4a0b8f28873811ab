/** The seat-booking ledger of reservation/movie_booking.py: a catalogue of
    movies by id (title, free seats, price) and one booking per customer
    name.  Booking a ticket hands back the seat of the customer's previous
    booking (to the first movie carrying its title) and takes a seat of the
    requested movie. */
module Booking {
  import opened Wrappers

  /** One catalogue entry: `{"title": ..., "seats": ..., "price": ...}`. */
  datatype MovieInfo = MovieInfo(title: string, seats: int, price: int)

  /** One booking: `{"movie": ..., "seats_left": ..., "price": ...}`. */
  datatype BookingInfo = BookingInfo(movie: string, seatsLeft: int, price: int)

  /** Which of `book_ticket`'s three messages it prints. */
  datatype Outcome = InvalidMovieId | NoSeatsAvailable | Booked

  /** The ids `ids` are distinct and are exactly the keys of `ms`. */
  ghost predicate IdsCover(ms: map<int, MovieInfo>, ids: seq<int>)
  {
    && Listed(ids, ms)
    && (forall id :: id in ms ==> id in ids)
    && (forall i, j :: 0 <= i < j < |ids| ==> ids[i] != ids[j])
  }

  /** Some movie of `ms` carries `title`. */
  ghost predicate HasTitle(ms: map<int, MovieInfo>, title: string)
  {
    exists id :: id in ms && ms[id].title == title
  }

  /** The ledger's invariant: the iteration order lists every movie once, no
      seat count is negative, and every booking names a catalogue title. */
  ghost predicate LedgerOk(ms: map<int, MovieInfo>, ids: seq<int>, bookings: map<string, BookingInfo>)
  {
    && IdsCover(ms, ids)
    && (forall id :: id in ms ==> ms[id].seats >= 0)
    && (forall name :: name in bookings ==> HasTitle(ms, bookings[name].movie))
  }

  /** Every id of `ids` is a movie of `ms`. */
  predicate Listed(ids: seq<int>, ms: map<int, MovieInfo>)
  {
    forall i :: 0 <= i < |ids| ==> ids[i] in ms
  }

  /** The free seats of the movies `ids`, added up. */
  function SeatSum(ids: seq<int>, ms: map<int, MovieInfo>): int
    requires Listed(ids, ms)
  {
    if ids == [] then 0 else ms[ids[0]].seats + SeatSum(ids[1..], ms)
  }

  /** The first of `ids`, in order, whose movie carries `title`: the movie
      the undo loop stops at. */
  function FirstWithTitle(ids: seq<int>, ms: map<int, MovieInfo>, title: string): (r: Option<int>)
    requires Listed(ids, ms)
    ensures r.Some? ==> r.value in ms && r.value in ids && ms[r.value].title == title
  {
    if ids == [] then None
    else if ms[ids[0]].title == title then Some(ids[0])
    else FirstWithTitle(ids[1..], ms, title)
  }

  /** The search finds a movie exactly when one of `ids` carries the title,
      and it finds the first one. */
  lemma {:induction false} FirstWithTitleIsFirst(ids: seq<int>, ms: map<int, MovieInfo>, title: string)
    requires Listed(ids, ms)
    ensures FirstWithTitle(ids, ms, title).None? <==> forall k :: 0 <= k < |ids| ==> ms[ids[k]].title != title
    ensures FirstWithTitle(ids, ms, title).Some? ==>
              exists k :: 0 <= k < |ids| && ids[k] == FirstWithTitle(ids, ms, title).value &&
                          forall j :: 0 <= j < k ==> ms[ids[j]].title != title
  {
    if ids != [] && ms[ids[0]].title != title {
      var rest := ids[1..];
      FirstWithTitleIsFirst(rest, ms, title);
      assert forall k :: 0 < k < |ids| ==> ids[k] == rest[k - 1];
      if FirstWithTitle(rest, ms, title).Some? {
        var k :| 0 <= k < |rest| && rest[k] == FirstWithTitle(rest, ms, title).value &&
                 forall j :: 0 <= j < k ==> ms[rest[j]].title != title;
        assert ids[k + 1] == rest[k];
      }
    }
  }

  /** `ms` with the seats of movie `id` set to `seats`. */
  function WithSeats(ms: map<int, MovieInfo>, id: int, seats: int): map<int, MovieInfo>
    requires id in ms
  {
    ms[id := ms[id].(seats := seats)]
  }

  /** Undoing a booking of `title`: one seat back to the first movie of
      `ids` carrying the title, nothing when none does. */
  function ReturnSeat(ms: map<int, MovieInfo>, ids: seq<int>, title: string): map<int, MovieInfo>
    requires Listed(ids, ms)
  {
    match FirstWithTitle(ids, ms, title)
    case None => ms
    case Some(id) => WithSeats(ms, id, ms[id].seats + 1)
  }

  /** The catalogue after `name` books `movieId`: the previous booking's seat
      is returned, then one seat of `movieId` is taken. */
  function BookedMovies(ms: map<int, MovieInfo>, ids: seq<int>, bookings: map<string, BookingInfo>,
                        movieId: int, name: string): map<int, MovieInfo>
    requires movieId in ms && Listed(ids, ms)
  {
    var returned := if name in bookings then ReturnSeat(ms, ids, bookings[name].movie) else ms;
    WithSeats(returned, movieId, returned[movieId].seats - 1)
  }

  /** The booking recorded for the requested movie in the catalogue `ms'`
      after the booking: its title, its remaining seats and its price. */
  function BookingOf(ms': map<int, MovieInfo>, movieId: int): BookingInfo
    requires movieId in ms'
  {
    BookingInfo(ms'[movieId].title, ms'[movieId].seats, ms'[movieId].price)
  }

  /** Changing the seats of one listed movie changes the total by the
      difference; changing an unlisted one changes nothing. */
  lemma {:induction false} SeatSumWithSeats(ids: seq<int>, ms: map<int, MovieInfo>, id: int, seats: int)
    requires Listed(ids, ms)
    requires id in ms && forall i, j :: 0 <= i < j < |ids| ==> ids[i] != ids[j]
    ensures id in ids ==> SeatSum(ids, WithSeats(ms, id, seats)) == SeatSum(ids, ms) - ms[id].seats + seats
    ensures id !in ids ==> SeatSum(ids, WithSeats(ms, id, seats)) == SeatSum(ids, ms)
  {
    if ids != [] {
      SeatSumWithSeats(ids[1..], ms, id, seats);
      if ids[0] == id {
        assert id !in ids[1..] by {
          forall k | 0 <= k < |ids[1..]| ensures ids[1..][k] != id {
            assert ids[1..][k] == ids[k + 1];
          }
        }
      }
    }
  }

  /** Returning a seat keeps every movie's title and price, adds one seat to
      the first movie carrying the title and leaves every other count. */
  lemma ReturnSeatEffect(ms: map<int, MovieInfo>, ids: seq<int>, title: string)
    requires Listed(ids, ms)
    ensures ReturnSeat(ms, ids, title).Keys == ms.Keys
    ensures forall id :: id in ms ==>
              && ReturnSeat(ms, ids, title)[id].title == ms[id].title
              && ReturnSeat(ms, ids, title)[id].price == ms[id].price
              && ReturnSeat(ms, ids, title)[id].seats ==
                   ms[id].seats + (if FirstWithTitle(ids, ms, title) == Some(id) then 1 else 0)
  {
  }

  /** A successful booking keeps the ledger's invariant: the requested movie
      had a free seat, so no count goes negative, and titles do not change. */
  lemma BookingKeepsLedger(ms: map<int, MovieInfo>, ids: seq<int>, bookings: map<string, BookingInfo>,
                           movieId: int, name: string)
    requires LedgerOk(ms, ids, bookings) && movieId in ms && ms[movieId].seats > 0
    ensures var ms' := BookedMovies(ms, ids, bookings, movieId, name);
            LedgerOk(ms', ids, bookings[name := BookingOf(ms', movieId)])
  {
    var returned := if name in bookings then ReturnSeat(ms, ids, bookings[name].movie) else ms;
    if name in bookings {
      ReturnSeatEffect(ms, ids, bookings[name].movie);
    }
    var ms' := BookedMovies(ms, ids, bookings, movieId, name);
    assert forall id :: id in ms ==> ms'[id].title == ms[id].title;
    var bookings' := bookings[name := BookingOf(ms', movieId)];
    forall n | n in bookings' ensures HasTitle(ms', bookings'[n].movie) {
      if n == name {
        assert ms'[movieId].title == bookings'[n].movie;
      } else {
        var id :| id in ms && ms[id].title == bookings[n].movie;
        assert ms'[id].title == bookings'[n].movie;
      }
    }
  }

  /** A successful booking moves seats but keeps the number of free seats
      plus the number of bookings: a returning customer gets the old seat
      back, a new customer adds a booking. */
  lemma BookingConserves(ms: map<int, MovieInfo>, ids: seq<int>, bookings: map<string, BookingInfo>,
                         movieId: int, name: string)
    requires LedgerOk(ms, ids, bookings) && movieId in ms
    ensures var ms' := BookedMovies(ms, ids, bookings, movieId, name);
            SeatSum(ids, ms') + |bookings[name := BookingOf(ms', movieId)]| == SeatSum(ids, ms) + |bookings|
  {
    var returned := ms;
    if name in bookings {
      var title := bookings[name].movie;
      var id :| id in ms && ms[id].title == title;
      var k :| 0 <= k < |ids| && ids[k] == id;
      FirstWithTitleIsFirst(ids, ms, title);
      var first := FirstWithTitle(ids, ms, title).value;
      SeatSumWithSeats(ids, ms, first, ms[first].seats + 1);
      returned := ReturnSeat(ms, ids, title);
    }
    SeatSumWithSeats(ids, returned, movieId, returned[movieId].seats - 1);
  }

  /** The ledger of `MovieBookingApp`: `movies` maps ids to catalogue
      entries, `order` is the dict's iteration order (insertion order; no
      movie is ever added or removed), `bookings` maps names to bookings. */
  class MovieBookingApp {
    var movies: map<int, MovieInfo>
    var order: seq<int>
    var bookings: map<string, BookingInfo>

    ghost predicate Valid()
      reads this
    {
      LedgerOk(movies, order, bookings)
    }

    /** The free seats of all movies. */
    function TotalSeats(): int
      reads this
      requires Valid()
    {
      SeatSum(order, movies)
    }

    /** Four movies with ids 1 to 4 and no bookings. */
    constructor ()
      ensures Valid()
      ensures movies == map[1 := MovieInfo("Avatar", 10, 15),
                            2 := MovieInfo("Titanic", 8, 12),
                            3 := MovieInfo("Avengers: Endgame", 5, 18),
                            4 := MovieInfo("The Dark Knight", 7, 14)]
      ensures order == [1, 2, 3, 4] && bookings == map[]
      ensures TotalSeats() == 30
    {
      movies := map[1 := MovieInfo("Avatar", 10, 15),
                    2 := MovieInfo("Titanic", 8, 12),
                    3 := MovieInfo("Avengers: Endgame", 5, 18),
                    4 := MovieInfo("The Dark Knight", 7, 14)];
      order := [1, 2, 3, 4];
      bookings := map[];
    }

    /** `book_ticket` with the two `input()` answers as parameters.  An
        unknown id or a sold-out movie changes nothing (even for a customer
        holding a booking elsewhere); otherwise the customer's previous
        seat is returned, one seat of `movieId` is taken and the booking is
        recorded with the seats left and the price. */
    method BookTicket(movieId: int, name: string) returns (outcome: Outcome)
      requires Valid()
      modifies this
      ensures Valid() && order == old(order)
      ensures outcome == InvalidMovieId <==> movieId !in old(movies)
      ensures outcome == NoSeatsAvailable <==> movieId in old(movies) && old(movies)[movieId].seats <= 0
      ensures outcome != Booked ==> movies == old(movies) && bookings == old(bookings)
      ensures outcome == Booked ==>
                && movies == BookedMovies(old(movies), old(order), old(bookings), movieId, name)
                && bookings == old(bookings)[name := BookingOf(movies, movieId)]
      ensures TotalSeats() + |bookings| == old(TotalSeats()) + old(|bookings|)
    {
      if movieId !in movies {
        return InvalidMovieId;
      }
      if movies[movieId].seats <= 0 {
        return NoSeatsAvailable;
      }
      ghost var movies' := BookedMovies(movies, order, bookings, movieId, name);
      ghost var bookings' := bookings[name := BookingOf(movies', movieId)];
      BookingKeepsLedger(movies, order, bookings, movieId, name);
      BookingConserves(movies, order, bookings, movieId, name);
      if name in bookings {
        ReturnPreviousSeat(bookings[name].movie);
      }
      movies := movies[movieId := movies[movieId].(seats := movies[movieId].seats - 1)];
      assert movies == movies';
      bookings := bookings[name := BookingInfo(movies[movieId].title, movies[movieId].seats, movies[movieId].price)];
      assert bookings == bookings';
      outcome := Booked;
    }

    /** The undo loop of `book_ticket`: walk the movies in iteration order
        and give one seat back to the first one titled `previous`. */
    method ReturnPreviousSeat(previous: string)
      requires Listed(order, movies)
      modifies this
      ensures movies == ReturnSeat(old(movies), old(order), previous)
      ensures order == old(order) && bookings == old(bookings)
    {
      ghost var before := movies;
      var i := 0;
      while i < |order|
        invariant 0 <= i <= |order| && movies == before
        invariant FirstWithTitle(order, before, previous) == FirstWithTitle(order[i..], before, previous)
      {
        var id := order[i];
        assert order[i..] == [id] + order[i + 1..];
        if movies[id].title == previous {
          movies := movies[id := movies[id].(seats := movies[id].seats + 1)];
          break;
        }
        i := i + 1;
      }
    }
  }
}
