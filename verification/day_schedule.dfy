/** One day of `generate_schedule` (reservation/movie_schedule.py, the body
    of the day loop): every auditorium starts free at the first showing
    time; passes over the sorted movies place showings until a whole pass
    places none.  A dedicated movie tries each of its rooms; the two shared
    movies take turns in the shared room. */
module DaySchedule {
  import opened Showtimes

  /** What one day's scheduling works from: the sorted active movies, the
      room table, the shared movies, the rooms of all auditoriums, the
      shared room, the first showing time, the closing time and the prices. */
  datatype DaySetup = DaySetup(movies: seq<Movie>, assignments: map<string, seq<int>>, shared: seq<Movie>,
                               rooms: seq<int>, sharedRoom: int, first: int, close: int, pricing: Pricing)

  /** What the day loop works from.  The assignment step establishes all
      but the last fact: the shared movies are among the movies, every movie
      has a table entry, every room handed out and the shared room have an
      end time, and there are zero or two shared movies.  The last, every
      runtime above -5 minutes, is required of the caller: otherwise a
      room's end time need not advance and the source loops forever. */
  ghost predicate WellFormed(d: DaySetup)
  {
    && (forall m :: m in d.shared ==> m in d.movies)
    && (forall m :: m in d.movies ==> m.title in d.assignments)
    && (forall t, r :: t in d.assignments && r in d.assignments[t] ==> r in d.rooms)
    && d.sharedRoom in d.rooms
    && (|d.shared| == 0 || |d.shared| == 2)
    && (forall m :: m in d.movies ==> m.runtime + Padding > 0)
  }

  /** When room `r` is free again after the showings so far: the start of its
      last showing plus that movie's runtime plus the padding, or the first
      showing time while the room is unused.  `placed[i]` is the movie of
      `shows[i]`. */
  ghost function RoomEnd(shows: seq<Showing>, placed: seq<Movie>, r: int, first: int): int
    requires |shows| == |placed|
  {
    if |shows| == 0 then first
    else if shows[|shows| - 1].room == r then shows[|shows| - 1].start + placed[|placed| - 1].runtime + Padding
    else RoomEnd(shows[..|shows| - 1], placed[..|placed| - 1], r, first)
  }

  /** Each showing starts at the first 5-minute mark at or after the moment
      its room became free. */
  ghost predicate Sequenced(shows: seq<Showing>, placed: seq<Movie>, first: int)
    requires |shows| == |placed|
  {
    forall i :: 0 <= i < |shows| ==>
      shows[i].start == RoundToNext5(RoomEnd(shows[..i], placed[..i], shows[i].room, first))
  }

  /** How many of the placed movies are shared ones. */
  ghost function SharedCount(placed: seq<Movie>, shared: seq<Movie>): nat
  {
    if |placed| == 0 then 0
    else SharedCount(placed[..|placed| - 1], shared) + (if placed[|placed| - 1] in shared then 1 else 0)
  }

  /** The k-th showing of a shared movie is of shared movie k modulo the
      number of shared movies: with two, they alternate. */
  ghost predicate Alternates(placed: seq<Movie>, shared: seq<Movie>)
  {
    forall i :: 0 <= i < |placed| && placed[i] in shared ==>
      placed[i] == shared[SharedCount(placed[..i], shared) % |shared|]
  }

  /** A shared movie plays in the shared room, any other movie in a room of
      its own table entry. */
  ghost predicate InAssignedRooms(d: DaySetup, shows: seq<Showing>, placed: seq<Movie>)
    requires |shows| == |placed|
  {
    forall i :: 0 <= i < |shows| ==>
      if placed[i] in d.shared then shows[i].room == d.sharedRoom
      else placed[i].title in d.assignments && shows[i].room in d.assignments[placed[i].title]
  }

  /** Everything a day's list of showings satisfies at any point. */
  ghost predicate Placements(d: DaySetup, shows: seq<Showing>, placed: seq<Movie>)
  {
    && |shows| == |placed|
    && (forall i :: 0 <= i < |shows| ==> placed[i] in d.movies && shows[i].title == placed[i].title)
    && (forall i :: 0 <= i < |shows| ==> d.first <= shows[i].start <= d.close - Padding)
    && (forall i :: 0 <= i < |shows| ==> shows[i].price == PriceAt(d.pricing, shows[i].start))
    && Sequenced(shows, placed, d.first)
    && InAssignedRooms(d, shows, placed)
    && Alternates(placed, d.shared)
  }

  /** The loop stopped because no room can take another showing: the shared
      room (when there are shared movies) and every room of every dedicated
      movie would next start after closing time minus 5 minutes. */
  ghost predicate Saturated(d: DaySetup, shows: seq<Showing>, placed: seq<Movie>)
    requires |shows| == |placed|
  {
    && (|d.shared| > 0 ==> RoundToNext5(RoomEnd(shows, placed, d.sharedRoom, d.first)) > d.close - Padding)
    && (forall m, r :: m in d.movies && m !in d.shared && m.title in d.assignments && r in d.assignments[m.title] ==>
          RoundToNext5(RoomEnd(shows, placed, r, d.first)) > d.close - Padding)
  }

  /** No movie has a room: the table lists no room for any movie and there
      are no shared movies. */
  ghost predicate NoRooms(d: DaySetup)
  {
    && d.shared == []
    && forall m :: m in d.movies ==> m.title in d.assignments && d.assignments[m.title] == []
  }

  /** The `auditorium_end_times` map agrees with the showings placed so far. */
  ghost predicate EndsTrack(d: DaySetup, shows: seq<Showing>, placed: seq<Movie>, ends: map<int, int>)
    requires |shows| == |placed|
  {
    && (forall r :: r in d.rooms ==> r in ends)
    && (forall i :: 0 <= i < |d.rooms| ==> d.rooms[i] in ends)
    && (forall r :: r in ends ==> ends[r] == RoomEnd(shows, placed, r, d.first) && ends[r] >= d.first)
  }

  /** `current_shared_movie_index` counts the shared showings modulo the
      number of shared movies. */
  ghost predicate TurnTracks(d: DaySetup, placed: seq<Movie>, turn: int)
  {
    if |d.shared| > 0 then turn == SharedCount(placed, d.shared) % |d.shared| else turn == 0
  }

  /** The room-free time bounded below by nothing and above by closing:
      what remains of the day in each room. */
  function Slack(end: int, close: int): nat
  {
    if end < close then close - end else 0
  }

  function SlackSum(rooms: seq<int>, ends: map<int, int>, close: int): nat
    requires forall i :: 0 <= i < |rooms| ==> rooms[i] in ends
  {
    if rooms == [] then 0
    else Slack(ends[rooms[0]], close) + SlackSum(rooms[1..], ends, close)
  }

  /** Pushing one room's end time later never adds slack, and takes some away
      when the room was still open and is listed. */
  lemma {:induction false} SlackSumDrops(rooms: seq<int>, ends: map<int, int>, close: int, room: int, v: int)
    requires forall i :: 0 <= i < |rooms| ==> rooms[i] in ends
    requires room in ends && ends[room] < close && v > ends[room]
    ensures SlackSum(rooms, ends[room := v], close) <= SlackSum(rooms, ends, close)
    ensures room in rooms ==> SlackSum(rooms, ends[room := v], close) < SlackSum(rooms, ends, close)
  {
    if rooms != [] {
      SlackSumDrops(rooms[1..], ends, close, room, v);
      assert room in rooms ==> room == rooms[0] || room in rooms[1..];
    }
  }

  lemma {:induction false} SharedCountAppend(placed: seq<Movie>, m: Movie, shared: seq<Movie>)
    ensures SharedCount(placed + [m], shared) == SharedCount(placed, shared) + (if m in shared then 1 else 0)
  {
    assert (placed + [m])[..|placed|] == placed;
  }

  lemma RoomEndAppend(shows: seq<Showing>, placed: seq<Movie>, s: Showing, m: Movie, r: int, first: int)
    requires |shows| == |placed|
    ensures RoomEnd(shows + [s], placed + [m], r, first)
            == if s.room == r then s.start + m.runtime + Padding else RoomEnd(shows, placed, r, first)
  {
    assert (shows + [s])[..|shows|] == shows;
    assert (placed + [m])[..|placed|] == placed;
  }

  lemma SequencedAppend(shows: seq<Showing>, placed: seq<Movie>, s: Showing, m: Movie, first: int)
    requires |shows| == |placed| && Sequenced(shows, placed, first)
    requires s.start == RoundToNext5(RoomEnd(shows, placed, s.room, first))
    ensures Sequenced(shows + [s], placed + [m], first)
  {
    var shows', placed' := shows + [s], placed + [m];
    forall i | 0 <= i < |shows'|
      ensures shows'[i].start == RoundToNext5(RoomEnd(shows'[..i], placed'[..i], shows'[i].room, first))
    {
      assert shows'[..i] == shows[..i] && placed'[..i] == placed[..i];
    }
  }

  lemma AlternatesAppend(placed: seq<Movie>, m: Movie, shared: seq<Movie>)
    requires Alternates(placed, shared)
    requires m in shared ==> m == shared[SharedCount(placed, shared) % |shared|]
    ensures Alternates(placed + [m], shared)
  {
    var placed' := placed + [m];
    forall i | 0 <= i < |placed'| && placed'[i] in shared
      ensures placed'[i] == shared[SharedCount(placed'[..i], shared) % |shared|]
    {
      assert placed'[..i] == placed[..i];
    }
  }

  lemma RoomsAppend(d: DaySetup, shows: seq<Showing>, placed: seq<Movie>, s: Showing, m: Movie)
    requires |shows| == |placed| && InAssignedRooms(d, shows, placed)
    requires if m in d.shared then s.room == d.sharedRoom
             else m.title in d.assignments && s.room in d.assignments[m.title]
    ensures InAssignedRooms(d, shows + [s], placed + [m])
  {
  }

  lemma EndsAppend(d: DaySetup, shows: seq<Showing>, placed: seq<Movie>, ends: map<int, int>, s: Showing, m: Movie)
    requires |shows| == |placed| && EndsTrack(d, shows, placed, ends)
    requires s.room in ends && s.start >= ends[s.room] && m.runtime + Padding > 0
    ensures EndsTrack(d, shows + [s], placed + [m], ends[s.room := s.start + m.runtime + Padding])
  {
    var ends' := ends[s.room := s.start + m.runtime + Padding];
    forall r | r in ends' ensures ends'[r] == RoomEnd(shows + [s], placed + [m], r, d.first) && ends'[r] >= d.first {
      RoomEndAppend(shows, placed, s, m, r, d.first);
    }
  }

  /** A showing that starts when its room is free, inside the opening
      window, at the clock's price, in a room the movie may use and (for a
      shared movie) on its turn extends a valid list of showings. */
  lemma PlacementsAppend(d: DaySetup, shows: seq<Showing>, placed: seq<Movie>, s: Showing, m: Movie)
    requires Placements(d, shows, placed)
    requires m in d.movies && s.title == m.title
    requires d.first <= s.start <= d.close - Padding && s.price == PriceAt(d.pricing, s.start)
    requires s.start == RoundToNext5(RoomEnd(shows, placed, s.room, d.first))
    requires if m in d.shared then s.room == d.sharedRoom
             else m.title in d.assignments && s.room in d.assignments[m.title]
    requires m in d.shared ==> m == d.shared[SharedCount(placed, d.shared) % |d.shared|]
    ensures Placements(d, shows + [s], placed + [m])
  {
    SequencedAppend(shows, placed, s, m, d.first);
    AlternatesAppend(placed, m, d.shared);
    RoomsAppend(d, shows, placed, s, m);
  }

  /** After a shared showing the turn passes to the other shared movie;
      after a dedicated one it stays. */
  lemma TurnAppend(d: DaySetup, placed: seq<Movie>, m: Movie, turn: int)
    requires (|d.shared| == 0 || |d.shared| == 2) && TurnTracks(d, placed, turn)
    ensures TurnTracks(d, placed + [m], if m in d.shared then (turn + 1) % |d.shared| else turn)
  {
    SharedCountAppend(placed, m, d.shared);
    if m in d.shared {
      TurnStep(SharedCount(placed, d.shared), turn, |d.shared|);
    }
  }

  /** Placing movie `m` in `room` at the rounded end time keeps every
      property of the loop state, with the turn handed on after a shared
      showing. */
  lemma PlaceKeeps(d: DaySetup, shows: seq<Showing>, placed: seq<Movie>, ends: map<int, int>, turn: int,
                   m: Movie, room: int,
                   shows': seq<Showing>, placed': seq<Movie>, ends': map<int, int>, turn': int)
    requires WellFormed(d) && Progress(d, shows, placed, ends, turn)
    requires m in d.movies && room in ends
    requires RoundToNext5(ends[room]) <= d.close - Padding
    requires if m in d.shared then room == d.sharedRoom && m == d.shared[turn]
             else room in d.assignments[m.title]
    requires var start := RoundToNext5(ends[room]);
             && shows' == shows + [Showing(m.title, room, start, PriceAt(d.pricing, start))]
             && placed' == placed + [m]
             && ends' == ends[room := start + m.runtime + Padding]
             && turn' == if m in d.shared then (turn + 1) % |d.shared| else turn
    ensures Progress(d, shows', placed', ends', turn')
  {
    var start := RoundToNext5(ends[room]);
    var s := Showing(m.title, room, start, PriceAt(d.pricing, start));
    assert Placements(d, shows', placed') by {
      assert m.title in d.assignments;
      assert ends[room] == RoomEnd(shows, placed, room, d.first) && ends[room] >= d.first;
      PlacementsAppend(d, shows, placed, s, m);
    }
    assert EndsTrack(d, shows', placed', ends') by {
      assert m.runtime + Padding > 0 && s.room == room && s.start >= ends[room];
      EndsAppend(d, shows, placed, ends, s, m);
      assert shows' == shows + [s] && placed' == placed + [m] && ends' == ends[s.room := s.start + m.runtime + Padding];
    }
    assert TurnTracks(d, placed', turn') by {
      TurnAppend(d, placed, m, turn);
    }
  }

  /** A showing placed in a room that was still open takes away some of
      what remains of the day. */
  lemma PlaceDrops(d: DaySetup, ends: map<int, int>, m: Movie, room: int, ends': map<int, int>)
    requires WellFormed(d) && forall i :: 0 <= i < |d.rooms| ==> d.rooms[i] in ends
    requires m in d.movies && room in ends
    requires RoundToNext5(ends[room]) <= d.close - Padding
    requires if m in d.shared then room == d.sharedRoom else m.title in d.assignments && room in d.assignments[m.title]
    requires ends' == ends[room := RoundToNext5(ends[room]) + m.runtime + Padding]
    ensures SlackSum(d.rooms, ends', d.close) < SlackSum(d.rooms, ends, d.close)
  {
    assert room in d.rooms && m.runtime + Padding > 0;
    SlackSumDrops(d.rooms, ends, d.close, room, RoundToNext5(ends[room]) + m.runtime + Padding);
  }

  /** Room `r` cannot take another showing today. */
  ghost predicate Full(d: DaySetup, r: int, ends: map<int, int>)
  {
    r in ends && RoundToNext5(ends[r]) > d.close - Padding
  }

  /** Every room of `rs` is full. */
  ghost predicate AllFull(d: DaySetup, rs: seq<int>, ends: map<int, int>)
  {
    |rs| == 0 || (AllFull(d, rs[..|rs| - 1], ends) && Full(d, rs[|rs| - 1], ends))
  }

  lemma {:induction false} AllFullEach(d: DaySetup, rs: seq<int>, ends: map<int, int>)
    requires AllFull(d, rs, ends)
    ensures forall r :: r in rs ==> Full(d, r, ends)
  {
    if |rs| > 0 {
      var front := rs[..|rs| - 1];
      AllFullEach(d, front, ends);
      assert forall r :: r in rs ==> r in front || r == rs[|rs| - 1];
    }
  }

  lemma AllFullSnoc(d: DaySetup, rs: seq<int>, q: int, ends: map<int, int>)
    requires 0 <= q < |rs| && AllFull(d, rs[..q], ends) && Full(d, rs[q], ends)
    ensures AllFull(d, rs[..q + 1], ends)
  {
    assert rs[..q + 1][..q] == rs[..q];
  }

  /** Nothing can be placed for movie `m` with the current end times and turn. */
  ghost predicate Blocked(d: DaySetup, m: Movie, ends: map<int, int>, turn: int)
  {
    if m in d.shared then
      (0 <= turn < |d.shared| && m == d.shared[turn] ==>
         d.sharedRoom in ends && RoundToNext5(ends[d.sharedRoom]) > d.close - Padding)
    else
      m.title in d.assignments && AllFull(d, d.assignments[m.title], ends)
  }

  /** Every movie of `ms` is blocked. */
  ghost predicate AllBlocked(d: DaySetup, ms: seq<Movie>, ends: map<int, int>, turn: int)
  {
    |ms| == 0 || (AllBlocked(d, ms[..|ms| - 1], ends, turn) && Blocked(d, ms[|ms| - 1], ends, turn))
  }

  lemma {:induction false} AllBlockedEach(d: DaySetup, ms: seq<Movie>, ends: map<int, int>, turn: int)
    requires AllBlocked(d, ms, ends, turn)
    ensures forall k :: 0 <= k < |ms| ==> Blocked(d, ms[k], ends, turn)
  {
    if |ms| > 0 {
      var front := ms[..|ms| - 1];
      AllBlockedEach(d, front, ends, turn);
      assert forall k :: 0 <= k < |front| ==> ms[k] == front[k];
    }
  }

  lemma AllBlockedSnoc(d: DaySetup, ms: seq<Movie>, j: int, ends: map<int, int>, turn: int)
    requires 0 <= j < |ms| && AllBlocked(d, ms[..j], ends, turn) && Blocked(d, ms[j], ends, turn)
    ensures AllBlocked(d, ms[..j + 1], ends, turn)
  {
    assert ms[..j + 1][..j] == ms[..j];
  }

  lemma SaturatedAtEnd(d: DaySetup, shows: seq<Showing>, placed: seq<Movie>, ends: map<int, int>, turn: int)
    requires WellFormed(d)
    requires |shows| == |placed| && EndsTrack(d, shows, placed, ends) && TurnTracks(d, placed, turn)
    requires AllBlocked(d, d.movies, ends, turn)
    ensures Saturated(d, shows, placed)
  {
    AllBlockedEach(d, d.movies, ends, turn);
    if |d.shared| > 0 {
      var m := d.shared[turn];
      assert m in d.movies;
      var k :| 0 <= k < |d.movies| && d.movies[k] == m;
      assert Blocked(d, d.movies[k], ends, turn);
    }
    forall m, r | m in d.movies && m !in d.shared && m.title in d.assignments && r in d.assignments[m.title]
      ensures RoundToNext5(RoomEnd(shows, placed, r, d.first)) > d.close - Padding
    {
      var k :| 0 <= k < |d.movies| && d.movies[k] == m;
      assert Blocked(d, d.movies[k], ends, turn);
      AllFullEach(d, d.assignments[m.title], ends);
    }
  }


  /** With two shared movies, advancing the turn modulo two keeps it equal
      to the shared-showing count modulo two. */
  lemma TurnStep(count: nat, turn: int, n: int)
    requires n == 2 && turn == count % n
    ensures (turn + 1) % n == (count + 1) % n
  {
  }

  /** The state of a day's scheduling loop: the showings so far, the time
      each room is free again, and whose turn it is in the shared room. */
  ghost predicate Progress(d: DaySetup, shows: seq<Showing>, placed: seq<Movie>, ends: map<int, int>, turn: int)
  {
    && Placements(d, shows, placed)
    && EndsTrack(d, shows, placed, ends)
    && TurnTracks(d, placed, turn)
  }

  /** `shows'` and `placed'` extend `shows` and `placed`, and every added
      showing is of `movie`. */
  ghost predicate Appended(shows: seq<Showing>, placed: seq<Movie>, shows': seq<Showing>, placed': seq<Movie>,
                           movie: Movie)
  {
    && shows <= shows' && placed <= placed'
    && forall k :: |placed| <= k < |placed'| ==> placed'[k] == movie
  }

  /** Appending nothing, or one more showing of `movie`, keeps `Appended`. */
  lemma AppendedStep(shows: seq<Showing>, placed: seq<Movie>, shows1: seq<Showing>, placed1: seq<Movie>,
                     shows2: seq<Showing>, placed2: seq<Movie>, movie: Movie)
    requires Appended(shows, placed, shows1, placed1, movie)
    requires shows1 <= shows2 && (placed2 == placed1 || placed2 == placed1 + [movie])
    ensures Appended(shows, placed, shows2, placed2, movie)
  {
  }

  /** No room occurs twice in `rooms`. */
  ghost predicate Distinct(rooms: seq<int>)
  {
    forall i, j :: 0 <= i < j < |rooms| ==> rooms[i] != rooms[j]
  }

  /** Room `r`'s end time after `movie` is offered it once: past the showing
      and the padding when its next 5-minute start is no later than closing
      minus 5, unchanged otherwise. */
  function NextEnd(d: DaySetup, movie: Movie, ends: map<int, int>, r: int): int
    requires r in ends
  {
    if RoundToNext5(ends[r]) <= d.close - Padding then RoundToNext5(ends[r]) + movie.runtime + Padding else ends[r]
  }

  /** The end times after `movie` is offered room `r` once (the step of
      `TryPlace`). */
  function Offer(d: DaySetup, movie: Movie, ends: map<int, int>, r: int): map<int, int>
  {
    if r in ends && RoundToNext5(ends[r]) <= d.close - Padding
    then ends[r := RoundToNext5(ends[r]) + movie.runtime + Padding]
    else ends
  }

  /** The end times after `movie` is offered each room of `rooms` once, in
      order. */
  function OfferAll(d: DaySetup, movie: Movie, rooms: seq<int>, ends: map<int, int>): (r: map<int, int>)
    ensures r.Keys == ends.Keys
  {
    if rooms == [] then ends else OfferAll(d, movie, rooms[1..], Offer(d, movie, ends, rooms[0]))
  }

  /** Offering rooms never moves an end time back, leaves the rooms not
      offered alone, and uses every offered room that had a free slot. */
  lemma {:induction false} OfferAllMoves(d: DaySetup, movie: Movie, rooms: seq<int>, ends: map<int, int>)
    requires movie.runtime + Padding > 0
    ensures forall r :: r in ends ==> OfferAll(d, movie, rooms, ends)[r] >= ends[r]
    ensures forall r :: r in ends && r !in rooms ==> OfferAll(d, movie, rooms, ends)[r] == ends[r]
    ensures forall r :: r in rooms && r in ends && RoundToNext5(ends[r]) <= d.close - Padding ==>
              OfferAll(d, movie, rooms, ends)[r] > ends[r]
  {
    if rooms != [] {
      var rest, e1 := rooms[1..], Offer(d, movie, ends, rooms[0]);
      OfferAllMoves(d, movie, rest, e1);
      assert forall r :: r in rooms ==> r == rooms[0] || r in rest;
    }
  }

  /** With no room listed twice, every offered room ends exactly at its
      `NextEnd` from the starting end times: each room is offered once. */
  lemma {:induction false} OfferAllDistinct(d: DaySetup, movie: Movie, rooms: seq<int>, ends: map<int, int>)
    requires movie.runtime + Padding > 0 && Distinct(rooms)
    ensures forall r :: r in rooms && r in ends ==> OfferAll(d, movie, rooms, ends)[r] == NextEnd(d, movie, ends, r)
  {
    if rooms != [] {
      var rest, e1 := rooms[1..], Offer(d, movie, ends, rooms[0]);
      assert Distinct(rest) by {
        forall i, j | 0 <= i < j < |rest| ensures rest[i] != rest[j] {
          assert rest[i] == rooms[i + 1] && rest[j] == rooms[j + 1];
        }
      }
      assert rooms[0] !in rest by {
        forall i | 0 <= i < |rest| ensures rest[i] != rooms[0] {
          assert rest[i] == rooms[i + 1];
        }
      }
      OfferAllDistinct(d, movie, rest, e1);
      OfferAllMoves(d, movie, rest, e1);
      assert forall r :: r in rooms ==> r == rooms[0] || r in rest;
    }
  }

  /** The step both branches of the day loop share: show `movie` in `room`
      at the room's next 5-minute mark when that is no later than 5 minutes
      before closing, and move the room's end time past the showing plus the
      padding.  A shared showing hands the turn to the other shared movie. */
  method TryPlace(d: DaySetup, movie: Movie, room: int, shows: seq<Showing>, ghost placed: seq<Movie>,
                  ends: map<int, int>, turn: int)
    returns (shows': seq<Showing>, ghost placed': seq<Movie>, ends': map<int, int>, turn': int, fits: bool)
    requires WellFormed(d) && Progress(d, shows, placed, ends, turn)
    requires movie in d.movies && room in ends
    requires if movie in d.shared then room == d.sharedRoom && movie == d.shared[turn]
             else room in d.assignments[movie.title]
    ensures fits <==> RoundToNext5(ends[room]) <= d.close - Padding
    ensures !fits ==> shows' == shows && placed' == placed && ends' == ends && turn' == turn
    ensures fits ==> var start := RoundToNext5(ends[room]);
                     && shows' == shows + [Showing(movie.title, room, start, PriceAt(d.pricing, start))]
                     && placed' == placed + [movie]
                     && ends' == ends[room := start + movie.runtime + Padding]
                     && turn' == if movie in d.shared then (turn + 1) % |d.shared| else turn
    ensures ends' == Offer(d, movie, ends, room)
    ensures fits ==> Progress(d, shows', placed', ends', turn')
    ensures fits ==> SlackSum(d.rooms, ends', d.close) < SlackSum(d.rooms, ends, d.close)
  {
    var nextStart := RoundToNext5(ends[room]);
    fits := nextStart <= d.close - Padding;
    if fits {
      shows' := shows + [Showing(movie.title, room, nextStart, PriceAt(d.pricing, nextStart))];
      placed' := placed + [movie];
      ends' := ends[room := nextStart + movie.runtime + Padding];
      assert ends' == Offer(d, movie, ends, room);
      turn' := if movie in d.shared then (turn + 1) % |d.shared| else turn;
      assert Progress(d, shows', placed', ends', turn') by {
        PlaceKeeps(d, shows, placed, ends, turn, movie, room, shows', placed', ends', turn');
      }
      assert SlackSum(d.rooms, ends', d.close) < SlackSum(d.rooms, ends, d.close) by {
        PlaceDrops(d, ends, movie, room, ends');
      }
    } else {
      shows', placed', ends', turn' := shows, placed, ends, turn;
    }
  }

  /** The state of the dedicated branch after `movie` has been offered the
      first `q` of its rooms `rooms`, starting from `shows`, `placed`,
      `ends` and `turn`: the day invariants hold, the earlier showings are
      a prefix and every added one is of `movie`, the turn is unchanged, the
      end times are on their way to `OfferAll`, at most one showing was
      added per room offered, and (unless something was placed) nothing
      changed and every room offered so far is full. */
  ghost predicate Offering(d: DaySetup, movie: Movie, rooms: seq<int>, q: int,
                           shows: seq<Showing>, placed: seq<Movie>, ends: map<int, int>, turn: int,
                           shows': seq<Showing>, placed': seq<Movie>, ends': map<int, int>, turn': int,
                           scheduledAny: bool)
    requires WellFormed(d) && Progress(d, shows, placed, ends, turn)
  {
    && 0 <= q <= |rooms|
    && Progress(d, shows', placed', ends', turn')
    && Appended(shows, placed, shows', placed', movie) && turn' == turn
    && OfferAll(d, movie, rooms[q..], ends') == OfferAll(d, movie, rooms, ends) && |shows'| <= |shows| + q
    && SlackSum(d.rooms, ends', d.close) <= SlackSum(d.rooms, ends, d.close)
    && (scheduledAny ==> SlackSum(d.rooms, ends', d.close) < SlackSum(d.rooms, ends, d.close))
    && (!scheduledAny ==> shows' == shows && placed' == placed && ends' == ends && turn' == turn)
    && (!scheduledAny ==> AllFull(d, rooms[..q], ends))
  }

  /** One iteration of the dedicated branch: offer `movie` room `rooms[q]`. */
  method OfferRoom(d: DaySetup, movie: Movie, rooms: seq<int>, q: int,
                   shows: seq<Showing>, ghost placed: seq<Movie>, ends: map<int, int>, turn: int,
                   shows1: seq<Showing>, ghost placed1: seq<Movie>, ends1: map<int, int>, turn1: int,
                   scheduled1: bool)
    returns (shows2: seq<Showing>, ghost placed2: seq<Movie>, ends2: map<int, int>, turn2: int, scheduled2: bool)
    requires WellFormed(d) && Progress(d, shows, placed, ends, turn)
    requires movie in d.movies && movie !in d.shared && rooms == d.assignments[movie.title] && q < |rooms|
    requires Offering(d, movie, rooms, q, shows, placed, ends, turn, shows1, placed1, ends1, turn1, scheduled1)
    ensures Offering(d, movie, rooms, q + 1, shows, placed, ends, turn, shows2, placed2, ends2, turn2, scheduled2)
    ensures scheduled2 == (scheduled1 || RoundToNext5(ends1[rooms[q]]) <= d.close - Padding)
  {
    var fits;
    shows2, placed2, ends2, turn2, fits := TryPlace(d, movie, rooms[q], shows1, placed1, ends1, turn1);
    assert Appended(shows, placed, shows2, placed2, movie) by {
      AppendedStep(shows, placed, shows1, placed1, shows2, placed2, movie);
    }
    assert OfferAll(d, movie, rooms[q + 1..], ends2) == OfferAll(d, movie, rooms, ends) by {
      assert rooms[q..][1..] == rooms[q + 1..];
    }
    assert !scheduled1 && !fits ==> AllFull(d, rooms[..q + 1], ends) by {
      if !scheduled1 && !fits {
        AllFullSnoc(d, rooms, q, ends);
      }
    }
    scheduled2 := scheduled1 || fits;
  }

  /** The dedicated branch for one movie: try each of its rooms in table
      order. */
  method OfferRooms(d: DaySetup, movie: Movie, shows: seq<Showing>, ghost placed: seq<Movie>,
                    ends: map<int, int>, turn: int)
    returns (shows': seq<Showing>, ghost placed': seq<Movie>, ends': map<int, int>, turn': int, scheduledAny: bool)
    requires WellFormed(d) && Progress(d, shows, placed, ends, turn)
    requires movie in d.movies && movie !in d.shared
    ensures Progress(d, shows', placed', ends', turn')
    ensures Appended(shows, placed, shows', placed', movie) && turn' == turn
    ensures SlackSum(d.rooms, ends', d.close) <= SlackSum(d.rooms, ends, d.close)
    ensures scheduledAny ==> SlackSum(d.rooms, ends', d.close) < SlackSum(d.rooms, ends, d.close)
    ensures !scheduledAny ==> shows' == shows && placed' == placed && ends' == ends && turn' == turn
    ensures !scheduledAny ==> Blocked(d, movie, ends, turn)
    ensures d.assignments[movie.title] == [] ==> !scheduledAny
    ensures ends' == OfferAll(d, movie, d.assignments[movie.title], ends)
    ensures |shows'| <= |shows| + |d.assignments[movie.title]|
  {
    shows', placed', ends', turn' := shows, placed, ends, turn;
    scheduledAny := false;
    var rooms := d.assignments[movie.title];
    for q := 0 to |rooms|
      invariant Offering(d, movie, rooms, q, shows, placed, ends, turn, shows', placed', ends', turn', scheduledAny)
      invariant rooms == [] ==> !scheduledAny
    {
      shows', placed', ends', turn', scheduledAny :=
        OfferRoom(d, movie, rooms, q, shows, placed, ends, turn, shows', placed', ends', turn', scheduledAny);
    }
    assert rooms[..|rooms|] == rooms;
  }

  /** The body of the day loop for one movie: a dedicated movie is offered
      its rooms; a shared movie takes the shared room when it is its turn
      and is skipped otherwise. */
  method OfferMovie(d: DaySetup, movie: Movie, shows: seq<Showing>, ghost placed: seq<Movie>,
                    ends: map<int, int>, turn: int)
    returns (shows': seq<Showing>, ghost placed': seq<Movie>, ends': map<int, int>, turn': int, placedHere: bool)
    requires WellFormed(d) && Progress(d, shows, placed, ends, turn) && movie in d.movies
    ensures Progress(d, shows', placed', ends', turn')
    ensures Appended(shows, placed, shows', placed', movie)
    ensures movie in d.shared && movie != d.shared[turn] ==> !placedHere
    ensures SlackSum(d.rooms, ends', d.close) <= SlackSum(d.rooms, ends, d.close)
    ensures placedHere ==> SlackSum(d.rooms, ends', d.close) < SlackSum(d.rooms, ends, d.close)
    ensures !placedHere ==> shows' == shows && placed' == placed && ends' == ends && turn' == turn
    ensures !placedHere ==> Blocked(d, movie, ends, turn)
    ensures NoRooms(d) ==> !placedHere
  {
    if movie !in d.shared {
      shows', placed', ends', turn', placedHere := OfferRooms(d, movie, shows, placed, ends, turn);
    } else if movie == d.shared[turn] {
      shows', placed', ends', turn', placedHere := TryPlace(d, movie, d.sharedRoom, shows, placed, ends, turn);
      AppendedStep(shows, placed, shows, placed, shows', placed', movie);
    } else {
      shows', placed', ends', turn', placedHere := shows, placed, ends, turn, false;
      AppendedStep(shows, placed, shows, placed, shows', placed', movie);
    }
  }

  /** One pass of the day loop over the sorted movies: the movie whose turn
      it is gets the shared room, every dedicated movie its rooms. */
  method Pass(d: DaySetup, shows: seq<Showing>, ghost placed: seq<Movie>, ends: map<int, int>, turn: int)
    returns (shows': seq<Showing>, ghost placed': seq<Movie>, ends': map<int, int>, turn': int, scheduledAny: bool)
    requires WellFormed(d) && Progress(d, shows, placed, ends, turn)
    ensures Progress(d, shows', placed', ends', turn')
    ensures shows <= shows' && placed <= placed'
    ensures scheduledAny ==> SlackSum(d.rooms, ends', d.close) < SlackSum(d.rooms, ends, d.close)
    ensures !scheduledAny ==> shows' == shows && placed' == placed && ends' == ends && turn' == turn
    ensures !scheduledAny ==> AllBlocked(d, d.movies, ends, turn)
    ensures NoRooms(d) ==> !scheduledAny
  {
    shows', placed', ends', turn' := shows, placed, ends, turn;
    scheduledAny := false;
    for j := 0 to |d.movies|
      invariant Progress(d, shows', placed', ends', turn')
      invariant shows <= shows' && placed <= placed'
      invariant SlackSum(d.rooms, ends', d.close) <= SlackSum(d.rooms, ends, d.close)
      invariant scheduledAny ==> SlackSum(d.rooms, ends', d.close) < SlackSum(d.rooms, ends, d.close)
      invariant !scheduledAny ==> shows' == shows && placed' == placed && ends' == ends && turn' == turn
      invariant !scheduledAny ==> AllBlocked(d, d.movies[..j], ends, turn)
      invariant NoRooms(d) ==> !scheduledAny
    {
      var placedHere;
      shows', placed', ends', turn', placedHere := OfferMovie(d, d.movies[j], shows', placed', ends', turn');
      assert !scheduledAny && !placedHere ==> AllBlocked(d, d.movies[..j + 1], ends, turn) by {
        if !scheduledAny && !placedHere {
          AllBlockedSnoc(d, d.movies, j, ends, turn);
        }
      }
      scheduledAny := scheduledAny || placedHere;
    }
    assert d.movies[..|d.movies|] == d.movies;
  }

  /** One day's showings.  Every room starts free at `d.first`; passes over
      the movies place showings until a pass places none.  The ghost
      `placed` names the movie of each showing. */
  method ScheduleDay(d: DaySetup) returns (shows: seq<Showing>, ghost placed: seq<Movie>)
    requires WellFormed(d)
    ensures Placements(d, shows, placed)
    ensures forall i :: 0 <= i < |shows| ==> shows[i].start % Padding == 0
    ensures Saturated(d, shows, placed)
    ensures NoRooms(d) ==> shows == []
  {
    var ends: map<int, int> := map r | r in d.rooms :: d.first;
    var turn := 0;
    shows, placed := [], [];
    while true
      invariant Progress(d, shows, placed, ends, turn)
      invariant NoRooms(d) ==> shows == []
      decreases SlackSum(d.rooms, ends, d.close)
    {
      var scheduledAny;
      shows, placed, ends, turn, scheduledAny := Pass(d, shows, placed, ends, turn);
      if !scheduledAny {
        SaturatedAtEnd(d, shows, placed, ends, turn);
        break;
      }
    }
  }

  /** A room is not free again before any of its showings so far has ended
      and the padding has passed. */
  lemma {:induction false} RoomEndAfter(shows: seq<Showing>, placed: seq<Movie>, first: int, i: int, k: int)
    requires |shows| == |placed| && Sequenced(shows, placed, first)
    requires forall n :: 0 <= n < |placed| ==> placed[n].runtime + Padding > 0
    requires 0 <= i < k <= |shows|
    ensures RoomEnd(shows[..k], placed[..k], shows[i].room, first) >= shows[i].start + placed[i].runtime + Padding
    decreases k
  {
    assert shows[..k][..k - 1] == shows[..k - 1] && placed[..k][..k - 1] == placed[..k - 1];
    if k - 1 != i {
      RoomEndAfter(shows, placed, first, i, k - 1);
    }
  }

  /** Showings in one auditorium never overlap: a later showing starts no
      earlier than the end of an earlier one plus the 5-minute padding. */
  lemma NoOverlap(d: DaySetup, shows: seq<Showing>, placed: seq<Movie>, i: int, j: int)
    requires WellFormed(d) && Placements(d, shows, placed)
    requires 0 <= i < j < |shows| && shows[i].room == shows[j].room
    ensures shows[j].start >= shows[i].start + placed[i].runtime + Padding
  {
    RoomEndAfter(shows, placed, d.first, i, j);
  }

  lemma {:induction false} SharedCountSkip(placed: seq<Movie>, shared: seq<Movie>, i: int, j: int)
    requires 0 <= i < j <= |placed| && placed[i] in shared
    requires forall k :: i < k < j ==> placed[k] !in shared
    ensures SharedCount(placed[..j], shared) == SharedCount(placed[..i], shared) + 1
    decreases j
  {
    assert placed[..j][..j - 1] == placed[..j - 1];
    if j - 1 > i {
      SharedCountSkip(placed, shared, i, j - 1);
    }
  }

  /** Two successive shared showings are of the two shared movies in turn:
      if the first is shared movie c (modulo 2), the next is shared movie
      c + 1 (modulo 2). */
  lemma SharedTurns(d: DaySetup, shows: seq<Showing>, placed: seq<Movie>, i: int, j: int)
    requires Placements(d, shows, placed) && |d.shared| == 2
    requires 0 <= i < j < |placed| && placed[i] in d.shared && placed[j] in d.shared
    requires forall k :: i < k < j ==> placed[k] !in d.shared
    ensures var c := SharedCount(placed[..i], d.shared);
            placed[i] == d.shared[c % 2] && placed[j] == d.shared[(c + 1) % 2]
  {
    SharedCountSkip(placed, d.shared, i, j);
  }

  /** No two showings in one auditorium overlap, padding included. */
  ghost predicate NoOverlaps(shows: seq<Showing>, placed: seq<Movie>)
    requires |shows| == |placed|
  {
    forall i, j :: 0 <= i < j < |shows| && shows[i].room == shows[j].room ==>
      shows[j].start >= shows[i].start + placed[i].runtime + Padding
  }

  lemma PlacementsNoOverlap(d: DaySetup, shows: seq<Showing>, placed: seq<Movie>)
    requires WellFormed(d) && Placements(d, shows, placed)
    ensures NoOverlaps(shows, placed)
  {
    forall i, j | 0 <= i < j < |shows| && shows[i].room == shows[j].room
      ensures shows[j].start >= shows[i].start + placed[i].runtime + Padding
    {
      NoOverlap(d, shows, placed, i, j);
    }
  }
}
