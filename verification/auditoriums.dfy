/** `assign_auditoriums` (reservation/movie_schedule.py): movies sorted
    newest first (longer first on equal dates), auditoriums sorted by size
    rank; every movie but the last two gets the auditorium at its own
    index, and the last two share the last auditorium. */
module Auditoriums {
  import opened Wrappers
  import opened Sorting
  import opened Showtimes

  /** Sort order of the movies: key (release date, runtime), descending. */
  function MovieBefore(a: Movie, b: Movie): bool
  {
    a.release.day > b.release.day || (a.release.day == b.release.day && a.runtime >= b.runtime)
  }

  /** Sort order of the auditoriums: size rank, ascending. */
  function AuditoriumBefore(a: Auditorium, b: Auditorium): bool
  {
    a.sizeRank <= b.sizeRank
  }

  lemma MovieOrderIsTotal()
    ensures TotalPreorder(MovieBefore)
  {
  }

  lemma AuditoriumOrderIsTotal()
    ensures TotalPreorder(AuditoriumBefore)
  {
  }

  /** What `assign_auditoriums` returns, with the two lists it sorted in place. */
  datatype Assignment = Assignment(rooms: map<string, seq<int>>, shared: seq<Movie>,
                                   movies: seq<Movie>, auditoriums: seq<Auditorium>)

  /** The titles of a list of movies. */
  function Titles(ms: seq<Movie>): set<string>
  {
    if ms == [] then {} else {ms[0].title} + Titles(ms[1..])
  }

  lemma {:induction false} TitleIn(ms: seq<Movie>, j: int)
    requires 0 <= j < |ms|
    ensures ms[j].title in Titles(ms)
  {
    if j > 0 {
      TitleIn(ms[1..], j - 1);
    }
  }

  ghost predicate DistinctTitles(ms: seq<Movie>)
  {
    forall i, j :: 0 <= i < j < |ms| ==> ms[i].title != ms[j].title
  }

  /** The indexing in `assign_auditoriums` raises IndexError: a dedicated
      auditorium index past the end, or `auditoriums[-1]` of an empty list. */
  predicate AssignFails(movieCount: int, auditoriumCount: int)
  {
    auditoriumCount < movieCount - 2 || (movieCount >= 2 && auditoriumCount == 0)
  }

  /** Whether movie position `j` (of `n`) can be given its room. */
  predicate RoomIndexOk(n: int, auditoriumCount: int, j: int)
  {
    0 <= j && (j < n - 2 ==> j < auditoriumCount) && (j >= n - 2 ==> auditoriumCount > 0)
  }

  /** The room given to the movie at sorted position `j`. */
  function RoomFor(auds: seq<Auditorium>, n: int, j: int): int
    requires RoomIndexOk(n, |auds|, j)
  {
    if j < n - 2 then auds[j].room else auds[|auds| - 1].room
  }

  /** Whether the first `k` positions (of `n`) can all be given their room. */
  predicate PrefixAssignable(n: int, auditoriumCount: int, k: int)
  {
    0 <= k && (k <= n - 2 ==> k <= auditoriumCount) && (k > n - 2 && k > 0 ==> n - 2 <= auditoriumCount && auditoriumCount > 0)
  }

  /** The rooms appended to title `t`'s list while handling the first `k`
      sorted movies, in order. */
  function AssignedRooms(ms: seq<Movie>, auds: seq<Auditorium>, t: string, k: int): seq<int>
    requires k <= |ms| && PrefixAssignable(|ms|, |auds|, k)
  {
    if k == 0 then []
    else
      AssignedRooms(ms, auds, t, k - 1)
        + (if ms[k - 1].title == t then [RoomFor(auds, |ms|, k - 1)] else [])
  }

  /** The `assignments` table after handling the first `k` sorted movies:
      it starts with an empty list per title, and handling position `j`
      appends that position's room to its title's list. */
  function TableUpTo(ms: seq<Movie>, auds: seq<Auditorium>, k: int): (table: map<string, seq<int>>)
    requires k <= |ms| && PrefixAssignable(|ms|, |auds|, k)
  {
    if k == 0 then map t | t in Titles(ms) :: []
    else
      var prev := TableUpTo(ms, auds, k - 1);
      var t := ms[k - 1].title;
      prev[t := (if t in prev then prev[t] else []) + [RoomFor(auds, |ms|, k - 1)]]
  }

  /** The table has a list for every title, from the start. */
  lemma {:induction false} TableKeys(ms: seq<Movie>, auds: seq<Auditorium>, k: int)
    requires k <= |ms| && PrefixAssignable(|ms|, |auds|, k)
    ensures TableUpTo(ms, auds, k).Keys == Titles(ms)
  {
    if k > 0 {
      TableKeys(ms, auds, k - 1);
      TitleIn(ms, k - 1);
    }
  }

  /** The final `assignments` table; positions are handled only when there
      are at least two movies. */
  function RoomTable(ms: seq<Movie>, auds: seq<Auditorium>): map<string, seq<int>>
    requires !AssignFails(|ms|, |auds|)
  {
    TableUpTo(ms, auds, if |ms| >= 2 then |ms| else 0)
  }

  /** Title by title, the table lists the rooms of the positions holding
      that title, in position order. */
  lemma {:induction false} TableUpToRooms(ms: seq<Movie>, auds: seq<Auditorium>, k: int, t: string)
    requires k <= |ms| && PrefixAssignable(|ms|, |auds|, k)
    requires t in Titles(ms)
    ensures t in TableUpTo(ms, auds, k)
    ensures TableUpTo(ms, auds, k)[t] == AssignedRooms(ms, auds, t, k)
  {
    TableKeys(ms, auds, k);
    if k > 0 {
      TableUpToRooms(ms, auds, k - 1, t);
      TableKeys(ms, auds, k - 1);
    }
  }

  /** The rooms of the auditoriums, in list order. */
  function Rooms(auds: seq<Auditorium>): seq<int>
  {
    seq(|auds|, j requires 0 <= j < |auds| => auds[j].room)
  }

  /** Every room the table hands out is the room of a configured auditorium. */
  lemma {:induction false} TableRoomsExist(ms: seq<Movie>, auds: seq<Auditorium>, k: int)
    requires k <= |ms| && PrefixAssignable(|ms|, |auds|, k)
    ensures forall t, r :: t in TableUpTo(ms, auds, k) && r in TableUpTo(ms, auds, k)[t] ==> r in Rooms(auds)
  {
    if k > 0 {
      TableRoomsExist(ms, auds, k - 1);
      var j := k - 1;
      var room := RoomFor(auds, |ms|, j);
      assert room in Rooms(auds) by {
        if j < |ms| - 2 {
          assert Rooms(auds)[j] == room;
        } else {
          assert Rooms(auds)[|auds| - 1] == room;
        }
      }
    }
  }

  /** The final table has an entry for every movie, hands out only rooms of
      configured auditoriums, and is empty everywhere with fewer than two
      movies. */
  lemma RoomTableCovers(ms: seq<Movie>, auds: seq<Auditorium>)
    requires !AssignFails(|ms|, |auds|)
    ensures forall j :: 0 <= j < |ms| ==> ms[j].title in RoomTable(ms, auds)
    ensures forall t, r :: t in RoomTable(ms, auds) && r in RoomTable(ms, auds)[t] ==> r in Rooms(auds)
    ensures |ms| < 2 ==> forall t :: t in RoomTable(ms, auds) ==> RoomTable(ms, auds)[t] == []
  {
    var k := if |ms| >= 2 then |ms| else 0;
    TableKeys(ms, auds, k);
    TableRoomsExist(ms, auds, k);
    forall j | 0 <= j < |ms| ensures ms[j].title in RoomTable(ms, auds) {
      TitleIn(ms, j);
    }
  }

  /** With distinct titles each title collects exactly the room of its own
      position, once that position has been handled. */
  lemma {:induction false} AssignedRoomsOfDistinct(ms: seq<Movie>, auds: seq<Auditorium>, k: int, i: int)
    requires k <= |ms| && PrefixAssignable(|ms|, |auds|, k)
    requires DistinctTitles(ms)
    requires 0 <= i < |ms|
    ensures i < k ==> RoomIndexOk(|ms|, |auds|, i)
    ensures AssignedRooms(ms, auds, ms[i].title, k) == if i < k then [RoomFor(auds, |ms|, i)] else []
  {
    if k > 0 {
      AssignedRoomsOfDistinct(ms, auds, k - 1, i);
      assert ms[k - 1].title == ms[i].title <==> k - 1 == i;
    }
  }

  /** The assignment rule, for distinct titles: the movie at sorted position
      i < n - 2 gets exactly the auditorium at position i; each of the last
      two gets exactly the last auditorium; with fewer than two movies every
      list stays empty. */
  lemma RoomTableOfDistinct(ms: seq<Movie>, auds: seq<Auditorium>, i: int)
    requires !AssignFails(|ms|, |auds|)
    requires DistinctTitles(ms)
    requires 0 <= i < |ms|
    ensures ms[i].title in RoomTable(ms, auds)
    ensures i < |ms| - 2 ==> RoomTable(ms, auds)[ms[i].title] == [auds[i].room]
    ensures |ms| >= 2 && i >= |ms| - 2 ==> RoomTable(ms, auds)[ms[i].title] == [auds[|auds| - 1].room]
    ensures |ms| < 2 ==> RoomTable(ms, auds)[ms[i].title] == []
  {
    var k := if |ms| >= 2 then |ms| else 0;
    TitleIn(ms, i);
    TableUpToRooms(ms, auds, k, ms[i].title);
    AssignedRoomsOfDistinct(ms, auds, k, i);
  }

  lemma {:induction false} InsertKeepsDistinct(x: Movie, t: seq<Movie>)
    requires DistinctTitles(t)
    requires forall e :: e in t ==> e.title != x.title
    ensures DistinctTitles(Insert(x, t, MovieBefore))
  {
    if t != [] && !MovieBefore(x, t[0]) {
      var rest := Insert(x, t[1..], MovieBefore);
      InsertKeepsDistinct(x, t[1..]);
      forall e | e in rest ensures e.title != t[0].title {
        assert e in multiset(rest);
        if e != x {
          assert e in multiset(t[1..]);
          var j :| 0 <= j < |t[1..]| && t[1..][j] == e;
          assert t[j + 1] == e;
        }
      }
      var r := [t[0]] + rest;
      forall i, j | 0 <= i < j < |r| ensures r[i].title != r[j].title {
        if i == 0 {
          assert r[j] in rest;
        } else {
          assert r[i] == rest[i - 1] && r[j] == rest[j - 1];
        }
      }
    } else {
      var r := [x] + t;
      forall i, j | 0 <= i < j < |r| ensures r[i].title != r[j].title {
        if i == 0 {
          assert r[j] in t;
        } else {
          assert r[i] == t[i - 1] && r[j] == t[j - 1];
        }
      }
    }
  }

  /** Sorting keeps titles distinct, so the assignment rule above applies to
      a catalogue whose active titles are distinct. */
  lemma {:induction false} SortKeepsDistinct(ms: seq<Movie>)
    requires DistinctTitles(ms)
    ensures DistinctTitles(SortBy(ms, MovieBefore))
  {
    if ms != [] {
      SortKeepsDistinct(ms[1..]);
      SortByPermutation(ms[1..], MovieBefore);
      var rest := SortBy(ms[1..], MovieBefore);
      forall e | e in rest ensures e.title != ms[0].title {
        assert e in multiset(ms[1..]);
        var j :| 0 <= j < |ms[1..]| && ms[1..][j] == e;
        assert ms[j + 1] == e;
      }
      InsertKeepsDistinct(ms[0], rest);
    }
  }

  /** Lines 40-51 of `assign_auditoriums`, on the already sorted lists:
      fill the `assignments` table, or fail where the source's indexing
      raises IndexError. */
  method BuildRoomTable(ms: seq<Movie>, auds: seq<Auditorium>) returns (r: Result<map<string, seq<int>>, ScheduleError>)
    ensures r.Failure? <==> AssignFails(|ms|, |auds|)
    ensures r.Failure? ==> r.error == AuditoriumIndex
    ensures r.Success? ==> r.value == RoomTable(ms, auds)
  {
    var n := |ms|;
    var rooms: map<string, seq<int>> := map t | t in Titles(ms) :: [];
    var i := 0;
    while i < n - 2
      invariant 0 <= i <= |ms| && (n >= 2 ==> i <= n - 2) && (n < 2 ==> i == 0)
      invariant i <= |auds|
      invariant PrefixAssignable(n, |auds|, i)
      invariant rooms == TableUpTo(ms, auds, i)
    {
      if i >= |auds| {
        return Failure(AuditoriumIndex);
      }
      var room := auds[i].room;
      assert room == RoomFor(auds, n, i);
      TitleIn(ms, i);
      TableKeys(ms, auds, i);
      rooms := rooms[ms[i].title := rooms[ms[i].title] + [room]];
      i := i + 1;
    }
    if n >= 2 {
      if |auds| == 0 {
        return Failure(AuditoriumIndex);
      }
      var k := n - 2;
      while k < n
        invariant n - 2 <= k <= n
        invariant PrefixAssignable(n, |auds|, k)
        invariant rooms == TableUpTo(ms, auds, k)
      {
        var room := auds[|auds| - 1].room;
        assert room == RoomFor(auds, n, k);
        TitleIn(ms, k);
        TableKeys(ms, auds, k);
        rooms := rooms[ms[k].title := rooms[ms[k].title] + [room]];
        k := k + 1;
      }
    }
    r := Success(rooms);
  }

  /** `assign_auditoriums`: sorts both lists (in place in the source; here the
      sorted lists are returned), then builds the table; the shared movies
      are the last two sorted movies. */
  method AssignAuditoriums(movies: seq<Movie>, auditoriums: seq<Auditorium>)
    returns (r: Result<Assignment, ScheduleError>)
    ensures r.Failure? <==> AssignFails(|movies|, |auditoriums|)
    ensures r.Failure? ==> r.error == AuditoriumIndex
    ensures r.Success? ==>
              && r.value.movies == SortBy(movies, MovieBefore)
              && r.value.auditoriums == SortBy(auditoriums, AuditoriumBefore)
              && |r.value.movies| == |movies| && |r.value.auditoriums| == |auditoriums|
              && r.value.rooms == RoomTable(r.value.movies, r.value.auditoriums)
              && r.value.shared == (if |movies| >= 2 then r.value.movies[|movies| - 2..] else [])
  {
    var ms := SortBy(movies, MovieBefore);
    var auds := SortBy(auditoriums, AuditoriumBefore);
    SortByPermutation(movies, MovieBefore);
    SortByPermutation(auditoriums, AuditoriumBefore);
    var table := BuildRoomTable(ms, auds);
    if table.Failure? {
      return Failure(table.error);
    }
    var n := |ms|;
    r := Success(Assignment(table.value, if n >= 2 then ms[n - 2..] else [], ms, auds));
  }
}
