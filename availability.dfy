/**
 * The rotation cooldown. A song that a still-existing show used is blocked:
 * while fewer than four shows exist, any such use blocks it; otherwise it is
 * blocked when the recorded show time is at or after the creation time of the
 * fourth most recent show. Usable songs are the available songs with a known,
 * positive duration.
 */
module Availability {
  import opened Types

  /** The number of most recent shows that form the cooldown. */
  const RotationWindow := 4

  /** Shows ordered from newest to oldest. */
  predicate NewestFirst(s: seq<Show>)
  {
    forall i, j :: 0 <= i < j < |s| ==> s[i].createdAt >= s[j].createdAt
  }

  /** Every show in s was created at or before t. */
  predicate NoNewerThan(s: seq<Show>, t: int)
  {
    forall i :: 0 <= i < |s| ==> s[i].createdAt <= t
  }

  /** Places x before the first show no newer than it, so that x stays ahead of
      shows created at the same time (the built-in sort is stable). */
  function InsertByRecency(x: Show, s: seq<Show>): (r: seq<Show>)
    ensures |r| == |s| + 1
  {
    if s == [] then [x]
    else if s[0].createdAt <= x.createdAt then [x] + s
    else [s[0]] + InsertByRecency(x, s[1..])
  }

  lemma {:induction false} InsertNoNewer(x: Show, s: seq<Show>, t: int)
    requires NoNewerThan(s, t) && x.createdAt <= t
    ensures NoNewerThan(InsertByRecency(x, s), t)
  {
    if s != [] && s[0].createdAt > x.createdAt {
      InsertNoNewer(x, s[1..], t);
    }
  }

  /** A show followed by shows no newer than it, in order, is in order. */
  lemma ConsNewestFirst(x: Show, s: seq<Show>)
    requires NewestFirst(s) && NoNewerThan(s, x.createdAt)
    ensures NewestFirst([x] + s)
  {
    var r := [x] + s;
    forall i, j | 0 <= i < j < |r| ensures r[i].createdAt >= r[j].createdAt {
      assert r[j] == s[j - 1];
      if i > 0 {
        assert r[i] == s[i - 1];
      }
    }
  }

  lemma {:induction false} InsertByRecencyElements(x: Show, s: seq<Show>)
    ensures multiset(InsertByRecency(x, s)) == multiset(s) + multiset{x}
  {
    if s != [] && s[0].createdAt > x.createdAt {
      InsertByRecencyElements(x, s[1..]);
      assert s == [s[0]] + s[1..];
    }
  }

  lemma {:induction false} InsertByRecencyCorrect(x: Show, s: seq<Show>)
    requires NewestFirst(s)
    ensures NewestFirst(InsertByRecency(x, s))
  {
    if s == [] {
    } else if s[0].createdAt <= x.createdAt {
      assert NoNewerThan(s, x.createdAt);
      ConsNewestFirst(x, s);
    } else {
      var rest := s[1..];
      assert NewestFirst(rest);
      InsertByRecencyCorrect(x, rest);
      assert NoNewerThan(rest, s[0].createdAt);
      InsertNoNewer(x, rest, s[0].createdAt);
      ConsNewestFirst(s[0], InsertByRecency(x, rest));
    }
  }

  /** sortedShows: the shows by creation time, newest first. */
  function ByRecency(shows: seq<Show>): (r: seq<Show>)
    ensures NewestFirst(r)
    ensures multiset(r) == multiset(shows)
    ensures |r| == |shows|
  {
    if shows == [] then []
    else
      assert shows == [shows[0]] + shows[1..];
      InsertByRecencyCorrect(shows[0], ByRecency(shows[1..]));
      InsertByRecencyElements(shows[0], ByRecency(shows[1..]));
      InsertByRecency(shows[0], ByRecency(shows[1..]))
  }

  /** The number of shows created strictly after time t. */
  function CountNewer(shows: seq<Show>, t: int): (n: nat)
    ensures n <= |shows|
  {
    if shows == [] then 0
    else (if shows[0].createdAt > t then 1 else 0) + CountNewer(shows[1..], t)
  }

  lemma {:induction false} CountNewerAppend(a: seq<Show>, b: seq<Show>, t: int)
    ensures CountNewer(a + b, t) == CountNewer(a, t) + CountNewer(b, t)
  {
    if a == [] {
      assert a + b == b;
    } else {
      assert (a + b)[1..] == a[1..] + b;
      CountNewerAppend(a[1..], b, t);
    }
  }

  lemma {:induction false} CountNewerInsert(x: Show, s: seq<Show>, t: int)
    ensures CountNewer(InsertByRecency(x, s), t) == (if x.createdAt > t then 1 else 0) + CountNewer(s, t)
  {
    if s != [] && s[0].createdAt > x.createdAt {
      CountNewerInsert(x, s[1..], t);
      assert InsertByRecency(x, s)[1..] == InsertByRecency(x, s[1..]);
    }
  }

  /** Sorting does not change how many shows are newer than a given time. */
  lemma {:induction false} CountNewerByRecency(shows: seq<Show>, t: int)
    ensures CountNewer(ByRecency(shows), t) == CountNewer(shows, t)
  {
    if shows != [] {
      CountNewerByRecency(shows[1..], t);
      CountNewerInsert(shows[0], ByRecency(shows[1..]), t);
    }
  }

  /** An element of a permutation of a list shares its creation time with a
      position of the list. */
  lemma {:induction false} CreatedAmong(r: seq<Show>, shows: seq<Show>, k: nat)
    requires multiset(r) == multiset(shows) && k < |r|
    ensures exists i :: 0 <= i < |shows| && shows[i].createdAt == r[k].createdAt
  {
    assert r[k] in multiset(r);
    assert r[k] in shows;
    var i :| 0 <= i < |shows| && shows[i] == r[k];
  }

  /** Fewer than four shows are newer than a time exactly when the time is
      at or after the fourth newest creation time. */
  lemma FourthNewestCount(shows: seq<Show>, t: int)
    requires |shows| >= RotationWindow
    ensures t >= ByRecency(shows)[RotationWindow - 1].createdAt <==> CountNewer(shows, t) < RotationWindow
  {
    CountNewerByRecency(shows, t);
    RankByCount(ByRecency(shows), RotationWindow - 1, t);
  }


  /** The creation time of the fourth most recent show (`sortedShows[3]`): the
      creation time of one of the shows, with fewer than four shows created
      after it and at least four created at or after it. */
  function WindowFloor(shows: seq<Show>): (f: int)
    requires |shows| >= RotationWindow
    ensures exists i :: 0 <= i < |shows| && shows[i].createdAt == f
    ensures CountNewer(shows, f) < RotationWindow <= CountNewer(shows, f - 1)
  {
    CreatedAmong(ByRecency(shows), shows, RotationWindow - 1);
    var f := ByRecency(shows)[RotationWindow - 1].createdAt;
    FourthNewestCount(shows, f);
    FourthNewestCount(shows, f - 1);
    f
  }


  predicate ShowExists(shows: seq<Show>, id: ShowId)
    ensures ShowExists(shows, id) <==> exists i :: 0 <= i < |shows| && shows[i].id == id
  {
    if shows == [] then false
    else shows[0].id == id || ShowExists(shows[1..], id)
  }

  datatype Reason =
    | UsedWhileFewShows(showId: ShowId)   // fewer than four shows exist
    | RecentlyUsed(showId: ShowId)        // the show is among the four most recent

  datatype Verdict = Available | Unavailable(reason: Reason)

  /** getSongAvailability. */
  function SongAvailability(song: Song, shows: seq<Show>): (v: Verdict)
    ensures song.lastUsedInShowDetails.None? ==> v == Available
    ensures song.lastUsedInShowDetails.Some? && !ShowExists(shows, song.lastUsedInShowDetails.value.showId)
            ==> v == Available
    ensures |shows| < RotationWindow ==>
              (v.Unavailable? <==> song.lastUsedInShowDetails.Some?
                                   && ShowExists(shows, song.lastUsedInShowDetails.value.showId))
    ensures |shows| >= RotationWindow ==>
              (v.Unavailable? <==> song.lastUsedInShowDetails.Some?
                                   && ShowExists(shows, song.lastUsedInShowDetails.value.showId)
                                   && song.lastUsedInShowDetails.value.showCreatedAt >= WindowFloor(shows))
    ensures v.Unavailable? ==> v.reason.showId == song.lastUsedInShowDetails.value.showId
  {
    match song.lastUsedInShowDetails
    case None => Available
    case Some(used) =>
      var exists_ := ShowExists(shows, used.showId);
      if |shows| < RotationWindow then
        if exists_ then Unavailable(UsedWhileFewShows(used.showId)) else Available
      else if exists_ && used.showCreatedAt >= WindowFloor(shows) then
        Unavailable(RecentlyUsed(used.showId))
      else Available
  }

  /** The floor of the window, read as a count: a recorded time is at or after
      the fourth most recent creation time exactly when fewer than four shows
      were created after it. */
  lemma WindowFloorByCount(shows: seq<Show>, t: int)
    requires |shows| >= RotationWindow
    ensures t >= WindowFloor(shows) <==> CountNewer(shows, t) < RotationWindow
  {
    FourthNewestCount(shows, t);
  }

  /** In a newest-first sequence, at most k shows are newer than a time at or
      after the k-th creation time, and more than k are newer than one before it. */
  lemma {:induction false} RankByCount(r: seq<Show>, k: nat, t: int)
    requires NewestFirst(r) && k < |r|
    ensures t >= r[k].createdAt ==> CountNewer(r, t) <= k
    ensures t < r[k].createdAt ==> CountNewer(r, t) >= k + 1
  {
    assert NewestFirst(r[1..]);
    if k == 0 {
      if t >= r[0].createdAt {
        NoneNewer(r, t);
      }
    } else {
      RankByCount(r[1..], k - 1, t);
    }
  }

  lemma {:induction false} NoneNewer(s: seq<Show>, t: int)
    requires NoNewerThan(s, t)
    ensures CountNewer(s, t) == 0
  {
    if s != [] {
      NoneNewer(s[1..], t);
    }
  }

  /** The cooldown restated without sorting: a song is blocked exactly when the
      show it records still exists and, once four shows exist, fewer than four
      shows were created after the recorded time. */
  lemma AvailabilityByCount(song: Song, shows: seq<Show>)
    ensures SongAvailability(song, shows).Unavailable? <==>
      && song.lastUsedInShowDetails.Some?
      && ShowExists(shows, song.lastUsedInShowDetails.value.showId)
      && (|shows| < RotationWindow
          || CountNewer(shows, song.lastUsedInShowDetails.value.showCreatedAt) < RotationWindow)
  {
    if song.lastUsedInShowDetails.Some? && |shows| >= RotationWindow {
      WindowFloorByCount(shows, song.lastUsedInShowDetails.value.showCreatedAt);
    }
  }

  /** A song stamped by a show that exists and is at least as new as every show
      is blocked, whatever the number of shows. */
  lemma NewestStampBlocks(song: Song, shows: seq<Show>)
    requires song.lastUsedInShowDetails.Some?
    requires ShowExists(shows, song.lastUsedInShowDetails.value.showId)
    requires forall i :: 0 <= i < |shows| ==> shows[i].createdAt <= song.lastUsedInShowDetails.value.showCreatedAt
    ensures SongAvailability(song, shows).Unavailable?
  {
    NoneNewer(shows, song.lastUsedInShowDetails.value.showCreatedAt);
    AvailabilityByCount(song, shows);
  }

  /** Adding a show can only push older shows out of the window: a song that is
      free stays free when a show other than the one it records is added. */
  lemma NewerShowKeepsAvailable(song: Song, shows: seq<Show>, added: Show)
    requires SongAvailability(song, shows).Available?
    requires song.lastUsedInShowDetails.Some? ==> added.id != song.lastUsedInShowDetails.value.showId
    ensures SongAvailability(song, shows + [added]).Available?
  {
    if song.lastUsedInShowDetails.Some? {
      var u := song.lastUsedInShowDetails.value;
      AvailabilityByCount(song, shows);
      AvailabilityByCount(song, shows + [added]);
      CountNewerAppend(shows, [added], u.showCreatedAt);
      ExistsBeforeAdded(shows, added, u.showId);
    }
  }

  /** A show other than the added one was there before it was added. */
  lemma ExistsBeforeAdded(shows: seq<Show>, added: Show, id: ShowId)
    requires added.id != id
    ensures ShowExists(shows + [added], id) ==> ShowExists(shows, id)
  {
    if ShowExists(shows + [added], id) {
      var i :| 0 <= i < |shows + [added]| && (shows + [added])[i].id == id;
      assert i < |shows| && shows[i].id == id;
    }
  }

  /** Two show lists with the same ids and creation times, position by position:
      they differ at most in names, playlists and cached totals. */
  predicate SameTimeline(a: seq<Show>, b: seq<Show>)
  {
    |a| == |b| && forall i :: 0 <= i < |a| ==> a[i].id == b[i].id && a[i].createdAt == b[i].createdAt
  }

  lemma {:induction false} SameTimelineCount(a: seq<Show>, b: seq<Show>, t: int)
    requires SameTimeline(a, b)
    ensures CountNewer(a, t) == CountNewer(b, t)
  {
    if a != [] {
      assert SameTimeline(a[1..], b[1..]) by {
        assert forall i :: 0 <= i < |a| - 1 ==> a[1..][i] == a[i + 1] && b[1..][i] == b[i + 1];
      }
      SameTimelineCount(a[1..], b[1..], t);
    }
  }

  /** The cooldown looks only at show ids and creation times: editing a show's
      playlist or total changes no song's verdict. */
  lemma SameTimelineSameAvailability(song: Song, a: seq<Show>, b: seq<Show>)
    requires SameTimeline(a, b)
    ensures SongAvailability(song, a) == SongAvailability(song, b)
  {
    if song.lastUsedInShowDetails.Some? {
      var u := song.lastUsedInShowDetails.value;
      assert ShowExists(a, u.showId) <==> ShowExists(b, u.showId) by {
        if ShowExists(a, u.showId) {
          var i :| 0 <= i < |a| && a[i].id == u.showId;
          assert b[i].id == u.showId;
        }
        if ShowExists(b, u.showId) {
          var i :| 0 <= i < |b| && b[i].id == u.showId;
          assert a[i].id == u.showId;
        }
      }
      if |a| >= RotationWindow {
        SameTimelineCount(a, b, u.showCreatedAt);
        WindowFloorByCount(a, u.showCreatedAt);
        WindowFloorByCount(b, u.showCreatedAt);
      }
    }
  }

  /** The usable filter: available and with a positive duration. */
  predicate Usable(song: Song, shows: seq<Show>)
    ensures Usable(song, shows) <==>
      && song.durationSeconds > 0
      && (|| song.lastUsedInShowDetails.None?
          || !ShowExists(shows, song.lastUsedInShowDetails.value.showId)
          || (|shows| >= RotationWindow
              && CountNewer(shows, song.lastUsedInShowDetails.value.showCreatedAt) >= RotationWindow))
  {
    AvailabilityByCount(song, shows);
    SongAvailability(song, shows).Available? && song.durationSeconds > 0
  }

  /** usableSongsForNewShow: the library's usable songs, in library order. */
  function UsableSongs(songs: seq<Song>, shows: seq<Show>): (r: seq<Song>)
    ensures |r| <= |songs|
    ensures forall x :: x in r <==> x in songs && Usable(x, shows)
  {
    if songs == [] then []
    else
      var rest := UsableSongs(songs[1..], shows);
      assert songs == [songs[0]] + songs[1..];
      if Usable(songs[0], shows) then [songs[0]] + rest else rest
  }

  /** Each usable song is kept as often as the library holds it, and every
      other song is dropped. */
  lemma {:induction false} UsableSongsCount(songs: seq<Song>, shows: seq<Show>)
    ensures forall x :: multiset(UsableSongs(songs, shows))[x] == if Usable(x, shows) then multiset(songs)[x] else 0
  {
    if songs != [] {
      assert songs == [songs[0]] + songs[1..];
      UsableSongsCount(songs[1..], shows);
    }
  }

  /** The filter goes song by song and keeps the library order. */
  lemma {:induction false} UsableSongsAppend(a: seq<Song>, b: seq<Song>, shows: seq<Show>)
    ensures UsableSongs(a + b, shows) == UsableSongs(a, shows) + UsableSongs(b, shows)
  {
    if a == [] {
      assert a + b == b;
    } else {
      AppendTail(a, b);
      UsableSongsAppend(a[1..], b, shows);
      AppendAssoc(if Usable(a[0], shows) then [a[0]] else [], UsableSongs(a[1..], shows), UsableSongs(b, shows));
    }
  }
}
