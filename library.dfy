/**
 * Library maintenance: deleting a song (refused while any show lists it),
 * deleting a show, and merging the result of an import into the library —
 * overwrites replace a song in place by id, new songs are appended.
 */
module Library {
  import opened Types
  import opened Durations
  import opened Availability

  /** How a guarded deletion ended. */
  datatype Status =
    | InUse      // the song is listed by a show
    | NotFound   // there is no show with that id
    | Declined   // the confirmation was answered no
    | Done

  /** isSongInAnyShow: `shows.some(show => show.songIds.includes(songId))`,
      true exactly when some show lists the id. */
  predicate InAnyShow(shows: seq<Show>, songId: SongId)
    ensures InAnyShow(shows, songId) <==> exists i :: 0 <= i < |shows| && songId in shows[i].songIds
  {
    if shows == [] then false
    else songId in shows[0].songIds || InAnyShow(shows[1..], songId)
  }

  /** Some song of the library carries the id. */
  predicate HasSong(songs: seq<Song>, id: SongId)
  {
    exists k :: 0 <= k < |songs| && songs[k].id == id
  }

  /** Referential integrity: every id listed by a show names a library song. */
  predicate ShowsResolve(songs: seq<Song>, shows: seq<Show>)
  {
    forall i, j :: 0 <= i < |shows| && 0 <= j < |shows[i].songIds| ==> HasSong(songs, shows[i].songIds[j])
  }

  /** `songs.filter(song => song.id !== songId)`. */
  function RemoveSong(songs: seq<Song>, songId: SongId): (r: seq<Song>)
    ensures forall x :: x in r <==> x in songs && x.id != songId
  {
    if songs == [] then []
    else
      assert songs == [songs[0]] + songs[1..];
      (if songs[0].id != songId then [songs[0]] else []) + RemoveSong(songs[1..], songId)
  }

  lemma {:induction false} RemoveAbsentSong(songs: seq<Song>, songId: SongId)
    requires forall k :: 0 <= k < |songs| ==> songs[k].id != songId
    ensures RemoveSong(songs, songId) == songs
  {
    if songs != [] {
      RemoveAbsentSong(songs[1..], songId);
      assert songs == [songs[0]] + songs[1..];
    }
  }

  /** In a library with unique ids, deleting the id of the song at position k
      takes out exactly that song and keeps the others in order. */
  lemma {:induction false} RemoveSongAt(songs: seq<Song>, k: nat)
    requires UniqueIds(songs) && k < |songs|
    ensures RemoveSong(songs, songs[k].id) == songs[..k] + songs[k + 1..]
  {
    var rest := songs[1..];
    assert UniqueIds(rest) by {
      forall i, j | 0 <= i < j < |rest| ensures rest[i].id != rest[j].id {
        assert rest[i] == songs[i + 1] && rest[j] == songs[j + 1];
      }
    }
    if k == 0 {
      assert forall m :: 0 <= m < |rest| ==> rest[m] == songs[m + 1];
      RemoveAbsentSong(rest, songs[0].id);
    } else {
      RemoveSongAt(rest, k - 1);
      assert rest[k - 1] == songs[k];
      assert songs[..k] == [songs[0]] + rest[..k - 1];
      assert songs[k + 1..] == rest[k..];
    }
  }

  /** handleDeleteSongFromLibrary: refused while a show lists the song;
      otherwise, once confirmed, every library song with that id goes. */
  function DeleteSong(songs: seq<Song>, shows: seq<Show>, songId: SongId, confirmed: bool): (r: (seq<Song>, Status))
    ensures InAnyShow(shows, songId) ==> r == (songs, InUse)
    ensures !InAnyShow(shows, songId) && !confirmed ==> r == (songs, Declined)
    ensures !InAnyShow(shows, songId) && confirmed ==>
      && r == (RemoveSong(songs, songId), Done)
      && (forall x :: x in r.0 <==> x in songs && x.id != songId)
  {
    if InAnyShow(shows, songId) then (songs, InUse)
    else if !confirmed then (songs, Declined)
    else (RemoveSong(songs, songId), Done)
  }

  /** The guard does its job: a deletion never leaves a show listing an id the
      library no longer has. */
  lemma DeleteSongKeepsShowsResolved(songs: seq<Song>, shows: seq<Show>, songId: SongId, confirmed: bool)
    requires ShowsResolve(songs, shows)
    ensures ShowsResolve(DeleteSong(songs, shows, songId, confirmed).0, shows)
  {
    var r := DeleteSong(songs, shows, songId, confirmed).0;
    forall i, j | 0 <= i < |shows| && 0 <= j < |shows[i].songIds|
      ensures HasSong(r, shows[i].songIds[j])
    {
      var id := shows[i].songIds[j];
      var k :| 0 <= k < |songs| && songs[k].id == id;
      if !InAnyShow(shows, songId) && confirmed {
        assert id != songId by {
          assert id in shows[i].songIds;
        }
        assert songs[k] in r;
        var m :| 0 <= m < |r| && r[m] == songs[k];
      }
    }
  }

  /** Deleting one id changes no lookup of another id. */
  lemma {:induction false} RemoveSongKeepsLookup(songs: seq<Song>, songId: SongId, id: SongId)
    requires id != songId
    ensures DurationOf(RemoveSong(songs, songId), id) == DurationOf(songs, id)
  {
    if songs != [] {
      RemoveSongKeepsLookup(songs[1..], songId, id);
      var rest := RemoveSong(songs[1..], songId);
      if songs[0].id != songId {
        assert ([songs[0]] + rest)[0] == songs[0] && ([songs[0]] + rest)[1..] == rest;
      } else {
        assert [] + rest == rest;
      }
    }
  }

  /** `shows.filter(show => show.id !== showId)`. */
  function RemoveShow(shows: seq<Show>, showId: ShowId): (r: seq<Show>)
    ensures forall x :: x in r <==> x in shows && x.id != showId
  {
    if shows == [] then []
    else
      assert shows == [shows[0]] + shows[1..];
      (if shows[0].id != showId then [shows[0]] else []) + RemoveShow(shows[1..], showId)
  }

  /** Removing an id no show has changes nothing. */
  lemma {:induction false} RemoveAbsentShow(shows: seq<Show>, showId: ShowId)
    requires forall k :: 0 <= k < |shows| ==> shows[k].id != showId
    ensures RemoveShow(shows, showId) == shows
  {
    if shows != [] {
      RemoveAbsentShow(shows[1..], showId);
      assert shows == [shows[0]] + shows[1..];
    }
  }

  /** The filter works show by show and keeps the order. */
  lemma {:induction false} RemoveShowAppend(a: seq<Show>, b: seq<Show>, showId: ShowId)
    ensures RemoveShow(a + b, showId) == RemoveShow(a, showId) + RemoveShow(b, showId)
  {
    if a == [] {
      assert a + b == b;
    } else {
      assert (a + b)[0] == a[0] && (a + b)[1..] == a[1..] + b;
      RemoveShowAppend(a[1..], b, showId);
    }
  }

  /** A sequence is its part before k, its element at k and its part after k. */
  lemma SplitAt<T>(s: seq<T>, k: nat)
    requires k < |s|
    ensures s == s[..k] + [s[k]] + s[k + 1..]
  {
    assert s[k..] == [s[k]] + s[k + 1..];
    assert s == s[..k] + s[k..];
  }

  /** Removing the id of a show that has no namesake around it leaves its
      neighbours joined. */
  lemma RemoveShowBetween(before: seq<Show>, s: Show, after: seq<Show>)
    requires forall m :: 0 <= m < |before| ==> before[m].id != s.id
    requires forall m :: 0 <= m < |after| ==> after[m].id != s.id
    ensures RemoveShow(before + [s] + after, s.id) == before + after
  {
    assert RemoveShow(before + [s], s.id) == before by {
      RemoveShowAppend(before, [s], s.id);
      assert RemoveShow([s], s.id) == [] by {
        assert [s][1..] == [];
      }
      RemoveAbsentShow(before, s.id);
      assert before + [] == before;
    }
    RemoveShowAppend(before + [s], after, s.id);
    RemoveAbsentShow(after, s.id);
  }

  /** When no other show shares its id, removing the id of the show at k
      takes out exactly that position and keeps the others in order. */
  lemma RemoveShowAt(shows: seq<Show>, k: nat)
    requires k < |shows|
    requires forall j :: 0 <= j < |shows| && j != k ==> shows[j].id != shows[k].id
    ensures RemoveShow(shows, shows[k].id) == shows[..k] + shows[k + 1..]
  {
    var before, after := shows[..k], shows[k + 1..];
    forall m | 0 <= m < |before| ensures before[m].id != shows[k].id {
      assert before[m] == shows[m];
    }
    forall m | 0 <= m < |after| ensures after[m].id != shows[k].id {
      assert after[m] == shows[k + 1 + m];
    }
    RemoveShowBetween(before, shows[k], after);
    SplitAt(shows, k);
  }

  /** handleDeleteShow: the shows, the selected show id and how it ended. A
      missing show is reported; a confirmed deletion removes every show with
      that id and clears the selection when it pointed at it. */
  function DeleteShow(shows: seq<Show>, showId: ShowId, confirmed: bool, selected: Option<ShowId>)
    : (r: (seq<Show>, Option<ShowId>, Status))
    ensures !ShowExists(shows, showId) ==> r == (shows, selected, NotFound)
    ensures ShowExists(shows, showId) && !confirmed ==> r == (shows, selected, Declined)
    ensures ShowExists(shows, showId) && confirmed ==>
      && r.0 == RemoveShow(shows, showId) && r.2 == Done
      && (forall x :: x in r.0 <==> x in shows && x.id != showId)
      && !ShowExists(r.0, showId)
      && r.1 == (if selected == Some(showId) then None else selected)
  {
    ShowExistsFound(shows, showId);
    if FindShow(shows, showId).None? then (shows, selected, NotFound)
    else if !confirmed then (shows, selected, Declined)
    else
      var rest := RemoveShow(shows, showId);
      assert forall i :: 0 <= i < |rest| ==> rest[i] in rest;
      (rest, if selected == Some(showId) then None else selected, Done)
  }

  /** `shows.find` by id finds a show exactly when one has that id. */
  lemma ShowExistsFound(shows: seq<Show>, id: ShowId)
    ensures ShowExists(shows, id) <==> FindShow(shows, id).Some?
  {
    if FindShow(shows, id).Some? {
      var i :| 0 <= i < |shows| && shows[i] == FindShow(shows, id).value;
    } else {
      assert forall i :: 0 <= i < |shows| ==> shows[i] in shows;
    }
  }

  /** Deleting a show releases the songs it stamped: their record now names a
      show that no longer exists, so they are available again at once. */
  lemma DeleteShowFreesSongs(song: Song, shows: seq<Show>, selected: Option<ShowId>)
    requires song.lastUsedInShowDetails.Some?
    requires ShowExists(shows, song.lastUsedInShowDetails.value.showId)
    ensures SongAvailability(song, DeleteShow(shows, song.lastUsedInShowDetails.value.showId, true, selected).0).Available?
  {
  }

  /** findIndex by id. */
  function IndexOfId(songs: seq<Song>, id: SongId): (r: Option<nat>)
    ensures r.None? <==> forall k :: 0 <= k < |songs| ==> songs[k].id != id
    ensures r.Some? ==> r.value < |songs| && songs[r.value].id == id
    ensures r.Some? ==> forall k :: 0 <= k < r.value ==> songs[k].id != id
  {
    if songs == [] then None
    else if songs[0].id == id then Some(0)
    else match IndexOfId(songs[1..], id)
      case None => None
      case Some(k) => Some(k + 1)
  }

  /** One overwrite of the merge: the first song with the update's id is
      replaced by it; an id the library lacks changes nothing. */
  function UpdateFirst(songs: seq<Song>, u: Song): (r: seq<Song>)
    ensures |r| == |songs| && forall i :: 0 <= i < |r| ==> r[i].id == songs[i].id
  {
    match IndexOfId(songs, u.id)
    case None => songs
    case Some(k) => songs[k := u]
  }

  /** The overwrites applied one after another, in the order given. */
  function ApplyUpdates(songs: seq<Song>, updates: seq<Song>): (r: seq<Song>)
    ensures |r| == |songs| && forall i :: 0 <= i < |r| ==> r[i].id == songs[i].id
  {
    if updates == [] then songs
    else UpdateFirst(ApplyUpdates(songs, updates[..|updates| - 1]), updates[|updates| - 1])
  }

  /** The merge step of the import: each overwrite assigned at the index found
      by id, then the new songs appended. */
  method MergeImport(library: seq<Song>, toUpdate: seq<Song>, toAdd: seq<Song>) returns (r: seq<Song>)
    ensures r == ApplyUpdates(library, toUpdate) + toAdd
  {
    r := library;
    for i := 0 to |toUpdate|
      invariant r == ApplyUpdates(library, toUpdate[..i])
    {
      assert toUpdate[..i + 1][..i] == toUpdate[..i];
      var index := IndexOfId(r, toUpdate[i].id);
      if index.Some? {
        r := r[index.value := toUpdate[i]];
      }
    }
    assert toUpdate[..|toUpdate|] == toUpdate;
    r := r + toAdd;
  }

  /** The last overwrite carrying the id, if any. */
  function LastWith(updates: seq<Song>, id: SongId): (r: Option<Song>)
    ensures r.Some? ==> r.value in updates && r.value.id == id
  {
    if updates == [] then None
    else if updates[|updates| - 1].id == id then Some(updates[|updates| - 1])
    else LastWith(updates[..|updates| - 1], id)
  }

  /** In a library with unique ids, the merged library holds at each position
      the last overwrite for that song's id, or the song itself when none came. */
  lemma {:induction false} ApplyUpdatesLastWins(songs: seq<Song>, updates: seq<Song>)
    requires UniqueIds(songs)
    ensures forall k :: 0 <= k < |songs| ==>
      ApplyUpdates(songs, updates)[k] ==
        match LastWith(updates, songs[k].id)
        case None => songs[k]
        case Some(u) => u
  {
    if updates != [] {
      var pre := updates[..|updates| - 1];
      var u := updates[|updates| - 1];
      var a := ApplyUpdates(songs, pre);
      ApplyUpdatesLastWins(songs, pre);
      forall k | 0 <= k < |songs|
        ensures ApplyUpdates(songs, updates)[k] ==
          match LastWith(updates, songs[k].id)
          case None => songs[k]
          case Some(v) => v
      {
        match IndexOfId(a, u.id)
        case None =>
          assert songs[k].id != u.id;
        case Some(m) =>
          if k != m {
            assert songs[k].id != songs[m].id;
          }
      }
    }
  }

  /** The merged library keeps every id in place and appends the new songs. */
  lemma MergeLayout(library: seq<Song>, toUpdate: seq<Song>, toAdd: seq<Song>)
    ensures var r := ApplyUpdates(library, toUpdate) + toAdd;
      && |r| == |library| + |toAdd|
      && IdsOf(r) == IdsOf(library) + IdsOf(toAdd)
      && r[|library|..] == toAdd
  {
    var r := ApplyUpdates(library, toUpdate) + toAdd;
    assert forall k :: 0 <= k < |r| ==> IdsOf(r)[k] == (IdsOf(library) + IdsOf(toAdd))[k] by {
      forall k | 0 <= k < |r| ensures IdsOf(r)[k] == (IdsOf(library) + IdsOf(toAdd))[k] {
        if k >= |library| {
          assert r[k] == toAdd[k - |library|];
        }
      }
    }
  }

  /** The merge keeps ids unique when the new songs carry fresh, distinct ids. */
  lemma MergeKeepsUnique(library: seq<Song>, toUpdate: seq<Song>, toAdd: seq<Song>)
    requires UniqueIds(library) && UniqueIds(toAdd)
    requires forall i, j :: 0 <= i < |library| && 0 <= j < |toAdd| ==> library[i].id != toAdd[j].id
    ensures UniqueIds(ApplyUpdates(library, toUpdate) + toAdd)
  {
    var a := ApplyUpdates(library, toUpdate);
    var r := a + toAdd;
    forall i, j | 0 <= i < j < |r| ensures r[i].id != r[j].id {
      if j < |a| {
        assert r[i] == a[i] && r[j] == a[j];
        assert library[i].id != library[j].id;
      } else if i < |a| {
        assert r[i] == a[i] && r[j] == toAdd[j - |a|];
        assert library[i].id != toAdd[j - |a|].id;
      } else {
        assert r[i] == toAdd[i - |a|] && r[j] == toAdd[j - |a|];
      }
    }
  }

  /** A song the import adds: a fresh id, uploaded now, no rotation record yet,
      and a missing duration stored as 0. */
  function NewSong(id: SongId, title: string, artist: string, fileName: string, now: int, duration: Option<nat>)
    : (s: Song)
    ensures s.id == id && s.title == title && s.artist == artist && s.uploadedAt == now
    ensures s.lastUsedInShowDetails.None?
    ensures s.fileName == Some(fileName)
    ensures s.durationSeconds == if duration.Some? then duration.value else 0
  {
    Song(id, title, artist, now, None, Some(fileName),
         match duration case None => 0 case Some(d) => d)
  }

  /** An overwrite: the existing song with the new file, duration and upload
      time; its id, title, artist and show history are kept. */
  function Overwritten(existing: Song, fileName: string, now: int, duration: Option<nat>): (s: Song)
    ensures s.id == existing.id && s.title == existing.title && s.artist == existing.artist
    ensures s.lastUsedInShowDetails == existing.lastUsedInShowDetails
    ensures s.uploadedAt == now && s.fileName == Some(fileName)
    ensures s.durationSeconds == if duration.Some? then duration.value else 0
  {
    existing.(fileName := Some(fileName),
              durationSeconds := match duration case None => 0 case Some(d) => d,
              uploadedAt := now)
  }

  /** An overwrite does not reset the cooldown, and a new song is free. */
  lemma ImportAndAvailability(existing: Song, fileName: string, now: int, duration: Option<nat>,
                              id: SongId, title: string, artist: string, shows: seq<Show>)
    ensures SongAvailability(Overwritten(existing, fileName, now, duration), shows)
            == SongAvailability(existing, shows)
    ensures SongAvailability(NewSong(id, title, artist, fileName, now, duration), shows) == Available
  {
  }
}
