/**
 * Edits of stored shows: writing a new playlist and total to the shows with a
 * given id, the drag-and-drop reorder of a show's songs, and the overwrite of
 * one slot by a replacement song. Every writer keeps the cached total equal
 * to the sum the library gives for the playlist.
 */
module ShowEdits {
  import opened Types
  import opened Durations
  import opened Availability
  import opened Replacement

  /** Every cached show total is the library's sum for the show's ids. */
  predicate CachesAccurate(songs: seq<Song>, shows: seq<Show>)
  {
    forall i :: 0 <= i < |shows| && shows[i].totalDurationSeconds.Some? ==>
      shows[i].totalDurationSeconds.value == TotalDuration(songs, shows[i].songIds)
  }

  /** `shows.map(s => s.id === id ? { ...s, songIds: ids, totalDurationSeconds: total } : s)`. */
  function SetPlaylist(shows: seq<Show>, id: ShowId, ids: seq<SongId>, total: nat): (r: seq<Show>)
    ensures |r| == |shows|
    ensures forall i :: 0 <= i < |shows| && shows[i].id == id ==>
              r[i] == shows[i].(songIds := ids, totalDurationSeconds := Some(total))
    ensures forall i :: 0 <= i < |shows| && shows[i].id != id ==> r[i] == shows[i]
  {
    seq(|shows|, i requires 0 <= i < |shows| =>
      if shows[i].id == id then shows[i].(songIds := ids, totalDurationSeconds := Some(total)) else shows[i])
  }

  /** Writing a playlist whose total is the library's sum keeps every cache
      accurate. */
  lemma SetPlaylistKeepsCaches(songs: seq<Song>, shows: seq<Show>, id: ShowId, ids: seq<SongId>)
    requires CachesAccurate(songs, shows)
    ensures CachesAccurate(songs, SetPlaylist(shows, id, ids, TotalDuration(songs, ids)))
  {
  }

  /** Writing a playlist leaves every song's availability as it was. */
  lemma SetPlaylistKeepsAvailability(shows: seq<Show>, id: ShowId, ids: seq<SongId>, total: nat, song: Song)
    ensures SongAvailability(song, SetPlaylist(shows, id, ids, total)) == SongAvailability(song, shows)
  {
    var r := SetPlaylist(shows, id, ids, total);
    assert SameTimeline(shows, r);
    SameTimelineSameAvailability(song, shows, r);
  }

  /** `splice(k, 1)`: the sequence without its element at k. */
  function RemoveAt<T>(s: seq<T>, k: nat): (r: seq<T>)
    requires k < |s|
    ensures |r| == |s| - 1
    ensures forall i :: 0 <= i < k ==> r[i] == s[i]
    ensures forall i :: k <= i < |r| ==> r[i] == s[i + 1]
  {
    s[..k] + s[k + 1..]
  }

  /** `splice(p, 0, x)`: x inserted before position p. */
  function InsertAt<T>(s: seq<T>, p: nat, x: T): (r: seq<T>)
    requires p <= |s|
    ensures |r| == |s| + 1 && r[p] == x
    ensures forall i :: 0 <= i < p ==> r[i] == s[i]
    ensures forall i :: p < i < |r| ==> r[i] == s[i - 1]
  {
    s[..p] + [x] + s[p..]
  }

  lemma RemoveAtElements<T>(s: seq<T>, k: nat)
    requires k < |s|
    ensures multiset(RemoveAt(s, k)) + multiset{s[k]} == multiset(s)
  {
    assert s == s[..k] + [s[k]] + s[k + 1..];
  }

  lemma InsertAtElements<T>(s: seq<T>, p: nat, x: T)
    requires p <= |s|
    ensures multiset(InsertAt(s, p, x)) == multiset(s) + multiset{x}
    ensures RemoveAt(InsertAt(s, p, x), p) == s
  {
    var r := InsertAt(s, p, x);
    assert s == s[..p] + s[p..];
    assert r[..p] == s[..p] && r[p + 1..] == s[p..];
  }

  lemma RemoveAtTotal(songs: seq<Song>, s: seq<SongId>, k: nat)
    requires k < |s|
    ensures TotalDuration(songs, RemoveAt(s, k)) + DurationOf(songs, s[k]) == TotalDuration(songs, s)
  {
    assert s == s[..k] + [s[k]] + s[k + 1..];
    TotalDurationAppend(songs, s[..k] + [s[k]], s[k + 1..]);
    TotalDurationAppend(songs, s[..k], [s[k]]);
    TotalDurationAppend(songs, s[..k], s[k + 1..]);
  }

  lemma InsertAtTotal(songs: seq<Song>, s: seq<SongId>, p: nat, x: SongId)
    requires p <= |s|
    ensures TotalDuration(songs, InsertAt(s, p, x)) == TotalDuration(songs, s) + DurationOf(songs, x)
  {
    InsertAtElements(s, p, x);
    RemoveAtTotal(songs, InsertAt(s, p, x), p);
  }

  /** The splice pair of handleDropSongInShow: the dragged id is taken out at
      its first position, then put back just before the first position of the
      target in the shortened list, or at the end when the target is not
      there. None when the dragged id is not in the list. */
  function MoveBefore(ids: seq<SongId>, dragged: SongId, target: SongId): (r: Option<seq<SongId>>)
    ensures r.None? <==> dragged !in ids
    ensures r.Some? ==> |r.value| == |ids| && multiset(r.value) == multiset(ids)
    ensures r.Some? ==>
      var rest := RemoveAt(ids, FirstIndex(ids, dragged));
      var p := if target in rest then FirstIndex(rest, target) else |rest|;
      && p < |r.value|
      && r.value[p] == dragged
      && RemoveAt(r.value, p) == rest
      && (target in rest ==> r.value[p + 1] == target)
  {
    if dragged !in ids then None
    else
      var k := FirstIndex(ids, dragged);
      var rest := RemoveAt(ids, k);
      var p := if target in rest then FirstIndex(rest, target) else |rest|;
      RemoveAtElements(ids, k);
      InsertAtElements(rest, p, dragged);
      Some(InsertAt(rest, p, dragged))
  }

  /** A reorder does not change the show's total. */
  lemma MoveBeforeKeepsTotal(songs: seq<Song>, ids: seq<SongId>, dragged: SongId, target: SongId)
    requires dragged in ids
    ensures TotalDuration(songs, MoveBefore(ids, dragged, target).value) == TotalDuration(songs, ids)
  {
    var k := FirstIndex(ids, dragged);
    var rest := RemoveAt(ids, k);
    var p := if target in rest then FirstIndex(rest, target) else |rest|;
    RemoveAtTotal(songs, ids, k);
    InsertAtTotal(songs, rest, p, dragged);
  }

  /** handleDropSongInShow: nothing happens without a dragged id, when it is
      dropped on itself, without a selected show, when the show is gone or
      when the dragged id is not in its list; otherwise the reordered list and
      its recomputed total are written to the shows with the selected id. */
  function DropSongInShow(songs: seq<Song>, shows: seq<Show>, dragged: Option<SongId>, target: SongId,
                          selected: Option<ShowId>): (r: seq<Show>)
    ensures dragged.None? || dragged == Some(target) || selected.None? ==> r == shows
    ensures dragged.Some? && dragged != Some(target) && selected.Some? ==>
      match FindShow(shows, selected.value)
      case None => r == shows
      case Some(show) =>
        match MoveBefore(show.songIds, dragged.value, target)
        case None => r == shows
        case Some(ids) => r == SetPlaylist(shows, selected.value, ids, TotalDuration(songs, ids))
                          && TotalDuration(songs, ids) == TotalDuration(songs, show.songIds)
  {
    if dragged.None? || dragged == Some(target) || selected.None? then shows
    else match FindShow(shows, selected.value)
      case None => shows
      case Some(show) =>
        match MoveBefore(show.songIds, dragged.value, target)
        case None => shows
        case Some(ids) =>
          MoveBeforeKeepsTotal(songs, show.songIds, dragged.value, target);
          SetPlaylist(shows, selected.value, ids, TotalDuration(songs, ids))
  }

  /** The show list of handleConfirmReplaceSong: every show with the id gets
      the replacement applied. */
  function ReplaceInShows(songs: seq<Song>, shows: seq<Show>, showId: ShowId, oldId: SongId, newId: SongId)
    : (r: seq<Show>)
    ensures |r| == |shows|
    ensures forall i :: 0 <= i < |shows| && shows[i].id == showId ==>
              r[i] == ApplyReplacement(songs, shows[i], oldId, newId)
    ensures forall i :: 0 <= i < |shows| && shows[i].id != showId ==> r[i] == shows[i]
  {
    seq(|shows|, i requires 0 <= i < |shows| =>
      if shows[i].id == showId then ApplyReplacement(songs, shows[i], oldId, newId) else shows[i])
  }

  /** A replacement keeps every cache accurate. */
  lemma ReplaceInShowsKeepsCaches(songs: seq<Song>, shows: seq<Show>, showId: ShowId, oldId: SongId, newId: SongId)
    requires CachesAccurate(songs, shows)
    ensures CachesAccurate(songs, ReplaceInShows(songs, shows, showId, oldId, newId))
  {
  }

  /** A replacement leaves every song's availability as it was. */
  lemma ReplaceInShowsKeepsAvailability(songs: seq<Song>, shows: seq<Show>, showId: ShowId, oldId: SongId,
                                        newId: SongId, song: Song)
    ensures SongAvailability(song, ReplaceInShows(songs, shows, showId, oldId, newId)) == SongAvailability(song, shows)
  {
    var r := ReplaceInShows(songs, shows, showId, oldId, newId);
    assert SameTimeline(shows, r);
    SameTimelineSameAvailability(song, shows, r);
  }
}
