/**
 * The handlers that change shows and the library together: creating a show,
 * swapping a show's whole playlist, opening and confirming a replacement, and
 * the deletions. Each takes the current snapshots and returns the next ones;
 * an aborted handler returns them unchanged. The shuffle, the new show's id,
 * its name and the current time are parameters.
 */
module Workflows {
  import opened Types
  import opened Durations
  import opened Availability
  import opened Builder
  import opened Ledger
  import opened Replacement
  import opened ShowEdits
  import opened Library

  /** Members of the selection are library songs. */
  lemma SelectionInLibrary(songs: seq<Song>, shows: seq<Show>, shuffled: seq<Song>, hours: nat, settings: AppSettings)
    requires multiset(shuffled) == multiset(UsableSongs(songs, shows))
    ensures forall x :: x in Selection(shuffled, hours, settings) ==> x in songs
  {
    SelectionFromShuffled(shuffled, hours, settings);
    forall x | x in Selection(shuffled, hours, settings) ensures x in songs {
      assert x in multiset(shuffled);
      assert x in multiset(UsableSongs(songs, shows));
    }
  }

  /** The running total the builder keeps is the total the library gives for
      the chosen ids, also after the chosen songs are stamped. */
  lemma SelectionTotalIsLookup(songs: seq<Song>, shows: seq<Show>, shuffled: seq<Song>, hours: nat,
                               settings: AppSettings, showId: ShowId, t: int)
    requires UniqueIds(songs)
    requires multiset(shuffled) == multiset(UsableSongs(songs, shows))
    ensures var sel := Selection(shuffled, hours, settings);
      SumDur(sel) == TotalDuration(Stamp(songs, IdsOf(sel), showId, t), IdsOf(sel))
  {
    var sel := Selection(shuffled, hours, settings);
    SelectionInLibrary(songs, shows, shuffled, hours, settings);
    RunningTotalIsLookupTotal(songs, sel);
    StampKeepsTotals(songs, IdsOf(sel), showId, t, IdsOf(sel));
  }

  /** Stamping songs leaves every show cache accurate. */
  lemma StampKeepsCaches(songs: seq<Song>, shows: seq<Show>, ids: seq<SongId>, showId: ShowId, t: int)
    requires CachesAccurate(songs, shows)
    ensures CachesAccurate(Stamp(songs, ids, showId, t), shows)
  {
    forall i | 0 <= i < |shows|
      ensures TotalDuration(Stamp(songs, ids, showId, t), shows[i].songIds) == TotalDuration(songs, shows[i].songIds)
    {
      StampKeepsTotals(songs, ids, showId, t, shows[i].songIds);
    }
  }

  datatype CreateOutcome =
    | NoUsableSongs
    | CreateAborted(warning: Warning)
    | Created(show: Show, notice: Option<Warning>)

  /** handleConfirmCreateShow, with `shuffled` the usable songs in the order
      the shuffle produced. With no usable songs, or with a warning and nothing
      selected, nothing changes. Otherwise one show is appended and exactly the
      selected songs are stamped with its id and creation time. */
  method CreateShow(songs: seq<Song>, shows: seq<Show>, settings: AppSettings, hours: nat, shuffled: seq<Song>,
                    newId: ShowId, name: string, now: int)
    returns (songs': seq<Song>, shows': seq<Show>, outcome: CreateOutcome)
    requires multiset(shuffled) == multiset(UsableSongs(songs, shows))
    ensures UsableSongs(songs, shows) == [] ==> outcome == NoUsableSongs
    ensures !outcome.Created? ==> songs' == songs && shows' == shows
    ensures UsableSongs(songs, shows) != [] ==>
      var sel := Selection(shuffled, hours, settings);
      var w := BuildWarning(|shuffled|, hours, settings, sel);
      && !outcome.NoUsableSongs?
      && (outcome.CreateAborted? <==> w.Some? && sel == [])
      && (outcome.CreateAborted? ==> w == Some(outcome.warning))
      && (outcome.Created? ==>
            && outcome.notice == w
            && outcome.show == Show(newId, name, now, IdsOf(sel), Some(SumDur(sel) as int), Some(hours))
            && shows' == shows + [outcome.show]
            && songs' == Stamp(songs, IdsOf(sel), newId, now))
    ensures outcome.Created? && UniqueIds(songs) && CachesAccurate(songs, shows) ==> CachesAccurate(songs', shows')
  {
    var usable := UsableSongs(songs, shows);
    if |usable| == 0 {
      return songs, shows, NoUsableSongs;
    }
    var plan := BuildPlaylist(shuffled, hours, settings);
    if plan.warning.Some? && |plan.songIds| == 0 {
      return songs, shows, CreateAborted(plan.warning.value);
    }
    var show := Show(newId, name, now, plan.songIds, Some(plan.totalDurationSeconds), Some(hours));
    shows' := shows + [show];
    songs' := Stamp(songs, plan.songIds, newId, now);
    outcome := Created(show, plan.warning);
    if UniqueIds(songs) && CachesAccurate(songs, shows) {
      CreatedShowKeepsCaches(songs, shows, shuffled, hours, settings, show);
    }
  }

  /** The created show's cached total is the library's total for its songs
      once they are stamped, and the older shows' caches stay accurate. */
  lemma CreatedShowKeepsCaches(songs: seq<Song>, shows: seq<Show>, shuffled: seq<Song>, hours: nat,
                               settings: AppSettings, show: Show)
    requires UniqueIds(songs) && CachesAccurate(songs, shows)
    requires multiset(shuffled) == multiset(UsableSongs(songs, shows))
    requires var sel := Selection(shuffled, hours, settings);
      show.songIds == IdsOf(sel) && show.totalDurationSeconds == Some(SumDur(sel) as int)
    ensures CachesAccurate(Stamp(songs, show.songIds, show.id, show.createdAt), shows + [show])
  {
    var shows' := shows + [show];
    SelectionTotalIsLookup(songs, shows, shuffled, hours, settings, show.id, show.createdAt);
    StampKeepsCaches(songs, shows, show.songIds, show.id, show.createdAt);
    assert forall i :: 0 <= i < |shows| ==> shows'[i] == shows[i];
  }

  /** When the new show is at least as new as every show, each song it stamps
      is blocked in the new show list. */
  lemma CreatedShowBlocksItsSongs(songs: seq<Song>, shows: seq<Show>, show: Show)
    requires forall i :: 0 <= i < |shows| ==> shows[i].createdAt <= show.createdAt
    ensures var r := Stamp(songs, show.songIds, show.id, show.createdAt);
      forall k :: 0 <= k < |songs| && songs[k].id in show.songIds ==>
        SongAvailability(r[k], shows + [show]).Unavailable?
  {
    var r := Stamp(songs, show.songIds, show.id, show.createdAt);
    var shows' := shows + [show];
    assert ShowExists(shows', show.id) by { assert shows'[|shows|] == show; }
    forall k | 0 <= k < |songs| && songs[k].id in show.songIds
      ensures SongAvailability(r[k], shows').Unavailable?
    {
      NewestStampBlocks(r[k], shows');
    }
  }

  datatype SwapOutcome =
    | SwapNoShowSelected
    | SwapShowNotFound
    | SwapNoUsableSongs
    | SwapAborted(warning: Warning)
    | Swapped(songIds: seq<SongId>, totalDurationSeconds: nat, notice: Option<Warning>)

  /** handleConfirmSwapEntireShowPlaylist: the same builder, run for the
      selected show's intended hours; the new playlist is written to the shows
      with its id and the chosen songs are stamped with the show's own creation
      time. */
  method SwapPlaylist(songs: seq<Song>, shows: seq<Show>, settings: AppSettings, selected: Option<ShowId>,
                      shuffled: seq<Song>)
    returns (songs': seq<Song>, shows': seq<Show>, outcome: SwapOutcome)
    requires multiset(shuffled) == multiset(UsableSongs(songs, shows))
    ensures selected.None? ==> outcome == SwapNoShowSelected
    ensures selected.Some? && FindShow(shows, selected.value).None? ==> outcome == SwapShowNotFound
    ensures !outcome.Swapped? ==> songs' == songs && shows' == shows
    ensures selected.Some? && FindShow(shows, selected.value).Some? ==>
      var show := FindShow(shows, selected.value).value;
      var sel := Selection(shuffled, IntendedHours(show), settings);
      var w := BuildWarning(|shuffled|, IntendedHours(show), settings, sel);
      && (outcome == SwapNoUsableSongs <==> UsableSongs(songs, shows) == [])
      && (outcome.SwapAborted? <==> UsableSongs(songs, shows) != [] && w.Some? && sel == [])
      && (outcome.SwapAborted? ==> w == Some(outcome.warning))
      && (outcome.Swapped? ==>
            && outcome == Swapped(IdsOf(sel), SumDur(sel), w)
            && shows' == SetPlaylist(shows, show.id, IdsOf(sel), SumDur(sel))
            && songs' == Stamp(songs, IdsOf(sel), show.id, show.createdAt))
    ensures outcome.Swapped? && UniqueIds(songs) && CachesAccurate(songs, shows) ==> CachesAccurate(songs', shows')
  {
    if selected.None? {
      return songs, shows, SwapNoShowSelected;
    }
    var found := FindShow(shows, selected.value);
    if found.None? {
      return songs, shows, SwapShowNotFound;
    }
    var show := found.value;
    var hours := IntendedHours(show);
    var usable := UsableSongs(songs, shows);
    if |usable| == 0 {
      return songs, shows, SwapNoUsableSongs;
    }
    var plan := BuildPlaylist(shuffled, hours, settings);
    if plan.warning.Some? && |plan.songIds| == 0 {
      return songs, shows, SwapAborted(plan.warning.value);
    }
    shows' := SetPlaylist(shows, show.id, plan.songIds, plan.totalDurationSeconds);
    songs' := Stamp(songs, plan.songIds, show.id, show.createdAt);
    outcome := Swapped(plan.songIds, plan.totalDurationSeconds, plan.warning);
    if UniqueIds(songs) && CachesAccurate(songs, shows) {
      SelectionTotalIsLookup(songs, shows, shuffled, hours, settings, show.id, show.createdAt);
      StampKeepsCaches(songs, shows, plan.songIds, show.id, show.createdAt);
      SetPlaylistKeepsCaches(songs', shows, show.id, plan.songIds);
    }
  }

  /** What the replace dialog remembers: the show, the replaced id and its title. */
  datatype ReplaceTarget = ReplaceTarget(showId: ShowId, songId: SongId, originalSongTitle: string)

  datatype ReplaceOpening =
    | ReplaceNoShowSelected
    | ReplaceMissing
    | Opened(target: ReplaceTarget, suggestions: seq<Song>)

  /** handleOpenReplaceSongModal: it needs a selected show that exists and a
      library song with the replaced id; it then offers the suggestions. */
  function OpenReplace(songs: seq<Song>, shows: seq<Show>, selected: Option<ShowId>, songId: SongId)
    : (r: ReplaceOpening)
    ensures selected.None? ==> r == ReplaceNoShowSelected
    ensures selected.Some? ==>
      (r == ReplaceMissing <==> FindShow(shows, selected.value).None? || FindSong(songs, songId).None?)
    ensures r.Opened? ==>
      && selected.Some? && FindShow(shows, selected.value).Some? && FindSong(songs, songId).Some?
      && r.target == ReplaceTarget(selected.value, songId, FindSong(songs, songId).value.title)
      && r.suggestions == Suggestions(songs, shows, FindShow(shows, selected.value).value, songId)
  {
    match selected
    case None => ReplaceNoShowSelected
    case Some(showId) =>
      match (FindShow(shows, showId), FindSong(songs, songId))
      case (Some(show), Some(song)) =>
        Opened(ReplaceTarget(showId, songId, song.title), Suggestions(songs, shows, show, songId))
      case _ => ReplaceMissing
  }

  /** handleConfirmReplaceSong: without a remembered target or with its show
      gone nothing changes. Otherwise the replacement is applied to the shows
      with that id and the new song alone is stamped with the show's creation
      time — even when the replaced id is no longer in the show. */
  function ConfirmReplace(songs: seq<Song>, shows: seq<Show>, target: Option<ReplaceTarget>, newId: SongId)
    : (r: (seq<Song>, seq<Show>))
    ensures target.None? ==> r == (songs, shows)
    ensures target.Some? && FindShow(shows, target.value.showId).None? ==> r == (songs, shows)
    ensures target.Some? && FindShow(shows, target.value.showId).Some? ==>
      var showId := target.value.showId;
      var createdAt := FindShow(shows, showId).value.createdAt;
      && r.1 == ReplaceInShows(songs, shows, showId, target.value.songId, newId)
      && |r.0| == |songs|
      && (forall i :: 0 <= i < |songs| && songs[i].id == newId ==>
            r.0[i] == songs[i].(lastUsedInShowDetails := Some(Usage(showId, createdAt))))
      && (forall i :: 0 <= i < |songs| && songs[i].id != newId ==> r.0[i] == songs[i])
  {
    match target
    case None => (songs, shows)
    case Some(t) =>
      match FindShow(shows, t.showId)
      case None => (songs, shows)
      case Some(show) =>
        (Stamp(songs, [newId], t.showId, show.createdAt), ReplaceInShows(songs, shows, t.showId, t.songId, newId))
  }

  /** A confirmed replacement keeps every show cache accurate. */
  lemma ConfirmReplaceKeepsCaches(songs: seq<Song>, shows: seq<Show>, target: Option<ReplaceTarget>, newId: SongId)
    requires CachesAccurate(songs, shows)
    ensures var r := ConfirmReplace(songs, shows, target, newId); CachesAccurate(r.0, r.1)
  {
    if target.Some? && FindShow(shows, target.value.showId).Some? {
      var t := target.value;
      var show := FindShow(shows, t.showId).value;
      var shows' := ReplaceInShows(songs, shows, t.showId, t.songId, newId);
      ReplaceInShowsKeepsCaches(songs, shows, t.showId, t.songId, newId);
      StampKeepsCaches(songs, shows', [newId], t.showId, show.createdAt);
    }
  }

  /** Deleting a song (which the guard allows only when no show lists it) or a
      show keeps every show cache accurate. */
  lemma DeletionsKeepCaches(songs: seq<Song>, shows: seq<Show>, songId: SongId, showId: ShowId, confirmed: bool,
                            selected: Option<ShowId>)
    requires CachesAccurate(songs, shows)
    ensures CachesAccurate(DeleteSong(songs, shows, songId, confirmed).0, shows)
    ensures CachesAccurate(songs, DeleteShow(shows, showId, confirmed, selected).0)
  {
    if !InAnyShow(shows, songId) && confirmed {
      var r := RemoveSong(songs, songId);
      forall i | 0 <= i < |shows| ensures TotalDuration(r, shows[i].songIds) == TotalDuration(songs, shows[i].songIds) {
        var q := shows[i].songIds;
        forall j | 0 <= j < |q| ensures DurationOf(r, q[j]) == DurationOf(songs, q[j]) {
          assert q[j] in shows[i].songIds;
          RemoveSongKeepsLookup(songs, songId, q[j]);
        }
        SameLookupSameTotal(r, songs, q);
      }
    }
    var rest := DeleteShow(shows, showId, confirmed, selected).0;
    forall i | 0 <= i < |rest| && rest[i].totalDurationSeconds.Some?
      ensures rest[i].totalDurationSeconds.value == TotalDuration(songs, rest[i].songIds)
    {
      assert rest[i] in rest;
      var j :| 0 <= j < |shows| && shows[j] == rest[i];
    }
  }

  /** An import that overwrites a listed song with a new duration leaves the
      cached total of its show behind: the merge does not recompute caches. */
  lemma OverwriteLeavesCacheStale()
    ensures var before := Song("a", "t", "x", 0, None, None, 100);
      var shows := [Show("s", "n", 0, ["a"], Some(100), Some(1))];
      && CachesAccurate([before], shows)
      && !CachesAccurate(ApplyUpdates([before], [before.(durationSeconds := 200)]), shows)
  {
    var before := Song("a", "t", "x", 0, None, None, 100);
    var upd := before.(durationSeconds := 200);
    var shows := [Show("s", "n", 0, ["a"], Some(100), Some(1))];
    assert TotalDuration([before], ["a"]) == 100 by {
      assert ["a"][1..] == [];
    }
    var merged := ApplyUpdates([before], [upd]);
    assert [upd][..0] == [];
    assert IndexOfId([before], upd.id) == Some(0);
    assert merged == UpdateFirst([before], upd);
    assert merged == [upd];
    assert TotalDuration(merged, ["a"]) == 200 by {
      assert ["a"][1..] == [];
      assert DurationOf([upd], "a") == 200;
    }
    assert shows[0].totalDurationSeconds.value != TotalDuration(merged, shows[0].songIds);
  }

  /** The `selectedShow` memo: the show with the selected id, its total
      recomputed from the library rather than read from the cache, and its
      hours defaulted. The detail view reads this record, so its total and
      its single-segment total are never stale. */
  function SelectedShow(songs: seq<Song>, shows: seq<Show>, selected: Option<ShowId>): (r: Option<Show>)
    ensures r.None? <==> selected.None? || FindShow(shows, selected.value).None?
    ensures r.Some? ==>
      var stored := FindShow(shows, selected.value).value;
      && stored in shows
      && r.value == stored.(totalDurationSeconds := r.value.totalDurationSeconds, intendedHours := r.value.intendedHours)
      && r.value.id == selected.value
      && r.value.totalDurationSeconds == Some(SumDur(Resolve(songs, stored.songIds)))
      && r.value.intendedHours.Some? && r.value.intendedHours.value >= 1
      && (stored.intendedHours.Some? && stored.intendedHours.value >= 1 ==> r.value.intendedHours == stored.intendedHours)
  {
    if selected.None? then None
    else
      match FindShow(shows, selected.value)
      case None => None
      case Some(show) =>
        ResolveTotal(songs, show.songIds);
        Some(show.(totalDurationSeconds := Some(TotalDuration(songs, show.songIds)), intendedHours := Some(IntendedHours(show))))
  }

  /** Whatever the stored caches hold, the selected show's total is the one
      the library gives now. */
  lemma SelectedShowIsAccurate(songs: seq<Song>, shows: seq<Show>, selected: Option<ShowId>)
    requires SelectedShow(songs, shows, selected).Some?
    ensures CachesAccurate(songs, [SelectedShow(songs, shows, selected).value])
  {
    var r := SelectedShow(songs, shows, selected).value;
    ResolveTotal(songs, r.songIds);
  }

  /** After the re-import of `OverwriteLeavesCacheStale`, the shows list keeps
      the stale 100 seconds while the detail view of the same show recomputes
      200. */
  lemma DetailViewRecomputesStaleCache()
    ensures var before := Song("a", "t", "x", 0, None, None, 100);
      var merged := ApplyUpdates([before], [before.(durationSeconds := 200)]);
      var shows := [Show("s", "n", 0, ["a"], Some(100), Some(1))];
      && shows[0].totalDurationSeconds == Some(100)
      && SelectedShow(merged, shows, Some("s")).Some?
      && SelectedShow(merged, shows, Some("s")).value.totalDurationSeconds == Some(200)
  {
    var before := Song("a", "t", "x", 0, None, None, 100);
    var upd := before.(durationSeconds := 200);
    var shows := [Show("s", "n", 0, ["a"], Some(100), Some(1))];
    var merged := ApplyUpdates([before], [upd]);
    assert [upd][..0] == [];
    assert IndexOfId([before], upd.id) == Some(0);
    assert merged == UpdateFirst([before], upd);
    assert merged == [upd];
    assert TotalDuration(merged, ["a"]) == 200 by {
      assert ["a"][1..] == [];
      assert DurationOf([upd], "a") == 200;
    }
    assert FindShow(shows, "s") == Some(shows[0]);
  }
}
