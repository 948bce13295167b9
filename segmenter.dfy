/**
 * The hourly segmenter of the show detail view: the show's resolved songs are
 * split greedily into `intendedHours` numbered segments, closing a segment when
 * the next song would push it over the per-hour target, and padded with empty
 * segments. It is for display only and leaves the stored order alone.
 */
module Segmenter {
  import opened Types
  import opened Durations

  datatype Segment = Segment(hour: nat, songs: seq<Song>, totalDurationSeconds: nat)

  /** The songs of all segments, in order. */
  function Flatten(segs: seq<Segment>): seq<Song>
  {
    if segs == [] then [] else Flatten(segs[..|segs| - 1]) + segs[|segs| - 1].songs
  }

  lemma FlattenSnoc(segs: seq<Segment>, seg: Segment)
    ensures Flatten(segs + [seg]) == Flatten(segs) + seg.songs
  {
    assert (segs + [seg])[..|segs|] == segs;
  }

  /** Segments are numbered 1, 2, … without gaps. */
  predicate Numbered(segs: seq<Segment>)
  {
    forall i :: 0 <= i < |segs| ==> segs[i].hour == i + 1
  }

  /** Each segment's total is the sum of its songs. */
  predicate TotalsMatch(segs: seq<Segment>)
  {
    forall i :: 0 <= i < |segs| ==> segs[i].totalDurationSeconds == SumDur(segs[i].songs)
  }

  /** Empty segments come only after all the filled ones. */
  predicate EmptiesLast(segs: seq<Segment>)
  {
    forall i, j :: 0 <= i < j < |segs| && segs[i].songs == [] ==> segs[j].songs == []
  }

  /** A filled segment was closed only because it had a positive duration and
      the first song of the next segment would have pushed it over the limit. */
  predicate ClosedOnOverflow(segs: seq<Segment>, limit: int)
  {
    forall i :: 1 <= i < |segs| && segs[i].songs != [] ==>
      var prev := segs[i - 1].songs;
      SumDur(prev) > 0 && SumDur(prev) + segs[i].songs[0].durationSeconds > limit
  }

  /** While a segment may still be closed, no song inside it would have closed
      it: before each of its songs, the part already there had no duration or
      the song still fitted under the limit. */
  predicate StaysOpen(ss: seq<Song>, mayClose: bool, limit: int)
  {
    mayClose ==> forall j :: 0 < j < |ss| ==>
      SumDur(ss[..j]) == 0 || SumDur(ss[..j]) + ss[j].durationSeconds <= limit
  }

  /** A segment may be closed only while fewer than intendedHours - 1 segments
      have been closed, that is, unless it is the segment of the last hour. */
  predicate NoEarlyClose(segs: seq<Segment>, hours: nat, limit: int)
  {
    forall i :: 0 <= i < |segs| ==> StaysOpen(segs[i].songs, i + 1 < hours, limit)
  }

  lemma StaysOpenSnoc(ss: seq<Song>, x: Song, mayClose: bool, limit: int)
    requires StaysOpen(ss, mayClose, limit)
    requires mayClose && ss != [] ==> SumDur(ss) == 0 || SumDur(ss) + x.durationSeconds <= limit
    ensures StaysOpen(ss + [x], mayClose, limit)
  {
    var t := ss + [x];
    if mayClose {
      forall j | 0 < j < |t| ensures SumDur(t[..j]) == 0 || SumDur(t[..j]) + t[j].durationSeconds <= limit {
        if j < |ss| {
          assert t[..j] == ss[..j] && t[j] == ss[j];
        } else {
          assert t[..j] == ss;
        }
      }
    }
  }

  /** What holds of the greedy scan between two songs: the closed segments
      `segs`, the open segment `current` and the hour counter. The scan loop
      keeps it as `ScanState(...) == true`, which the verifier checks as one
      fact rather than conjunct by conjunct; the step methods below establish
      it whole. */
  predicate ScanState(segs: seq<Segment>, current: seq<Song>, hourCounter: nat, hours: nat, limit: int)
  {
    && 1 <= hourCounter <= hours && |segs| == hourCounter - 1
    && Numbered(segs) && TotalsMatch(segs)
    && (forall k :: 0 <= k < |segs| ==> segs[k].songs != [])
    && ClosedOnOverflow(segs, limit)
    && (segs != [] ==> current != [] && SumDur(segs[|segs| - 1].songs) > 0
                       && SumDur(segs[|segs| - 1].songs) + current[0].durationSeconds > limit)
    && (forall k :: 0 <= k < |segs| ==> StaysOpen(segs[k].songs, true, limit))
    && StaysOpen(current, hourCounter < hours, limit)
  }

  /** Closing the open segment before `song`. */
  lemma CloseStep(segs: seq<Segment>, current: seq<Song>, hourCounter: nat, hours: nat, limit: int, song: Song)
    requires ScanState(segs, current, hourCounter, hours, limit)
    requires SumDur(current) > 0 && SumDur(current) + song.durationSeconds > limit
    requires hourCounter < hours && current != []
    ensures ScanState(segs + [Segment(hourCounter, current, SumDur(current))], [song], hourCounter + 1, hours, limit)
  {
    var closed := Segment(hourCounter, current, SumDur(current));
    var segs' := segs + [closed];
    forall k | 0 <= k < |segs'|
      ensures segs'[k].hour == k + 1
      ensures segs'[k].totalDurationSeconds == SumDur(segs'[k].songs)
      ensures segs'[k].songs != []
      ensures StaysOpen(segs'[k].songs, true, limit)
    {
      if k < |segs| { assert segs'[k] == segs[k]; } else { assert segs'[k] == closed; }
    }
    forall k | 1 <= k < |segs'| && segs'[k].songs != []
      ensures SumDur(segs'[k - 1].songs) > 0
      ensures SumDur(segs'[k - 1].songs) + segs'[k].songs[0].durationSeconds > limit
    {
      if k < |segs| {
        assert segs'[k] == segs[k] && segs'[k - 1] == segs[k - 1];
      } else {
        assert segs'[k] == closed && segs'[k - 1] == segs[k - 1];
      }
    }
    assert segs'[|segs'| - 1] == closed;
  }

  /** Appending `song` to the open segment. */
  lemma ExtendStep(segs: seq<Segment>, current: seq<Song>, hourCounter: nat, hours: nat, limit: int, song: Song)
    requires ScanState(segs, current, hourCounter, hours, limit)
    requires current == [] ==> segs == []
    requires !(SumDur(current) > 0 && SumDur(current) + song.durationSeconds > limit
               && hourCounter < hours && current != [])
    ensures ScanState(segs, current + [song], hourCounter, hours, limit)
  {
    StaysOpenSnoc(current, song, hourCounter < hours, limit);
    if current != [] {
      assert (current + [song])[0] == current[0];
    }
  }

  /** What the scan delivers: between one and `hours` numbered, non-empty
      segments with matching totals, each closed only on overflow and none
      closed early. */
  predicate Filled(segs: seq<Segment>, hours: nat, limit: int)
  {
    && 1 <= |segs| <= hours
    && Numbered(segs) && TotalsMatch(segs)
    && (forall k :: 0 <= k < |segs| ==> segs[k].songs != [])
    && ClosedOnOverflow(segs, limit)
    && NoEarlyClose(segs, hours, limit)
  }

  /** Closing the last, still open segment at the end of the scan. */
  lemma FinishStep(segs: seq<Segment>, current: seq<Song>, hourCounter: nat, hours: nat, limit: int)
    requires ScanState(segs, current, hourCounter, hours, limit) && current != []
    ensures Filled(segs + [Segment(hourCounter, current, SumDur(current))], hours, limit)
  {
    var last := Segment(hourCounter, current, SumDur(current));
    var r := segs + [last];
    forall k | 0 <= k < |r|
      ensures r[k].hour == k + 1
      ensures r[k].totalDurationSeconds == SumDur(r[k].songs)
      ensures r[k].songs != []
      ensures StaysOpen(r[k].songs, k + 1 < hours, limit)
    {
      if k < |segs| { assert r[k] == segs[k]; } else { assert r[k] == last; }
    }
    forall k | 1 <= k < |r| && r[k].songs != []
      ensures SumDur(r[k - 1].songs) > 0
      ensures SumDur(r[k - 1].songs) + r[k].songs[0].durationSeconds > limit
    {
      if k < |segs| {
        assert r[k] == segs[k] && r[k - 1] == segs[k - 1];
      } else {
        assert r[k] == last && r[k - 1] == segs[k - 1];
      }
    }
  }

  /** The closing branch of the scan: the open segment is pushed, numbered
      with the hour counter, and a new one is opened with the song. */
  method CloseAndOpen(segs: seq<Segment>, current: seq<Song>, currentDuration: nat, hourCounter: nat,
                      hours: nat, limit: int, song: Song)
    returns (segs': seq<Segment>, current': seq<Song>, currentDuration': nat, hourCounter': nat)
    requires ScanState(segs, current, hourCounter, hours, limit)
    requires currentDuration == SumDur(current)
    requires currentDuration > 0 && currentDuration + song.durationSeconds > limit
    requires hourCounter < hours && current != []
    ensures ScanState(segs', current', hourCounter', hours, limit)
    ensures Flatten(segs') + current' == Flatten(segs) + current + [song]
    ensures currentDuration' == SumDur(current') && current' != []
  {
    var closed := Segment(hourCounter, current, currentDuration);
    CloseStep(segs, current, hourCounter, hours, limit, song);
    FlattenSnoc(segs, closed);
    assert Flatten(segs + [closed]) + [song] == Flatten(segs) + current + [song];
    assert SumDur([song]) == song.durationSeconds;
    segs', hourCounter' := segs + [closed], hourCounter + 1;
    current', currentDuration' := [song], song.durationSeconds;
  }

  /** The other branch of the scan: the song joins the open segment. */
  method Extend(segs: seq<Segment>, current: seq<Song>, currentDuration: nat, hourCounter: nat,
                hours: nat, limit: int, song: Song)
    returns (current': seq<Song>, currentDuration': nat)
    requires ScanState(segs, current, hourCounter, hours, limit)
    requires current == [] ==> segs == []
    requires currentDuration == SumDur(current)
    requires !(currentDuration > 0 && currentDuration + song.durationSeconds > limit
               && hourCounter < hours && current != [])
    ensures ScanState(segs, current', hourCounter, hours, limit)
    ensures current' == current + [song]
    ensures currentDuration' == SumDur(current') && current' != []
  {
    ExtendStep(segs, current, hourCounter, hours, limit, song);
    SumDurAppend(current, [song]);
    current', currentDuration' := current + [song], currentDuration + song.durationSeconds;
  }

  /** One song of the greedy scan: close the open segment first when it has a
      positive duration, the song would push it over the limit and it is not
      the segment of the last hour; then add the song to the open segment. */
  method ScanSong(segs: seq<Segment>, current: seq<Song>, currentDuration: nat, hourCounter: nat,
                  hours: nat, limit: int, song: Song)
    returns (segs': seq<Segment>, current': seq<Song>, currentDuration': nat, hourCounter': nat)
    requires ScanState(segs, current, hourCounter, hours, limit)
    requires current == [] ==> segs == []
    requires currentDuration == SumDur(current)
    ensures ScanState(segs', current', hourCounter', hours, limit)
    ensures Flatten(segs') + current' == Flatten(segs) + current + [song]
    ensures currentDuration' == SumDur(current') && current' != []
  {
    if currentDuration > 0 && currentDuration + song.durationSeconds > limit
       && hourCounter < hours && |current| > 0
    {
      segs', current', currentDuration', hourCounter' :=
        CloseAndOpen(segs, current, currentDuration, hourCounter, hours, limit, song);
    } else {
      segs', hourCounter' := segs, hourCounter;
      current', currentDuration' := Extend(segs, current, currentDuration, hourCounter, hours, limit, song);
    }
  }

  /** The greedy scan over a non-empty song list for a show of several hours:
      the filled segments it closes and the one it ends with. */
  method SplitByHour(all: seq<Song>, hours: nat, limit: int) returns (segs: seq<Segment>)
    requires hours > 1 && |all| > 0
    ensures Flatten(segs) == all
    ensures Filled(segs, hours, limit)
  {
    segs := [];
    var currentSegmentSongs: seq<Song> := [];
    var currentSegmentDuration: nat := 0;
    var hourCounter := 1;
    for i := 0 to |all|
      invariant ScanState(segs, currentSegmentSongs, hourCounter, hours, limit) == true
      invariant Flatten(segs) + currentSegmentSongs == all[..i]
      invariant currentSegmentDuration == SumDur(currentSegmentSongs)
      invariant i > 0 ==> currentSegmentSongs != []
      invariant i == 0 ==> segs == []
    {
      assert all[..i + 1] == all[..i] + [all[i]];
      segs, currentSegmentSongs, currentSegmentDuration, hourCounter :=
        ScanSong(segs, currentSegmentSongs, currentSegmentDuration, hourCounter, hours, limit, all[i]);
    }
    assert all[..|all|] == all;
    var last := Segment(hourCounter, currentSegmentSongs, currentSegmentDuration);
    FinishStep(segs, currentSegmentSongs, hourCounter, hours, limit);
    FlattenSnoc(segs, last);
    segs := segs + [last];
  }

  /** The padding loop: empty segments numbered on from the last one until
      there are `hours` segments. */
  method PadSegments(segs: seq<Segment>, hours: nat) returns (r: seq<Segment>)
    requires |segs| <= hours
    requires Numbered(segs)
    ensures |r| == hours && r[..|segs|] == segs
    ensures forall k :: |segs| <= k < hours ==> r[k] == Segment(k + 1, [], 0)
    ensures Flatten(r) == Flatten(segs)
  {
    r := segs;
    while |r| < hours
      invariant |segs| <= |r| <= hours && r[..|segs|] == segs
      invariant forall k :: |segs| <= k < |r| ==> r[k] == Segment(k + 1, [], 0)
      invariant Flatten(r) == Flatten(segs)
    {
      FlattenSnoc(r, Segment(|r| + 1, [], 0));
      r := r + [Segment(|r| + 1, [], 0)];
    }
  }

  /** The layout of the detail view: `hours` segments numbered 1, 2, … whose
      totals match their songs, whose songs in order are `all`, with the empty
      ones last, each closed only on overflow and none closed early. */
  predicate HourLayout(segs: seq<Segment>, all: seq<Song>, hours: nat, limit: int)
  {
    && |segs| == hours
    && Numbered(segs)
    && TotalsMatch(segs)
    && Flatten(segs) == all
    && EmptiesLast(segs)
    && ClosedOnOverflow(segs, limit)
    && NoEarlyClose(segs, hours, limit)
  }

  /** Padding keeps every property of the filled segments. */
  lemma PaddedSegments(segs: seq<Segment>, r: seq<Segment>, all: seq<Song>, hours: nat, limit: int)
    requires Filled(segs, hours, limit) && Flatten(segs) == all
    requires |r| == hours && r[..|segs|] == segs && Flatten(r) == Flatten(segs)
    requires forall k :: |segs| <= k < hours ==> r[k] == Segment(k + 1, [], 0)
    ensures HourLayout(r, all, hours, limit)
  {
    forall k | 0 <= k < |r|
      ensures r[k].hour == k + 1
      ensures r[k].totalDurationSeconds == SumDur(r[k].songs)
      ensures StaysOpen(r[k].songs, k + 1 < hours, limit)
      ensures r[k].songs == [] <==> k >= |segs|
    {
      if k < |segs| { assert r[k] == segs[k]; }
    }
    forall k | 1 <= k < |r| && r[k].songs != []
      ensures SumDur(r[k - 1].songs) > 0
      ensures SumDur(r[k - 1].songs) + r[k].songs[0].durationSeconds > limit
    {
      assert r[k] == segs[k] && r[k - 1] == segs[k - 1];
    }
  }

  /** A show of several hours with songs: the scan, then the padding. */
  method SplitAndPad(all: seq<Song>, hours: nat, limit: int) returns (segs: seq<Segment>)
    requires hours > 1 && |all| > 0
    ensures HourLayout(segs, all, hours, limit)
  {
    var filled := SplitByHour(all, hours, limit);
    segs := PadSegments(filled, hours);
    PaddedSegments(filled, segs, all, hours, limit);
  }

  /** The total of the single segment: the show's ids summed through the
      library, or, when that is 0, the ids of the resolved songs summed again.
      Either way it is the sum of the resolved songs. */
  function SingleTotal(songs: seq<Song>, ids: seq<SongId>): (t: nat)
    ensures t == SumDur(Resolve(songs, ids))
  {
    ResolveTotal(songs, ids);
    ResolvedIdsTotal(songs, ids);
    var recomputed := TotalDuration(songs, ids);
    if recomputed != 0 then recomputed else TotalDuration(songs, IdsOf(Resolve(songs, ids)))
  }

  /** One segment holding every song is a layout of a one-hour show. */
  lemma OneSegmentLayout(all: seq<Song>, total: nat, limit: int)
    requires total == SumDur(all)
    ensures HourLayout([Segment(1, all, total)], all, 1, limit)
  {
    var segs := [Segment(1, all, total)];
    assert segs[..0] == [];
  }

  /** Empty segments numbered 1 to `hours` are the layout of a show without songs. */
  lemma EmptyLayout(r: seq<Segment>, hours: nat, limit: int)
    requires |r| == hours
    requires forall k :: 0 <= k < hours ==> r[k] == Segment(k + 1, [], 0)
    requires Flatten(r) == []
    ensures HourLayout(r, [], hours, limit)
  {
  }

  /** A one-hour show, or one without songs: a single first segment holding
      every song with the total above, padded with empty segments when there
      are no songs. A one-hour show with songs gets exactly that one segment. */
  method SingleSegment(songs: seq<Song>, ids: seq<SongId>, hours: nat, limit: int) returns (segs: seq<Segment>)
    requires hours >= 1
    requires hours == 1 || Resolve(songs, ids) == []
    ensures HourLayout(segs, Resolve(songs, ids), hours, limit)
  {
    var all := Resolve(songs, ids);
    var first := [Segment(1, all, SingleTotal(songs, ids))];
    if |all| == 0 {
      assert Flatten(first) == [] by { assert first[..0] == []; }
      segs := PadSegments(first, hours);
      assert segs[0] == first[0];
      EmptyLayout(segs, hours, limit);
    } else {
      segs := first;
      OneSegmentLayout(all, SingleTotal(songs, ids), limit);
    }
  }

  /** The segments of a show as the detail view lays them out. */
  method HourlySegments(songs: seq<Song>, show: Show, targetSongMinutesPerHour: int) returns (segs: seq<Segment>)
    ensures HourLayout(segs, Resolve(songs, show.songIds), IntendedHours(show), targetSongMinutesPerHour * 60)
  {
    var all := Resolve(songs, show.songIds);
    var hours := IntendedHours(show);
    var limit := targetSongMinutesPerHour * 60;
    if hours > 1 && |all| > 0 {
      segs := SplitAndPad(all, hours, limit);
    } else {
      segs := SingleSegment(songs, show.songIds, hours, limit);
    }
  }
}
