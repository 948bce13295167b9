/**
 * Summing durations: over songs already in hand, and over song ids looked up
 * in the library, where an id that names no song contributes nothing.
 */
module Durations {
  import opened Types

  /** The total duration of a sequence of songs. */
  function SumDur(songs: seq<Song>): (t: nat)
    ensures songs == [] ==> t == 0
  {
    if songs == [] then 0 else songs[0].durationSeconds + SumDur(songs[1..])
  }

  lemma {:induction false} SumDurAppend(a: seq<Song>, b: seq<Song>)
    ensures SumDur(a + b) == SumDur(a) + SumDur(b)
  {
    if a != [] {
      assert (a + b)[1..] == a[1..] + b;
      SumDurAppend(a[1..], b);
    } else {
      assert a + b == b;
    }
  }

  /** Durations never decrease as a prefix grows. */
  lemma PrefixSumMonotone(s: seq<Song>, i: nat, j: nat)
    requires i <= j <= |s|
    ensures SumDur(s[..i]) <= SumDur(s[..j])
  {
    assert s[..j] == s[..i] + s[i..j];
    SumDurAppend(s[..i], s[i..j]);
  }

  /** The duration the library records for an id, 0 when no song has it
      (`song?.durationSeconds || 0`). */
  function DurationOf(songs: seq<Song>, id: SongId): (d: nat)
    ensures FindSong(songs, id).None? ==> d == 0
    ensures FindSong(songs, id).Some? ==> d == FindSong(songs, id).value.durationSeconds
  {
    match FindSong(songs, id)
    case None => 0
    case Some(s) => s.durationSeconds
  }

  /** calculateShowTotalDuration: the sum of the recorded durations of the ids. */
  function TotalDuration(songs: seq<Song>, ids: seq<SongId>): (t: nat)
    ensures ids == [] ==> t == 0
    ensures |ids| == 1 ==> t == DurationOf(songs, ids[0])
  {
    if ids == [] then 0 else DurationOf(songs, ids[0]) + TotalDuration(songs, ids[1..])
  }

  lemma {:induction false} TotalDurationAppend(songs: seq<Song>, a: seq<SongId>, b: seq<SongId>)
    ensures TotalDuration(songs, a + b) == TotalDuration(songs, a) + TotalDuration(songs, b)
  {
    if a != [] {
      assert (a + b)[1..] == a[1..] + b;
      TotalDurationAppend(songs, a[1..], b);
    } else {
      assert a + b == b;
    }
  }

  /** Ids no song of the library carries add nothing to a total. */
  lemma {:induction false} UnknownIdsCountZero(songs: seq<Song>, ids: seq<SongId>)
    requires forall i :: 0 <= i < |ids| ==> FindSong(songs, ids[i]).None?
    ensures TotalDuration(songs, ids) == 0
  {
    if ids != [] {
      UnknownIdsCountZero(songs, ids[1..]);
    }
  }

  /** Every id names a song of the library. */
  predicate AllKnown(songs: seq<Song>, ids: seq<SongId>)
  {
    forall i :: 0 <= i < |ids| ==> FindSong(songs, ids[i]).Some?
  }

  /** The songs a show's ids resolve to, with unknown ids dropped
      (`songIds.map(getSongById).filter(Boolean)`). */
  function Resolve(songs: seq<Song>, ids: seq<SongId>): (r: seq<Song>)
    ensures |r| <= |ids|
    ensures forall s :: s in r ==> s in songs
    ensures |ids| == 1 && FindSong(songs, ids[0]).None? ==> r == []
    ensures |ids| == 1 && FindSong(songs, ids[0]).Some? ==> r == [FindSong(songs, ids[0]).value]
  {
    if ids == [] then []
    else match FindSong(songs, ids[0])
      case None => Resolve(songs, ids[1..])
      case Some(s) => [s] + Resolve(songs, ids[1..])
  }

  /** Resolution works id by id and keeps the order: the songs of a
      concatenation are the songs of its parts, one after the other. With the
      one-id cases of `Resolve`, every known id contributes its song once, in
      place, and every unknown id contributes nothing. */
  lemma {:induction false} ResolveAppend(songs: seq<Song>, a: seq<SongId>, b: seq<SongId>)
    ensures Resolve(songs, a + b) == Resolve(songs, a) + Resolve(songs, b)
  {
    if a != [] {
      assert (a + b)[0] == a[0] && (a + b)[1..] == a[1..] + b;
      ResolveAppend(songs, a[1..], b);
    } else {
      assert a + b == b;
    }
  }

  /** Summing the resolved songs is the same as summing over the ids. */
  lemma {:induction false} ResolveTotal(songs: seq<Song>, ids: seq<SongId>)
    ensures SumDur(Resolve(songs, ids)) == TotalDuration(songs, ids)
  {
    if ids != [] {
      ResolveTotal(songs, ids[1..]);
      match FindSong(songs, ids[0])
      case None =>
      case Some(s) =>
        assert ([s] + Resolve(songs, ids[1..]))[1..] == Resolve(songs, ids[1..]);
    }
  }

  /** When every id is known, resolution loses nothing and keeps the order. */
  lemma {:induction false} ResolveKnown(songs: seq<Song>, ids: seq<SongId>)
    requires AllKnown(songs, ids)
    ensures IdsOf(Resolve(songs, ids)) == ids
  {
    if ids != [] {
      assert AllKnown(songs, ids[1..]) by {
        forall i | 0 <= i < |ids[1..]| ensures FindSong(songs, ids[1..][i]).Some? {
          assert ids[1..][i] == ids[i + 1];
        }
      }
      assert FindSong(songs, ids[0]).Some?;
      ResolveKnown(songs, ids[1..]);
    }
  }

  /** A running total of songs taken from a library with unique ids equals the
      total computed from their ids: the cache written by show creation and swap
      agrees with calculateShowTotalDuration. */
  lemma {:induction false} RunningTotalIsLookupTotal(songs: seq<Song>, picked: seq<Song>)
    requires UniqueIds(songs)
    requires forall p :: p in picked ==> p in songs
    ensures SumDur(picked) == TotalDuration(songs, IdsOf(picked))
  {
    if picked != [] {
      FindSongUnique(songs, picked[0]);
      RunningTotalIsLookupTotal(songs, picked[1..]);
      assert IdsOf(picked)[1..] == IdsOf(picked[1..]);
    }
  }

  /** Looking the resolved songs up again by id gives the same total. */
  lemma {:induction false} ResolvedIdsTotal(songs: seq<Song>, ids: seq<SongId>)
    ensures TotalDuration(songs, IdsOf(Resolve(songs, ids))) == SumDur(Resolve(songs, ids))
  {
    if ids != [] {
      ResolvedIdsTotal(songs, ids[1..]);
      match FindSong(songs, ids[0])
      case None =>
      case Some(s) =>
        var r := Resolve(songs, ids);
        assert r == [s] + Resolve(songs, ids[1..]) && r[1..] == Resolve(songs, ids[1..]);
        assert IdsOf(r)[0] == ids[0] && IdsOf(r)[1..] == IdsOf(r[1..]);
    }
  }

  /** Totals depend only on the durations looked up for the ids. */
  lemma {:induction false} SameLookupSameTotal(a: seq<Song>, b: seq<Song>, ids: seq<SongId>)
    requires forall i :: 0 <= i < |ids| ==> DurationOf(a, ids[i]) == DurationOf(b, ids[i])
    ensures TotalDuration(a, ids) == TotalDuration(b, ids)
  {
    if ids != [] {
      assert forall i :: 0 <= i < |ids| - 1 ==> ids[1..][i] == ids[i + 1];
      SameLookupSameTotal(a, b, ids[1..]);
    }
  }
}
