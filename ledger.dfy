/**
 * The rotation ledger: after a selection, every library song whose id was
 * selected records the show and the show's creation time, overwriting what it
 * recorded before. Nothing ever clears a record.
 */
module Ledger {
  import opened Types
  import opened Durations

  /** The library after stamping the songs whose id is in `ids` with
      (showId, showCreatedAt) — `songs.map(song => ids.includes(song.id) ? … : song)`. */
  function Stamp(songs: seq<Song>, ids: seq<SongId>, showId: ShowId, showCreatedAt: int): (r: seq<Song>)
    ensures |r| == |songs|
    ensures forall i :: 0 <= i < |songs| && songs[i].id in ids ==>
              r[i] == songs[i].(lastUsedInShowDetails := Some(Usage(showId, showCreatedAt)))
    ensures forall i :: 0 <= i < |songs| && songs[i].id !in ids ==> r[i] == songs[i]
  {
    seq(|songs|, i requires 0 <= i < |songs| =>
      if songs[i].id in ids
      then songs[i].(lastUsedInShowDetails := Some(Usage(showId, showCreatedAt)))
      else songs[i])
  }

  /** Stamping changes no id, title, artist or duration, and keeps the order. */
  lemma StampKeepsRecords(songs: seq<Song>, ids: seq<SongId>, showId: ShowId, showCreatedAt: int)
    ensures var r := Stamp(songs, ids, showId, showCreatedAt);
      && IdsOf(r) == IdsOf(songs)
      && (forall i :: 0 <= i < |r| ==>
            r[i].(lastUsedInShowDetails := songs[i].lastUsedInShowDetails) == songs[i])
      && (UniqueIds(songs) ==> UniqueIds(r))
  {
    var r := Stamp(songs, ids, showId, showCreatedAt);
    assert forall i :: 0 <= i < |r| ==> IdsOf(r)[i] == IdsOf(songs)[i];
  }

  /** The latest stamp wins outright: stamping again with another show replaces
      the earlier record, whatever its time (no merge, no max). */
  lemma StampOverwrites(songs: seq<Song>, ids: seq<SongId>, a: ShowId, t: int, b: ShowId, u: int)
    ensures Stamp(Stamp(songs, ids, a, t), ids, b, u) == Stamp(songs, ids, b, u)
  {
    var r1 := Stamp(Stamp(songs, ids, a, t), ids, b, u);
    var r2 := Stamp(songs, ids, b, u);
    assert |r1| == |r2|;
    forall i | 0 <= i < |r1| ensures r1[i] == r2[i] {
      assert Stamp(songs, ids, a, t)[i].id == songs[i].id;
    }
  }

  /** Stamping changes no lookup by id: the same ids are found, with the same
      durations. */
  lemma {:induction false} StampKeepsLookup(songs: seq<Song>, ids: seq<SongId>, showId: ShowId, showCreatedAt: int, id: SongId)
    ensures DurationOf(Stamp(songs, ids, showId, showCreatedAt), id) == DurationOf(songs, id)
  {
    if songs != [] {
      var r := Stamp(songs, ids, showId, showCreatedAt);
      assert r[1..] == Stamp(songs[1..], ids, showId, showCreatedAt);
      StampKeepsLookup(songs[1..], ids, showId, showCreatedAt, id);
    }
  }

  /** So every show total computed after stamping equals the one before. */
  lemma StampKeepsTotals(songs: seq<Song>, ids: seq<SongId>, showId: ShowId, showCreatedAt: int, q: seq<SongId>)
    ensures TotalDuration(Stamp(songs, ids, showId, showCreatedAt), q) == TotalDuration(songs, q)
  {
    forall i | 0 <= i < |q|
      ensures DurationOf(Stamp(songs, ids, showId, showCreatedAt), q[i]) == DurationOf(songs, q[i])
    {
      StampKeepsLookup(songs, ids, showId, showCreatedAt, q[i]);
    }
    SameLookupSameTotal(Stamp(songs, ids, showId, showCreatedAt), songs, q);
  }
}
