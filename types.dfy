/**
 * The records of the radio show planner: songs of the library, shows built
 * from them, and the process-wide settings that drive playlist building.
 * Identifiers are opaque tokens compared only for equality; timestamps and
 * durations are whole numbers (seconds for durations, milliseconds for
 * timestamps).
 */
module Types {

  datatype Option<+T> = None | Some(value: T)

  type SongId = string
  type ShowId = string

  /** The rotation ledger entry of a song: the show that last used it and that
      show's creation time at the moment of use. */
  datatype Usage = Usage(showId: ShowId, showCreatedAt: int)

  /** A library song. `durationSeconds == 0` means the duration is unknown. */
  datatype Song = Song(
    id: SongId,
    title: string,
    artist: string,
    uploadedAt: int,
    lastUsedInShowDetails: Option<Usage>,
    fileName: Option<string>,
    durationSeconds: nat)

  /** A show. `totalDurationSeconds` is a cache and `intendedHours` is optional. */
  datatype Show = Show(
    id: ShowId,
    name: string,
    createdAt: int,
    songIds: seq<SongId>,
    totalDurationSeconds: Option<int>,
    intendedHours: Option<nat>)

  datatype CreationMode = Duration | Count

  datatype AppSettings = AppSettings(
    targetSongMinutesPerHour: int,
    showCreationMode: CreationMode,
    targetSongsPerHour: int)

  /** The documented ranges of the settings. */
  predicate ValidSettings(s: AppSettings)
  {
    && 10 <= s.targetSongMinutesPerHour <= 60
    && 1 <= s.targetSongsPerHour <= 20
  }

  /** The settings a fresh installation starts with. */
  const DefaultSettings := AppSettings(52, Duration, 12)

  /** The number of hours a show is planned for: a missing or zero value reads as 1. */
  function IntendedHours(show: Show): (h: nat)
    ensures h >= 1
    ensures show.intendedHours.Some? && show.intendedHours.value >= 1 ==> h == show.intendedHours.value
    ensures show.intendedHours.None? ==> h == 1
    ensures show.intendedHours == Some(0) ==> h == 1
  {
    match show.intendedHours
    case None => 1
    case Some(n) => if n == 0 then 1 else n
  }

  /** The ids of a sequence of songs, in order. */
  function IdsOf(songs: seq<Song>): (ids: seq<SongId>)
    ensures |ids| == |songs|
    ensures forall i :: 0 <= i < |songs| ==> ids[i] == songs[i].id
  {
    if songs == [] then [] else [songs[0].id] + IdsOf(songs[1..])
  }

  /** No two songs of the library share an id. */
  predicate UniqueIds(songs: seq<Song>)
  {
    forall i, j :: 0 <= i < j < |songs| ==> songs[i].id != songs[j].id
  }

  /** The first song of the library with the given id (Array.prototype.find). */
  function FindSong(songs: seq<Song>, id: SongId): (r: Option<Song>)
    ensures r.Some? ==> r.value in songs && r.value.id == id
    ensures r.None? <==> (forall s :: s in songs ==> s.id != id)
    ensures forall k :: 0 <= k < |songs| && songs[k].id == id && (forall j :: 0 <= j < k ==> songs[j].id != id) ==>
      r == Some(songs[k])
  {
    if songs == [] then None
    else if songs[0].id == id then Some(songs[0])
    else
      var rest := songs[1..];
      assert forall k :: 0 < k < |songs| ==> songs[k] == rest[k - 1];
      FindSong(rest, id)
  }

  /** The first show with the given id (Array.prototype.find). */
  function FindShow(shows: seq<Show>, id: ShowId): (r: Option<Show>)
    ensures r.Some? ==> r.value in shows && r.value.id == id
    ensures r.None? <==> (forall s :: s in shows ==> s.id != id)
    ensures forall k :: 0 <= k < |shows| && shows[k].id == id && (forall j :: 0 <= j < k ==> shows[j].id != id) ==>
      r == Some(shows[k])
  {
    if shows == [] then None
    else if shows[0].id == id then Some(shows[0])
    else
      var rest := shows[1..];
      assert forall k :: 0 < k < |shows| ==> shows[k] == rest[k - 1];
      FindShow(rest, id)
  }

  /** In a library with unique ids, looking up the id of a member finds that member. */
  lemma {:induction false} FindSongUnique(songs: seq<Song>, s: Song)
    requires UniqueIds(songs) && s in songs
    ensures FindSong(songs, s.id) == Some(s)
  {
    if songs[0] != s {
      assert songs[0].id != s.id by {
        var k :| 0 <= k < |songs| && songs[k] == s;
      }
      assert UniqueIds(songs[1..]) by {
        forall i, j | 0 <= i < j < |songs[1..]| ensures songs[1..][i].id != songs[1..][j].id {
          assert songs[1..][i] == songs[i + 1] && songs[1..][j] == songs[j + 1];
        }
      }
      FindSongUnique(songs[1..], s);
    }
  }

  /** `indexOf`: the first position of x. */
  function FirstIndex(ids: seq<SongId>, x: SongId): (k: nat)
    requires x in ids
    ensures k < |ids| && ids[k] == x
    ensures forall j :: 0 <= j < k ==> ids[j] != x
  {
    if ids[0] == x then 0 else 1 + FirstIndex(ids[1..], x)
  }

  /** The head and tail of a concatenation whose left part is not empty. */
  lemma AppendTail<T>(a: seq<T>, b: seq<T>)
    requires a != []
    ensures (a + b)[0] == a[0] && (a + b)[1..] == a[1..] + b
  {
  }

  /** Concatenation is associative. */
  lemma AppendAssoc<T>(h: seq<T>, x: seq<T>, y: seq<T>)
    ensures h + (x + y) == (h + x) + y
  {
  }
}
