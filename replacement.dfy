/**
 * Single-song replacement in a show: the list of suggested substitutes, sorted
 * by title, and the overwrite of the replaced slot.
 */
module Replacement {
  import opened Types
  import opened Durations
  import opened Availability

  /** Ordinal lexicographic order on titles, character code by character code. */
  predicate TitleLe(a: string, b: string)
  {
    if a == [] then true
    else if b == [] then false
    else if a[0] < b[0] then true
    else if a[0] > b[0] then false
    else TitleLe(a[1..], b[1..])
  }

  lemma {:induction false} TitleLeTotal(a: string, b: string)
    ensures TitleLe(a, b) || TitleLe(b, a)
  {
    if a != [] && b != [] && a[0] == b[0] {
      TitleLeTotal(a[1..], b[1..]);
    }
  }

  lemma {:induction false} TitleLeTransitive(a: string, b: string, c: string)
    requires TitleLe(a, b) && TitleLe(b, c)
    ensures TitleLe(a, c)
  {
    if a != [] && b != [] && c != [] && a[0] == b[0] && b[0] == c[0] {
      TitleLeTransitive(a[1..], b[1..], c[1..]);
    }
  }

  /** Songs in title order. */
  predicate ByTitle(s: seq<Song>)
  {
    forall i, j :: 0 <= i < j < |s| ==> TitleLe(s[i].title, s[j].title)
  }

  /** Every song of s has a title at or after t. */
  predicate TitlesFrom(t: string, s: seq<Song>)
  {
    forall i :: 0 <= i < |s| ==> TitleLe(t, s[i].title)
  }

  /** Places x before the first song whose title is not before x's, so that x
      stays ahead of songs with the same title (the built-in sort is stable). */
  function InsertByTitle(x: Song, s: seq<Song>): (r: seq<Song>)
    ensures |r| == |s| + 1
  {
    if s == [] then [x]
    else if TitleLe(x.title, s[0].title) then [x] + s
    else [s[0]] + InsertByTitle(x, s[1..])
  }

  lemma {:induction false} InsertByTitleFrom(x: Song, s: seq<Song>, t: string)
    requires TitlesFrom(t, s) && TitleLe(t, x.title)
    ensures TitlesFrom(t, InsertByTitle(x, s))
  {
    if s != [] && !TitleLe(x.title, s[0].title) {
      InsertByTitleFrom(x, s[1..], t);
    }
  }

  /** A song followed by songs with titles at or after its own, in order, is in order. */
  lemma ConsByTitle(x: Song, s: seq<Song>)
    requires ByTitle(s) && TitlesFrom(x.title, s)
    ensures ByTitle([x] + s)
  {
    var r := [x] + s;
    forall i, j | 0 <= i < j < |r| ensures TitleLe(r[i].title, r[j].title) {
      assert r[j] == s[j - 1];
      if i > 0 {
        assert r[i] == s[i - 1];
      }
    }
  }

  lemma {:induction false} InsertByTitleElements(x: Song, s: seq<Song>)
    ensures multiset(InsertByTitle(x, s)) == multiset(s) + multiset{x}
  {
    if s != [] && !TitleLe(x.title, s[0].title) {
      InsertByTitleElements(x, s[1..]);
      assert s == [s[0]] + s[1..];
    }
  }

  lemma {:induction false} InsertByTitleCorrect(x: Song, s: seq<Song>)
    requires ByTitle(s)
    ensures ByTitle(InsertByTitle(x, s))
  {
    if s == [] {
    } else if TitleLe(x.title, s[0].title) {
      forall i | 0 <= i < |s| ensures TitleLe(x.title, s[i].title) {
        if i > 0 { TitleLeTransitive(x.title, s[0].title, s[i].title); }
      }
      ConsByTitle(x, s);
    } else {
      var rest := s[1..];
      assert ByTitle(rest);
      TitleLeTotal(x.title, s[0].title);
      InsertByTitleCorrect(x, rest);
      assert TitlesFrom(s[0].title, rest);
      InsertByTitleFrom(x, rest, s[0].title);
      ConsByTitle(s[0], InsertByTitle(x, rest));
    }
  }

  /** `sort((a, b) => a.title.localeCompare(b.title))`, with ordinal order. */
  function SortByTitle(s: seq<Song>): (r: seq<Song>)
    ensures ByTitle(r)
    ensures multiset(r) == multiset(s)
  {
    if s == [] then []
    else
      assert s == [s[0]] + s[1..];
      InsertByTitleCorrect(s[0], SortByTitle(s[1..]));
      InsertByTitleElements(s[0], SortByTitle(s[1..]));
      InsertByTitle(s[0], SortByTitle(s[1..]))
  }

  /** The suggestion filter: available, not the replaced song, not elsewhere in
      the show and with a known duration. */
  predicate IsCandidate(song: Song, shows: seq<Show>, show: Show, replacedId: SongId)
    ensures IsCandidate(song, shows, show, replacedId) <==>
      && SongAvailability(song, shows).Available?
      && song.id != replacedId
      && song.id !in show.songIds
      && song.durationSeconds > 0
  {
    && SongAvailability(song, shows).Available?
    && song.id != replacedId
    && song.id !in Without(show.songIds, replacedId)
    && song.durationSeconds > 0
  }

  /** The show's other ids: `songIds.filter(id => id !== replacedId)`. */
  function Without(ids: seq<SongId>, replacedId: SongId): (r: seq<SongId>)
    ensures forall x :: x in r <==> x in ids && x != replacedId
  {
    if ids == [] then []
    else
      assert ids == [ids[0]] + ids[1..];
      (if ids[0] != replacedId then [ids[0]] else []) + Without(ids[1..], replacedId)
  }

  function Candidates(songs: seq<Song>, shows: seq<Show>, show: Show, replacedId: SongId): (r: seq<Song>)
    ensures forall x :: x in r <==> x in songs && IsCandidate(x, shows, show, replacedId)
  {
    if songs == [] then []
    else
      var rest := Candidates(songs[1..], shows, show, replacedId);
      assert songs == [songs[0]] + songs[1..];
      if IsCandidate(songs[0], shows, show, replacedId) then [songs[0]] + rest else rest
  }

  /** Each candidate is kept as often as the library holds it, and every
      other song is dropped. */
  lemma {:induction false} CandidatesCount(songs: seq<Song>, shows: seq<Show>, show: Show, replacedId: SongId)
    ensures forall x :: multiset(Candidates(songs, shows, show, replacedId))[x] ==
                        if IsCandidate(x, shows, show, replacedId) then multiset(songs)[x] else 0
  {
    if songs != [] {
      assert songs == [songs[0]] + songs[1..];
      CandidatesCount(songs[1..], shows, show, replacedId);
    }
  }

  /** One step of the filter. */
  lemma CandidatesCons(a: seq<Song>, shows: seq<Show>, show: Show, replacedId: SongId)
    requires a != []
    ensures Candidates(a, shows, show, replacedId) ==
      (if IsCandidate(a[0], shows, show, replacedId) then [a[0]] else []) + Candidates(a[1..], shows, show, replacedId)
  {
  }

  /** The filter goes song by song and keeps the library order. */
  lemma {:induction false} CandidatesAppend(a: seq<Song>, b: seq<Song>, shows: seq<Show>, show: Show, replacedId: SongId)
    ensures Candidates(a + b, shows, show, replacedId) == Candidates(a, shows, show, replacedId) + Candidates(b, shows, show, replacedId)
  {
    if a == [] {
      assert a + b == b;
    } else {
      AppendTail(a, b);
      CandidatesCons(a, shows, show, replacedId);
      CandidatesCons(a + b, shows, show, replacedId);
      CandidatesAppend(a[1..], b, shows, show, replacedId);
      AppendAssoc(if IsCandidate(a[0], shows, show, replacedId) then [a[0]] else [],
                  Candidates(a[1..], shows, show, replacedId), Candidates(b, shows, show, replacedId));
    }
  }

  /** The replacement suggestions: exactly the library songs that are available,
      are not the replaced song, do not already appear in the show and have a
      positive duration, each as often as in the library, in title order. */
  function Suggestions(songs: seq<Song>, shows: seq<Show>, show: Show, replacedId: SongId): (r: seq<Song>)
    ensures forall x :: x in r <==>
      && x in songs
      && SongAvailability(x, shows).Available?
      && x.id != replacedId
      && x.id !in show.songIds
      && x.durationSeconds > 0
    ensures multiset(r) == multiset(Candidates(songs, shows, show, replacedId))
    ensures ByTitle(r)
  {
    var c := Candidates(songs, shows, show, replacedId);
    var r := SortByTitle(c);
    assert forall x :: x in r <==> x in c by {
      forall x ensures x in r <==> x in c {
        assert x in r <==> x in multiset(r);
        assert x in c <==> x in multiset(c);
      }
    }
    r
  }

  /** The show after replacing the first occurrence of `oldId` by `newId` and
      recomputing the total; unchanged when `oldId` does not occur. */
  function ApplyReplacement(songs: seq<Song>, show: Show, oldId: SongId, newId: SongId): (r: Show)
    ensures oldId !in show.songIds ==> r == show
    ensures oldId in show.songIds ==>
      var k := FirstIndex(show.songIds, oldId);
      && r == show.(songIds := r.songIds, totalDurationSeconds := r.totalDurationSeconds)
      && |r.songIds| == |show.songIds|
      && r.songIds[k] == newId
      && (forall j :: 0 <= j < |show.songIds| && j != k ==> r.songIds[j] == show.songIds[j])
      && r.totalDurationSeconds == Some(TotalDuration(songs, r.songIds) as int)
  {
    if oldId !in show.songIds then show
    else
      var k := FirstIndex(show.songIds, oldId);
      var ids := show.songIds[k := newId];
      show.(songIds := ids, totalDurationSeconds := Some(TotalDuration(songs, ids)))
  }

  /** The new total is the old one with the replaced song's duration swapped
      for the new song's. */
  lemma ReplacementTotal(songs: seq<Song>, ids: seq<SongId>, k: nat, newId: SongId)
    requires k < |ids|
    ensures TotalDuration(songs, ids[k := newId]) + DurationOf(songs, ids[k])
            == TotalDuration(songs, ids) + DurationOf(songs, newId)
  {
    var a, b := ids[..k], ids[k + 1..];
    assert ids == a + [ids[k]] + b;
    assert ids[k := newId] == a + [newId] + b;
    TotalDurationAppend(songs, a + [ids[k]], b);
    TotalDurationAppend(songs, a, [ids[k]]);
    TotalDurationAppend(songs, a + [newId], b);
    TotalDurationAppend(songs, a, [newId]);
  }
}
