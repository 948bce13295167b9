/**
 * The playlist builder shared by show creation and playlist swap. The list of
 * usable songs arrives already shuffled. In duration mode every song that still
 * fits under the upper target is taken and songs that would overflow are
 * skipped. In count mode songs are taken from the front while both the count
 * target and the duration cap allow, and the scan stops at the first song that
 * would overflow.
 */
module Builder {
  import opened Types
  import opened Durations

  function Max(a: int, b: int): int { if a >= b then a else b }

  /** A per-hour rate between two bounds gives a total between the bounds
      times the hours. */
  lemma {:induction false} ScaleBetween(lo: int, rate: int, hi: int, hours: nat)
    ensures lo <= rate <= hi ==> lo * hours <= rate * hours <= hi * hours
  {
    if hours > 0 {
      ScaleBetween(lo, rate, hi, hours - 1);
      assert rate * hours == rate * (hours - 1) + rate;
      assert lo * hours == lo * (hours - 1) + lo;
      assert hi * hours == hi * (hours - 1) + hi;
    }
  }

  /** Duration cap of count mode, in seconds; with valid settings, between 10
      and 60 minutes per hour. */
  function DurationCap(hours: nat, settings: AppSettings): (c: int)
    ensures ValidSettings(settings) ==> 10 * 60 * hours <= c <= 60 * 60 * hours
  {
    ScaleBetween(10, settings.targetSongMinutesPerHour, 60, hours);
    settings.targetSongMinutesPerHour * hours * 60
  }

  /** Lower bound of duration mode: the larger of 5 minutes per hour and the
      target minus 2 minutes per hour, in seconds. With valid settings the
      second is always the larger, so the bound is the cap less 2 minutes per
      hour. */
  function MinTarget(hours: nat, settings: AppSettings): (m: int)
    ensures m >= 5 * 60 * hours && m >= (settings.targetSongMinutesPerHour - 2) * hours * 60
    ensures m == 5 * 60 * hours || m == (settings.targetSongMinutesPerHour - 2) * hours * 60
    ensures ValidSettings(settings) ==> m == DurationCap(hours, settings) - 2 * 60 * hours
  {
    Max(5 * 60 * hours, (settings.targetSongMinutesPerHour - 2) * hours * 60)
  }

  /** Upper bound of duration mode: the target plus 2 minutes per hour, in
      seconds, that is the cap plus 2 minutes per hour. */
  function MaxTarget(hours: nat, settings: AppSettings): (m: int)
    ensures m == DurationCap(hours, settings) + 2 * 60 * hours
  {
    (settings.targetSongMinutesPerHour + 2) * hours * 60
  }

  /** Song count target of count mode; with valid settings, between 1 and 20
      songs per hour. */
  function TargetCount(hours: nat, settings: AppSettings): (n: int)
    ensures ValidSettings(settings) ==> hours <= n <= 20 * hours
  {
    ScaleBetween(1, settings.targetSongsPerHour, 20, hours);
    settings.targetSongsPerHour * hours
  }


  /** Duration mode as a reference definition: take each song that fits in the
      room left, skip the others and go on. */
  function DurationPick(s: seq<Song>, room: int): (r: seq<Song>)
    ensures |r| <= |s|
  {
    if s == [] then []
    else if s[0].durationSeconds <= room then [s[0]] + DurationPick(s[1..], room - s[0].durationSeconds)
    else DurationPick(s[1..], room)
  }

  /** With negative room nothing is taken; a first song that fits is taken
      first. */
  lemma DurationPickFirst(s: seq<Song>, room: int)
    ensures room < 0 ==> DurationPick(s, room) == []
    ensures s != [] && s[0].durationSeconds <= room ==> DurationPick(s, room) != [] && DurationPick(s, room)[0] == s[0]
  {
  }

  /** Count mode as a reference definition: take songs from the front while
      fewer than `count` are taken and the next one fits, stop otherwise. */
  function CountPick(s: seq<Song>, count: int, room: int): (r: seq<Song>)
    ensures |r| <= |s|
    ensures count <= 0 ==> r == []
  {
    if s == [] || count <= 0 || s[0].durationSeconds > room then []
    else [s[0]] + CountPick(s[1..], count - 1, room - s[0].durationSeconds)
  }

  /** The songs the builder selects from the shuffled list, never more than
      were shuffled; in duration mode the first shuffled song is taken
      whenever it fits under the maximum. */
  function Selection(shuffled: seq<Song>, hours: nat, settings: AppSettings): (r: seq<Song>)
    ensures |r| <= |shuffled|
    ensures (settings.showCreationMode == Duration && shuffled != []
             && shuffled[0].durationSeconds <= MaxTarget(hours, settings)) ==> r != [] && r[0] == shuffled[0]
  {
    match settings.showCreationMode
    case Duration => DurationPickFirst(shuffled, MaxTarget(hours, settings)); DurationPick(shuffled, MaxTarget(hours, settings))
    case Count => CountPick(shuffled, TargetCount(hours, settings), DurationCap(hours, settings))
  }

  /** The warnings the builder raises; the message texts are not modelled. */
  datatype Warning =
    | ShortOfMinimum   // duration mode: total below the lower bound
    | ShortOfCount     // count mode: fewer songs than targeted
    | NoSongFits       // count mode: not a single song was selected

  /** When the builder warns, given how many usable songs there were and the
      selection it made. */
  function BuildWarning(usableCount: nat, hours: nat, settings: AppSettings, selected: seq<Song>): (w: Option<Warning>)
    ensures settings.showCreationMode == Duration ==>
              (w.Some? <==> SumDur(selected) < MinTarget(hours, settings))
    ensures settings.showCreationMode == Count ==>
              (w.Some? <==> |selected| < TargetCount(hours, settings) || (selected == [] && usableCount > 0))
    ensures w == Some(NoSongFits) <==>
              settings.showCreationMode == Count && selected == [] && usableCount > 0
    ensures w.Some? && settings.showCreationMode == Duration ==> w.value == ShortOfMinimum
  {
    match settings.showCreationMode
    case Duration =>
      if SumDur(selected) < MinTarget(hours, settings) then Some(ShortOfMinimum) else None
    case Count =>
      if selected == [] && usableCount > 0 then Some(NoSongFits)
      else if |selected| < TargetCount(hours, settings) then Some(ShortOfCount)
      else None
  }

  /** What the builder hands back: the selected ids, their running total and
      the warning, if any. */
  datatype Plan = Plan(songIds: seq<SongId>, totalDurationSeconds: nat, warning: Option<Warning>)

  /** The duration-mode loop. */
  method FillByDuration(shuffled: seq<Song>, maxTarget: int) returns (ids: seq<SongId>, total: nat)
    ensures ids == IdsOf(DurationPick(shuffled, maxTarget))
    ensures total == SumDur(DurationPick(shuffled, maxTarget))
  {
    ids, total := [], 0;
    ghost var picked: seq<Song> := [];
    for i := 0 to |shuffled|
      invariant ids == IdsOf(picked) && total == SumDur(picked)
      invariant DurationPick(shuffled, maxTarget) == picked + DurationPick(shuffled[i..], maxTarget - total)
    {
      var song := shuffled[i];
      assert shuffled[i..][0] == song && shuffled[i..][1..] == shuffled[i + 1..];
      if total + song.durationSeconds <= maxTarget {
        SumDurAppend(picked, [song]);
        picked, ids := picked + [song], ids + [song.id];
        total := total + song.durationSeconds;
      }
    }
    assert shuffled[|shuffled|..] == [];
    assert picked == DurationPick(shuffled, maxTarget);
  }

  /** The count-mode loop, with its early exits. */
  method FillByCount(shuffled: seq<Song>, targetCount: int, cap: int) returns (ids: seq<SongId>, total: nat)
    ensures ids == IdsOf(CountPick(shuffled, targetCount, cap))
    ensures total == SumDur(CountPick(shuffled, targetCount, cap))
  {
    ids, total := [], 0;
    ghost var picked: seq<Song> := [];
    var i := 0;
    while i < |shuffled|
      invariant 0 <= i <= |shuffled| && |picked| == i
      invariant ids == IdsOf(picked) && total == SumDur(picked)
      invariant CountPick(shuffled, targetCount, cap) == picked + CountPick(shuffled[i..], targetCount - i, cap - total)
    {
      var song := shuffled[i];
      assert shuffled[i..][0] == song && shuffled[i..][1..] == shuffled[i + 1..];
      if |ids| < targetCount {
        if total + song.durationSeconds <= cap {
          SumDurAppend(picked, [song]);
          picked, ids := picked + [song], ids + [song.id];
          total := total + song.durationSeconds;
        } else {
          assert CountPick(shuffled[i..], targetCount - i, cap - total) == [];
          break;
        }
      } else {
        assert CountPick(shuffled[i..], targetCount - i, cap - total) == [];
        break;
      }
      i := i + 1;
    }
    assert picked == CountPick(shuffled, targetCount, cap);
  }

  /** Builds the playlist for `hours` hours from the shuffled usable songs. */
  method BuildPlaylist(shuffled: seq<Song>, hours: nat, settings: AppSettings) returns (plan: Plan)
    ensures plan.songIds == IdsOf(Selection(shuffled, hours, settings))
    ensures plan.totalDurationSeconds == SumDur(Selection(shuffled, hours, settings))
    ensures plan.warning == BuildWarning(|shuffled|, hours, settings, Selection(shuffled, hours, settings))
  {
    var ids: seq<SongId>;
    var total: nat;
    var warning: Option<Warning> := None;
    if settings.showCreationMode == Duration {
      ids, total := FillByDuration(shuffled, MaxTarget(hours, settings));
      if total < MinTarget(hours, settings) {
        warning := Some(ShortOfMinimum);
      }
    } else {
      var target := TargetCount(hours, settings);
      ids, total := FillByCount(shuffled, target, DurationCap(hours, settings));
      if |ids| < target {
        warning := Some(ShortOfCount);
      }
      if |ids| == 0 && |shuffled| > 0 {
        warning := Some(NoSongFits);
      }
    }
    plan := Plan(ids, total, warning);
  }

  // ---------------------------------------------------------------------------
  // Properties of the two modes

  /** a is obtained from b by deleting elements. */
  predicate IsSubsequence(a: seq<Song>, b: seq<Song>)
    decreases |b|
  {
    if a == [] then true
    else if b == [] then false
    else (a[0] == b[0] && IsSubsequence(a[1..], b[1..])) || IsSubsequence(a, b[1..])
  }

  lemma {:induction false} SubsequenceMembers(a: seq<Song>, b: seq<Song>)
    requires IsSubsequence(a, b)
    ensures forall x :: x in a ==> x in b
    decreases |b|
  {
    if a != [] {
      if a[0] == b[0] && IsSubsequence(a[1..], b[1..]) {
        SubsequenceMembers(a[1..], b[1..]);
        assert a == [a[0]] + a[1..] && b == [b[0]] + b[1..];
      } else {
        SubsequenceMembers(a, b[1..]);
        assert b == [b[0]] + b[1..];
      }
    }
  }

  /** Duration mode keeps the shuffled order and only drops songs. */
  lemma {:induction false} DurationPickIsSubsequence(s: seq<Song>, room: int)
    ensures IsSubsequence(DurationPick(s, room), s)
  {
    if s != [] {
      var r := DurationPick(s, room);
      if s[0].durationSeconds <= room {
        DurationPickIsSubsequence(s[1..], room - s[0].durationSeconds);
        assert r[0] == s[0] && r[1..] == DurationPick(s[1..], room - s[0].durationSeconds);
      } else {
        DurationPickIsSubsequence(s[1..], room);
        if r != [] {
          assert IsSubsequence(r, s[1..]);
        }
      }
    }
  }

  /** Duration mode never exceeds the room it is given. */
  lemma {:induction false} DurationPickFits(s: seq<Song>, room: int)
    requires room >= 0
    ensures SumDur(DurationPick(s, room)) <= room
  {
    if s != [] {
      if s[0].durationSeconds <= room {
        DurationPickFits(s[1..], room - s[0].durationSeconds);
        assert ([s[0]] + DurationPick(s[1..], room - s[0].durationSeconds))[1..]
               == DurationPick(s[1..], room - s[0].durationSeconds);
      } else {
        DurationPickFits(s[1..], room);
      }
    }
  }

  /** Every song left out would overflow the final total: any song of the list
      that still fits beside the final selection was selected. */
  lemma {:induction false} DurationPickSkipsOnlyOverflow(s: seq<Song>, room: int, x: Song)
    requires x in s
    requires SumDur(DurationPick(s, room)) + x.durationSeconds <= room
    ensures x in DurationPick(s, room)
  {
    var r := DurationPick(s, room);
    if s[0].durationSeconds <= room {
      var rest := DurationPick(s[1..], room - s[0].durationSeconds);
      assert r == [s[0]] + rest && r[1..] == rest;
      if x != s[0] {
        DurationPickSkipsOnlyOverflow(s[1..], room - s[0].durationSeconds, x);
      }
    } else {
      assert x != s[0];
      DurationPickSkipsOnlyOverflow(s[1..], room, x);
    }
  }

  /** When the whole list fits, duration mode takes all of it, in order. */
  lemma {:induction false} DurationPickAllFit(s: seq<Song>, room: int)
    requires SumDur(s) <= room
    ensures DurationPick(s, room) == s
  {
    if s != [] {
      DurationPickAllFit(s[1..], room - s[0].durationSeconds);
      assert s == [s[0]] + s[1..];
    }
  }

  /** If no song is longer than d, duration mode either takes everything's
      worth or comes within d of the room. */
  lemma {:induction false} DurationPickNearRoom(s: seq<Song>, room: int, d: int)
    requires forall i :: 0 <= i < |s| ==> s[i].durationSeconds <= d
    ensures SumDur(DurationPick(s, room)) >= SumDur(s) || SumDur(DurationPick(s, room)) > room - d
  {
    if s != [] {
      var d0 := s[0].durationSeconds;
      if d0 <= room {
        DurationPickNearRoom(s[1..], room - d0, d);
        assert ([s[0]] + DurationPick(s[1..], room - d0))[1..] == DurationPick(s[1..], room - d0);
      }
    }
  }

  /** Duration mode meets its lower bound whenever the usable songs together
      reach it and no song is longer than the gap between the two bounds. */
  lemma DurationModeMeetsMinimum(shuffled: seq<Song>, hours: nat, settings: AppSettings)
    requires SumDur(shuffled) >= MinTarget(hours, settings)
    requires forall i :: 0 <= i < |shuffled| ==>
               shuffled[i].durationSeconds <= MaxTarget(hours, settings) - MinTarget(hours, settings)
    ensures SumDur(DurationPick(shuffled, MaxTarget(hours, settings))) >= MinTarget(hours, settings)
  {
    DurationPickNearRoom(shuffled, MaxTarget(hours, settings), MaxTarget(hours, settings) - MinTarget(hours, settings));
  }

  /** Reaching the upper bound in total is not enough on its own: one song of
      3241 s for a one-hour show at 52 minutes is skipped and nothing is chosen. */
  lemma LongSongAloneIsSkipped(song: Song)
    requires song.durationSeconds == 3241
    ensures var settings := AppSettings(52, Duration, 12);
      && SumDur([song]) >= MaxTarget(1, settings)
      && DurationPick([song], MaxTarget(1, settings)) == []
      && BuildWarning(1, 1, settings, []) == Some(ShortOfMinimum)
  {
  }

  /** Count mode selects a prefix of the shuffled list, within both caps, and
      no longer prefix is within them: it stops at the first song that would
      overflow and does not skip ahead. */
  lemma {:induction false} CountPickIsLongestPrefix(s: seq<Song>, count: int, room: int)
    requires count >= 0 && room >= 0
    ensures var p := CountPick(s, count, room);
      && p == s[..|p|]
      && |p| <= count && SumDur(p) <= room
      && (forall j :: |p| < j <= |s| && j <= count ==> SumDur(s[..j]) > room)
  {
    var p := CountPick(s, count, room);
    if s == [] || count == 0 || s[0].durationSeconds > room {
      forall j | |p| < j <= |s| && j <= count ensures SumDur(s[..j]) > room {
        PrefixSumMonotone(s, 1, j);
        assert s[..1] == [s[0]];
      }
    } else {
      var d0 := s[0].durationSeconds;
      var q := CountPick(s[1..], count - 1, room - d0);
      CountPickIsLongestPrefix(s[1..], count - 1, room - d0);
      assert p == [s[0]] + q && p[1..] == q;
      assert s[..|p|] == [s[0]] + s[1..][..|q|];
      forall j | |p| < j <= |s| && j <= count ensures SumDur(s[..j]) > room {
        assert s[..j] == [s[0]] + s[1..][..j - 1];
        assert s[..j][1..] == s[1..][..j - 1];
      }
    }
  }

  /** Count mode keeps the count target, and with valid settings its total
      stays under the cap. */
  lemma CountModeWithinCaps(shuffled: seq<Song>, hours: nat, settings: AppSettings)
    requires ValidSettings(settings) && settings.showCreationMode == Count
    ensures |Selection(shuffled, hours, settings)| <= TargetCount(hours, settings)
    ensures SumDur(Selection(shuffled, hours, settings)) <= DurationCap(hours, settings)
  {
    CountPickIsLongestPrefix(shuffled, TargetCount(hours, settings), DurationCap(hours, settings));
  }

  /** Duration mode stays under its upper bound. */
  lemma DurationModeWithinMax(shuffled: seq<Song>, hours: nat, settings: AppSettings)
    requires ValidSettings(settings) && settings.showCreationMode == Duration
    ensures SumDur(Selection(shuffled, hours, settings)) <= MaxTarget(hours, settings)
    ensures IsSubsequence(Selection(shuffled, hours, settings), shuffled)
  {
    DurationPickFits(shuffled, MaxTarget(hours, settings));
    DurationPickIsSubsequence(shuffled, MaxTarget(hours, settings));
  }

  /** Count mode keeps the shuffled order. */
  lemma {:induction false} CountPickIsSubsequence(s: seq<Song>, count: int, room: int)
    ensures IsSubsequence(CountPick(s, count, room), s)
  {
    if !(s == [] || count <= 0 || s[0].durationSeconds > room) {
      var p := CountPick(s, count, room);
      CountPickIsSubsequence(s[1..], count - 1, room - s[0].durationSeconds);
      assert p[0] == s[0] && p[1..] == CountPick(s[1..], count - 1, room - s[0].durationSeconds);
    }
  }

  /** Either mode picks only songs of the shuffled list. */
  lemma SelectionFromShuffled(shuffled: seq<Song>, hours: nat, settings: AppSettings)
    ensures forall x :: x in Selection(shuffled, hours, settings) ==> x in shuffled
  {
    match settings.showCreationMode
    case Duration =>
      DurationPickIsSubsequence(shuffled, MaxTarget(hours, settings));
      SubsequenceMembers(Selection(shuffled, hours, settings), shuffled);
    case Count =>
      CountPickIsSubsequence(shuffled, TargetCount(hours, settings), DurationCap(hours, settings));
      SubsequenceMembers(Selection(shuffled, hours, settings), shuffled);
  }

  /** With at least one hour and a valid count target, an empty selection from
      a non-empty list always comes with a warning, so the caller aborts. */
  lemma EmptySelectionWarns(shuffled: seq<Song>, hours: nat, settings: AppSettings)
    requires hours >= 1 && ValidSettings(settings) && |shuffled| > 0
    requires Selection(shuffled, hours, settings) == []
    ensures BuildWarning(|shuffled|, hours, settings, []).Some?
  {
  }
}
