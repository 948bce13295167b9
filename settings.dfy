/**
 * The settings form and the hours field of the create dialog. Each numeric
 * field accepts only a parsed integer inside its documented range and
 * otherwise keeps the value it had, so the settings never leave their ranges.
 */
module Settings {
  import opened Types

  /** handleTargetMinutesChange: a parsed value in 10..60 is taken. */
  function SetTargetMinutes(s: AppSettings, parsed: Option<int>): (r: AppSettings)
    ensures parsed.Some? && 10 <= parsed.value <= 60 ==> r == s.(targetSongMinutesPerHour := parsed.value)
    ensures !(parsed.Some? && 10 <= parsed.value <= 60) ==> r == s
  {
    match parsed
    case Some(v) => if 10 <= v <= 60 then s.(targetSongMinutesPerHour := v) else s
    case None => s
  }

  /** handleShowCreationModeChange: the mode is taken as given. */
  function SetMode(s: AppSettings, mode: CreationMode): (r: AppSettings)
    ensures r.showCreationMode == mode
    ensures r.targetSongMinutesPerHour == s.targetSongMinutesPerHour && r.targetSongsPerHour == s.targetSongsPerHour
  {
    s.(showCreationMode := mode)
  }

  /** handleTargetSongsPerHourChange: a parsed value in 1..20 is taken. */
  function SetTargetSongsPerHour(s: AppSettings, parsed: Option<int>): (r: AppSettings)
    ensures parsed.Some? && 1 <= parsed.value <= 20 ==> r == s.(targetSongsPerHour := parsed.value)
    ensures !(parsed.Some? && 1 <= parsed.value <= 20) ==> r == s
  {
    match parsed
    case Some(v) => if 1 <= v <= 20 then s.(targetSongsPerHour := v) else s
    case None => s
  }

  /** handleNewShowHoursChange: a parsed value of at least 1 is taken. */
  function SetNewShowHours(current: nat, parsed: Option<int>): (h: nat)
    ensures parsed.Some? && parsed.value >= 1 ==> h == parsed.value
    ensures !(parsed.Some? && parsed.value >= 1) ==> h == current
  {
    match parsed
    case Some(v) => if v >= 1 then v else current
    case None => current
  }

  /** One change made in the settings form. */
  datatype Edit =
    | TargetMinutes(parsed: Option<int>)
    | Mode(mode: CreationMode)
    | SongsPerHour(parsed: Option<int>)

  function ApplyEdit(s: AppSettings, e: Edit): (r: AppSettings)
    requires ValidSettings(s)
    ensures ValidSettings(r)
  {
    match e
    case TargetMinutes(p) => SetTargetMinutes(s, p)
    case Mode(m) => SetMode(s, m)
    case SongsPerHour(p) => SetTargetSongsPerHour(s, p)
  }

  /** The settings after a series of changes, in order. */
  function ApplyEdits(s: AppSettings, edits: seq<Edit>): AppSettings
    requires ValidSettings(s)
    decreases edits
  {
    if edits == [] then s else ApplyEdits(ApplyEdit(s, edits[0]), edits[1..])
  }

  /** Starting from the defaults (52 minutes, duration mode, 12 songs), no
      series of changes takes a setting out of its documented range. */
  lemma {:induction false} EditsKeepRanges(s: AppSettings, edits: seq<Edit>)
    requires ValidSettings(s)
    ensures ValidSettings(ApplyEdits(s, edits))
    ensures ValidSettings(ApplyEdits(DefaultSettings, edits))
    decreases edits
  {
    if edits != [] {
      EditsKeepRanges(ApplyEdit(s, edits[0]), edits[1..]);
      EditsKeepRanges(ApplyEdit(DefaultSettings, edits[0]), edits[1..]);
    }
  }

  /** The hours field never drops below 1, whatever is typed. */
  lemma {:induction false} HoursStayPositive(start: nat, typed: seq<Option<int>>)
    requires start >= 1
    ensures HoursAfter(start, typed) >= 1
    decreases typed
  {
    if typed != [] {
      HoursStayPositive(SetNewShowHours(start, typed[0]), typed[1..]);
    }
  }

  /** The hours field after a series of typed values. */
  function HoursAfter(current: nat, typed: seq<Option<int>>): nat
    decreases typed
  {
    if typed == [] then current else HoursAfter(SetNewShowHours(current, typed[0]), typed[1..])
  }
}
