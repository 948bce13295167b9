# Radio Show Planner — a verified model of the planning core

Radio Show Planner keeps a library of songs and a list of radio shows. It
builds a show playlist by walking a shuffled list of the songs that are
currently usable. A rotation ledger on each song records the show that last
used it, and a song stays blocked while that show is among the four most
recent. This project models the planning logic of `App.tsx` and the records
of `types.ts` in Dafny, and proves what that logic promises.

Each handler of the `App` component becomes an operation from one snapshot of
the state (`seq<Song>`, `seq<Show>`, `AppSettings`) to the next. Loops in the
source become methods with loop invariants, proved against recursive
specification functions. Everything else becomes functions and lemmas.

| module | file | covers |
|---|---|---|
| `Types` | `types.dfy` | `Song`, `Show`, `AppSettings`, the ledger entry, the id lookups, the default and the ranges of the settings, the `intendedHours` default |
| `Durations` | `durations.dfy` | `calculateShowTotalDuration`, where unknown ids count 0, and the running sums |
| `Format` | `format.dfy` | `formatDuration` |
| `Availability` | `availability.dfy` | `sortedShows`, `getSongAvailability`, the usable-song filter |
| `Builder` | `builder.dfy` | the playlist builder that create and swap share: duration mode, count mode and the warnings |
| `Ledger` | `ledger.dfy` | stamping `lastUsedInShowDetails` |
| `Replacement` | `replacement.dfy` | the suggestion filter, the sort by title, the overwrite of one slot |
| `ShowEdits` | `showedits.dfy` | writing a playlist and its total, the drag-and-drop reorder, the replacement over all shows |
| `Library` | `library.dfy` | the guarded deletions, the merge step of an import, the records an import writes |
| `Settings` | `settings.dfy` | the settings setters and the hours field |
| `Segmenter` | `segmenter.dfy` | the hourly segments of the show detail view |
| `Workflows` | `workflows.dfy` | create, swap, open replace and confirm replace as whole handlers |

Values from the environment are parameters:

- the shuffled order: any sequence with the same elements as the usable songs;
- the new show's id, name and creation time;
- the answer to a confirmation dialog, as a `bool`;
- the result of `parseInt`, as an `Option<int>`.

Alerts become status tags and warning tags.

The model states one invariant across handlers. `CachesAccurate` says that
each cached `totalDurationSeconds` equals the sum the library gives for the
show's ids. Create, swap, drop, replace and both deletions preserve it. A
re-import that overwrites a song's duration does not rewrite the shows that
list the song, so their caches go stale. `Workflows.OverwriteLeavesCacheStale`
shows this on a concrete library. The shows list prints the stored cache, so it
then shows the stale total. The detail view does not: it reads the selected
show with its total recomputed from the library (`Workflows.SelectedShow`), and
`Workflows.DetailViewRecomputesStaleCache` shows the two disagreeing on the same
library.

A plausible reading of duration mode is false for the code. The claim is that
once the usable songs add up to at least the minimum, the playlist reaches the
minimum too. A single usable song of 3241 seconds is a counterexample for a
one-hour show at 52 minutes. The maximum is 54 · 60 = 3240, so the song is
skipped, nothing is selected and the show is not created
(`Builder.LongSongAloneIsSkipped`). The true statement adds a condition: every
song must be at most the maximum minus the minimum
(`Builder.DurationModeMeetsMinimum`).

## Model

| member | source | states |
|---|---|---|
| Types.IntendedHours | App.tsx:989 | at least 1; the stored hours when there are some (1 or more), and 1 when the field is missing or 0 |
| Types.FindSong | App.tsx:108-110 | the result is the first song with the id: whenever position k holds the id and no earlier position does, the song at k is found; a found song is in the library and has the id; none is found exactly when no song has the id |
| Types.FindShow | App.tsx:426 | the result is the first show with the id: whenever position k holds the id and no earlier position does, the show at k is found; a found show is in the list and has the id; none is found exactly when no show has the id |
| Types.FindSongUnique | App.tsx:108-110 | with unique ids, looking up a library song's id finds that song |
| Types.FirstIndex | App.tsx:612 | `indexOf` of an id that is present: that position holds the id and no earlier position does |
| Durations.DurationOf | App.tsx:114-115 | the duration of the song with the id, or 0 when there is none |
| Durations.TotalDuration | App.tsx:112-117 | an empty id list totals 0 and a single id totals its duration; with `TotalDurationAppend` this fixes the total of every list as the sum of the ids' durations |
| Durations.SumDurAppend | App.tsx:502-507 | the running total of a concatenation is the sum of the running totals |
| Durations.TotalDurationAppend | App.tsx:112-117 | the show total of a concatenation of id lists is the sum of their totals |
| Durations.UnknownIdsCountZero | App.tsx:112-117 | ids that name no song add nothing to the total |
| Durations.SameLookupSameTotal | App.tsx:112-117 | two libraries that give every id of the list the same duration give the list the same total |
| Durations.Resolve | App.tsx:988 | the resolved songs are library songs, no more than there are ids; a single unknown id resolves to nothing and a single known id to its song |
| Durations.ResolveAppend | App.tsx:988 | resolving a concatenation of id lists concatenates the resolutions, so order is kept and each known id contributes once |
| Durations.ResolveTotal | App.tsx:988 | the running sum of the resolved songs equals the lookup total of the ids |
| Durations.ResolveKnown | App.tsx:988 | when every id is known, the ids of the resolved songs are the ids themselves |
| Durations.RunningTotalIsLookupTotal | App.tsx:550 | with unique ids, the running total of library songs equals the lookup total of their ids |
| Durations.ResolvedIdsTotal | App.tsx:1035 | totalling the ids of the resolved songs again gives their running sum |
| Format.Decimal | App.tsx:17 | `String(n)` is a non-empty run of digits, one digit exactly when n is under 10, with no leading zero unless n is 0 |
| Format.DecimalRoundTrip | App.tsx:17 | reading back the digits of `String(n)` gives n |
| Format.PadTwo | App.tsx:17 | `padStart(2, '0')` puts one `'0'` in front of a single character and returns a string of two or more characters as it is |
| Format.PadTwoValue | App.tsx:17 | padding keeps every character a digit and keeps the value read back |
| Format.MinutesField | App.tsx:15-17 | the minutes field has at least two digits, has no leading zero when it has more than two, and reads back as the minutes |
| Format.SecondsField | App.tsx:16-17 | the seconds field of a value under 60 has exactly two digits and reads back as that value |
| Format.JoinFields | App.tsx:17 | a minutes field and a two-digit seconds field under 60, joined by a colon, read back as minutes · 60 + seconds |
| Format.FormatDuration | App.tsx:14-19 | the text is digits around one colon, with at least two digits before it, no leading zero when there are more than two, and exactly two after; it reads back as minutes · 60 + seconds, where the seconds are under 60, equal to the input; a missing or negative input gives exactly `"00:00"` |
| Availability.InsertByRecencyElements | App.tsx:451 | insertion adds exactly the inserted show |
| Availability.InsertByRecencyCorrect | App.tsx:451 | inserting into a newest-first list keeps it newest first |
| Availability.ByRecency | App.tsx:451 | `sortedShows` is newest first and a permutation of the shows |
| Availability.CountNewerByRecency | App.tsx:451 | sorting does not change how many shows are newer than a time |
| Availability.SongAvailability | App.tsx:453-474 | available without a ledger entry or when its show is gone; otherwise, with fewer than 4 shows, unavailable exactly when the show exists; with 4 or more, unavailable exactly when the show exists and the stamp is at least the 4th-newest creation time; a reason names the ledger's show exactly when the song is unavailable |
| Availability.WindowFloor | App.tsx:467 | `sortedShows[3].createdAt` is the creation time of one of the shows; fewer than 4 shows were created after it and at least 4 at or after it |
| Availability.WindowFloorByCount | App.tsx:467-469 | a stamp is at least the 4th-newest creation time exactly when fewer than 4 shows are newer than it |
| Availability.RankByCount | App.tsx:467 | in a newest-first list, a time at or after position k has at most k newer shows, and a time before it has more than k |
| Availability.AvailabilityByCount | App.tsx:453-474 | the rule restated without sorting: unavailable exactly when the ledger's show exists and there are fewer than 4 shows, or fewer than 4 shows newer than the stamp |
| Availability.NewestStampBlocks | App.tsx:469 | a song stamped by an existing show that no show is newer than is unavailable |
| Availability.NewerShowKeepsAvailable | App.tsx:457-473 | appending a show other than the ledger's keeps an available song available |
| Availability.SameTimelineCount | App.tsx:451 | two show lists with the same ids and creation times have the same counts of newer shows |
| Availability.SameTimelineSameAvailability | App.tsx:453-474 | availability depends only on the shows' ids and creation times, not on their playlists |
| Availability.UsableSongs | App.tsx:476-480 | the usable songs are exactly the library songs that are available and have a positive duration |
| Availability.UsableSongsCount | App.tsx:476-480 | a usable song appears as many times as in the library, and any other song not at all |
| Availability.UsableSongsAppend | App.tsx:476-480 | filtering a concatenation is concatenating the filtered parts, so the library order is kept |
| Availability.Usable | App.tsx:476-480 | a song is usable exactly when it has a positive duration and either was never used, or its show is gone, or at least four shows exist and at least four are newer than its use |
| Availability.ShowExists | App.tsx:457 | true exactly when some show in the list has the id |
| Builder.DurationCap | App.tsx:496 | the count-mode cap; with valid settings between 10 and 60 minutes per hour |
| Builder.MinTarget | App.tsx:499 | the larger of 5 minutes per hour and the target minus 2 minutes per hour; with valid settings, exactly the cap less 2 minutes per hour |
| Builder.MaxTarget | App.tsx:500 | the cap plus 2 minutes per hour |
| Builder.TargetCount | App.tsx:512 | the count-mode target; with valid settings between 1 and 20 songs per hour |
| Builder.BuildWarning | App.tsx:508-530 | duration mode warns exactly when the total is under the minimum; count mode warns exactly when fewer songs than targeted were taken, or none were taken while some were usable, and the "none fits" warning covers exactly the second case |
| Builder.FillByDuration | App.tsx:502-507 | the skip-and-continue loop yields the ids and the total of `DurationPick` |
| Builder.FillByCount | App.tsx:513-524 | the loop that stops at the first overflow yields the ids and the total of `CountPick` |
| Builder.BuildPlaylist | App.tsx:491-531 | the builder's ids, total and warning are those of `Selection` and `BuildWarning` |
| Builder.DurationPick | App.tsx:502-507 | duration mode never selects more songs than were shuffled |
| Builder.DurationPickFirst | App.tsx:502-507 | with a negative maximum nothing is selected; a first song that fits is always selected first |
| Builder.CountPick | App.tsx:513-524 | count mode never selects more songs than were shuffled, and nothing with a count target of zero or less |
| Builder.Selection | App.tsx:498-531 | the selection of either mode is no longer than the shuffled list; in duration mode a first song that fits under the maximum is selected first |
| Builder.DurationPickIsSubsequence | App.tsx:502-507 | duration mode selects a subsequence of the shuffled songs |
| Builder.DurationPickFits | App.tsx:503 | the duration-mode total never exceeds the maximum |
| Builder.DurationPickSkipsOnlyOverflow | App.tsx:503 | a skipped song would take the final total over the maximum |
| Builder.DurationPickAllFit | App.tsx:502-507 | when all songs together fit, all are selected |
| Builder.DurationPickNearRoom | App.tsx:502-507 | with songs no longer than d, the selection takes all songs or comes within d of the maximum |
| Builder.DurationModeMeetsMinimum | App.tsx:499-510 | when the songs add up to the minimum and none is longer than the maximum minus the minimum, the minimum is reached |
| Builder.LongSongAloneIsSkipped | App.tsx:499-510 | a lone 3241-second song for one hour at 52 minutes is skipped although it meets the maximum, and the empty selection warns |
| Builder.CountPickIsLongestPrefix | App.tsx:513-524 | count mode selects a prefix of the shuffled songs within the count and the cap, and every longer prefix within the count goes over the cap |
| Builder.CountPickIsSubsequence | App.tsx:513-524 | count mode selects a subsequence of the shuffled songs |
| Builder.CountModeWithinCaps | App.tsx:496-524 | in count mode, the selection is within the target count and the duration cap |
| Builder.DurationModeWithinMax | App.tsx:500-507 | in duration mode, the selection stays within the maximum and is a subsequence of the shuffled songs |
| Builder.SelectionFromShuffled | App.tsx:491-531 | every selected song comes from the shuffled list |
| Builder.EmptySelectionWarns | App.tsx:525-530 | with usable songs and valid settings, an empty selection always carries a warning, so the handler aborts |
| Ledger.Stamp | App.tsx:555-559 | exactly the songs whose id is listed get the new ledger entry; the other songs, the length and the order are unchanged |
| Ledger.StampKeepsRecords | App.tsx:555-559 | stamping changes no field but the ledger entry and keeps ids unique |
| Ledger.StampOverwrites | App.tsx:557 | a second stamp of the same ids replaces the first completely |
| Ledger.StampKeepsLookup | App.tsx:555-559 | stamping changes no song's duration as seen through its id |
| Ledger.StampKeepsTotals | App.tsx:726-730 | stamping changes no show total |
| Replacement.TitleLeTotal | App.tsx:772 | any two titles are comparable |
| Replacement.TitleLeTransitive | App.tsx:772 | the title order is transitive |
| Replacement.InsertByTitleElements | App.tsx:772 | insertion adds exactly the inserted song |
| Replacement.InsertByTitleCorrect | App.tsx:772 | inserting into a list ordered by title keeps it ordered |
| Replacement.SortByTitle | App.tsx:772 | the result is ordered by title and is a permutation of the input |
| Replacement.Without | App.tsx:757 | the other ids of the show are exactly its ids other than the replaced one |
| Replacement.Candidates | App.tsx:754-771 | the filter keeps exactly the library songs that pass the candidate test |
| Replacement.CandidatesCount | App.tsx:754-771 | a candidate appears as many times as in the library, and any other song not at all |
| Replacement.CandidatesAppend | App.tsx:754-771 | filtering a concatenation is concatenating the filtered parts, so the library order is kept before the title sort |
| Replacement.IsCandidate | App.tsx:758-770 | a song passes exactly when it is available, is not the song being replaced, is not in the show and has a positive duration (not in the other ids and not the replaced id together mean not in the show at all) |
| Replacement.Suggestions | App.tsx:754-772 | the suggestions are exactly the library songs that are available, do not have the replaced id, are not in the show and have a positive duration; they are a permutation of the filtered songs and ordered by title |
| Replacement.ApplyReplacement | App.tsx:814-825 | with the old id absent the show is unchanged; otherwise the first slot of the old id holds the new id, the length and every other slot are kept, no other field changes, and the total becomes the lookup total of the new list |
| Replacement.ReplacementTotal | App.tsx:820-821 | overwriting one slot changes the total by the new song's duration minus the old song's |
| ShowEdits.SetPlaylist | App.tsx:629-633 | shows with the id get the new ids and total; every other show and the list's length are unchanged |
| ShowEdits.SetPlaylistKeepsCaches | App.tsx:628-631 | writing a list with its lookup total keeps every cache accurate |
| ShowEdits.SetPlaylistKeepsAvailability | App.tsx:719-724 | writing a playlist changes no song's availability |
| ShowEdits.RemoveAt | App.tsx:619 | `splice(k, 1)` leaves one element fewer: the elements before k stay in place and the ones after k move down by one |
| ShowEdits.InsertAt | App.tsx:625 | `splice(p, 0, x)` leaves one element more: x at p, the elements before p in place and the ones from p on moved up by one |
| ShowEdits.RemoveAtElements | App.tsx:619 | taking out one element leaves the rest of the multiset |
| ShowEdits.InsertAtElements | App.tsx:625 | insertion adds one element, and taking it out again gives back the list |
| ShowEdits.RemoveAtTotal | App.tsx:619 | taking out an id lowers the total by that id's duration |
| ShowEdits.InsertAtTotal | App.tsx:625 | inserting an id raises the total by that id's duration |
| ShowEdits.MoveBefore | App.tsx:611-626 | nothing happens exactly when the dragged id is absent; otherwise the result is a permutation of the same length, and the dragged id sits just before the first remaining occurrence of the target, or at the end when the target is gone |
| ShowEdits.MoveBeforeKeepsTotal | App.tsx:628 | a reorder keeps the show total |
| ShowEdits.DropSongInShow | App.tsx:600-633 | each guard leaves the shows unchanged; otherwise the reordered list and its recomputed total, equal to the old total, are written to the selected show |
| ShowEdits.ReplaceInShows | App.tsx:814-825 | shows with the id get the replacement; every other show and the length are unchanged |
| ShowEdits.ReplaceInShowsKeepsCaches | App.tsx:821-822 | a replacement keeps every cache accurate |
| ShowEdits.ReplaceInShowsKeepsAvailability | App.tsx:814-825 | a replacement changes no song's availability |
| Library.RemoveSong | App.tsx:418 | the remaining songs are exactly those without the id |
| Library.RemoveAbsentSong | App.tsx:418 | removing an id no song has changes nothing |
| Library.RemoveSongAt | App.tsx:418 | with unique ids, removing a song's id takes out exactly that position |
| Library.InAnyShow | App.tsx:407-409 | `shows.some(show => show.songIds.includes(songId))` holds exactly when some show lists the id |
| Library.DeleteSong | App.tsx:411-423 | a song listed by a show is kept, reported as in use; a declined confirmation keeps it; a confirmed one returns `RemoveSong` of the id, which keeps exactly the songs without the id |
| Library.DeleteSongKeepsShowsResolved | App.tsx:411-415 | every id listed by a show still names a library song after a deletion |
| Library.RemoveSongKeepsLookup | App.tsx:418 | removing one id changes no other id's duration |
| Library.RemoveShow | App.tsx:437 | the remaining shows are exactly those without the id |
| Library.RemoveAbsentShow | App.tsx:437 | removing an id no show has changes nothing |
| Library.RemoveShowAppend | App.tsx:437 | the filter of a concatenation is the concatenation of the filters |
| Library.RemoveShowBetween | App.tsx:437 | removing the id of a show that no show before or after it shares joins its neighbours |
| Library.RemoveShowAt | App.tsx:437 | when no other show shares its id, removing the id of the show at a position takes out exactly that position |
| Library.DeleteShow | App.tsx:425-448 | a missing show is reported and nothing changes; a declined confirmation changes nothing; a confirmed one returns `RemoveShow` of the id, which keeps exactly the shows without the id, and clears the selection when it was that show |
| Library.ShowExistsFound | App.tsx:426 | `some` by id and `find` by id agree |
| Library.DeleteShowFreesSongs | App.tsx:437 | deleting the show in a song's ledger entry makes the song available |
| Library.IndexOfId | App.tsx:365 | `findIndex` by id: none exactly when no song has the id, otherwise the first position holding it |
| Library.UpdateFirst | App.tsx:365-368 | one update keeps the length and the id at every position |
| Library.ApplyUpdates | App.tsx:364-369 | all updates keep the length and the id at every position |
| Library.MergeImport | App.tsx:362-372 | the merge loop gives the updated library followed by the new songs |
| Library.ApplyUpdatesLastWins | App.tsx:364-369 | with unique ids, each position holds the last update with its id, or is unchanged when there is none |
| Library.MergeLayout | App.tsx:362-372 | the merged library has the old ids in order, then the new songs unchanged |
| Library.MergeKeepsUnique | App.tsx:370 | with fresh ids for the new songs, the merged library keeps ids unique |
| Library.NewSong | App.tsx:346-355 | a new song has the given id, title, artist, file and time, no ledger entry, and the duration read, or 0 when none was read |
| Library.Overwritten | App.tsx:333-338 | an overwrite keeps id, title, artist and ledger entry, and takes the new file, time and duration (0 when none was read) |
| Library.ImportAndAvailability | App.tsx:333-355 | an overwritten song keeps its availability, and a new song is available |
| Settings.SetTargetMinutes | App.tsx:838-843 | a parsed value in 10..60 is taken; anything else leaves the settings unchanged |
| Settings.SetMode | App.tsx:845-847 | the mode is set and the other settings are kept |
| Settings.SetTargetSongsPerHour | App.tsx:849-854 | a parsed value in 1..20 is taken; anything else leaves the settings unchanged |
| Settings.SetNewShowHours | App.tsx:856-861 | a parsed value of at least 1 is taken; anything else keeps the field |
| Settings.ApplyEdit | types.ts:40-44 | every change keeps the settings in their documented ranges |
| Settings.EditsKeepRanges | App.tsx:83-87 | from the defaults, or from any valid settings, no series of changes leaves the ranges |
| Settings.HoursStayPositive | App.tsx:856-861 | the hours field never drops below 1 |
| Segmenter.CloseStep | App.tsx:999-1011 | closing the open segment and opening one with the song keeps the scan invariant |
| Segmenter.ExtendStep | App.tsx:1012-1015 | adding the song to the open segment keeps the scan invariant |
| Segmenter.FinishStep | App.tsx:1017-1023 | pushing the last open segment gives segments that are numbered, non-empty, totalled, closed only on overflow and never early |
| Segmenter.CloseAndOpen | App.tsx:999-1011 | on overflow, the current segment is closed with its number and total, the hour counter advances and a segment holding just the song opens; the invariant holds and the songs seen gain the song |
| Segmenter.Extend | App.tsx:1012-1015 | without overflow, the song is appended to the current segment and its total grows by the song's duration; the invariant holds |
| Segmenter.ScanSong | App.tsx:998-1016 | one song of the scan keeps the invariant and adds the song to the songs seen |
| Segmenter.SplitByHour | App.tsx:993-1023 | the scan's segments hold all the songs in order, at most `intendedHours` of them, numbered, non-empty, totalled, closed only on overflow and never early |
| Segmenter.PadSegments | App.tsx:1024-1030 | padding adds empty numbered segments up to `intendedHours` and keeps the rest |
| Segmenter.PaddedSegments | App.tsx:1024-1030 | padding the scan's segments gives the full layout |
| Segmenter.SplitAndPad | App.tsx:993-1030 | a show of several hours with songs gets the full layout |
| Segmenter.SingleTotal | App.tsx:1035 | the single segment's total, which is the selected show's recomputed total or, when that is 0, the total of the resolved songs, is the sum of its songs |
| Segmenter.OneSegmentLayout | App.tsx:1031-1036 | one segment holding every song is the layout of a one-hour show |
| Segmenter.EmptyLayout | App.tsx:1037-1041 | the padded empty segments are the layout of a show without songs |
| Segmenter.SingleSegment | App.tsx:1031-1042 | a one-hour show, or one without songs, gets the full layout |
| Segmenter.HourlySegments | App.tsx:988-1042 | exactly `intendedHours` segments numbered 1, 2, …, each with the sum of its songs as total, whose songs in order are the show's resolved songs, the empty ones last; a filled segment follows one whose positive duration plus its first song's would exceed the hourly target, and inside every segment before the last hour no song would have closed it |
| Workflows.SelectionInLibrary | App.tsx:478-491 | every selected song is a library song |
| Workflows.SelectionTotalIsLookup | App.tsx:550 | with unique ids, the stored running total equals the lookup total of the new show's ids, after stamping |
| Workflows.StampKeepsCaches | App.tsx:555-559 | stamping keeps every cache accurate |
| Workflows.CreateShow | App.tsx:482-567 | no usable songs: nothing changes; a warning with an empty selection aborts and nothing changes; otherwise exactly one show is appended with the selected ids, the running total and the hours, and exactly the selected songs are stamped with its id and time; caches stay accurate |
| Workflows.CreatedShowKeepsCaches | App.tsx:545-559 | with unique ids, the new show's cached total and every older show's cache are accurate after its songs are stamped |
| Workflows.CreatedShowBlocksItsSongs | App.tsx:545-559 | right after a show is created, all of its songs are unavailable, provided no existing show has a later creation time than the new one (`Date.now()` does not guarantee this: the clock can go back, and stored shows can come from elsewhere) |
| Workflows.SwapPlaylist | App.tsx:647-736 | no selection, a missing show, no usable songs, or a warning with an empty selection: nothing changes; otherwise the selected show's ids and total are replaced and exactly the chosen songs are stamped with the show's own creation time; caches stay accurate |
| Workflows.OpenReplace | App.tsx:739-804 | it needs a selection, an existing show and a library song with the id; it then offers exactly the suggestions and records the replaced song's title |
| Workflows.ConfirmReplace | App.tsx:806-836 | without a pending target or with the show gone, nothing changes; otherwise the shows get the replacement and exactly the songs with the new id are stamped with the show's creation time, even when the old id was not in the list |
| Workflows.ConfirmReplaceKeepsCaches | App.tsx:814-832 | confirming a replacement keeps every cache accurate |
| Workflows.DeletionsKeepCaches | App.tsx:411-440 | deleting a song or a show keeps every cache accurate |
| Workflows.OverwriteLeavesCacheStale | App.tsx:362-372 | an import that overwrites a song's duration can leave an accurate show cache stale |
| Workflows.SelectedShow | App.tsx:569-577 | nothing when no id is selected or no show has it; otherwise the stored show with the same id, songs, name and creation time, its total equal to the running sum of its resolved songs and its hours at least 1, kept when stored as 1 or more |
| Workflows.SelectedShowIsAccurate | App.tsx:573-575 | the selected show's total is accurate for the library, whatever the stored cache holds |
| Workflows.DetailViewRecomputesStaleCache | App.tsx:569-577 | after a re-import that leaves the stored cache at 100, the detail view's total is the new 200 |

## Left out

- React state, rendering, modals, drag-event bookkeeping and the audio player are UI and are not modelled.
- Persistence through `useLocalStorage` is storage plumbing; only the default settings are modelled.
- Metadata extraction from audio files, with its tag reader, audio elements and timers, is asynchronous I/O and is not modelled.
- The shuffle is a parameter: any order of the usable songs is allowed. The model makes no claim about the order's distribution, and the biased comparator shuffle is not modelled.
- `crypto.randomUUID`, `Date.now`, `toLocaleDateString` and `window.confirm` are parameters: ids, times, the show name and the answer.
- `Types.UniqueIds`: unique song ids (the source uses UUIDs) are a hypothesis of the lemmas that need them, not something the model proves.
- The import classification is not modelled, because it depends on `window.confirm` and Unicode `trim`/`toLowerCase`. That covers matching a staged song to a library entry, skipping entries without a title, and the counters. The model keeps its merge step and the two records it writes.
- Replacement.SortByTitle: it orders by its ordinal order on character codes rather than `localeCompare` collation, and it does not prove stability.
- Availability.SongAvailability: the reason carries the id of the blocking show, not the message with its name.
- Alert, confirm and console texts become status and warning tags; the success alerts are not modelled.
- Format.FormatDuration: it covers integer inputs only. `NaN` and fractional seconds are not modelled, because durations come from `Math.round`. JavaScript numbers are doubles while the model's `int` and `nat` are unbounded. Past 2^53 seconds, sums lose precision, and from 1e21 `String(n)` switches to exponent notation. So the text shape it states holds for the model and for realistic durations, not for every double.
- `parseInt` is an `Option<int>`, so text that does not parse is `None`.
- `splice` on a fresh copy of an id list is modelled as sequence operations. No other reference to that copy exists, so nothing about aliasing is lost.
