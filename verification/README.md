# Embedded audio player: page-level playback coordination

This project models the controller behind the embedded audio players of a
music website. A page carries any number of player widgets. Each widget has a
play/pause button, a progress bar, a `MM:SS` time marker and, in the
multi-track build, previous/next buttons and a title. The controller aims to
keep at most one widget playing. Every path that starts a widget that was not
already playing pauses every widget first, except one: in the multi-track
build, a continuous widget that moves on to its own next track at the end of a
track starts it without pausing the others (see Findings). The previous/next
buttons on a playing widget also resume it without pausing the others; that
keeps exclusion, because that widget was the one playing (`PrevSong`,
`NextSong`). When a track ends and the
widget is in continuous mode, it moves on to the next track or to the next
widget on the page.

The repository has two alternative builds of this controller, and the model
keeps them apart:

- `MultitrackPlayer` (multitrack_player.dfy) models theme/js/multitrack_player.js.
  A widget holds one or more tracks. The `data-track` index moves with bounded
  arithmetic: a step past the last track snaps to the first, and a step before
  the first snaps to the last. At the end of a track, a continuous widget
  advances within itself, and hands over to the next widget only after its
  last track.
- `Player` (player.dfy) models theme/js/player.js. A widget holds a single
  track. At the end of a track, a continuous widget always hands over to the
  next widget.

The page is an ordered sequence of immutable widget records. Each event
handler is a pure function from page to page. The browser's `play()`/`pause()`
are represented only by the widget's `playing` flag, which is the `play` CSS
class. Element identity (the `===` in `navigateMediaPlayer`) is an `id` field,
and a valid page has distinct ids. `Dispatch` and `Run` replay any sequence of
events. `RunKeepsExclusion` proves that every such run keeps at most one
widget playing; in the multi-track build this holds with the corrected
track-end handler (see Findings).

The handlers both scripts define alike (`PauseAudio`, `PlayAudio`,
`PauseAll`, `PlayPause`, the position lookup) are written out in both modules.
They are identical up to the analytics call in the multi-track `playAudio`,
which is left out, and each script's own lookup of the current track. Each
module defines them over its own kind of widget.

Shared modules:

- `Display` (display.dfy): the `MM:SS` marker (`Number.toString` and
  `padStart`), the capped progress percentage, and the title (the last `/`
  segment of the URL with one trailing `.ext` removed).
- `Search` (search.dfy): the identity lookup loop.
- `Wrappers` (wrappers.dfy): `Option`.

Times are mathematical `real` seconds. Every duration is positive and every
playhead lies in `[0, duration]`.

Three behaviours of the code that a modulo or two-sided clamp reading would get wrong:

- The track index is not `(index + step + count) % count`. An overshoot snaps
  to 0 and an undershoot snaps to the last track. The two agree only for steps
  of one (`WrapIsModuloForUnitSteps`, `WrapIsNotModulo`).
- Seeking and the progress percentage are clamped only from above, not to
  `[0, duration]` and `[0, 100]`.
- The next widget always starts from its first track, whatever the direction
  of the step.

## Model

| member | source | states |
|---|---|---|
| `Search.FirstIndex` | theme/js/multitrack_player.js:199-206 | the position found holds the widget and no earlier position does; `None` exactly when the widget is not on the page |
| `Display.Decimal` | theme/js/multitrack_player.js:246 | `toString` of a whole number is a digit string that reads back as the number, with no leading zero; below 10 it has one digit, below 100 at most two |
| `Display.PadStart` | theme/js/multitrack_player.js:246 | `padStart(width,'0')` gives the string itself when it is at least `width` long, and otherwise exactly `width` characters: zeros followed by the string |
| `Display.PadStartKeepsValue` | theme/js/multitrack_player.js:246 | `padStart(2,'0')` keeps a digit string's value |
| `Display.TwoDigits` | theme/js/multitrack_player.js:246 | a padded number has at least two digits, reads back as the number, has no zero beyond the padding, and has exactly two digits below 100 |
| `Display.MarkerOfFields` | theme/js/multitrack_player.js:246 | joining padded minutes and two second digits with ':' gives a marker that reads back both fields |
| `Display.Clock` | theme/js/multitrack_player.js:246 | the marker text of m minutes and s < 60 seconds reads back as exactly m and s |
| `Display.WholeMinutes` | theme/js/multitrack_player.js:242-243 | `floor(t/60)` and `floor(t % 60)` split `floor(t)` into whole minutes and 0..59 seconds |
| `Display.TimeMarker` | theme/js/multitrack_player.js:236-247 | the marker is minute digits (at least two, no extra zero), a colon and two second digits below 60, and 60·minutes + seconds = floor(t) |
| `Display.MarkerDependsOnWholeSeconds` | theme/js/player.js:160-164 | two times give the same marker if and only if they have the same whole seconds |
| `Display.ClampPercent` | theme/js/multitrack_player.js:227-229 | a percentage of at most 100 is kept and one above 100 becomes exactly 100 |
| `Display.ProgressPercent` | theme/js/multitrack_player.js:222-229 | the computed width is at most 100; it is proportional to playhead/duration up to the end, exactly 100 at or past it, and never negative for a non-negative playhead |
| `Display.LastSegment` | theme/js/multitrack_player.js:253 | `split("/").pop()` is the suffix with no '/' that is the whole URL or follows a '/' |
| `Display.StripExtension` | theme/js/multitrack_player.js:253 | a trailing '.' plus a non-empty run without '.' or '/' is cut off; a name with no such extension is unchanged |
| `Display.Title` | theme/js/multitrack_player.js:250-253 | the title holds no '/'; it is the last URL segment cut before its trailing `.ext` when it has one, and the whole segment when it has none |
| `Display.LastSegmentOfPath` | theme/js/multitrack_player.js:253 | the last segment of `dir/seg` is `seg` |
| `Display.TitleOfFile` | theme/js/multitrack_player.js:253 | the title of `dir/base.ext` is `base` |
| `Display.TitleWithoutExtension` | theme/js/multitrack_player.js:253 | a file name without '.' is its own title |
| `MultitrackPlayer.CurrentIndex` | theme/js/multitrack_player.js:119-130 | a widget with several tracks plays the audio at `data-track`; a widget with one track plays its first audio |
| `MultitrackPlayer.CurrentIndexIsTrack` | theme/js/multitrack_player.js:119-130 | on a well-formed widget the current audio is the one at `data-track`, a single-track widget's index being 0 |
| `MultitrackPlayer.PauseAudio` | theme/js/multitrack_player.js:133-144 | the widget is paused and nothing else about it changes |
| `MultitrackPlayer.PlayAudio` | theme/js/multitrack_player.js:154-166 | the widget plays and nothing else about it changes |
| `MultitrackPlayer.PauseAll` | theme/js/multitrack_player.js:147-151 | every widget is paused and nothing else changes |
| `MultitrackPlayer.PauseAllKeepsValidity` | theme/js/multitrack_player.js:147-151 | pausing all keeps the page well formed and the widgets in place |
| `MultitrackPlayer.PlayPause` | theme/js/multitrack_player.js:46-56 | a playing widget is paused and the others are unchanged; a paused widget becomes the only one playing; at most one plays afterwards if at most one did before |
| `MultitrackPlayer.WrapIndex` | theme/js/multitrack_player.js:178-184 | the new index is in `[0, count)`; an overshoot (including +∞) gives 0, an undershoot gives count-1, and an in-range step is taken as is |
| `MultitrackPlayer.WrapIsModuloForUnitSteps` | theme/js/multitrack_player.js:178-184 | steps of ±1 from a valid index wrap around like `(index + step + count) % count` |
| `MultitrackPlayer.WrapIsNotModulo` | theme/js/multitrack_player.js:178-184 | a step of 5 among 3 tracks snaps to 0 where a modulo would give 2 |
| `MultitrackPlayer.InfinityIsAnyLongStep` | theme/js/multitrack_player.js:214 | the `+∞` step gives track 0, like any finite step of at least the track count |
| `MultitrackPlayer.SetPlayerTime` | theme/js/multitrack_player.js:260-268 | the current track's playhead becomes the request when it is within the duration and the duration otherwise, never exceeding it, and exactly the duration for a request at or past it; the other tracks and widget fields are unchanged |
| `MultitrackPlayer.NavigateTracks` | theme/js/multitrack_player.js:169-195 | the track index moves by the wrapped step (a single-track widget keeps its only track); the playing flag is preserved; the new current track is rewound to 0; the other tracks are unchanged |
| `MultitrackPlayer.PrevSong` | theme/js/multitrack_player.js:59-62 | one track back, from the first to the last, rewound to 0, with the `continuous` class, the other tracks and the new track's URL and duration kept; only this widget changes; exclusion is preserved, and a widget that was the only one playing still is, without `pauseAll` |
| `MultitrackPlayer.NextSong` | theme/js/multitrack_player.js:65-68 | one track forward, from the last to the first, rewound to 0, with the `continuous` class, the other tracks and the new track's URL and duration kept; only this widget changes; exclusion is preserved, and a widget that was the only one playing still is, without `pauseAll` |
| `MultitrackPlayer.TargetPosition` | theme/js/multitrack_player.js:199-211 | the target is the widget's own position plus the step whenever that lies on the page; there is no target when it does not or the widget is absent |
| `MultitrackPlayer.StartFromFirstTrack` | theme/js/multitrack_player.js:212-215 | on a paused page the chosen widget becomes the only one playing, on track 0 rewound to 0, with its `continuous` class and other tracks kept; no other widget changes |
| `MultitrackPlayer.StartAfterPauseAll` | theme/js/multitrack_player.js:207-215 | after `pauseAll` and the start of the widget at `j`, that widget is the only one playing, on track 0 rewound, and every other widget keeps everything but the `play` class |
| `MultitrackPlayer.NavigateMediaPlayer` | theme/js/multitrack_player.js:198-218 | if the widget at `pos+step` exists, it is the only one playing, on track 0 rewound to 0, with its `continuous` class and its other tracks kept; if the target is off the page or the widget is not found, nothing plays; paused widgets are otherwise unchanged |
| `MultitrackPlayer.PauseEnded` | theme/js/multitrack_player.js:96-97 | the widget whose track ended is paused, it keeps its track, and nothing else changes |
| `MultitrackPlayer.HandOver` | theme/js/multitrack_player.js:103-105 | the next widget on the page plays alone from track 0 at 0, keeping its `continuous` class and other tracks; after the last widget nothing plays; every other widget is paused and otherwise unchanged |
| `MultitrackPlayer.AdvanceTrack` | theme/js/multitrack_player.js:106-110 | the same widget plays its next track from 0, keeping its `continuous` class and its other tracks, and no other widget changes |
| `MultitrackPlayer.NextSongOrMediaPlayer` | theme/js/multitrack_player.js:93-112 | the track-end handler keeps the page well formed, and keeps at most one widget playing when the ended track belonged to the playing widget |
| `MultitrackPlayer.EndedWithoutContinuous` | theme/js/multitrack_player.js:93-99 | without `continuous` the widget ends paused on the same track and every other widget is unchanged |
| `MultitrackPlayer.EndedBeforeLastTrack` | theme/js/multitrack_player.js:99-110 | in continuous mode before the last track the same widget plays the next track from 0 with its `continuous` class and other tracks kept; the others are unchanged, so it is the only one playing if it was before |
| `MultitrackPlayer.EndedOnLastTrack` | theme/js/multitrack_player.js:99-105 | in continuous mode on the last or only track the next widget plays alone from track 0 at 0, keeping its `continuous` class and other tracks; after the last widget nothing plays; every other widget, the ended one included, is paused and keeps its tracks and classes |
| `MultitrackPlayer.AdvanceTrackAlone` | theme/js/multitrack_player.js:106-110 | with every widget paused first, the widget playing its next track from 0 is the only one playing; its `continuous` class and other tracks are kept |
| `MultitrackPlayer.NextSongOrMediaPlayerExclusive` | theme/js/multitrack_player.js:93-112 | the track-end handler with all widgets paused before the next track plays: exclusion is preserved for every page |
| `MultitrackPlayer.ExclusiveDiffersOnlyBeforeLastTrack` | theme/js/multitrack_player.js:99-105 | outside the next-track case the exclusive handler and the handler as written give the same page |
| `MultitrackPlayer.EndedOnPausedWidgetBreaksExclusion` | theme/js/multitrack_player.js:106-110 | a page where the track-end handler as written leaves two widgets playing |
| `MultitrackPlayer.ExclusiveAgreesWhenEndedWidgetPlays` | theme/js/multitrack_player.js:93-112 | when the ended track belongs to the one playing widget, the handler as written and the exclusive one give the same page |
| `MultitrackPlayer.SetProgress` | theme/js/multitrack_player.js:81-90 | a click at a fraction f ≤ 1 of the bar sets the playhead to f·duration, and f ≥ 1 sets it to exactly the duration; only the playhead of that widget's current track changes |
| `MultitrackPlayer.SeekToMiddle` | theme/js/multitrack_player.js:87 | a click halfway along a 200-second track puts the playhead at 100 |
| `MultitrackPlayer.UpdateProgressBar` | theme/js/multitrack_player.js:221-233 | a given percentage of at most 100 is kept and one above 100 becomes 100; with none given the width is the played share of the current track, capped at 100 |
| `MultitrackPlayer.UpdateTimeMarker` | theme/js/multitrack_player.js:236-247 | the marker reads as the whole seconds of the given time, or else of the current playhead |
| `MultitrackPlayer.UpdateTitle` | theme/js/multitrack_player.js:250-257 | the title comes from the current track's URL: its last segment cut before a trailing `.ext`, or the whole segment when there is none, without '/' |
| `MultitrackPlayer.Dispatch` | theme/js/multitrack_player.js:1-18 | every event keeps the page well formed and at most one widget playing, and adds or removes no widget or track, so an event that could reach the page still can; unload leaves nothing playing |
| `MultitrackPlayer.RunKeepsExclusion` | theme/js/multitrack_player.js:1-18 | with the corrected track-end handler, after any sequence of events at most one widget plays |
| `Player.PauseAudio` | theme/js/player.js:83-94 | the widget is paused and nothing else about it changes |
| `Player.PlayAudio` | theme/js/player.js:104-113 | the widget plays and nothing else about it changes |
| `Player.PauseAll` | theme/js/player.js:97-101 | every widget is paused and nothing else changes |
| `Player.PauseAllKeepsValidity` | theme/js/player.js:97-101 | pausing all keeps the page well formed and the widgets in place |
| `Player.PlayPause` | theme/js/player.js:27-37 | a playing widget is paused and the others are unchanged; a paused widget becomes the only one playing; at most one plays afterwards if at most one did before |
| `Player.SetPlayerTime` | theme/js/player.js:168-176 | the playhead becomes the request when it is within the duration and the duration otherwise, never exceeding it |
| `Player.SetProgress` | theme/js/player.js:50-59 | a click at a fraction f ≤ 1 of the bar sets the playhead to f·duration, and f ≥ 1 sets it to exactly the duration; the widget keeps its `continuous` class and duration; no other widget changes |
| `Player.TargetPosition` | theme/js/player.js:117-129 | the target is the widget's own position plus the step whenever that lies on the page; there is no target when it does not or the widget is absent |
| `Player.StartFromBeginning` | theme/js/player.js:130-133 | on a paused page the chosen widget becomes the only one playing, rewound to 0, with its `continuous` class and duration kept; no other widget changes |
| `Player.NavigateMediaPlayer` | theme/js/player.js:116-136 | if the widget at `pos+step` exists, it is the only one playing, rewound to 0 with its `continuous` class and duration kept; if the target is off the page or the widget is not found, nothing plays; paused widgets are otherwise unchanged |
| `Player.NextSong` | theme/js/player.js:62-71 | at track end: without `continuous` the widget is paused and nothing else changes; with it every widget is paused and the next one on the page, if any, plays alone from 0 with its `continuous` class and duration kept, while the others keep everything but the `play` class |
| `Player.UpdateProgressBar` | theme/js/player.js:139-151 | a given percentage of at most 100 is kept and one above 100 becomes 100; with none given the width is the played share of the track, capped at 100 |
| `Player.UpdateTimeMarker` | theme/js/player.js:154-165 | the marker reads as the whole seconds of the given time, or else of the playhead |
| `Player.Dispatch` | theme/js/player.js:1-7 | every event keeps the page well formed and at most one widget playing; unload leaves nothing playing |
| `Player.RunKeepsExclusion` | theme/js/player.js:1-7 | after any sequence of events at most one widget plays |

## Left out

- DOM querying (`querySelector`, `closest`, `getElementsByClassName`) and listener registration (`initializePlayer`, `initialize`, the `beforeunload` wiring) are not modelled. The page and the event are inputs, and `Dispatch` stands for the wiring.
- Play-button icon classes, `innerHTML` and style writes are not modelled, because they only render. The model keeps the values they render: width, marker text and title.
- The `loadedmetadata` handler `initializePlayer` is not modelled as an event. It refreshes the displayed values, writes `data-track`/`data-tracks` and attaches the previous/next listeners. A valid page stands for widgets already set up this way, with any track as the current one.
- The `timeupdate` handler `updateProgress` is not modelled as an event, because it changes nothing but the display. Its values are `UpdateProgressBar` and `UpdateTimeMarker`.
- `audio.play()` and `audio.pause()` are the browser's media primitives. Only the `playing` flag stands for them.
- The analytics call in `playAudio` is left out, because it is a foreign side effect.
- `decodeURI` and the download-link markup in `updateTitle` are left out. The first is a library call and the second is markup.
- IEEE floating point and `NaN` are not modelled. Durations are positive reals, so the state before metadata loads is not covered.
- A single-track widget in the multi-track build writes `"NaN"` to `data-track` after the `+∞` step. The model keeps its index at 0 instead, because `getCurrentTrack` never reads that attribute for a single track.
- A negative click offset is not modelled: events carry a click fraction of at least 0.
- The pixel arithmetic `offsetX / clientWidth` is given as that fraction.
- `Display.TimeMarker`: requires a non-negative time. Media times never go below 0, and negative input would print signs inside the marker.
- `MultitrackPlayer.RunKeepsExclusion`: holds for runs that dispatch `ended` to the corrected handler. For the script as written it does not hold: `EndedOnPausedWidgetBreaksExclusion` gives a page where one `ended` event leaves two widgets playing.
- `MultitrackPlayer.Dispatch`: routes the `ended` event to `NextSongOrMediaPlayerExclusive`, not to the handler as written (see Findings). `ExclusiveAgreesWhenEndedWidgetPlays` shows the two agree whenever the ended track belongs to the playing widget.

## Findings

| source | as written | input that shows it | evidently intended | confidence | as-written member | corrected member |
|---|---|---|---|---|---|---|
| theme/js/multitrack_player.js:106-110 | on track end in a continuous multi-track widget, the next track starts with `playAudio` without `pauseAll`, so the handler leaves other widgets playing | widget 0 playing one track; widget 1 paused, continuous, two tracks, on track 0; `ended` fires on widget 1 and both widgets end up playing | pause every widget before the next track plays, as every other path that starts a widget that was not already playing does (prev/next resume only a widget that was already the one playing) | low, not executed: needs the browser to fire `ended` for an audio that is not the playing one, for instance a paused audio seeked to its very end | `MultitrackPlayer.NextSongOrMediaPlayer` (counterexample `MultitrackPlayer.EndedOnPausedWidgetBreaksExclusion`) | `MultitrackPlayer.NextSongOrMediaPlayerExclusive` |
