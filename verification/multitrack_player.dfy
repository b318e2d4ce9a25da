/**
 * The page-level playback controller of the multi-track build
 * (theme/js/multitrack_player.js), with the page abstracted to an ordered
 * sequence of widgets and every event handler a pure transition over it.
 */
module MultitrackPlayer {
  import opened Wrappers
  import Display
  import Search

  /** One `<audio>` element: its URL, playhead (`currentTime`) and `duration`, in seconds. */
  datatype Track = Track(src: string, playhead: real, duration: real)

  /**
   * One `.media-player` element. `id` stands for the element's identity (the
   * `===` comparison), `playing` for the `play` class, `continuous` for the
   * `continuous` class and `track` for `data-track`. The `data-track` and
   * `data-tracks` attributes exist exactly when the widget holds more than one
   * track; `data-tracks` is then `|tracks|`.
   */
  datatype Widget = Widget(id: nat, playing: bool, continuous: bool, track: nat, tracks: seq<Track>)

  /** A step through the tracks: a finite offset or `Number.POSITIVE_INFINITY`. */
  datatype Step = By(offset: int) | PlusInfinity

  type Page = seq<Widget>

  predicate HasTrackAttributes(w: Widget) {
    |w.tracks| > 1
  }

  predicate ValidTrack(t: Track) {
    0.0 < t.duration && 0.0 <= t.playhead <= t.duration
  }

  predicate ValidWidget(w: Widget) {
    && w.track < |w.tracks|
    && forall k :: 0 <= k < |w.tracks| ==> ValidTrack(w.tracks[k])
  }

  /** Every widget is a distinct element and well formed. */
  predicate ValidPage(p: Page) {
    && (forall a, b :: 0 <= a < |p| && 0 <= b < |p| && p[a].id == p[b].id ==> a == b)
    && (forall k :: 0 <= k < |p| ==> ValidWidget(p[k]))
  }

  /** The page-wide invariant: no two widgets carry the `play` class. */
  predicate AtMostOnePlaying(p: Page) {
    forall a, b :: 0 <= a < |p| && 0 <= b < |p| && p[a].playing && p[b].playing ==> a == b
  }

  predicate OnlyPlaying(p: Page, i: nat) {
    && i < |p|
    && p[i].playing
    && forall k :: 0 <= k < |p| && k != i ==> !p[k].playing
  }

  predicate NonePlaying(p: Page) {
    forall k :: 0 <= k < |p| ==> !p[k].playing
  }

  /** The two widgets agree on everything but the `play` class. */
  predicate SameButPlaying(a: Widget, b: Widget) {
    a.id == b.id && a.continuous == b.continuous && a.track == b.track && a.tracks == b.tracks
  }

  /** The two pages hold as many widgets, and each widget as many tracks. */
  predicate SameShape(p: Page, q: Page) {
    && |p| == |q|
    && forall k :: 0 <= k < |p| ==> |p[k].tracks| == |q[k].tracks|
  }

  /**
   * Widget `a` is widget `b` moved to track `j` and rewound there: the id, the
   * `continuous` class and every other track are kept, and track `j` keeps its
   * URL and duration with its playhead at 0. The `play` class is not compared.
   */
  predicate SwitchedTo(a: Widget, b: Widget, j: nat) {
    && a.id == b.id
    && a.continuous == b.continuous
    && a.track == j
    && j < |b.tracks|
    && |a.tracks| == |b.tracks|
    && a.tracks[j] == b.tracks[j].(playhead := 0.0)
    && forall t :: 0 <= t < |b.tracks| && t != j ==> a.tracks[t] == b.tracks[t]
  }

  /** Widget `a` is widget `b` with at most the playhead of track `c` moved. */
  predicate SeekedOn(a: Widget, b: Widget, c: nat) {
    && c < |b.tracks|
    && |a.tracks| == |b.tracks|
    && a == b.(tracks := b.tracks[c := b.tracks[c].(playhead := a.tracks[c].playhead)])
  }

  function Ids(p: Page): (ids: seq<nat>)
    ensures |ids| == |p|
    ensures forall k :: 0 <= k < |p| ==> ids[k] == p[k].id
  {
    seq(|p|, k requires 0 <= k < |p| => p[k].id)
  }

  /**
   * `getCurrentTrack`: the audio at `data-track` when there are several,
   * otherwise the only one. A single-track widget never reads `data-track`.
   */
  function CurrentIndex(w: Widget): (c: nat)
    requires w.track < |w.tracks|
    ensures c < |w.tracks|
    ensures HasTrackAttributes(w) ==> c == w.track
    ensures !HasTrackAttributes(w) ==> c == 0
  {
    if HasTrackAttributes(w) then w.track else 0
  }

  /**
   * On a well-formed widget the current audio is always the one `data-track`
   * would name: a single-track widget's index can only be 0.
   */
  lemma CurrentIndexIsTrack(w: Widget)
    requires ValidWidget(w)
    ensures CurrentIndex(w) == w.track
  {
  }

  // ---------------------------------------------------------------------------
  // Play and pause
  // ---------------------------------------------------------------------------

  /** `pauseAudio`: the widget loses the `play` class; its tracks are untouched. */
  function PauseAudio(w: Widget): (r: Widget)
    ensures !r.playing && SameButPlaying(r, w)
  {
    w.(playing := false)
  }

  /** `playAudio`: the widget gains the `play` class; its tracks are untouched. */
  function PlayAudio(w: Widget): (r: Widget)
    ensures r.playing && SameButPlaying(r, w)
  {
    w.(playing := true)
  }

  /** `pauseAll`: every widget paused, nothing else changed. */
  function PauseAll(p: Page): (r: Page)
    ensures |r| == |p| && NonePlaying(r) && SameShape(p, r)
    ensures forall k :: 0 <= k < |p| ==> SameButPlaying(r[k], p[k])
  {
    seq(|p|, k requires 0 <= k < |p| => PauseAudio(p[k]))
  }

  lemma PauseAllKeepsValidity(p: Page)
    requires ValidPage(p)
    ensures ValidPage(PauseAll(p)) && Ids(PauseAll(p)) == Ids(p)
  {
  }

  /** `playPause`: the click on the play button of the widget at position `i`. */
  function PlayPause(p: Page, i: nat): (r: Page)
    requires i < |p|
    ensures |r| == |p| && SameShape(p, r)
    ensures forall k :: 0 <= k < |p| ==> SameButPlaying(r[k], p[k])
    ensures p[i].playing ==> !r[i].playing && forall k :: 0 <= k < |p| && k != i ==> r[k] == p[k]
    ensures !p[i].playing ==> OnlyPlaying(r, i)
    ensures AtMostOnePlaying(p) ==> AtMostOnePlaying(r)
  {
    if p[i].playing then
      p[i := PauseAudio(p[i])]
    else
      var q := PauseAll(p);
      q[i := PlayAudio(q[i])]
  }

  // ---------------------------------------------------------------------------
  // Tracks within a widget
  // ---------------------------------------------------------------------------

  /**
   * The bounded index arithmetic of `navigateTracks`: an index past the last
   * track snaps to 0 and one before the first snaps to the last. This is not a
   * modulo: only steps of one wrap around the way `%` would.
   */
  function WrapIndex(index: int, step: Step, count: nat): (r: nat)
    requires 1 <= count
    ensures r < count
    ensures step.By? && 0 <= index + step.offset < count ==> r == index + step.offset
    ensures step.PlusInfinity? || index + step.offset >= count ==> r == 0
    ensures step.By? && index + step.offset < 0 ==> r == count - 1
  {
    match step
    case PlusInfinity => 0
    case By(k) =>
      if index + k > count - 1 then 0
      else if index + k < 0 then count - 1
      else index + k
  }

  /** For steps of one from a valid index, the snapping agrees with `(index + step + count) % count`. */
  lemma WrapIsModuloForUnitSteps(index: nat, k: int, count: nat)
    requires index < count
    requires k == 1 || k == -1
    ensures WrapIndex(index, By(k), count) == (index + k + count) % count
  {
  }

  /** A larger step is not a modulo: 0 + 5 among 3 tracks snaps to 0 where `%` gives 2. */
  lemma WrapIsNotModulo()
    ensures WrapIndex(0, By(5), 3) == 0
    ensures (0 + 5 + 3) % 3 == 2
  {
  }

  /** The infinite step used to rewind a widget behaves as any finite step of at least `count`. */
  lemma InfinityIsAnyLongStep(index: nat, k: int, count: nat)
    requires 1 <= count && count <= k
    ensures WrapIndex(index, PlusInfinity, count) == WrapIndex(index, By(k), count) == 0
  {
  }

  /**
   * `setPlayerTime`: the current track's playhead becomes the requested time,
   * or the duration when the request reaches past it.
   */
  function SetPlayerTime(w: Widget, time: real): (r: Widget)
    requires ValidWidget(w)
    ensures r.id == w.id && r.playing == w.playing && r.continuous == w.continuous && r.track == w.track
    ensures |r.tracks| == |w.tracks|
    ensures forall k :: 0 <= k < |w.tracks| && k != CurrentIndex(w) ==> r.tracks[k] == w.tracks[k]
    ensures var c := CurrentIndex(w);
      && r.tracks[c].src == w.tracks[c].src
      && r.tracks[c].duration == w.tracks[c].duration
      && r.tracks[c].playhead <= r.tracks[c].duration
      && (r.tracks[c].playhead == time || r.tracks[c].playhead == r.tracks[c].duration)
      && (time <= w.tracks[c].duration ==> r.tracks[c].playhead == time)
      && (w.tracks[c].duration <= time ==> r.tracks[c].playhead == w.tracks[c].duration)
    ensures SeekedOn(r, w, CurrentIndex(w))
    ensures 0.0 <= time ==> ValidWidget(r)
  {
    var c := CurrentIndex(w);
    var t := w.tracks[c];
    var playhead := if time < t.duration then time else t.duration;
    w.(tracks := w.tracks[c := t.(playhead := playhead)])
  }

  /**
   * `navigateTracks`: move to another track, rewinding it, and keep playing
   * if and only if the widget was playing. For a single-track widget the
   * arithmetic works on `NaN` (no `data-track`), and the current track stays
   * the only one.
   */
  function NavigateTracks(w: Widget, step: Step): (r: Widget)
    requires ValidWidget(w)
    ensures ValidWidget(r)
    ensures r.id == w.id && r.playing == w.playing && r.continuous == w.continuous
    ensures |r.tracks| == |w.tracks|
    ensures HasTrackAttributes(w) ==> r.track == WrapIndex(w.track, step, |w.tracks|)
    ensures !HasTrackAttributes(w) ==> r.track == w.track
    ensures r.tracks[CurrentIndex(r)].playhead == 0.0
    ensures forall k :: 0 <= k < |w.tracks| && k != CurrentIndex(r) ==> r.tracks[k] == w.tracks[k]
    ensures forall k :: 0 <= k < |w.tracks| ==>
      r.tracks[k].src == w.tracks[k].src && r.tracks[k].duration == w.tracks[k].duration
    ensures SwitchedTo(r, w, r.track)
  {
    var index := if HasTrackAttributes(w) then WrapIndex(w.track, step, |w.tracks|) else w.track;
    var moved := PauseAudio(w).(track := index);
    var rewound := SetPlayerTime(moved, 0.0);
    if w.playing then PlayAudio(rewound) else rewound
  }

  /** `prevSong`: one track back, the first track wrapping to the last. */
  function PrevSong(p: Page, i: nat): (r: Page)
    requires ValidPage(p) && i < |p| && HasTrackAttributes(p[i])
    ensures |r| == |p| && ValidPage(r) && Ids(r) == Ids(p) && SameShape(p, r)
    ensures r[i].track == if p[i].track == 0 then |p[i].tracks| - 1 else p[i].track - 1
    ensures r[i].playing == p[i].playing && r[i].tracks[r[i].track].playhead == 0.0
    ensures SwitchedTo(r[i], p[i], r[i].track)
    ensures forall k :: 0 <= k < |p| && k != i ==> r[k] == p[k]
    ensures AtMostOnePlaying(p) ==> AtMostOnePlaying(r)
    ensures OnlyPlaying(p, i) ==> OnlyPlaying(r, i)
  {
    p[i := NavigateTracks(p[i], By(-1))]
  }

  /** `nextSong`: one track forward, the last track wrapping to the first. */
  function NextSong(p: Page, i: nat): (r: Page)
    requires ValidPage(p) && i < |p| && HasTrackAttributes(p[i])
    ensures |r| == |p| && ValidPage(r) && Ids(r) == Ids(p) && SameShape(p, r)
    ensures r[i].track == if p[i].track == |p[i].tracks| - 1 then 0 else p[i].track + 1
    ensures r[i].playing == p[i].playing && r[i].tracks[r[i].track].playhead == 0.0
    ensures SwitchedTo(r[i], p[i], r[i].track)
    ensures forall k :: 0 <= k < |p| && k != i ==> r[k] == p[k]
    ensures AtMostOnePlaying(p) ==> AtMostOnePlaying(r)
    ensures OnlyPlaying(p, i) ==> OnlyPlaying(r, i)
  {
    p[i := NavigateTracks(p[i], By(1))]
  }

  // ---------------------------------------------------------------------------
  // Widgets within the page
  // ---------------------------------------------------------------------------

  /**
   * The position `navigateMediaPlayer` moves to: the widget's own position,
   * found by identity, plus `step`, when that lies on the page.
   */
  function TargetPosition(p: Page, id: nat, step: int): (t: Option<nat>)
    requires ValidPage(p)
    ensures t.Some? ==> t.value < |p|
    ensures forall k :: 0 <= k < |p| && p[k].id == id && 0 <= k + step < |p| ==> t == Some(k + step)
    ensures (forall k :: 0 <= k < |p| && p[k].id == id ==> k + step < 0 || |p| <= k + step) ==> t.None?
  {
    match Search.FirstIndex(Ids(p), id)
    case None => None
    case Some(k) =>
      assert p[k].id == id;
      if 0 <= k + step < |p| then Some(k + step) else None
  }

  /** Rewind the widget at `j` to its first track and play it, on a page where nothing plays. */
  function StartFromFirstTrack(q: Page, j: nat): (r: Page)
    requires ValidPage(q) && NonePlaying(q) && j < |q|
    ensures |r| == |q| && ValidPage(r) && Ids(r) == Ids(q)
    ensures OnlyPlaying(r, j) && CurrentIndex(r[j]) == 0 && SwitchedTo(r[j], q[j], 0)
    ensures forall k :: 0 <= k < |q| && k != j ==> r[k] == q[k]
  {
    var w := NavigateTracks(q[j], PlusInfinity);
    q[j := PlayAudio(w)]
  }

  /** Pausing every widget and then starting the one at `j`, stated against the page before the pause. */
  lemma StartAfterPauseAll(p: Page, j: nat)
    requires ValidPage(p) && j < |p|
    ensures ValidPage(PauseAll(p)) && NonePlaying(PauseAll(p))
    ensures var r := StartFromFirstTrack(PauseAll(p), j);
      && |r| == |p| && ValidPage(r) && Ids(r) == Ids(p)
      && OnlyPlaying(r, j) && SwitchedTo(r[j], p[j], 0)
      && forall k :: 0 <= k < |p| && k != j ==> SameButPlaying(r[k], p[k])
  {
    PauseAllKeepsValidity(p);
  }

  /**
   * `navigateMediaPlayer`: find the widget by identity, pause everything, and
   * start the widget `step` positions further from its first track, if there
   * is one there.
   */
  function NavigateMediaPlayer(p: Page, id: nat, step: int): (r: Page)
    requires ValidPage(p)
    ensures |r| == |p| && ValidPage(r) && Ids(r) == Ids(p)
    ensures AtMostOnePlaying(r)
    ensures forall k :: 0 <= k < |p| && !r[k].playing ==> SameButPlaying(r[k], p[k])
    ensures forall k :: 0 <= k < |p| && p[k].id == id && 0 <= k + step < |p| ==>
      OnlyPlaying(r, k + step) && SwitchedTo(r[k + step], p[k + step], 0)
    ensures (forall k :: 0 <= k < |p| && p[k].id == id ==> k + step < 0 || |p| <= k + step) ==>
      NonePlaying(r)
  {
    PauseAllKeepsValidity(p);
    match TargetPosition(p, id, step)
    case None => PauseAll(p)
    case Some(j) =>
      StartAfterPauseAll(p, j);
      StartFromFirstTrack(PauseAll(p), j)
  }

  /** The first step of every track end: the widget whose track ended is paused. */
  function PauseEnded(p: Page, i: nat): (q: Page)
    requires ValidPage(p) && i < |p|
    ensures |q| == |p| && ValidPage(q) && Ids(q) == Ids(p)
    ensures !q[i].playing && SameButPlaying(q[i], p[i])
    ensures forall k :: 0 <= k < |p| && k != i ==> q[k] == p[k]
    ensures AtMostOnePlaying(p) ==> AtMostOnePlaying(q)
  {
    p[i := PauseAudio(p[i])]
  }

  /** A continuous widget that ended its last (or only) track hands over to the next widget. */
  function HandOver(q: Page, i: nat): (r: Page)
    requires ValidPage(q) && i < |q|
    ensures |r| == |q| && ValidPage(r) && Ids(r) == Ids(q)
    ensures AtMostOnePlaying(r)
    ensures i + 1 < |q| ==> OnlyPlaying(r, i + 1) && SwitchedTo(r[i + 1], q[i + 1], 0)
    ensures i + 1 == |q| ==> NonePlaying(r)
    ensures forall k :: 0 <= k < |q| && k != i + 1 ==> !r[k].playing && SameButPlaying(r[k], q[k])
  {
    NavigateMediaPlayer(q, q[i].id, 1)
  }

  /** The continuous widget moves on to its next track and plays it, as written: nothing else is paused. */
  function AdvanceTrack(q: Page, i: nat): (r: Page)
    requires ValidPage(q) && i < |q| && HasTrackAttributes(q[i]) && q[i].track < |q[i].tracks| - 1
    ensures |r| == |q| && ValidPage(r) && Ids(r) == Ids(q)
    ensures r[i].playing && SwitchedTo(r[i], q[i], q[i].track + 1)
    ensures forall k :: 0 <= k < |q| && k != i ==> r[k] == q[k]
  {
    q[i := PlayAudio(NavigateTracks(q[i], By(1)))]
  }

  /**
   * `nextSongOrMediaPlayer` as written: the handler of a track's `ended`
   * event. The widget is paused; in continuous mode the next track of the
   * widget plays, or, after its last track, the next widget on the page.
   * Moving to the next track does not pause the other widgets, so exclusion
   * can break when another widget is playing; it is kept when the widget whose
   * track ended was the one playing.
   */
  function NextSongOrMediaPlayer(p: Page, i: nat): (r: Page)
    requires ValidPage(p) && i < |p|
    ensures |r| == |p| && ValidPage(r) && Ids(r) == Ids(p)
    ensures AtMostOnePlaying(p) && p[i].playing ==> AtMostOnePlaying(r)
  {
    var q := PauseEnded(p, i);
    var w := q[i];
    if !w.continuous then
      q
    else if !HasTrackAttributes(w) || w.track >= |w.tracks| - 1 then
      HandOver(q, i)
    else
      AdvanceTrack(q, i)
  }

  /** Without `continuous`, a track end pauses the widget, keeps its track, and changes nothing else. */
  lemma EndedWithoutContinuous(p: Page, i: nat)
    requires ValidPage(p) && i < |p| && !p[i].continuous
    ensures var r := NextSongOrMediaPlayer(p, i);
      && !r[i].playing
      && SameButPlaying(r[i], p[i])
      && forall k :: 0 <= k < |p| && k != i ==> r[k] == p[k]
  {
  }

  /**
   * In continuous mode, before the last track, the same widget plays the next
   * track from the start; it is the only one playing if it was before.
   */
  lemma EndedBeforeLastTrack(p: Page, i: nat)
    requires ValidPage(p) && i < |p| && p[i].continuous
    requires HasTrackAttributes(p[i]) && p[i].track < |p[i].tracks| - 1
    ensures var r := NextSongOrMediaPlayer(p, i);
      && r[i].playing
      && SwitchedTo(r[i], p[i], p[i].track + 1)
      && (forall k :: 0 <= k < |p| && k != i ==> r[k] == p[k])
      && (AtMostOnePlaying(p) && p[i].playing ==> OnlyPlaying(r, i))
  {
  }

  /**
   * In continuous mode, after the last (or only) track, the next widget on the
   * page plays alone from its first track; after the last widget nothing plays.
   */
  lemma EndedOnLastTrack(p: Page, i: nat)
    requires ValidPage(p) && i < |p| && p[i].continuous
    requires !HasTrackAttributes(p[i]) || p[i].track == |p[i].tracks| - 1
    ensures var r := NextSongOrMediaPlayer(p, i);
      && (i + 1 < |p| ==> OnlyPlaying(r, i + 1) && SwitchedTo(r[i + 1], p[i + 1], 0))
      && (i + 1 == |p| ==> NonePlaying(r))
      && forall k :: 0 <= k < |p| && k != i + 1 ==> !r[k].playing && SameButPlaying(r[k], p[k])
  {
  }

  /** The continuous widget moves on to its next track after every widget has been paused. */
  function AdvanceTrackAlone(q: Page, i: nat): (r: Page)
    requires ValidPage(q) && i < |q| && HasTrackAttributes(q[i]) && q[i].track < |q[i].tracks| - 1
    ensures |r| == |q| && ValidPage(r) && Ids(r) == Ids(q)
    ensures OnlyPlaying(r, i) && SwitchedTo(r[i], q[i], q[i].track + 1)
    ensures forall k :: 0 <= k < |q| && k != i ==> SameButPlaying(r[k], q[k])
  {
    var paused := PauseAll(q);
    PauseAllKeepsValidity(q);
    AdvanceTrack(paused, i)
  }

  /**
   * The track-end handler with the mutual exclusion the rest of the controller
   * keeps: every widget is paused before the next track of this one plays.
   */
  function NextSongOrMediaPlayerExclusive(p: Page, i: nat): (r: Page)
    requires ValidPage(p) && i < |p|
    ensures |r| == |p| && ValidPage(r) && Ids(r) == Ids(p) && SameShape(p, r)
    ensures AtMostOnePlaying(p) ==> AtMostOnePlaying(r)
    ensures p[i].continuous && HasTrackAttributes(p[i]) && p[i].track < |p[i].tracks| - 1 ==>
      && OnlyPlaying(r, i)
      && SwitchedTo(r[i], p[i], p[i].track + 1)
      && forall k :: 0 <= k < |p| && k != i ==> SameButPlaying(r[k], p[k])
  {
    var q := PauseEnded(p, i);
    var w := q[i];
    if !w.continuous then
      q
    else if !HasTrackAttributes(w) || w.track >= |w.tracks| - 1 then
      HandOver(q, i)
    else
      AdvanceTrackAlone(q, i)
  }

  /** The exclusive handler differs from the one as written only when a widget moves on to its next track. */
  lemma ExclusiveDiffersOnlyBeforeLastTrack(p: Page, i: nat)
    requires ValidPage(p) && i < |p|
    requires !(p[i].continuous && HasTrackAttributes(p[i]) && p[i].track < |p[i].tracks| - 1)
    ensures NextSongOrMediaPlayerExclusive(p, i) == NextSongOrMediaPlayer(p, i)
  {
  }

  /**
   * A track of a paused, continuous, multi-track widget that ends while
   * another widget plays leaves two widgets playing.
   */
  lemma EndedOnPausedWidgetBreaksExclusion()
    ensures var p := [
        Widget(0, true, false, 0, [Track("a.mp3", 1.0, 2.0)]),
        Widget(1, false, true, 0, [Track("b.mp3", 2.0, 2.0), Track("c.mp3", 0.0, 3.0)])
      ];
      && ValidPage(p)
      && AtMostOnePlaying(p)
      && !AtMostOnePlaying(NextSongOrMediaPlayer(p, 1))
  {
    var p := [
      Widget(0, true, false, 0, [Track("a.mp3", 1.0, 2.0)]),
      Widget(1, false, true, 0, [Track("b.mp3", 2.0, 2.0), Track("c.mp3", 0.0, 3.0)])
    ];
    var r := NextSongOrMediaPlayer(p, 1);
    assert r[0].playing && r[1].playing;
  }

  /** When the ended track belongs to the playing widget, the two handlers agree. */
  lemma ExclusiveAgreesWhenEndedWidgetPlays(p: Page, i: nat)
    requires ValidPage(p) && i < |p|
    requires AtMostOnePlaying(p) && p[i].playing
    ensures NextSongOrMediaPlayerExclusive(p, i) == NextSongOrMediaPlayer(p, i)
  {
    var w := p[i];
    if w.continuous && HasTrackAttributes(w) && w.track < |w.tracks| - 1 {
      var q := p[i := PauseAudio(p[i])];
      assert PauseAll(q) == q;
    }
  }

  /** `setProgress`: a click at `fraction` of the progress bar seeks the current track there. */
  function SetProgress(p: Page, i: nat, fraction: real): (r: Page)
    requires ValidPage(p) && i < |p|
    ensures |r| == |p| && Ids(r) == Ids(p) && SameShape(p, r)
    ensures forall k :: 0 <= k < |p| && k != i ==> r[k] == p[k]
    ensures r[i].playing == p[i].playing && r[i].track == p[i].track
    ensures |r[i].tracks| == |p[i].tracks|
    ensures SeekedOn(r[i], p[i], CurrentIndex(p[i]))
    ensures var c := CurrentIndex(p[i]); var d := p[i].tracks[c].duration;
      && r[i].tracks[c].playhead <= d
      && (fraction <= 1.0 ==> r[i].tracks[c].playhead == fraction * d)
      && (1.0 <= fraction ==> r[i].tracks[c].playhead == d)
    ensures 0.0 <= fraction ==> ValidPage(r)
    ensures AtMostOnePlaying(p) ==> AtMostOnePlaying(r)
  {
    var w := p[i];
    var d := w.tracks[CurrentIndex(w)].duration;
    assert fraction <= 1.0 ==> fraction * d <= d;
    assert 1.0 <= fraction ==> d <= fraction * d;
    assert 0.0 <= fraction ==> 0.0 <= fraction * d;
    p[i := SetPlayerTime(w, fraction * d)]
  }

  /** The example of a seek to the middle of a 200-second track. */
  lemma SeekToMiddle()
    ensures var p := [Widget(7, false, false, 0, [Track("song.ogg", 30.0, 200.0)])];
      SetProgress(p, 0, 0.5)[0].tracks[0].playhead == 100.0
  {
  }

  // ---------------------------------------------------------------------------
  // Displayed values
  // ---------------------------------------------------------------------------

  /**
   * `updateProgressBar`: the width given, or when none is given the share of
   * the current track played, capped at 100.
   */
  function UpdateProgressBar(w: Widget, percent: Option<real>): (r: real)
    requires ValidWidget(w)
    ensures r <= 100.0
    ensures percent.Some? && percent.value <= 100.0 ==> r == percent.value
    ensures percent.Some? && 100.0 < percent.value ==> r == 100.0
    ensures percent.None? ==>
      var t := w.tracks[CurrentIndex(w)];
      0.0 <= r && r * t.duration == t.playhead * 100.0
  {
    match percent
    case Some(v) => Display.ClampPercent(v)
    case None =>
      var t := w.tracks[CurrentIndex(w)];
      Display.ProgressPercent(t.playhead, t.duration)
  }

  /** `updateTimeMarker`: the `MM:SS` marker of the time given, or else of the current playhead. */
  function UpdateTimeMarker(w: Widget, time: Option<real>): (r: string)
    requires ValidWidget(w)
    requires time.Some? ==> 0.0 <= time.value
    ensures Display.IsMarker(r)
    ensures time.Some? ==> 60 * Display.MarkerMinutes(r) + Display.MarkerSeconds(r) == time.value.Floor
    ensures time.None? ==>
      60 * Display.MarkerMinutes(r) + Display.MarkerSeconds(r) == w.tracks[CurrentIndex(w)].playhead.Floor
  {
    match time
    case Some(t) => Display.TimeMarker(t)
    case None => Display.TimeMarker(w.tracks[CurrentIndex(w)].playhead)
  }

  /** `updateTitle`: the current track's file name, without directory or extension. */
  function UpdateTitle(w: Widget): (r: string)
    requires ValidWidget(w)
    ensures '/' !in r
    ensures var segment := Display.LastSegment(w.tracks[CurrentIndex(w)].src);
      && r <= segment
      && (forall k :: 0 <= k < |segment| && Display.ExtensionAt(segment, k) ==> r == segment[..k])
      && ((forall k :: 0 <= k < |segment| ==> !Display.ExtensionAt(segment, k)) ==> r == segment)
  {
    Display.Title(w.tracks[CurrentIndex(w)].src)
  }

  // ---------------------------------------------------------------------------
  // Events
  // ---------------------------------------------------------------------------

  /**
   * The events the script listens to that change the page. `timeupdate` only
   * refreshes displayed values. `loadedmetadata` refreshes them too and sets
   * up the widget (its `data-track`/`data-tracks` attributes and the
   * previous/next listeners); a valid page stands for a widget already set up.
   */
  datatype Event =
    | PlayPauseClick(at: nat)
    | PrevClick(at: nat)
    | NextClick(at: nat)
    | ProgressClick(at: nat, fraction: real)
    | Ended(at: nat)
    | Unload

  /** The event can reach the page: its widget exists and has the buttons and click position it needs. */
  predicate Applicable(p: Page, e: Event) {
    match e
    case PlayPauseClick(i) => i < |p|
    case PrevClick(i) => i < |p| && HasTrackAttributes(p[i])
    case NextClick(i) => i < |p| && HasTrackAttributes(p[i])
    case ProgressClick(i, f) => i < |p| && 0.0 <= f
    case Ended(i) => i < |p|
    case Unload => true
  }

  /** Whether an event can reach a page depends only on the page's shape. */
  lemma SameShapeKeepsApplicable(p: Page, q: Page)
    requires SameShape(p, q)
    ensures forall e :: Applicable(p, e) ==> Applicable(q, e)
  {
  }

  /** The page after one event, with the track-end handler that keeps exclusion. */
  function Dispatch(p: Page, e: Event): (r: Page)
    requires ValidPage(p) && Applicable(p, e)
    ensures |r| == |p| && ValidPage(r)
    ensures SameShape(p, r) && forall f :: Applicable(p, f) ==> Applicable(r, f)
    ensures AtMostOnePlaying(p) ==> AtMostOnePlaying(r)
    ensures e.Unload? ==> NonePlaying(r)
  {
    var r :=
      match e
      case PlayPauseClick(i) => PlayPause(p, i)
      case PrevClick(i) => PrevSong(p, i)
      case NextClick(i) => NextSong(p, i)
      case ProgressClick(i, f) => SetProgress(p, i, f)
      case Ended(i) => NextSongOrMediaPlayerExclusive(p, i)
      case Unload => PauseAll(p);
    SameShapeKeepsApplicable(p, r);
    r
  }

  /**
   * Every event of the sequence can reach the page. No event adds or removes
   * widgets or tracks, so an event that can reach the page at the start can
   * still reach it when its turn comes.
   */
  predicate ValidRun(p: Page, events: seq<Event>) {
    && ValidPage(p)
    && forall k :: 0 <= k < |events| ==> Applicable(p, events[k])
  }

  function Run(p: Page, events: seq<Event>): Page
    requires ValidRun(p, events)
    decreases |events|
  {
    if events == [] then p else Run(Dispatch(p, events[0]), events[1..])
  }

  /** After any sequence of events, with the corrected track-end handler, at most one widget plays. */
  lemma {:induction false} RunKeepsExclusion(p: Page, events: seq<Event>)
    requires ValidRun(p, events) && AtMostOnePlaying(p)
    ensures ValidPage(Run(p, events)) && AtMostOnePlaying(Run(p, events))
    decreases |events|
  {
    if events != [] {
      RunKeepsExclusion(Dispatch(p, events[0]), events[1..]);
    }
  }
}
