/**
 * The page-level playback controller of the single-track build
 * (theme/js/player.js). Each widget holds exactly one audio element; at the
 * end of a track a continuous widget always hands over to the next widget.
 */
module Player {
  import opened Wrappers
  import Display
  import Search

  /**
   * One `.media-player` element with its single `<audio>`. `id` stands for the
   * element's identity, `playing` for the `play` class, `continuous` for the
   * `continuous` class; `playhead` and `duration` are the audio's, in seconds.
   */
  datatype Widget = Widget(id: nat, playing: bool, continuous: bool, playhead: real, duration: real)

  type Page = seq<Widget>

  predicate ValidWidget(w: Widget) {
    0.0 < w.duration && 0.0 <= w.playhead <= w.duration
  }

  /** Every widget is a distinct element and well formed. */
  predicate ValidPage(p: Page) {
    && (forall a, b :: 0 <= a < |p| && 0 <= b < |p| && p[a].id == p[b].id ==> a == b)
    && (forall k :: 0 <= k < |p| ==> ValidWidget(p[k]))
  }

  /** The page-wide invariant: no two widgets carry the `play` class. */
  predicate AtMostOnePlaying(p: Page) {
    forall a, b :: 0 <= a < |p| && 0 <= b < |p| && p[a].playing && p[b].playing ==> a == b
  }

  predicate OnlyPlaying(p: Page, i: nat) {
    && i < |p|
    && p[i].playing
    && forall k :: 0 <= k < |p| && k != i ==> !p[k].playing
  }

  predicate NonePlaying(p: Page) {
    forall k :: 0 <= k < |p| ==> !p[k].playing
  }

  /** The two widgets agree on everything but the `play` class. */
  predicate SameButPlaying(a: Widget, b: Widget) {
    a.id == b.id && a.continuous == b.continuous && a.playhead == b.playhead && a.duration == b.duration
  }

  function Ids(p: Page): (ids: seq<nat>)
    ensures |ids| == |p|
    ensures forall k :: 0 <= k < |p| ==> ids[k] == p[k].id
  {
    seq(|p|, k requires 0 <= k < |p| => p[k].id)
  }

  // ---------------------------------------------------------------------------
  // Play and pause
  // ---------------------------------------------------------------------------

  /** `pauseAudio`: the widget loses the `play` class; its audio keeps its position. */
  function PauseAudio(w: Widget): (r: Widget)
    ensures !r.playing && SameButPlaying(r, w)
  {
    w.(playing := false)
  }

  /** `playAudio`: the widget gains the `play` class; its audio keeps its position. */
  function PlayAudio(w: Widget): (r: Widget)
    ensures r.playing && SameButPlaying(r, w)
  {
    w.(playing := true)
  }

  /** `pauseAll`: every widget paused, nothing else changed. */
  function PauseAll(p: Page): (r: Page)
    ensures |r| == |p| && NonePlaying(r)
    ensures forall k :: 0 <= k < |p| ==> SameButPlaying(r[k], p[k])
  {
    seq(|p|, k requires 0 <= k < |p| => PauseAudio(p[k]))
  }

  lemma PauseAllKeepsValidity(p: Page)
    requires ValidPage(p)
    ensures ValidPage(PauseAll(p)) && Ids(PauseAll(p)) == Ids(p)
  {
  }

  /** `playPause`: the click on the play button of the widget at position `i`. */
  function PlayPause(p: Page, i: nat): (r: Page)
    requires i < |p|
    ensures |r| == |p|
    ensures forall k :: 0 <= k < |p| ==> SameButPlaying(r[k], p[k])
    ensures p[i].playing ==> !r[i].playing && forall k :: 0 <= k < |p| && k != i ==> r[k] == p[k]
    ensures !p[i].playing ==> OnlyPlaying(r, i)
    ensures AtMostOnePlaying(p) ==> AtMostOnePlaying(r)
  {
    if p[i].playing then
      p[i := PauseAudio(p[i])]
    else
      var q := PauseAll(p);
      q[i := PlayAudio(q[i])]
  }

  // ---------------------------------------------------------------------------
  // Seeking
  // ---------------------------------------------------------------------------

  /** `setPlayerTime`: the playhead becomes the requested time, or the duration when the request reaches past it. */
  function SetPlayerTime(w: Widget, time: real): (r: Widget)
    ensures r.id == w.id && r.playing == w.playing && r.continuous == w.continuous
    ensures r.duration == w.duration
    ensures r.playhead <= r.duration
    ensures r.playhead == time || r.playhead == r.duration
    ensures time <= w.duration ==> r.playhead == time
    ensures ValidWidget(w) && 0.0 <= time ==> ValidWidget(r)
  {
    w.(playhead := if time < w.duration then time else w.duration)
  }

  /** `setProgress`: a click at `fraction` of the progress bar seeks the audio there. */
  function SetProgress(p: Page, i: nat, fraction: real): (r: Page)
    requires ValidPage(p) && i < |p|
    ensures |r| == |p| && Ids(r) == Ids(p)
    ensures forall k :: 0 <= k < |p| && k != i ==> r[k] == p[k]
    ensures r[i].id == p[i].id && r[i].playing == p[i].playing && r[i].continuous == p[i].continuous
    ensures r[i].duration == p[i].duration
    ensures r[i].playhead <= p[i].duration
    ensures fraction <= 1.0 ==> r[i].playhead == fraction * p[i].duration
    ensures 1.0 <= fraction ==> r[i].playhead == p[i].duration
    ensures 0.0 <= fraction ==> ValidPage(r)
    ensures AtMostOnePlaying(p) ==> AtMostOnePlaying(r)
  {
    var w := p[i];
    assert fraction <= 1.0 ==> fraction * w.duration <= w.duration;
    assert 1.0 <= fraction ==> w.duration <= fraction * w.duration;
    assert 0.0 <= fraction ==> 0.0 <= fraction * w.duration;
    p[i := SetPlayerTime(w, fraction * w.duration)]
  }

  // ---------------------------------------------------------------------------
  // Widgets within the page
  // ---------------------------------------------------------------------------

  /**
   * The position `navigateMediaPlayer` moves to: the widget's own position,
   * found by identity, plus `step`, when that lies on the page.
   */
  function TargetPosition(p: Page, id: nat, step: int): (t: Option<nat>)
    requires ValidPage(p)
    ensures t.Some? ==> t.value < |p|
    ensures forall k :: 0 <= k < |p| && p[k].id == id && 0 <= k + step < |p| ==> t == Some(k + step)
    ensures (forall k :: 0 <= k < |p| && p[k].id == id ==> k + step < 0 || |p| <= k + step) ==> t.None?
  {
    match Search.FirstIndex(Ids(p), id)
    case None => None
    case Some(k) =>
      assert p[k].id == id;
      if 0 <= k + step < |p| then Some(k + step) else None
  }

  /** Rewind the widget at `j` and play it, on a page where nothing plays. */
  function StartFromBeginning(q: Page, j: nat): (r: Page)
    requires ValidPage(q) && NonePlaying(q) && j < |q|
    ensures |r| == |q| && ValidPage(r) && Ids(r) == Ids(q)
    ensures OnlyPlaying(r, j) && r[j] == q[j].(playing := true, playhead := 0.0)
    ensures forall k :: 0 <= k < |q| && k != j ==> r[k] == q[k]
  {
    q[j := PlayAudio(SetPlayerTime(q[j], 0.0))]
  }

  /**
   * `navigateMediaPlayer`: find the widget by identity, pause everything, and
   * start the widget `step` positions further from the beginning, if there is
   * one there.
   */
  function NavigateMediaPlayer(p: Page, id: nat, step: int): (r: Page)
    requires ValidPage(p)
    ensures |r| == |p| && ValidPage(r) && Ids(r) == Ids(p)
    ensures AtMostOnePlaying(r)
    ensures forall k :: 0 <= k < |p| && !r[k].playing ==> SameButPlaying(r[k], p[k])
    ensures forall k :: 0 <= k < |p| && p[k].id == id && 0 <= k + step < |p| ==>
      OnlyPlaying(r, k + step) && r[k + step] == p[k + step].(playing := true, playhead := 0.0)
    ensures (forall k :: 0 <= k < |p| && p[k].id == id ==> k + step < 0 || |p| <= k + step) ==>
      NonePlaying(r)
  {
    var q := PauseAll(p);
    PauseAllKeepsValidity(p);
    match TargetPosition(p, id, step)
    case None => q
    case Some(j) => StartFromBeginning(q, j)
  }

  /**
   * `nextSong`: the handler of the audio's `ended` event. The widget is
   * paused; in continuous mode everything is paused and the next widget on
   * the page, if any, plays from the beginning.
   */
  function NextSong(p: Page, i: nat): (r: Page)
    requires ValidPage(p) && i < |p|
    ensures |r| == |p| && ValidPage(r) && Ids(r) == Ids(p)
    ensures !p[i].continuous ==>
      && !r[i].playing
      && SameButPlaying(r[i], p[i])
      && forall k :: 0 <= k < |p| && k != i ==> r[k] == p[k]
    ensures p[i].continuous ==>
      && (i + 1 < |p| ==> OnlyPlaying(r, i + 1) && r[i + 1] == p[i + 1].(playing := true, playhead := 0.0))
      && (i + 1 == |p| ==> NonePlaying(r))
      && (forall k :: 0 <= k < |p| && k != i + 1 ==> !r[k].playing && SameButPlaying(r[k], p[k]))
    ensures AtMostOnePlaying(p) ==> AtMostOnePlaying(r)
  {
    var q := p[i := PauseAudio(p[i])];
    assert Ids(q) == Ids(p);
    if p[i].continuous then NavigateMediaPlayer(q, q[i].id, 1) else q
  }

  // ---------------------------------------------------------------------------
  // Displayed values
  // ---------------------------------------------------------------------------

  /**
   * `updateProgressBar`: the width given, or when none is given the share of
   * the track played, capped at 100.
   */
  function UpdateProgressBar(w: Widget, percent: Option<real>): (r: real)
    requires ValidWidget(w)
    ensures r <= 100.0
    ensures percent.Some? && percent.value <= 100.0 ==> r == percent.value
    ensures percent.Some? && 100.0 < percent.value ==> r == 100.0
    ensures percent.None? ==> 0.0 <= r && r * w.duration == w.playhead * 100.0
  {
    match percent
    case Some(v) => Display.ClampPercent(v)
    case None => Display.ProgressPercent(w.playhead, w.duration)
  }

  /** `updateTimeMarker`: the `MM:SS` marker of the time given, or else of the playhead. */
  function UpdateTimeMarker(w: Widget, time: Option<real>): (r: string)
    requires ValidWidget(w)
    requires time.Some? ==> 0.0 <= time.value
    ensures Display.IsMarker(r)
    ensures time.Some? ==> 60 * Display.MarkerMinutes(r) + Display.MarkerSeconds(r) == time.value.Floor
    ensures time.None? ==> 60 * Display.MarkerMinutes(r) + Display.MarkerSeconds(r) == w.playhead.Floor
  {
    match time
    case Some(t) => Display.TimeMarker(t)
    case None => Display.TimeMarker(w.playhead)
  }

  // ---------------------------------------------------------------------------
  // Events
  // ---------------------------------------------------------------------------

  /** The events the script listens to that change the page; `timeupdate` only refreshes the display. */
  datatype Event =
    | PlayPauseClick(at: nat)
    | ProgressClick(at: nat, fraction: real)
    | Ended(at: nat)
    | Unload

  predicate Applicable(p: Page, e: Event) {
    match e
    case PlayPauseClick(i) => i < |p|
    case ProgressClick(i, f) => i < |p| && 0.0 <= f
    case Ended(i) => i < |p|
    case Unload => true
  }

  function Dispatch(p: Page, e: Event): (r: Page)
    requires ValidPage(p) && Applicable(p, e)
    ensures |r| == |p| && ValidPage(r)
    ensures AtMostOnePlaying(p) ==> AtMostOnePlaying(r)
    ensures e.Unload? ==> NonePlaying(r)
  {
    match e
    case PlayPauseClick(i) => PlayPause(p, i)
    case ProgressClick(i, f) => SetProgress(p, i, f)
    case Ended(i) => NextSong(p, i)
    case Unload => PauseAll(p)
  }

  /** Every event of the sequence can reach the page it is dispatched to. */
  predicate ValidRun(p: Page, events: seq<Event>)
    decreases |events|
  {
    && ValidPage(p)
    && (events != [] ==>
          Applicable(p, events[0]) && ValidRun(Dispatch(p, events[0]), events[1..]))
  }

  function Run(p: Page, events: seq<Event>): Page
    requires ValidRun(p, events)
    decreases |events|
  {
    if events == [] then p else Run(Dispatch(p, events[0]), events[1..])
  }

  /** After any sequence of events at most one widget plays. */
  lemma {:induction false} RunKeepsExclusion(p: Page, events: seq<Event>)
    requires ValidRun(p, events) && AtMostOnePlaying(p)
    ensures ValidPage(Run(p, events)) && AtMostOnePlaying(Run(p, events))
    decreases |events|
  {
    if events != [] {
      RunKeepsExclusion(Dispatch(p, events[0]), events[1..]);
    }
  }
}
