/**
 * The values both player builds compute for display: the `MM:SS` time marker,
 * the clamped progress-bar percentage and the title taken from a track's URL.
 * Rendering itself (innerHTML, style widths, markup) is not modelled; these
 * functions produce the values that get rendered.
 */
module Display {

  // ---------------------------------------------------------------------------
  // Decimal digits
  // ---------------------------------------------------------------------------

  predicate IsDigit(c: char) {
    '0' <= c <= '9'
  }

  predicate AllDigits(s: string) {
    forall k :: 0 <= k < |s| ==> IsDigit(s[k])
  }

  function DigitChar(d: nat): (c: char)
    requires d < 10
    ensures IsDigit(c) && c as int - '0' as int == d
  {
    ('0' as int + d) as char
  }

  /** The number a string of decimal digits denotes; leading zeros are allowed. */
  function DigitsValue(s: string): nat
    requires AllDigits(s)
  {
    if s == [] then 0 else 10 * DigitsValue(s[..|s| - 1]) + (s[|s| - 1] as int - '0' as int)
  }

  /** `Number.prototype.toString()` of a non-negative integer: its shortest decimal spelling. */
  function Decimal(n: nat): (r: string)
    ensures 1 <= |r| && AllDigits(r)
    ensures DigitsValue(r) == n
    ensures |r| > 1 ==> r[0] != '0'
    ensures n < 10 ==> |r| == 1
    ensures n < 100 ==> |r| <= 2
  {
    if n < 10 then
      [DigitChar(n)]
    else
      var prefix := Decimal(n / 10);
      var r := prefix + [DigitChar(n % 10)];
      assert r[..|r| - 1] == prefix;
      assert |prefix| == 1 ==> DigitsValue(prefix) == prefix[0] as int - '0' as int by {
        if |prefix| == 1 {
          assert prefix[..0] == [];
        }
      }
      r
  }

  /** `String.prototype.padStart(width, '0')`. */
  function PadStart(s: string, width: nat): (r: string)
    ensures |r| == if |s| < width then width else |s|
    ensures r[|r| - |s|..] == s
    ensures forall k :: 0 <= k < |r| - |s| ==> r[k] == '0'
  {
    if |s| < width then seq(width - |s|, _ => '0') + s else s
  }

  lemma {:induction false} ZerosValue(z: string)
    requires forall k :: 0 <= k < |z| ==> z[k] == '0'
    ensures AllDigits(z) && DigitsValue(z) == 0
    decreases |z|
  {
    if z != [] {
      ZerosValue(z[..|z| - 1]);
    }
  }

  /** Leading zeros do not change the value of a digit string. */
  lemma {:induction false} LeadingZerosValue(z: string, s: string)
    requires forall k :: 0 <= k < |z| ==> z[k] == '0'
    requires AllDigits(s)
    ensures AllDigits(z + s) && DigitsValue(z + s) == DigitsValue(s)
    decreases |s|
  {
    if s == [] {
      assert z + s == z;
      ZerosValue(z);
    } else {
      var init := s[..|s| - 1];
      LeadingZerosValue(z, init);
      assert (z + s)[..|z + s| - 1] == z + init;
    }
  }

  /** Padding with zeros keeps a digit string's value: `padStart` only changes the spelling. */
  lemma PadStartKeepsValue(s: string, width: nat)
    requires AllDigits(s)
    ensures AllDigits(PadStart(s, width))
    ensures DigitsValue(PadStart(s, width)) == DigitsValue(s)
  {
    var r := PadStart(s, width);
    var z := r[..|r| - |s|];
    assert r == z + s;
    LeadingZerosValue(z, s);
  }

  // ---------------------------------------------------------------------------
  // The MM:SS time marker
  // ---------------------------------------------------------------------------

  /**
   * The shape of a marker: minute digits (at least two, no zero beyond the
   * padding), a colon, and exactly two second digits reading below 60.
   */
  predicate IsMarker(r: string) {
    && |r| >= 5
    && r[|r| - 3] == ':'
    && AllDigits(r[..|r| - 3])
    && AllDigits(r[|r| - 2..])
    && DigitsValue(r[|r| - 2..]) < 60
    && (|r| > 5 ==> r[0] != '0')
  }

  function MarkerMinutes(r: string): nat
    requires IsMarker(r)
  {
    DigitsValue(r[..|r| - 3])
  }

  function MarkerSeconds(r: string): nat
    requires IsMarker(r)
  {
    DigitsValue(r[|r| - 2..])
  }

  /** `n.toString().padStart(2, '0')`: at least two digits reading as `n`, exactly two below 100. */
  function TwoDigits(n: nat): (s: string)
    ensures |s| >= 2 && AllDigits(s) && DigitsValue(s) == n
    ensures |s| > 2 ==> s[0] != '0'
    ensures n < 100 ==> |s| == 2
  {
    PadStartKeepsValue(Decimal(n), 2);
    PadStart(Decimal(n), 2)
  }

  /** Joining two padded numbers with a colon gives a marker that reads them back. */
  lemma MarkerOfFields(mm: string, ss: string)
    requires |mm| >= 2 && AllDigits(mm) && (|mm| > 2 ==> mm[0] != '0')
    requires |ss| == 2 && AllDigits(ss) && DigitsValue(ss) < 60
    ensures IsMarker(mm + ":" + ss)
    ensures MarkerMinutes(mm + ":" + ss) == DigitsValue(mm)
    ensures MarkerSeconds(mm + ":" + ss) == DigitsValue(ss)
  {
    var r := mm + ":" + ss;
    var head := r[..|r| - 3];
    var tail := r[|r| - 2..];
    assert head == mm;
    assert tail == ss;
    assert r[|r| - 3] == ':';
    assert |r| > 5 ==> r[0] == mm[0];
  }

  /** The marker text for a whole number of minutes and a second count below a minute. */
  function Clock(minutes: nat, seconds: nat): (r: string)
    requires seconds < 60
    ensures IsMarker(r)
    ensures MarkerMinutes(r) == minutes && MarkerSeconds(r) == seconds
  {
    var mm := TwoDigits(minutes);
    var ss := TwoDigits(seconds);
    MarkerOfFields(mm, ss);
    mm + ":" + ss
  }

  /**
   * `Math.floor(t / 60)` and `Math.floor(t % 60)` for a non-negative time: the
   * first is the number of whole minutes, the second the leftover whole seconds.
   * JavaScript's `%` on a non-negative operand is `t - 60 * floor(t / 60)`.
   */
  lemma WholeMinutes(t: real)
    requires 0.0 <= t
    ensures 0 <= (t / 60.0).Floor
    ensures 0 <= (t - 60.0 * (t / 60.0).Floor as real).Floor < 60
    ensures 60 * (t / 60.0).Floor + (t - 60.0 * (t / 60.0).Floor as real).Floor == t.Floor
  {
    var m := (t / 60.0).Floor;
    assert m as real <= t / 60.0 < m as real + 1.0;
    var rest := t - 60.0 * m as real;
    assert 0.0 <= rest < 60.0;
    var s := rest.Floor;
    assert s as real <= rest < s as real + 1.0;
    assert (60 * m + s) as real <= t < (60 * m + s) as real + 1.0;
  }

  /** `updateTimeMarker`'s text for a playhead or duration of `t` seconds. */
  function TimeMarker(t: real): (r: string)
    requires 0.0 <= t
    ensures IsMarker(r)
    ensures 60 * MarkerMinutes(r) + MarkerSeconds(r) == t.Floor
  {
    WholeMinutes(t);
    var minutes := (t / 60.0).Floor;
    var seconds := (t - 60.0 * minutes as real).Floor;
    Clock(minutes, seconds)
  }

  /** The marker only depends on the whole seconds elapsed, and tells them apart. */
  lemma MarkerDependsOnWholeSeconds(a: real, b: real)
    requires 0.0 <= a && 0.0 <= b
    ensures TimeMarker(a) == TimeMarker(b) <==> a.Floor == b.Floor
  {
    if a.Floor == b.Floor {
      WholeMinutes(a);
      WholeMinutes(b);
      var ma := (a / 60.0).Floor;
      var mb := (b / 60.0).Floor;
      DivisionIsUnique(a.Floor, ma, a.Floor - 60 * ma);
      DivisionIsUnique(b.Floor, mb, b.Floor - 60 * mb);
      assert ma == mb;
    }
  }

  lemma DivisionIsUnique(n: int, m: int, s: int)
    requires 0 <= s < 60 && 60 * m + s == n
    ensures m == n / 60 && s == n % 60
  {
  }

  // ---------------------------------------------------------------------------
  // The progress-bar percentage
  // ---------------------------------------------------------------------------

  /** The `if (percent > 100)` cap of `updateProgressBar`. */
  function ClampPercent(percent: real): (r: real)
    ensures r <= 100.0
    ensures percent <= 100.0 ==> r == percent
    ensures 100.0 < percent ==> r == 100.0
  {
    if percent > 100.0 then 100.0 else percent
  }

  /** The percentage of the track played, `currentTime / duration * 100`, capped at 100. */
  function ProgressPercent(playhead: real, duration: real): (r: real)
    requires 0.0 < duration
    ensures r <= 100.0
    ensures 0.0 <= playhead ==> 0.0 <= r
    ensures playhead <= duration ==> r * duration == playhead * 100.0
    ensures duration <= playhead ==> r == 100.0
  {
    var raw := playhead / duration * 100.0;
    assert raw * duration == playhead * 100.0;
    assert duration <= playhead ==> 100.0 <= raw by {
      if duration <= playhead {
        assert playhead / duration >= 1.0;
      }
    }
    assert playhead <= duration ==> raw <= 100.0 by {
      if playhead <= duration {
        assert playhead / duration <= 1.0;
      }
    }
    ClampPercent(raw)
  }

  // ---------------------------------------------------------------------------
  // The title
  // ---------------------------------------------------------------------------

  /** `url.split("/").pop()`: the text after the last '/', or all of it. */
  function LastSegment(url: string): (r: string)
    ensures '/' !in r
    ensures |r| <= |url| && url[|url| - |r|..] == r
    ensures |r| < |url| ==> url[|url| - |r| - 1] == '/'
  {
    if url == [] then []
    else if url[|url| - 1] == '/' then []
    else
      var r := LastSegment(url[..|url| - 1]) + [url[|url| - 1]];
      assert url[|url| - |r|..] == url[..|url| - 1][|url| - |r|..] + [url[|url| - 1]];
      r
  }

  /**
   * Position `k` opens a trailing extension in the sense of `/\.[^/.]+$/`:
   * a '.' followed by at least one character, none of them '.' or '/'.
   */
  predicate ExtensionAt(s: string, k: int) {
    && 0 <= k
    && k + 1 < |s|
    && s[k] == '.'
    && forall j :: k < j < |s| ==> s[j] != '.' && s[j] != '/'
  }

  /** The length of the longest suffix that holds neither '.' nor '/'. */
  function TrailingRun(s: string): (n: nat)
    ensures n <= |s|
    ensures forall k :: |s| - n <= k < |s| ==> s[k] != '.' && s[k] != '/'
    ensures n < |s| ==> s[|s| - n - 1] == '.' || s[|s| - n - 1] == '/'
  {
    if s == [] || s[|s| - 1] == '.' || s[|s| - 1] == '/' then 0
    else TrailingRun(s[..|s| - 1]) + 1
  }

  /** `name.replace(/\.[^/.]+$/, "")`: drops one trailing `.ext`, if there is one. */
  function StripExtension(name: string): (r: string)
    ensures r <= name
    ensures forall k :: 0 <= k < |name| && ExtensionAt(name, k) ==> r == name[..k]
    ensures (forall k :: 0 <= k < |name| ==> !ExtensionAt(name, k)) ==> r == name
  {
    var n := TrailingRun(name);
    if 0 < n < |name| && name[|name| - n - 1] == '.' then
      assert ExtensionAt(name, |name| - n - 1);
      name[..|name| - n - 1]
    else
      name
  }

  /** The title shown for a track: its file name without the extension. */
  function Title(url: string): (r: string)
    ensures '/' !in r
    ensures var segment := LastSegment(url);
      && r <= segment
      && (forall k :: 0 <= k < |segment| && ExtensionAt(segment, k) ==> r == segment[..k])
      && ((forall k :: 0 <= k < |segment| ==> !ExtensionAt(segment, k)) ==> r == segment)
  {
    var segment := LastSegment(url);
    var r := StripExtension(segment);
    assert forall k :: 0 <= k < |r| ==> r[k] == segment[k];
    r
  }

  /** The segment after the last '/' of `dir + "/" + seg` is `seg`. */
  lemma LastSegmentOfPath(dir: string, seg: string)
    requires '/' !in seg
    ensures LastSegment(dir + "/" + seg) == seg
  {
    var url := dir + "/" + seg;
    var r := LastSegment(url);
    assert url[|url| - |seg| - 1] == '/';
    assert |r| == |seg|;
    assert url[|url| - |seg|..] == seg;
  }

  /** A file `base.ext` under any directory is titled `base`. */
  lemma TitleOfFile(dir: string, base: string, ext: string)
    requires '/' !in base
    requires ext != [] && '.' !in ext && '/' !in ext
    ensures Title(dir + "/" + base + "." + ext) == base
  {
    var seg := base + "." + ext;
    assert dir + "/" + base + "." + ext == dir + "/" + seg;
    LastSegmentOfPath(dir, seg);
    assert ExtensionAt(seg, |base|);
    assert seg[..|base|] == base;
  }

  /** A file name without any '.' is its own title. */
  lemma TitleWithoutExtension(dir: string, name: string)
    requires '/' !in name && '.' !in name
    ensures Title(dir + "/" + name) == name
  {
    LastSegmentOfPath(dir, name);
    forall k | 0 <= k < |name|
      ensures !ExtensionAt(name, k)
    {
      assert name[k] != '.';
    }
  }
}
