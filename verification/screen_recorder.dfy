/** The screen recorder panel (`ScreenRecorder.tsx`): the elapsed-time
    display, the guards around stopping and saving a recording, the
    default test name, the video/screenshots tab and the generate button.
    The media streams, the timer and the download are left out: whether
    the screen was shared and the current ISO timestamp are parameters,
    and a recording is counted in chunks. */
module ScreenRecorder {
  import opened Wrappers
  import opened Strs

  datatype Mode = VideoMode | ScreenshotsMode

  datatype Notice = StartFailed | NoRecording | NoVideo

  datatype Panel = Panel(
    recording: bool,
    hasRecorder: bool,
    chunks: nat,
    seconds: nat,
    videoSaved: bool,
    savedFile: Option<string>,
    testName: string,
    mode: Mode,
    generatorOpen: bool,
    screenshotDialogOpen: bool,
    error: Option<Notice>)

  /** `formatTime`: minutes and seconds, each padded to two digits. */
  function FormatTime(seconds: nat): (r: string)
    ensures |r| >= 5 && r[|r| - 3] == ':'
    ensures forall i :: 0 <= i < |r| && i != |r| - 3 ==> IsDigit(r[i])
  {
    var secs := Pad2(seconds % 60);
    assert |secs| == 2 by { TwoDigits(seconds % 60); }
    Pad2(seconds / 60) + ":" + secs
  }

  /** Below 100 the padded number has exactly two digits. */
  lemma TwoDigits(n: nat)
    requires n < 100
    ensures |Pad2(n)| == 2
  {
    if n >= 10 {
      assert NatToString(n) == NatToString(n / 10) + [DigitChar(n % 10)];
    }
  }

  /** Reading the display back: minutes before the colon, seconds after. */
  function ParseTime(text: string): Option<nat> {
    var i := IndexOf(text, ':');
    if i < 0 then None
    else if (forall k :: 0 <= k < i ==> IsDigit(text[k])) && (forall k :: i < k < |text| ==> IsDigit(text[k])) then
      Some(60 * ParseDigits(text[..i]) + ParseDigits(text[i + 1..]))
    else None
  }

  /** The display loses nothing: it reads back as the elapsed seconds. */
  lemma TimeRoundTrip(seconds: nat)
    ensures ParseTime(FormatTime(seconds)) == Some(seconds)
  {
    var m := Pad2(seconds / 60);
    var s := Pad2(seconds % 60);
    var text := FormatTime(seconds);
    assert text == m + ":" + s;
    assert ':' !in m;
    assert text[..|m|] == m;
    assert IndexOf(text, ':') == |m|;
    assert text[|m| + 1..] == s;
  }

  /** `startRecording`: the chunks are cleared first; the rest only when
      the screen was shared. */
  function Start(p: Panel, shared: bool): (r: Panel)
    ensures r.chunks == 0
    ensures shared ==> r.recording && r.hasRecorder && r.seconds == 0 && r.error.None?
    ensures !shared ==> r == p.(chunks := 0, error := Some(StartFailed))
  {
    if shared then p.(chunks := 0, recording := true, hasRecorder := true, seconds := 0, error := None)
    else p.(chunks := 0, error := Some(StartFailed))
  }

  /** A second of the interval timer, while recording. */
  function Tick(p: Panel): (r: Panel)
    ensures r.seconds == if p.recording then p.seconds + 1 else p.seconds
  {
    if p.recording then p.(seconds := p.seconds + 1) else p
  }

  /** `ondataavailable`: only non-empty data is kept. */
  function DataAvailable(p: Panel, size: nat): (r: Panel)
    ensures r.chunks == if size > 0 then p.chunks + 1 else p.chunks
  {
    if size > 0 then p.(chunks := p.chunks + 1) else p
  }

  /** `stopRecording` and the recorder's `onstop`: an effect only when a
      recorder exists and is recording. */
  function Stop(p: Panel): (r: Panel)
    ensures p.hasRecorder && p.recording ==> r == p.(recording := false)
    ensures !(p.hasRecorder && p.recording) ==> r == p
  {
    if p.hasRecorder && p.recording then p.(recording := false) else p
  }

  /** Stopping twice is stopping once, and a stopped panel no longer
      counts time. */
  lemma StopIdempotent(p: Panel)
    ensures Stop(Stop(p)) == Stop(p)
    ensures Tick(Stop(p)) == Stop(p) || !p.hasRecorder
  {
  }

  /** `toISOString().replace(/[:.]/g, '-')`. */
  function Stamp(iso: string): (r: string)
    ensures |r| == |iso| && ':' !in r && '.' !in r
  {
    ReplaceChar(ReplaceChar(iso, ':', '-'), '.', '-')
  }

  /** The name given to an unnamed test: `Test_` and the date part of the
      timestamp. */
  function DefaultName(iso: string): (r: string)
    ensures |r| == 5 + (if |iso| < 10 then |iso| else 10) && r[..5] == "Test_"
  {
    "Test_" + (if |iso| < 10 then iso else iso[..10])
  }

  /** `saveRecording`: no chunks is an error; otherwise the video is kept,
      a file named after the timestamp is saved, and a test name is filled
      in only if there was none. */
  function SaveRecording(p: Panel, iso: string): (r: Panel)
    ensures p.chunks == 0 ==> r == p.(error := Some(NoRecording))
    ensures p.chunks > 0 ==> r.videoSaved && r.savedFile == Some("screen-recording-" + Stamp(iso) + ".webm")
    ensures p.chunks > 0 ==> r.testName == if p.testName == "" then DefaultName(iso) else p.testName
  {
    if p.chunks == 0 then p.(error := Some(NoRecording))
    else
      p.(videoSaved := true, savedFile := Some("screen-recording-" + Stamp(iso) + ".webm"),
         testName := if p.testName == "" then DefaultName(iso) else p.testName)
  }

  /** Saving never replaces a name the user typed, and after a save the
      name is never empty. */
  lemma SaveKeepsName(p: Panel, iso: string)
    requires p.chunks > 0
    ensures p.testName != "" ==> SaveRecording(p, iso).testName == p.testName
    ensures SaveRecording(p, iso).testName != ""
  {
    var n := SaveRecording(p, iso).testName;
    if p.testName == "" {
      assert n[..5] == "Test_";
    }
  }

  /** `handleTabChange`: tab 0 is video, any other tab screenshots. */
  function ChangeTab(p: Panel, tab: int): (r: Panel)
    ensures r.mode == VideoMode <==> tab == 0
    ensures r == p.(mode := r.mode)
  {
    p.(mode := if tab == 0 then VideoMode else ScreenshotsMode)
  }

  /** `handleGenerateTest`: in video mode the generator opens only for a
      saved video; in screenshots mode the wizard always opens. */
  function GenerateTest(p: Panel): (r: Panel)
    ensures p.mode == VideoMode && p.videoSaved ==> r == p.(generatorOpen := true)
    ensures p.mode == VideoMode && !p.videoSaved ==> r == p.(error := Some(NoVideo))
    ensures p.mode == ScreenshotsMode ==> r == p.(screenshotDialogOpen := true)
  {
    match p.mode
    case VideoMode => if p.videoSaved then p.(generatorOpen := true) else p.(error := Some(NoVideo))
    case ScreenshotsMode => p.(screenshotDialogOpen := true)
  }
}
