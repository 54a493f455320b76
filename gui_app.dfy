/** The GUI front end: the bitrate field's validation, and the start/stop
    guard of AppState with the controls it enables. The window's texts and
    check box are fields the user sets; the worker thread is a flag saying
    whether there is a thread to join. */
module GuiApp {
  import opened Common
  import opened Paths
  import opened RecordingUtils
  import opened CommandLine

  // ---------------------------------------------------------------------
  // GetBitrateFromEdit
  // ---------------------------------------------------------------------

  /** The number of leading decimal digits. */
  function DigitRun(s: string): (n: nat)
    ensures n <= |s| && AllDigits(s[..n])
    ensures n < |s| ==> !IsDigit(s[n])
  {
    if s == [] || !IsDigit(s[0]) then 0
    else
      var n := 1 + DigitRun(s[1..]);
      assert forall i :: 1 <= i < n ==> s[..n][i] == s[1..][..n - 1][i - 1];
      n
  }

  /** std::stoi without a check of where it stopped: white space, an
      optional sign and the longest run of digits, which must not be empty;
      whatever follows is ignored. A value outside int throws, as does text
      without digits. */
  function LeadingInt(text: string): (v: Option<int>)
    ensures v.Some? ==> IsInt32(v.value)
  {
    var rest := text[SpaceCount(text)..];
    var signed := |rest| > 0 && (rest[0] == '+' || rest[0] == '-');
    var digits := if signed then rest[1..] else rest;
    var n := DigitRun(digits);
    if n == 0 then None
    else
      var v := if signed && rest[0] == '-' then -(DigitsValue(digits[..n]) as int) else DigitsValue(digits[..n]) as int;
      if IsInt32(v) then Some(v) else None
  }

  /** Where the whole text is an integer, the leading integer is that
      integer; text with something after its digits has a leading integer
      that ParseInt refuses. */
  lemma LeadingIntExtendsWholeInt(text: string)
    ensures WholeInt(text).Some? ==> LeadingInt(text) == WholeInt(text)
    ensures LeadingInt(text).Some? && !IsDigit(text[|text| - 1]) ==> WholeInt(text).None?
  {
    var rest := text[SpaceCount(text)..];
    var signed := |rest| > 0 && (rest[0] == '+' || rest[0] == '-');
    var digits := if signed then rest[1..] else rest;
    if WholeInt(text).Some? {
      assert DigitRun(digits) == |digits|;
      assert digits[..|digits|] == digits;
    }
  }

  const MIN_BITRATE_KBPS: int := 32
  const MAX_BITRATE_KBPS: int := 320

  /** The bitrate in the edit box: the fallback when the text is empty or
      has no integer in front, otherwise that integer clamped to 32..320. */
  function GetBitrateFromEdit(text: string, fallback: int): (kbps: int)
    ensures kbps == fallback || MIN_BITRATE_KBPS <= kbps <= MAX_BITRATE_KBPS
    ensures text == [] || LeadingInt(text).None? ==> kbps == fallback
  {
    if text == [] then fallback
    else match LeadingInt(text) {
      case None => fallback
      case Some(v) => Clamp(v, MIN_BITRATE_KBPS, MAX_BITRATE_KBPS)
    }
  }

  /** The bitrate is the fallback exactly when there is no integer to read,
      and otherwise within 32..320 and equal to the integer when it is in
      range already. */
  lemma BitrateBounds(text: string, fallback: int)
    ensures text == [] || LeadingInt(text).None? ==> GetBitrateFromEdit(text, fallback) == fallback
    ensures text != [] && LeadingInt(text).Some? ==>
              var v := LeadingInt(text).value;
              var kbps := GetBitrateFromEdit(text, fallback);
              && MIN_BITRATE_KBPS <= kbps <= MAX_BITRATE_KBPS
              && (MIN_BITRATE_KBPS <= v <= MAX_BITRATE_KBPS ==> kbps == v)
              && (v < MIN_BITRATE_KBPS ==> kbps == MIN_BITRATE_KBPS)
              && (v > MAX_BITRATE_KBPS ==> kbps == MAX_BITRATE_KBPS)
  {
  }

  /** The digits the edit box starts with read as 192. */
  lemma InitialBitrate()
    ensures GetBitrateFromEdit("192", 192) == 192
  {
    assert Decimal(192) == "192";
    WholeIntOfDecimal(192);
    LeadingIntExtendsWholeInt("192");
  }

  // ---------------------------------------------------------------------
  // AppState
  // ---------------------------------------------------------------------

  /** What StartRecording hands to the worker thread. */
  datatype RecordingJob = RecordingJob(outputPath: Path, mp3Enabled: bool, bitrateKbps: int)

  function DesiredExtension(mp3Enabled: bool): string
  {
    if mp3Enabled then ".mp3" else ".wav"
  }

  /** The output path for a text in the output box: the text read as a
      path, with the extension the check box asks for. A path with a file
      name then has that extension, up to case. */
  function OutputPathFor(pathOf: string -> Path, text: string, mp3Enabled: bool): (p: Path)
    ensures p == EnsureExtension(pathOf(text), DesiredExtension(mp3Enabled))
    ensures pathOf(text).name != [] ==> Lower(Extension(p.name)) == Lower(DesiredExtension(mp3Enabled))
  {
    if pathOf(text).name != [] then
      EnsureExtensionResult(pathOf(text), DesiredExtension(mp3Enabled));
      EnsureExtension(pathOf(text), DesiredExtension(mp3Enabled))
    else
      EnsureExtension(pathOf(text), DesiredExtension(mp3Enabled))
  }

  class AppState {
    var running: bool
    var stopRequested: bool
    var defaultBitrate: int
    /** A started worker thread that has not been joined. */
    var workerJoinable: bool
    /** The texts of the output and bitrate edit boxes, and the MP3 check
        box. */
    var outputText: string
    var bitrateText: string
    var mp3Checked: bool
    /** Whether each control accepts input. */
    var startEnabled: bool
    var stopEnabled: bool
    var outputEnabled: bool
    var mp3CheckEnabled: bool
    var bitrateEnabled: bool
    /** The lines the UI appends to its log box. */
    var log: seq<string>

    /** A stop is requested only while running, there is a worker to join
        exactly while running, Start is enabled exactly when not running,
        Stop exactly when running, and the settings only when not running. */
    ghost predicate Valid()
      reads this
    {
      && (stopRequested ==> running)
      && workerJoinable == running
      && ControlsMatch(running)
    }

    predicate ControlsMatch(running: bool)
      reads this
    {
      && startEnabled == !running && stopEnabled == running
      && outputEnabled == !running && mp3CheckEnabled == !running && bitrateEnabled == !running
    }

    /** The window as created: the output box holds `defaultPath`, the
        default output path, MP3 is checked, the bitrate is "192" and Stop
        is disabled. */
    constructor(defaultPath: string)
      ensures Valid() && !running && !stopRequested
      ensures defaultBitrate == 192 && bitrateText == "192" && mp3Checked && outputText == defaultPath
      ensures log == []
    {
      running, stopRequested, workerJoinable := false, false, false;
      defaultBitrate := 192;
      outputText, bitrateText, mp3Checked := defaultPath, "192", true;
      startEnabled, stopEnabled := true, false;
      outputEnabled, mp3CheckEnabled, bitrateEnabled := true, true, true;
      log := [];
    }

    /** EnableControlsForRun. */
    method EnableControlsForRun(running: bool)
      modifies this
      ensures ControlsMatch(running)
      ensures this.running == old(this.running) && stopRequested == old(stopRequested)
      ensures workerJoinable == old(workerJoinable) && log == old(log)
      ensures outputText == old(outputText) && bitrateText == old(bitrateText) && mp3Checked == old(mp3Checked)
      ensures defaultBitrate == old(defaultBitrate)
    {
      startEnabled := !running;
      stopEnabled := running;
      outputEnabled := !running;
      mp3CheckEnabled := !running;
      bitrateEnabled := !running;
    }

    /** StartRecording: nothing while running. Otherwise an empty output
        box is filled with the default path; the path gets the extension
        the check box asks for, and is written back to the box; the stop
        flag is cleared, the state is running and the worker starts with
        the path, the choice and the bitrate. `defaultPath` is
        DefaultOutputPath(), `pathOf` the reading of the box's text as a
        path and `textOf` the path's text. */
    method StartRecording(defaultPath: string, pathOf: string -> Path, textOf: Path -> string)
      returns (job: Option<RecordingJob>)
      requires Valid()
      modifies this
      ensures Valid()
      ensures bitrateText == old(bitrateText) && mp3Checked == old(mp3Checked)
      ensures defaultBitrate == old(defaultBitrate) && workerJoinable
      ensures old(running) ==> job.None? && running && stopRequested == old(stopRequested)
                               && outputText == old(outputText) && log == old(log)
      ensures !old(running) ==>
                var text := if old(outputText) == [] then defaultPath else old(outputText);
                && job.Some?
                && running && !stopRequested
                && job.value.mp3Enabled == old(mp3Checked)
                && job.value.outputPath == OutputPathFor(pathOf, text, old(mp3Checked))
                && job.value.bitrateKbps == GetBitrateFromEdit(old(bitrateText), old(defaultBitrate))
                && outputText == textOf(job.value.outputPath)
                && log == old(log) + ["[UI] Recording started."]
    {
      if running {
        return None;
      }
      var pathText := outputText;
      if pathText == [] {
        pathText := defaultPath;
        outputText := pathText;
      }
      var mp3Enabled := mp3Checked;
      var bitrate := GetBitrateFromEdit(bitrateText, defaultBitrate);
      var outputPath := OutputPathFor(pathOf, pathText, mp3Enabled);
      outputText := textOf(outputPath);
      stopRequested := false;
      running := true;
      EnableControlsForRun(true);
      log := log + ["[UI] Recording started."];
      workerJoinable := true;
      job := Some(RecordingJob(outputPath, mp3Enabled, bitrate));
    }

    /** StopRecording: nothing unless running; otherwise the stop flag is
        raised for the worker to see. */
    method StopRecording()
      requires Valid()
      modifies this
      ensures Valid()
      ensures running == old(running)
      ensures stopRequested == (old(stopRequested) || old(running))
      ensures log == old(log) + (if old(running) then ["[UI] Stop requested."] else [])
      ensures workerJoinable == old(workerJoinable) && outputText == old(outputText)
      ensures bitrateText == old(bitrateText) && mp3Checked == old(mp3Checked)
      ensures defaultBitrate == old(defaultBitrate)
    {
      if !running {
        return;
      }
      stopRequested := true;
      log := log + ["[UI] Stop requested."];
    }

    /** CleanupWorker: the worker joined, both flags cleared and the
        controls enabled for the next run. */
    method CleanupWorker()
      modifies this
      ensures Valid()
      ensures !running && !stopRequested && !workerJoinable
      ensures log == old(log) + ["[UI] Recording stopped."]
      ensures outputText == old(outputText) && bitrateText == old(bitrateText) && mp3Checked == old(mp3Checked)
      ensures defaultBitrate == old(defaultBitrate)
    {
      workerJoinable := false;
      running := false;
      stopRequested := false;
      EnableControlsForRun(false);
      log := log + ["[UI] Recording stopped."];
    }
  }

  /** A run: Start, Stop and the worker's end leave the window as it was
      before, apart from the output box and the log, and hand one job to
      the worker. */
  method StartStopCycle(app: AppState, defaultPath: string, pathOf: string -> Path, textOf: Path -> string)
    returns (job: Option<RecordingJob>)
    requires app.Valid() && !app.running
    modifies app
    ensures app.Valid() && !app.running && !app.stopRequested
    ensures job.Some?
    ensures app.bitrateText == old(app.bitrateText) && app.mp3Checked == old(app.mp3Checked)
    ensures app.defaultBitrate == old(app.defaultBitrate) && app.workerJoinable == old(app.workerJoinable)
    ensures app.startEnabled == old(app.startEnabled) && app.stopEnabled == old(app.stopEnabled)
    ensures app.outputEnabled == old(app.outputEnabled) && app.mp3CheckEnabled == old(app.mp3CheckEnabled)
    ensures app.bitrateEnabled == old(app.bitrateEnabled)
    ensures app.log == old(app.log) + ["[UI] Recording started.", "[UI] Stop requested.", "[UI] Recording stopped."]
  {
    job := app.StartRecording(defaultPath, pathOf, textOf);
    app.StopRecording();
    app.CleanupWorker();
  }
}
