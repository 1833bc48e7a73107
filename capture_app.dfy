/**
 * The windowed capture application: a node-number field, a save folder, a
 * monitor choice and an upload switch, a manual capture button, a capture
 * loop that can be started and stopped, and a status console. Saving is the
 * same run as the command-line capture except that the full screenshot is
 * written directly in the timestamp folder (while its object key still
 * names a `main` folder), the tile uploads are queued on a thread pool and
 * awaited after the tiles are written, and every failure ends up as a
 * status line rather than an error dialog.
 */
module CaptureApp {
  import opened Wrappers
  import opened Raster
  import opened Grid
  import opened Numerals
  import opened Naming
  import opened Artifacts
  import Capture

  /**
   * The main capture as the application saves it:
   * `save_dir/node/timestamp/{node}_{timestamp}_{id}.png`, with no `main`
   * folder, but uploaded under `node/timestamp/main/{file name}` all the same.
   */
  function AppMainArtifact(saveDir: string, nodeName: string, timestamp: string, id: string, shot: Image): Artifact
  {
    var fileName := MainFileName(nodeName, timestamp, id);
    Artifact([saveDir, nodeName, timestamp, fileName], MainKey(nodeName, timestamp, fileName), shot)
  }

  /** The ten artifacts of one save in the order they are produced: main, then tiles 1..9. */
  function AppRunArtifacts(saveDir: string, nodeName: string, timestamp: string, ids: seq<string>, shot: Image): (arts: seq<Artifact>)
    requires ValidIds(ids)
    ensures |arts| == 10
  {
    [AppMainArtifact(saveDir, nodeName, timestamp, ids[0], shot)] +
    Tiles(saveDir, nodeName, timestamp, ids, shot)
  }

  /** The artifacts a save writes, in order: as many of the run's as `WrittenCount` says. */
  function AppWritten(saveDir: string, nodeName: string, timestamp: string, ids: seq<string>, shot: Image): (arts: seq<Artifact>)
    requires ValidIds(ids)
    ensures |arts| == WrittenCount(shot)
  {
    AppRunArtifacts(saveDir, nodeName, timestamp, ids, shot)[..WrittenCount(shot)]
  }

  /** Why `save_and_upload` reports an error. */
  datatype SaveError =
    | NodeNumberNotInteger   // `int()` of the node-number field raised
    | EmptyImage             // `cv2.imwrite` raised on an image without pixels

  /** The lines the status console shows. */
  datatype Status =
    | CapturingScreen
    | CaptureSucceeded
    | CaptureRaised(error: Capture.CaptureError)
    | SavingMain
    | UploadingMain
    | GeneratingTiles
    | SaveCompleted
    | SaveRaised(reason: SaveError)
    | LoopCapturing
    | LoopStopped

  /**
   * What one round of the capture loop sees: the monitors' frames, the
   * clock, the ten ids drawn, the paths that cannot be written, what
   * `loop_interval.get()` reads after the capture (`None` when the read
   * raises: text that is neither an integer nor a decimal number; decimal
   * text reads as its value truncated toward zero), and whether "stop" is
   * pressed while the loop sleeps after this round.
   */
  datatype Tick = Tick(monitors: seq<Image>, now: Clock, ids: seq<string>, unwritable: set<Path>,
                       interval: Option<int>, stopRequested: bool)

  predicate ValidTicks(ticks: seq<Tick>)
  {
    forall k | 0 <= k < |ticks| :: ValidIds(ticks[k].ids)
  }

  /**
   * The longest pause `time.sleep` accepts, in whole seconds, on CPython
   * 3.11 and later: it converts the seconds to nanoseconds in a signed
   * 64-bit integer, and raises `OverflowError` when 10^9 times the value
   * exceeds 2^63 - 1.
   */
  const MaxSleepSeconds: int := 9223372036

  /**
   * The interval read or `time.sleep` raises: the read fails (the field is
   * neither an integer nor a decimal number), or the value read is
   * negative or too large to sleep. The exception ends the
   * loop's thread on the spot.
   */
  predicate SleepRaises(t: Tick)
  {
    t.interval.None? || t.interval.value < 0 || t.interval.value > MaxSleepSeconds
  }

  /** The loop does not start another round after this one. */
  predicate EndsLoop(t: Tick)
  {
    SleepRaises(t) || t.stopRequested
  }

  /**
   * How many rounds the loop runs over `ticks` once started: up to and
   * including the first round whose sleep raises or after which "stop" is
   * pressed, or all of them.
   */
  function RoundsUntilStop(ticks: seq<Tick>): nat
  {
    if ticks == [] then 0
    else if EndsLoop(ticks[0]) then 1
    else 1 + RoundsUntilStop(ticks[1..])
  }

  /** How often `s` occurs in `console`. */
  function Occurrences(console: seq<Status>, s: Status): (n: nat)
    ensures n <= |console|
  {
    if console == [] then 0
    else Occurrences(console[..|console| - 1], s) + (if console[|console| - 1] == s then 1 else 0)
  }

  /**
   * The statuses a save writes: the error alone when the node number is not
   * an integer; otherwise "saving main", then (after the main file is
   * written and when uploads are on) "uploading main", "generating tiles",
   * and "completed" when `cv2.imwrite` was called on all ten files without
   * raising (`done` counts those calls); an image without pixels stops the
   * run with an error status where `cv2.imwrite` raised. `done` is 0 only
   * for an image without pixels, which a capture never returns.
   */
  function SaveStatuses(nodeParsed: bool, done: nat, uploadEnabled: bool): seq<Status>
    requires done in {0, 1, 10}
  {
    if !nodeParsed then [SaveRaised(NodeNumberNotInteger)]
    else if done == 0 then [SavingMain, SaveRaised(EmptyImage)]
    else
      [SavingMain] + (if uploadEnabled then [UploadingMain] else []) + [GeneratingTiles] +
      [if done == 10 then SaveCompleted else SaveRaised(EmptyImage)]
  }

  /**
   * The statuses of a manual capture: "capturing", then either the capture's
   * error, or what the save writes followed by "capture completed", which
   * is reported whatever the save ended with.
   */
  function ManualStatuses(captured: Capture.Captured, nodeParsed: bool, uploadEnabled: bool): (st: seq<Status>)
    ensures |st| >= 2 && st[0] == CapturingScreen
    ensures st[|st| - 1] == CaptureSucceeded <==> captured.Screenshot?
    ensures LoopCapturing !in st
  {
    match captured
    case CaptureFailed(error) => [CapturingScreen, CaptureRaised(error)]
    case Screenshot(image) =>
      SaveReport(nodeParsed, WrittenCount(image), uploadEnabled);
      [CapturingScreen] + SaveStatuses(nodeParsed, WrittenCount(image), uploadEnabled) + [CaptureSucceeded]
  }

  /**
   * The tiling loop of `save_and_upload`: tiles 1..9 are cut and written
   * one after the other, and when uploads are on each tile's upload is
   * queued as a task. `cv2.imwrite` raises on the first tile when the tiles
   * are empty, before any task is queued.
   */
  method QueueStreams(saveDir: string, nodeName: string, timestamp: string, ids: seq<string>,
                      screenshot: Image, uploadEnabled: bool, disk: Disk, unwritable: set<Path>)
    returns (raised: bool, disk': Disk, tasks: seq<Upload>)
    requires ValidIds(ids)
    ensures var tiles := Tiles(saveDir, nodeName, timestamp, ids, screenshot);
      var n := if raised then 0 else 9;
      raised == (screenshot.height < 3 || screenshot.width < 3) &&
      disk' == WriteAll(disk, tiles[..n], unwritable) &&
      tasks == (if uploadEnabled then UploadsOf(tiles[..n]) else [])
    ensures !uploadEnabled ==> tasks == []
    ensures uploadEnabled && !raised ==> |tasks| == 9
  {
    ghost var tiles := Tiles(saveDir, nodeName, timestamp, ids, screenshot);
    disk', tasks := disk, [];
    for i := 1 to 10
      invariant i > 1 ==> screenshot.height >= 3 && screenshot.width >= 3
      invariant disk' == WriteAll(disk, tiles[..i - 1], unwritable)
      invariant tasks == (if uploadEnabled then UploadsOf(tiles[..i - 1]) else [])
    {
      raised, disk', tasks := WriteTile(saveDir, nodeName, timestamp, ids, i, screenshot, uploadEnabled,
                                    disk', unwritable, tasks);
      if raised {
        return;
      }
      WriteAllPrefix(disk, tiles, unwritable, i - 1);
      if uploadEnabled {
        UploadsOfPrefix(tiles, i - 1);
      }
    }
    assert tiles[..9] == tiles;
    raised := false;
  }

  /** The form fields a capture reads: node-number text, save folder, monitor and upload switch. */
  datatype Form = Form(nodeNumber: string, saveDir: string, selectedMonitor: int, uploadToS3: int)

  /**
   * What a manual capture does to the disk and the upload log: nothing when
   * the capture fails or the node number is not an integer; otherwise the
   * save's artifacts that `cv2.imwrite` is called on without raising are
   * written, and uploaded when uploads are on.
   */
  function ManualEffect(form: Form, monitors: seq<Image>, now: Clock, ids: seq<string>,
                        disk: Disk, unwritable: set<Path>, log: seq<Upload>): (Disk, seq<Upload>)
    requires ValidIds(ids)
  {
    var captured := Capture.CaptureMonitor(form.selectedMonitor, monitors);
    var node := ParseInt(form.nodeNumber);
    if captured.CaptureFailed? || node.None? then (disk, log)
    else
      var written := AppWritten(form.saveDir, NodeName(node.value), Timestamp(now), ids, captured.image);
      (WriteAll(disk, written, unwritable), log + (if form.uploadToS3 != 0 then UploadsOf(written) else []))
  }

  /**
   * The lines one round of the loop adds: "capturing in loop", the manual
   * capture's statuses, and "loop stopped" when "stop" is pressed during
   * the sleep (there is no sleep when it raises).
   */
  function RoundLines(form: Form, t: Tick): seq<Status>
  {
    [LoopCapturing] +
    ManualStatuses(Capture.CaptureMonitor(form.selectedMonitor, t.monitors),
                   ParseInt(form.nodeNumber).Some?, form.uploadToS3 != 0) +
    (if !SleepRaises(t) && t.stopRequested then [LoopStopped] else [])
  }

  /** The console lines, disk and log a loop leaves, and whether "stop" cleared its flags. */
  datatype LoopResult = LoopResult(console: seq<Status>, disk: Disk, log: seq<Upload>, stopped: bool)

  function Prepend(lines: seq<Status>, r: LoopResult): LoopResult
  {
    LoopResult(lines + r.console, r.disk, r.log, r.stopped)
  }

  /**
   * The capture loop, round by round, as a function of the form and the
   * rounds' inputs: each round captures, and the loop goes on unless the
   * sleep raised (flags stay set) or "stop" was pressed (flags cleared).
   */
  function LoopRun(form: Form, ticks: seq<Tick>, disk: Disk, log: seq<Upload>): LoopResult
    requires ValidTicks(ticks)
    decreases |ticks|
  {
    if ticks == [] then LoopResult([], disk, log, false)
    else
      var t := ticks[0];
      var (disk1, log1) := ManualEffect(form, t.monitors, t.now, t.ids, disk, t.unwritable, log);
      if EndsLoop(t) then LoopResult(RoundLines(form, t), disk1, log1, !SleepRaises(t))
      else Prepend(RoundLines(form, t), LoopRun(form, ticks[1..], disk1, log1))
  }

  /**
   * The application's state: the form's fields, the two loop flags and the
   * status console. `loopEnabled` and `isRunning` (the threading event) are
   * always set and cleared together.
   */
  class OrusApp {
    var nodeNumber: string
    var saveDir: string
    var selectedMonitor: int
    var uploadToS3: int
    var loopEnabled: bool
    var isRunning: bool
    var loopInterval: int
    var console: seq<Status>

    predicate Valid()
      reads this
    {
      loopEnabled == isRunning
    }

    /** The form fields as a capture reads them. */
    function Fields(): Form
      reads this
    {
      Form(nodeNumber, saveDir, selectedMonitor, uploadToS3)
    }

    /** The form's defaults: node "01", the working folder, monitor 1, uploads on, a 10 s interval. */
    constructor (workingDir: string)
      ensures Valid()
      ensures nodeNumber == "01" && saveDir == workingDir && selectedMonitor == 1 && uploadToS3 == 1
      ensures !loopEnabled && !isRunning && loopInterval == 10 && console == []
    {
      nodeNumber := "01";
      saveDir := workingDir;
      selectedMonitor := 1;
      uploadToS3 := 1;
      loopEnabled := false;
      isRunning := false;
      loopInterval := 10;
      console := [];
    }

    /** The "select folder" dialog: a non-empty choice replaces the save folder. */
    method SelectFolder(folder: string)
      modifies this`saveDir
      ensures saveDir == (if folder != [] then folder else old(saveDir))
    {
      if folder != [] {
        saveDir := folder;
      }
    }

    /**
     * `save_and_upload(screenshot)`. It never raises: a node number that is
     * not an integer or an image without pixels ends in an error status.
     * The files written are the first `WrittenCount` artifacts of the run;
     * the main upload happens right after the main file is written, the
     * queued tile uploads are all awaited afterwards.
     */
    method SaveAndUpload(screenshot: Image, now: Clock, ids: seq<string>,
                         disk: Disk, unwritable: set<Path>, log: seq<Upload>)
      returns (disk': Disk, log': seq<Upload>)
      requires ValidIds(ids)
      modifies this`console
      ensures console == old(console) + SaveStatuses(ParseInt(nodeNumber).Some?, WrittenCount(screenshot), uploadToS3 != 0)
      ensures ParseInt(nodeNumber).None? ==> disk' == disk && log' == log
      ensures ParseInt(nodeNumber).Some? ==>
        var written := AppWritten(saveDir, NodeName(ParseInt(nodeNumber).value), Timestamp(now), ids, screenshot);
        disk' == WriteAll(disk, written, unwritable) &&
        log' == log + (if uploadToS3 != 0 then UploadsOf(written) else [])
    {
      var timestamp := Timestamp(now);
      var nodeNumberValue := ParseInt(nodeNumber);
      if nodeNumberValue.None? {
        console := console + [SaveRaised(NodeNumberNotInteger)];
        return disk, log;
      }
      disk', log' := SaveNamed(NodeName(nodeNumberValue.value), timestamp, screenshot, ids, disk, unwritable, log);
    }

    /**
     * The part of `save_and_upload` after the node name and timestamp are
     * known: the main file, its upload when uploads are on, then the tiles
     * with their queued uploads, all awaited.
     */
    method SaveNamed(nodeName: string, timestamp: string, screenshot: Image, ids: seq<string>,
                     disk: Disk, unwritable: set<Path>, log: seq<Upload>)
      returns (disk': Disk, log': seq<Upload>)
      requires ValidIds(ids)
      modifies this`console
      ensures console == old(console) + SaveStatuses(true, WrittenCount(screenshot), uploadToS3 != 0)
      ensures var written := AppWritten(saveDir, nodeName, timestamp, ids, screenshot);
        disk' == WriteAll(disk, written, unwritable) &&
        log' == log + (if uploadToS3 != 0 then UploadsOf(written) else [])
    {
      var enabled := uploadToS3 != 0;
      ghost var main := AppMainArtifact(saveDir, nodeName, timestamp, ids[0], screenshot);
      ghost var tiles := Tiles(saveDir, nodeName, timestamp, ids, screenshot);
      assert AppRunArtifacts(saveDir, nodeName, timestamp, ids, screenshot) == [main] + tiles;
      ghost var before := console;
      var raised;
      raised, disk', log' := SaveMain(nodeName, timestamp, screenshot, ids[0], disk, unwritable, log);
      if raised {
        assert ([main] + tiles)[..0] == [];
        return;
      }
      ghost var middle := console;
      disk', log' := SaveTiles(nodeName, timestamp, screenshot, ids, disk', unwritable, log');
      ghost var n := if screenshot.height < 3 || screenshot.width < 3 then 0 else 9;
      ghost var last := if n == 9 then SaveCompleted else SaveRaised(EmptyImage);
      ghost var mainLines := [SavingMain] + (if enabled then [UploadingMain] else []);
      AppendAssoc(before, mainLines, [GeneratingTiles, last]);
      assert WrittenCount(screenshot) == n + 1;
      assert mainLines + [GeneratingTiles, last] == SaveStatuses(true, WrittenCount(screenshot), enabled);
      Capture.SavedAfterMain(disk, main, tiles, n, unwritable, log, enabled);
    }

    /**
     * The main file of `save_and_upload`: "saving main", the write, which
     * raises on an image without pixels, then "uploading main" and the
     * upload when uploads are on.
     */
    method SaveMain(nodeName: string, timestamp: string, screenshot: Image, uniqueId: string,
                    disk: Disk, unwritable: set<Path>, log: seq<Upload>)
      returns (raised: bool, disk': Disk, log': seq<Upload>)
      modifies this`console
      ensures var main := AppMainArtifact(saveDir, nodeName, timestamp, uniqueId, screenshot);
        raised == IsEmpty(screenshot) &&
        (raised ==> disk' == disk && log' == log &&
                    console == old(console) + [SavingMain, SaveRaised(EmptyImage)]) &&
        (!raised ==> disk' == Stored(disk, main.path, main.image, unwritable) &&
                     log' == log + (if uploadToS3 != 0 then [UploadOf(main)] else []) &&
                     console == old(console) + ([SavingMain] + (if uploadToS3 != 0 then [UploadingMain] else [])))
    {
      ghost var before := console;
      console := console + [SavingMain];
      var mainFileName := MainFileName(nodeName, timestamp, uniqueId);
      var mainPath := [saveDir, nodeName, timestamp, mainFileName];
      var written := ImWrite(disk, mainPath, screenshot, unwritable);
      if written.None? {
        console := console + [SaveRaised(EmptyImage)];
        AppendAssoc(before, [SavingMain], [SaveRaised(EmptyImage)]);
        return true, disk, log;
      }
      raised, disk', log' := false, written.value, log;
      if uploadToS3 != 0 {
        console := console + [UploadingMain];
        AppendAssoc(before, [SavingMain], [UploadingMain]);
        log' := log' + [Upload(mainPath, BucketName, MainKey(nodeName, timestamp, mainFileName))];
      } else {
        assert [SavingMain] + [] == [SavingMain];
      }
    }

    /**
     * The tiles of `save_and_upload`: "generating tiles", the tiling loop
     * with its queued uploads, all of which are awaited, and "completed",
     * or the error status when `cv2.imwrite` raised on the first tile.
     */
    method SaveTiles(nodeName: string, timestamp: string, screenshot: Image, ids: seq<string>,
                     disk: Disk, unwritable: set<Path>, log: seq<Upload>)
      returns (disk': Disk, log': seq<Upload>)
      requires ValidIds(ids)
      modifies this`console
      ensures var tiles := Tiles(saveDir, nodeName, timestamp, ids, screenshot);
        var n := if screenshot.height < 3 || screenshot.width < 3 then 0 else 9;
        disk' == WriteAll(disk, tiles[..n], unwritable) &&
        log' == log + (if uploadToS3 != 0 then UploadsOf(tiles[..n]) else []) &&
        console == old(console) + [GeneratingTiles, if n == 9 then SaveCompleted else SaveRaised(EmptyImage)]
    {
      console := console + [GeneratingTiles];
      var raised, tasks;
      raised, disk', tasks := QueueStreams(saveDir, nodeName, timestamp, ids, screenshot, uploadToS3 != 0,
                                           disk, unwritable);
      // Leaving the pool waits for every queued task; the result loop then awaits them again.
      log' := log + tasks;
      console := console + [if raised then SaveRaised(EmptyImage) else SaveCompleted];
    }

    /**
     * `capture_manual()`: captures the selected monitor and saves it. Every
     * failure of the save ends in a status of its own, so the manual
     * capture reports success exactly when the capture itself succeeded.
     */
    method CaptureManual(monitors: seq<Image>, now: Clock, ids: seq<string>,
                         disk: Disk, unwritable: set<Path>, log: seq<Upload>)
      returns (disk': Disk, log': seq<Upload>)
      requires ValidIds(ids)
      modifies this`console
      ensures console == old(console) +
        ManualStatuses(Capture.CaptureMonitor(selectedMonitor, monitors), ParseInt(nodeNumber).Some?, uploadToS3 != 0)
      ensures Capture.CaptureMonitor(selectedMonitor, monitors).CaptureFailed? ==> disk' == disk && log' == log
      ensures (disk', log') == ManualEffect(Fields(), monitors, now, ids, disk, unwritable, log)
    {
      ghost var before := console;
      console := console + [CapturingScreen];
      var captured := Capture.CaptureMonitor(selectedMonitor, monitors);
      if captured.CaptureFailed? {
        console := console + [CaptureRaised(captured.error)];
        AppendAssoc(before, [CapturingScreen], [CaptureRaised(captured.error)]);
        return disk, log;
      }
      disk', log' := SaveAndUpload(captured.image, now, ids, disk, unwritable, log);
      ghost var saved := SaveStatuses(ParseInt(nodeNumber).Some?, WrittenCount(captured.image), uploadToS3 != 0);
      console := console + [CaptureSucceeded];
      AppendAssoc(before, [CapturingScreen], saved);
      AppendAssoc(before + [CapturingScreen], saved, [CaptureSucceeded]);
      AppendAssoc(before, [CapturingScreen] + saved, [CaptureSucceeded]);
      AppendAssoc([CapturingScreen], saved, [CaptureSucceeded]);
    }

    /**
     * `start_loop()`: does nothing when the loop is already on; otherwise
     * sets both flags and starts the loop (`started`), which the caller
     * then runs with `RunLoop`.
     */
    method StartLoop() returns (started: bool)
      requires Valid()
      modifies this`loopEnabled, this`isRunning
      ensures Valid() && loopEnabled && started == !old(loopEnabled)
    {
      if loopEnabled {
        return false;
      }
      loopEnabled := true;
      isRunning := true;
      started := true;
    }

    /** `stop_loop()`: clears both flags and says so, whether or not the loop was on. */
    method StopLoop()
      modifies this`loopEnabled, this`isRunning, this`console
      ensures Valid() && !loopEnabled && !isRunning
      ensures console == old(console) + [LoopStopped]
    {
      loopEnabled := false;
      isRunning := false;
      console := console + [LoopStopped];
    }

    /**
     * One round of `run_loop()`: "capturing in loop", a manual capture, then
     * the interval read and the sleep. When those raise (`raised`), the
     * loop's thread ends with both flags still set; otherwise "stop" may be
     * pressed during the sleep, which clears them.
     */
    method LoopRound(tick: Tick, disk: Disk, log: seq<Upload>)
      returns (raised: bool, disk': Disk, log': seq<Upload>)
      requires Valid() && ValidIds(tick.ids)
      modifies this`loopEnabled, this`isRunning, this`console
      ensures Valid() && Fields() == old(Fields())
      ensures raised == SleepRaises(tick)
      ensures loopEnabled == (old(loopEnabled) && !(!SleepRaises(tick) && tick.stopRequested))
      ensures console == old(console) + RoundLines(Fields(), tick)
      ensures (disk', log') == ManualEffect(Fields(), tick.monitors, tick.now, tick.ids, disk, tick.unwritable, log)
    {
      ghost var before := console;
      console := console + [LoopCapturing];
      ghost var statuses := ManualStatuses(Capture.CaptureMonitor(selectedMonitor, tick.monitors),
                                           ParseInt(nodeNumber).Some?, uploadToS3 != 0);
      disk', log' := CaptureManual(tick.monitors, tick.now, tick.ids, disk, tick.unwritable, log);
      AppendAssoc(before, [LoopCapturing], statuses);
      raised := tick.interval.None? || tick.interval.value < 0 || tick.interval.value > MaxSleepSeconds;
      if raised {
        assert [LoopCapturing] + statuses + [] == [LoopCapturing] + statuses;
        return;
      }
      if tick.stopRequested {
        StopLoop();
        AppendAssoc(before, [LoopCapturing] + statuses, [LoopStopped]);
      } else {
        assert [LoopCapturing] + statuses + [] == [LoopCapturing] + statuses;
      }
    }

    /**
     * `run_loop()` over the rounds in `ticks`: while both flags are set, run
     * a round. When the loop was on, it runs `RoundsUntilStop(ticks)` rounds
     * and leaves the console, disk, log and flags `LoopRun` gives; when it
     * was off, it changes nothing.
     */
    method RunLoop(ticks: seq<Tick>, disk: Disk, log: seq<Upload>)
      returns (rounds: nat, disk': Disk, log': seq<Upload>)
      requires Valid() && ValidTicks(ticks)
      modifies this`loopEnabled, this`isRunning, this`console
      ensures Valid() && Fields() == old(Fields())
      ensures rounds == (if old(loopEnabled) then RoundsUntilStop(ticks) else 0)
      ensures old(loopEnabled) ==>
        var r := LoopRun(Fields(), ticks, disk, log);
        console == old(console) + r.console && disk' == r.disk && log' == r.log && loopEnabled == !r.stopped
      ensures !old(loopEnabled) ==> console == old(console) && disk' == disk && log' == log && !loopEnabled
    {
      rounds, disk', log' := 0, disk, log;
      ghost var started := loopEnabled;
      ghost var form := Fields();
      ghost var lines: seq<Status> := [];
      var raised := false;
      while loopEnabled && isRunning && !raised && rounds < |ticks|
        invariant Valid() && Fields() == form && rounds <= |ticks|
        invariant console == old(console) + lines
        invariant !started ==> rounds == 0 && lines == [] && !loopEnabled && disk' == disk && log' == log
        invariant started && loopEnabled && !raised ==>
          LoopRun(form, ticks, disk, log) == Prepend(lines, LoopRun(form, ticks[rounds..], disk', log')) &&
          RoundsUntilStop(ticks) == rounds + RoundsUntilStop(ticks[rounds..])
        invariant started && !(loopEnabled && !raised) ==>
          LoopRun(form, ticks, disk, log) == LoopResult(lines, disk', log', !loopEnabled) &&
          RoundsUntilStop(ticks) == rounds
        decreases |ticks| - rounds
      {
        ghost var d0, l0 := disk', log';
        raised, disk', log' := LoopRound(ticks[rounds], disk', log');
        LoopAdvance(form, ticks, rounds, lines, disk, log, d0, l0);
        AppendAssoc(old(console), lines, RoundLines(form, ticks[rounds]));
        lines := lines + RoundLines(form, ticks[rounds]);
        rounds := rounds + 1;
      }
      if started && loopEnabled && !raised {
        assert ticks[rounds..] == [];
        assert lines + [] == lines;
      }
    }
  }

  // ---------------------------------------------------------------------
  // Lemmas

  /**
   * The loop stops after the first round whose sleep raises or that is
   * followed by "stop", and only there: no earlier round ends it, and it
   * runs every round when no round ends it.
   */
  lemma {:induction false} RoundsUntilStopSpec(ticks: seq<Tick>)
    ensures RoundsUntilStop(ticks) <= |ticks|
    ensures forall k | 0 <= k < RoundsUntilStop(ticks) - 1 :: !EndsLoop(ticks[k])
    ensures (exists k | 0 <= k < |ticks| :: EndsLoop(ticks[k])) <==>
            RoundsUntilStop(ticks) >= 1 && EndsLoop(ticks[RoundsUntilStop(ticks) - 1])
    ensures (forall k | 0 <= k < |ticks| :: !EndsLoop(ticks[k])) ==> RoundsUntilStop(ticks) == |ticks|
    decreases |ticks|
  {
    if ticks != [] && !EndsLoop(ticks[0]) {
      RoundsUntilStopSpec(ticks[1..]);
      assert forall k | 1 <= k < |ticks| :: ticks[k] == ticks[1..][k - 1];
    }
  }

  /** One more round of the loop from round `r`: it ends there, or it goes on from round `r + 1`. */
  lemma LoopStep(form: Form, ticks: seq<Tick>, r: nat, disk: Disk, log: seq<Upload>)
    requires ValidTicks(ticks) && r < |ticks|
    ensures var t := ticks[r];
      var (disk1, log1) := ManualEffect(form, t.monitors, t.now, t.ids, disk, t.unwritable, log);
      ValidTicks(ticks[r + 1..]) &&
      LoopRun(form, ticks[r..], disk, log) ==
        (if EndsLoop(t) then LoopResult(RoundLines(form, t), disk1, log1, !SleepRaises(t))
         else Prepend(RoundLines(form, t), LoopRun(form, ticks[r + 1..], disk1, log1))) &&
      RoundsUntilStop(ticks[r..]) == (if EndsLoop(t) then 1 else 1 + RoundsUntilStop(ticks[r + 1..]))
  {
    assert ticks[r..][1..] == ticks[r + 1..];
    assert ticks[r..][0] == ticks[r];
  }

  /** The loop invariant of `RunLoop` carried over one round. */
  lemma LoopAdvance(form: Form, ticks: seq<Tick>, r: nat, lines: seq<Status>,
                    disk: Disk, log: seq<Upload>, disk0: Disk, log0: seq<Upload>)
    requires ValidTicks(ticks) && r < |ticks|
    requires LoopRun(form, ticks, disk, log) == Prepend(lines, LoopRun(form, ticks[r..], disk0, log0))
    requires RoundsUntilStop(ticks) == r + RoundsUntilStop(ticks[r..])
    ensures var t := ticks[r];
      var (disk1, log1) := ManualEffect(form, t.monitors, t.now, t.ids, disk0, t.unwritable, log0);
      var lines' := lines + RoundLines(form, t);
      ValidTicks(ticks[r + 1..]) &&
      (EndsLoop(t) ==>
        LoopRun(form, ticks, disk, log) == LoopResult(lines', disk1, log1, !SleepRaises(t)) &&
        RoundsUntilStop(ticks) == r + 1) &&
      (!EndsLoop(t) ==>
        LoopRun(form, ticks, disk, log) == Prepend(lines', LoopRun(form, ticks[r + 1..], disk1, log1)) &&
        RoundsUntilStop(ticks) == r + 1 + RoundsUntilStop(ticks[r + 1..]))
  {
    var t := ticks[r];
    var (disk1, log1) := ManualEffect(form, t.monitors, t.now, t.ids, disk0, t.unwritable, log0);
    LoopStep(form, ticks, r, disk0, log0);
    if !EndsLoop(t) {
      PrependAppend(lines, RoundLines(form, t), LoopRun(form, ticks[r + 1..], disk1, log1));
    }
  }

  lemma PrependAppend(a: seq<Status>, b: seq<Status>, r: LoopResult)
    ensures Prepend(a, Prepend(b, r)) == Prepend(a + b, r)
  {
    AppendAssoc(a, b, r.console);
  }

  /** A round's lines hold exactly one "capturing in loop". */
  lemma RoundLinesCapturing(form: Form, t: Tick)
    ensures Occurrences(RoundLines(form, t), LoopCapturing) == 1
  {
    var statuses := ManualStatuses(Capture.CaptureMonitor(form.selectedMonitor, t.monitors),
                                   ParseInt(form.nodeNumber).Some?, form.uploadToS3 != 0);
    var tail: seq<Status> := if !SleepRaises(t) && t.stopRequested then [LoopStopped] else [];
    OccurrencesAppend([LoopCapturing], statuses, LoopCapturing);
    OccurrencesAbsent(statuses, LoopCapturing);
    OccurrencesAppend([LoopCapturing] + statuses, tail, LoopCapturing);
    OccurrencesAbsent(tail, LoopCapturing);
    assert [LoopCapturing][..0] == [];
  }

  /** Every round of a loop adds exactly one "capturing in loop" line. */
  lemma {:induction false} LoopRunCapturing(form: Form, ticks: seq<Tick>, disk: Disk, log: seq<Upload>)
    requires ValidTicks(ticks)
    ensures Occurrences(LoopRun(form, ticks, disk, log).console, LoopCapturing) == RoundsUntilStop(ticks)
    decreases |ticks|
  {
    if ticks != [] {
      var t := ticks[0];
      RoundLinesCapturing(form, t);
      if !EndsLoop(t) {
        var (disk1, log1) := ManualEffect(form, t.monitors, t.now, t.ids, disk, t.unwritable, log);
        var rest := LoopRun(form, ticks[1..], disk1, log1);
        assert LoopRun(form, ticks, disk, log).console == RoundLines(form, t) + rest.console;
        LoopRunCapturing(form, ticks[1..], disk1, log1);
        OccurrencesAppend(RoundLines(form, t), rest.console, LoopCapturing);
      }
    }
  }

  /**
   * The loop's flags are cleared exactly when its last round was followed
   * by "stop" with a sleep that did not raise; a sleep that raises, or
   * running out of rounds, leaves them set.
   */
  lemma {:induction false} LoopRunStopped(form: Form, ticks: seq<Tick>, disk: Disk, log: seq<Upload>)
    requires ValidTicks(ticks)
    ensures var n := RoundsUntilStop(ticks);
      LoopRun(form, ticks, disk, log).stopped <==>
      n >= 1 && n <= |ticks| && ticks[n - 1].stopRequested && !SleepRaises(ticks[n - 1])
    decreases |ticks|
  {
    RoundsUntilStopSpec(ticks);
    if ticks != [] && !EndsLoop(ticks[0]) {
      var t := ticks[0];
      var (disk1, log1) := ManualEffect(form, t.monitors, t.now, t.ids, disk, t.unwritable, log);
      LoopStep(form, ticks, 0, disk, log);
      assert ticks[0..] == ticks;
      LoopRunStopped(form, ticks[1..], disk1, log1);
      var n := RoundsUntilStop(ticks[1..]);
      if n >= 1 {
        assert ticks[1..][n - 1] == ticks[n];
      }
    }
  }

  /**
   * A save reports at least one status, ends with "completed" exactly when
   * the node number parsed and `cv2.imwrite` was called on all ten files
   * without raising, and never says
   * "capturing in loop".
   */
  lemma SaveReport(nodeParsed: bool, done: nat, uploadEnabled: bool)
    requires done in {0, 1, 10}
    ensures var st := SaveStatuses(nodeParsed, done, uploadEnabled);
      |st| >= 1 && (st[|st| - 1] == SaveCompleted <==> nodeParsed && done == 10) && LoopCapturing !in st
  {
  }

  lemma {:induction false} OccurrencesAbsent(console: seq<Status>, s: Status)
    requires s !in console
    ensures Occurrences(console, s) == 0
    decreases |console|
  {
    if console != [] {
      assert console[..|console| - 1] <= console;
      OccurrencesAbsent(console[..|console| - 1], s);
    }
  }

  lemma {:induction false} OccurrencesAppend(a: seq<Status>, b: seq<Status>, s: Status)
    ensures Occurrences(a + b, s) == Occurrences(a, s) + Occurrences(b, s)
    decreases |b|
  {
    if b == [] {
      assert a + b == a;
    } else {
      assert (a + b)[..|a + b| - 1] == a + b[..|b| - 1];
      OccurrencesAppend(a, b[..|b| - 1], s);
    }
  }

  /**
   * The application's main file is keyed as if it were in a `main` folder,
   * which it is not: its key is its relative path with `main` inserted
   * before the file name, five characters longer than the relative path,
   * and so never equal to it.
   */
  lemma AppMainKeyDiverges(saveDir: string, nodeName: string, timestamp: string, id: string, shot: Image)
    ensures var a := AppMainArtifact(saveDir, nodeName, timestamp, id, shot);
      |a.path| == 4 &&
      a.key == JoinPath(a.path[1..3] + ["main"] + a.path[3..]) &&
      |a.key| == |JoinPath(a.path[1..])| + 5 &&
      a.key != JoinPath(a.path[1..])
  {
    var a := AppMainArtifact(saveDir, nodeName, timestamp, id, shot);
    var fileName := MainFileName(nodeName, timestamp, id);
    MainKeyIsPath(nodeName, timestamp, fileName);
    assert a.path[1..3] + ["main"] + a.path[3..] == [nodeName, timestamp, "main", fileName];
    assert a.path[1..] == [nodeName, timestamp, fileName];
    PathOfThree(nodeName, timestamp, fileName);
  }

  /** The ten artifacts of an application save have ten different paths. */
  lemma AppRunDistinct(saveDir: string, nodeName: string, timestamp: string, ids: seq<string>, shot: Image)
    requires ValidIds(ids)
    ensures DistinctPaths(AppRunArtifacts(saveDir, nodeName, timestamp, ids, shot))
  {
    var arts := AppRunArtifacts(saveDir, nodeName, timestamp, ids, shot);
    var tiles := Tiles(saveDir, nodeName, timestamp, ids, shot);
    TilesDistinct(saveDir, nodeName, timestamp, ids, shot);
    forall j, k | 0 <= j < k < 10
      ensures arts[j].path != arts[k].path
    {
      assert arts[k] == tiles[k - 1];
      TileInFolder(saveDir, nodeName, timestamp, ids, shot, k - 1);
      if j > 0 {
        assert arts[j] == tiles[j - 1];
      }
    }
  }

  /**
   * After a save of a screenshot with pixels, the main file and, on a
   * screen at least 3x3, the nine tiles are on disk wherever their paths
   * can be written.
   */
  lemma SavedFiles(saveDir: string, nodeName: string, timestamp: string, ids: seq<string>, shot: Image,
                   disk: Disk, unwritable: set<Path>)
    requires ValidIds(ids) && !IsEmpty(shot)
    ensures var arts := AppRunArtifacts(saveDir, nodeName, timestamp, ids, shot);
      var n := if shot.height >= 3 && shot.width >= 3 then 10 else 1;
      var disk' := WriteAll(disk, AppWritten(saveDir, nodeName, timestamp, ids, shot), unwritable);
      AppWritten(saveDir, nodeName, timestamp, ids, shot) == arts[..n] &&
      forall k | 0 <= k < n && arts[k].path !in unwritable ::
        arts[k].path in disk' && disk'[arts[k].path] == arts[k].image
  {
    var arts := AppRunArtifacts(saveDir, nodeName, timestamp, ids, shot);
    var written := AppWritten(saveDir, nodeName, timestamp, ids, shot);
    AppRunDistinct(saveDir, nodeName, timestamp, ids, shot);
    forall k | 0 <= k < |written| && arts[k].path !in unwritable
      ensures arts[k].path in WriteAll(disk, written, unwritable)
      ensures WriteAll(disk, written, unwritable)[arts[k].path] == arts[k].image
    {
      assert written[k] == arts[k];
      WriteAllAt(disk, written, unwritable, k);
    }
  }

  /**
   * After a manual capture that succeeds with an integer node number, the
   * main file and, on a screen at least 3x3, the nine tiles are on disk
   * wherever their paths can be written, and exactly those files are
   * uploaded, main first, when uploads are on.
   */
  lemma ManualCaptureFiles(form: Form, monitors: seq<Image>, now: Clock, ids: seq<string>,
                           disk: Disk, unwritable: set<Path>, log: seq<Upload>)
    requires ValidIds(ids)
    requires Capture.CaptureMonitor(form.selectedMonitor, monitors).Screenshot? && ParseInt(form.nodeNumber).Some?
    ensures var shot := Capture.CaptureMonitor(form.selectedMonitor, monitors).image;
      var arts := AppRunArtifacts(form.saveDir, NodeName(ParseInt(form.nodeNumber).value), Timestamp(now), ids, shot);
      var n := if shot.height >= 3 && shot.width >= 3 then 10 else 1;
      var (disk', log') := ManualEffect(form, monitors, now, ids, disk, unwritable, log);
      (forall k | 0 <= k < n && arts[k].path !in unwritable ::
        arts[k].path in disk' && disk'[arts[k].path] == arts[k].image) &&
      log' == log + (if form.uploadToS3 != 0 then UploadsOf(arts[..n]) else [])
  {
    var shot := Capture.CaptureMonitor(form.selectedMonitor, monitors).image;
    var nodeName, timestamp := NodeName(ParseInt(form.nodeNumber).value), Timestamp(now);
    var written := AppWritten(form.saveDir, nodeName, timestamp, ids, shot);
    assert ManualEffect(form, monitors, now, ids, disk, unwritable, log) ==
           (WriteAll(disk, written, unwritable), log + (if form.uploadToS3 != 0 then UploadsOf(written) else []));
    SavedFiles(form.saveDir, nodeName, timestamp, ids, shot, disk, unwritable);
  }

  /**
   * Apart from the main file's folder, a save by the application produces
   * the same artifacts as the command-line run: the same tiles, the same
   * keys, the same images, and the same main file name.
   */
  lemma SameRunAsCapture(saveDir: string, nodeName: string, timestamp: string, ids: seq<string>, shot: Image)
    requires ValidIds(ids)
    ensures var app := AppRunArtifacts(saveDir, nodeName, timestamp, ids, shot);
      var cli := Capture.RunArtifacts(saveDir, nodeName, timestamp, ids, shot);
      app[1..] == cli[1..] &&
      app[0].key == cli[0].key && app[0].image == cli[0].image &&
      app[0].path == cli[0].path[..3] + cli[0].path[4..]
  {
  }
}
