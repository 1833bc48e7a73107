# Orus Capture: a Dafny model of the capture-to-artifact pipeline

Orus Capture grabs one monitor, cuts the screenshot into a 3×3 grid of tiles,
writes the full screenshot and the nine tiles under
`save_dir/orus-data-node-NN/<timestamp>/`, and optionally uploads all ten files
to the S3 bucket `orus-repo-01` under keys that mirror those paths. There are two
front ends: the command-line capture (`orus_capture.py`) and the windowed
application (`orus_capture_ui.py`), whose `OrusApp` can also repeat the capture
in a loop.

The model is split into one module per concern:

- `Wrappers` (wrappers.dfy): the `Option` type.
- `Numerals` (numerals.dfy): Python's `format(n, "0{w}d")`, `uuid.hex` digits and `int(text)`, with the round trip `int(format(n)) == n`.
- `Raster` (raster.dfy): the screenshot as an `h × w` grid of opaque pixels and the numpy slice `img[top:bottom, left:right]`.
- `Grid` (grid.dfy): the 3×3 tiling geometry, with the disjointness and cover lemmas.
- `Naming` (naming.dfy): the timestamp, node name, unique ids, file names, folder names, object keys and `/`-joined paths.
- `Artifacts` (artifacts.dfy): what a run leaves behind. The disk is a map from path (a list of segments) to image. The uploads are a log of `(local path, bucket, key)`. The nine tile artifacts are the same in both front ends.
- `Capture` (capture.dfy): `capture_monitor` and `process_capture`, imperative. The tiling loop is a `for` loop with invariants, proved against `RunArtifacts`, `WriteAll` and `UploadsOf`.
- `CaptureApp` (capture_app.dfy): the `OrusApp` class. It has the form fields, the `loop_enabled`/`is_running` flags and the status console as fields. It covers `save_and_upload`, `capture_manual`, `start_loop`, `stop_loop` and `run_loop`.

The clock fields, the ten unique ids of a run, the monitors' frames, the set of
paths `cv2.imwrite` cannot write, and, for the loop, where "stop" is pressed are
all inputs.

Behaviours of the code that are easy to miss:

- The monitor guard lets `monitor_number == len(monitors)` through, and the
  indexing then raises. Both are failures that the callers catch, so the model
  has two capture errors for the monitor number.
- `cv2.cvtColor` raises on a frame without pixels. That is a third capture
  error, so a screenshot that reaches the save always has pixels.
- `cv2.imwrite` does not raise on an unwritable path. It returns `False`, and the
  run goes on, so a write failure is not recorded anywhere.
- `cv2.imwrite` raises on an image without pixels. After a capture this can
  only happen at the first tile, for a screen under 3 pixels high or wide: the
  main file is written and the tiles are empty. That exception stops the
  remaining tiles. In the command-line capture it propagates out of
  `process_capture`. In the application it becomes an error status.
- Only the command-line dialog bounds the node number to 1..99. The application
  takes any integer the text field parses to.
- The application writes the main file directly in the timestamp folder, not in
  `main/`. Its key still names `main/`.
- Failures of the upload itself are swallowed inside `upload_to_s3`. No outcome
  reaches the pipeline, and the completion message appears all the same. The
  S3 client is created before that `try`, so a failure to create it would
  escape (see "## Left out").
- The loop reads `loop_interval` after every round. Decimal text reads as its
  value truncated toward zero ("2.5" as 2, "-0.5" as 0). The read raises on
  text that is neither an integer nor a decimal number, and `time.sleep`
  raises on a negative value or one above 9223372036 (the most seconds it can
  turn into 64-bit nanoseconds on CPython 3.11 and later). That ends the loop's thread with both flags still set,
  so "start" does nothing until "stop" is pressed.
- If "stop" and then "start" are pressed within one sleep, the flags are set
  again, the old thread goes on after its sleep, and a second thread starts:
  two loops run at once.
- Each round reads the node number, folder and monitor afresh, so edits made
  to the form during the loop change the later rounds.

## Model

| member | source | states |
|---|---|---|
| `Raster.Crop` | orus_capture.py:91 | The slice of a rectangle inside the image is an image of the rectangle's size whose pixel (y, x) is the source pixel (top + y, left + x). |
| `Grid.Cells` | orus_capture.py:77 | The tiling loop enumerates nine grid cells. |
| `Grid.TileRect` | orus_capture.py:76-90 | Every tile is (h // 3) × (w // 3) and ends inside the image: bottom ≤ h, right ≤ w. |
| `Grid.CellIndex` | orus_capture.py:77 | The cell (row, col) is enumerated at position 3·row + col, so it gets index i = 3·row + col + 1. |
| `Grid.CellsInGrid` | orus_capture.py:77 | Every enumerated cell lies in the 3×3 grid, and position k holds the cell with 3·row + col = k. |
| `Grid.BandOf` | orus_capture.py:87-90 | A coordinate inside band b of size s is classified as band b. |
| `Grid.TilesDisjoint` | orus_capture.py:87-91 | A pixel that lies in two tiles lies in the same tile twice: the nine tiles are pairwise disjoint. |
| `Grid.TilesCover` | orus_capture.py:76-91 | The tiles cover exactly [0, 3·(h//3)) × [0, 3·(w//3)). The last h mod 3 rows and w mod 3 columns are in no tile. |
| `Grid.TilePixel` | orus_capture.py:86-91 | Every covered pixel appears in its tile, at its offset from the tile's corner. |
| `Numerals.Digits` | orus_capture.py:46 | The decimal or hex numeral of n is non-empty, uses only digits of the base, and reads back as n. |
| `Numerals.ZeroPad` | orus_capture.py:46 | Zero filling pads to the width and never truncates. |
| `Numerals.DigitsLength` | orus_capture.py:46 | The numeral of n has at most k digits exactly when n < base^k. |
| `Numerals.ParseFormatInt` | orus_capture_ui.py:161 | `int()` reads back what `format(n, "0{w}d")` writes, for every integer, negative ones too. |
| `Numerals.FormatIntInjective` | orus_capture.py:78 | Distinct integers are formatted differently. |
| `Numerals.FormatIntLength` | orus_capture.py:78 | A non-negative number is formatted to exactly the width when it fits, and to more characters otherwise. |
| `Naming.TimestampRoundTrip` | orus_capture.py:42-43 | A timestamp is 26 characters, zero-padded `YYYY-MM-DD-HH-MM-SS`, ends in the literal `-GMT-03`, and parses back to its clock fields. |
| `Naming.TimestampInjective` | orus_capture.py:43 | Different clock readings give different timestamps. |
| `Naming.NodeNameShape` | orus_capture.py:46 | The node name is `orus-data-node-` plus a part that reads back as the node number. It is 17 characters for 1..99. In the application, where nothing bounds the number, it is 18 or more from 100 on. |
| `Naming.NodeNameInjective` | orus_capture.py:46 | The node name determines the node number. |
| `Naming.StreamFolderShape` | orus_capture.py:78 | `stream_001` .. `stream_009` are 10 characters each and pairwise distinct. |
| `Naming.GenerateUniqueId` | orus_capture.py:16-18 | The unique id is the first 8 characters of the uuid's hex form, all lowercase hex digits. |
| `Naming.UuidHexRoundTrip` | orus_capture.py:18 | `uuid.hex` is 32 hex digits that read back as the 128-bit value. |
| `Naming.FileNameLayout` | orus_capture.py:65 | A file name starts with its prefix (node name or stream folder), then `_`, then the run's timestamp. |
| `Naming.IdInFileName` | orus_capture.py:83 | A file name ends with the id followed by `.png`: the id sits just before the last four characters, which are `.png`. |
| `Naming.FileNameDistinctIds` | orus_capture.py:83 | For one prefix and timestamp, distinct unique ids give distinct file names. |
| `Naming.MainKeyIsPath` | orus_capture.py:59-72 | The main key is the `/`-join of node, timestamp, `main` and the file name, i.e. the main path below `save_dir`. |
| `Naming.StreamKeyIsPath` | orus_capture.py:78-99 | A tile's key is the `/`-join of node, timestamp, `stream_NNN` and the file name, i.e. its path below `save_dir`. |
| `Artifacts.WriteAllAppend` | orus_capture.py:67-94 | Writing a list of files is writing its first part, then its second. |
| `Artifacts.WriteAllAt` | orus_capture.py:94 | When paths are distinct, every writable file holds its image after the writes. |
| `Artifacts.WriteAllElsewhere` | orus_capture.py:94 | A path that no written file has is left as it was. |
| `Artifacts.TileSize` | orus_capture.py:76-91 | Every tile image is (h // 3) × (w // 3). It is empty exactly when the screen is under 3 pixels high or wide. |
| `Artifacts.TileLayout` | orus_capture.py:78-84 | Tile i is at `save_dir/node/timestamp/stream_NNN/stream_NNN_{timestamp}_{id}.png`, and its key is that path below `save_dir`. |
| `Artifacts.TileImage` | orus_capture.py:86-91 | Tile i's pixels are grid cell ((i - 1) / 3, (i - 1) % 3). |
| `Artifacts.TilesDistinct` | orus_capture.py:77-84 | The nine tiles have nine different paths. |
| `Artifacts.WrittenCountIsFirstEmpty` | orus_capture.py:67-94 | The number of files `cv2.imwrite` is called on without raising is the position of the first artifact it raises on: 0, 1 or 10. |
| `Artifacts.WriteTile` | orus_capture.py:78-100 | One round of the tiling loop raises exactly when the screen is under 3 pixels high or wide, and then writes and uploads nothing. Otherwise it stores tile i at its path (unless that path cannot be written) and, when uploads are on, appends exactly that tile's upload. |
| `Artifacts.PrefixStep` | orus_capture.py:77-100 | Writing and uploading the first k + 1 artifacts is writing and uploading the first k, then artifact k. |
| `Capture.CaptureMonitor` | orus_capture.py:29-37 | Capture succeeds exactly for 1 ≤ n < len(monitors) with a frame that has pixels, and returns that frame. The guard raises exactly for n < 1 or n > len(monitors). n == len(monitors) passes the guard and fails at indexing. A frame without pixels fails at the colour conversion. |
| `Capture.RunArtifacts` | orus_capture.py:58-91 | A run has ten artifacts: main, then tiles 1..9. |
| `Capture.ProcessCapture` | orus_capture.py:39-102 | A failed capture ends with the capture error and writes and uploads nothing. Otherwise the first `WrittenCount` artifacts of the run (1 or 10) are written in order, all named with one node name and one timestamp. The run completes exactly when all ten are written. When uploads are on, exactly those are uploaded in the same order, and none are uploaded otherwise. |
| `Capture.SaveRun` | orus_capture.py:58-100 | Main is written, then uploaded if enabled, before any tile. The disk and the log are those of the run's written prefix. |
| `Capture.SaveStreams` | orus_capture.py:75-100 | The tiling loop writes tiles 1..9 in order and uploads each right after writing it. It raises at the first tile exactly when the tiles are empty. |
| `Capture.SavedAfterMain` | orus_capture.py:67-100 | Main followed by the tile loop is the run's artifact prefix, for both the disk and the upload log. |
| `Capture.RunPrefix` | orus_capture.py:77 | A run's prefix is main followed by a prefix of the tiles. |
| `Capture.MainLayout` | orus_capture.py:59-72 | The main file is at `save_dir/node/timestamp/main/{node}_{timestamp}_{id}.png`, and its key is that path below `save_dir`. |
| `Capture.TilesLayout` | orus_capture.py:77-99 | Every tile is placed under `save_dir/node/timestamp` in its own stream folder, keyed by its relative path. |
| `Capture.RunLayout` | orus_capture.py:42-100 | The ten paths are distinct and all under `save_dir/node/timestamp`. Each key equals its relative path. The one timestamp of the run is in every file name. |
| `Capture.UploadOrder` | orus_capture.py:71-100 | A full run with uploads uploads exactly ten files: main first, then tiles 1..9, all to the bucket, each under its relative path. |
| `Capture.RunUploadCount` | orus_capture.py:71-100 | With uploads off nothing is uploaded. With uploads on and a screen at least 3×3, exactly ten uploads happen. |
| `Capture.RunsDoNotOverwrite` | orus_capture.py:64-84 | Two runs in the same second share folders, but an artifact with a different id lands at a different path. |
| `Capture.CompletedRunFiles` | orus_capture.py:61-94 | After a full run, every writable artifact path holds its image, and every other path is unchanged. |
| `CaptureApp.AppRunArtifacts` | orus_capture_ui.py:165-201 | A save has ten artifacts: main, then tiles 1..9. |
| `CaptureApp.AppWritten` | orus_capture_ui.py:170-204 | A save writes as many of its artifacts as `WrittenCount` says. |
| `CaptureApp.AppMainKeyDiverges` | orus_capture_ui.py:162-175 | The main file has no `main` folder, but its key has one. The key is the relative path with `main/` inserted, 5 characters longer, so the two are never equal. |
| `CaptureApp.SameRunAsCapture` | orus_capture_ui.py:178-208 | The tiles, keys, images and main file name match the command-line run. Only the main file's folder differs. |
| `CaptureApp.QueueStreams` | orus_capture_ui.py:184-209 | Tiles 1..9 are written in order. With uploads off no task is queued. With uploads on exactly nine are queued, one per tile in order, unless `imwrite` raised at the first tile. |
| `CaptureApp.ManualStatuses` | orus_capture_ui.py:122-130 | A manual capture starts with "capturing". It ends with "capture completed" exactly when the capture itself succeeded, whatever the save reported. |
| `CaptureApp.SaveReport` | orus_capture_ui.py:212-218 | A save ends with "completed" exactly when the node number parsed and `cv2.imwrite` was called on all ten files without raising, upload failures notwithstanding. |
| `CaptureApp.AppRunDistinct` | orus_capture_ui.py:162-194 | The ten files of an application save have ten different paths. |
| `CaptureApp.SavedFiles` | orus_capture_ui.py:165-204 | After a save of a screenshot with pixels, the main file and, on a screen at least 3×3, the nine tiles hold their images wherever their paths can be written. |
| `CaptureApp.ManualCaptureFiles` | orus_capture_ui.py:122-130 | After a successful manual capture with an integer node number, the main file (and the nine tiles on a screen at least 3×3) hold their images wherever writable, and when uploads are on exactly those files are uploaded, main first. |
| `CaptureApp.OrusApp.constructor` | orus_capture_ui.py:46-57 | The form starts with node "01", the working folder, monitor 1, uploads on, a 10 s interval, both loop flags clear and an empty console. |
| `CaptureApp.OrusApp.SelectFolder` | orus_capture_ui.py:117-120 | A non-empty folder choice replaces the save folder. A cancelled one leaves it. |
| `CaptureApp.OrusApp.SaveAndUpload` | orus_capture_ui.py:153-218 | It never raises. A node number that is not an integer writes and uploads nothing. Otherwise the written prefix of the save is on disk, and it is uploaded when uploads are on. The statuses follow `SaveStatuses`. |
| `CaptureApp.OrusApp.SaveNamed` | orus_capture_ui.py:160-176 | The main file is written and uploaded first. Then come the tiles. The disk, the log and the console follow the save's written prefix. |
| `CaptureApp.OrusApp.SaveMain` | orus_capture_ui.py:165-176 | Saving the main file reports "saving main". It raises exactly for an image without pixels, and then writes nothing and reports the error. Otherwise it stores the file in the timestamp folder and, when uploads are on, reports "uploading main" and uploads it under its `main/` key. |
| `CaptureApp.OrusApp.SaveTiles` | orus_capture_ui.py:182-215 | The queued tile uploads are all awaited before the completion status. An `imwrite` exception becomes an error status. |
| `CaptureApp.OrusApp.CaptureManual` | orus_capture_ui.py:122-130 | A failed capture writes nothing and reports its error. Otherwise the save runs, and success is reported after it. The disk and the log become what `ManualEffect` gives: the save's written files, and their uploads when uploads are on. |
| `CaptureApp.OrusApp.StartLoop` | orus_capture_ui.py:132-138 | When the loop is already on, nothing changes. Otherwise both flags are set and the loop starts. |
| `CaptureApp.OrusApp.StopLoop` | orus_capture_ui.py:140-144 | Both flags are cleared and "loop stopped" is reported. |
| `CaptureApp.OrusApp.LoopRound` | orus_capture_ui.py:148-151 | One round adds "capturing in loop", then a manual capture's statuses and files. It raises exactly when the interval read or the sleep raises (text that is neither an integer nor a decimal number, a negative value, or one above 9223372036 seconds), which leaves both flags set. Otherwise a stop during the sleep clears them and adds "loop stopped". |
| `CaptureApp.OrusApp.RunLoop` | orus_capture_ui.py:146-151 | The loop runs only while both flags are set. When it was on, it runs `RoundsUntilStop` rounds, and the console, disk, log and flags become what `LoopRun` gives. When it was off, nothing changes. |
| `CaptureApp.RoundsUntilStopSpec` | orus_capture_ui.py:146-151 | The loop ends after the first round whose interval read or sleep raises (text that is neither an integer nor a decimal number, a negative value, or one above 9223372036 seconds), or after which stop is pressed, and no earlier. When no round ends it, it runs every round. |
| `CaptureApp.LoopRunCapturing` | orus_capture_ui.py:148-150 | The loop's console has exactly one "capturing in loop" line per round run. |
| `CaptureApp.LoopRunStopped` | orus_capture_ui.py:140-151 | The loop ends with its flags cleared exactly when its last round was followed by stop and a sleep that did not raise. A raising sleep, or running out of rounds, leaves them set. |

## Left out

- Screen grabbing (`mss`) and the BGRA→BGR conversion are foreign library calls. The monitors' frames are given as already-converted images.
- PNG encoding by `cv2.imwrite` and `os.makedirs` are I/O. A write is an insertion into a path→image map, and folders are implied by paths. Failures of `os.makedirs` are not modelled. Unwritable paths are a given set on which `imwrite` stores nothing.
- The S3 client (`boto3`) is network I/O. An upload is an entry `(path, bucket, key)` appended to a log. `upload_to_s3` swallows every exception of the upload itself, so no outcome is modelled.
- Creating the S3 client (`boto3.client('s3')`, outside the `try` of `upload_to_s3`) is assumed never to raise. If it did, the command-line run would stop after the file it was uploading. In the application, the main upload or a tile task's awaited result would turn "completed" into an error status, which `SaveReport` and `SaveStatuses` do not cover.
- `datetime.now` with `pytz` and `uuid.uuid4` are the clock and randomness. The clock fields (Buenos Aires civil time) and the 128-bit uuid values or the ten 8-hex-digit ids are inputs. Calendar validity beyond field ranges is not checked.
- `ThreadPoolExecutor` and `threading.Thread` are concurrency. Tile uploads are appended to the log in queue order once the tiling loop ends, and the loop runs sequentially in the caller. A manual capture racing the loop is not modelled, and neither are two loop threads running at once after "stop" and "start" within one sleep.
- `CaptureApp.OrusApp.RunLoop`: the form's fields are fixed for the whole loop (`Fields()` is unchanged), so edits made to the node number, folder or monitor while the loop runs are not modelled.
- `time.sleep` is timing. The pause between rounds is only the point where "stop" may arrive. What `loop_interval.get()` reads after each round is an input of that round, since the user may edit the field while the loop runs. The class's `loopInterval` field keeps only the default of 10.
- `CaptureApp.Tick`: Tcl's integer and double parsing of the interval field (with decimal text truncated toward zero, and "nan" or "inf" rejected) is not modelled. The read is given as its integer result or as a failure. `MaxSleepSeconds` (9223372036) is the bound of CPython 3.11 and later. Before 3.11, `time.sleep` on Windows raised above about 4294967 seconds (2^32 - 1 milliseconds), and there `LoopRound`'s `raised == SleepRaises(tick)` does not hold.
- The tkinter window, dialogs, preview refresh (`update_preview`), status colours and the `start_capture` dialog flow are presentation. The 1..99 bound of the node-number dialog appears only as the range that `NodeNameShape` speaks about.
- `Numerals.ParseInt`: it does not model `int()`'s acceptance of underscores between digits or of non-ASCII digits and whitespace, nor CPython's limit of 4300 digits, beyond which `int()` raises `ValueError`.
- `Numerals.ParseFormatInt`: the round trip is stated for every integer. In CPython, `format()` and `int()` raise `ValueError` beyond 4300 digits, so the source's round trip holds only below that limit. The model has no digit limit.
- `os.path.join` separators are platform-specific. Paths are lists of segments, and keys are `/`-joined.
