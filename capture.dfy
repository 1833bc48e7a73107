/**
 * The command-line capture: grab one monitor, write the full screenshot
 * under a `main` folder, then cut it into nine tiles written under
 * `stream_001` .. `stream_009`, uploading each file right after writing it
 * when uploads are enabled.
 */
module Capture {
  import opened Raster
  import opened Grid
  import opened Naming
  import opened Artifacts

  /**
   * Why a capture fails: the guard's ValueError for a monitor number outside
   * 1..len(monitors), the IndexError of `monitors[len(monitors)]`, which
   * the guard lets through, or the error `cv2.cvtColor` raises on a frame
   * without pixels.
   */
  datatype CaptureError = InvalidMonitor | MonitorIndexOutOfRange | EmptyFrame

  datatype Captured = Screenshot(image: Image) | CaptureFailed(error: CaptureError)

  /**
   * `capture_monitor(monitor_number)`. `monitors` stands for `sct.monitors`,
   * each entry given as the frame grabbing it would return (entry 0 is all
   * monitors combined). A screenshot always has pixels.
   */
  function CaptureMonitor(monitorNumber: int, monitors: seq<Image>): (r: Captured)
    ensures r.Screenshot? <==> 1 <= monitorNumber < |monitors| && !IsEmpty(monitors[monitorNumber])
    ensures r.Screenshot? ==> r.image == monitors[monitorNumber] && !IsEmpty(r.image)
    ensures r == CaptureFailed(InvalidMonitor) <==> monitorNumber < 1 || monitorNumber > |monitors|
    ensures r == CaptureFailed(MonitorIndexOutOfRange) <==> monitorNumber == |monitors| >= 1
    ensures r == CaptureFailed(EmptyFrame) <==> 1 <= monitorNumber < |monitors| && IsEmpty(monitors[monitorNumber])
  {
    if monitorNumber > |monitors| || monitorNumber < 1 then CaptureFailed(InvalidMonitor)
    else if monitorNumber == |monitors| then CaptureFailed(MonitorIndexOutOfRange)
    else if IsEmpty(monitors[monitorNumber]) then CaptureFailed(EmptyFrame)
    else Screenshot(monitors[monitorNumber])
  }

  /** How `process_capture` ends. */
  datatype Outcome =
    | CaptureError(error: CaptureError)   // error dialog, nothing written
    | WriteRaised(artifact: nat)          // `cv2.imwrite` raised while writing artifact 0 (main) or i (tile i)
    | Completed                           // success dialog

  /**
   * The main capture: written at `save_dir/node/timestamp/main/{node}_{timestamp}_{id}.png`
   * and uploaded under `node/timestamp/main/{file name}`.
   */
  function MainArtifact(saveDir: string, nodeName: string, timestamp: string, id: string, shot: Image): Artifact
  {
    var fileName := MainFileName(nodeName, timestamp, id);
    Artifact([saveDir, nodeName, timestamp, "main", fileName], MainKey(nodeName, timestamp, fileName), shot)
  }

  /** The ten artifacts of one run in the order they are produced: main, then tiles 1..9. */
  function RunArtifacts(saveDir: string, nodeName: string, timestamp: string, ids: seq<string>, shot: Image): (arts: seq<Artifact>)
    requires ValidIds(ids)
    ensures |arts| == 10
  {
    [MainArtifact(saveDir, nodeName, timestamp, ids[0], shot)] +
    Tiles(saveDir, nodeName, timestamp, ids, shot)
  }

  /**
   * `process_capture(save_dir, monitor_number, node_number, upload_to_s3_enabled)`.
   * The clock, the monitors' frames, the ten ids and the paths that cannot
   * be written are given; the disk and the upload log are threaded through.
   * A failed capture leaves both untouched; otherwise the run is saved by
   * `SaveRun` under one node name and one timestamp.
   */
  method ProcessCapture(saveDir: string, monitorNumber: int, nodeNumber: int, uploadEnabled: bool,
                        monitors: seq<Image>, now: Clock, ids: seq<string>,
                        disk: Disk, unwritable: set<Path>, log: seq<Upload>)
    returns (outcome: Outcome, disk': Disk, log': seq<Upload>)
    requires ValidIds(ids)
    ensures CaptureMonitor(monitorNumber, monitors).CaptureFailed? ==>
      outcome == CaptureError(CaptureMonitor(monitorNumber, monitors).error) && disk' == disk && log' == log
    ensures CaptureMonitor(monitorNumber, monitors).Screenshot? ==>
      var shot := CaptureMonitor(monitorNumber, monitors).image;
      var arts := RunArtifacts(saveDir, NodeName(nodeNumber), Timestamp(now), ids, shot);
      var done := WrittenCount(shot);
      done in {1, 10} &&
      outcome == (if done == 10 then Completed else WriteRaised(done)) &&
      disk' == WriteAll(disk, arts[..done], unwritable) &&
      log' == log + (if uploadEnabled then UploadsOf(arts[..done]) else [])
  {
    var timestamp := Timestamp(now);
    var nodeName := NodeName(nodeNumber);

    var captured := CaptureMonitor(monitorNumber, monitors);
    if captured.CaptureFailed? {
      return CaptureError(captured.error), disk, log;
    }
    outcome, disk', log' := SaveRun(saveDir, nodeName, timestamp, ids, captured.image, uploadEnabled,
                                    disk, unwritable, log);
  }

  /**
   * The saving half of `process_capture`: the full screenshot goes to the
   * `main` folder and is uploaded when enabled, then the nine tiles follow.
   * The first `WrittenCount` artifacts of the run are written, in order,
   * and exactly those are uploaded, each right after it is written.
   */
  method SaveRun(saveDir: string, nodeName: string, timestamp: string, ids: seq<string>,
                 screenshot: Image, uploadEnabled: bool,
                 disk: Disk, unwritable: set<Path>, log: seq<Upload>)
    returns (outcome: Outcome, disk': Disk, log': seq<Upload>)
    requires ValidIds(ids)
    ensures var arts := RunArtifacts(saveDir, nodeName, timestamp, ids, screenshot);
      var done := WrittenCount(screenshot);
      outcome == (if done == 10 then Completed else WriteRaised(done)) &&
      disk' == WriteAll(disk, arts[..done], unwritable) &&
      log' == log + (if uploadEnabled then UploadsOf(arts[..done]) else [])
  {
    ghost var arts := RunArtifacts(saveDir, nodeName, timestamp, ids, screenshot);
    var uniqueId := ids[0];
    var mainFileName := MainFileName(nodeName, timestamp, uniqueId);
    var mainPath := [saveDir, nodeName, timestamp, "main", mainFileName];
    var written := ImWrite(disk, mainPath, screenshot, unwritable);
    if written.None? {
      assert arts[..0] == [];
      return WriteRaised(0), disk, log;
    }
    var mainUploads := [];
    if uploadEnabled {
      mainUploads := [Upload(mainPath, BucketName, MainKey(nodeName, timestamp, mainFileName))];
    }

    var raised;
    raised, disk', log' := SaveStreams(saveDir, nodeName, timestamp, ids, screenshot, uploadEnabled,
                                       written.value, unwritable, log + mainUploads);
    outcome := if raised then WriteRaised(1) else Completed;
    SavedAfterMain(disk, MainArtifact(saveDir, nodeName, timestamp, uniqueId, screenshot),
                   Tiles(saveDir, nodeName, timestamp, ids, screenshot),
                   if raised then 0 else 9, unwritable, log, uploadEnabled);
  }

  /**
   * The tiling loop of `process_capture`: tiles 1..9 are cut, written and,
   * when enabled, uploaded one after the other. `cv2.imwrite` raises on the
   * first tile when the tiles are empty (a screen under 3 pixels high or
   * wide), and then nothing of the tiles is written or uploaded.
   */
  method SaveStreams(saveDir: string, nodeName: string, timestamp: string, ids: seq<string>,
                     screenshot: Image, uploadEnabled: bool,
                     disk: Disk, unwritable: set<Path>, log: seq<Upload>)
    returns (raised: bool, disk': Disk, log': seq<Upload>)
    requires ValidIds(ids)
    ensures var tiles := Tiles(saveDir, nodeName, timestamp, ids, screenshot);
      var n := if raised then 0 else 9;
      raised == (screenshot.height < 3 || screenshot.width < 3) &&
      disk' == WriteAll(disk, tiles[..n], unwritable) &&
      log' == log + (if uploadEnabled then UploadsOf(tiles[..n]) else [])
  {
    ghost var tiles := Tiles(saveDir, nodeName, timestamp, ids, screenshot);
    disk', log' := disk, log;
    for i := 1 to 10
      invariant i > 1 ==> screenshot.height >= 3 && screenshot.width >= 3
      invariant disk' == WriteAll(disk, tiles[..i - 1], unwritable)
      invariant log' == log + (if uploadEnabled then UploadsOf(tiles[..i - 1]) else [])
    {
      raised, disk', log' := WriteTile(saveDir, nodeName, timestamp, ids, i, screenshot, uploadEnabled,
                                    disk', unwritable, log');
      if raised {
        return;
      }
      PrefixStep(disk, tiles, unwritable, i - 1, log, uploadEnabled);
    }
    assert tiles[..9] == tiles;
    raised := false;
  }

  // ---------------------------------------------------------------------
  // Lemmas

  /**
   * Writing and uploading the main artifact, then the first `n` tiles, is
   * writing and uploading the first `n + 1` artifacts of the run.
   */
  lemma SavedAfterMain(disk: Disk, main: Artifact, tiles: seq<Artifact>, n: nat,
                       unwritable: set<Path>, log: seq<Upload>, uploadEnabled: bool)
    requires |tiles| == 9 && n in {0, 9}
    ensures WriteAll(Stored(disk, main.path, main.image, unwritable), tiles[..n], unwritable) ==
            WriteAll(disk, ([main] + tiles)[..n + 1], unwritable)
    ensures (log + (if uploadEnabled then [UploadOf(main)] else [])) +
            (if uploadEnabled then UploadsOf(tiles[..n]) else []) ==
            log + (if uploadEnabled then UploadsOf(([main] + tiles)[..n + 1]) else [])
  {
    RunPrefix(main, tiles, n + 1);
    assert WriteAll(disk, [main], unwritable) == Stored(disk, main.path, main.image, unwritable) by {
      assert [main][..0] == [];
    }
    WriteAllAppend(disk, [main], tiles[..n], unwritable);
    if uploadEnabled {
      UploadsOfAppend([main], tiles[..n]);
      AppendAssoc(log, [UploadOf(main)], UploadsOf(tiles[..n]));
    }
  }

  /** The first `done` artifacts of a run are the main one followed by the first `done - 1` tiles. */
  lemma RunPrefix(main: Artifact, tiles: seq<Artifact>, done: nat)
    requires |tiles| == 9 && done in {0, 1, 10}
    ensures done >= 1 ==> ([main] + tiles)[..done] == [main] + tiles[..done - 1]
  {
    if done == 10 {
      assert tiles[..9] == tiles;
    }
  }

  /**
   * An artifact of a run saved under `saveDir`: its path is
   * `saveDir/nodeName/timestamp/<folder>/<file>` and its key is that path
   * with `saveDir` dropped, joined by `/`.
   */
  predicate Placed(a: Artifact, saveDir: string, nodeName: string, timestamp: string)
  {
    |a.path| == 5 && a.path[..3] == [saveDir, nodeName, timestamp] && a.key == JoinPath(a.path[1..])
  }

  lemma MainLayout(saveDir: string, nodeName: string, timestamp: string, id: string, shot: Image)
    ensures var a := MainArtifact(saveDir, nodeName, timestamp, id, shot);
      Placed(a, saveDir, nodeName, timestamp) && a.path[3] == "main" &&
      a.path[4][|nodeName| + 1..|nodeName| + 1 + |timestamp|] == timestamp
  {
    var mainFileName := MainFileName(nodeName, timestamp, id);
    MainKeyIsPath(nodeName, timestamp, mainFileName);
    FileNameLayout(nodeName, timestamp, id);
  }

  lemma TilesLayout(saveDir: string, nodeName: string, timestamp: string, ids: seq<string>, shot: Image)
    requires ValidIds(ids)
    ensures var tiles := Tiles(saveDir, nodeName, timestamp, ids, shot);
      forall i | 1 <= i < 10 ::
        Placed(tiles[i - 1], saveDir, nodeName, timestamp) &&
        tiles[i - 1].path[3] == StreamFolder(i) && tiles[i - 1].path[4][11..11 + |timestamp|] == timestamp &&
        tiles[i - 1].path[3] != "main"
  {
    var tiles := Tiles(saveDir, nodeName, timestamp, ids, shot);
    forall i | 1 <= i < 10
      ensures Placed(tiles[i - 1], saveDir, nodeName, timestamp)
      ensures tiles[i - 1].path[3] == StreamFolder(i) && tiles[i - 1].path[4][11..11 + |timestamp|] == timestamp
      ensures tiles[i - 1].path[3] != "main"
    {
      TileLayout(saveDir, nodeName, timestamp, i, ids[i], shot);
      StreamFolderShape(i, i);
      assert StreamFolder(i)[0] == 's';
    }
  }

  /**
   * The layout of a run: ten artifacts at distinct paths, all under
   * `saveDir/nodeName/timestamp`, each keyed by its own relative path; the
   * main one in folder `main`, tile i in `stream_00i`, and the run's single
   * timestamp inside every file name.
   */
  lemma RunLayout(saveDir: string, nodeName: string, timestamp: string, ids: seq<string>, shot: Image)
    requires ValidIds(ids)
    ensures var arts := RunArtifacts(saveDir, nodeName, timestamp, ids, shot);
      DistinctPaths(arts) &&
      (forall k | 0 <= k < 10 ::
        |arts[k].path| == 5 && arts[k].path[..3] == [saveDir, nodeName, timestamp] &&
        arts[k].key == JoinPath(arts[k].path[1..])) &&
      arts[0].path[3] == "main" &&
      arts[0].path[4][|nodeName| + 1..|nodeName| + 1 + |timestamp|] == timestamp &&
      (forall i | 1 <= i < 10 ::
        arts[i].path[3] == StreamFolder(i) && arts[i].path[4][11..11 + |timestamp|] == timestamp)
  {
    var arts := RunArtifacts(saveDir, nodeName, timestamp, ids, shot);
    var tiles := Tiles(saveDir, nodeName, timestamp, ids, shot);
    MainLayout(saveDir, nodeName, timestamp, ids[0], shot);
    TilesLayout(saveDir, nodeName, timestamp, ids, shot);
    TilesDistinct(saveDir, nodeName, timestamp, ids, shot);
    assert forall i | 1 <= i < 10 :: arts[i] == tiles[i - 1];
    forall k | 0 <= k < 10
      ensures Placed(arts[k], saveDir, nodeName, timestamp)
    {
    }
    forall j, k | 0 <= j < k < 10
      ensures arts[j].path != arts[k].path
    {
      if j == 0 {
        assert arts[j].path[3] != arts[k].path[3];
      } else {
        assert arts[j] == tiles[j - 1] && arts[k] == tiles[k - 1];
      }
    }
  }

  /**
   * The uploads of a completed run with uploads enabled: exactly ten, the
   * main file first and then tiles 1..9, each the artifact's own path and
   * key in the bucket.
   */
  lemma UploadOrder(saveDir: string, nodeName: string, timestamp: string, ids: seq<string>, shot: Image)
    requires ValidIds(ids)
    ensures var arts := RunArtifacts(saveDir, nodeName, timestamp, ids, shot);
      var ups := UploadsOf(arts);
      |ups| == 10 &&
      ups[0].localPath[3] == "main" &&
      ups[0].key == MainKey(nodeName, timestamp, MainFileName(nodeName, timestamp, ids[0])) &&
      (forall i | 1 <= i < 10 ::
        ups[i].localPath[3] == StreamFolder(i) &&
        ups[i].key == StreamKey(nodeName, timestamp, i, StreamFileName(i, timestamp, ids[i]))) &&
      (forall k | 0 <= k < 10 :: ups[k].bucket == BucketName && ups[k].key == JoinPath(ups[k].localPath[1..]))
  {
    var arts := RunArtifacts(saveDir, nodeName, timestamp, ids, shot);
    var tiles := Tiles(saveDir, nodeName, timestamp, ids, shot);
    var ups := UploadsOf(arts);
    RunLayout(saveDir, nodeName, timestamp, ids, shot);
    assert ups[0] == UploadOf(MainArtifact(saveDir, nodeName, timestamp, ids[0], shot));
    forall i | 1 <= i < 10
      ensures ups[i].localPath[3] == StreamFolder(i)
      ensures ups[i].key == StreamKey(nodeName, timestamp, i, StreamFileName(i, timestamp, ids[i]))
    {
      assert ups[i] == UploadOf(arts[i]) && arts[i] == tiles[i - 1];
    }
    forall k | 0 <= k < 10
      ensures ups[k].bucket == BucketName && ups[k].key == JoinPath(ups[k].localPath[1..])
    {
      assert ups[k] == UploadOf(arts[k]);
    }
  }

  /**
   * A run appends no upload when uploads are off, and otherwise one per file
   * written: ten for any screen at least 3 pixels high and wide.
   */
  lemma RunUploadCount(saveDir: string, nodeName: string, timestamp: string, ids: seq<string>, shot: Image,
                       uploadEnabled: bool)
    requires ValidIds(ids)
    ensures var arts := RunArtifacts(saveDir, nodeName, timestamp, ids, shot);
      var ups := if uploadEnabled then UploadsOf(arts[..WrittenCount(shot)]) else [];
      (!uploadEnabled ==> |ups| == 0) &&
      (uploadEnabled && shot.height >= 3 && shot.width >= 3 ==> |ups| == 10 && ups == UploadsOf(arts))
  {
    var arts := RunArtifacts(saveDir, nodeName, timestamp, ids, shot);
    assert arts[..10] == arts;
  }

  /**
   * Two runs of one node within the same second share the timestamp folder,
   * but an artifact drawn with a different id lands at a different path, so
   * the second run never overwrites the first run's file.
   */
  lemma RunsDoNotOverwrite(saveDir: string, nodeName: string, timestamp: string,
                           ids1: seq<string>, ids2: seq<string>, shot1: Image, shot2: Image, k: nat)
    requires ValidIds(ids1) && ValidIds(ids2) && k < 10 && ids1[k] != ids2[k]
    ensures RunArtifacts(saveDir, nodeName, timestamp, ids1, shot1)[k].path !=
            RunArtifacts(saveDir, nodeName, timestamp, ids2, shot2)[k].path
  {
    if k == 0 {
      FileNameDistinctIds(nodeName, timestamp, ids1[0], ids2[0]);
    } else {
      TileAt(saveDir, nodeName, timestamp, ids1, shot1, k);
      TileAt(saveDir, nodeName, timestamp, ids2, shot2, k);
      FileNameDistinctIds(StreamFolder(k), timestamp, ids1[k], ids2[k]);
    }
  }

  /**
   * After a completed run, each of the ten paths that can be written holds
   * its artifact's image, and every other path is as it was.
   */
  lemma CompletedRunFiles(saveDir: string, nodeName: string, timestamp: string, ids: seq<string>, shot: Image,
                          disk: Disk, unwritable: set<Path>, p: Path)
    requires ValidIds(ids)
    ensures var arts := RunArtifacts(saveDir, nodeName, timestamp, ids, shot);
      var disk' := WriteAll(disk, arts, unwritable);
      (forall k | 0 <= k < 10 && arts[k].path !in unwritable ::
        arts[k].path in disk' && disk'[arts[k].path] == arts[k].image) &&
      ((forall k | 0 <= k < 10 :: arts[k].path != p) ==>
        (p in disk' <==> p in disk) && (p in disk ==> disk'[p] == disk[p]))
  {
    var arts := RunArtifacts(saveDir, nodeName, timestamp, ids, shot);
    RunLayout(saveDir, nodeName, timestamp, ids, shot);
    forall k | 0 <= k < 10 && arts[k].path !in unwritable
      ensures arts[k].path in WriteAll(disk, arts, unwritable)
      ensures WriteAll(disk, arts, unwritable)[arts[k].path] == arts[k].image
    {
      WriteAllAt(disk, arts, unwritable, k);
    }
    if forall k | 0 <= k < 10 :: arts[k].path != p {
      WriteAllElsewhere(disk, arts, unwritable, p);
    }
  }
}
