/**
 * What a capture run leaves behind: the files written under the save folder
 * (a map from path to image standing for the disk) and the uploads issued
 * (a log of (local path, bucket, key)), plus the nine tile artifacts that
 * both the command-line and the window variant produce in the same way.
 */
module Artifacts {
  import opened Wrappers
  import opened Raster
  import opened Grid
  import opened Naming

  /** The bucket every upload goes to. */
  const BucketName: string := "orus-repo-01"

  /** One file of a run: where it is written, the object key it is uploaded under, and its pixels. */
  datatype Artifact = Artifact(path: Path, key: string, image: Image)

  /** One call of `upload_to_s3(file_path, bucket_name, s3_key)`. */
  datatype Upload = Upload(localPath: Path, bucket: string, key: string)

  /** The local files: path to the image encoded there. Folders are implied by the paths. */
  type Disk = map<Path, Image>

  function UploadOf(a: Artifact): Upload
  {
    Upload(a.path, BucketName, a.key)
  }

  function UploadsOf(arts: seq<Artifact>): seq<Upload>
  {
    seq(|arts|, k requires 0 <= k < |arts| => UploadOf(arts[k]))
  }

  /** The disk once `img` is stored at `path`, unless the path cannot be written. */
  function Stored(disk: Disk, path: Path, img: Image, unwritable: set<Path>): Disk
  {
    if path in unwritable then disk else disk[path := img]
  }

  /**
   * `cv2.imwrite(path, img)`: raises (`None`) on an image without pixels;
   * otherwise returns, having stored the image, or having silently stored
   * nothing when the path cannot be written.
   */
  function ImWrite(disk: Disk, path: Path, img: Image, unwritable: set<Path>): Option<Disk>
  {
    if IsEmpty(img) then None else Some(Stored(disk, path, img, unwritable))
  }

  /** The disk after the artifacts are written one after the other. */
  function WriteAll(disk: Disk, arts: seq<Artifact>, unwritable: set<Path>): Disk
  {
    if arts == [] then disk
    else
      var last := arts[|arts| - 1];
      Stored(WriteAll(disk, arts[..|arts| - 1], unwritable), last.path, last.image, unwritable)
  }

  predicate DistinctPaths(arts: seq<Artifact>)
  {
    forall j, k | 0 <= j < k < |arts| :: arts[j].path != arts[k].path
  }

  /**
   * The ten values `generate_unique_id()` returns during one run, in call
   * order: the main capture's, then one per tile.
   */
  predicate ValidIds(ids: seq<string>)
  {
    |ids| == 10 && forall k | 0 <= k < 10 :: IsUniqueId(ids[k])
  }

  /**
   * Tile i (1..9): cell `Cells()[i - 1]` of the screenshot, written at
   * `save_dir/node/timestamp/stream_NNN/stream_NNN_{timestamp}_{id}.png`
   * and uploaded under `node/timestamp/stream_NNN/{file name}`.
   */
  function TileArtifact(saveDir: string, nodeName: string, timestamp: string, i: nat, id: string, shot: Image): Artifact
    requires 1 <= i <= 9
  {
    var (row, col) := Cells()[i - 1];
    var fileName := StreamFileName(i, timestamp, id);
    Artifact([saveDir, nodeName, timestamp, StreamFolder(i), fileName],
             StreamKey(nodeName, timestamp, i, fileName),
             Crop(shot, TileRect(row, col, shot.height, shot.width)))
  }

  /** Tiles 1..9 in order, tile i named with `ids[i]`. */
  function Tiles(saveDir: string, nodeName: string, timestamp: string, ids: seq<string>, shot: Image): seq<Artifact>
    requires ValidIds(ids)
  {
    seq(9, k requires 0 <= k < 9 =>
      TileArtifact(saveDir, nodeName, timestamp, k + 1, ids[k + 1], shot))
  }

  /**
   * How many of the ten artifacts `cv2.imwrite` is called on without
   * raising (a call on an unwritable path counts, though it stores nothing):
   * none for a screenshot without pixels, only the main one when the screen
   * is less than 3 pixels high or wide (every tile is then empty), all ten
   * otherwise. A captured screenshot always has pixels, so after a capture
   * the count is 1 or 10; 0 is reached only by a save given an empty image.
   */
  function WrittenCount(shot: Image): nat
  {
    if IsEmpty(shot) then 0 else if shot.height < 3 || shot.width < 3 then 1 else 10
  }

  /**
   * The body of the tiling loop both front ends run for tile i: name the
   * stream folder and file, cut the segment, write it, and when uploads are
   * on append its upload (issued at once, or queued as a task) to `log`.
   * `cv2.imwrite` raises on the empty segment of a screen under 3 pixels
   * high or wide, and then nothing is written or uploaded.
   */
  method WriteTile(saveDir: string, nodeName: string, timestamp: string, ids: seq<string>, i: nat,
                   screenshot: Image, uploadEnabled: bool, disk: Disk, unwritable: set<Path>, log: seq<Upload>)
    returns (raised: bool, disk': Disk, log': seq<Upload>)
    requires ValidIds(ids) && 1 <= i <= 9
    ensures var tile := Tiles(saveDir, nodeName, timestamp, ids, screenshot)[i - 1];
      raised == (screenshot.height < 3 || screenshot.width < 3) &&
      (raised ==> disk' == disk && log' == log) &&
      (!raised ==> disk' == Stored(disk, tile.path, tile.image, unwritable) &&
                   log' == log + (if uploadEnabled then [UploadOf(tile)] else []))
  {
    TileAt(saveDir, nodeName, timestamp, ids, screenshot, i);
    var (row, col) := Cells()[i - 1];
    var streamFileName := StreamFileName(i, timestamp, ids[i]);
    var streamPath := [saveDir, nodeName, timestamp, StreamFolder(i), streamFileName];
    var segment := Crop(screenshot, TileRect(row, col, screenshot.height, screenshot.width));
    var written := ImWrite(disk, streamPath, segment, unwritable);
    if written.None? {
      return true, disk, log;
    }
    raised, disk', log' := false, written.value, log;
    if uploadEnabled {
      var s3Key := StreamKey(nodeName, timestamp, i, streamFileName);
      log' := log' + [Upload(streamPath, BucketName, s3Key)];
    }
  }

  // ---------------------------------------------------------------------
  // Lemmas

  lemma AppendAssoc<T>(a: seq<T>, b: seq<T>, c: seq<T>)
    ensures (a + b) + c == a + (b + c)
  {
  }

  lemma UploadsOfPrefix(arts: seq<Artifact>, k: nat)
    requires k < |arts|
    ensures UploadsOf(arts[..k + 1]) == UploadsOf(arts[..k]) + [UploadOf(arts[k])]
  {
  }

  lemma WriteAllPrefix(disk: Disk, arts: seq<Artifact>, unwritable: set<Path>, k: nat)
    requires k < |arts|
    ensures WriteAll(disk, arts[..k + 1], unwritable) ==
            Stored(WriteAll(disk, arts[..k], unwritable), arts[k].path, arts[k].image, unwritable)
  {
    assert arts[..k + 1][..k] == arts[..k];
  }

  /**
   * One step of a loop that writes and uploads artifacts in order: storing
   * artifact k (and logging its upload when enabled) after the first k
   * extends the written and uploaded prefix by one.
   */
  lemma PrefixStep(disk: Disk, arts: seq<Artifact>, unwritable: set<Path>, k: nat,
                   log: seq<Upload>, uploadEnabled: bool)
    requires k < |arts|
    ensures WriteAll(disk, arts[..k + 1], unwritable) ==
            Stored(WriteAll(disk, arts[..k], unwritable), arts[k].path, arts[k].image, unwritable)
    ensures log + (if uploadEnabled then UploadsOf(arts[..k + 1]) else []) ==
            (log + (if uploadEnabled then UploadsOf(arts[..k]) else [])) +
            (if uploadEnabled then [UploadOf(arts[k])] else [])
  {
    WriteAllPrefix(disk, arts, unwritable, k);
    if uploadEnabled {
      UploadsOfPrefix(arts, k);
      AppendAssoc(log, UploadsOf(arts[..k]), [UploadOf(arts[k])]);
    }
  }

  /** Writing a list of artifacts is writing its first part, then its second. */
  lemma {:induction false} WriteAllAppend(disk: Disk, a: seq<Artifact>, b: seq<Artifact>, unwritable: set<Path>)
    ensures WriteAll(disk, a + b, unwritable) == WriteAll(WriteAll(disk, a, unwritable), b, unwritable)
    decreases |b|
  {
    if b != [] {
      var b' := b[..|b| - 1];
      assert (a + b)[..|a + b| - 1] == a + b';
      WriteAllAppend(disk, a, b', unwritable);
    } else {
      assert a + b == a;
    }
  }

  lemma UploadsOfAppend(a: seq<Artifact>, b: seq<Artifact>)
    ensures UploadsOf(a + b) == UploadsOf(a) + UploadsOf(b)
  {
  }

  /** With distinct paths, each writable artifact's path holds its image afterwards. */
  lemma {:induction false} WriteAllAt(disk: Disk, arts: seq<Artifact>, unwritable: set<Path>, k: nat)
    requires DistinctPaths(arts) && k < |arts| && arts[k].path !in unwritable
    ensures arts[k].path in WriteAll(disk, arts, unwritable)
    ensures WriteAll(disk, arts, unwritable)[arts[k].path] == arts[k].image
  {
    var init := arts[..|arts| - 1];
    if k < |arts| - 1 {
      assert arts[k] == init[k];
      WriteAllAt(disk, init, unwritable, k);
    }
  }

  /** A path no writable artifact has is left as it was. */
  lemma {:induction false} WriteAllElsewhere(disk: Disk, arts: seq<Artifact>, unwritable: set<Path>, p: Path)
    requires forall k | 0 <= k < |arts| :: arts[k].path == p ==> p in unwritable
    ensures p in WriteAll(disk, arts, unwritable) <==> p in disk
    ensures p in disk ==> WriteAll(disk, arts, unwritable)[p] == disk[p]
  {
    if arts != [] {
      var init := arts[..|arts| - 1];
      assert forall k | 0 <= k < |init| :: init[k] == arts[k];
      WriteAllElsewhere(disk, init, unwritable, p);
    }
  }

  /** Every tile has size (h/3) x (w/3), so a tile is empty exactly when the screen is under 3 pixels high or wide. */
  lemma TileSize(saveDir: string, nodeName: string, timestamp: string, i: nat, id: string, shot: Image)
    requires 1 <= i <= 9
    ensures var a := TileArtifact(saveDir, nodeName, timestamp, i, id, shot);
      a.image.height == shot.height / 3 && a.image.width == shot.width / 3 &&
      (IsEmpty(a.image) <==> shot.height < 3 || shot.width < 3)
  {
    CellsInGrid(i - 1);
  }

  /** Tile i of a run as the tiling loop builds it from grid cell i - 1. */
  lemma TileAt(saveDir: string, nodeName: string, timestamp: string, ids: seq<string>, shot: Image, i: nat)
    requires ValidIds(ids) && 1 <= i <= 9
    ensures var tile := Tiles(saveDir, nodeName, timestamp, ids, shot)[i - 1];
      var (row, col) := Cells()[i - 1];
      var fileName := StreamFileName(i, timestamp, ids[i]);
      row < 3 && col < 3 &&
      tile == Artifact([saveDir, nodeName, timestamp, StreamFolder(i), fileName],
                       StreamKey(nodeName, timestamp, i, fileName),
                       Crop(shot, TileRect(row, col, shot.height, shot.width))) &&
      (IsEmpty(tile.image) <==> shot.height < 3 || shot.width < 3)
  {
    CellsInGrid(i - 1);
    TileSize(saveDir, nodeName, timestamp, i, ids[i], shot);
  }

  /**
   * The layout of tile i: its path below the save folder is
   * node/timestamp/stream_NNN/file, its key is that path "/"-joined, and its
   * file name starts with its folder name and carries the run's timestamp.
   */
  lemma TileLayout(saveDir: string, nodeName: string, timestamp: string, i: nat, id: string, shot: Image)
    requires 1 <= i <= 9
    ensures var a := TileArtifact(saveDir, nodeName, timestamp, i, id, shot);
      var fileName := StreamFileName(i, timestamp, id);
      a.path == [saveDir, nodeName, timestamp, StreamFolder(i), fileName] &&
      a.key == JoinPath(a.path[1..]) &&
      fileName[..10] == StreamFolder(i) && fileName[11..11 + |timestamp|] == timestamp
  {
    var fileName := StreamFileName(i, timestamp, id);
    StreamKeyIsPath(nodeName, timestamp, i, fileName);
    StreamFolderShape(i, i);
    FileNameLayout(StreamFolder(i), timestamp, id);
  }

  /** The pixels of tile i are grid cell ((i-1)/3, (i-1)%3) of the screenshot. */
  lemma TileImage(saveDir: string, nodeName: string, timestamp: string, i: nat, id: string, shot: Image)
    requires 1 <= i <= 9
    ensures (i - 1) / 3 < 3 && (i - 1) % 3 < 3
    ensures TileArtifact(saveDir, nodeName, timestamp, i, id, shot).image ==
            Crop(shot, TileRect((i - 1) / 3, (i - 1) % 3, shot.height, shot.width))
  {
    CellsInGrid(i - 1);
  }

  /** The nine tiles have nine different paths, one per stream folder. */
  lemma TilesDistinct(saveDir: string, nodeName: string, timestamp: string, ids: seq<string>, shot: Image)
    requires ValidIds(ids)
    ensures DistinctPaths(Tiles(saveDir, nodeName, timestamp, ids, shot))
  {
    var tiles := Tiles(saveDir, nodeName, timestamp, ids, shot);
    forall j, k | 0 <= j < k < 9
      ensures tiles[j].path != tiles[k].path
    {
      TileInFolder(saveDir, nodeName, timestamp, ids, shot, j);
      TileInFolder(saveDir, nodeName, timestamp, ids, shot, k);
      StreamFolderShape(j + 1, k + 1);
    }
  }

  lemma TileInFolder(saveDir: string, nodeName: string, timestamp: string, ids: seq<string>, shot: Image, k: nat)
    requires ValidIds(ids) && k < 9
    ensures |Tiles(saveDir, nodeName, timestamp, ids, shot)[k].path| == 5
    ensures Tiles(saveDir, nodeName, timestamp, ids, shot)[k].path[3] == StreamFolder(k + 1)
  {
    TileFolder(saveDir, nodeName, timestamp, k + 1, ids[k + 1], shot);
  }

  lemma TileFolder(saveDir: string, nodeName: string, timestamp: string, i: nat, id: string, shot: Image)
    requires 1 <= i <= 9
    ensures |TileArtifact(saveDir, nodeName, timestamp, i, id, shot).path| == 5
    ensures TileArtifact(saveDir, nodeName, timestamp, i, id, shot).path[3] == StreamFolder(i)
  {
  }

  /**
   * `WrittenCount` is where `cv2.imwrite` first raises: every artifact
   * before it has pixels, and the one at it (if any) has none.
   */
  lemma WrittenCountIsFirstEmpty(main: Artifact, saveDir: string, nodeName: string, timestamp: string,
                                 ids: seq<string>, shot: Image)
    requires ValidIds(ids) && main.image == shot
    ensures var arts := [main] + Tiles(saveDir, nodeName, timestamp, ids, shot);
      var done := WrittenCount(shot);
      (forall j | 0 <= j < done :: !IsEmpty(arts[j].image)) &&
      (done < 10 ==> IsEmpty(arts[done].image))
  {
    var arts := [main] + Tiles(saveDir, nodeName, timestamp, ids, shot);
    forall j | 1 <= j < 10
      ensures IsEmpty(arts[j].image) <==> shot.height < 3 || shot.width < 3
    {
      TileSize(saveDir, nodeName, timestamp, j, ids[j], shot);
    }
  }
}
