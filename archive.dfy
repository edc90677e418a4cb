/** The archive's on-disk layout: the output directory, the per-run file names and the glob patterns the summary counts. */
module Archive {
  import opened Wrappers

  /** `OUTPUT_DIR`, relative to the working directory. */
  const OutputDir: string := "traffic_images"

  const ImagePrefix: string := "camera_"
  const ImageSuffix: string := ".jpg"
  const MetadataPrefix: string := "metadata_"
  const MetadataSuffix: string := ".json"

  /** `Path(dir) / name` for a single path component `name`. */
  function JoinPath(dir: string, name: string): string {
    dir + "/" + name
  }

  /** The date partition directory `OUTPUT_DIR / date_folder`. */
  function DailyDir(dateFolder: string): string {
    JoinPath(OutputDir, dateFolder)
  }

  /** How an f-string renders the value of `camera.get('CameraID')`: a missing identifier prints as `None`. */
  function IdText(cameraId: Option<string>): string {
    cameraId.GetOr("None")
  }

  /** `f"camera_{camera_id}_{time_str}.jpg"`: the image file name carries the camera and the time of day, not the date. */
  function ImageFileName(cameraId: Option<string>, timeStr: string): string {
    ImagePrefix + IdText(cameraId) + "_" + timeStr + ImageSuffix
  }

  /** `f"metadata_{time_str}.json"`. */
  function MetadataFileName(timeStr: string): string {
    MetadataPrefix + timeStr + MetadataSuffix
  }

  /** `fnmatch(name, prefix + "*" + suffix)`: the wildcard matches any run of characters, the empty one included. */
  predicate GlobMatch(name: string, prefix: string, suffix: string) {
    |prefix| + |suffix| <= |name| && name[..|prefix|] == prefix && name[|name| - |suffix|..] == suffix
  }

  /** Matched by `glob('metadata_*.json')`. */
  predicate IsMetadataFile(name: string) {
    GlobMatch(name, MetadataPrefix, MetadataSuffix)
  }

  /** Matched by `glob('camera_*.jpg')`. */
  predicate IsImageFile(name: string) {
    GlobMatch(name, ImagePrefix, ImageSuffix)
  }

  /** Every image a run saves is counted as an image, and never as a capture, by the summary. */
  lemma ImageFileNameIsImage(cameraId: Option<string>, timeStr: string)
    ensures IsImageFile(ImageFileName(cameraId, timeStr))
    ensures !IsMetadataFile(ImageFileName(cameraId, timeStr))
  {
    var name := ImageFileName(cameraId, timeStr);
    assert name[..|ImagePrefix|] == ImagePrefix;
    assert name[|name| - |ImageSuffix|..] == ImageSuffix;
    assert name[0] == 'c';
  }

  /** Every metadata document a run writes is counted as one capture, and never as an image, by the summary. */
  lemma MetadataFileNameIsMetadata(timeStr: string)
    ensures IsMetadataFile(MetadataFileName(timeStr))
    ensures !IsImageFile(MetadataFileName(timeStr))
  {
    var name := MetadataFileName(timeStr);
    assert name[..|MetadataPrefix|] == MetadataPrefix;
    assert name[|name| - |MetadataSuffix|..] == MetadataSuffix;
    assert name[0] == 'm';
  }

  /** For time strings of one length (strftime's `%H-%M-%S` always gives eight characters), two image
      file names are equal only for the same rendered camera identifier and the same time. */
  lemma ImageFileNameInjective(a: Option<string>, b: Option<string>, t1: string, t2: string)
    requires |t1| == |t2|
    requires ImageFileName(a, t1) == ImageFileName(b, t2)
    ensures IdText(a) == IdText(b) && t1 == t2
  {
    var n1, n2 := ImageFileName(a, t1), ImageFileName(b, t2);
    var p := |ImagePrefix|;
    assert |IdText(a)| == |IdText(b)|;
    var m := |IdText(a)|;
    assert n1[p..p + m] == IdText(a);
    assert n2[p..p + m] == IdText(b);
    assert n1[p + m + 1..p + m + 1 + |t1|] == t1;
    assert n2[p + m + 1..p + m + 1 + |t2|] == t2;
  }
}
