/** One run of `capture_tuas_cameras`: the early exits, the per-camera download loop and the metadata it assembles.
    The clock, the upstream feed and the outcome of each download are inputs. */
module Capture {
  import opened Wrappers
  import opened Seqs
  import opened Archive
  import opened Selection

  /** `now.isoformat()`, `now.strftime('%Y-%m-%d')` and `now.strftime('%H-%M-%S')` for the run's local time. */
  datatype Clock = Clock(timestamp: string, dateFolder: string, timeStr: string)

  /** One element of `metadata['cameras']`. */
  datatype MetadataEntry = MetadataEntry(
    cameraId: Option<string>,
    location: string,
    filename: string,
    imageUrl: string,
    latitude: Option<real>,
    longitude: Option<real>)

  /** The metadata document of one run. */
  datatype Metadata = Metadata(timestamp: string, date: string, time: string, cameras: seq<MetadataEntry>)

  /** One call `download_image(image_url, save_path)`. */
  datatype Download = Download(url: string, savePath: string)

  /** How a run ends: stopped for a missing API key, stopped after creating the day's directory because the feed was
      empty, or completed with the downloads it attempted and the metadata file it wrote. */
  datatype RunResult =
    | MissingApiKey
    | NoCameraData(dailyDir: string)
    | Completed(dailyDir: string, selected: seq<CameraRecord>, downloads: seq<Download>,
                metadataFile: string, metadata: Metadata)

  /** `if image_url:`: the `ImageLink` key is present and not the empty string. */
  predicate HasImageLink(cam: CameraRecord) {
    cam.imageLink.Some? && cam.imageLink.value != ""
  }

  /** A camera whose image was downloaded, given what `download_image` reports for each URL. */
  function Downloaded(downloadOk: string -> bool): CameraRecord -> bool {
    cam => HasImageLink(cam) && downloadOk(cam.imageLink.value)
  }

  /** A camera whose download was attempted and reported failure. */
  function DownloadFailed(downloadOk: string -> bool): CameraRecord -> bool {
    cam => HasImageLink(cam) && !downloadOk(cam.imageLink.value)
  }

  /** A camera with no usable `ImageLink`. */
  predicate MissingImageLink(cam: CameraRecord) {
    !HasImageLink(cam)
  }

  /** The metadata entry appended for a camera whose download succeeded. */
  function EntryFor(cam: CameraRecord, timeStr: string): MetadataEntry
    requires HasImageLink(cam)
  {
    MetadataEntry(cam.cameraId, cam.location.GetOr("Unknown"), ImageFileName(cam.cameraId, timeStr),
                  cam.imageLink.value, cam.latitude, cam.longitude)
  }

  /** The download attempted for a camera that has an image link. */
  function DownloadFor(cam: CameraRecord, dailyDir: string, timeStr: string): Download
    requires HasImageLink(cam)
  {
    Download(cam.imageLink.value, JoinPath(dailyDir, ImageFileName(cam.cameraId, timeStr)))
  }

  /** The metadata entries of the given cameras, one each, in order. */
  function Entries(cams: seq<CameraRecord>, timeStr: string): (r: seq<MetadataEntry>)
    requires forall k :: 0 <= k < |cams| ==> HasImageLink(cams[k])
    ensures |r| == |cams|
    ensures forall k :: 0 <= k < |r| ==> r[k] == EntryFor(cams[k], timeStr)
    decreases |cams|
  {
    if cams == [] then []
    else Entries(cams[..|cams| - 1], timeStr) + [EntryFor(cams[|cams| - 1], timeStr)]
  }

  /** The downloads of the given cameras, one each, in order. */
  function Downloads(cams: seq<CameraRecord>, dailyDir: string, timeStr: string): (r: seq<Download>)
    requires forall k :: 0 <= k < |cams| ==> HasImageLink(cams[k])
    ensures |r| == |cams|
    ensures forall k :: 0 <= k < |r| ==> r[k] == DownloadFor(cams[k], dailyDir, timeStr)
    decreases |cams|
  {
    if cams == [] then []
    else Downloads(cams[..|cams| - 1], dailyDir, timeStr) + [DownloadFor(cams[|cams| - 1], dailyDir, timeStr)]
  }

  lemma EntriesSnoc(cams: seq<CameraRecord>, cam: CameraRecord, timeStr: string)
    requires forall k :: 0 <= k < |cams| ==> HasImageLink(cams[k])
    requires HasImageLink(cam)
    ensures Entries(cams + [cam], timeStr) == Entries(cams, timeStr) + [EntryFor(cam, timeStr)]
  {
    assert (cams + [cam])[..|cams|] == cams;
  }

  lemma DownloadsSnoc(cams: seq<CameraRecord>, cam: CameraRecord, dailyDir: string, timeStr: string)
    requires forall k :: 0 <= k < |cams| ==> HasImageLink(cams[k])
    requires HasImageLink(cam)
    ensures Downloads(cams + [cam], dailyDir, timeStr) == Downloads(cams, dailyDir, timeStr) + [DownloadFor(cam, dailyDir, timeStr)]
  {
    assert (cams + [cam])[..|cams|] == cams;
  }

  /** One more selected camera adds its download when it has a link, and its entry when that download succeeds. */
  lemma MetadataStep(selected: seq<CameraRecord>, i: nat, dailyDir: string, timeStr: string, downloadOk: string -> bool)
    requires i < |selected|
    ensures Downloads(Filter(HasImageLink, selected[..i + 1]), dailyDir, timeStr)
      == Downloads(Filter(HasImageLink, selected[..i]), dailyDir, timeStr)
         + (if HasImageLink(selected[i]) then [DownloadFor(selected[i], dailyDir, timeStr)] else [])
    ensures Entries(Filter(Downloaded(downloadOk), selected[..i + 1]), timeStr)
      == Entries(Filter(Downloaded(downloadOk), selected[..i]), timeStr)
         + (if Downloaded(downloadOk)(selected[i]) then [EntryFor(selected[i], timeStr)] else [])
  {
    FilterSnoc(HasImageLink, selected, i);
    FilterSnoc(Downloaded(downloadOk), selected, i);
    if HasImageLink(selected[i]) {
      DownloadsSnoc(Filter(HasImageLink, selected[..i]), selected[i], dailyDir, timeStr);
    }
    if Downloaded(downloadOk)(selected[i]) {
      EntriesSnoc(Filter(Downloaded(downloadOk), selected[..i]), selected[i], timeStr);
    }
  }

  /** The loop at lines 105-127: one download per selected camera with an image link, in selection order, and one
      metadata entry per such camera whose download succeeded; cameras without a link contribute nothing. */
  method AssembleMetadata(selected: seq<CameraRecord>, dailyDir: string, timeStr: string, downloadOk: string -> bool)
    returns (cameras: seq<MetadataEntry>, downloads: seq<Download>)
    ensures downloads == Downloads(Filter(HasImageLink, selected), dailyDir, timeStr)
    ensures cameras == Entries(Filter(Downloaded(downloadOk), selected), timeStr)
  {
    cameras, downloads := [], [];
    var i := 0;
    while i < |selected|
      invariant 0 <= i <= |selected|
      invariant downloads == Downloads(Filter(HasImageLink, selected[..i]), dailyDir, timeStr)
      invariant cameras == Entries(Filter(Downloaded(downloadOk), selected[..i]), timeStr)
    {
      var camera := selected[i];
      MetadataStep(selected, i, dailyDir, timeStr, downloadOk);
      if camera.imageLink.Some? && camera.imageLink.value != "" {
        var imageUrl := camera.imageLink.value;
        var filename := ImageFileName(camera.cameraId, timeStr);
        downloads := downloads + [Download(imageUrl, JoinPath(dailyDir, filename))];
        if downloadOk(imageUrl) {
          cameras := cameras + [MetadataEntry(camera.cameraId, camera.location.GetOr("Unknown"), filename,
                                              imageUrl, camera.latitude, camera.longitude)];
        }
      }
      i := i + 1;
    }
    assert selected[..i] == selected;
  }

  /** `capture_tuas_cameras`: an empty API key stops the run before anything else; an empty feed stops it after the
      day's directory is created and before any download or metadata; otherwise the selection is downloaded and the
      metadata document is written as `metadata_<time>.json` in the day's directory. */
  method CaptureTuasCameras(apiKey: string, clock: Clock, feed: seq<CameraRecord>, downloadOk: string -> bool)
    returns (r: RunResult)
    ensures r.MissingApiKey? <==> apiKey == ""
    ensures r.NoCameraData? <==> apiKey != "" && feed == []
    ensures !r.MissingApiKey? ==> r.dailyDir == JoinPath(OutputDir, clock.dateFolder)
    ensures r.Completed? ==>
      var selected := SelectCameras(feed);
      r.selected == selected &&
      r.downloads == Downloads(Filter(HasImageLink, selected), r.dailyDir, clock.timeStr) &&
      r.metadataFile == JoinPath(r.dailyDir, "metadata_" + clock.timeStr + ".json") &&
      r.metadata == Metadata(clock.timestamp, clock.dateFolder, clock.timeStr,
                             Entries(Filter(Downloaded(downloadOk), selected), clock.timeStr))
  {
    if apiKey == "" {
      return MissingApiKey;
    }
    var dailyDir := DailyDir(clock.dateFolder);
    if feed == [] {
      return NoCameraData(dailyDir);
    }
    var selected := SelectCameras(feed);
    var cameras, downloads := AssembleMetadata(selected, dailyDir, clock.timeStr, downloadOk);
    var metadata := Metadata(clock.timestamp, clock.dateFolder, clock.timeStr, cameras);
    r := Completed(dailyDir, selected, downloads, JoinPath(dailyDir, MetadataFileName(clock.timeStr)), metadata);
  }

  /** Every selected camera falls in exactly one of three groups: captured (one metadata entry each), download
      failed, or no image link; so the entries number the selected cameras less the failures and the missing links. */
  lemma {:induction false} MetadataCountBalance(selected: seq<CameraRecord>, downloadOk: string -> bool)
    ensures |Filter(Downloaded(downloadOk), selected)| + |Filter(DownloadFailed(downloadOk), selected)|
            + |Filter(MissingImageLink, selected)| == |selected|
    decreases |selected|
  {
    if selected != [] {
      MetadataCountBalance(selected[..|selected| - 1], downloadOk);
    }
  }

  /** The captured cameras are exactly the attempted downloads that reported success, in the same order. */
  lemma CapturedAmongAttempted(selected: seq<CameraRecord>, downloadOk: string -> bool)
    ensures Filter(Downloaded(downloadOk), Filter(HasImageLink, selected)) == Filter(Downloaded(downloadOk), selected)
    ensures |Filter(Downloaded(downloadOk), selected)| <= |Filter(HasImageLink, selected)|
  {
    FilterNarrow(Downloaded(downloadOk), HasImageLink, selected);
  }

  /** Every entry's file name is `camera_<id>_<time>.jpg`, which the summary counts as an image. */
  lemma EntryFilesAreImages(cams: seq<CameraRecord>, timeStr: string, k: nat)
    requires forall j :: 0 <= j < |cams| ==> HasImageLink(cams[j])
    requires k < |cams|
    ensures Entries(cams, timeStr)[k].filename == "camera_" + IdText(cams[k].cameraId) + "_" + timeStr + ".jpg"
    ensures IsImageFile(Entries(cams, timeStr)[k].filename)
  {
    ImageFileNameIsImage(cams[k].cameraId, timeStr);
  }
}

/** A worked example of one run's metadata. */
module CaptureExamples {
  import opened Wrappers
  import opened Seqs
  import opened Selection
  import opened SelectionExamples
  import opened Capture
  import Archive

  /** A feed with the watchlisted camera 4713 and the non-watchlisted, link-less camera 2701: when the download of
      4713's image succeeds, the metadata holds exactly one entry, for 4713, saved as `camera_4713_<time>.jpg`, and
      exactly one download is attempted. */
  lemma SecondLinkRun(timeStr: string, downloadOk: string -> bool)
    requires downloadOk(SecondLink.imageLink.value)
    ensures Filter(HasImageLink, SelectCameras([SecondLink, Causeway])) == [SecondLink]
    ensures Entries(Filter(Downloaded(downloadOk), SelectCameras([SecondLink, Causeway])), timeStr)
      == [MetadataEntry(Some("4713"), "Tuas Second Link", "camera_4713_" + timeStr + ".jpg",
                        "https://images.example/4713.jpg", None, None)]
  {
    PrimaryExample();
    assert [SecondLink][..0] == [];
    assert Filter(HasImageLink, [SecondLink]) == [SecondLink];
    assert Filter(Downloaded(downloadOk), [SecondLink]) == [SecondLink];
    assert Entries([SecondLink], timeStr) == [EntryFor(SecondLink, timeStr)];
    assert Archive.ImageFileName(Some("4713"), timeStr) == "camera_4713_" + timeStr + ".jpg";
  }
}
