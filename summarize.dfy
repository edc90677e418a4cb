/** `generate_summary`: rescanning the archive root and counting each day's metadata documents and images. */
module Summarize {
  import opened Wrappers
  import opened Seqs
  import opened Archive

  /** One entry of `sorted(OUTPUT_DIR.iterdir())`: its name, whether it is a directory, and the names inside it. */
  datatype DirEntry = DirEntry(name: string, isDir: bool, children: seq<string>)

  /** One element of `summary['days']`. */
  datatype DaySummary = DaySummary(date: string, captures: nat, images: nat)

  /** The summary document. */
  datatype Summary = Summary(lastUpdated: string, totalDays: nat, totalCaptures: nat, days: seq<DaySummary>)

  predicate IsDirectory(e: DirEntry) {
    e.isDir
  }

  /** The number of names `glob('metadata_*.json')` finds in a directory. */
  function MetadataCount(names: seq<string>): nat {
    |Filter(IsMetadataFile, names)|
  }

  /** The number of names `glob('camera_*.jpg')` finds in a directory. */
  function ImageCount(names: seq<string>): nat {
    |Filter(IsImageFile, names)|
  }

  /** The day summary of one date directory. */
  function DayOf(e: DirEntry): DaySummary {
    DaySummary(e.name, MetadataCount(e.children), ImageCount(e.children))
  }

  /** The day summaries of the given directories, one each, in order. */
  function Days(dirs: seq<DirEntry>): (r: seq<DaySummary>)
    ensures |r| == |dirs|
    ensures forall k :: 0 <= k < |r| ==> r[k] == DayOf(dirs[k])
    decreases |dirs|
  {
    if dirs == [] then [] else Days(dirs[..|dirs| - 1]) + [DayOf(dirs[|dirs| - 1])]
  }

  /** The sum of the `captures` counts of the given days. */
  function TotalCaptures(days: seq<DaySummary>): nat
    decreases |days|
  {
    if days == [] then 0 else TotalCaptures(days[..|days| - 1]) + days[|days| - 1].captures
  }

  /** The metadata documents physically present in the archive: those inside its directories, whatever else the
      root holds. */
  function MetadataFilesIn(listing: seq<DirEntry>): nat
    decreases |listing|
  {
    if listing == [] then 0
    else
      var last := listing[|listing| - 1];
      MetadataFilesIn(listing[..|listing| - 1]) + (if last.isDir then MetadataCount(last.children) else 0)
  }

  lemma DaysSnoc(dirs: seq<DirEntry>, e: DirEntry)
    ensures Days(dirs + [e]) == Days(dirs) + [DayOf(e)]
  {
    assert (dirs + [e])[..|dirs|] == dirs;
  }

  lemma TotalCapturesSnoc(days: seq<DaySummary>, d: DaySummary)
    ensures TotalCaptures(days + [d]) == TotalCaptures(days) + d.captures
  {
    assert (days + [d])[..|days|] == days;
  }

  /** `generate_summary` up to writing `summary.json`: nothing when the archive root does not exist; otherwise one day
      per directory of the listing in listing order, non-directories skipped, with `total_days` the number of
      directories and `total_captures` the number of metadata documents found in them. */
  method GenerateSummary(archiveExists: bool, listing: seq<DirEntry>, lastUpdated: string) returns (r: Option<Summary>)
    ensures r.None? <==> !archiveExists
    ensures r.Some? ==>
      r.value.lastUpdated == lastUpdated &&
      r.value.days == Days(Filter(IsDirectory, listing)) &&
      r.value.totalDays == |Filter(IsDirectory, listing)| &&
      r.value.totalCaptures == MetadataFilesIn(listing)
  {
    if !archiveExists {
      return None;
    }
    var totalDays, totalCaptures, days := 0, 0, [];
    var i := 0;
    while i < |listing|
      invariant 0 <= i <= |listing|
      invariant days == Days(Filter(IsDirectory, listing[..i]))
      invariant totalDays == |Filter(IsDirectory, listing[..i])|
      invariant totalCaptures == MetadataFilesIn(listing[..i])
    {
      var dateDir := listing[i];
      FilterSnoc(IsDirectory, listing, i);
      assert listing[..i + 1][..i] == listing[..i];
      if dateDir.isDir {
        var metadataFiles := MetadataCount(dateDir.children);
        var imageFiles := ImageCount(dateDir.children);
        DaysSnoc(Filter(IsDirectory, listing[..i]), dateDir);
        totalDays := totalDays + 1;
        totalCaptures := totalCaptures + metadataFiles;
        days := days + [DaySummary(dateDir.name, metadataFiles, imageFiles)];
      }
      i := i + 1;
    }
    assert listing[..i] == listing;
    r := Some(Summary(lastUpdated, totalDays, totalCaptures, days));
  }

  /** `total_captures` is the sum of the per-day `captures` counts. */
  lemma {:induction false} TotalCapturesIsSumOfDays(listing: seq<DirEntry>)
    ensures TotalCaptures(Days(Filter(IsDirectory, listing))) == MetadataFilesIn(listing)
    decreases |listing|
  {
    if listing != [] {
      var init, last := listing[..|listing| - 1], listing[|listing| - 1];
      TotalCapturesIsSumOfDays(init);
      var dirs := Filter(IsDirectory, init);
      if last.isDir {
        assert Filter(IsDirectory, listing) == dirs + [last];
        DaysSnoc(dirs, last);
        TotalCapturesSnoc(Days(dirs), DayOf(last));
      } else {
        assert Filter(IsDirectory, listing) == dirs;
      }
    }
  }

  /** A run that writes a new metadata document into one of the archive's date directories raises `total_captures`
      by exactly one and leaves `total_days` and every other day's counts as they were. */
  lemma {:induction false} NewMetadataFileCounted(listing: seq<DirEntry>, j: nat, timeStr: string)
    requires j < |listing| && listing[j].isDir
    requires MetadataFileName(timeStr) !in listing[j].children
    ensures var updated := listing[j := listing[j].(children := listing[j].children + [MetadataFileName(timeStr)])];
      MetadataFilesIn(updated) == MetadataFilesIn(listing) + 1 &&
      |Filter(IsDirectory, updated)| == |Filter(IsDirectory, listing)|
    decreases |listing|
  {
    var e := listing[j];
    var names := e.children + [MetadataFileName(timeStr)];
    var updated := listing[j := e.(children := names)];
    var n := |listing| - 1;
    var init, updatedInit := listing[..n], updated[..n];
    assert Filter(IsDirectory, listing) == Filter(IsDirectory, init) + (if listing[n].isDir then [listing[n]] else []);
    assert Filter(IsDirectory, updated) == Filter(IsDirectory, updatedInit) + (if updated[n].isDir then [updated[n]] else []);
    if j == n {
      assert updatedInit == init;
      MetadataFileNameIsMetadata(timeStr);
      assert names[..|e.children|] == e.children;
      assert Filter(IsMetadataFile, names) == Filter(IsMetadataFile, e.children) + [MetadataFileName(timeStr)];
    } else {
      assert updatedInit == init[j := e.(children := names)];
      NewMetadataFileCounted(init, j, timeStr);
    }
  }
}
