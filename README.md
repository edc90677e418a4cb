# Tuas checkpoint traffic capture: a Dafny model

`capture_traffic.py` is a scheduled script. It fetches the LTA DataMall traffic-camera list and keeps the cameras on
its Tuas watchlist. It downloads each camera's current snapshot into a date directory under `traffic_images/` and
writes one metadata document per run. It then rescans the archive to rebuild `summary.json` and a README listing the
seven most recent days.

This project models the logic inside that script and proves what it does. Every I/O result is an input:

- the upstream camera list is a sequence of `CameraRecord`s;
- the outcome of each `download_image` call is an oracle `downloadOk: string -> bool` on the image URL;
- the clock is a `Clock` value holding `now.isoformat()` and the two `strftime` strings;
- the archive listing is a sequence of `DirEntry`s (name, is-directory flag, names inside).

Modules, one per part of the script:

- `Wrappers`: `Option`, for JSON keys that may be absent.
- `Seqs`: list comprehensions with an `if` (`Filter`), and what they keep.
- `Text`: ASCII `str.lower()`, substring search, Python's string order, and `str(n)` for counts.
- `Archive`: `OUTPUT_DIR`, the image and metadata file names, and the glob patterns the summary counts.
- `Selection`: the watchlist `TUAS_CAMERA_IDS` and the `"tuas"` location fallback. `SelectionExamples` holds worked examples.
- `Capture`: `capture_tuas_cameras`, meaning its early exits, the per-camera download loop and the metadata. `CaptureExamples` holds a worked run.
- `Summarize`: `generate_summary`'s counting loop.
- `Report`: `generate_readme`'s newest-first sort, the `[:7]` slice and the `+=` loop.

What the script does not do, and the model therefore does not do either:

- `download_image` does not check the content type or a minimum size. A download whose request raises no `RequestException` is saved and counts as a success.
- There is no failure counter. Cameras whose download failed, or that have no link, are simply absent from the metadata.
- The time is local `datetime.now()`. There is no fixed UTC+8 zone and no time-zone field in the metadata.
- The image file name is `camera_<id>_<HH-MM-SS>.jpg` and carries no date. The metadata file name is `metadata_<HH-MM-SS>.json`.
- The watchlist has three identifiers (`4703`, `4713`, `4714`). The fallback matches the single keyword `tuas`, so a Woodlands location is never selected (`SelectionExamples.WoodlandsNotMatched`).
- The day's directory is created before the feed is fetched. A run that stops because the feed is empty has therefore already created it (`Capture.RunResult.NoCameraData`).

## Model

| member | source | states |
|---|---|---|
| Seqs.Filter | capture_traffic.py:91 | a comprehension `[x for x in s if p(x)]` keeps only elements satisfying `p` and is no longer than `s` |
| Seqs.FilterExactly | capture_traffic.py:91-96 | the comprehension keeps exactly the elements satisfying `p`, each as often as in the input, in input order (a subsequence) |
| Seqs.FilterIdempotent | capture_traffic.py:91-96 | re-running a comprehension on its own output changes nothing |
| Seqs.FilterEmptyIff | capture_traffic.py:93 | the comprehension is empty if and only if no element passes the test |
| Seqs.FilterNarrow | capture_traffic.py:112-117 | filtering by a weaker test first does not change a stronger filter |
| Text.Lower | capture_traffic.py:96 | `.lower()` keeps the length, maps each ASCII upper-case letter to its lower-case letter and leaves every other character unchanged |
| Text.ContainsLowerIff | capture_traffic.py:96 | `t in s.lower()` holds exactly when some window of `s` spells `t` with ASCII case ignored |
| Text.AtMostTotal | capture_traffic.py:193 | any two date strings are comparable under Python's string order |
| Text.AtMostTransitive | capture_traffic.py:193 | Python's string order is transitive |
| Text.Decimal | capture_traffic.py:194 | `str(n)` is a non-empty digit string without leading zeros |
| Text.DecimalRoundTrip | capture_traffic.py:194 | reading back the digits printed for a count gives the count |
| Archive.ImageFileNameIsImage | capture_traffic.py:114 | every saved image name matches `camera_*.jpg` and not `metadata_*.json`, so the summary counts it as an image |
| Archive.MetadataFileNameIsMetadata | capture_traffic.py:130 | every metadata file name matches `metadata_*.json` and not `camera_*.jpg`, so the summary counts it as a capture |
| Archive.ImageFileNameInjective | capture_traffic.py:114 | with time strings of one length, equal image names mean the same rendered camera id and the same time |
| Selection.SelectCameras | capture_traffic.py:91-96 | if any record is watchlisted, the result is non-empty and holds exactly the watchlisted records; otherwise exactly the records whose lower-cased location contains `tuas`; always a subsequence of the feed |
| Selection.FallbackIffPrimaryEmpty | capture_traffic.py:91-96 | the primary result is empty iff no record has an id in `TUAS_CAMERA_IDS`; the fallback result is used exactly then |
| Selection.MentionsTuasIgnoresCase | capture_traffic.py:96 | the fallback test holds exactly when some four-character window of the location (`""` when absent) spells `tuas` in any case |
| Selection.NoLocationNeverMatches | capture_traffic.py:96 | a record without `Location` is never picked by the fallback |
| Selection.SelectionIdempotent | capture_traffic.py:91-96 | selecting again from a selection returns it unchanged |
| SelectionExamples.PrimaryExample | capture_traffic.py:20-24 | from cameras 4713 and 2701 only 4713 is selected |
| SelectionExamples.UpperCaseLocationMatches | capture_traffic.py:96 | the location match ignores case (`AYE/TUAS WEST` matches) |
| SelectionExamples.WoodlandsNotMatched | capture_traffic.py:96 | a Woodlands location does not match the fallback |
| SelectionExamples.FallbackExample | capture_traffic.py:93-96 | with no watchlisted record, the fallback picks the Tuas record and not the Woodlands one |
| Capture.Entries | capture_traffic.py:118-125 | one metadata entry per captured camera, in order, each with the camera's id, location (default `Unknown`), file name, URL and coordinates |
| Capture.Downloads | capture_traffic.py:112-117 | one download per linked camera, in order, from its URL to `<daily dir>/camera_<id>_<time>.jpg` |
| Capture.AssembleMetadata | capture_traffic.py:105-127 | the loop attempts exactly the selected cameras with a non-empty link, in order, and appends an entry for exactly those whose download succeeded |
| Capture.CaptureTuasCameras | capture_traffic.py:65-130 | an empty API key stops the run first; an empty feed stops it after creating the day's directory and before any download or metadata; otherwise the metadata of the selection is written to `metadata_<time>.json` in `traffic_images/<date>` |
| Capture.MetadataCountBalance | capture_traffic.py:105-127 | entries + failed downloads + cameras without a link = selected cameras |
| Capture.CapturedAmongAttempted | capture_traffic.py:112-127 | the captured cameras are exactly the attempted downloads that succeeded, so there are no more entries than downloads |
| Capture.EntryFilesAreImages | capture_traffic.py:114 | every entry's `filename` is `camera_<id>_<time>.jpg` and is counted by the summary as an image |
| CaptureExamples.SecondLinkRun | capture_traffic.py:91-127 | with 4713 linked and downloaded and 2701 without a link, one download and exactly one entry, for 4713 |
| Summarize.Days | capture_traffic.py:162-166 | one day summary per directory, in listing order, with the directory's name and its counts of `metadata_*.json` and `camera_*.jpg` names |
| Summarize.GenerateSummary | capture_traffic.py:144-166 | no summary without an archive root; otherwise `days` lists the directories in listing order, non-directories skipped, `total_days` is their number and `total_captures` the metadata files inside them |
| Summarize.TotalCapturesIsSumOfDays | capture_traffic.py:159-166 | `total_captures` equals the sum of the per-day `captures` |
| Summarize.NewMetadataFileCounted | capture_traffic.py:154-160 | a `metadata_<time>.json` not yet in a date directory, once added, raises `total_captures` by one and leaves `total_days` unchanged |
| Report.InsertNewestFirst | capture_traffic.py:193 | inserting a day into a newest-first list keeps it newest first and adds exactly that day |
| Report.SortNewestFirst | capture_traffic.py:193 | `sorted(days, key=date, reverse=True)` is a permutation of the days, sorted by date non-increasing |
| Report.RecentDaysAreNewest | capture_traffic.py:193 | the report lists min(7, number of days) days, newest first, all from `summary['days']`, and no omitted day is newer than a listed one |
| Report.RecentDaysNoRepeats | capture_traffic.py:193 | if each day occurs once in the summary, no day is listed twice |
| Report.AppendDayLines | capture_traffic.py:194 | the loop appends exactly one `- **<date>**: <n> capture(s), <m> image(s)` line per day, in order |
| Report.AppendRecentDays | capture_traffic.py:193-194 | the text grows by the lines of the recent days, newest first |

## Left out

- Fetching the camera list (`get_traffic_images`, capture_traffic.py:26-43) is network I/O. The feed is an input. A failed request returns `[]`, which is the empty-feed case.
- `download_image` (capture_traffic.py:45-60) is network and file I/O. Its result is the oracle `downloadOk` on the URL, so two cameras with the same URL get the same outcome in one run. Only a `RequestException` is caught there and turned into a failed download.
- The model assumes every file-system operation succeeds: `mkdir` of the day's directory, opening and writing an image, and writing the metadata file. In the script an `OSError` from any of these is not caught and ends the run before the metadata or the summary is written; the model has no result for that.
- `mkdir`, the file writes and `json.dump` are not performed. A run result names the directory, the attempted downloads and the metadata document with its path. Serialisation is not modelled.
- The clock (`datetime.now`, `strftime`, `isoformat`) is the `Clock` input. The model does not check that its strings have the `strftime` shapes.
- Console output and the fixed README prose (capture_traffic.py:78-81, 179-190, 196-232) are not modelled. The README header's figures are not modelled either. Only the recent-days lines are.
- `sorted(OUTPUT_DIR.iterdir())` is an input listing taken to be in that order. Path ordering is not modelled.
- `Summarize.GenerateSummary` takes `last_updated` as an input and does not model writing `summary.json`. How `capture_tuas_cameras` calls `generate_summary`, and that in turn `generate_readme`, is not modelled as one procedure. The archive listing after a run depends on the file system.
- Report.SortNewestFirst: its contract states a permutation sorted newest first, but not that days with equal dates keep their input order (the body does keep it). Dates are directory names, so in the archive they are unique.
- Text.Lower: only ASCII letters are lower-cased. Python's `str.lower()` also maps non-ASCII letters.
- A JSON key that is present with value `null` is not distinguished from an absent key. The script would crash on a `null` `Location` in the fallback and would write `null` rather than `Unknown` into the metadata.
- `CameraID` is modelled as a string. A numeric identifier in the feed never equals a string in `TUAS_CAMERA_IDS` and renders differently in the file name.
- Latitude and longitude are opaque optional reals that are copied through unchanged.
