/** The watchlist filter of `capture_tuas_cameras`: the fixed camera identifiers, with a fallback on the location text. */
module Selection {
  import opened Wrappers
  import opened Seqs
  import Text

  /** One record of the upstream `value` list; a field is `None` when its key is absent. */
  datatype CameraRecord = CameraRecord(
    cameraId: Option<string>,
    location: Option<string>,
    imageLink: Option<string>,
    latitude: Option<real>,
    longitude: Option<real>)

  /** `TUAS_CAMERA_IDS`. */
  const TuasCameraIds: seq<string> := ["4703", "4713", "4714"]

  /** The keyword of the fallback match. */
  const FallbackKeyword: string := "tuas"

  /** `cam.get('CameraID') in TUAS_CAMERA_IDS`; a record without an identifier is never on the watchlist. */
  predicate OnWatchlist(cam: CameraRecord) {
    cam.cameraId.Some? && cam.cameraId.value in TuasCameraIds
  }

  /** `'tuas' in cam.get('Location', '').lower()`. */
  predicate MentionsTuas(cam: CameraRecord) {
    Text.Contains(Text.Lower(cam.location.GetOr("")), FallbackKeyword)
  }

  /** The comprehension at line 91. */
  function PrimarySelection(cameras: seq<CameraRecord>): seq<CameraRecord> {
    Filter(OnWatchlist, cameras)
  }

  /** The comprehension at line 96. */
  function FallbackSelection(cameras: seq<CameraRecord>): seq<CameraRecord> {
    Filter(MentionsTuas, cameras)
  }

  /** `tuas_cameras` after line 96: the watchlisted records when there is at least one, otherwise the records whose
      location mentions Tuas; in both cases exactly those records of the feed, each as often, in upstream order. */
  function SelectCameras(cameras: seq<CameraRecord>): (r: seq<CameraRecord>)
    ensures IsSubsequence(r, cameras)
    ensures (exists k :: 0 <= k < |cameras| && OnWatchlist(cameras[k])) ==>
      r != [] && forall c :: multiset(r)[c] == if OnWatchlist(c) then multiset(cameras)[c] else 0
    ensures (forall k :: 0 <= k < |cameras| ==> !OnWatchlist(cameras[k])) ==>
      forall c :: multiset(r)[c] == if MentionsTuas(c) then multiset(cameras)[c] else 0
  {
    FilterEmptyIff(OnWatchlist, cameras);
    FilterExactly(OnWatchlist, cameras);
    FilterExactly(MentionsTuas, cameras);
    var primary := PrimarySelection(cameras);
    if primary != [] then primary else FallbackSelection(cameras)
  }

  /** The fallback is taken exactly when the primary selection is empty, that is when no record is on the watchlist. */
  lemma FallbackIffPrimaryEmpty(cameras: seq<CameraRecord>)
    ensures PrimarySelection(cameras) == [] <==> forall k :: 0 <= k < |cameras| ==> !OnWatchlist(cameras[k])
    ensures PrimarySelection(cameras) == [] ==> SelectCameras(cameras) == FallbackSelection(cameras)
    ensures PrimarySelection(cameras) != [] ==> SelectCameras(cameras) == PrimarySelection(cameras)
  {
    FilterEmptyIff(OnWatchlist, cameras);
  }

  /** The fallback test holds exactly when some four-character window of the location, `""` when absent, spells
      `tuas` in any mix of upper and lower case. */
  lemma MentionsTuasIgnoresCase(cam: CameraRecord)
    ensures MentionsTuas(cam) <==>
      exists i: nat | i <= |cam.location.GetOr("")| :: Text.OccursAtIgnoringCase(cam.location.GetOr(""), FallbackKeyword, i)
  {
    Text.ContainsLowerIff(cam.location.GetOr(""), FallbackKeyword);
  }

  /** A record without a `Location` key is never picked by the fallback. */
  lemma NoLocationNeverMatches(cam: CameraRecord)
    requires cam.location.None?
    ensures !MentionsTuas(cam)
  {
    assert Text.Lower("") == "";
  }

  /** Selecting again from the selection changes nothing: a primary result refilters to itself, and a fallback
      result still has no watchlisted record and still mentions Tuas throughout. */
  lemma SelectionIdempotent(cameras: seq<CameraRecord>)
    ensures SelectCameras(SelectCameras(cameras)) == SelectCameras(cameras)
  {
    var primary := PrimarySelection(cameras);
    if primary != [] {
      FilterIdempotent(OnWatchlist, cameras);
    } else {
      var fallback := FallbackSelection(cameras);
      FilterEmptyIff(OnWatchlist, cameras);
      FilterExactly(MentionsTuas, cameras);
      FilterEmptyIff(OnWatchlist, fallback);
      FilterIdempotent(MentionsTuas, cameras);
    }
  }
}

/** Worked examples of the selection on small feeds. */
module SelectionExamples {
  import opened Wrappers
  import opened Seqs
  import Text
  import opened Selection

  const SecondLink := CameraRecord(Some("4713"), Some("Tuas Second Link"), Some("https://images.example/4713.jpg"), None, None)
  const Causeway := CameraRecord(Some("2701"), Some("Woodlands Causeway"), None, None, None)
  const TuasWest := CameraRecord(Some("4799"), Some("AYE/TUAS WEST"), Some("https://images.example/4799.jpg"), None, None)

  /** A watchlisted record is selected and a record elsewhere is not, whatever its image link. */
  lemma PrimaryExample()
    ensures SelectCameras([SecondLink, Causeway]) == [SecondLink]
  {
    var feed := [SecondLink, Causeway];
    assert TuasCameraIds[1] == "4713";
    assert OnWatchlist(SecondLink);
    assert "2701"[0] != "4703"[0] && "2701"[0] != "4713"[0] && "2701"[0] != "4714"[0];
    assert !OnWatchlist(Causeway);
    assert feed[..1] == [SecondLink] && [SecondLink][..0] == [];
    assert Filter(OnWatchlist, [SecondLink]) == [SecondLink];
    assert PrimarySelection(feed) == [SecondLink];
  }

  /** The location match ignores case: "AYE/TUAS WEST" mentions Tuas. */
  lemma UpperCaseLocationMatches()
    ensures MentionsTuas(TuasWest)
  {
    var west := Text.Lower("AYE/TUAS WEST");
    assert west[4..8] == "tuas";
    assert Text.OccursAt(west, FallbackKeyword, 4);
  }

  /** "tuas" is the only keyword: a Woodlands location is not matched. */
  lemma WoodlandsNotMatched()
    ensures !MentionsTuas(Causeway)
  {
    var woodlands := Text.Lower("Woodlands Causeway");
    assert woodlands == "woodlands causeway";
    assert forall j :: 0 <= j < |woodlands| ==> woodlands[j] != 't';
    forall i: nat | i <= |woodlands|
      ensures !Text.OccursAt(woodlands, FallbackKeyword, i)
    {
      if i + |FallbackKeyword| <= |woodlands| {
        assert woodlands[i..i + |FallbackKeyword|][0] == woodlands[i];
      }
    }
  }

  /** With no watchlisted record, the fallback picks the records whose location mentions Tuas, in any case. */
  lemma FallbackExample()
    ensures SelectCameras([Causeway, TuasWest]) == [TuasWest]
  {
    var feed := [Causeway, TuasWest];
    assert "2701"[0] != "4703"[0] && "2701"[0] != "4713"[0] && "2701"[0] != "4714"[0];
    assert !OnWatchlist(Causeway);
    assert "4799"[2] != "4703"[2] && "4799"[2] != "4713"[2] && "4799"[2] != "4714"[2];
    assert !OnWatchlist(TuasWest);
    UpperCaseLocationMatches();
    WoodlandsNotMatched();
    assert feed[..1] == [Causeway] && [Causeway][..0] == [];
    assert Filter(OnWatchlist, [Causeway]) == [];
    assert PrimarySelection(feed) == [];
    assert Filter(MentionsTuas, [Causeway]) == [];
    assert FallbackSelection(feed) == [TuasWest];
  }
}
