/** data_prep/create_album.py: the album table built with pandas instead of
    loops. Every release is exploded into one row per medium, every medium
    object is flattened into columns named "media_" followed by its key path
    joined with "_", and the release title and the column
    "media_recording_title" are selected and renamed. */
module CreateAlbum {
  import opened Frames
  import opened Feeds

  /** One flattened record: its columns in order, each with its value. A
      later column with the same name replaces an earlier one. */
  type Record = seq<(string, Json)>

  // ---------------------------------------------------------------------
  // json_normalize(..., sep="_") of one object
  // ---------------------------------------------------------------------

  /** The column name of `key` below the path `keyString`; the top level
      adds no separator. */
  function JoinKey(keyString: string, key: string): string {
    if keyString == "" then key else keyString + "_" + key
  }

  /** The columns of the value found at `keyString`: an object is descended
      into; anything else, a list included, is a single cell. No cell ever
      holds an object. */
  function NormaliseValue(keyString: string, v: Json): (rec: Record)
    decreases v
    ensures forall i :: 0 <= i < |rec| ==> !rec[i].1.JObject?
  {
    match v
    case JObject(members) => NormaliseMembers(keyString, members)
    case _ => [(keyString, v)]
  }

  /** The columns of the members of one object, in document order. */
  function NormaliseMembers(keyString: string, members: seq<Member>): (rec: Record)
    decreases members
    ensures forall i :: 0 <= i < |rec| ==> !rec[i].1.JObject?
  {
    if members == [] then []
    else
      var last := members[|members| - 1];
      assert last in members;
      NormaliseMembers(keyString, members[..|members| - 1]) + NormaliseValue(JoinKey(keyString, last.key), last.value)
  }

  /** The members whose value is not an object, each as its own cell. */
  function ScalarCells(members: seq<Member>): Record {
    if members == [] then []
    else
      var last := members[|members| - 1];
      ScalarCells(members[..|members| - 1]) + (if last.value.JObject? then [] else [(last.key, last.value)])
  }

  /** The members whose value is an object. */
  function ObjectMembers(members: seq<Member>): seq<Member> {
    if members == [] then []
    else
      var last := members[|members| - 1];
      ObjectMembers(members[..|members| - 1]) + (if last.value.JObject? then [last] else [])
  }

  /** One object flattened: its non-object members first, then the columns
      of its nested objects. */
  function NormaliseObject(members: seq<Member>): Record {
    ScalarCells(members) + NormaliseMembers("", ObjectMembers(members))
  }

  predicate HasColumn(rec: Record, col: string) {
    exists i :: 0 <= i < |rec| && rec[i].0 == col
  }

  /** The cell of column `col` in one record: its last binding, where a
      missing column and a JSON null are both a missing cell. */
  function Lookup(rec: Record, col: string): (c: Option<Json>)
    ensures !HasColumn(rec, col) ==> c == None
    ensures c.Some? ==> c.value != JNull
  {
    if rec == [] then None
    else
      var init, last := rec[..|rec| - 1], rec[|rec| - 1];
      if last.0 == col then (if last.1 == JNull then None else Some(last.1))
      else
        assert !HasColumn(rec, col) ==> !HasColumn(init, col) by {
          if HasColumn(init, col) {
            var i :| 0 <= i < |init| && init[i].0 == col;
            assert rec[i].0 == col;
          }
        }
        Lookup(init, col)
  }

  /** An object none of whose members is itself an object. */
  predicate FlatObject(members: seq<Member>) {
    forall i :: 0 <= i < |members| ==> !members[i].value.JObject?
  }

  function CellOf(m: Member): (string, Json) {
    (m.key, m.value)
  }

  lemma {:induction false} FlatScalarCells(members: seq<Member>)
    requires FlatObject(members)
    ensures ScalarCells(members) == MapSeq(members, CellOf)
    ensures ObjectMembers(members) == []
  {
    if members != [] {
      var init := members[..|members| - 1];
      assert FlatObject(init) by {
        forall i | 0 <= i < |init| ensures !init[i].value.JObject? {
          assert init[i] == members[i];
        }
      }
      FlatScalarCells(init);
    }
  }

  /** A flat object is its own record: one column per member, in order,
      with lists kept whole rather than descended into. */
  lemma FlatObjectNormalisesToItself(members: seq<Member>)
    requires FlatObject(members)
    ensures NormaliseObject(members) == MapSeq(members, CellOf)
  {
    FlatScalarCells(members);
    assert NormaliseObject(members) == MapSeq(members, CellOf) + [];
  }

  /** A nested object contributes its keys joined to the outer key by "_". */
  lemma NestedKeysJoined(outer: string, inner: string, v: Json)
    requires outer != "" && !v.JObject?
    ensures NormaliseObject([Member(outer, JObject([Member(inner, v)]))]) == [(outer + "_" + inner, v)]
  {
    var m := Member(outer, JObject([Member(inner, v)]));
    assert [m][..0] == [] && [Member(inner, v)][..0] == [];
    assert ScalarCells([m]) == [];
    assert ObjectMembers([m]) == [m];
    assert NormaliseMembers(outer, [Member(inner, v)]) == NormaliseValue(outer + "_" + inner, v);
    assert NormaliseMembers("", [m]) == NormaliseValue(outer, m.value);
  }

  // ---------------------------------------------------------------------
  // explode("media", ignore_index=True)
  // ---------------------------------------------------------------------

  /** One row of the exploded table: the release title and one medium, or
      no medium. */
  datatype ExplodedRow = ExplodedRow(title: Option<string>, medium: Option<Medium>)

  /** One release exploded: a row per medium, or a single row without a
      medium when its media list is missing or empty. */
  function ExplodeRelease(r: Release): seq<ExplodedRow> {
    if r.media.None? || r.media.value == [] then [ExplodedRow(r.title, None)]
    else seq(|r.media.value|, i requires 0 <= i < |r.media.value| => ExplodedRow(r.title, Some(r.media.value[i])))
  }

  function ExplodeMedia(releases: seq<Release>): seq<ExplodedRow> {
    if releases == [] then []
    else ExplodeMedia(releases[..|releases| - 1]) + ExplodeRelease(releases[|releases| - 1])
  }

  /** The number of exploded rows a release yields. */
  function MediaOrOne(r: Release): nat {
    if r.media.Some? && |r.media.value| > 1 then |r.media.value| else 1
  }

  function ExplodedCount(releases: seq<Release>): nat {
    if releases == [] then 0
    else ExplodedCount(releases[..|releases| - 1]) + MediaOrOne(releases[|releases| - 1])
  }

  /** Exploding yields one row per medium and one row per release without
      media, so never fewer rows than releases; each row carries the title
      of a release and, when it has one, a medium of that release. */
  lemma {:induction false} ExplodeMediaShape(releases: seq<Release>)
    ensures |ExplodeMedia(releases)| == ExplodedCount(releases) >= |releases|
    ensures forall t :: 0 <= t < |ExplodeMedia(releases)| ==>
              exists i :: 0 <= i < |releases| && ExplodeMedia(releases)[t].title == releases[i].title
                && (ExplodeMedia(releases)[t].medium.Some? ==>
                      releases[i].media.Some? && ExplodeMedia(releases)[t].medium.value in releases[i].media.value)
  {
    if releases != [] {
      var init, last := releases[..|releases| - 1], releases[|releases| - 1];
      ExplodeMediaShape(init);
      var a: seq<ExplodedRow> := ExplodeMedia(init);
      var b: seq<ExplodedRow> := ExplodeRelease(last);
      assert |b| == MediaOrOne(last);
      forall t | 0 <= t < |a + b|
        ensures exists i :: 0 <= i < |releases| && (a + b)[t].title == releases[i].title
                  && ((a + b)[t].medium.Some? ==> releases[i].media.Some? && (a + b)[t].medium.value in releases[i].media.value)
      {
        if t < |a| {
          assert (a + b)[t] == a[t];
          var i :| 0 <= i < |init| && a[t].title == init[i].title
                   && (a[t].medium.Some? ==> init[i].media.Some? && a[t].medium.value in init[i].media.value);
          assert init[i] == releases[i];
        } else {
          assert (a + b)[t] == b[t - |a|];
          assert releases[|releases| - 1] == last;
        }
      }
    }
  }

  // ---------------------------------------------------------------------
  // The media columns and the selection
  // ---------------------------------------------------------------------

  function PrefixMedia(c: (string, Json)): (string, Json) {
    ("media_" + c.0, c.1)
  }

  /** The flattened medium of one exploded row, every column prefixed with
      "media_"; a row without a medium flattens to an empty record. */
  function MediaRecord(row: ExplodedRow): Record {
    if row.medium.None? then [] else MapSeq(NormaliseObject(row.medium.value.members), PrefixMedia)
  }

  /** One row of the result: `album_title` and `song_title`. */
  datatype AlbumSong = AlbumSong(albumTitle: Option<string>, songTitle: Option<Json>)

  const RecordingTitle: string := "media_recording_title"

  function AlbumSongOf(row: ExplodedRow): AlbumSong {
    AlbumSong(row.title, Lookup(MediaRecord(row), RecordingTitle))
  }

  predicate SomeReleaseHasMedia(releases: seq<Release>) {
    exists i :: 0 <= i < |releases| && releases[i].media.Some?
  }

  predicate SomeReleaseHasTitle(releases: seq<Release>) {
    exists i :: 0 <= i < |releases| && releases[i].title.Some?
  }

  /** Some flattened medium has the column: only then does the joined
      table have it. */
  predicate SomeRowHasRecordingTitle(rows: seq<ExplodedRow>) {
    exists t :: 0 <= t < |rows| && HasColumn(MediaRecord(rows[t]), RecordingTitle)
  }

  /** `create_albums_table`: exploding needs a "media" column, selecting
      needs a "title" column and a "media_recording_title" column; a column
      exists once a single record has it. */
  function CreateAlbumsTable(releases: seq<Release>): (r: Result<seq<AlbumSong>>)
    ensures r.Err? ==> r.error.KeyError?
  {
    if !SomeReleaseHasMedia(releases) then Err(KeyError("media"))
    else
      var rows := ExplodeMedia(releases);
      if !SomeReleaseHasTitle(releases) then Err(KeyError("title"))
      else if !SomeRowHasRecordingTitle(rows) then Err(KeyError(RecordingTitle))
      else Ok(MapSeq(rows, AlbumSongOf))
  }

  /** The table keeps the exploded row count, joining the flattened media
      back row by row, and every album title is the title of a release. */
  lemma CreateAlbumsTableRows(releases: seq<Release>)
    ensures CreateAlbumsTable(releases).Ok? ==>
              |CreateAlbumsTable(releases).value| == ExplodedCount(releases) >= |releases|
    ensures CreateAlbumsTable(releases).Ok? ==>
              forall t :: 0 <= t < |CreateAlbumsTable(releases).value| ==>
                exists i :: 0 <= i < |releases| && CreateAlbumsTable(releases).value[t].albumTitle == releases[i].title
  {
    var r := CreateAlbumsTable(releases);
    if r.Ok? {
      var rows := ExplodeMedia(releases);
      ExplodeMediaShape(releases);
      assert r.value == MapSeq(rows, AlbumSongOf);
      forall t | 0 <= t < |r.value|
        ensures exists i :: 0 <= i < |releases| && r.value[t].albumTitle == releases[i].title
      {
        assert r.value[t].albumTitle == rows[t].title;
        var i :| 0 <= i < |releases| && rows[t].title == releases[i].title
                 && (rows[t].medium.Some? ==> releases[i].media.Some? && rows[t].medium.value in releases[i].media.value);
      }
    }
  }

  /** A medium as the release feed delivers it: no nested object at its
      top level (the recordings sit inside the "tracks" list) and no key
      that is literally "recording_title". */
  predicate MediumWithoutRecordingColumn(m: Medium) {
    FlatObject(m.members) && forall i :: 0 <= i < |m.members| ==> m.members[i].key != "recording_title"
  }

  lemma NoRecordingColumn(row: ExplodedRow)
    requires row.medium.Some? ==> MediumWithoutRecordingColumn(row.medium.value)
    ensures !HasColumn(MediaRecord(row), RecordingTitle)
  {
    if row.medium.Some? {
      var members := row.medium.value.members;
      FlatObjectNormalisesToItself(members);
      var rec := MediaRecord(row);
      forall t | 0 <= t < |rec| ensures rec[t].0 != RecordingTitle {
        var key := members[t].key;
        assert rec[t].0 == "media_" + key;
        assert ("media_" + key)[6..] == key;
        assert RecordingTitle[6..] == "recording_title";
      }
    }
  }

  /** The step cannot succeed on media shaped like the feed's: whatever the
      releases, selecting "media_recording_title" raises KeyError. */
  lemma RecordingTitleNeverSelected(releases: seq<Release>)
    requires SomeReleaseHasMedia(releases) && SomeReleaseHasTitle(releases)
    requires forall i, j :: 0 <= i < |releases| && releases[i].media.Some? && 0 <= j < |releases[i].media.value| ==>
               MediumWithoutRecordingColumn(releases[i].media.value[j])
    ensures CreateAlbumsTable(releases) == Err(KeyError(RecordingTitle))
  {
    var rows := ExplodeMedia(releases);
    ExplodeMediaShape(releases);
    forall t | 0 <= t < |rows| ensures !HasColumn(MediaRecord(rows[t]), RecordingTitle) {
      var i :| 0 <= i < |releases| && rows[t].title == releases[i].title
               && (rows[t].medium.Some? ==> releases[i].media.Some? && rows[t].medium.value in releases[i].media.value);
      NoRecordingColumn(rows[t]);
    }
  }

  /** One release of "Killers" with one medium holding one track, shaped as
      the release feed shapes it. */
  const KillersExample: seq<Release> := [
    Release(Some("Killers"), Some([
      Medium(Some([Track(Some(1), Some("Wrathchild"))]), [
        Member("position", JNum("1")),
        Member("tracks", JList([JObject([
          Member("position", JNum("1")),
          Member("title", JStr("Wrathchild")),
          Member("recording", JObject([Member("title", JStr("Wrathchild"))]))])]))])]))]

  /** The example's medium reads the same through either view. */
  lemma KillersConsistent()
    ensures forall j :: 0 <= j < |KillersExample[0].media.value| ==> ConsistentMedium(KillersExample[0].media.value[j])
  {
    var m := KillersExample[0].media.value[0];
    var track := JObject([
          Member("position", JNum("1")),
          Member("title", JStr("Wrathchild")),
          Member("recording", JObject([Member("title", JStr("Wrathchild"))]))]);
    assert MemberValue(m.members, "tracks") == Some(JList([track]));
    assert MemberValue(track.members, "title") == Some(JStr("Wrathchild"));
    assert MemberValue(track.members, "position") == Some(JNum("1"));
    assert Text.Decimal(1) == "1";
  }

  lemma KillersRaisesKeyError()
    ensures CreateAlbumsTable(KillersExample) == Err(KeyError(RecordingTitle))
  {
    var r := KillersExample[0];
    assert r.media.Some?;
    assert MediumWithoutRecordingColumn(r.media.value[0]);
    RecordingTitleNeverSelected(KillersExample);
  }

  // ---------------------------------------------------------------------
  // The evidently intended table
  // ---------------------------------------------------------------------

  function TrackSong(row: TrackRow): AlbumSong {
    AlbumSong(row.album, if row.song.Some? then Some(JStr(row.song.value)) else None)
  }

  /** The album title and the title of every track of every medium, as the
      loop-based album tables read them; a missing "media" or "tracks" list
      cannot be iterated. */
  function CorrectedAlbumsTable(releases: seq<Release>): Result<seq<AlbumSong>> {
    if AllWalkable(releases) then Ok(MapSeq(ReleaseRows(releases), TrackSong))
    else Err(TypeError("'NoneType' object is not iterable"))
  }

  /** The corrected table has exactly one row per track, and every track of
      every medium appears with its release title. */
  lemma CorrectedAlbumsTableHasEveryTrack(releases: seq<Release>)
    ensures CorrectedAlbumsTable(releases).Ok? <==> AllWalkable(releases)
    ensures CorrectedAlbumsTable(releases).Ok? ==> |CorrectedAlbumsTable(releases).value| == TrackCount(releases)
    ensures CorrectedAlbumsTable(releases).Ok? ==>
              forall i, j, k ::
                (0 <= i < |releases| && 0 <= j < |releases[i].media.value|
                 && 0 <= k < |releases[i].media.value[j].tracks.value|) ==>
                TrackSong(TrackRow(releases[i].title, releases[i].media.value[j].tracks.value[k].position,
                                   releases[i].media.value[j].tracks.value[k].title))
                  in CorrectedAlbumsTable(releases).value
  {
    if AllWalkable(releases) {
      ReleaseRowsExact(releases);
      var rows := ReleaseRows(releases);
      forall i, j, k | 0 <= i < |releases| && 0 <= j < |releases[i].media.value|
          && 0 <= k < |releases[i].media.value[j].tracks.value|
        ensures TrackSong(TrackRow(releases[i].title, releases[i].media.value[j].tracks.value[k].position,
                                   releases[i].media.value[j].tracks.value[k].title)) in MapSeq(rows, TrackSong)
      {
        var media := releases[i].media.value;
        MediaRowsExact(releases[i].title, media);
        var row := TrackRow(releases[i].title, media[j].tracks.value[k].position, media[j].tracks.value[k].title);
        assert row in MediaRows(releases[i].title, media);
        assert row in rows;
        var p :| 0 <= p < |rows| && rows[p] == row;
        assert MapSeq(rows, TrackSong)[p] == TrackSong(row);
      }
    }
  }

  /** On the example the corrected table holds the one track. */
  lemma KillersCorrected()
    ensures CorrectedAlbumsTable(KillersExample) == Ok([AlbumSong(Some("Killers"), Some(JStr("Wrathchild")))])
  {
    var media := KillersExample[0].media.value;
    assert AllWalkable(KillersExample);
    assert TrackCount(KillersExample) == 1 by {
      assert KillersExample[..0] == [] && media[..0] == [];
    }
    CorrectedAlbumsTableHasEveryTrack(KillersExample);
    var song := AlbumSong(Some("Killers"), Some(JStr("Wrathchild")));
    assert song in CorrectedAlbumsTable(KillersExample).value by {
      assert song == TrackSong(TrackRow(KillersExample[0].title, media[0].tracks.value[0].position, media[0].tracks.value[0].title));
    }
    var v := CorrectedAlbumsTable(KillersExample).value;
    assert |v| == 1 && v[0] == song;
    assert v == [song];
  }
}
