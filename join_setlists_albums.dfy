/** data_prep/join_setlists_albums.py: the cleaned setlist rows are joined
    with the cleaned album tracks on the song title, so that every performed
    song carries the album it comes from. */
module JoinSetlistsAlbums {
  import opened Frames
  import opened Feeds
  import opened CleanSetlistsData

  /** One row of the joined table: every setlist column, and the album
      name of the matching track (the track's position and song name are
      dropped). */
  datatype JoinedRow = JoinedRow(setlist: CleanRow, albumName: Option<string>)

  function SongTitleKey(r: CleanRow): Option<string> {
    r.songTitle
  }

  function SongNameKey(t: TrackRow): Option<string> {
    t.song
  }

  /** Keeps the setlist row and the album name; drops `song_position` and
      `song_name`. An unmatched row has no album name. */
  function DropHelperColumns(p: (CleanRow, Option<TrackRow>)): JoinedRow {
    JoinedRow(p.0, if p.1.Some? then p.1.value.album else None)
  }

  function SetlistOf(j: JoinedRow): CleanRow {
    j.setlist
  }

  /** `merge(setlists, albums, left_on="song_title", right_on="song_name",
      how="left")` followed by the column drop. */
  function JoinSetlistsAlbums(setlists: seq<CleanRow>, albums: seq<TrackRow>): seq<JoinedRow> {
    MapSeq(LeftMerge(setlists, albums, SongTitleKey, SongNameKey), DropHelperColumns)
  }

  /** The album rows whose song name is `title`, in album-table order. */
  function TracksTitled(title: Option<string>, albums: seq<TrackRow>): seq<TrackRow> {
    Matches(title, albums, SongNameKey)
  }

  /** What one setlist row becomes: the row once with no album when no
      track has its title; otherwise the row once per such track, in the
      album table's order, each time with that track's album. */
  lemma JoinOfOneRow(l: CleanRow, albums: seq<TrackRow>)
    ensures var out := JoinSetlistsAlbums([l], albums);
            var m := TracksTitled(l.songTitle, albums);
            && (m == [] ==> out == [JoinedRow(l, None)])
            && (m != [] ==> |out| == |m| && forall t :: 0 <= t < |m| ==> out[t] == JoinedRow(l, m[t].album))
    ensures forall a :: a in TracksTitled(l.songTitle, albums) <==> a in albums && a.song == l.songTitle
  {
    assert [l][..0] == [];
    var block := MergeBlock(l, albums, SongTitleKey, SongNameKey);
    assert LeftMerge([l], albums, SongTitleKey, SongNameKey) == LeftMerge([], albums, SongTitleKey, SongNameKey) + block;
    assert LeftMerge([l], albums, SongTitleKey, SongNameKey) == block;
    MergeBlockShape(l, albums, SongTitleKey, SongNameKey);
    MatchesExact(l.songTitle, albums, SongNameKey);
  }

  /** Joining one more setlist row appends that row's block. */
  lemma JoinSnoc(setlists: seq<CleanRow>, l: CleanRow, albums: seq<TrackRow>)
    ensures JoinSetlistsAlbums(setlists + [l], albums) == JoinSetlistsAlbums(setlists, albums) + JoinSetlistsAlbums([l], albums)
  {
    var all := setlists + [l];
    assert all[..|all| - 1] == setlists && all[|all| - 1] == l;
    assert [l][..0] == [];
    var a := LeftMerge(setlists, albums, SongTitleKey, SongNameKey);
    var b := MergeBlock(l, albums, SongTitleKey, SongNameKey);
    assert LeftMerge(all, albums, SongTitleKey, SongNameKey) == a + b;
    assert LeftMerge([l], albums, SongTitleKey, SongNameKey) == b;
    MapSeqConcat(a, b, DropHelperColumns);
  }

  /** Every setlist row appears in the joined table, in setlist order, with
      all of its columns. */
  lemma JoinKeepsEverySetlistRow(setlists: seq<CleanRow>, albums: seq<TrackRow>)
    ensures |JoinSetlistsAlbums(setlists, albums)| >= |setlists|
    ensures IsSubsequence(setlists, MapSeq(JoinSetlistsAlbums(setlists, albums), SetlistOf))
  {
    var merged := LeftMerge(setlists, albums, SongTitleKey, SongNameKey);
    LeftMergeKeepsLeftOrder(setlists, albums, SongTitleKey, SongNameKey);
    LeftMergeCount(setlists, albums, SongTitleKey, SongNameKey);
    var lefts := MapSeq(merged, LeftPart<CleanRow, TrackRow>);
    assert MapSeq(JoinSetlistsAlbums(setlists, albums), SetlistOf) == lefts;
  }

  /** The joined table has one row per matching track for every setlist
      row, or one row when none matches; it has exactly as many rows as the
      setlists when no title matches two or more tracks. */
  lemma JoinRowCount(setlists: seq<CleanRow>, albums: seq<TrackRow>)
    ensures |JoinSetlistsAlbums(setlists, albums)| == MergeCount(setlists, albums, SongTitleKey, SongNameKey)
    ensures |JoinSetlistsAlbums(setlists, albums)| == |setlists| <==>
              forall i :: 0 <= i < |setlists| ==> |TracksTitled(setlists[i].songTitle, albums)| <= 1
  {
    LeftMergeCount(setlists, albums, SongTitleKey, SongNameKey);
    MergeCountExact(setlists, albums, SongTitleKey, SongNameKey);
  }

  /** An album name in the joined table is the album of a track whose song
      name is the row's song title. When every track has an album name, a
      row has no album name exactly when no track has its title. */
  lemma JoinAlbumFromTrack(setlists: seq<CleanRow>, albums: seq<TrackRow>)
    ensures forall j :: 0 <= j < |JoinSetlistsAlbums(setlists, albums)| && JoinSetlistsAlbums(setlists, albums)[j].albumName.Some? ==>
              exists a :: a in albums && a.song == JoinSetlistsAlbums(setlists, albums)[j].setlist.songTitle
                && a.album == JoinSetlistsAlbums(setlists, albums)[j].albumName
    ensures (forall a :: a in albums ==> a.album.Some?) ==>
              forall j :: 0 <= j < |JoinSetlistsAlbums(setlists, albums)| ==>
                (JoinSetlistsAlbums(setlists, albums)[j].albumName.None? <==>
                   !HasKey(albums, SongNameKey, JoinSetlistsAlbums(setlists, albums)[j].setlist.songTitle))
  {
    var merged := LeftMerge(setlists, albums, SongTitleKey, SongNameKey);
    var out := JoinSetlistsAlbums(setlists, albums);
    LeftMergeRightFromRight(setlists, albums, SongTitleKey, SongNameKey);
    LeftMergeUnmatched(setlists, albums, SongTitleKey, SongNameKey);
    forall j | 0 <= j < |out| && out[j].albumName.Some?
      ensures exists a :: a in albums && a.song == out[j].setlist.songTitle && a.album == out[j].albumName
    {
      assert out[j] == DropHelperColumns(merged[j]);
      var a := merged[j].1.value;
      assert a in albums && a.song == out[j].setlist.songTitle;
    }
    if forall a :: a in albums ==> a.album.Some? {
      forall j | 0 <= j < |out|
        ensures out[j].albumName.None? <==> !HasKey(albums, SongNameKey, out[j].setlist.songTitle)
      {
        assert out[j] == DropHelperColumns(merged[j]);
        if merged[j].1.Some? {
          assert merged[j].1.value in albums;
        }
      }
    }
  }

  /** When no two tracks share a song name, the join keeps the setlist
      table row for row, adding the album of the track with the row's
      title, or none. */
  lemma JoinWithUniqueSongNames(setlists: seq<CleanRow>, albums: seq<TrackRow>)
    requires KeysUnique(albums, SongNameKey)
    ensures |JoinSetlistsAlbums(setlists, albums)| == |setlists|
    ensures forall i :: 0 <= i < |setlists| ==> JoinSetlistsAlbums(setlists, albums)[i].setlist == setlists[i]
    ensures forall i :: 0 <= i < |setlists| && !HasKey(albums, SongNameKey, setlists[i].songTitle) ==>
              JoinSetlistsAlbums(setlists, albums)[i].albumName == None
    ensures forall i, a :: 0 <= i < |setlists| && a in albums && a.song == setlists[i].songTitle ==>
              JoinSetlistsAlbums(setlists, albums)[i].albumName == a.album
  {
    var merged := LeftMerge(setlists, albums, SongTitleKey, SongNameKey);
    var out := JoinSetlistsAlbums(setlists, albums);
    LeftMergeUniqueRight(setlists, albums, SongTitleKey, SongNameKey);
    forall i | 0 <= i < |setlists|
      ensures out[i].setlist == setlists[i]
      ensures !HasKey(albums, SongNameKey, setlists[i].songTitle) ==> out[i].albumName == None
    {
      assert out[i] == DropHelperColumns(merged[i]);
    }
    LeftMergeFindsMatch(setlists, albums, SongTitleKey, SongNameKey);
    forall i, a | 0 <= i < |setlists| && a in albums && a.song == setlists[i].songTitle
      ensures out[i].albumName == a.album
    {
      assert SongNameKey(a) == SongTitleKey(setlists[i]);
      assert merged[i].1 == Some(a);
      assert out[i] == DropHelperColumns(merged[i]);
    }
  }

  /** A missing song title is matched by a track with a missing song name,
      as pandas matches missing keys with each other. */
  lemma MissingTitlesMatch(l: CleanRow, album: string)
    requires l.songTitle == None
    ensures JoinSetlistsAlbums([l], [TrackRow(Some(album), None, None)]) == [JoinedRow(l, Some(album))]
  {
    var t := TrackRow(Some(album), None, None);
    assert [t][..0] == [];
    assert TracksTitled(None, [t]) == [t];
    JoinOfOneRow(l, [t]);
  }
}
