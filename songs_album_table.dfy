/** The stand-alone albums builder, a copy of the album part of the table
    builder: the same track loops over releases, the same allow-list, the
    same de-duplication and the same discarded sort. */
module SongsAlbumTable {
  import opened Frames
  import opened Feeds
  import opened CreateTables

  /** `albums_test`: rows (album_name, song_name) for every track of every
      medium of every release, allow-listed, first occurrence of each pair
      kept, in feed order; a release or medium without its list raises
      `TypeError`. */
  method AlbumsTest(releases: seq<Release>) returns (r: Result<seq<AlbumRow>>)
    ensures r.Err? <==> !AllWalkable(releases)
    ensures r.Err? ==> r.error.TypeError?
    ensures r.Ok? ==> r.value == StudioAlbumPairs(ReleaseRows(releases))
    ensures r.Ok? ==> KeysUnique(r.value, AlbumPairKey)
    ensures r.Ok? ==> forall a :: a in r.value <==> a in MapSeq(ReleaseRows(releases), AlbumRowOf) && IsStudioAlbum(a)
  {
    r := CreateAlbumsTable(releases);
    if r.Ok? {
      StudioAlbumPairsExact(ReleaseRows(releases));
    }
  }
}
