/** The release feed turned into the cleaned albums table: the track loops
    flatten it, then whole-table steps keep the allow-listed studio albums,
    drop repeated (album, song) pairs, sort by album and track position,
    remove bonus material by a case-insensitive regular expression and
    harmonise the titles. */
module CleanAlbumData {
  import opened Frames
  import opened Text
  import opened Feeds
  import opened Lookups

  // ---------------------------------------------------------------------
  // Allow-list and de-duplication
  // ---------------------------------------------------------------------

  /** `isin(studio_albums)` on the album column, before any renaming. */
  predicate IsStudioTrack(t: TrackRow) {
    t.album.Some? && t.album.value in StudioAlbums
  }

  function TrackPairKey(t: TrackRow): (Option<string>, Option<string>) {
    (t.album, t.song)
  }

  // ---------------------------------------------------------------------
  // sort_values(by=["album_name", "song_position"])
  // ---------------------------------------------------------------------

  /** Ascending, a missing value last. */
  predicate AlbumLe(a: Option<string>, b: Option<string>) {
    if a.None? then b.None? else b.None? || StrLe(a.value, b.value)
  }

  predicate PositionLe(a: Option<int>, b: Option<int>) {
    if a.None? then b.None? else b.None? || a.value <= b.value
  }

  /** Album first; the position decides only between rows of one album. */
  predicate TrackLe(a: TrackRow, b: TrackRow) {
    if a.album == b.album then PositionLe(a.position, b.position) else AlbumLe(a.album, b.album)
  }

  lemma AlbumLeProperties(a: Option<string>, b: Option<string>, c: Option<string>)
    ensures AlbumLe(a, b) || AlbumLe(b, a)
    ensures AlbumLe(a, b) && AlbumLe(b, a) ==> a == b
    ensures AlbumLe(a, b) && AlbumLe(b, c) ==> AlbumLe(a, c)
  {
    if a.Some? && b.Some? {
      StrLeTotal(a.value, b.value);
      if StrLe(a.value, b.value) && StrLe(b.value, a.value) {
        StrLeAntisymmetric(a.value, b.value);
      }
      if c.Some? && StrLe(a.value, b.value) && StrLe(b.value, c.value) {
        StrLeTransitive(a.value, b.value, c.value);
      }
    }
  }

  /** The sort order is total and transitive. */
  lemma TrackLeTotalPreorder(a: TrackRow, b: TrackRow, c: TrackRow)
    ensures TrackLe(a, b) || TrackLe(b, a)
    ensures TrackLe(a, b) && TrackLe(b, c) ==> TrackLe(a, c)
  {
    AlbumLeProperties(a.album, b.album, c.album);
    AlbumLeProperties(b.album, a.album, c.album);
    AlbumLeProperties(a.album, c.album, b.album);
  }

  predicate SortedByTrack(s: seq<TrackRow>) {
    forall i, j :: 0 <= i < j < |s| ==> TrackLe(s[i], s[j])
  }

  /** Places `x` after every row that does not sort after it. */
  function InsertTrack(t: seq<TrackRow>, x: TrackRow): (r: seq<TrackRow>)
    ensures |r| == |t| + 1
  {
    if t == [] then [x]
    else if TrackLe(t[|t| - 1], x) then t + [x]
    else InsertTrack(t[..|t| - 1], x) + [t[|t| - 1]]
  }

  /** A stable insertion sort: rows are inserted in table order. */
  function SortTracks(s: seq<TrackRow>): (r: seq<TrackRow>)
    ensures |r| == |s|
  {
    if s == [] then [] else InsertTrack(SortTracks(s[..|s| - 1]), s[|s| - 1])
  }

  lemma {:induction false} InsertTrackPermutes(t: seq<TrackRow>, x: TrackRow)
    ensures multiset(InsertTrack(t, x)) == multiset(t) + multiset{x}
  {
    if t != [] && !TrackLe(t[|t| - 1], x) {
      InsertTrackPermutes(t[..|t| - 1], x);
      assert t == t[..|t| - 1] + [t[|t| - 1]];
    }
  }

  lemma {:induction false} InsertTrackSorted(t: seq<TrackRow>, x: TrackRow)
    requires SortedByTrack(t)
    ensures SortedByTrack(InsertTrack(t, x))
  {
    if t != [] {
      var init, last := t[..|t| - 1], t[|t| - 1];
      if TrackLe(last, x) {
        forall i | 0 <= i < |t| ensures TrackLe(t[i], x) {
          TrackLeTotalPreorder(t[i], last, x);
        }
      } else {
        TrackLeTotalPreorder(last, x, last);
        InsertTrackSorted(init, x);
        InsertTrackPermutes(init, x);
        var r := InsertTrack(init, x);
        forall i | 0 <= i < |r| ensures TrackLe(r[i], last) {
          assert r[i] in multiset(r);
          if r[i] != x {
            assert r[i] in multiset(init);
            var k :| 0 <= k < |init| && init[k] == r[i];
            assert t[k] == r[i];
          }
        }
      }
    }
  }

  /** `sort_values` on album then position gives a sorted permutation. */
  lemma {:induction false} SortTracksSortedPermutation(s: seq<TrackRow>)
    ensures SortedByTrack(SortTracks(s))
    ensures multiset(SortTracks(s)) == multiset(s)
  {
    if s != [] {
      var init := s[..|s| - 1];
      SortTracksSortedPermutation(init);
      InsertTrackSorted(SortTracks(init), s[|s| - 1]);
      InsertTrackPermutes(SortTracks(init), s[|s| - 1]);
      assert s == init + [s[|s| - 1]];
    }
  }

  /** The sort key of a row. */
  function TrackKey(t: TrackRow): (Option<string>, Option<int>) {
    (t.album, t.position)
  }

  lemma {:induction false} InsertTrackStable(t: seq<TrackRow>, x: TrackRow, k: (Option<string>, Option<int>))
    ensures Filter(InsertTrack(t, x), r => TrackKey(r) == k)
         == Filter(t, r => TrackKey(r) == k) + (if TrackKey(x) == k then [x] else [])
  {
    var same := (r: TrackRow) => TrackKey(r) == k;
    if t == [] {
      assert InsertTrack(t, x) == [] + [x];
    } else if TrackLe(t[|t| - 1], x) {
      FilterConcat(t, [x], same);
    } else {
      var init, last := t[..|t| - 1], t[|t| - 1];
      InsertTrackStable(init, x, k);
      FilterConcat(InsertTrack(init, x), [last], same);
      FilterConcat(init, [last], same);
      assert t == init + [last];
      if TrackKey(x) == k && TrackKey(last) == k {
        assert TrackLe(last, x);
      }
      assert Filter([x], same) == (if TrackKey(x) == k then [x] else []);
    }
  }

  /** The sort is stable: the rows sharing a sort key keep their order. */
  lemma {:induction false} SortTracksStable(s: seq<TrackRow>, k: (Option<string>, Option<int>))
    ensures Filter(SortTracks(s), r => TrackKey(r) == k) == Filter(s, r => TrackKey(r) == k)
  {
    if s != [] {
      var init, last := s[..|s| - 1], s[|s| - 1];
      SortTracksStable(init, k);
      InsertTrackStable(SortTracks(init), last, k);
      assert s == init + [last];
      FilterConcat(init, [last], r => TrackKey(r) == k);
    }
  }

  // ---------------------------------------------------------------------
  // str.contains(pattern, case=False, na=False)
  // ---------------------------------------------------------------------

  /** One of the keyword alternatives, or the character class, matches
      somewhere in the title. */
  predicate IsBonusTitle(s: string) {
    (exists k :: k in DeleteKeywords && Search(s, CompileKeyword(k))) || ContainsCjk(s)
  }

  /** The negated mask: a row is kept when its title does not match; a
      missing title counts as not matching and is kept. */
  predicate KeepTrack(t: TrackRow) {
    t.song.None? || !IsBonusTitle(t.song.value)
  }

  /** The dot of "5.1" is the regular-expression wildcard: "5x1" is
      excluded, and the keywords match regardless of case. */
  lemma DotInFiveOneIsAWildcard()
    ensures IsBonusTitle("5x1")
    ensures IsBonusTitle("Aces High (LIVE)")
  {
    assert "5.1" in DeleteKeywords;
    assert MatchesAt("5x1", 0, CompileKeyword("5.1"));
    assert "live" in DeleteKeywords;
    assert MatchesAt("Aces High (LIVE)", 11, CompileKeyword("live"));
  }

  // ---------------------------------------------------------------------
  // replace(mapping, inplace=True)
  // ---------------------------------------------------------------------

  /** Both text cells are harmonised; the position is a number and stays. */
  function HarmoniseTrack(t: TrackRow): TrackRow {
    TrackRow(ReplaceCell(AlbumSongNames, t.album), t.position, ReplaceCell(AlbumSongNames, t.song))
  }

  // ---------------------------------------------------------------------
  // The whole function
  // ---------------------------------------------------------------------

  /** The rows after allow-listing, de-duplication, sorting and exclusion,
      before harmonisation. */
  function SelectedTracks(rows: seq<TrackRow>): seq<TrackRow> {
    Filter(SortTracks(DropDuplicates(Filter(rows, IsStudioTrack), TrackPairKey)), KeepTrack)
  }

  function CleanAlbumRows(rows: seq<TrackRow>): seq<TrackRow> {
    MapSeq(SelectedTracks(rows), HarmoniseTrack)
  }

  /** `clean_album_data`: raises `TypeError` when a release or a medium
      lacks its list, and gives the cleaned rows of the track loops
      otherwise. */
  method CleanAlbumData(releases: seq<Release>) returns (r: Result<seq<TrackRow>>)
    ensures r.Err? <==> !AllWalkable(releases)
    ensures r.Err? ==> r.error.TypeError?
    ensures r.Ok? ==> r.value == CleanAlbumRows(ReleaseRows(releases))
  {
    var flat := FlattenTracks(releases);
    if flat.Err? {
      return Err(flat.error);
    }
    var albums := Filter(flat.value, IsStudioTrack);
    albums := DropDuplicates(albums, TrackPairKey);
    albums := SortTracks(albums);
    albums := Filter(albums, KeepTrack);
    albums := MapSeq(albums, HarmoniseTrack);
    return Ok(albums);
  }

  lemma {:induction false} FilterKeepsSorted(s: seq<TrackRow>, keep: TrackRow -> bool)
    requires SortedByTrack(s)
    ensures SortedByTrack(Filter(s, keep))
  {
    if s != [] {
      var init, last := s[..|s| - 1], s[|s| - 1];
      FilterKeepsSorted(init, keep);
      FilterExact(init, keep);
      var f := Filter(init, keep);
      forall i | 0 <= i < |f| ensures TrackLe(f[i], last) {
        assert f[i] in init;
        var k :| 0 <= k < |init| && init[k] == f[i];
        assert s[k] == f[i];
      }
    }
  }

  /** Before harmonisation, the selected rows are sorted by album and
      position and hold each (album, song) pair at most once. */
  lemma SelectedTracksSortedUnique(rows: seq<TrackRow>)
    ensures SortedByTrack(SelectedTracks(rows))
    ensures KeysUnique(SelectedTracks(rows), TrackPairKey)
  {
    var studio := Filter(rows, IsStudioTrack);
    var dedup := DropDuplicates(studio, TrackPairKey);
    var sorted := SortTracks(dedup);
    DropDuplicatesUnique(studio, TrackPairKey);
    SortTracksSortedPermutation(dedup);
    FilterKeepsSorted(sorted, KeepTrack);
    SortTracksKeepsUniquePairs(dedup);
    FilterKeepsUniqueKeys(sorted, KeepTrack, TrackPairKey);
  }

  /** Among the allow-listed titles only "The Number Of The Beast" is a
      mapping key. */
  lemma StudioAlbumsRenamed(x: string)
    requires x in StudioAlbums
    ensures Replace(AlbumSongNames, x) == if x == "The Number Of The Beast" then "The Number of the Beast" else x
  {
  }

  /** The allow-listed titles other than "The Number Of The Beast" depart
      from "The Number " at its first or fifth character, and none is the
      new spelling, which shares those eleven characters. */
  lemma StudioAlbumsBeforeNumber(x: string)
    requires x in StudioAlbums && x != "The Number Of The Beast"
    ensures |x| >= 5 && (x[0] != 'T' || x[4] != 'N')
    ensures x != "The Number of the Beast"
  {
    var i :| 0 <= i < |StudioAlbums| && StudioAlbums[i] == x;
  }

  /** Renaming one title to a spelling that agrees with it up to where
      every other title departs keeps the order and the distinctness of
      titles. */
  lemma RenameKeepsOrder(x: string, y: string, hx: string, hy: string)
    requires hx == (if x == "The Number Of The Beast" then "The Number of the Beast" else x)
    requires hy == (if y == "The Number Of The Beast" then "The Number of the Beast" else y)
    requires x != "The Number Of The Beast" ==>
               |x| >= 5 && (x[0] != 'T' || x[4] != 'N') && x != "The Number of the Beast"
    requires y != "The Number Of The Beast" ==>
               |y| >= 5 && (y[0] != 'T' || y[4] != 'N') && y != "The Number of the Beast"
    ensures StrLe(x, y) <==> StrLe(hx, hy)
    ensures x == y <==> hx == hy
  {
    var beast := "The Number Of The Beast";
    if x == beast && y != beast {
      SharedPrefixOfBeast(y);
    } else if y == beast && x != beast {
      SharedPrefixOfBeast(x);
    } else if x == y {
      StrLeTotal(x, x);
      StrLeTotal(hx, hx);
    }
  }

  /** Harmonising keeps both the order and the distinctness of allow-listed
      album titles. */
  lemma HarmoniseKeepsAlbumOrder(x: string, y: string)
    requires x in StudioAlbums && y in StudioAlbums
    ensures StrLe(x, y) <==> StrLe(Replace(AlbumSongNames, x), Replace(AlbumSongNames, y))
    ensures x == y <==> Replace(AlbumSongNames, x) == Replace(AlbumSongNames, y)
  {
    StudioAlbumsRenamed(x);
    StudioAlbumsRenamed(y);
    if x != "The Number Of The Beast" {
      StudioAlbumsBeforeNumber(x);
    }
    if y != "The Number Of The Beast" {
      StudioAlbumsBeforeNumber(y);
    }
    RenameKeepsOrder(x, y, Replace(AlbumSongNames, x), Replace(AlbumSongNames, y));
  }

  lemma SharedPrefixOfBeast(x: string)
    requires |x| >= 5 && (x[0] != 'T' || x[4] != 'N')
    ensures StrLe(x, "The Number Of The Beast") <==> StrLe(x, "The Number of the Beast")
    ensures StrLe("The Number Of The Beast", x) <==> StrLe("The Number of the Beast", x)
  {
    var beast, renamed := "The Number Of The Beast", "The Number of the Beast";
    assert forall i :: 0 <= i <= 4 ==> beast[i] == renamed[i];
    if x[0] != 'T' {
      StrLeSharedPrefix(x, beast, renamed, 0);
    } else {
      StrLeSharedPrefix(x, beast, renamed, 4);
    }
  }

  /** Harmonising two allow-listed rows keeps their relative order. */
  lemma HarmoniseKeepsTrackOrder(a: TrackRow, b: TrackRow)
    requires IsStudioTrack(a) && IsStudioTrack(b)
    ensures TrackLe(a, b) <==> TrackLe(HarmoniseTrack(a), HarmoniseTrack(b))
  {
    HarmoniseKeepsAlbumOrder(a.album.value, b.album.value);
  }

  /** The cleaned albums table is sorted by (album, position), like the
      selected rows before harmonisation. */
  lemma CleanAlbumRowsSorted(rows: seq<TrackRow>)
    ensures SortedByTrack(CleanAlbumRows(rows))
  {
    var sel := SelectedTracks(rows);
    var out := CleanAlbumRows(rows);
    SelectedTracksSortedUnique(rows);
    SelectedTracksMembers(rows);
    forall i, j | 0 <= i < j < |out| ensures TrackLe(out[i], out[j]) {
      assert sel[i] in sel && sel[j] in sel;
      HarmoniseKeepsTrackOrder(sel[i], sel[j]);
    }
  }

  /** Harmonising the cleaned albums table a second time changes nothing:
      no canonical title is itself a variant. */
  lemma CleanAlbumRowsIdempotent(rows: seq<TrackRow>)
    ensures MapSeq(CleanAlbumRows(rows), HarmoniseTrack) == CleanAlbumRows(rows)
  {
    AlbumSongNamesHaveNoChains();
    forall i | 0 <= i < |CleanAlbumRows(rows)|
      ensures HarmoniseTrack(CleanAlbumRows(rows)[i]) == CleanAlbumRows(rows)[i]
    {
      var t := SelectedTracks(rows)[i];
      if t.album.Some? { ReplaceExact(AlbumSongNames, t.album.value); }
      if t.song.Some? { ReplaceExact(AlbumSongNames, t.song.value); }
    }
  }

  /** The selected rows are the allow-listed, non-bonus rows of the feed
      that come first with their (album, song) pair. */
  lemma SelectedTracksMembers(rows: seq<TrackRow>)
    ensures forall t :: t in SelectedTracks(rows) <==>
              && IsStudioTrack(t) && KeepTrack(t)
              && FirstWithKey(Filter(rows, IsStudioTrack), TrackPairKey, TrackPairKey(t)) == Some(t)
    ensures forall t :: t in SelectedTracks(rows) ==> t in rows
  {
    var studio := Filter(rows, IsStudioTrack);
    var dedup := DropDuplicates(studio, TrackPairKey);
    var sorted := SortTracks(dedup);
    DropDuplicatesFirst(studio, TrackPairKey);
    SortTracksSortedPermutation(dedup);
    FilterExact(sorted, KeepTrack);
    forall t ensures t in sorted <==> t in dedup {
      assert t in sorted <==> t in multiset(sorted);
      assert t in dedup <==> t in multiset(dedup);
    }
    FilterExact(rows, IsStudioTrack);
    forall t | FirstWithKey(studio, TrackPairKey, TrackPairKey(t)) == Some(t)
      ensures t in studio
    {
      FirstWithKeyFound(studio, TrackPairKey, TrackPairKey(t));
    }
  }

  /** Every allow-listed, non-bonus row of the feed is represented by a
      selected row with its (album, song) pair. */
  lemma SelectedTracksComplete(rows: seq<TrackRow>, t: TrackRow)
    requires t in rows && IsStudioTrack(t) && KeepTrack(t)
    ensures exists u :: u in SelectedTracks(rows) && TrackPairKey(u) == TrackPairKey(t)
  {
    var studio := Filter(rows, IsStudioTrack);
    FilterExact(rows, IsStudioTrack);
    assert t in studio;
    var i :| 0 <= i < |studio| && studio[i] == t;
    assert HasKey(studio, TrackPairKey, TrackPairKey(t));
    FirstWithKeyFound(studio, TrackPairKey, TrackPairKey(t));
    var u := FirstWithKey(studio, TrackPairKey, TrackPairKey(t)).value;
    SelectedTracksMembers(rows);
    assert u in SelectedTracks(rows);
  }

  lemma {:induction false} InsertTrackKeepsUniquePairs(t: seq<TrackRow>, x: TrackRow)
    requires KeysUnique(t, TrackPairKey) && !HasKey(t, TrackPairKey, TrackPairKey(x))
    ensures KeysUnique(InsertTrack(t, x), TrackPairKey)
  {
    if t != [] && !TrackLe(t[|t| - 1], x) {
      var init, last := t[..|t| - 1], t[|t| - 1];
      KeysUniqueInit(t, TrackPairKey);
      assert !HasKey(init, TrackPairKey, TrackPairKey(x));
      InsertTrackKeepsUniquePairs(init, x);
      InsertTrackPermutes(init, x);
      var r := InsertTrack(init, x);
      forall i | 0 <= i < |r| ensures TrackPairKey(r[i]) != TrackPairKey(last) {
        assert r[i] in multiset(r);
        if r[i] == x {
          assert TrackPairKey(t[|t| - 1]) != TrackPairKey(x);
        } else {
          assert r[i] in init;
        }
      }
    } else if t != [] {
      assert forall i :: 0 <= i < |t| ==> TrackPairKey(t[i]) != TrackPairKey(x);
    }
  }

  /** Sorting a table of unique (album, song) pairs keeps them unique. */
  lemma {:induction false} SortTracksKeepsUniquePairs(s: seq<TrackRow>)
    requires KeysUnique(s, TrackPairKey)
    ensures KeysUnique(SortTracks(s), TrackPairKey)
  {
    if s != [] {
      var init, last := s[..|s| - 1], s[|s| - 1];
      KeysUniqueInit(s, TrackPairKey);
      SortTracksKeepsUniquePairs(init);
      SortTracksSortedPermutation(init);
      var sorted := SortTracks(init);
      forall i | 0 <= i < |sorted| ensures TrackPairKey(sorted[i]) != TrackPairKey(last) {
        assert sorted[i] in multiset(init);
        var k :| 0 <= k < |init| && init[k] == sorted[i];
        assert TrackPairKey(init[k]) != TrackPairKey(last);
      }
      InsertTrackKeepsUniquePairs(sorted, last);
    }
  }
}
