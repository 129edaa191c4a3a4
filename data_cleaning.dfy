/** The cleaning step applied to the raw tables: song-title harmonisation of
    the albums and setlist tables, the extra album track, and the back-fill
    of concert fields from a hand-made completion table. The functions
    change the table they are given, so a table is an object whose rows the
    methods reassign. */
module DataCleaning {
  import opened Frames
  import opened Lookups
  import opened CreateTables

  /** A pandas DataFrame, shared by reference between caller and callee.
      `idInIndex` records that `set_index` has moved the id column out of
      the columns and into the row index. */
  class Frame<Row> {
    var rows: seq<Row>
    var idInIndex: bool

    constructor (rows: seq<Row>)
      ensures this.rows == rows && !idInIndex
    {
      this.rows := rows;
      this.idInIndex := false;
    }
  }

  // ---------------------------------------------------------------------
  // clean_album_table
  // ---------------------------------------------------------------------

  /** `replace(mapping)` reaches every string cell of an albums row: the
      album name as well as the song name. */
  function HarmoniseAlbumRow(r: AlbumRow): AlbumRow {
    AlbumRow(ReplaceCell(AlbumSongNames, r.albumName), ReplaceCell(AlbumSongNames, r.songName))
  }

  /** The row added by hand: a track the release feed does not list. */
  const TotalEclipse: AlbumRow := AlbumRow(Some("The Number of the Beast"), Some("Total Eclipse"))

  /** The caller's table is harmonised in place; the returned table is a new
      one holding the harmonised rows and then the extra row. */
  method CleanAlbumTable(table: Frame<AlbumRow>) returns (cleaned: Frame<AlbumRow>)
    modifies table
    ensures table.rows == MapSeq(old(table.rows), HarmoniseAlbumRow)
    ensures table.idInIndex == old(table.idInIndex)
    ensures fresh(cleaned) && !cleaned.idInIndex
    ensures cleaned.rows == table.rows + [TotalEclipse]
  {
    table.rows := MapSeq(table.rows, HarmoniseAlbumRow);
    cleaned := new Frame(table.rows + [TotalEclipse]);
  }

  /** The cleaned table is one row longer; every earlier row keeps its place
      and has each cell replaced exactly when it equals a mapping key in
      full; the last row is the added one. */
  lemma CleanedAlbumRows(rows: seq<AlbumRow>)
    ensures var out := MapSeq(rows, HarmoniseAlbumRow) + [TotalEclipse];
            && |out| == |rows| + 1
            && out[|rows|] == TotalEclipse
            && forall i :: 0 <= i < |rows| ==>
                 && (rows[i].songName.None? ==> out[i].songName.None?)
                 && (rows[i].songName.Some? && rows[i].songName.value !in AlbumSongNames ==> out[i].songName == rows[i].songName)
                 && (rows[i].songName.Some? && rows[i].songName.value in AlbumSongNames ==>
                       out[i].songName == Some(AlbumSongNames[rows[i].songName.value]))
                 && (rows[i].albumName.Some? && rows[i].albumName.value !in AlbumSongNames ==> out[i].albumName == rows[i].albumName)
                 && (rows[i].albumName.Some? && rows[i].albumName.value in AlbumSongNames ==>
                       out[i].albumName == Some(AlbumSongNames[rows[i].albumName.value]))
  {
  }

  /** The mapping is applied to the album column too: the allow-listed
      title "The Number Of The Beast" becomes "The Number of the Beast",
      which the allow-list does not contain. */
  lemma AlbumTitleRenamedToo(song: Option<string>)
    ensures HarmoniseAlbumRow(AlbumRow(Some("The Number Of The Beast"), song)).albumName == Some("The Number of the Beast")
    ensures IsStudioAlbum(AlbumRow(Some("The Number Of The Beast"), song))
    ensures !IsStudioAlbum(HarmoniseAlbumRow(AlbumRow(Some("The Number Of The Beast"), song)))
  {
    assert "The Number Of The Beast" in AlbumSongNames;
    assert "The Number of the Beast" !in StudioAlbums;
  }

  /** No replacement value is a key, so harmonising twice is harmonising once. */
  lemma AlbumHarmonisationIdempotent(rows: seq<AlbumRow>)
    ensures MapSeq(MapSeq(rows, HarmoniseAlbumRow), HarmoniseAlbumRow) == MapSeq(rows, HarmoniseAlbumRow)
  {
    AlbumSongNamesHaveNoChains();
    var once := MapSeq(rows, HarmoniseAlbumRow);
    forall i | 0 <= i < |rows| ensures HarmoniseAlbumRow(once[i]) == once[i] {
      if rows[i].albumName.Some? {
        ReplaceExact(AlbumSongNames, rows[i].albumName.value);
      }
      if rows[i].songName.Some? {
        ReplaceExact(AlbumSongNames, rows[i].songName.value);
      }
    }
  }

  // ---------------------------------------------------------------------
  // clean_setlist_table
  // ---------------------------------------------------------------------

  /** `replace(mapping)` reaches every string cell of a setlist row: the
      setlist id, the concert id, the song name and the cover name. */
  function HarmoniseSetlistRow(r: SetlistRow): SetlistRow {
    r.(setlistId := Replace(SetlistSongNames, r.setlistId),
       concertId := ReplaceCell(SetlistSongNames, r.concertId),
       songName := ReplaceCell(SetlistSongNames, r.songName),
       coverInfo := Replace(SetlistSongNames, r.coverInfo))
  }

  /** The caller's table is harmonised in place and returned. */
  method CleanSetlistTable(table: Frame<SetlistRow>) returns (cleaned: Frame<SetlistRow>)
    modifies table
    ensures table.rows == MapSeq(old(table.rows), HarmoniseSetlistRow)
    ensures table.idInIndex == old(table.idInIndex)
    ensures cleaned == table
  {
    table.rows := MapSeq(table.rows, HarmoniseSetlistRow);
    cleaned := table;
  }

  /** Row count, order and the non-text cells are kept; a song name that is
      not a variant passes through, and a variant becomes its canonical
      title. */
  lemma CleanedSetlistRows(rows: seq<SetlistRow>)
    ensures var out := MapSeq(rows, HarmoniseSetlistRow);
            && |out| == |rows|
            && forall i :: 0 <= i < |rows| ==>
                 && out[i].position == rows[i].position && out[i].encore == rows[i].encore && out[i].tape == rows[i].tape
                 && (rows[i].songName.None? ==> out[i].songName.None?)
                 && (rows[i].songName.Some? && rows[i].songName.value !in SetlistSongNames ==> out[i].songName == rows[i].songName)
                 && (rows[i].songName.Some? && rows[i].songName.value in SetlistSongNames ==>
                       out[i].songName == Some(SetlistSongNames[rows[i].songName.value]))
  {
  }

  /** Two of the variants that reach the same canonical title. */
  lemma VariantsShareCanonicalTitle()
    ensures Replace(SetlistSongNames, "Blade Runner") == Replace(SetlistSongNames, "Bladerunner Theme") == "Blade Runner (End Titles)"
    ensures Replace(SetlistSongNames, "Blade Runner (End Titles)") == "Blade Runner (End Titles)"
  {
    assert "Blade Runner" in SetlistSongNames;
    assert "Bladerunner Theme" in SetlistSongNames;
    SetlistSongNamesHaveNoChains();
  }

  lemma SetlistRowStable(m: map<string, string>, r: SetlistRow)
    requires NoChains(m)
    ensures var once := r.(setlistId := Replace(m, r.setlistId), concertId := ReplaceCell(m, r.concertId),
                           songName := ReplaceCell(m, r.songName), coverInfo := Replace(m, r.coverInfo));
            once.(setlistId := Replace(m, once.setlistId), concertId := ReplaceCell(m, once.concertId),
                  songName := ReplaceCell(m, once.songName), coverInfo := Replace(m, once.coverInfo)) == once
  {
    ReplaceExact(m, r.setlistId);
    ReplaceExact(m, r.coverInfo);
    if r.concertId.Some? {
      ReplaceExact(m, r.concertId.value);
    }
    if r.songName.Some? {
      ReplaceExact(m, r.songName.value);
    }
  }

  /** No canonical title is a variant, so harmonising twice is harmonising once. */
  lemma SetlistHarmonisationIdempotent(rows: seq<SetlistRow>)
    ensures MapSeq(MapSeq(rows, HarmoniseSetlistRow), HarmoniseSetlistRow) == MapSeq(rows, HarmoniseSetlistRow)
  {
    SetlistSongNamesHaveNoChains();
    var once := MapSeq(rows, HarmoniseSetlistRow);
    forall i | 0 <= i < |rows| ensures HarmoniseSetlistRow(once[i]) == once[i] {
      SetlistRowStable(SetlistSongNames, rows[i]);
    }
  }

  // ---------------------------------------------------------------------
  // add_missing_tours
  // ---------------------------------------------------------------------

  /** `DataFrame.update`, one cell: a present value of the other table
      overwrites, a missing one never does. */
  function Fill(mine: Option<string>, theirs: Option<string>): Option<string> {
    if theirs.Some? then theirs else mine
  }

  /** One concert row updated from the completion row with its concert id,
      across the columns both tables share; the id itself is the index and
      stays. A completion column the file lacks reads as missing throughout. */
  function UpdateRow(r: ConcertRow, completion: seq<ConcertRow>): ConcertRow {
    match FirstWithKey(completion, ConcertKey, r.concertId)
    case None => r
    case Some(c) =>
      ConcertRow(r.concertId, Fill(r.venueId, c.venueId), Fill(r.cityId, c.cityId), Fill(r.date, c.date), Fill(r.tour, c.tour))
  }

  function UpdateRows(rows: seq<ConcertRow>, completion: seq<ConcertRow>): (r: seq<ConcertRow>)
    ensures |r| == |rows|
  {
    if rows == [] then []
    else UpdateRows(rows[..|rows| - 1], completion) + [UpdateRow(rows[|rows| - 1], completion)]
  }

  lemma {:induction false} UpdateRowsAt(rows: seq<ConcertRow>, completion: seq<ConcertRow>)
    ensures forall i :: 0 <= i < |rows| ==> UpdateRows(rows, completion)[i] == UpdateRow(rows[i], completion)
  {
    if rows != [] {
      UpdateRowsAt(rows[..|rows| - 1], completion);
    }
  }

  /** `set_index("concert_id")` on a table whose id is already in the index
      finds no such column and raises `KeyError`, changing nothing. Otherwise
      the id moves into the caller's index at once. `update` then aligns the
      completion table on that index, which raises `ValueError` when the
      completion table repeats an id; the table is left with its id in the
      index, since `reset_index` never runs. On success every row is updated
      and the id is a column again. */
  method AddMissingTours(table: Frame<ConcertRow>, completion: seq<ConcertRow>)
    returns (r: Result<Frame<ConcertRow>>)
    modifies table
    ensures r.Err? <==> old(table.idInIndex) || !KeysUnique(completion, ConcertKey)
    ensures old(table.idInIndex) ==> r == Err(KeyError("concert_id"))
    ensures !old(table.idInIndex) && r.Err? ==> r.error.ValueError?
    ensures r.Err? ==> table.rows == old(table.rows) && table.idInIndex
    ensures r.Ok? ==> r.value == table && table.rows == UpdateRows(old(table.rows), completion) && !table.idInIndex
  {
    if table.idInIndex {
      return Err(KeyError("concert_id"));
    }
    table.idInIndex := true;
    if !KeysUnique(completion, ConcertKey) {
      return Err(ValueError("cannot reindex on an axis with duplicate labels"));
    }
    table.rows := UpdateRows(table.rows, completion);
    table.idInIndex := false;
    return Ok(table);
  }

  /** The update keeps the row count, the order and every concert id; a
      concert without a completion row is unchanged; for one with a
      completion row, each column takes the completion value when that is
      present, even over a present value, and keeps its own otherwise. */
  lemma UpdateRowsOverlay(rows: seq<ConcertRow>, completion: seq<ConcertRow>)
    requires KeysUnique(completion, ConcertKey)
    ensures var out := UpdateRows(rows, completion);
            && |out| == |rows|
            && forall i :: 0 <= i < |rows| ==>
                 && out[i].concertId == rows[i].concertId
                 && (!HasKey(completion, ConcertKey, rows[i].concertId) ==> out[i] == rows[i])
                 && forall c :: c in completion && c.concertId == rows[i].concertId ==>
                      && out[i].tour == (if c.tour.Some? then c.tour else rows[i].tour)
                      && out[i].date == (if c.date.Some? then c.date else rows[i].date)
                      && out[i].venueId == (if c.venueId.Some? then c.venueId else rows[i].venueId)
                      && out[i].cityId == (if c.cityId.Some? then c.cityId else rows[i].cityId)
  {
    UpdateRowsAt(rows, completion);
    forall i, c | 0 <= i < |rows| && c in completion && c.concertId == rows[i].concertId
      ensures FirstWithKey(completion, ConcertKey, rows[i].concertId) == Some(c)
    {
      FirstWithKeyFound(completion, ConcertKey, rows[i].concertId);
      var j :| 0 <= j < |completion| && completion[j] == c;
      var w := FirstWithKey(completion, ConcertKey, rows[i].concertId).value;
      var k :| 0 <= k < |completion| && completion[k] == w;
      assert ConcertKey(completion[k]) == ConcertKey(completion[j]);
    }
    forall i | 0 <= i < |rows| && !HasKey(completion, ConcertKey, rows[i].concertId)
      ensures UpdateRow(rows[i], completion) == rows[i]
    {
      FirstWithKeyFound(completion, ConcertKey, rows[i].concertId);
    }
  }

  /** Applying the same completion table twice changes nothing more. */
  lemma UpdateRowsIdempotent(rows: seq<ConcertRow>, completion: seq<ConcertRow>)
    ensures UpdateRows(UpdateRows(rows, completion), completion) == UpdateRows(rows, completion)
  {
    var once := UpdateRows(rows, completion);
    UpdateRowsAt(rows, completion);
    UpdateRowsAt(once, completion);
  }
}
