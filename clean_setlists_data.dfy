/** The setlist feed flattened into one row per performed song by the
    normalise-and-explode chain, then harmonised, completed with missing
    tours, numbered within each concert and reduced to thirteen columns.
    Every step is a whole-table expression, so the step is a function. */
module CleanSetlistsData {
  import opened Frames
  import opened Feeds
  import opened Lookups
  import opened CreateTables

  /** The concert's own columns after normalising the feed, repeated on
      every row the explodes produce for it. */
  datatype Head = Head(
    id: Option<string>,
    date: Option<string>,
    venue: Option<string>,
    city: Option<string>,
    stateCode: Option<string>,
    latitude: Option<Coordinate>,
    longitude: Option<Coordinate>,
    country: Option<string>,
    tour: Option<string>)

  /** One row after both explodes: the concert's columns, the set's encore
      value and the song's name, tape flag and cover name, each missing
      when the row stands for an empty or absent list. */
  datatype SongRow = SongRow(
    head: Head,
    encore: Option<int>,
    songTitle: Option<string>,
    tape: Option<bool>,
    cover: Option<string>)

  /** The output row: thirteen columns in the order id, date, venue, city,
      country, latitude, longitude, tour, song_count, song_title, encore,
      from_tape, cover; the state code is gone. */
  datatype CleanRow = CleanRow(
    id: Option<string>,
    date: Option<string>,
    venue: Option<string>,
    city: Option<string>,
    country: Option<string>,
    latitude: Option<Coordinate>,
    longitude: Option<Coordinate>,
    tour: Option<string>,
    songCount: Option<nat>,
    songTitle: Option<string>,
    encore: Option<int>,
    fromTape: Option<bool>,
    cover: Option<string>)

  // ---------------------------------------------------------------------
  // Normalise and explode
  // ---------------------------------------------------------------------

  function HeadOf(c: Concert): Head {
    Head(c.id, c.eventDate, VenueName(c), CityName(c), StateCode(c), Latitude(c), Longitude(c), CountryName(c), TourName(c))
  }

  /** The row of one song, or of the null element an empty list explodes to. */
  function SongRowOf(c: Concert, encore: Option<int>, song: Option<Song>): SongRow {
    if song.Some? then SongRow(HeadOf(c), encore, song.value.name, song.value.tape, CoverName(song.value))
    else SongRow(HeadOf(c), encore, None, None, None)
  }

  /** Exploding one set's song list: a row per song, or one null row when
      the list is empty or absent. */
  function SetRows(c: Concert, s: SetOfSongs): seq<SongRow> {
    if s.songs.None? || s.songs.value == [] then [SongRowOf(c, s.encore, None)]
    else
      var songs := s.songs.value;
      seq(|songs|, k requires 0 <= k < |songs| => SongRowOf(c, s.encore, Some(songs[k])))
  }

  function SetsRows(c: Concert, sets: seq<SetOfSongs>): seq<SongRow> {
    if sets == [] then [] else SetsRows(c, sets[..|sets| - 1]) + SetRows(c, sets[|sets| - 1])
  }

  /** Exploding the concert's set list: an empty or absent list explodes to
      one null set, which yields one null row. */
  function ConcertSongRows(c: Concert): seq<SongRow> {
    if c.sets == [] then [SongRowOf(c, None, None)] else SetsRows(c, c.sets)
  }

  function Explode(setlists: seq<Concert>): seq<SongRow> {
    if setlists == [] then []
    else Explode(setlists[..|setlists| - 1]) + ConcertSongRows(setlists[|setlists| - 1])
  }

  /** How many rows a set, a concert and the feed explode to. */
  function SetRowCount(s: SetOfSongs): nat {
    if s.songs.None? || s.songs.value == [] then 1 else |s.songs.value|
  }

  function SetsRowCount(sets: seq<SetOfSongs>): nat {
    if sets == [] then 0 else SetsRowCount(sets[..|sets| - 1]) + SetRowCount(sets[|sets| - 1])
  }

  function ConcertRowCount(c: Concert): nat {
    if c.sets == [] then 1 else SetsRowCount(c.sets)
  }

  function RowCount(setlists: seq<Concert>): nat {
    if setlists == [] then 0 else RowCount(setlists[..|setlists| - 1]) + ConcertRowCount(setlists[|setlists| - 1])
  }

  lemma {:induction false} SetsRowsShape(c: Concert, sets: seq<SetOfSongs>)
    ensures |SetsRows(c, sets)| == SetsRowCount(sets)
    ensures forall k :: 0 <= k < |SetsRows(c, sets)| ==> SetsRows(c, sets)[k].head == HeadOf(c)
    ensures forall j, k :: 0 <= j < |sets| && sets[j].songs.Some? && 0 <= k < |sets[j].songs.value| ==>
              SongRowOf(c, sets[j].encore, Some(sets[j].songs.value[k])) in SetsRows(c, sets)
  {
    if sets != [] {
      var init, last := sets[..|sets| - 1], sets[|sets| - 1];
      SetsRowsShape(c, init);
      var a: seq<SongRow>, b: seq<SongRow> := SetsRows(c, init), SetRows(c, last);
      forall k | 0 <= k < |a + b| ensures (a + b)[k].head == HeadOf(c) {
        if k >= |a| {
          assert (a + b)[k] == b[k - |a|];
        }
      }
      forall j, k | 0 <= j < |sets| && sets[j].songs.Some? && 0 <= k < |sets[j].songs.value|
        ensures SongRowOf(c, sets[j].encore, Some(sets[j].songs.value[k])) in a + b
      {
        if j < |init| {
          assert sets[j] == init[j];
        } else {
          assert b[k] == SongRowOf(c, last.encore, Some(last.songs.value[k]));
        }
      }
    }
  }

  /** A concert explodes to at least one row, every one carrying the
      concert's own columns, and every song of every set has a row with its
      set's encore value. */
  lemma ConcertSongRowsShape(c: Concert)
    ensures |ConcertSongRows(c)| == ConcertRowCount(c) >= 1
    ensures forall k :: 0 <= k < |ConcertSongRows(c)| ==> ConcertSongRows(c)[k].head == HeadOf(c)
    ensures forall j, k :: 0 <= j < |c.sets| && c.sets[j].songs.Some? && 0 <= k < |c.sets[j].songs.value| ==>
              SongRowOf(c, c.sets[j].encore, Some(c.sets[j].songs.value[k])) in ConcertSongRows(c)
  {
    SetsRowsShape(c, c.sets);
    if c.sets != [] {
      SetsRowCountPositive(c.sets);
    }
  }

  lemma {:induction false} SetsRowCountPositive(sets: seq<SetOfSongs>)
    requires sets != []
    ensures SetsRowCount(sets) >= 1
  {
    if |sets| > 1 {
      SetsRowCountPositive(sets[..|sets| - 1]);
    }
  }

  lemma {:induction false} ExplodeLength(setlists: seq<Concert>)
    ensures |Explode(setlists)| == RowCount(setlists)
  {
    if setlists != [] {
      ExplodeLength(setlists[..|setlists| - 1]);
      ConcertSongRowsShape(setlists[|setlists| - 1]);
    }
  }

  lemma {:induction false} ExplodeHeads(setlists: seq<Concert>)
    ensures forall k :: 0 <= k < |Explode(setlists)| ==>
              exists i :: 0 <= i < |setlists| && Explode(setlists)[k].head == HeadOf(setlists[i])
  {
    if setlists == [] {
      assert |Explode(setlists)| == 0;
    } else {
      var init, last := setlists[..|setlists| - 1], setlists[|setlists| - 1];
      ExplodeHeads(init);
      ConcertSongRowsShape(last);
      var a: seq<SongRow>, b: seq<SongRow> := Explode(init), ConcertSongRows(last);
      assert Explode(setlists) == a + b;
      forall k | 0 <= k < |a + b|
        ensures exists i :: 0 <= i < |setlists| && (a + b)[k].head == HeadOf(setlists[i])
      {
        if k < |a| {
          assert (a + b)[k] == a[k];
          var i :| 0 <= i < |init| && a[k].head == HeadOf(init[i]);
          assert setlists[i] == init[i];
        } else {
          assert (a + b)[k] == b[k - |a|];
          assert b[k - |a|].head == HeadOf(last);
          assert setlists[|setlists| - 1] == last;
        }
      }
    }
  }

  lemma {:induction false} ExplodeCoversSongs(setlists: seq<Concert>)
    ensures forall i, j, k ::
              (0 <= i < |setlists| && 0 <= j < |setlists[i].sets| && setlists[i].sets[j].songs.Some?
               && 0 <= k < |setlists[i].sets[j].songs.value|) ==>
              SongRowOf(setlists[i], setlists[i].sets[j].encore, Some(setlists[i].sets[j].songs.value[k])) in Explode(setlists)
  {
    if setlists != [] {
      var init, last := setlists[..|setlists| - 1], setlists[|setlists| - 1];
      ExplodeCoversSongs(init);
      ConcertSongRowsShape(last);
      var a: seq<SongRow>, b: seq<SongRow> := Explode(init), ConcertSongRows(last);
      assert Explode(setlists) == a + b;
      forall i, j, k | 0 <= i < |setlists| && 0 <= j < |setlists[i].sets| && setlists[i].sets[j].songs.Some?
                       && 0 <= k < |setlists[i].sets[j].songs.value|
        ensures SongRowOf(setlists[i], setlists[i].sets[j].encore, Some(setlists[i].sets[j].songs.value[k])) in a + b
      {
        var x := SongRowOf(setlists[i], setlists[i].sets[j].encore, Some(setlists[i].sets[j].songs.value[k]));
        if i < |init| {
          assert setlists[i] == init[i];
          assert x in a;
        } else {
          assert setlists[i] == last;
          assert x in b;
        }
      }
    }
  }

  /** The feed explodes to as many rows as its concerts do together; every
      row carries the columns of one of the concerts, and every song of
      every set of every concert has its row. */
  lemma ExplodeShape(setlists: seq<Concert>)
    ensures |Explode(setlists)| == RowCount(setlists)
    ensures forall k :: 0 <= k < |Explode(setlists)| ==>
              exists i :: 0 <= i < |setlists| && Explode(setlists)[k].head == HeadOf(setlists[i])
    ensures forall i, j, k ::
              (0 <= i < |setlists| && 0 <= j < |setlists[i].sets| && setlists[i].sets[j].songs.Some?
               && 0 <= k < |setlists[i].sets[j].songs.value|) ==>
              SongRowOf(setlists[i], setlists[i].sets[j].encore, Some(setlists[i].sets[j].songs.value[k])) in Explode(setlists)
  {
    ExplodeLength(setlists);
    ExplodeHeads(setlists);
    ExplodeCoversSongs(setlists);
  }

  // ---------------------------------------------------------------------
  // Harmonise
  // ---------------------------------------------------------------------

  /** `replace(mapping)` reaches every string cell: the concert's text
      columns, the song title and the cover name. */
  function HarmoniseHead(h: Head): Head {
    h.(id := ReplaceCell(SetlistSongNames, h.id), date := ReplaceCell(SetlistSongNames, h.date),
       venue := ReplaceCell(SetlistSongNames, h.venue), city := ReplaceCell(SetlistSongNames, h.city),
       stateCode := ReplaceCell(SetlistSongNames, h.stateCode), country := ReplaceCell(SetlistSongNames, h.country),
       tour := ReplaceCell(SetlistSongNames, h.tour))
  }

  function HarmoniseSongRow(r: SongRow): SongRow {
    r.(head := HarmoniseHead(r.head), songTitle := ReplaceCell(SetlistSongNames, r.songTitle),
       cover := ReplaceCell(SetlistSongNames, r.cover))
  }

  lemma CellStable(m: map<string, string>, c: Option<string>)
    requires NoChains(m)
    ensures ReplaceCell(m, ReplaceCell(m, c)) == ReplaceCell(m, c)
  {
    if c.Some? {
      ReplaceExact(m, c.value);
    }
  }

  /** Song titles are replaced by exact full-cell match only, and a second
      harmonisation changes nothing. */
  lemma SongRowHarmonisation(rows: seq<SongRow>)
    ensures var once := MapSeq(rows, HarmoniseSongRow);
            && |once| == |rows|
            && (forall i :: 0 <= i < |rows| && rows[i].songTitle.Some? && rows[i].songTitle.value !in SetlistSongNames ==>
                  once[i].songTitle == rows[i].songTitle)
            && (forall i :: 0 <= i < |rows| && rows[i].songTitle.Some? && rows[i].songTitle.value in SetlistSongNames ==>
                  once[i].songTitle == Some(SetlistSongNames[rows[i].songTitle.value]))
            && MapSeq(once, HarmoniseSongRow) == once
  {
    SetlistSongNamesHaveNoChains();
    var once := MapSeq(rows, HarmoniseSongRow);
    forall i | 0 <= i < |rows| ensures HarmoniseSongRow(once[i]) == once[i] {
      var h := rows[i].head;
      CellStable(SetlistSongNames, h.id);
      CellStable(SetlistSongNames, h.date);
      CellStable(SetlistSongNames, h.venue);
      CellStable(SetlistSongNames, h.city);
      CellStable(SetlistSongNames, h.stateCode);
      CellStable(SetlistSongNames, h.country);
      CellStable(SetlistSongNames, h.tour);
      CellStable(SetlistSongNames, rows[i].songTitle);
      CellStable(SetlistSongNames, rows[i].cover);
    }
  }

  // ---------------------------------------------------------------------
  // Merge, tour completion, song count, US city, column selection
  // ---------------------------------------------------------------------

  function SongRowId(r: SongRow): Option<string> { r.head.id }

  function MergedId(p: (SongRow, Option<ConcertRow>)): Option<string> { p.0.head.id }

  /** `combine_first`: the row's own value when present, else the other. */
  function CombineFirst(own: Option<string>, other: Option<string>): Option<string> {
    if own.Some? then own else other
  }

  function CompletionTour(m: Option<ConcertRow>): Option<string> {
    if m.Some? then m.value.tour else None
  }

  /** `np.where(country == "United States", city + ", " + stateCode, city)`:
      the string sum is missing when either part is missing. */
  function UsCity(h: Head): Option<string> {
    if h.country == Some("United States") then
      if h.city.Some? && h.stateCode.Some? then Some(h.city.value + ", " + h.stateCode.value) else None
    else h.city
  }

  /** The output row of one merged row; `count` is its `cumcount() + 1`,
      which is missing when the id is missing. */
  function FinishRow(p: (SongRow, Option<ConcertRow>), count: nat): CleanRow {
    var r := p.0;
    var h := r.head;
    CleanRow(h.id, h.date, h.venue, UsCity(h), h.country, h.latitude, h.longitude,
             CombineFirst(h.tour, CompletionTour(p.1)), if h.id.Some? then Some(count) else None,
             r.songTitle, r.encore, r.tape, r.cover)
  }

  /** The steps after harmonisation: merge with the completion table on
      `id == concert_id`, complete the tour, number the rows within each id,
      apply the United States rule and select the thirteen columns. */
  function CleanRows(rows: seq<SongRow>, completion: seq<ConcertRow>): seq<CleanRow> {
    var merged := LeftMerge(rows, completion, SongRowId, ConcertKey);
    var counts := CumCounts(MapSeq(merged, MergedId));
    seq(|merged|, i requires 0 <= i < |merged| => FinishRow(merged[i], counts[i]))
  }

  /** The harmonised rows of the two explodes. */
  function HarmonisedRows(setlists: seq<Concert>): seq<SongRow> {
    MapSeq(Explode(setlists), HarmoniseSongRow)
  }

  function CleanSetlistsData(setlists: seq<Concert>, completion: seq<ConcertRow>): seq<CleanRow> {
    CleanRows(HarmonisedRows(setlists), completion)
  }

  function CleanId(r: CleanRow): Option<string> { r.id }

  function CountOrZero(r: CleanRow): nat { r.songCount.GetOr(0) }

  /** Every harmonised song row reaches the output at least once, in feed
      order. */
  lemma CleanRowsKeepRows(rows: seq<SongRow>, completion: seq<ConcertRow>)
    ensures var out := CleanRows(rows, completion);
            && |out| >= |rows|
            && forall i :: 0 <= i < |rows| ==>
                 exists j :: 0 <= j < |out| && out[j].id == rows[i].head.id
                   && out[j].songTitle == rows[i].songTitle && out[j].encore == rows[i].encore
  {
    var merged := LeftMerge(rows, completion, SongRowId, ConcertKey);
    var out := CleanRows(rows, completion);
    LeftMergeKeepsEveryLeftRow(rows, completion, SongRowId, ConcertKey);
    forall i | 0 <= i < |rows|
      ensures exists j :: 0 <= j < |out| && out[j].id == rows[i].head.id
                && out[j].songTitle == rows[i].songTitle && out[j].encore == rows[i].encore
    {
      var j :| 0 <= j < |merged| && merged[j].0 == rows[i];
      assert out[j] == FinishRow(merged[j], CumCounts(MapSeq(merged, MergedId))[j]);
    }
  }

  /** The output row of one song row merged with `m`, the completion row
      of its id when there is one. */
  lemma FinishRowCarries(r: SongRow, m: Option<ConcertRow>, count: nat, completion: seq<ConcertRow>)
    requires m.None? <==> !HasKey(completion, ConcertKey, r.head.id)
    requires forall c :: c in completion && c.concertId == r.head.id ==> m == Some(c)
    ensures var o := FinishRow((r, m), count);
            && o.id == r.head.id && o.date == r.head.date
            && o.venue == r.head.venue && o.country == r.head.country
            && o.latitude == r.head.latitude && o.longitude == r.head.longitude
            && o.songTitle == r.songTitle && o.encore == r.encore
            && o.fromTape == r.tape && o.cover == r.cover
            && o.city == UsCity(r.head)
            && (r.head.tour.Some? ==> o.tour == r.head.tour)
            && (r.head.tour.None? && !HasKey(completion, ConcertKey, r.head.id) ==> o.tour.None?)
            && forall c :: c in completion && c.concertId == r.head.id && r.head.tour.None? ==> o.tour == c.tour
  {
  }

  /** With unique completion ids, song row i becomes output row i: its
      columns are carried over, its tour is its own when present and the
      completion table's otherwise, and the United States rule is applied
      to its city. */
  lemma CleanRowsAligned(rows: seq<SongRow>, completion: seq<ConcertRow>)
    requires KeysUnique(completion, ConcertKey)
    ensures var out := CleanRows(rows, completion);
            && |out| == |rows|
            && forall i :: 0 <= i < |rows| ==>
                 && out[i].id == rows[i].head.id && out[i].date == rows[i].head.date
                 && out[i].venue == rows[i].head.venue && out[i].country == rows[i].head.country
                 && out[i].latitude == rows[i].head.latitude && out[i].longitude == rows[i].head.longitude
                 && out[i].songTitle == rows[i].songTitle && out[i].encore == rows[i].encore
                 && out[i].fromTape == rows[i].tape && out[i].cover == rows[i].cover
                 && out[i].city == UsCity(rows[i].head)
                 && (rows[i].head.tour.Some? ==> out[i].tour == rows[i].head.tour)
                 && (rows[i].head.tour.None? && !HasKey(completion, ConcertKey, rows[i].head.id) ==> out[i].tour.None?)
                 && forall c :: c in completion && c.concertId == rows[i].head.id && rows[i].head.tour.None? ==>
                      out[i].tour == c.tour
  {
    var merged := LeftMerge(rows, completion, SongRowId, ConcertKey);
    var counts := CumCounts(MapSeq(merged, MergedId));
    var out := CleanRows(rows, completion);
    LeftMergeUniqueRight(rows, completion, SongRowId, ConcertKey);
    LeftMergeFindsMatch(rows, completion, SongRowId, ConcertKey);
    forall i | 0 <= i < |rows|
      ensures var o := out[i];
              && o.id == rows[i].head.id && o.date == rows[i].head.date
              && o.venue == rows[i].head.venue && o.country == rows[i].head.country
              && o.latitude == rows[i].head.latitude && o.longitude == rows[i].head.longitude
              && o.songTitle == rows[i].songTitle && o.encore == rows[i].encore
              && o.fromTape == rows[i].tape && o.cover == rows[i].cover
              && o.city == UsCity(rows[i].head)
              && (rows[i].head.tour.Some? ==> o.tour == rows[i].head.tour)
              && (rows[i].head.tour.None? && !HasKey(completion, ConcertKey, rows[i].head.id) ==> o.tour.None?)
              && forall c :: c in completion && c.concertId == rows[i].head.id && rows[i].head.tour.None? ==> o.tour == c.tour
    {
      assert merged[i] == (rows[i], merged[i].1);
      assert out[i] == FinishRow((rows[i], merged[i].1), counts[i]);
      FinishRowCarries(rows[i], merged[i].1, counts[i], completion);
    }
  }

  /** The whole function: the rows of the feed, harmonised, each reach the
      output; with unique completion ids they reach it one for one. */
  lemma CleanSetlistsDataRows(setlists: seq<Concert>, completion: seq<ConcertRow>)
    ensures |CleanSetlistsData(setlists, completion)| >= |HarmonisedRows(setlists)| == RowCount(setlists)
    ensures KeysUnique(completion, ConcertKey) ==> |CleanSetlistsData(setlists, completion)| == RowCount(setlists)
  {
    ExplodeShape(setlists);
    CleanRowsKeepRows(HarmonisedRows(setlists), completion);
    if KeysUnique(completion, ConcertKey) {
      CleanRowsAligned(HarmonisedRows(setlists), completion);
    }
  }

  /** Within every concert id the song count reads 1, 2, ..., k in row
      order, k being the number of rows with that id; a row without an id
      has no count. */
  lemma SongCountRunsOneToK(rows: seq<SongRow>, completion: seq<ConcertRow>, x: string)
    ensures var out := CleanRows(rows, completion);
            && (forall i :: 0 <= i < |out| ==> (out[i].songCount.None? <==> out[i].id.None?))
            && SelectGroup(MapSeq(out, CountOrZero), MapSeq(out, CleanId), Some(x))
               == OneTo(Occurrences(MapSeq(out, CleanId), Some(x)))
  {
    var merged := LeftMerge(rows, completion, SongRowId, ConcertKey);
    var out := CleanRows(rows, completion);
    var ids := MapSeq(merged, MergedId);
    assert MapSeq(out, CleanId) == ids;
    CumCountsRunOneToK(ids, Some(x));
    SelectGroupAgree(MapSeq(out, CountOrZero), CumCounts(ids), ids, Some(x));
  }
}
