/** The first-generation table builders: they walk the setlist.fm and
    MusicBrainz feeds with hand-written loops that append to one list per
    column, then zip the lists into tables. */
module CreateTables {
  import opened Frames
  import opened Text
  import opened Feeds
  import opened Lookups

  // =====================================================================
  // Concert, venue and city tables
  // =====================================================================

  datatype ConcertRow = ConcertRow(
    concertId: Option<string>,
    venueId: Option<string>,
    cityId: Option<string>,
    date: Option<string>,
    tour: Option<string>)
  datatype VenueRow = VenueRow(venueId: Option<string>, cityId: Option<string>, venue: Option<string>)
  datatype CityRow = CityRow(
    cityId: Option<string>,
    city: Option<string>,
    countryId: Option<string>,
    country: Option<string>,
    latitude: Option<Coordinate>,
    longitude: Option<Coordinate>)

  function ConcertIdOf(c: Concert): Option<string> { c.id }
  function DateOf(c: Concert): Option<string> { c.eventDate }

  /** The city label: a concert in a US city with a state code is labelled
      `f"{city}, {state}"` (a missing city name prints as "None"); every
      other concert keeps the city name as it is. */
  function CityLabel(c: Concert): Option<string> {
    if CountryCode(c) == Some("US") && StateCode(c).Some? then
      Some(PyStr(CityName(c)) + ", " + StateCode(c).value)
    else CityName(c)
  }

  /** The label differs from the city name exactly for US concerts with a
      state code, and then it is the city name, a comma and the state code. */
  lemma CityLabelChangesOnlyUsCities(c: Concert)
    ensures CityLabel(c) != CityName(c) <==> CountryCode(c) == Some("US") && StateCode(c).Some?
    ensures CityLabel(c) != CityName(c) ==>
      CityLabel(c).Some? && CityLabel(c).value == PyStr(CityName(c)) + ", " + StateCode(c).value
  {
    if CountryCode(c) == Some("US") && StateCode(c).Some? && CityName(c).Some? {
      assert |CityLabel(c).value| > |CityName(c).value|;
    }
  }

  function ConcertRowOf(c: Concert): ConcertRow {
    ConcertRow(c.id, VenueId(c), CityId(c), c.eventDate, TourName(c))
  }

  function VenueRowOf(c: Concert): VenueRow {
    VenueRow(VenueId(c), CityId(c), VenueName(c))
  }

  function CityRowOf(c: Concert): CityRow {
    CityRow(CityId(c), CityLabel(c), CountryCode(c), CountryName(c), Latitude(c), Longitude(c))
  }

  function ConcertKey(r: ConcertRow): Option<string> { r.concertId }
  function VenueKey(r: VenueRow): Option<string> { r.venueId }
  function CityKey(r: CityRow): Option<string> { r.cityId }

  function ConcertTable(setlists: seq<Concert>): seq<ConcertRow> {
    DropDuplicates(MapSeq(setlists, ConcertRowOf), ConcertKey)
  }

  function VenueTable(setlists: seq<Concert>): seq<VenueRow> {
    DropDuplicates(MapSeq(setlists, VenueRowOf), VenueKey)
  }

  function CityTable(setlists: seq<Concert>): seq<CityRow> {
    DropDuplicates(MapSeq(setlists, CityRowOf), CityKey)
  }

  // The three `zip`s of column lists into tables.

  function ZipConcert(
    ids: seq<Option<string>>, venueIds: seq<Option<string>>, cityIds: seq<Option<string>>,
    dates: seq<Option<string>>, tours: seq<Option<string>>): seq<ConcertRow>
    requires |venueIds| == |cityIds| == |dates| == |tours| == |ids|
  {
    seq(|ids|, k requires 0 <= k < |ids| => ConcertRow(ids[k], venueIds[k], cityIds[k], dates[k], tours[k]))
  }

  function ZipVenue(venueIds: seq<Option<string>>, cityIds: seq<Option<string>>, venues: seq<Option<string>>): seq<VenueRow>
    requires |cityIds| == |venues| == |venueIds|
  {
    seq(|venueIds|, k requires 0 <= k < |venueIds| => VenueRow(venueIds[k], cityIds[k], venues[k]))
  }

  function ZipCity(
    cityIds: seq<Option<string>>, cities: seq<Option<string>>, countryIds: seq<Option<string>>,
    countries: seq<Option<string>>, latitudes: seq<Option<Coordinate>>, longitudes: seq<Option<Coordinate>>): seq<CityRow>
    requires |cities| == |countryIds| == |countries| == |latitudes| == |longitudes| == |cityIds|
  {
    seq(|cityIds|, k requires 0 <= k < |cityIds| =>
      CityRow(cityIds[k], cities[k], countryIds[k], countries[k], latitudes[k], longitudes[k]))
  }

  /** Zipping the columns of the concerts gives back one row per concert. */
  lemma ZipsRebuildRows(setlists: seq<Concert>)
    ensures ZipConcert(MapSeq(setlists, ConcertIdOf), MapSeq(setlists, VenueId), MapSeq(setlists, CityId),
                       MapSeq(setlists, DateOf), MapSeq(setlists, TourName))
            == MapSeq(setlists, ConcertRowOf)
    ensures ZipVenue(MapSeq(setlists, VenueId), MapSeq(setlists, CityId), MapSeq(setlists, VenueName))
            == MapSeq(setlists, VenueRowOf)
    ensures ZipCity(MapSeq(setlists, CityId), MapSeq(setlists, CityLabel), MapSeq(setlists, CountryCode),
                    MapSeq(setlists, CountryName), MapSeq(setlists, Latitude), MapSeq(setlists, Longitude))
            == MapSeq(setlists, CityRowOf)
  {
  }

  /** The `columns` dict of the first loop: one list per column name. */
  datatype ConcertColumns = ConcertColumns(
    concertId: seq<Option<string>>,
    date: seq<Option<string>>,
    tour: seq<Option<string>>,
    venueId: seq<Option<string>>,
    venue: seq<Option<string>>,
    cityId: seq<Option<string>>,
    city: seq<Option<string>>,
    countryId: seq<Option<string>>,
    country: seq<Option<string>>,
    latitude: seq<Option<Coordinate>>,
    longitude: seq<Option<Coordinate>>)

  /** The column lists after the loop has seen `setlists`: each holds one
      value per concert, in feed order. */
  function ColumnsOf(setlists: seq<Concert>): ConcertColumns {
    ConcertColumns(
      MapSeq(setlists, ConcertIdOf), MapSeq(setlists, DateOf), MapSeq(setlists, TourName),
      MapSeq(setlists, VenueId), MapSeq(setlists, VenueName), MapSeq(setlists, CityId),
      MapSeq(setlists, CityLabel), MapSeq(setlists, CountryCode), MapSeq(setlists, CountryName),
      MapSeq(setlists, Latitude), MapSeq(setlists, Longitude))
  }

  lemma ColumnsOfSnoc(setlists: seq<Concert>, i: nat)
    requires i < |setlists|
    ensures var c, r := ColumnsOf(setlists[..i]), setlists[i];
      ColumnsOf(setlists[..i + 1]) == ConcertColumns(
        c.concertId + [r.id], c.date + [r.eventDate], c.tour + [TourName(r)],
        c.venueId + [VenueId(r)], c.venue + [VenueName(r)], c.cityId + [CityId(r)],
        c.city + [CityLabel(r)], c.countryId + [CountryCode(r)], c.country + [CountryName(r)],
        c.latitude + [Latitude(r)], c.longitude + [Longitude(r)])
  {
    MapSeqSnoc(setlists, i, ConcertIdOf);
    MapSeqSnoc(setlists, i, DateOf);
    MapSeqSnoc(setlists, i, TourName);
    MapSeqSnoc(setlists, i, VenueId);
    MapSeqSnoc(setlists, i, VenueName);
    MapSeqSnoc(setlists, i, CityId);
    MapSeqSnoc(setlists, i, CityLabel);
    MapSeqSnoc(setlists, i, CountryCode);
    MapSeqSnoc(setlists, i, CountryName);
    MapSeqSnoc(setlists, i, Latitude);
    MapSeqSnoc(setlists, i, Longitude);
  }

  /** The `for record in setlists` loop appending to the eleven lists. */
  method CollectConcertColumns(setlists: seq<Concert>) returns (columns: ConcertColumns)
    ensures columns == ColumnsOf(setlists)
  {
    columns := ConcertColumns([], [], [], [], [], [], [], [], [], [], []);
    var i := 0;
    while i < |setlists|
      invariant 0 <= i <= |setlists|
      invariant columns == ColumnsOf(setlists[..i])
    {
      var record := setlists[i];
      var city := CityName(record);
      var countryId := CountryCode(record);
      var state := StateCode(record);
      var cityLabel := city;
      if countryId == Some("US") && state.Some? {
        cityLabel := Some(PyStr(city) + ", " + state.value);
      }
      columns := ConcertColumns(
        columns.concertId + [record.id],
        columns.date + [record.eventDate],
        columns.tour + [TourName(record)],
        columns.venueId + [VenueId(record)],
        columns.venue + [VenueName(record)],
        columns.cityId + [CityId(record)],
        columns.city + [cityLabel],
        columns.countryId + [countryId],
        columns.country + [CountryName(record)],
        columns.latitude + [Latitude(record)],
        columns.longitude + [Longitude(record)]);
      ColumnsOfSnoc(setlists, i);
      i := i + 1;
    }
    assert setlists[..i] == setlists;
  }

  /** The concert, venue and city tables: the loop, then three zips, each
      followed by `drop_duplicates` on the table's id. */
  method CreateConcertVenueCityTables(setlists: seq<Concert>)
    returns (concert: seq<ConcertRow>, venue: seq<VenueRow>, city: seq<CityRow>)
    ensures concert == ConcertTable(setlists)
    ensures venue == VenueTable(setlists)
    ensures city == CityTable(setlists)
  {
    var c := CollectConcertColumns(setlists);
    ZipsRebuildRows(setlists);
    concert := DropDuplicates(ZipConcert(c.concertId, c.venueId, c.cityId, c.date, c.tour), ConcertKey);
    venue := DropDuplicates(ZipVenue(c.venueId, c.cityId, c.venue), VenueKey);
    city := DropDuplicates(ZipCity(c.cityId, c.city, c.countryId, c.country, c.latitude, c.longitude), CityKey);
  }

  /** The concert table has one row per distinct concert id of the feed
      (a missing id counting as one id), that row is the first concert with
      the id, and the rows keep feed order. */
  lemma ConcertTableFirstPerId(setlists: seq<Concert>)
    ensures KeysUnique(ConcertTable(setlists), ConcertKey)
    ensures forall i :: 0 <= i < |setlists| ==> HasKey(ConcertTable(setlists), ConcertKey, setlists[i].id)
    ensures forall r :: r in ConcertTable(setlists) <==>
      FirstWithKey(MapSeq(setlists, ConcertRowOf), ConcertKey, r.concertId) == Some(r)
    ensures IsSubsequence(ConcertTable(setlists), MapSeq(setlists, ConcertRowOf))
  {
    var rows := MapSeq(setlists, ConcertRowOf);
    DropDuplicatesKeepsFirst(rows, ConcertKey);
    DropDuplicatesOfMap(setlists, ConcertRowOf, ConcertKey);
    forall i | 0 <= i < |setlists| ensures ConcertKey(ConcertRowOf(setlists[i])) == setlists[i].id {
    }
  }

  /** Each concert row is built from the first concert carrying its id,
      and the rows appear in the order of those first concerts. */
  lemma ConcertTableFeedOrder(setlists: seq<Concert>)
    ensures forall t :: 0 <= t < |ConcertTable(setlists)| ==>
      HasKey(MapSeq(setlists, ConcertRowOf), ConcertKey, ConcertTable(setlists)[t].concertId) &&
      ConcertTable(setlists)[t] == ConcertRowOf(setlists[FirstIndex(MapSeq(setlists, ConcertRowOf), ConcertKey, ConcertTable(setlists)[t].concertId)])
    ensures forall t, u :: 0 <= t < u < |ConcertTable(setlists)| ==>
      FirstIndex(MapSeq(setlists, ConcertRowOf), ConcertKey, ConcertTable(setlists)[t].concertId) <
      FirstIndex(MapSeq(setlists, ConcertRowOf), ConcertKey, ConcertTable(setlists)[u].concertId)
  {
    var rows := MapSeq(setlists, ConcertRowOf);
    DropDuplicatesOfMapPositions(setlists, ConcertRowOf, ConcertKey);
    DropDuplicatesPositions(rows, ConcertKey);
  }

  /** The venue table has unique venue ids, one per distinct id of the feed,
      each the first concert's venue with that id, in feed order. */
  lemma VenueTableFirstPerId(setlists: seq<Concert>)
    ensures KeysUnique(VenueTable(setlists), VenueKey)
    ensures forall i :: 0 <= i < |setlists| ==> HasKey(VenueTable(setlists), VenueKey, VenueId(setlists[i]))
    ensures forall r :: r in VenueTable(setlists) <==>
      FirstWithKey(MapSeq(setlists, VenueRowOf), VenueKey, r.venueId) == Some(r)
    ensures IsSubsequence(VenueTable(setlists), MapSeq(setlists, VenueRowOf))
  {
    var rows := MapSeq(setlists, VenueRowOf);
    DropDuplicatesKeepsFirst(rows, VenueKey);
    DropDuplicatesOfMap(setlists, VenueRowOf, VenueKey);
    forall i | 0 <= i < |setlists| ensures VenueKey(VenueRowOf(setlists[i])) == VenueId(setlists[i]) {
    }
  }

  /** Each venue row is built from the first concert carrying its id,
      and the rows appear in the order of those first concerts. */
  lemma VenueTableFeedOrder(setlists: seq<Concert>)
    ensures forall t :: 0 <= t < |VenueTable(setlists)| ==>
      HasKey(MapSeq(setlists, VenueRowOf), VenueKey, VenueTable(setlists)[t].venueId) &&
      VenueTable(setlists)[t] == VenueRowOf(setlists[FirstIndex(MapSeq(setlists, VenueRowOf), VenueKey, VenueTable(setlists)[t].venueId)])
    ensures forall t, u :: 0 <= t < u < |VenueTable(setlists)| ==>
      FirstIndex(MapSeq(setlists, VenueRowOf), VenueKey, VenueTable(setlists)[t].venueId) <
      FirstIndex(MapSeq(setlists, VenueRowOf), VenueKey, VenueTable(setlists)[u].venueId)
  {
    var rows := MapSeq(setlists, VenueRowOf);
    DropDuplicatesOfMapPositions(setlists, VenueRowOf, VenueKey);
    DropDuplicatesPositions(rows, VenueKey);
  }

  /** The city table has unique city ids, one per distinct id of the feed,
      each the first concert's city with that id, in feed order. */
  lemma CityTableFirstPerId(setlists: seq<Concert>)
    ensures KeysUnique(CityTable(setlists), CityKey)
    ensures forall i :: 0 <= i < |setlists| ==> HasKey(CityTable(setlists), CityKey, CityId(setlists[i]))
    ensures forall r :: r in CityTable(setlists) <==>
      FirstWithKey(MapSeq(setlists, CityRowOf), CityKey, r.cityId) == Some(r)
    ensures IsSubsequence(CityTable(setlists), MapSeq(setlists, CityRowOf))
  {
    var rows := MapSeq(setlists, CityRowOf);
    DropDuplicatesKeepsFirst(rows, CityKey);
    DropDuplicatesOfMap(setlists, CityRowOf, CityKey);
    forall i | 0 <= i < |setlists| ensures CityKey(CityRowOf(setlists[i])) == CityId(setlists[i]) {
    }
  }

  /** Each city row is built from the first concert carrying its id,
      and the rows appear in the order of those first concerts. */
  lemma CityTableFeedOrder(setlists: seq<Concert>)
    ensures forall t :: 0 <= t < |CityTable(setlists)| ==>
      HasKey(MapSeq(setlists, CityRowOf), CityKey, CityTable(setlists)[t].cityId) &&
      CityTable(setlists)[t] == CityRowOf(setlists[FirstIndex(MapSeq(setlists, CityRowOf), CityKey, CityTable(setlists)[t].cityId)])
    ensures forall t, u :: 0 <= t < u < |CityTable(setlists)| ==>
      FirstIndex(MapSeq(setlists, CityRowOf), CityKey, CityTable(setlists)[t].cityId) <
      FirstIndex(MapSeq(setlists, CityRowOf), CityKey, CityTable(setlists)[u].cityId)
  {
    var rows := MapSeq(setlists, CityRowOf);
    DropDuplicatesOfMapPositions(setlists, CityRowOf, CityKey);
    DropDuplicatesPositions(rows, CityKey);
  }

  // =====================================================================
  // Setlist table
  // =====================================================================

  /** What the loop appends for one song, before the zip: one value for
      each of the columns that grow with every song, and the song's name. */
  datatype Entry = Entry(
    setlistId: string,
    concertId: Option<string>,
    position: nat,
    name: Option<string>,
    encore: bool,
    tape: bool,
    cover: string)

  datatype SetlistRow = SetlistRow(
    setlistId: string,
    concertId: Option<string>,
    songName: Option<string>,
    position: nat,
    coverInfo: string,
    encore: bool,
    tape: bool)

  /** `song.get("name", "") != ""`: the name is present and not empty. */
  predicate Named(name: Option<string>) {
    name.Some? && name.value != ""
  }

  predicate HasName(s: Song) {
    Named(s.name)
  }

  /** `bool(set.get("encore", 0))`. */
  function EncoreFlag(s: SetOfSongs): bool {
    s.encore.Some? && s.encore.value != 0
  }

  function SetlistId(id: Option<string>, position: nat): string {
    PyStr(id) + "_" + Decimal(position)
  }

  function EntryOf(id: Option<string>, encore: bool, song: Song, position: nat): Entry {
    Entry(SetlistId(id, position), id, position, song.name, encore,
          song.tape.GetOr(false), CoverName(song).GetOr(""))
  }

  /** The entries of one set's songs, numbered from `start`. */
  function SongEntries(id: Option<string>, encore: bool, songs: seq<Song>, start: nat): (r: seq<Entry>)
    ensures |r| == |songs|
  {
    if songs == [] then []
    else
      var init := songs[..|songs| - 1];
      SongEntries(id, encore, init, start) + [EntryOf(id, encore, songs[|songs| - 1], start + |init|)]
  }

  /** Song `k` of a set numbered from `start` gets position `start + k`, the
      concert's id, the setlist id `"{id}_{start + k}"`, the set's encore
      flag and the song's name, with a missing tape flag read as false and a
      missing cover name read as "". */
  lemma {:induction false} SongEntriesExact(id: Option<string>, encore: bool, songs: seq<Song>, start: nat)
    ensures forall k :: 0 <= k < |songs| ==>
      SongEntries(id, encore, songs, start)[k] ==
      Entry(SetlistId(id, start + k), id, start + k, songs[k].name, encore,
            songs[k].tape.GetOr(false), CoverName(songs[k]).GetOr(""))
  {
    if songs != [] {
      SongEntriesExact(id, encore, songs[..|songs| - 1], start);
    }
  }

  predicate SetsHaveSongs(sets: seq<SetOfSongs>) {
    forall j :: 0 <= j < |sets| ==> sets[j].songs.Some?
  }

  predicate AllSetsHaveSongs(setlists: seq<Concert>) {
    forall i :: 0 <= i < |setlists| ==> SetsHaveSongs(setlists[i].sets)
  }

  /** The entries of one concert: the position counter starts at 1 before
      the first set and runs on across the sets. */
  function SetsEntries(id: Option<string>, sets: seq<SetOfSongs>): seq<Entry>
    requires SetsHaveSongs(sets)
  {
    if sets == [] then []
    else
      var last := sets[|sets| - 1];
      var prev := SetsEntries(id, sets[..|sets| - 1]);
      prev + SongEntries(id, EncoreFlag(last), last.songs.value, |prev| + 1)
  }

  /** The position counter restarts at 1 for every concert and rises by one
      per song across all of its sets: entry `k` of a concert has position
      `k + 1`, the setlist id `"{id}_{k + 1}"` and the concert's id. */
  lemma {:induction false} SetsEntriesNumbering(id: Option<string>, sets: seq<SetOfSongs>)
    requires SetsHaveSongs(sets)
    ensures forall k :: 0 <= k < |SetsEntries(id, sets)| ==>
      var e := SetsEntries(id, sets)[k];
      e.position == k + 1 && e.setlistId == SetlistId(id, k + 1) && e.concertId == id
  {
    if sets != [] {
      var init := sets[..|sets| - 1];
      var last := sets[|sets| - 1];
      SetsEntriesNumbering(id, init);
      var prev := SetsEntries(id, init);
      SongEntriesExact(id, EncoreFlag(last), last.songs.value, |prev| + 1);
    }
  }

  /** Within one concert no two rows share a setlist id. */
  lemma SetlistIdsUniqueWithinConcert(id: Option<string>, sets: seq<SetOfSongs>)
    requires SetsHaveSongs(sets)
    ensures forall k, l :: 0 <= k < l < |SetsEntries(id, sets)| ==>
      SetsEntries(id, sets)[k].setlistId != SetsEntries(id, sets)[l].setlistId
  {
    SetsEntriesNumbering(id, sets);
    var es := SetsEntries(id, sets);
    forall k, l | 0 <= k < l < |es| ensures es[k].setlistId != es[l].setlistId {
      var p := PyStr(id) + "_";
      if es[k].setlistId == es[l].setlistId {
        assert (p + Decimal(k + 1))[|p|..] == Decimal(k + 1);
        assert (p + Decimal(l + 1))[|p|..] == Decimal(l + 1);
        DecimalInjective(k + 1, l + 1);
      }
    }
  }

  /** The entries of all concerts, in feed order. */
  function Entries(setlists: seq<Concert>): seq<Entry>
    requires AllSetsHaveSongs(setlists)
  {
    if setlists == [] then []
    else
      var last := setlists[|setlists| - 1];
      Entries(setlists[..|setlists| - 1]) + SetsEntries(last.id, last.sets)
  }

  /** The `song_name` column: only non-empty names are appended. */
  function NameColumn(entries: seq<Entry>): (r: seq<Option<string>>)
    ensures |r| <= |entries|
  {
    if entries == [] then []
    else
      var last := entries[|entries| - 1];
      NameColumn(entries[..|entries| - 1]) + (if Named(last.name) then [last.name] else [])
  }

  function EntrySetlistId(e: Entry): string { e.setlistId }
  function EntryConcertId(e: Entry): Option<string> { e.concertId }
  function EntryPosition(e: Entry): nat { e.position }
  function EntryEncore(e: Entry): bool { e.encore }
  function EntryTape(e: Entry): bool { e.tape }
  function EntryCover(e: Entry): string { e.cover }

  /** The `columns` dict of the second loop (its "album_name" list is never
      filled nor used, so it is not kept). */
  datatype SetlistColumns = SetlistColumns(
    setlistId: seq<string>,
    concertId: seq<Option<string>>,
    songName: seq<Option<string>>,
    position: seq<nat>,
    encore: seq<bool>,
    tape: seq<bool>,
    cover: seq<string>)

  /** The lists after the loop has appended `entries`: every list holds one
      value per entry except `song_name`, which skips the unnamed songs. */
  function ColumnsFor(entries: seq<Entry>): SetlistColumns {
    SetlistColumns(
      MapSeq(entries, EntrySetlistId), MapSeq(entries, EntryConcertId), NameColumn(entries),
      MapSeq(entries, EntryPosition), MapSeq(entries, EntryEncore), MapSeq(entries, EntryTape),
      MapSeq(entries, EntryCover))
  }

  /** The lists with one more song's values appended; its name only when
      it is not empty. */
  function AppendEntry(c: SetlistColumns, e: Entry): SetlistColumns {
    SetlistColumns(
      c.setlistId + [e.setlistId], c.concertId + [e.concertId],
      c.songName + (if Named(e.name) then [e.name] else []),
      c.position + [e.position], c.encore + [e.encore], c.tape + [e.tape], c.cover + [e.cover])
  }

  lemma ColumnsForSnoc(entries: seq<Entry>, e: Entry)
    ensures ColumnsFor(entries + [e]) == AppendEntry(ColumnsFor(entries), e)
  {
    assert (entries + [e])[..|entries|] == entries;
  }

  /** The lists after `entries` have been appended to `c` one at a time. */
  function AppendEntries(c: SetlistColumns, entries: seq<Entry>): SetlistColumns {
    if entries == [] then c
    else AppendEntry(AppendEntries(c, entries[..|entries| - 1]), entries[|entries| - 1])
  }

  lemma AppendEntriesSnoc(c: SetlistColumns, entries: seq<Entry>, e: Entry)
    ensures AppendEntries(c, entries + [e]) == AppendEntry(AppendEntries(c, entries), e)
  {
    assert (entries + [e])[..|entries|] == entries;
  }

  /** Appending two runs of entries is appending their concatenation. */
  lemma {:induction false} AppendEntriesConcat(c: SetlistColumns, a: seq<Entry>, b: seq<Entry>)
    ensures AppendEntries(c, a + b) == AppendEntries(AppendEntries(c, a), b)
  {
    if b == [] {
      assert a + b == a;
    } else {
      var init, last := b[..|b| - 1], b[|b| - 1];
      AppendEntriesConcat(c, a, init);
      assert a + b == (a + init) + [last];
      AppendEntriesSnoc(c, a + init, last);
    }
  }

  /** Appending entries one at a time to the lists of `done` gives the lists
      of all the entries: the loops build exactly `ColumnsFor`. */
  lemma {:induction false} AppendEntriesColumns(done: seq<Entry>, entries: seq<Entry>)
    ensures AppendEntries(ColumnsFor(done), entries) == ColumnsFor(done + entries)
  {
    if entries == [] {
      assert done + entries == done;
    } else {
      var init, last := entries[..|entries| - 1], entries[|entries| - 1];
      AppendEntriesColumns(done, init);
      assert done + entries == (done + init) + [last];
      ColumnsForSnoc(done + init, last);
    }
  }

  lemma SongEntriesSnoc(id: Option<string>, encore: bool, songs: seq<Song>, k: nat, start: nat)
    requires k < |songs|
    ensures SongEntries(id, encore, songs[..k + 1], start)
         == SongEntries(id, encore, songs[..k], start) + [EntryOf(id, encore, songs[k], start + k)]
  {
    var s := songs[..k + 1];
    assert s[..|s| - 1] == songs[..k] && s[|s| - 1] == songs[k];
  }

  lemma SongEntriesStep(c: SetlistColumns, id: Option<string>, encore: bool, songs: seq<Song>, k: nat, start: nat, counter: nat)
    requires k < |songs| && counter == start + k
    ensures AppendEntries(c, SongEntries(id, encore, songs[..k + 1], start))
         == AppendEntry(AppendEntries(c, SongEntries(id, encore, songs[..k], start)), EntryOf(id, encore, songs[k], counter))
  {
    SongEntriesSnoc(id, encore, songs, k, start);
    AppendEntriesSnoc(c, SongEntries(id, encore, songs[..k], start), EntryOf(id, encore, songs[k], start + k));
  }

  /** The lists `zip` can pair up: `song_name` is the shortest. */
  predicate Zippable(c: SetlistColumns) {
    |c.songName| <= |c.setlistId| && |c.concertId| == |c.position| == |c.encore| == |c.tape| == |c.cover| == |c.setlistId|
  }

  /** `zip` of the seven lists: as long as the shortest one, `song_name`. */
  function ZipSetlist(c: SetlistColumns): (r: seq<SetlistRow>)
    requires Zippable(c)
    ensures |r| == |c.songName|
  {
    seq(|c.songName|, t requires 0 <= t < |c.songName| =>
      SetlistRow(c.setlistId[t], c.concertId[t], c.songName[t], c.position[t], c.cover[t], c.encore[t], c.tape[t]))
  }

  function SetlistTable(setlists: seq<Concert>): seq<SetlistRow>
    requires AllSetsHaveSongs(setlists)
  {
    ZipSetlist(ColumnsFor(Entries(setlists)))
  }

  /** The `for song in songs` loop of one set: every song appends to each
      list (its name only when not empty) and advances the counter. */
  method AppendSongs(columns: SetlistColumns, id: Option<string>, encore: bool, songs: seq<Song>, start: nat)
    returns (columns': SetlistColumns, counter: nat)
    ensures columns' == AppendEntries(columns, SongEntries(id, encore, songs, start))
    ensures counter == start + |songs|
  {
    columns', counter := columns, start;
    var k := 0;
    assert songs[..0] == [];
    while k < |songs|
      invariant 0 <= k <= |songs|
      invariant columns' == AppendEntries(columns, SongEntries(id, encore, songs[..k], start))
      invariant counter == start + k
    {
      // the values this song appends: setlist id "{id}_{counter}", concert id,
      // name, counter, encore flag, tape flag (default false), cover name (default "")
      var entry := EntryOf(id, encore, songs[k], counter);
      columns' := AppendEntry(columns', entry);
      SongEntriesStep(columns, id, encore, songs, k, start, counter);
      counter := counter + 1;
      k := k + 1;
    }
    assert songs[..k] == songs;
  }

  /** One more set: its songs' entries follow the earlier sets' entries,
      numbered on from them. */
  lemma SetsEntriesStep(id: Option<string>, sets: seq<SetOfSongs>, j: nat)
    requires j < |sets| && SetsHaveSongs(sets[..j]) && sets[j].songs.Some?
    ensures SetsHaveSongs(sets[..j + 1])
    ensures SetsEntries(id, sets[..j + 1]) ==
      SetsEntries(id, sets[..j]) + SongEntries(id, EncoreFlag(sets[j]), sets[j].songs.value, |SetsEntries(id, sets[..j])| + 1)
  {
    assert sets[..j + 1][..j] == sets[..j];
  }

  lemma EntriesStep(setlists: seq<Concert>, i: nat)
    requires i < |setlists| && AllSetsHaveSongs(setlists[..i]) && SetsHaveSongs(setlists[i].sets)
    ensures AllSetsHaveSongs(setlists[..i + 1])
    ensures Entries(setlists[..i + 1]) == Entries(setlists[..i]) + SetsEntries(setlists[i].id, setlists[i].sets)
  {
    assert setlists[..i + 1][..i] == setlists[..i];
  }

  /** The `for set in sets` loop of one concert, with the counter set to 1
      before it. `set["song"]` raises KeyError when a set has no songs. */
  method AppendConcert(columns: SetlistColumns, record: Concert) returns (r: Result<SetlistColumns>)
    ensures r.Err? <==> !SetsHaveSongs(record.sets)
    ensures r.Err? ==> r.error == KeyError("song")
    ensures r.Ok? ==> r.value == AppendEntries(columns, SetsEntries(record.id, record.sets))
  {
    var sets := record.sets;
    var columns' := columns;
    var counter: nat := 1;
    var j := 0;
    assert sets[..0] == [];
    while j < |sets|
      invariant 0 <= j <= |sets| && SetsHaveSongs(sets[..j])
      invariant columns' == AppendEntries(columns, SetsEntries(record.id, sets[..j]))
      invariant counter == |SetsEntries(record.id, sets[..j])| + 1
    {
      if sets[j].songs.None? {
        assert !SetsHaveSongs(sets);
        return Err(KeyError("song"));
      }
      var songs := sets[j].songs.value;
      SetsEntriesStep(record.id, sets, j);
      AppendEntriesConcat(columns, SetsEntries(record.id, sets[..j]), SongEntries(record.id, EncoreFlag(sets[j]), songs, counter));
      columns', counter := AppendSongs(columns', record.id, EncoreFlag(sets[j]), songs, counter);
      j := j + 1;
    }
    assert sets[..j] == sets;
    return Ok(columns');
  }

  /** The whole `for record in setlists` loop, then the zip of the seven
      lists. */
  method CreateSetlistTable(setlists: seq<Concert>) returns (r: Result<seq<SetlistRow>>)
    ensures r.Err? <==> !AllSetsHaveSongs(setlists)
    ensures r.Err? ==> r.error == KeyError("song")
    ensures r.Ok? ==> r.value == SetlistTable(setlists)
  {
    var columns := SetlistColumns([], [], [], [], [], [], []);
    var i := 0;
    while i < |setlists|
      invariant 0 <= i <= |setlists|
      invariant AllSetsHaveSongs(setlists[..i])
      invariant columns == ColumnsFor(Entries(setlists[..i]))
    {
      var appended := AppendConcert(columns, setlists[i]);
      if appended.Err? {
        assert !SetsHaveSongs(setlists[i].sets);
        return Err(appended.error);
      }
      columns := appended.value;
      AppendEntriesColumns(Entries(setlists[..i]), SetsEntries(setlists[i].id, setlists[i].sets));
      EntriesStep(setlists, i);
      i := i + 1;
    }
    assert setlists[..i] == setlists;
    return Ok(ZipSetlist(columns));
  }

  // ---------------------------------------------------------------------
  // What the setlist table holds
  // ---------------------------------------------------------------------

  /** The songs of a concert's sets, set after set. */
  function SetSongs(sets: seq<SetOfSongs>): seq<Song>
    requires SetsHaveSongs(sets)
  {
    if sets == [] then [] else SetSongs(sets[..|sets| - 1]) + sets[|sets| - 1].songs.value
  }

  /** All songs of the feed, concert after concert. */
  function AllSongs(setlists: seq<Concert>): seq<Song>
    requires AllSetsHaveSongs(setlists)
  {
    if setlists == [] then [] else AllSongs(setlists[..|setlists| - 1]) + SetSongs(setlists[|setlists| - 1].sets)
  }

  /** The entry carries the song's name and its defaults. */
  predicate EntryOfSong(e: Entry, song: Song) {
    e.name == song.name && e.tape == song.tape.GetOr(false) && e.cover == CoverName(song).GetOr("")
  }

  predicate Follows(entries: seq<Entry>, songs: seq<Song>) {
    |entries| == |songs| && forall k :: 0 <= k < |songs| ==> EntryOfSong(entries[k], songs[k])
  }

  lemma FollowsConcat(e1: seq<Entry>, s1: seq<Song>, e2: seq<Entry>, s2: seq<Song>)
    requires Follows(e1, s1) && Follows(e2, s2)
    ensures Follows(e1 + e2, s1 + s2)
  {
    forall k | 0 <= k < |s1 + s2| ensures EntryOfSong((e1 + e2)[k], (s1 + s2)[k]) {
      if k >= |s1| {
        assert (e1 + e2)[k] == e2[k - |s1|] && (s1 + s2)[k] == s2[k - |s1|];
      }
    }
  }

  lemma SongEntriesFollowSongs(id: Option<string>, encore: bool, songs: seq<Song>, start: nat)
    ensures Follows(SongEntries(id, encore, songs, start), songs)
  {
    SongEntriesExact(id, encore, songs, start);
  }

  lemma {:induction false} SetsEntriesFollowSongs(id: Option<string>, sets: seq<SetOfSongs>)
    requires SetsHaveSongs(sets)
    ensures Follows(SetsEntries(id, sets), SetSongs(sets))
  {
    if sets != [] {
      var init, last := sets[..|sets| - 1], sets[|sets| - 1];
      SetsEntriesFollowSongs(id, init);
      var prev := SetsEntries(id, init);
      var songs := last.songs.value;
      var cur := SongEntries(id, EncoreFlag(last), songs, |prev| + 1);
      SongEntriesFollowSongs(id, EncoreFlag(last), songs, |prev| + 1);
      FollowsConcat(prev, SetSongs(init), cur, songs);
    }
  }

  /** Each song of each set of each concert yields one entry, in feed order,
      carrying the song's name, its tape flag (false when missing) and its
      cover name ("" when missing). */
  lemma {:induction false} EntriesFollowSongs(setlists: seq<Concert>)
    requires AllSetsHaveSongs(setlists)
    ensures Follows(Entries(setlists), AllSongs(setlists))
  {
    if setlists != [] {
      var init, last := setlists[..|setlists| - 1], setlists[|setlists| - 1];
      EntriesFollowSongs(init);
      SetsEntriesFollowSongs(last.id, last.sets);
      FollowsConcat(Entries(init), AllSongs(init), SetsEntries(last.id, last.sets), SetSongs(last.sets));
    }
  }

  /** When no entry lacks a name, the `song_name` list is as long as the
      others and holds each entry's own name. */
  lemma {:induction false} NameColumnAllNamed(entries: seq<Entry>)
    requires forall k :: 0 <= k < |entries| ==> Named(entries[k].name)
    ensures |NameColumn(entries)| == |entries|
    ensures forall k :: 0 <= k < |entries| ==> NameColumn(entries)[k] == entries[k].name
  {
    if entries != [] {
      NameColumnAllNamed(entries[..|entries| - 1]);
    }
  }

  /** With every song named, the table has one row per song and every row
      carries its own song's name. */
  lemma SetlistTableAlignedWhenAllNamed(setlists: seq<Concert>)
    requires AllSetsHaveSongs(setlists)
    requires forall k :: 0 <= k < |AllSongs(setlists)| ==> HasName(AllSongs(setlists)[k])
    ensures |SetlistTable(setlists)| == |AllSongs(setlists)|
    ensures forall k :: 0 <= k < |AllSongs(setlists)| ==>
      SetlistTable(setlists)[k].songName == AllSongs(setlists)[k].name
  {
    EntriesFollowSongs(setlists);
    NameColumnAllNamed(Entries(setlists));
  }

  /** One concert whose first song has an empty name. */
  const ShiftExample: Concert := Concert(Some("c1"), None, None, None,
    [SetOfSongs(None, Some([Song(Some(""), None, None), Song(Some("Aces High"), None, None)]))])

  lemma ShiftExampleIds()
    ensures SetlistId(Some("c1"), 1) == "c1_1" && SetlistId(Some("c1"), 2) == "c1_2"
  {
    assert Decimal(1) == "1" && Decimal(2) == "2";
  }

  /** The two entries of `ShiftExample`: positions 1 and 2, the first one
      unnamed. */
  lemma ShiftExampleEntries()
    ensures AllSetsHaveSongs([ShiftExample])
    ensures Entries([ShiftExample]) == [
      Entry("c1_1", Some("c1"), 1, Some(""), false, false, ""),
      Entry("c1_2", Some("c1"), 2, Some("Aces High"), false, false, "")]
  {
    var id, sets := Some("c1"), ShiftExample.sets;
    var songs := sets[0].songs.value;
    assert sets[..0] == [];
    assert SetsEntries(id, sets) == SongEntries(id, false, songs, 1);
    assert [ShiftExample][..0] == [];
    var es := Entries([ShiftExample]);
    assert es == Entries([]) + SetsEntries(id, sets);
    assert es == SongEntries(id, false, songs, 1);
    SongEntriesExact(id, false, songs, 1);
    ShiftExampleIds();
    assert |es| == 2;
    assert es[0] == Entry("c1_1", Some("c1"), 1, Some(""), false, false, "");
    assert es[1] == Entry("c1_2", Some("c1"), 2, Some("Aces High"), false, false, "");
  }

  /** As written, the empty name is skipped in `song_name` only: "Aces High",
      the second song, is reported at position 1 with setlist id "c1_1",
      and `zip` drops the row of position 2. */
  lemma EmptyNameShiftsLaterNames()
    ensures AllSetsHaveSongs([ShiftExample])
    ensures SetlistTable([ShiftExample]) == [SetlistRow("c1_1", Some("c1"), Some("Aces High"), 1, "", false, false)]
  {
    ShiftExampleEntries();
    var es := Entries([ShiftExample]);
    assert es[..1] == [es[0]] && [es[0]][..0] == [];
    assert NameColumn(es) == [Some("Aces High")];
    var c := ColumnsFor(es);
    assert c.setlistId[0] == "c1_1" && c.position[0] == 1;
  }

  /** A set with the unnamed songs removed. */
  function NamedOnlySet(s: SetOfSongs): SetOfSongs {
    if s.songs.Some? then s.(songs := Some(Filter(s.songs.value, HasName))) else s
  }

  function NamedOnlyConcert(c: Concert): Concert {
    c.(sets := MapSeq(c.sets, NamedOnlySet))
  }

  lemma NamedOnlyKeepsSongs(setlists: seq<Concert>)
    requires AllSetsHaveSongs(setlists)
    ensures AllSetsHaveSongs(MapSeq(setlists, NamedOnlyConcert))
  {
  }

  lemma {:induction false} NamedOnlySetSongs(sets: seq<SetOfSongs>)
    requires SetsHaveSongs(sets)
    ensures SetsHaveSongs(MapSeq(sets, NamedOnlySet))
    ensures SetSongs(MapSeq(sets, NamedOnlySet)) == Filter(SetSongs(sets), HasName)
  {
    if sets != [] {
      var init, last := sets[..|sets| - 1], sets[|sets| - 1];
      NamedOnlySetSongs(init);
      assert MapSeq(sets, NamedOnlySet)[..|sets| - 1] == MapSeq(init, NamedOnlySet);
      FilterConcat(SetSongs(init), last.songs.value, HasName);
    }
  }

  lemma {:induction false} NamedOnlyAllSongs(setlists: seq<Concert>)
    requires AllSetsHaveSongs(setlists)
    ensures AllSetsHaveSongs(MapSeq(setlists, NamedOnlyConcert))
    ensures AllSongs(MapSeq(setlists, NamedOnlyConcert)) == Filter(AllSongs(setlists), HasName)
  {
    NamedOnlyKeepsSongs(setlists);
    if setlists != [] {
      var init, last := setlists[..|setlists| - 1], setlists[|setlists| - 1];
      NamedOnlyAllSongs(init);
      NamedOnlySetSongs(last.sets);
      assert MapSeq(setlists, NamedOnlyConcert)[..|setlists| - 1] == MapSeq(init, NamedOnlyConcert);
      FilterConcat(AllSongs(init), SetSongs(last.sets), HasName);
    }
  }

  /** The setlist table as evidently intended: a song without a name yields
      no row at all, so the other columns cannot fall out of step. */
  function CorrectedSetlistTable(setlists: seq<Concert>): seq<SetlistRow>
    requires AllSetsHaveSongs(setlists)
  {
    NamedOnlyKeepsSongs(setlists);
    SetlistTable(MapSeq(setlists, NamedOnlyConcert))
  }

  /** The corrected table has one row per named song, in feed order, and
      every row carries its own song's name. */
  lemma CorrectedSetlistTableAligned(setlists: seq<Concert>)
    requires AllSetsHaveSongs(setlists)
    ensures |CorrectedSetlistTable(setlists)| == |Filter(AllSongs(setlists), HasName)|
    ensures forall k :: 0 <= k < |CorrectedSetlistTable(setlists)| ==>
      CorrectedSetlistTable(setlists)[k].songName == Filter(AllSongs(setlists), HasName)[k].name
  {
    NamedOnlyAllSongs(setlists);
    SetlistTableAlignedWhenAllNamed(MapSeq(setlists, NamedOnlyConcert));
  }

  // =====================================================================
  // Albums table
  // =====================================================================

  datatype AlbumRow = AlbumRow(albumName: Option<string>, songName: Option<string>)

  /** The `zip` of the album and song lists: the track loop's rows without
      their position. */
  function AlbumRowOf(t: TrackRow): AlbumRow {
    AlbumRow(t.album, t.song)
  }

  /** `albums["album_name"].isin(studio_albums)`: exact, case-sensitive
      membership; a missing title is never a member. */
  predicate IsStudioAlbum(r: AlbumRow) {
    r.albumName.Some? && r.albumName.value in StudioAlbums
  }

  /** `drop_duplicates(subset=["album_name", "song_name"])` compares whole
      rows, both columns being the key. */
  function AlbumPairKey(r: AlbumRow): AlbumRow { r }

  /** Filter on the allow-list, then drop repeated (album, song) pairs; the
      `sort_values` result is not assigned, so the rows keep feed order. */
  function StudioAlbumPairs(rows: seq<TrackRow>): seq<AlbumRow> {
    DropDuplicates(Filter(MapSeq(rows, AlbumRowOf), IsStudioAlbum), AlbumPairKey)
  }

  method CreateAlbumsTable(releases: seq<Release>) returns (r: Result<seq<AlbumRow>>)
    ensures r.Err? <==> !AllWalkable(releases)
    ensures r.Err? ==> r.error.TypeError?
    ensures r.Ok? ==> r.value == StudioAlbumPairs(ReleaseRows(releases))
  {
    var flat := FlattenTracks(releases);
    if flat.Err? {
      return Err(flat.error);
    }
    var albums := MapSeq(flat.value, AlbumRowOf);
    albums := Filter(albums, IsStudioAlbum);
    albums := DropDuplicates(albums, AlbumPairKey);
    return Ok(albums);
  }

  /** The albums table holds exactly the allow-listed (album, song) pairs of
      the track rows, each once, in the order of their first occurrence in
      the feed. */
  lemma StudioAlbumPairsExact(rows: seq<TrackRow>)
    ensures forall a :: a in StudioAlbumPairs(rows) <==> a in MapSeq(rows, AlbumRowOf) && IsStudioAlbum(a)
    ensures KeysUnique(StudioAlbumPairs(rows), AlbumPairKey)
    ensures IsSubsequence(StudioAlbumPairs(rows), MapSeq(rows, AlbumRowOf))
  {
    var all := MapSeq(rows, AlbumRowOf);
    var kept := Filter(all, IsStudioAlbum);
    FilterExact(all, IsStudioAlbum);
    DropDuplicatesKeepsFirst(kept, AlbumPairKey);
    forall a ensures a in StudioAlbumPairs(rows) <==> a in kept {
      FirstWithKeyFound(kept, AlbumPairKey, a);
      if a in kept {
        var i :| 0 <= i < |kept| && kept[i] == a;
        assert AlbumPairKey(kept[i]) == a;
      }
    }
    SubsequenceTransitive(StudioAlbumPairs(rows), kept, all);
  }

  /** The kept pairs appear in the order in which each first occurs in the
      feed. */
  lemma StudioAlbumPairsFeedOrder(rows: seq<TrackRow>)
    ensures forall t :: 0 <= t < |StudioAlbumPairs(rows)| ==>
      HasKey(MapSeq(rows, AlbumRowOf), AlbumPairKey, StudioAlbumPairs(rows)[t])
    ensures forall t, u :: 0 <= t < u < |StudioAlbumPairs(rows)| ==>
      FirstIndex(MapSeq(rows, AlbumRowOf), AlbumPairKey, StudioAlbumPairs(rows)[t]) <
      FirstIndex(MapSeq(rows, AlbumRowOf), AlbumPairKey, StudioAlbumPairs(rows)[u])
  {
    var all := MapSeq(rows, AlbumRowOf);
    var kept := Filter(all, IsStudioAlbum);
    var pairs := StudioAlbumPairs(rows);
    DropDuplicatesPositions(kept, AlbumPairKey);
    forall t | 0 <= t < |pairs|
      ensures HasKey(all, AlbumPairKey, pairs[t]) && KeyKept(all, IsStudioAlbum, AlbumPairKey, pairs[t])
    {
      var i := FirstIndex(kept, AlbumPairKey, pairs[t]);
      FilterMember(all, IsStudioAlbum, i);
      var j :| 0 <= j < |all| && all[j] == kept[i];
      assert AlbumPairKey(all[j]) == pairs[t];
    }
    forall t, u | 0 <= t < u < |pairs|
      ensures FirstIndex(all, AlbumPairKey, pairs[t]) < FirstIndex(all, AlbumPairKey, pairs[u])
    {
      FilterFirstIndex(all, IsStudioAlbum, AlbumPairKey, pairs[t], pairs[u]);
    }
  }
}
