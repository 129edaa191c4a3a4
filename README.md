# im-concert-tracker, modelled in Dafny

im-concert-tracker collects Iron Maiden concerts from the setlist.fm API
and Iron Maiden releases from the MusicBrainz API. It turns both feeds into
relational tables: concerts, venues, cities, setlists, albums, and a joined
table of performed songs with the album each comes from. This project
models the table-building and cleaning steps of that pipeline:

- `create_tables.py` walks the setlist feed with nested loops into
  column lists, zips them into tables and de-duplicates each table on its id.
  Modules `CreateTables`, `Feeds` and `SongsAlbumTable` (the stand-alone
  copy of the album builder in `songs_album_table.py`) cover it.
- `data_cleaning.py` harmonises song titles in place, adds a missing
  album track and completes missing tours from a hand-made completion table.
  Module `DataCleaning` covers it, with a `Frame` class standing for a
  DataFrame shared by reference.
- `data_prep/clean_setlists_data.py` normalises and explodes the setlist
  feed, harmonises titles, completes tours by a left merge, numbers the songs
  of each concert and labels US cities. Module `CleanSetlistsData` covers it.
- `data_prep/clean_album_data.py` walks the release feed, allow-lists the
  studio albums, drops repeated (album, song) pairs, sorts, and excludes
  bonus material by a regular expression. Module `CleanAlbumData` covers it.
- `data_prep/join_setlists_albums.py` left-joins the setlist rows with the
  album tracks on the song title. Module `JoinSetlistsAlbums` covers it.
- `data_prep/create_album.py` builds the album table with `json_normalize`
  and `explode` instead of loops. Module `CreateAlbum` covers it.

The pandas operations the pipeline relies on are modelled once, in
`Frames`:
- a boolean-mask filter;
- `drop_duplicates(keep="first")`;
- a left `merge`, in which a missing key matches a missing key;
- `groupby().cumcount()`;
- whole-cell `replace`.

`Text` holds the string facts: Python's `str()` of an optional value,
decimal numerals, code-point string order, and the case-insensitive
`re.search` of a keyword alternation. `Lookups` holds the allow-list, the
two title harmonisation tables and the exclusion keywords. The source
repeats each of these literally in several files, and the copies are
identical.

JSON nulls and absent keys are both `None`. A feed value that is not
iterable where the loops iterate becomes a `TypeError` result. A missing
key that the code subscripts becomes a `KeyError` result.

## Model

| member | source | states |
|---|---|---|
| Frames.FilterExact | create_tables.py:239 | A boolean-mask filter keeps exactly the rows satisfying the mask, and keeps them in their original order. |
| Frames.FilterKeepsUniqueKeys | data_prep/clean_album_data.py:88-90 | Filtering a table whose keys are unique leaves the keys unique. |
| Frames.DropDuplicates | create_tables.py:77 | `drop_duplicates(keep="first")`: never more rows than the input; what it keeps and in which order is `Frames.DropDuplicatesKeepsFirst`. |
| Frames.DropDuplicatesKeepsFirst | create_tables.py:77 | `drop_duplicates(keep="first")`: no two kept rows share a key; every key of the input is still present; a row is kept exactly when it is the first row with its key; the kept rows form a subsequence of the input; each kept row is the input row at its key's first position, and the kept rows appear in increasing order of those positions. |
| Frames.FirstIndex | create_tables.py:77 | The first position of a key: the row there has the key and no earlier row does. |
| Frames.DropDuplicatesPositions | create_tables.py:77 | Kept row t is the row at the first position of its key, and kept rows t < u have first positions in the same order, so repeated identical rows keep the place of their first copy. |
| Frames.DropDuplicatesOfMapPositions | create_tables.py:65-77 | For a table built one row per source element, each kept row is built from the first source element carrying its key. |
| Frames.FilterHasKey | create_tables.py:239-242 | A key whose rows all pass a boolean mask is present after filtering iff it was present before. |
| Frames.FilterFirstIndex | create_tables.py:239-242 | Filtering preserves the order of the first positions of two such keys. |
| Frames.DropDuplicatesKeys | create_tables.py:84 | De-duplication loses no key: a key is present afterwards iff it was present before. |
| Frames.DropDuplicatesUnique | create_tables.py:100 | After de-duplication no two rows share a key. |
| Frames.DropDuplicatesFirst | create_tables.py:77 | A row survives de-duplication iff it is the first row carrying its key. |
| Frames.DropDuplicatesInOrder | create_tables.py:241 | The kept rows form a subsequence of the input (the position-level order is `Frames.DropDuplicatesPositions`). |
| Frames.LeftMerge | data_prep/clean_setlists_data.py:98-104 | `merge(how="left")`: each left row in order, paired with every right row of its key or with nothing; characterised by `Frames.MergeBlockShape`, `Frames.LeftMergeCount`, `Frames.LeftMergeKeepsLeftOrder` and `Frames.LeftMergeUnmatched`. |
| Frames.MatchesExact | data_prep/join_setlists_albums.py:20-22 | The right rows matched by a key are exactly the right rows with that key; there are none iff the key is absent. |
| Frames.MatchesAtMostOne | data_prep/join_setlists_albums.py:20-22 | With unique right keys, a key matches at most one right row, and exactly one iff it is present. |
| Frames.MergeBlockShape | data_prep/join_setlists_albums.py:20-22 | A left row becomes one row per matching right row, in right order; with no match it becomes one row with no right part. |
| Frames.LeftMergeKeepsEveryLeftRow | data_prep/join_setlists_albums.py:20-22 | A left merge never has fewer rows than the left table, and every left row appears in it. |
| Frames.LeftMergeKeepsLeftOrder | data_prep/join_setlists_albums.py:20-22 | The left rows appear in the merge in their original order. |
| Frames.LeftMergeCount | data_prep/join_setlists_albums.py:20-22 | The merge has one row per match of each left row, or one row for a left row with no match. |
| Frames.MergeCountExact | data_prep/join_setlists_albums.py:20-22 | The merge has exactly as many rows as the left table iff no left key matches two or more right rows. |
| Frames.LeftMergeUniqueRight | data_prep/clean_setlists_data.py:98-104 | With unique right keys, the merge is the left table row for row; the right part is missing iff no right row has the key; a present right part has the left row's key. |
| Frames.LeftMergeRightFromRight | data_prep/join_setlists_albums.py:20-22 | Every right part in the merge is a right row whose key equals its left row's key. |
| Frames.LeftMergeFindsMatch | data_prep/clean_setlists_data.py:98-104 | With unique right keys, a left row whose key some right row has is paired with that right row. |
| Frames.LeftMergeUnmatched | data_prep/join_setlists_albums.py:20-22 | A merged row lacks a right part iff no right row has its left row's key. |
| Frames.CumCounts | data_prep/clean_setlists_data.py:113 | `groupby().cumcount() + 1`: one count per row; that the counts run 1..k within each group is `Frames.CumCountsRunOneToK`. |
| Frames.CumCountsRunOneToK | data_prep/clean_setlists_data.py:113 | `cumcount() + 1` numbers the rows of each group 1, 2, …, k in table order, where k is the group's size. |
| Frames.SelectGroupAgree | data_prep/clean_setlists_data.py:113 | Two columns that agree on a group's rows agree on that group's selection. |
| Frames.ReplaceExact | data_cleaning.py:22 | `replace` with a dictionary changes only a cell equal to a key in full, and gives it that key's value; when no value is itself a key, replacing twice equals replacing once. |
| Text.DecimalDigits | create_tables.py:139 | The decimal numeral of a position is a non-empty string of digits, with two or more digits from 10 on. |
| Text.DecimalInjective | create_tables.py:139 | Distinct positions have distinct numerals. |
| Text.StrLeTotal | data_prep/clean_album_data.py:69-71 | Python's string order compares any two titles. |
| Text.StrLeAntisymmetric | data_prep/clean_album_data.py:69-71 | Two titles ordered both ways are equal. |
| Text.StrLeTransitive | data_prep/clean_album_data.py:69-71 | Python's string order is transitive. |
| Text.StrLeSharedPrefix | data_prep/clean_album_data.py:69 | Two titles that agree up to some position compare alike with any title that departs from them at or before it. |
| Text.CompileKeyword | data_prep/clean_album_data.py:86 | A keyword becomes a pattern of the same length, in which `.` is the any-character wildcard and every other character is a literal. |
| Text.SearchFrom | data_prep/clean_album_data.py:89 | Scanning from a start index finds the pattern iff it matches at some later position. |
| Text.Search | data_prep/clean_album_data.py:89 | `re.search` finds a pattern iff it matches at some position of the title. |
| Text.ContainsCjk | data_prep/clean_album_data.py:86 | The Japanese character class matches iff the title has a character in U+3040–U+30FF or U+4E00–U+9FFF. |
| Lookups.AlbumSongNamesHaveNoChains | data_prep/clean_album_data.py:94-100 | No canonical album-track title is itself a variant, and the table has five entries. Harmonisation is therefore idempotent. |
| Lookups.SetlistSongNamesHaveNoChains | data_cleaning.py:44-63 | No canonical setlist title is itself a variant. |
| Feeds.TrackRows | data_prep/clean_album_data.py:27-31 | One row per track of a medium, in order: the release title, the track position and the track title. |
| Feeds.AppendTrackRows | data_prep/clean_album_data.py:27-31 | The track loop appends the medium's track rows, in order, after the rows already collected. |
| Feeds.AppendReleaseRows | data_prep/clean_album_data.py:25-31 | The media loop of one release fails with `TypeError` iff the release lacks its media list or one of its media lacks its track list. Otherwise it appends the release's rows after the rows already collected. |
| Feeds.FlattenTracks | data_prep/clean_album_data.py:23-31 | The three nested loops. They fail with `TypeError` iff some release lacks its media list or some medium lacks its track list. Otherwise they give the track rows of every release in feed order. |
| Feeds.MediaRowsExact | data_prep/clean_album_data.py:25-31 | A release's rows are as many as its tracks, and they are exactly its tracks labelled with its title. |
| Feeds.ReleaseRowsExact | create_tables.py:195-202 | The feed's rows are as many as all its tracks, and each row comes from one release. |
| Feeds.EmptyMediaContributesNothing | create_tables.py:197 | A release with an empty media list adds no rows. A release without a media list makes the walk fail. |
| CreateTables.CityLabel | create_tables.py:43-51 | The city cell of one record; which records get "{city}, {state}" is `CreateTables.CityLabelChangesOnlyUsCities`. |
| CreateTables.CityLabelChangesOnlyUsCities | create_tables.py:43-51 | The city label differs from the city name exactly for a US concert with a state code. The label is then "{city}, {state}", and a missing city prints as "None". |
| CreateTables.CollectConcertColumns | create_tables.py:33-62 | The record loop fills the eleven column lists with each concert's fields, one entry per concert, in feed order. |
| CreateTables.CreateConcertVenueCityTables | create_tables.py:5-102 | The three tables are the per-concert rows de-duplicated on concert id, venue id and city id. |
| CreateTables.ConcertTableFirstPerId | create_tables.py:65-77 | The concert table has unique concert ids, one for every concert of the feed; a row is in it iff it is the row of the first concert with its id; it is a subsequence of the per-concert rows. |
| CreateTables.ConcertTableFeedOrder | create_tables.py:65-77 | Row t of the concert table is built from the first concert with its id, and rows appear in the order of those first concerts. |
| CreateTables.VenueTableFirstPerId | create_tables.py:80-84 | The venue table has unique venue ids, one for every concert's venue; a row is in it iff it is that of the first concert at the venue; it is a subsequence of the per-concert rows. |
| CreateTables.VenueTableFeedOrder | create_tables.py:80-84 | Row t of the venue table is built from the first concert at its venue, and rows appear in the order of those first concerts. |
| CreateTables.CityTableFirstPerId | create_tables.py:87-100 | The city table has unique city ids, one for every concert's city; a row is in it iff it is that of the first concert in the city; it is a subsequence of the per-concert rows. |
| CreateTables.CityTableFeedOrder | create_tables.py:87-100 | Row t of the city table is built from the first concert in its city, and rows appear in the order of those first concerts. |
| CreateTables.SongEntriesExact | create_tables.py:137-150 | Song k of a set whose numbering starts at s gets position s+k, the id "{concert}_{s+k}", the set's encore flag and the song's fields. A missing tape flag reads as false, and a missing cover as "". |
| CreateTables.SetsEntriesNumbering | create_tables.py:131-150 | Within a concert, positions run 1, 2, … across all sets, and every entry has the id "{concert}_{position}". |
| CreateTables.SetlistIdsUniqueWithinConcert | create_tables.py:138-140 | No two songs of one concert share a setlist id. |
| CreateTables.NameColumn | create_tables.py:142-144 | The song-name column is never longer than the other columns. |
| CreateTables.AppendSongs | create_tables.py:137-150 | The song loop appends the set's entries, numbered from the counter, to the columns one at a time. The counter ends one past the last position used. |
| CreateTables.AppendConcert | create_tables.py:129-150 | The set loop of one concert appends the concert's entries, or fails with `KeyError("song")` iff one of its sets has no song list. |
| CreateTables.AppendEntriesColumns | create_tables.py:137-148 | Appending entries one at a time to the columns of earlier entries gives the columns of all the entries. So the loops build exactly the seven lists that `ColumnsFor` describes. |
| CreateTables.AppendEntriesConcat | create_tables.py:134-150 | Appending two runs of entries one after the other is the same as appending their concatenation, so the per-set runs add up to the concert's run. |
| CreateTables.SetlistTable | create_tables.py:152-175 | The zipped setlist table, as long as the `song_name` list; `CreateTables.CreateSetlistTable` ties it to the loop and `CreateTables.SetlistTableAlignedWhenAllNamed` to the songs. |
| CreateTables.CreateSetlistTable | create_tables.py:105-175 | The setlist table fails with `KeyError("song")` iff some set has no song list. Otherwise it is the zip of the seven columns built from every song of every concert. |
| CreateTables.EntriesFollowSongs | create_tables.py:128-150 | The setlist entries correspond one to one, in order, to the songs of the feed. |
| CreateTables.SetlistTableAlignedWhenAllNamed | create_tables.py:152-173 | When every song has a name, the table has one row per song, and each row's name is that song's name. |
| CreateTables.EmptyNameShiftsLaterNames | create_tables.py:142-144 | As written: an empty song name shifts later names onto earlier rows and drops the last row (see Findings). |
| CreateTables.CorrectedSetlistTableAligned | create_tables.py:142-173 | Corrected: when unnamed songs are skipped as whole entries, every row carries its own song's name and there is one row per named song. |
| CreateTables.CreateAlbumsTable | create_tables.py:178-244 | Fails with `TypeError` iff a release or medium lacks its list; otherwise gives the allow-listed, de-duplicated (album, song) pairs. |
| CreateTables.StudioAlbumPairs | create_tables.py:239-242 | The allow-listed (album, song) pairs, de-duplicated; characterised by `CreateTables.StudioAlbumPairsExact` and `CreateTables.StudioAlbumPairsFeedOrder`. |
| CreateTables.StudioAlbumPairsExact | create_tables.py:239-242 | The albums table holds exactly the allow-listed (album, song) pairs of the feed, each once, as a subsequence of the feed's pairs. |
| CreateTables.StudioAlbumPairsFeedOrder | create_tables.py:239-242 | The pairs appear in the order of their first occurrence in the feed; the discarded sort leaves that order alone. |
| SongsAlbumTable.AlbumsTest | songs_album_table.py:12-82 | Same result as the table builder's album part. Its pairs are unique, and a pair is present iff the feed has it and the album is allow-listed. |
| DataCleaning.CleanAlbumTable | data_cleaning.py:4-30 | The caller's table is harmonised in place. The returned new table is the harmonised rows followed by the added "Total Eclipse" row. |
| DataCleaning.CleanedAlbumRows | data_cleaning.py:15-28 | The cleaned album table has one more row than its input, and that last row is the added track. Every other cell is its input cell, or that cell's canonical title when it is a variant. |
| DataCleaning.AlbumTitleRenamedToo | data_cleaning.py:22 | Whole-frame replacement also renames the album "The Number Of The Beast", so the renamed row no longer matches the allow-list spelling. |
| DataCleaning.AlbumHarmonisationIdempotent | data_cleaning.py:22 | Cleaning album titles twice gives the same table as cleaning once. |
| DataCleaning.CleanSetlistTable | data_cleaning.py:33-67 | The caller's table is harmonised in place, and the same table is returned. |
| DataCleaning.CleanedSetlistRows | data_cleaning.py:44-65 | Harmonisation keeps positions, encore and tape flags, and replaces a song name only when it is a variant, by its canonical title. |
| DataCleaning.VariantsShareCanonicalTitle | data_cleaning.py:50-54 | Two variant spellings of an intro become the same canonical title, and the canonical title stays as it is. |
| DataCleaning.SetlistHarmonisationIdempotent | data_cleaning.py:65 | Harmonising the setlist table twice is harmonising it once. |
| DataCleaning.UpdateRows | data_cleaning.py:96-99 | Updating from the completion table keeps the number of concert rows. |
| DataCleaning.UpdateRowsAt | data_cleaning.py:96-99 | Each concert row is updated on its own, from the completion row with its id. |
| DataCleaning.AddMissingTours | data_cleaning.py:70-101 | The concert table is updated in place from the completion table, and its id is a column again. It fails iff its id is already in the index (`KeyError` from `set_index`, nothing changed) or the completion table repeats a concert id (`ValueError` from `update`). After the `ValueError` the rows are unchanged but the caller's table keeps its id in the index, because `reset_index` never runs. An empty or disjoint completion table is accepted and changes no row. |
| DataCleaning.UpdateRow | data_cleaning.py:96-99 | `update` on one concert row: the completion row with its id, if any, overwrites each column where it has a value; characterised by `DataCleaning.UpdateRowsOverlay`. |
| DataCleaning.UpdateRowsOverlay | data_cleaning.py:96-99 | The concert id stays, and a concert absent from the completion table is unchanged. Otherwise each shared column takes the completion value when it is present and keeps its own value when it is missing. |
| DataCleaning.UpdateRowsIdempotent | data_cleaning.py:96-99 | Applying the completion table twice is applying it once. |
| CleanSetlistsData.SetsRowsShape | data_prep/clean_setlists_data.py:49-55 | Exploding the song lists gives one row per song, or one null row for an empty or absent list. Every row carries its concert's fields, and every song appears. |
| CleanSetlistsData.ConcertSongRowsShape | data_prep/clean_setlists_data.py:41-55 | A concert explodes to at least one row, each with its own fields, and each of its songs appears. |
| CleanSetlistsData.SetsRowCountPositive | data_prep/clean_setlists_data.py:41 | A non-empty set list explodes to at least one row. |
| CleanSetlistsData.Explode | data_prep/clean_setlists_data.py:40-55 | The two explodes of the set and song lists; their row count and contents are `CleanSetlistsData.ExplodeShape`. |
| CleanSetlistsData.ExplodeShape | data_prep/clean_setlists_data.py:24-55 | The two explodes give exactly the counted number of rows. Every row comes from a concert of the feed, and every song of every set appears. |
| CleanSetlistsData.CellStable | data_prep/clean_setlists_data.py:95 | With no chains in the table, replacing a cell twice equals replacing it once. |
| CleanSetlistsData.SongRowHarmonisation | data_prep/clean_setlists_data.py:74-95 | Replacement keeps the row count and replaces a variant title by its canonical title. It leaves any other title alone, and applying it again changes nothing. |
| CleanSetlistsData.FinishRowCarries | data_prep/clean_setlists_data.py:106-158 | An output row carries its song row's fields. Its tour is the row's own tour, or else the completion tour, or else missing, and its city follows the United States rule. |
| CleanSetlistsData.UsCity | data_prep/clean_setlists_data.py:115-120 | "{city}, {state}" for a United States concert, missing when either part is missing, and the city otherwise; `CleanSetlistsData.FinishRowCarries` shows it is the output city. |
| CleanSetlistsData.CleanRows | data_prep/clean_setlists_data.py:97-158 | Merge, tour completion, song count, city rule and column selection; characterised by `CleanSetlistsData.CleanRowsKeepRows`, `CleanSetlistsData.CleanRowsAligned` and `CleanSetlistsData.SongCountRunsOneToK`. |
| CleanSetlistsData.CleanRowsKeepRows | data_prep/clean_setlists_data.py:98-113 | Every harmonised song row reaches the output at least once, with its id, title and encore flag. |
| CleanSetlistsData.CleanRowsAligned | data_prep/clean_setlists_data.py:98-158 | With a completion table of unique ids, output row i carries song row i's fields, its completed tour and its US city label. |
| CleanSetlistsData.CleanSetlistsData | data_prep/clean_setlists_data.py:7-160 | The whole cleaning of the setlist feed; characterised by `CleanSetlistsData.CleanSetlistsDataRows` with the lemmas above. |
| CleanSetlistsData.CleanSetlistsDataRows | data_prep/clean_setlists_data.py:7-160 | The output never has fewer rows than the exploded feed. It has exactly as many when the completion ids are unique. |
| CleanSetlistsData.SongCountRunsOneToK | data_prep/clean_setlists_data.py:113 | The song count is missing exactly when the id is missing, and it runs 1, 2, … k over the rows of each concert id. |
| CleanAlbumData.AlbumLeProperties | data_prep/clean_album_data.py:69-71 | The album order, with a missing value last, is total, antisymmetric and transitive. |
| CleanAlbumData.TrackLeTotalPreorder | data_prep/clean_album_data.py:69-71 | Ordering by (album, position) is a total preorder. |
| CleanAlbumData.InsertTrack | data_prep/clean_album_data.py:69-71 | Insertion adds exactly one row. |
| CleanAlbumData.InsertTrackPermutes | data_prep/clean_album_data.py:69-71 | Insertion adds the row and keeps the rest. |
| CleanAlbumData.InsertTrackSorted | data_prep/clean_album_data.py:69-71 | Inserting into a sorted table keeps it sorted. |
| CleanAlbumData.SortTracks | data_prep/clean_album_data.py:69-71 | `sort_values` by (album, position) keeps the row count; that it sorts, permutes and is stable is `CleanAlbumData.SortTracksSortedPermutation` and `CleanAlbumData.SortTracksStable`. |
| CleanAlbumData.SortTracksSortedPermutation | data_prep/clean_album_data.py:69-71 | `sort_values` gives a sorted permutation of its input. |
| CleanAlbumData.InsertTrackStable | data_prep/clean_album_data.py:69-71 | Insertion places the new row after every existing row with an equal sort key. |
| CleanAlbumData.SortTracksStable | data_prep/clean_album_data.py:69-71 | The sort is stable: rows with equal (album, position) keep their relative order. |
| CleanAlbumData.DotInFiveOneIsAWildcard | data_prep/clean_album_data.py:86-89 | The keyword "5.1" also matches "5x1", and keywords match regardless of case. |
| CleanAlbumData.CleanAlbumData | data_prep/clean_album_data.py:6-104 | Fails with `TypeError` iff a release or medium lacks its list. Otherwise it gives the harmonised rows that were allow-listed, de-duplicated, sorted and not excluded. |
| CleanAlbumData.FilterKeepsSorted | data_prep/clean_album_data.py:88-90 | Excluding rows from a sorted table leaves it sorted. |
| CleanAlbumData.SelectedTracks | data_prep/clean_album_data.py:65-90 | Allow-list, de-duplication, sort and exclusion; characterised by `CleanAlbumData.SelectedTracksSortedUnique`, `CleanAlbumData.SelectedTracksMembers` and `CleanAlbumData.SelectedTracksComplete`. |
| CleanAlbumData.SelectedTracksSortedUnique | data_prep/clean_album_data.py:66-90 | The selected rows are sorted by (album, position), and no two of them share an (album, song) pair. |
| CleanAlbumData.CleanAlbumRows | data_prep/clean_album_data.py:65-102 | The cleaned albums rows: the selected rows harmonised; their order is `CleanAlbumData.CleanAlbumRowsSorted`, their stability under a second harmonisation `CleanAlbumData.CleanAlbumRowsIdempotent`. |
| CleanAlbumData.StudioAlbumsRenamed | data_prep/clean_album_data.py:94-102 | Of the allow-listed titles, harmonisation renames only "The Number Of The Beast", to "The Number of the Beast". |
| CleanAlbumData.StudioAlbumsBeforeNumber | data_prep/clean_album_data.py:45-63 | Every other allow-listed title departs from "The Number " at its first or fifth character, and none is the new spelling. |
| CleanAlbumData.SharedPrefixOfBeast | data_prep/clean_album_data.py:99 | A title departing that early compares alike with the old and the new spelling. |
| CleanAlbumData.RenameKeepsOrder | data_prep/clean_album_data.py:99 | Renaming that one title keeps the order and the distinctness of such titles. |
| CleanAlbumData.HarmoniseKeepsAlbumOrder | data_prep/clean_album_data.py:94-102 | Harmonising keeps the order and the distinctness of allow-listed album titles. |
| CleanAlbumData.HarmoniseKeepsTrackOrder | data_prep/clean_album_data.py:69-102 | Harmonising two allow-listed rows keeps their (album, position) order. |
| CleanAlbumData.CleanAlbumRowsSorted | data_prep/clean_album_data.py:69-102 | The returned albums table is sorted by (album, position) even after "The Number Of The Beast" is renamed. |
| CleanAlbumData.CleanAlbumRowsIdempotent | data_prep/clean_album_data.py:94-102 | Harmonising the returned albums table a second time changes nothing: no canonical title is itself a variant. |
| CleanAlbumData.SelectedTracksMembers | data_prep/clean_album_data.py:66-90 | A row is selected iff it is the first allow-listed row with its (album, song) pair and its title is not excluded. Every selected row is a feed row. |
| CleanAlbumData.SelectedTracksComplete | data_prep/clean_album_data.py:66-90 | Every allow-listed feed row whose title is not excluded has its (album, song) pair in the selection. |
| CleanAlbumData.InsertTrackKeepsUniquePairs | data_prep/clean_album_data.py:68-71 | Inserting a row whose pair is new keeps the pairs unique. |
| CleanAlbumData.SortTracksKeepsUniquePairs | data_prep/clean_album_data.py:68-71 | Sorting keeps the (album, song) pairs unique. |
| JoinSetlistsAlbums.JoinSetlistsAlbums | data_prep/join_setlists_albums.py:20-25 | The left merge on song title with the two helper columns dropped; characterised by `JoinSetlistsAlbums.JoinRowCount`, `JoinSetlistsAlbums.JoinKeepsEverySetlistRow`, `JoinSetlistsAlbums.JoinAlbumFromTrack` and `JoinSetlistsAlbums.JoinWithUniqueSongNames`. |
| JoinSetlistsAlbums.JoinOfOneRow | data_prep/join_setlists_albums.py:20-24 | A setlist row with no track of its title stays once with no album. Otherwise it is repeated once per such track, in album-table order, each time with that track's album. |
| JoinSetlistsAlbums.JoinSnoc | data_prep/join_setlists_albums.py:20-24 | The join of a longer setlist table extends the join of the shorter one by the new row's block. |
| JoinSetlistsAlbums.JoinKeepsEverySetlistRow | data_prep/join_setlists_albums.py:20-24 | Every setlist row appears in the joined table with all its columns, in setlist order. |
| JoinSetlistsAlbums.JoinRowCount | data_prep/join_setlists_albums.py:20-24 | The joined table counts each setlist row once per matching track, or once with no match. Its size equals the setlist table's iff no title matches two or more tracks. |
| JoinSetlistsAlbums.JoinAlbumFromTrack | data_prep/join_setlists_albums.py:20-24 | An album name in the join is the album of a track bearing the row's title. When all tracks have albums, a row has none iff no track bears its title. |
| JoinSetlistsAlbums.JoinWithUniqueSongNames | data_prep/join_setlists_albums.py:20-24 | With unique track titles, the join is the setlist table row for row. Each row gains the album of the track with its title, or no album. |
| JoinSetlistsAlbums.MissingTitlesMatch | data_prep/join_setlists_albums.py:20-22 | A row with a missing song title is joined to a track with a missing song name, as pandas matches missing keys. |
| CreateAlbum.NormaliseValue | data_prep/create_album.py:15 | After flattening a value, no cell holds a nested object. |
| CreateAlbum.NormaliseMembers | data_prep/create_album.py:15 | After flattening an object's members, no cell holds a nested object. |
| CreateAlbum.Lookup | data_prep/create_album.py:19 | A column that no record has reads as missing, and a present cell is never a JSON null. |
| CreateAlbum.FlatScalarCells | data_prep/create_album.py:12 | An object without nested objects has all its members as scalar cells and no nested members. |
| CreateAlbum.FlatObjectNormalisesToItself | data_prep/create_album.py:12 | Normalising an object without nested objects gives its members as columns, unchanged and in order. |
| CreateAlbum.NestedKeysJoined | data_prep/create_album.py:15 | A nested object's key becomes "outer_inner", joined by the separator "_". |
| CreateAlbum.ExplodeMediaShape | data_prep/create_album.py:14 | Exploding media gives one row per medium, or one row for a release without media, so never fewer rows than releases. Each row carries a release's title and, if present, one of that release's media. |
| CreateAlbum.CreateAlbumsTable | data_prep/create_album.py:10-22 | Every failure is a `KeyError` for a column that does not exist. |
| CreateAlbum.CreateAlbumsTableRows | data_prep/create_album.py:14-21 | When the table is built, it has one row per exploded medium, each titled with one of the releases' titles. |
| CreateAlbum.NoRecordingColumn | data_prep/create_album.py:15-16 | A medium object without a nested object or a "recording_title" key yields no "media_recording_title" column. |
| CreateAlbum.RecordingTitleNeverSelected | data_prep/create_album.py:19 | As written: for a feed whose media hold their recordings only inside the "tracks" list, selecting "media_recording_title" raises `KeyError` (see Findings). |
| Feeds.MemberValue | data_prep/create_album.py:12-15 | A member value is found iff the object has a member with that key; the last such member is the one read. |
| CreateAlbum.KillersConsistent | data_prep/create_album.py:14-19 | The example medium is consistent (`Feeds.ConsistentMedium`): its `tracks` list is its "tracks" JSON member read track by track, so the as-written and corrected tables read the same data. |
| CreateAlbum.KillersRaisesKeyError | data_prep/create_album.py:19 | The one-track example release raises that `KeyError`. |
| CreateAlbum.CorrectedAlbumsTable | data_prep/create_album.py:14-21 | Corrected album table: one row per track of every medium; characterised by `CreateAlbum.CorrectedAlbumsTableHasEveryTrack`. |
| CreateAlbum.CorrectedAlbumsTableHasEveryTrack | data_prep/create_album.py:14-21 | Corrected: the table succeeds iff every release and medium has its list. It then has exactly one row per track, and every track of every medium appears with its release title. |
| CreateAlbum.KillersCorrected | data_prep/create_album.py:14-21 | The corrected table gives the example release's one track. |

## Left out

- HTTP requests to setlist.fm and MusicBrainz, file reading and writing, the database writes and the `__main__` blocks are I/O. They are not part of this model.
- The completion CSV read by `read_csv` in `add_missing_tours` becomes a parameter: the completion rows.
- JSON null and an absent key are one value. So the model does not tell a `KeyError` from a missing column that exists with nulls; for example, `title` in `create_album.py` always exists once a release has the key, even with a null value.
- CleanSetlistsData.CleanSetlistsData: selecting or dropping a column that no record of the feed has raises `KeyError` in pandas. The model assumes every named column exists.
- Latitude and longitude are kept as opaque values: no floating point.
- `create_setlist_table` declares an `album_name` column that it never fills or zips; it is not modelled.
- pandas dtype effects (an all-null column's float dtype, integers turning into floats next to nulls) are not modelled.
- DataCleaning.AddMissingTours: follows pandas 2.2, whose `update` reindexes the completion table on the concert table's index: that raises `ValueError` for a repeated completion id and accepts an empty or disjoint completion table. Other pandas releases check different conditions in `update`, and their behaviour is not modelled. The row index is modelled only as whether the id sits in it.
- Duplicate keys within one JSON object and release keys other than `title` and `media` are not modelled.
- CreateAlbum.CreateAlbumsTable: the `KeyError` names only the first missing column, where pandas lists every missing one.
- The unassigned `sort_values` at `create_tables.py:242` and `songs_album_table.py:80` has no effect, and is modelled as absent.
- JoinSetlistsAlbums.JoinSnoc: the join distributes over a split setlist table only for one added row; a general concatenation law is not stated.

## Findings

| source | as written | input that shows it | evidently intended | confidence | as-written member | corrected member |
|---|---|---|---|---|---|---|
| create_tables.py:142-144 | A song with an empty name is left out of the `song_name` list only, so later names shift one row up and `zip` drops the last row. | Concert "c1" with the songs "" and "Aces High": one row, `c1_1`, position 1, named "Aces High". | Unnamed songs skipped as whole entries, or kept with an empty name, so each row carries its own song's name. | high, not executed | CreateTables.EmptyNameShiftsLaterNames | CreateTables.CorrectedSetlistTableAligned |
| data_prep/create_album.py:19 | `json_normalize` does not descend into the `tracks` list, so no `media_recording_title` column exists and the selection raises `KeyError`. | One release "Killers" with one medium whose tracks list holds "Wrathchild". | One row per track with the album title and the track title, as the loop-based album tables produce. | high, not executed | CreateAlbum.RecordingTitleNeverSelected | CreateAlbum.CorrectedAlbumsTableHasEveryTrack |
