/** The two nested JSON feeds the pipeline flattens: concert setlists in the
    setlist.fm shape and releases in the MusicBrainz shape. A key that is
    absent from a record is `None`; so is a key whose value is JSON null.
    The shared release -> media -> track loop lives here as well. */
module Feeds {
  import opened Frames
  import Text

  // ---------------------------------------------------------------------
  // setlist.fm
  // ---------------------------------------------------------------------

  /** A latitude or longitude as the feed's number literal; the pipeline
      only copies it. */
  datatype Coordinate = Coordinate(literal: string)

  datatype Country = Country(code: Option<string>, name: Option<string>)
  datatype Coords = Coords(lat: Option<Coordinate>, long: Option<Coordinate>)
  datatype City = City(
    id: Option<string>,
    name: Option<string>,
    stateCode: Option<string>,
    country: Option<Country>,
    coords: Option<Coords>)
  datatype Venue = Venue(id: Option<string>, name: Option<string>, city: Option<City>)
  datatype Tour = Tour(name: Option<string>)
  datatype Cover = Cover(name: Option<string>)
  datatype Song = Song(name: Option<string>, tape: Option<bool>, cover: Option<Cover>)
  /** One set of a concert. `songs` is `None` when the set has no "song" key. */
  datatype SetOfSongs = SetOfSongs(encore: Option<int>, songs: Option<seq<Song>>)
  /** One concert. `sets` is the list under "sets" -> "set"; a concert
      without it has no sets. */
  datatype Concert = Concert(
    id: Option<string>,
    eventDate: Option<string>,
    venue: Option<Venue>,
    tour: Option<Tour>,
    sets: seq<SetOfSongs>)

  // The `record.get("venue", {}).get("city", {})...` chains: every missing
  // level yields `None` at the end.

  function TourName(c: Concert): Option<string> {
    if c.tour.Some? then c.tour.value.name else None
  }

  function VenueId(c: Concert): Option<string> {
    if c.venue.Some? then c.venue.value.id else None
  }

  function VenueName(c: Concert): Option<string> {
    if c.venue.Some? then c.venue.value.name else None
  }

  function CityOf(c: Concert): Option<City> {
    if c.venue.Some? then c.venue.value.city else None
  }

  function CityId(c: Concert): Option<string> {
    var city := CityOf(c);
    if city.Some? then city.value.id else None
  }

  function CityName(c: Concert): Option<string> {
    var city := CityOf(c);
    if city.Some? then city.value.name else None
  }

  function StateCode(c: Concert): Option<string> {
    var city := CityOf(c);
    if city.Some? then city.value.stateCode else None
  }

  function CountryOf(c: Concert): Option<Country> {
    var city := CityOf(c);
    if city.Some? then city.value.country else None
  }

  function CountryCode(c: Concert): Option<string> {
    var country := CountryOf(c);
    if country.Some? then country.value.code else None
  }

  function CountryName(c: Concert): Option<string> {
    var country := CountryOf(c);
    if country.Some? then country.value.name else None
  }

  function CoordsOf(c: Concert): Option<Coords> {
    var city := CityOf(c);
    if city.Some? then city.value.coords else None
  }

  function Latitude(c: Concert): Option<Coordinate> {
    var coords := CoordsOf(c);
    if coords.Some? then coords.value.lat else None
  }

  function Longitude(c: Concert): Option<Coordinate> {
    var coords := CoordsOf(c);
    if coords.Some? then coords.value.long else None
  }

  function CoverName(s: Song): Option<string> {
    if s.cover.Some? then s.cover.value.name else None
  }

  // ---------------------------------------------------------------------
  // MusicBrainz
  // ---------------------------------------------------------------------

  /** A JSON value. Numbers are kept as their literal. */
  datatype Json =
    | JNull
    | JBool(b: bool)
    | JNum(literal: string)
    | JStr(s: string)
    | JList(items: seq<Json>)
    | JObject(members: seq<Member>)
  /** One key/value pair of a JSON object, in document order. */
  datatype Member = Member(key: string, value: Json)

  datatype Track = Track(position: Option<int>, title: Option<string>)
  /** One medium of a release. `tracks` is its "tracks" list (`None` when
      the key is missing); `members` is the whole medium object as it
      appears in the feed. */
  datatype Medium = Medium(tracks: Option<seq<Track>>, members: seq<Member>)
  /** The value of the last member named `key`: a JSON decoder keeps the
      last of repeated keys. */
  function MemberValue(members: seq<Member>, key: string): (v: Option<Json>)
    ensures v.Some? <==> exists i :: 0 <= i < |members| && members[i].key == key
  {
    if members == [] then None
    else if members[|members| - 1].key == key then Some(members[|members| - 1].value)
    else
      var init := members[..|members| - 1];
      assert forall i :: 0 <= i < |init| ==> init[i] == members[i];
      MemberValue(init, key)
  }

  /** A track read from its JSON object: the title when it is a string and
      the position when it is a number, missing otherwise. */
  predicate TrackOfJson(t: Track, j: Json) {
    && j.JObject?
    && (match MemberValue(j.members, "title")
        case Some(JStr(s)) => t.title == Some(s)
        case _ => t.title.None?)
    && (match MemberValue(j.members, "position")
        case Some(JNum(literal)) => t.position.Some? && t.position.value >= 0 && literal == Text.Decimal(t.position.value)
        case _ => t.position.None?)
  }

  /** The two views of a medium agree: `tracks` is its "tracks" member read
      track by track, and `None` when that member is missing or not a list. */
  predicate ConsistentMedium(m: Medium) {
    match MemberValue(m.members, "tracks")
    case Some(JList(items)) =>
      m.tracks.Some? && |m.tracks.value| == |items| &&
      forall k :: 0 <= k < |items| ==> TrackOfJson(m.tracks.value[k], items[k])
    case _ => m.tracks.None?
  }

  /** One release. `media` is `None` when the release has no "media" key. */
  datatype Release = Release(title: Option<string>, media: Option<seq<Medium>>)

  /** One row of the track loops: the release title, the track position and
      the track title. */
  datatype TrackRow = TrackRow(album: Option<string>, position: Option<int>, song: Option<string>)

  /** A release the track loops can walk without iterating over `None`. */
  predicate Walkable(r: Release) {
    r.media.Some? && forall j :: 0 <= j < |r.media.value| ==> r.media.value[j].tracks.Some?
  }

  predicate AllWalkable(releases: seq<Release>) {
    forall i :: 0 <= i < |releases| ==> Walkable(releases[i])
  }

  /** The rows of one medium's tracks, each labelled with the release title. */
  function TrackRows(album: Option<string>, tracks: seq<Track>): (rows: seq<TrackRow>)
    ensures |rows| == |tracks|
    ensures forall k :: 0 <= k < |tracks| ==>
      rows[k] == TrackRow(album, tracks[k].position, tracks[k].title)
  {
    if tracks == [] then []
    else
      var last := tracks[|tracks| - 1];
      TrackRows(album, tracks[..|tracks| - 1]) + [TrackRow(album, last.position, last.title)]
  }

  function MediaRows(album: Option<string>, media: seq<Medium>): seq<TrackRow>
    requires forall j :: 0 <= j < |media| ==> media[j].tracks.Some?
  {
    if media == [] then []
    else MediaRows(album, media[..|media| - 1]) + TrackRows(album, media[|media| - 1].tracks.value)
  }

  /** The table the loops build: releases in order, their media in order,
      their tracks in order. */
  function ReleaseRows(releases: seq<Release>): seq<TrackRow>
    requires AllWalkable(releases)
  {
    if releases == [] then []
    else
      var last := releases[|releases| - 1];
      ReleaseRows(releases[..|releases| - 1]) + MediaRows(last.title, last.media.value)
  }

  function MediaTrackCount(media: seq<Medium>): nat
    requires forall j :: 0 <= j < |media| ==> media[j].tracks.Some?
  {
    if media == [] then 0
    else MediaTrackCount(media[..|media| - 1]) + |media[|media| - 1].tracks.value|
  }

  function TrackCount(releases: seq<Release>): nat
    requires AllWalkable(releases)
  {
    if releases == [] then 0
    else TrackCount(releases[..|releases| - 1]) + MediaTrackCount(releases[|releases| - 1].media.value)
  }

  /** The innermost `for track in media.get("tracks")` loop: one row per
      track, appended in order. */
  method AppendTrackRows(rows: seq<TrackRow>, album: Option<string>, tracks: seq<Track>)
    returns (rows': seq<TrackRow>)
    ensures rows' == rows + TrackRows(album, tracks)
  {
    rows' := rows;
    var k := 0;
    while k < |tracks|
      invariant 0 <= k <= |tracks|
      invariant rows' == rows + TrackRows(album, tracks[..k])
    {
      rows' := rows' + [TrackRow(album, tracks[k].position, tracks[k].title)];
      assert tracks[..k + 1][..k] == tracks[..k];
      k := k + 1;
    }
    assert tracks[..k] == tracks;
  }

  /** The `for media in release.get("media")` loop of one release; a
      missing "tracks" list raises TypeError. */
  method AppendReleaseRows(rows: seq<TrackRow>, release: Release) returns (r: Result<seq<TrackRow>>)
    ensures r.Err? <==> !Walkable(release)
    ensures r.Err? ==> r.error.TypeError?
    ensures r.Ok? ==> r.value == rows + MediaRows(release.title, release.media.value)
  {
    if release.media.None? {
      return Err(TypeError("'NoneType' object is not iterable"));
    }
    var media := release.media.value;
    var rows' := rows;
    var j := 0;
    while j < |media|
      invariant 0 <= j <= |media|
      invariant forall j' :: 0 <= j' < j ==> media[j'].tracks.Some?
      invariant rows' == rows + MediaRows(release.title, media[..j])
    {
      if media[j].tracks.None? {
        return Err(TypeError("'NoneType' object is not iterable"));
      }
      rows' := AppendTrackRows(rows', release.title, media[j].tracks.value);
      MediaRowsSnoc(release.title, media, j);
      j := j + 1;
    }
    assert media[..j] == media;
    return Ok(rows');
  }

  /** The nested `for release / for media / for track` loop. Iterating over a
      missing "media" or "tracks" value raises TypeError, which ends the
      whole loop; otherwise every track yields one row. */
  method FlattenTracks(releases: seq<Release>) returns (r: Result<seq<TrackRow>>)
    ensures r.Err? <==> !AllWalkable(releases)
    ensures r.Err? ==> r.error.TypeError?
    ensures r.Ok? ==> r.value == ReleaseRows(releases)
  {
    var rows: seq<TrackRow> := [];
    var i := 0;
    while i < |releases|
      invariant 0 <= i <= |releases|
      invariant AllWalkable(releases[..i])
      invariant rows == ReleaseRows(releases[..i])
    {
      var next := AppendReleaseRows(rows, releases[i]);
      if next.Err? {
        return Err(next.error);
      }
      ReleaseRowsSnoc(releases, i);
      rows := next.value;
      i := i + 1;
    }
    assert releases[..i] == releases;
    return Ok(rows);
  }

  lemma MediaRowsSnoc(album: Option<string>, media: seq<Medium>, j: nat)
    requires j < |media|
    requires forall j' :: 0 <= j' <= j ==> media[j'].tracks.Some?
    ensures MediaRows(album, media[..j + 1]) == MediaRows(album, media[..j]) + TrackRows(album, media[j].tracks.value)
  {
    assert media[..j + 1][..j] == media[..j];
  }

  lemma ReleaseRowsSnoc(releases: seq<Release>, i: nat)
    requires i < |releases|
    requires AllWalkable(releases[..i]) && Walkable(releases[i])
    ensures AllWalkable(releases[..i + 1])
    ensures ReleaseRows(releases[..i + 1]) == ReleaseRows(releases[..i]) + MediaRows(releases[i].title, releases[i].media.value)
  {
    assert releases[..i + 1][..i] == releases[..i];
  }

  lemma {:induction false} MediaRowsLength(album: Option<string>, media: seq<Medium>)
    requires forall j :: 0 <= j < |media| ==> media[j].tracks.Some?
    ensures |MediaRows(album, media)| == MediaTrackCount(media)
  {
    if media != [] {
      MediaRowsLength(album, media[..|media| - 1]);
    }
  }

  lemma {:induction false} ReleaseRowsLength(releases: seq<Release>)
    requires AllWalkable(releases)
    ensures |ReleaseRows(releases)| == TrackCount(releases)
  {
    if releases != [] {
      var last := releases[|releases| - 1];
      AllWalkableInit(releases);
      ReleaseRowsLength(releases[..|releases| - 1]);
      MediaRowsLength(last.title, last.media.value);
    }
  }

  /** Each row of one medium carries the release title and is the row of
      one of its tracks, and every track yields its row. */
  lemma {:induction false} MediaRowsContain(album: Option<string>, media: seq<Medium>, j: nat, k: nat)
    requires forall j :: 0 <= j < |media| ==> media[j].tracks.Some?
    requires j < |media| && k < |media[j].tracks.value|
    ensures TrackRow(album, media[j].tracks.value[k].position, media[j].tracks.value[k].title) in MediaRows(album, media)
  {
    var init, last := media[..|media| - 1], media[|media| - 1];
    var rows := TrackRows(album, last.tracks.value);
    assert MediaRows(album, media) == MediaRows(album, init) + rows;
    if j < |init| {
      assert init[j] == media[j];
      MediaRowsContain(album, init, j, k);
    } else {
      assert rows[k] == TrackRow(album, media[j].tracks.value[k].position, media[j].tracks.value[k].title);
    }
  }

  lemma {:induction false} MediaRowsFrom(album: Option<string>, media: seq<Medium>, row: TrackRow)
    requires forall j :: 0 <= j < |media| ==> media[j].tracks.Some?
    requires row in MediaRows(album, media)
    ensures exists j, k :: 0 <= j < |media| && 0 <= k < |media[j].tracks.value| &&
                           row == TrackRow(album, media[j].tracks.value[k].position, media[j].tracks.value[k].title)
  {
    var init, last := media[..|media| - 1], media[|media| - 1];
    var rows := TrackRows(album, last.tracks.value);
    assert MediaRows(album, media) == MediaRows(album, init) + rows;
    if row in MediaRows(album, init) {
      MediaRowsFrom(album, init, row);
      var j, k :| 0 <= j < |init| && 0 <= k < |init[j].tracks.value| &&
        row == TrackRow(album, init[j].tracks.value[k].position, init[j].tracks.value[k].title);
      assert init[j] == media[j];
    } else {
      var k :| 0 <= k < |rows| && rows[k] == row;
      assert media[|media| - 1] == last;
    }
  }

  lemma MediaRowsExact(album: Option<string>, media: seq<Medium>)
    requires forall j :: 0 <= j < |media| ==> media[j].tracks.Some?
    ensures |MediaRows(album, media)| == MediaTrackCount(media)
    ensures forall row :: row in MediaRows(album, media) <==>
      exists j, k :: 0 <= j < |media| && 0 <= k < |media[j].tracks.value| &&
        row == TrackRow(album, media[j].tracks.value[k].position, media[j].tracks.value[k].title)
  {
    MediaRowsLength(album, media);
    forall row
      ensures row in MediaRows(album, media) <==>
        exists j, k :: 0 <= j < |media| && 0 <= k < |media[j].tracks.value| &&
          row == TrackRow(album, media[j].tracks.value[k].position, media[j].tracks.value[k].title)
    {
      if row in MediaRows(album, media) {
        MediaRowsFrom(album, media, row);
      }
      if exists j, k :: 0 <= j < |media| && 0 <= k < |media[j].tracks.value| &&
          row == TrackRow(album, media[j].tracks.value[k].position, media[j].tracks.value[k].title) {
        var j, k :| 0 <= j < |media| && 0 <= k < |media[j].tracks.value| &&
          row == TrackRow(album, media[j].tracks.value[k].position, media[j].tracks.value[k].title);
        MediaRowsContain(album, media, j, k);
      }
    }
  }

  lemma AllWalkableInit(releases: seq<Release>)
    requires releases != [] && AllWalkable(releases)
    ensures AllWalkable(releases[..|releases| - 1])
    ensures ReleaseRows(releases) ==
      ReleaseRows(releases[..|releases| - 1]) + MediaRows(releases[|releases| - 1].title, releases[|releases| - 1].media.value)
  {
    var init := releases[..|releases| - 1];
    forall i | 0 <= i < |init| ensures Walkable(init[i]) {
      assert init[i] == releases[i];
    }
  }

  lemma {:induction false} ReleaseRowsContain(releases: seq<Release>, i: nat, row: TrackRow)
    requires AllWalkable(releases) && i < |releases|
    requires row in MediaRows(releases[i].title, releases[i].media.value)
    ensures row in ReleaseRows(releases)
  {
    var init := releases[..|releases| - 1];
    AllWalkableInit(releases);
    if i < |init| {
      assert init[i] == releases[i];
      ReleaseRowsContain(init, i, row);
    }
  }

  lemma {:induction false} ReleaseRowsFrom(releases: seq<Release>, row: TrackRow)
    requires AllWalkable(releases) && row in ReleaseRows(releases)
    ensures exists i :: 0 <= i < |releases| && row in MediaRows(releases[i].title, releases[i].media.value)
  {
    var init, last := releases[..|releases| - 1], releases[|releases| - 1];
    AllWalkableInit(releases);
    if row in ReleaseRows(init) {
      ReleaseRowsFrom(init, row);
      var i :| 0 <= i < |init| && row in MediaRows(init[i].title, init[i].media.value);
      assert init[i] == releases[i];
    } else {
      assert row in MediaRows(last.title, last.media.value);
    }
  }

  /** Every release contributes exactly the rows of its media, labelled with
      its own title (together with `MediaRowsExact`: one row per track,
      carrying the release title, the track position and the track title),
      and no other row exists. */
  lemma ReleaseRowsExact(releases: seq<Release>)
    requires AllWalkable(releases)
    ensures |ReleaseRows(releases)| == TrackCount(releases)
    ensures forall row :: row in ReleaseRows(releases) <==>
      exists i :: 0 <= i < |releases| && row in MediaRows(releases[i].title, releases[i].media.value)
  {
    ReleaseRowsLength(releases);
    forall row
      ensures row in ReleaseRows(releases) <==>
        exists i :: 0 <= i < |releases| && row in MediaRows(releases[i].title, releases[i].media.value)
    {
      if row in ReleaseRows(releases) {
        ReleaseRowsFrom(releases, row);
      }
      if exists i :: 0 <= i < |releases| && row in MediaRows(releases[i].title, releases[i].media.value) {
        var i :| 0 <= i < |releases| && row in MediaRows(releases[i].title, releases[i].media.value);
        ReleaseRowsContain(releases, i, row);
      }
    }
  }

  /** A release whose media list is empty contributes no row, and a release
      whose "media" key is missing makes the loop raise. */
  lemma EmptyMediaContributesNothing(releases: seq<Release>, title: Option<string>)
    requires AllWalkable(releases)
    ensures AllWalkable(releases + [Release(title, Some([]))])
    ensures ReleaseRows(releases + [Release(title, Some([]))]) == ReleaseRows(releases)
    ensures !AllWalkable(releases + [Release(title, None)])
  {
    var rs := releases + [Release(title, Some([]))];
    assert rs[..|rs| - 1] == releases;
    assert !Walkable(Release(title, None));
    assert (releases + [Release(title, None)])[|releases|] == Release(title, None);
  }
}
