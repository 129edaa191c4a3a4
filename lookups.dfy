/** The lookup data of the pipeline: the studio-album allow-list, the two
    song-title harmonisation tables and the bonus-track exclusion keywords.
    The source repeats each table literally in every file that uses it; the
    copies are identical, so each is declared once here. */
module Lookups {
  import opened Frames

  /** The studio albums, spelled as the release feed spells them (note
      "The Number Of The Beast"). Membership is case-sensitive. */
  const StudioAlbums: seq<string> := [
    "Iron Maiden",
    "Killers",
    "The Number Of The Beast",
    "Piece of Mind",
    "Powerslave",
    "Somewhere in Time",
    "Seventh Son of a Seventh Son",
    "No Prayer for the Dying",
    "Fear of the Dark",
    "The X Factor",
    "Virtual XI",
    "Brave New World",
    "Dance of Death",
    "A Matter of Life and Death",
    "The Final Frontier",
    "The Book of Souls",
    "Senjutsu"
  ]

  /** Track titles of the release feed rewritten into the setlist feed's
      spelling (typographic apostrophe and ellipsis, capitalisation). */
  const AlbumSongNames: map<string, string> := map[
    "Blood on the World\U{2019}s Hands" := "Blood on the World's Hands",
    "Bring Your Daughter\U{2026} to the Slaughter" := "Bring Your Daughter... to the Slaughter",
    "Children Of The Damned" := "Children of the Damned",
    "Run To The Hills" := "Run to the Hills",
    "The Number Of The Beast" := "The Number of the Beast"
  ]

  /** Variant titles of intros and covers in the setlist feed, each mapped
      to one canonical title. */
  const SetlistSongNames: map<string, string> := map[
    "633 Squadron" := "\"633 Squadron\" Theme",
    "633 Squadron Theme" := "\"633 Squadron\" Theme",
    "Intro - \"633 Squadron\" theme" := "\"633 Squadron\" Theme",
    "Intro - 633 Squadron music" := "\"633 Squadron\" Theme",
    "Theme from \"633 Squadron\"" := "\"633 Squadron\" Theme",
    "Always Look on the Bright Side" := "Always Look on the Bright Side of Life",
    "Blade Runner" := "Blade Runner (End Titles)",
    "Blade Runner (end titles)" := "Blade Runner (End Titles)",
    "Blade Runner Intro" := "Blade Runner (End Titles)",
    "Blade Runner Soundtrack" := "Blade Runner (End Titles)",
    "Bladerunner Theme" := "Blade Runner (End Titles)",
    "Churchill Speech" := "Churchill's Speech",
    "Churchill\U{2019}s Speech" := "Churchill's Speech",
    "Intro - Churchill's Speech" := "Churchill's Speech",
    "Intro: Churchill's Speech" := "Churchill's Speech",
    "Intro - Main Title from the movie \"Where Eagles Dare\"" := "\"Main Title\" from \"Where Eagles Dare\"",
    "Where Eagles Dare Main Theme" := "\"Main Title\" from \"Where Eagles Dare\"",
    "Where Eagles Dare Theme" := "\"Main Title\" from \"Where Eagles Dare\"",
    "Mars, The Bringer of War" := "Mars, the Bringer of War"
  ]

  /** Substrings marking bonus material rather than a studio track. They are
      joined into one regular expression, so the `.` of "5.1" is a wildcard. */
  const DeleteKeywords: seq<string> := [
    "making of",
    "video",
    "studio performance",
    "photo",
    "5.1",
    "remaster",
    "live",
    "'88"
  ]

  /** No canonical album-track title is itself a variant, so harmonising
      an album table a second time changes nothing. */
  lemma AlbumSongNamesHaveNoChains()
    ensures NoChains(AlbumSongNames)
    ensures |AlbumSongNames| == 5
  {
  }

  /** No canonical setlist title is itself a variant, so harmonising a
      setlist table a second time changes nothing. */
  lemma SetlistSongNamesHaveNoChains()
    ensures NoChains(SetlistSongNames)
  {
  }
}
