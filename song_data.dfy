/**
 The catalog stage (`process_song_data`): the `songs` and `artists`
 dimension tables are two projections of the same staging records,
 neither filtered nor deduplicated, each ordered by its key.
 */
module SongData {
  import opened Schema
  import opened Relational

  /** SELECT song_id, title, artist_id, year, duration: the columns copied unchanged. */
  function SongOf(r: CatalogRecord): Song
  {
    Song(r.song_id, r.title, r.artist_id, r.year, r.duration)
  }

  /** SELECT artist_id, artist_name AS name, artist_location AS location,
      artist_latitude AS latitude, artist_longitude AS longitude. */
  function ArtistOf(r: CatalogRecord): Artist
  {
    Artist(r.artist_id, r.artist_name, r.artist_location, r.artist_latitude, r.artist_longitude)
  }

  /** The `songs` table: one row per staging record, ordered by song_id. */
  function SongsTable(staging: seq<CatalogRecord>): (t: seq<Song>)
    ensures multiset(t) == multiset(MapRows(staging, SongOf))
    ensures SortedBy(t, SongKey)
  {
    SortBy(MapRows(staging, SongOf), SongKey)
  }

  /** The `artists` table: one row per staging record, ordered by artist_id. */
  function ArtistsTable(staging: seq<CatalogRecord>): (t: seq<Artist>)
    ensures multiset(t) == multiset(MapRows(staging, ArtistOf))
    ensures SortedBy(t, ArtistKey)
  {
    SortBy(MapRows(staging, ArtistOf), ArtistKey)
  }

  datatype SongTables = SongTables(songs: seq<Song>, artists: seq<Artist>)

  /** Both tables of the catalog stage, from the same staging records. */
  function ProcessSongData(staging: seq<CatalogRecord>): (out: SongTables)
    ensures |out.songs| == |staging| && |out.artists| == |staging|
    ensures SortedBy(out.songs, SongKey) && SortedBy(out.artists, ArtistKey)
  {
    var songs := SongsTable(staging);
    var artists := ArtistsTable(staging);
    assert |multiset(songs)| == |staging| && |multiset(artists)| == |staging|;
    SongTables(songs, artists)
  }

  /** A row is in the songs table exactly when some staging record
      carries those five values, and the table has one row per record. */
  lemma SongsTableRows(staging: seq<CatalogRecord>, row: Song)
    ensures |SongsTable(staging)| == |staging|
    ensures row in SongsTable(staging) <==>
            exists r :: r in staging && r.song_id == row.song_id && r.title == row.title &&
                        r.artist_id == row.artist_id && r.year == row.year && r.duration == row.duration
  {
    var t := SongsTable(staging);
    assert |multiset(t)| == |staging|;
    assert row in t <==> row in multiset(MapRows(staging, SongOf));
    MapRowsMember(staging, SongOf, row);
  }

  /** No deduplication: a song row occurs as many times as staging
      records project to it. */
  lemma SongsMultiplicity(staging: seq<CatalogRecord>, row: Song)
    ensures multiset(SongsTable(staging))[row] == Occurrences(staging, SongOf, row)
  {
    MapRowsMultiplicity(staging, SongOf, row);
  }

  /** A row is in the artists table exactly when some staging record
      carries its values under the artist_* column names. */
  lemma ArtistsTableRows(staging: seq<CatalogRecord>, row: Artist)
    ensures |ArtistsTable(staging)| == |staging|
    ensures row in ArtistsTable(staging) <==>
            exists r :: r in staging && r.artist_id == row.artist_id && r.artist_name == row.name &&
                        r.artist_location == row.location && r.artist_latitude == row.latitude &&
                        r.artist_longitude == row.longitude
  {
    var t := ArtistsTable(staging);
    assert |multiset(t)| == |staging|;
    assert row in t <==> row in multiset(MapRows(staging, ArtistOf));
    MapRowsMember(staging, ArtistOf, row);
  }

  /** No deduplication: an artist named on k staging records (with the
      same artist columns) occurs k times. */
  lemma ArtistsMultiplicity(staging: seq<CatalogRecord>, row: Artist)
    ensures multiset(ArtistsTable(staging))[row] == Occurrences(staging, ArtistOf, row)
  {
    MapRowsMultiplicity(staging, ArtistOf, row);
  }
}
