/**
 The rows of the two staging inputs and of the five star-schema tables.
 Column names follow the tables' own column names; SQL NULL is not
 modelled, so every column holds a value.
 */
module Schema {

  /** One raw catalog record (the `staging_songs` view), restricted to
      the columns the queries read. */
  datatype CatalogRecord = CatalogRecord(
    song_id: string,
    title: string,
    artist_id: string,
    year: int,
    duration: real,
    artist_name: string,
    artist_location: string,
    artist_latitude: real,
    artist_longitude: real)

  /** One raw activity-log record (the `staging_events` view), restricted
      to the columns the queries read, plus `location`: no query reads it,
      and it is kept to show that `songplays.location` is the artist's
      location and not the listener's. The column types are those the JSON
      reader infers from the log files: `userId` is text (so `users` sorts
      by user_id as strings), `sessionId` and `ts` are integers. */
  datatype LogEvent = LogEvent(
    artist: string,
    firstName: string,
    gender: string,
    lastName: string,
    level: string,
    location: string,
    page: string,
    sessionId: int,
    song: string,
    ts: int,
    userAgent: string,
    userId: string)

  /** Everything derived from one epoch-millisecond `ts` by one clock
      conversion: the `timestamp` column (the conversion's value as text),
      the `datetime` column (formatted 'YYYY-mm-dd HH:MM:SS') and the
      calendar fields Spark extracts from `timestamp`. */
  datatype Civil = Civil(
    timestamp: string,
    datetime: string,
    hour: int,
    day: int,
    week: int,
    month: int,
    year: int,
    weekday: int)

  /** A NextSong event with the `timestamp` and `datetime` columns added. */
  datatype Stamped = Stamped(event: LogEvent, at: Civil)

  /** Row of the `songs` dimension table. */
  datatype Song = Song(song_id: string, title: string, artist_id: string, year: int, duration: real)

  /** Row of the `artists` dimension table. */
  datatype Artist = Artist(artist_id: string, name: string, location: string, latitude: real, longitude: real)

  /** Row of the `users` dimension table. */
  datatype User = User(user_id: string, first_name: string, last_name: string, gender: string, level: string)

  /** Row of the `time` dimension table. */
  datatype TimeRow = TimeRow(
    start_time: string,
    hour: int,
    day: int,
    week: int,
    month: int,
    year: int,
    weekday: int)

  /** The eight projected columns of one joined (event, song, artist) triple. */
  datatype Play = Play(
    start_time: string,
    user_id: string,
    level: string,
    song_id: string,
    artist_id: string,
    session_id: int,
    location: string,
    user_agent: string)

  /** Row of the `songplays` fact table: the projected columns followed by
      the generated `songplay_id`. */
  datatype Songplay = Songplay(play: Play, songplay_id: int)

  /** Sort keys of the ORDER BY clauses. */
  function SongKey(s: Song): string { s.song_id }
  function ArtistKey(a: Artist): string { a.artist_id }
  function UserKey(u: User): string { u.user_id }
  function TimeKey(t: TimeRow): string { t.start_time }
  function PlaySongKey(p: Play): string { p.song_id }
}
