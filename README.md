# Star-schema ETL for a music-streaming data lake, modelled in Dafny

The ETL job `etl.py` reads two raw feeds. The first is song-catalog
records (`staging_songs`). The second is user-activity log events
(`staging_events`). From them it builds five tables of a star schema:

- the `songs`, `artists`, `users` and `time` dimension tables;
- the `songplays` fact table.

Each table is one declarative Spark SQL or DataFrame query: projection,
selection, `DISTINCT`, inner join, `ORDER BY`, and `row_number()` over a
window. This project writes those queries as pure Dafny functions over
sequences of row datatypes and proves what each query guarantees.

- `relational.dfy` (module `Relational`) holds the operators the queries
  are built from:
  - the character-by-character string order Spark uses for `ORDER BY`;
  - `SortBy` (ORDER BY, as an insertion sort proved sorted and a permutation);
  - `Distinct` and `DistinctSorted` (SELECT DISTINCT);
  - `MapRows` (the column list of a SELECT).
- `schema.dfy` (module `Schema`) defines the staging records, the five
  table rows and `Civil`, which holds everything derived from one `ts`.
- `song_data.dfy` (module `SongData`) is `process_song_data`, which
  builds the `songs` and `artists` tables.
- `log_data.dfy` (module `LogData`) is `process_log_data`:
  - the `page = 'NextSong'` filter;
  - `users`, read from the unfiltered events;
  - the `timestamp`/`datetime` columns;
  - `time`;
  - the two-way join, projection and `row_number()` for `songplays`.
- `pipeline.dfy` (module `Pipeline`) is `main`: the catalog stage, then the
  activity stage. The activity stage reads back the songs and artists tables
  that the catalog stage wrote.

How the code's behaviour is modelled:

- **Users come from all events.** The users query reads the
  `staging_events` view. That view is registered before the NextSong
  filter; the filter only rebinds the Python variable. So a user seen
  only on a non-NextSong page still gets a row.
- **Songplay ids follow `song_id`.** `songplay_id` is `row_number()` over
  a window ordered by `song_id`. It is not ordered by play time.
- **The joins compare strings.** They match `event.song = title` and
  `event.artist = name`. Nothing compares the song's `artist_id` with the
  artist's.
- **Ties are left open.** Rows with equal sort keys (songs with one
  `song_id`, plays of one song) can come out in any order. The model's sort
  happens to be stable. The contracts about one run do not depend on how
  ties are ordered; `LogData.NonPlayEvent`, which compares two runs, does
  (see "## Left out").
- **The clock conversion is a parameter.** Every function that needs it
  takes `conv: int -> Civil`. For one `ts` in milliseconds, `conv` returns:
  - the `timestamp` column, i.e. the text of the converted value;
  - the `datetime` column;
  - the hour, day, week, month, year and weekday that Spark extracts.

  One conversion of one `ts` gives all of these fields. That is all this
  model says about time.

The `timestamp` column is text. Its user-defined function (etl.py:100-101)
declares no return type, so Spark's default string type applies. The
songplays `start_time` is therefore that text.

## Model

| member | source | states |
|---|---|---|
| `Relational.SortBy` | etl.py:46 | ORDER BY: the result holds the same rows with the same multiplicities (a permutation), in non-decreasing key order |
| `Relational.Distinct` | etl.py:89 | SELECT DISTINCT: no row twice, and a row is in the result iff it is in the input |
| `Relational.DistinctSorted` | etl.py:110-114 | DISTINCT ... ORDER BY: duplicate-free, same set of rows as the input, sorted by the key |
| `Relational.MapRowsMultiplicity` | etl.py:44 | a projection keeps one output row per input row: each value occurs as often as input rows project to it |
| `Relational.StrLeTotal` | etl.py:46 | the string order used by ORDER BY is total (any two keys are comparable) |
| `Relational.StrLeTransitive` | etl.py:46 | the string order used by ORDER BY is transitive |
| `SongData.SongsTable` | etl.py:43-47 | songs is a permutation of the per-record projection (song_id, title, artist_id, year, duration), sorted by song_id |
| `SongData.SongsTableRows` | etl.py:43-47 | one row per catalog record (length equals input length); a row is present iff some record carries exactly those five values unchanged |
| `SongData.SongsMultiplicity` | etl.py:43-47 | no deduplication: a songs row occurs as many times as catalog records project to it |
| `SongData.ArtistsTable` | etl.py:54-59 | artists is a permutation of the per-record renamed projection, sorted by artist_id |
| `SongData.ArtistsTableRows` | etl.py:54-59 | one row per catalog record; a row is present iff some record has artist_id and artist_name/location/latitude/longitude equal to its artist_id/name/location/latitude/longitude |
| `SongData.ArtistsMultiplicity` | etl.py:54-59 | no deduplication: an artist appearing on k catalog records (same artist columns) occurs k times |
| `SongData.ProcessSongData` | etl.py:25-63 | both tables have exactly one row per staging record and are sorted by their keys |
| `LogData.NextSongs` | etl.py:85 | every event of the filtered stream has page NextSong |
| `LogData.NextSongsMultiplicity` | etl.py:85 | the filter keeps each NextSong event with its input multiplicity and no other event |
| `LogData.NextSongsAppend` | etl.py:85 | the filter preserves relative order: filtering a concatenation concatenates the filtered parts |
| `LogData.NextSongsMember` | etl.py:85 | an event is kept iff it is an input event whose page is NextSong |
| `LogData.UsersTable` | etl.py:84-93 | users (from the unfiltered view) has no duplicate rows, is sorted by user_id, and holds a row iff some event of any page projects to (userId, firstName, lastName, gender, level) |
| `LogData.UserLevelChange` | etl.py:88-92 | a user seen with two levels yields two distinct rows with the same user_id |
| `LogData.TimeTable` | etl.py:109-115 | time has no duplicate rows, is sorted by start_time, and holds a row iff some stamped event yields it |
| `LogData.TimeRowsFromEvents` | etl.py:99-115 | a time row exists iff some NextSong event's single conversion of its ts gives start_time (the datetime text) and all six calendar fields |
| `LogData.Augment` | etl.py:99-105 | the stamped stream has one row per filtered event, in order; row i is event i with `timestamp` and `datetime` both from the one conversion of event i's `ts` |
| `LogData.Number` | etl.py:139 | row_number(): one output row per input row, in order, the i-th carrying the input row unchanged and id i + 1 (density of the ids is SongplayIds) |
| `LogData.JoinMember` | etl.py:128-138 | a projected row comes out of the two inner joins iff some (event, song, artist) triple has song = title and artist = name and projects to it |
| `LogData.Join` | etl.py:128-138 | the two inner joins with the projection; its row count is the sum over events of (#songs with that title) x (#artists with that name) |
| `LogData.JoinDrop` | etl.py:128-129 | events matching no song or no artist are dropped; join rows plus dropped events is at least the event count, with equality when titles and names are unique |
| `LogData.Songplays` | etl.py:124-139 | songplays' projected rows are a permutation of the join; the row at position i has id i + 1; song_id is non-decreasing in id order |
| `LogData.SongplayIds` | etl.py:139 | the songplay_id values of N rows are exactly {1..N}, pairwise distinct |
| `LogData.SongplaysMember` | etl.py:128-138 | a songplays row with given columns exists iff some (event, song, artist) triple with song = title and artist = name projects to it: start_time from the event's timestamp; user_id, level, session_id, user_agent from the event; song_id from the song; artist_id, location from the artist |
| `LogData.SongplaysCount` | etl.py:128-139 | the songplays row count equals the join size (sum of title-count x name-count products) |
| `LogData.ProcessLogData` | etl.py:66-143 | users and time are duplicate-free and sorted by their keys; songplay ids are 1..N in row order |
| `LogData.NonPlayEvent` | etl.py:84-91 | adding a non-NextSong event leaves time and songplays unchanged (songplays under the model's fixed order of ties) but puts its user in users |
| `Pipeline.Run` | etl.py:146-157 | after both stages, songs and artists have one row per catalog record, users and time are duplicate-free, songplay ids are 1..N |
| `LogData.StampedMember` | etl.py:85-105 | the stamped stream holds exactly the NextSong events, each with the conversion of its own ts |
| `Pipeline.SongplaysFromSources` | etl.py:122-138 | end to end: a songplay row exists iff some NextSong log event e and catalog records r1, r2 have e.song = r1.title and e.artist = r2.artist_name, with every column taken from e, conv(e.ts), r1 or r2 as projected |
| `Pipeline.ArtistMatchedByNameOnly` | etl.py:129 | two catalog records sharing an artist name but not an artist_id: a song of one is paired with the other's artist_id |

## Left out

- Spark session construction, the `dl.cfg` configuration read and the AWS
  credential environment variables (etl.py:10-22, 146-157). They are
  bootstrap with no logic; `Pipeline.Run` models only the order of the two
  stages.
- Reading JSON input (etl.py:39, 81). The staging records are the inputs
  of the functions.
- Writing parquet (etl.py:51, 63, 97, 119, 143). This covers overwrite
  mode and the `partitionBy` layouts: songs by year and artist_id, time by
  year and month. These are on-disk layout, not row content.
- Re-reading songs and artists from parquet (etl.py:122-123). It is the
  identity on the rows written.
- The concrete time conversion (etl.py:100-104, 110-112), which uses
  floating-point division by 1000, the machine's local time zone, `strftime`
  and Spark's `hour`/`day`/`weekofyear`/`month`/`year`/`dayofweek`. It is
  the parameter `conv`; only "all fields from one conversion of one `ts`"
  is modelled.
- Whether the calendar columns of `time` are defined at all. The
  `timestamp` text is what Spark stores for a Python `datetime` returned
  by an untyped user-defined function. If that text does not parse as a
  timestamp, `hour`, `day`, `week`, `month`, `year` and `weekday` are NULL
  on every row of the real run. The model's integer fields cannot
  represent that.
- The column types of the log events. The JSON reader infers them from the
  data, not from etl.py. The model takes `userId` to be text, which
  is what the log files hold. So `ORDER BY user_id` sorts `users`
  as strings, and "10" comes before "2". That ordering is an assumption
  about the input.
- SQL NULL. Every column holds a value, so the NULL cases are not covered:
  a null `song`, `artist` or `page` never matching, and NULLs sorting first.
- Columns the queries never read. For log events these are `auth`,
  `itemInSession`, `length`, `method`, `registration` and `status`; for
  catalog records, `num_songs`. The `SELECT *` filter, the `withColumn`
  steps and the join carry them along, but no output table contains them:
  the column lists of the output queries (etl.py:88-90, 110-112, 130-138)
  drop them.
- `LogData.NonPlayEvent`: its `songplays` equality holds only up to
  renumbering among rows with equal `song_id`. The model's sort fixes the
  order of ties, but `row_number()` over a window ordered by `song_id` alone
  (etl.py:124, 139) does not. Two runs of the program may hand the ids of
  plays of one song out in different orders, even on the same input. What
  holds for the program is the equality of the projected rows as a
  multiset, with ids 1..N (`LogData.Songplays`, `LogData.SongplayIds`).
- Distributed execution and partition-level ordering. The order among rows
  with equal sort keys is not specified, and no contract states it.
- Column order inside a row. Rows are records with named fields. The
  `songplays` row puts `songplay_id` after the eight projected columns, as
  `withColumn` does.
