/**
 The whole run (`main`): the catalog stage writes `songs` and `artists`;
 the activity stage reads them back and derives `users`, `time` and
 `songplays` from the activity log. Reading a written table back yields
 the rows that were written, so the read-back is the identity here.
 */
module Pipeline {
  import opened Schema
  import opened Relational
  import opened SongData
  import opened LogData

  datatype StarSchema = StarSchema(
    songs: seq<Song>,
    artists: seq<Artist>,
    users: seq<User>,
    time: seq<TimeRow>,
    songplays: seq<Songplay>)

  /** process_song_data followed by process_log_data. */
  function Run(catalog: seq<CatalogRecord>, log: seq<LogEvent>, conv: int -> Civil): (out: StarSchema)
    ensures |out.songs| == |catalog| && |out.artists| == |catalog|
    ensures NoDuplicates(out.users) && NoDuplicates(out.time)
    ensures forall i :: 0 <= i < |out.songplays| ==> out.songplays[i].songplay_id == i + 1
  {
    var dims := ProcessSongData(catalog);
    var facts := ProcessLogData(log, dims.songs, dims.artists, conv);
    StarSchema(dims.songs, dims.artists, facts.users, facts.time, facts.songplays)
  }

  /** A log event and two catalog records that produce the songplay
      columns `p`: e is a NextSong event, e.song = r1.title and
      e.artist = r2.artist_name; start_time comes from the conversion of
      e.ts, user_id, level, session_id and user_agent from e, song_id
      from r1, artist_id and location from r2. */
  predicate Produces(e: LogEvent, r1: CatalogRecord, r2: CatalogRecord, conv: int -> Civil, p: Play)
  {
    e.page == NextSong && e.song == r1.title && e.artist == r2.artist_name &&
    p == Play(conv(e.ts).timestamp, e.userId, e.level, r1.song_id, r2.artist_id,
              e.sessionId, r2.artist_location, e.userAgent)
  }

  lemma RowToSources(catalog: seq<CatalogRecord>, log: seq<LogEvent>, conv: int -> Civil, sp: Songplay)
    requires sp in Run(catalog, log, conv).songplays
    ensures exists e, r1, r2 :: e in log && r1 in catalog && r2 in catalog && Produces(e, r1, r2, conv, sp.play)
  {
    var songs := SongsTable(catalog);
    var artists := ArtistsTable(catalog);
    var stamped := Augment(NextSongs(log), conv);
    var t := Songplays(stamped, songs, artists);
    assert sp in t;
    var p := sp.play;
    SongplaysMember(stamped, songs, artists, p);
    var x, s, a :| x in stamped && s in songs && a in artists && Matches(x, s, a) && p == PlayOf(x, s, a);
    StampedMember(log, conv, x);
    SongsTableRows(catalog, s);
    ArtistsTableRows(catalog, a);
    var r1 :| r1 in catalog && r1.song_id == s.song_id && r1.title == s.title &&
              r1.artist_id == s.artist_id && r1.year == s.year && r1.duration == s.duration;
    var r2 :| r2 in catalog && r2.artist_id == a.artist_id && r2.artist_name == a.name &&
              r2.artist_location == a.location && r2.artist_latitude == a.latitude &&
              r2.artist_longitude == a.longitude;
    assert Produces(x.event, r1, r2, conv, p);
  }

  lemma SourcesToRow(catalog: seq<CatalogRecord>, log: seq<LogEvent>, conv: int -> Civil,
                     e: LogEvent, r1: CatalogRecord, r2: CatalogRecord, p: Play)
    requires e in log && r1 in catalog && r2 in catalog && Produces(e, r1, r2, conv, p)
    ensures exists sp :: sp in Run(catalog, log, conv).songplays && sp.play == p
  {
    var songs := SongsTable(catalog);
    var artists := ArtistsTable(catalog);
    var stamped := Augment(NextSongs(log), conv);
    var x := Stamped(e, conv(e.ts));
    StampedMember(log, conv, x);
    SongsTableRows(catalog, SongOf(r1));
    ArtistsTableRows(catalog, ArtistOf(r2));
    SongplaysMember(stamped, songs, artists, p);
    assert x in stamped && SongOf(r1) in songs && ArtistOf(r2) in artists;
    assert Matches(x, SongOf(r1), ArtistOf(r2)) && p == PlayOf(x, SongOf(r1), ArtistOf(r2));
    var sp :| sp in Songplays(stamped, songs, artists) && sp.play == p;
    assert sp in Run(catalog, log, conv).songplays;
  }

  /** End to end: a songplay row with columns `p` exists exactly when
      some log event and catalog records produce it. r1 and r2 need not
      be the same record nor share an artist_id. */
  lemma SongplaysFromSources(catalog: seq<CatalogRecord>, log: seq<LogEvent>, conv: int -> Civil, p: Play)
    ensures (exists sp :: sp in Run(catalog, log, conv).songplays && sp.play == p) <==>
            exists e, r1, r2 :: e in log && r1 in catalog && r2 in catalog && Produces(e, r1, r2, conv, p)
  {
    if exists sp :: sp in Run(catalog, log, conv).songplays && sp.play == p {
      var sp :| sp in Run(catalog, log, conv).songplays && sp.play == p;
      RowToSources(catalog, log, conv, sp);
    }
    if exists e, r1, r2 :: e in log && r1 in catalog && r2 in catalog && Produces(e, r1, r2, conv, p) {
      var e, r1, r2 :| e in log && r1 in catalog && r2 in catalog && Produces(e, r1, r2, conv, p);
      SourcesToRow(catalog, log, conv, e, r1, r2, p);
    }
  }

  /** The artist join is by name only: two catalog records that share an
      artist_name but not an artist_id both pair with a song of the first,
      so a songplay row can carry an artist_id other than its song's. */
  lemma ArtistMatchedByNameOnly(conv: int -> Civil)
    ensures var r1 := CatalogRecord("S1", "Song", "A1", 2000, 180.5, "Name", "L1", 0.0, 0.0);
            var r2 := CatalogRecord("S2", "Other", "A2", 2001, 200.0, "Name", "L2", 0.0, 0.0);
            var e := LogEvent("Name", "F", "M", "L", "free", "here", NextSong, 7, "Song", 1541990258796, "agent", "39");
            exists sp :: sp in Run([r1, r2], [e], conv).songplays &&
                         sp.play.song_id == r1.song_id && sp.play.artist_id == r2.artist_id
  {
    var r1 := CatalogRecord("S1", "Song", "A1", 2000, 180.5, "Name", "L1", 0.0, 0.0);
    var r2 := CatalogRecord("S2", "Other", "A2", 2001, 200.0, "Name", "L2", 0.0, 0.0);
    var e := LogEvent("Name", "F", "M", "L", "free", "here", NextSong, 7, "Song", 1541990258796, "agent", "39");
    var p := Play(conv(e.ts).timestamp, e.userId, e.level, r1.song_id, r2.artist_id,
                  e.sessionId, r2.artist_location, e.userAgent);
    assert Produces(e, r1, r2, conv, p);
    SourcesToRow([r1, r2], [e], conv, e, r1, r2, p);
  }
}
