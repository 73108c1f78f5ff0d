/**
 The activity stage (`process_log_data`): the NextSong filter, the
 `users` table (from the unfiltered events), the timestamp columns, the
 `time` table and the `songplays` fact table with its row_number key.
 */
module LogData {
  import opened Schema
  import opened Relational

  /** The page value that marks a completed play. */
  const NextSong: string := "NextSong"

  /** SELECT * FROM staging_events WHERE page = 'NextSong'. */
  function NextSongs(events: seq<LogEvent>): (r: seq<LogEvent>)
    ensures forall i :: 0 <= i < |r| ==> r[i].page == NextSong
    decreases |events|
  {
    if events == [] then []
    else
      (if events[0].page == NextSong then [events[0]] else []) + NextSongs(events[1..])
  }

  lemma NextSongsCons(e: LogEvent, s: seq<LogEvent>)
    ensures NextSongs([e] + s) == (if e.page == NextSong then [e] else []) + NextSongs(s)
  {
    assert ([e] + s)[0] == e && ([e] + s)[1..] == s;
  }

  /** The filter keeps the events' relative order: filtering a
      concatenation concatenates the filtered parts. */
  lemma {:induction false} NextSongsAppend(a: seq<LogEvent>, b: seq<LogEvent>)
    ensures NextSongs(a + b) == NextSongs(a) + NextSongs(b)
    decreases |a|
  {
    if a == [] {
      assert a + b == b;
    } else {
      var e, rest := a[0], a[1..];
      assert a == [e] + rest;
      assert a + b == [e] + (rest + b);
      NextSongsAppend(rest, b);
      NextSongsCons(e, rest);
      NextSongsCons(e, rest + b);
    }
  }

  /** The filter keeps each NextSong event with its multiplicity in the
      input and drops every other event. */
  lemma {:induction false} NextSongsMultiplicity(events: seq<LogEvent>, e: LogEvent)
    ensures multiset(NextSongs(events))[e] == if e.page == NextSong then multiset(events)[e] else 0
    decreases |events|
  {
    if events != [] {
      NextSongsMultiplicity(events[1..], e);
      NextSongsCons(events[0], events[1..]);
      assert events == [events[0]] + events[1..];
    }
  }

  /** An event is kept exactly when it is a NextSong event. */
  lemma NextSongsMember(events: seq<LogEvent>, e: LogEvent)
    ensures e in NextSongs(events) <==> e in events && e.page == NextSong
  {
    NextSongsMultiplicity(events, e);
  }

  /** SELECT userId AS user_id, firstName AS first_name, lastName AS last_name, gender, level. */
  function UserOf(e: LogEvent): User
  {
    User(e.userId, e.firstName, e.lastName, e.gender, e.level)
  }

  /** The `users` table: SELECT DISTINCT ... ORDER BY user_id over
      `staging_events` as registered before the NextSong filter, so it
      reads every event whatever its page. */
  function UsersTable(staging: seq<LogEvent>): (t: seq<User>)
    ensures NoDuplicates(t)
    ensures SortedBy(t, UserKey)
    ensures forall u :: u in t <==> exists e :: e in staging && UserOf(e) == u
  {
    var t := DistinctSorted(MapRows(staging, UserOf), UserKey);
    forall u ensures u in t <==> exists e :: e in staging && UserOf(e) == u {
      MapRowsMember(staging, UserOf, u);
    }
    t
  }

  /** Distinctness is over the whole row: one user seen with two levels
      has two rows, both with that user_id. */
  lemma UserLevelChange(staging: seq<LogEvent>, e1: LogEvent, e2: LogEvent)
    requires e1 in staging && e2 in staging
    requires e1.userId == e2.userId && e1.level != e2.level
    ensures exists i, j :: 0 <= i < j < |UsersTable(staging)| &&
              UsersTable(staging)[i].user_id == e1.userId && UsersTable(staging)[j].user_id == e1.userId &&
              UsersTable(staging)[i].level != UsersTable(staging)[j].level
  {
    var t := UsersTable(staging);
    assert UserOf(e1) in t && UserOf(e2) in t;
    var i :| 0 <= i < |t| && t[i] == UserOf(e1);
    var j :| 0 <= j < |t| && t[j] == UserOf(e2);
    if i < j {
      assert t[i].level != t[j].level;
    } else {
      assert j < i && t[j].level != t[i].level;
    }
  }

  /** The `timestamp` and `datetime` columns added to each NextSong event,
      both from one conversion of that event's `ts`. */
  function Augment(events: seq<LogEvent>, conv: int -> Civil): (r: seq<Stamped>)
    ensures |r| == |events|
    ensures forall i :: 0 <= i < |r| ==> r[i].event == events[i] && r[i].at == conv(events[i].ts)
  {
    MapRows(events, (e: LogEvent) => Stamped(e, conv(e.ts)))
  }

  /** SELECT datetime AS start_time, hour(timestamp), day(timestamp), ... */
  function TimeRowOf(x: Stamped): TimeRow
  {
    TimeRow(x.at.datetime, x.at.hour, x.at.day, x.at.week, x.at.month, x.at.year, x.at.weekday)
  }

  /** The `time` table: SELECT DISTINCT ... ORDER BY start_time over the
      stamped NextSong events. */
  function TimeTable(stamped: seq<Stamped>): (t: seq<TimeRow>)
    ensures NoDuplicates(t)
    ensures SortedBy(t, TimeKey)
    ensures forall row :: row in t <==> exists x :: x in stamped && TimeRowOf(x) == row
  {
    var t := DistinctSorted(MapRows(stamped, TimeRowOf), TimeKey);
    forall row ensures row in t <==> exists x :: x in stamped && TimeRowOf(x) == row {
      MapRowsMember(stamped, TimeRowOf, row);
    }
    t
  }

  /** The join condition: event.song = s.title and event.artist = a.name.
      Nothing relates the song's artist_id to the artist's. */
  predicate Matches(x: Stamped, s: Song, a: Artist)
  {
    x.event.song == s.title && x.event.artist == a.name
  }

  /** The projection of one joined triple. */
  function PlayOf(x: Stamped, s: Song, a: Artist): Play
  {
    Play(x.at.timestamp, x.event.userId, x.event.level, s.song_id, a.artist_id,
         x.event.sessionId, a.location, x.event.userAgent)
  }

  /** The artists whose name equals the event's artist, joined to one (event, song) pair. */
  function JoinArtists(x: Stamped, s: Song, artists: seq<Artist>): seq<Play>
    decreases |artists|
  {
    if artists == [] then []
    else (if x.event.artist == artists[0].name then [PlayOf(x, s, artists[0])] else [])
         + JoinArtists(x, s, artists[1..])
  }

  /** The songs whose title equals the event's song, each joined to the matching artists. */
  function JoinSongs(x: Stamped, songs: seq<Song>, artists: seq<Artist>): seq<Play>
    decreases |songs|
  {
    if songs == [] then []
    else (if x.event.song == songs[0].title then JoinArtists(x, songs[0], artists) else [])
         + JoinSongs(x, songs[1..], artists)
  }

  /** stamped JOIN songs ON song = title JOIN artists ON artist = name,
      projected to the eight songplay columns. Its row count: each event
      contributes (#songs with its title) x (#artists with its name) rows,
      so an event matching no song or no artist contributes none. */
  function Join(stamped: seq<Stamped>, songs: seq<Song>, artists: seq<Artist>): (r: seq<Play>)
    ensures |r| == JoinSize(stamped, songs, artists)
    decreases |stamped|
  {
    if stamped == [] then []
    else
      JoinSongsCount(stamped[0], songs, artists);
      JoinSongs(stamped[0], songs, artists) + Join(stamped[1..], songs, artists)
  }

  lemma {:induction false} JoinArtistsMember(x: Stamped, s: Song, artists: seq<Artist>, p: Play)
    ensures p in JoinArtists(x, s, artists) <==>
            exists a :: a in artists && x.event.artist == a.name && p == PlayOf(x, s, a)
    decreases |artists|
  {
    if artists != [] {
      JoinArtistsMember(x, s, artists[1..], p);
      assert forall a :: a in artists <==> a == artists[0] || a in artists[1..];
    }
  }

  lemma {:induction false} JoinSongsMember(x: Stamped, songs: seq<Song>, artists: seq<Artist>, p: Play)
    ensures p in JoinSongs(x, songs, artists) <==>
            exists s, a :: s in songs && a in artists && Matches(x, s, a) && p == PlayOf(x, s, a)
    decreases |songs|
  {
    if songs != [] {
      JoinSongsMember(x, songs[1..], artists, p);
      JoinArtistsMember(x, songs[0], artists, p);
      assert forall s :: s in songs <==> s == songs[0] || s in songs[1..];
    }
  }

  /** Only and all matching triples: a projected row comes out of the join
      exactly when some event, song row and artist row satisfy both join
      conditions and project to it. */
  lemma {:induction false} JoinMember(stamped: seq<Stamped>, songs: seq<Song>, artists: seq<Artist>, p: Play)
    ensures p in Join(stamped, songs, artists) <==>
            exists x, s, a :: x in stamped && s in songs && a in artists && Matches(x, s, a) && p == PlayOf(x, s, a)
    decreases |stamped|
  {
    if stamped != [] {
      JoinMember(stamped[1..], songs, artists, p);
      JoinSongsMember(stamped[0], songs, artists, p);
      assert forall x :: x in stamped <==> x == stamped[0] || x in stamped[1..];
    }
  }

  function TitleOf(s: Song): string { s.title }
  function NameOf(a: Artist): string { a.name }

  /** How many song rows have this title. */
  function TitleCount(songs: seq<Song>, title: string): nat
  {
    Occurrences(songs, TitleOf, title)
  }

  /** How many artist rows have this name. */
  function NameCount(artists: seq<Artist>, name: string): nat
  {
    Occurrences(artists, NameOf, name)
  }

  /** The sum over the events of (#songs with the event's title) x (#artists with the event's name). */
  function JoinSize(stamped: seq<Stamped>, songs: seq<Song>, artists: seq<Artist>): nat
    decreases |stamped|
  {
    if stamped == [] then 0
    else TitleCount(songs, stamped[0].event.song) * NameCount(artists, stamped[0].event.artist)
         + JoinSize(stamped[1..], songs, artists)
  }

  lemma {:induction false} JoinArtistsCount(x: Stamped, s: Song, artists: seq<Artist>)
    ensures |JoinArtists(x, s, artists)| == NameCount(artists, x.event.artist)
    decreases |artists|
  {
    if artists != [] {
      JoinArtistsCount(x, s, artists[1..]);
    }
  }

  lemma MulSucc(c: nat, n: nat)
    ensures (1 + c) * n == n + c * n
  {
  }

  lemma {:induction false} JoinSongsCount(x: Stamped, songs: seq<Song>, artists: seq<Artist>)
    ensures |JoinSongs(x, songs, artists)| == TitleCount(songs, x.event.song) * NameCount(artists, x.event.artist)
    decreases |songs|
  {
    if songs != [] {
      var n := NameCount(artists, x.event.artist);
      var c := TitleCount(songs[1..], x.event.song);
      var head := if x.event.song == songs[0].title then JoinArtists(x, songs[0], artists) else [];
      assert JoinSongs(x, songs, artists) == head + JoinSongs(x, songs[1..], artists);
      JoinSongsCount(x, songs[1..], artists);
      if x.event.song == songs[0].title {
        JoinArtistsCount(x, songs[0], artists);
        MulSucc(c, n);
      }
    }
  }

  /** Events that find no song with their title or no artist with their name. */
  function Dropped(stamped: seq<Stamped>, songs: seq<Song>, artists: seq<Artist>): nat
    decreases |stamped|
  {
    if stamped == [] then 0
    else (if TitleCount(songs, stamped[0].event.song) == 0 || NameCount(artists, stamped[0].event.artist) == 0
          then 1 else 0)
         + Dropped(stamped[1..], songs, artists)
  }

  /** One event's share of the drop count: a matched event yields at
      least one row, and exactly one when its title and name are unique. */
  lemma EventShare(t: nat, n: nat)
    ensures t * n + (if t == 0 || n == 0 then 1 else 0) >= 1
    ensures t <= 1 && n <= 1 ==> t * n + (if t == 0 || n == 0 then 1 else 0) == 1
  {
    if t > 0 && n > 0 {
      assert t * n >= 1 * n;
    }
  }

  /** Every event's title names at most one song row and its artist at most one artist row. */
  predicate UniqueMatches(stamped: seq<Stamped>, songs: seq<Song>, artists: seq<Artist>)
  {
    forall i :: 0 <= i < |stamped| ==>
      TitleCount(songs, stamped[i].event.song) <= 1 && NameCount(artists, stamped[i].event.artist) <= 1
  }

  lemma {:induction false} JoinSizeDrop(stamped: seq<Stamped>, songs: seq<Song>, artists: seq<Artist>)
    ensures JoinSize(stamped, songs, artists) + Dropped(stamped, songs, artists) >= |stamped|
    ensures UniqueMatches(stamped, songs, artists) ==>
            JoinSize(stamped, songs, artists) + Dropped(stamped, songs, artists) == |stamped|
    decreases |stamped|
  {
    if stamped != [] {
      JoinSizeDrop(stamped[1..], songs, artists);
      EventShare(TitleCount(songs, stamped[0].event.song), NameCount(artists, stamped[0].event.artist));
      if UniqueMatches(stamped, songs, artists) {
        assert UniqueMatches(stamped[1..], songs, artists) by {
          forall i | 0 <= i < |stamped| - 1
            ensures TitleCount(songs, stamped[1..][i].event.song) <= 1 &&
                    NameCount(artists, stamped[1..][i].event.artist) <= 1
          {
            assert stamped[1..][i] == stamped[i + 1];
          }
        }
      }
    }
  }

  /** Join drop: every event that is not dropped yields at least one row,
      and when titles and names identify at most one row each, the row
      count is exactly the number of events minus the dropped ones. */
  lemma JoinDrop(stamped: seq<Stamped>, songs: seq<Song>, artists: seq<Artist>)
    ensures |Join(stamped, songs, artists)| + Dropped(stamped, songs, artists) >= |stamped|
    ensures UniqueMatches(stamped, songs, artists) ==>
            |Join(stamped, songs, artists)| + Dropped(stamped, songs, artists) == |stamped|
  {
    JoinSizeDrop(stamped, songs, artists);
  }

  /** row_number() over the rows in their given order: the i-th row gets id i + 1. */
  function Number(plays: seq<Play>): (r: seq<Songplay>)
    ensures |r| == |plays|
    ensures forall i :: 0 <= i < |r| ==> r[i].play == plays[i] && r[i].songplay_id == i + 1
  {
    seq(|plays|, i requires 0 <= i < |plays| => Songplay(plays[i], i + 1))
  }

  function PlayPart(sp: Songplay): Play { sp.play }

  /** The `songplays` table: the join, ordered by song_id, numbered by row_number(). */
  function Songplays(stamped: seq<Stamped>, songs: seq<Song>, artists: seq<Artist>): (t: seq<Songplay>)
    ensures multiset(MapRows(t, PlayPart)) == multiset(Join(stamped, songs, artists))
    ensures forall i :: 0 <= i < |t| ==> t[i].songplay_id == i + 1
    ensures forall i, j :: 0 <= i < j < |t| ==> StrLe(t[i].play.song_id, t[j].play.song_id)
  {
    var sorted := SortBy(Join(stamped, songs, artists), PlaySongKey);
    var t := Number(sorted);
    assert MapRows(t, PlayPart) == sorted;
    t
  }

  /** The integers 1..n. */
  function IdRange(n: nat): (r: set<int>)
    ensures forall k :: k in r <==> 1 <= k <= n
  {
    if n == 0 then {} else IdRange(n - 1) + {n}
  }

  /** Rows numbered 1, 2, ... in order carry exactly the ids 1..N, each once. */
  lemma DenseIds(t: seq<Songplay>)
    requires forall i :: 0 <= i < |t| ==> t[i].songplay_id == i + 1
    ensures (set sp | sp in t :: sp.songplay_id) == IdRange(|t|)
    ensures forall i, j :: 0 <= i < j < |t| ==> t[i].songplay_id != t[j].songplay_id
  {
    var ids := set sp | sp in t :: sp.songplay_id;
    forall k | k in IdRange(|t|) ensures k in ids {
      assert t[k - 1] in t;
    }
    forall k | k in ids ensures k in IdRange(|t|) {
      var sp :| sp in t && sp.songplay_id == k;
    }
  }

  /** Surrogate-key density: the songplay_id values of N rows are exactly
      1..N, each used once. */
  lemma SongplayIds(stamped: seq<Stamped>, songs: seq<Song>, artists: seq<Artist>)
    ensures var t := Songplays(stamped, songs, artists);
            (set sp | sp in t :: sp.songplay_id) == IdRange(|t|) &&
            forall i, j :: 0 <= i < j < |t| ==> t[i].songplay_id != t[j].songplay_id
  {
    DenseIds(Songplays(stamped, songs, artists));
  }

  /** Songplay membership and projection: a row with these eight columns
      is in `songplays` exactly when some stamped event, song row and
      artist row satisfy both join conditions and project to it (PlayOf:
      start_time, user_id, level, session_id, user_agent from the event,
      song_id from the song, artist_id and location from the artist). */
  lemma SongplaysMember(stamped: seq<Stamped>, songs: seq<Song>, artists: seq<Artist>, p: Play)
    ensures (exists sp :: sp in Songplays(stamped, songs, artists) && sp.play == p) <==>
            exists x, s, a :: x in stamped && s in songs && a in artists && Matches(x, s, a) && p == PlayOf(x, s, a)
  {
    var t := Songplays(stamped, songs, artists);
    var plays := MapRows(t, PlayPart);
    JoinMember(stamped, songs, artists, p);
    MapRowsMember(t, PlayPart, p);
    assert p in plays <==> p in multiset(Join(stamped, songs, artists));
  }

  /** The songplays row count is the join size. */
  lemma SongplaysCount(stamped: seq<Stamped>, songs: seq<Song>, artists: seq<Artist>)
    ensures |Songplays(stamped, songs, artists)| == JoinSize(stamped, songs, artists)
  {
    var t := Songplays(stamped, songs, artists);
    assert |multiset(MapRows(t, PlayPart))| == |t|;
  }

  datatype LogTables = LogTables(users: seq<User>, time: seq<TimeRow>, songplays: seq<Songplay>)

  /** The whole activity stage over the raw events, given the songs and
      artists tables and the clock conversion. */
  function ProcessLogData(events: seq<LogEvent>, songs: seq<Song>, artists: seq<Artist>,
                          conv: int -> Civil): (out: LogTables)
    ensures NoDuplicates(out.users) && SortedBy(out.users, UserKey)
    ensures NoDuplicates(out.time) && SortedBy(out.time, TimeKey)
    ensures forall i :: 0 <= i < |out.songplays| ==> out.songplays[i].songplay_id == i + 1
  {
    var stamped := Augment(NextSongs(events), conv);
    LogTables(UsersTable(events), TimeTable(stamped), Songplays(stamped, songs, artists))
  }

  /** The stamped stream holds exactly the NextSong events, each with the
      conversion of its own `ts`. */
  lemma StampedMember(events: seq<LogEvent>, conv: int -> Civil, x: Stamped)
    ensures x in Augment(NextSongs(events), conv) <==>
            x.event in events && x.event.page == NextSong && x.at == conv(x.event.ts)
  {
    var kept := NextSongs(events);
    var stamped := Augment(kept, conv);
    NextSongsMember(events, x.event);
    if x in stamped {
      var i :| 0 <= i < |stamped| && stamped[i] == x;
      assert kept[i] in kept;
    }
    if x.event in kept && x.at == conv(x.event.ts) {
      var i :| 0 <= i < |kept| && kept[i] == x.event;
      assert stamped[i] == x;
    }
  }

  /** Time rows, in terms of the raw events: a row is in `time` exactly
      when some NextSong event's single conversion yields all seven of its
      fields. */
  lemma TimeRowsFromEvents(events: seq<LogEvent>, songs: seq<Song>, artists: seq<Artist>,
                           conv: int -> Civil, row: TimeRow)
    ensures row in ProcessLogData(events, songs, artists, conv).time <==>
            exists e :: e in events && e.page == NextSong &&
              var c := conv(e.ts);
              row == TimeRow(c.datetime, c.hour, c.day, c.week, c.month, c.year, c.weekday)
  {
    var stamped := Augment(NextSongs(events), conv);
    assert ProcessLogData(events, songs, artists, conv).time == TimeTable(stamped);
    if row in TimeTable(stamped) {
      var x :| x in stamped && TimeRowOf(x) == row;
      StampedMember(events, conv, x);
    }
    if exists e :: e in events && e.page == NextSong &&
         var c := conv(e.ts);
         row == TimeRow(c.datetime, c.hour, c.day, c.week, c.month, c.year, c.weekday) {
      var e :| e in events && e.page == NextSong &&
         var c := conv(e.ts);
         row == TimeRow(c.datetime, c.hour, c.day, c.week, c.month, c.year, c.weekday);
      StampedMember(events, conv, Stamped(e, conv(e.ts)));
      assert TimeRowOf(Stamped(e, conv(e.ts))) == row;
    }
  }

  /** An event whose page is not NextSong changes neither `time` nor
      `songplays`, yet its user still appears in `users`. */
  lemma NonPlayEvent(events: seq<LogEvent>, e: LogEvent, songs: seq<Song>, artists: seq<Artist>,
                     conv: int -> Civil)
    requires e.page != NextSong
    ensures var before := ProcessLogData(events, songs, artists, conv);
            var after := ProcessLogData(events + [e], songs, artists, conv);
            after.time == before.time && after.songplays == before.songplays &&
            UserOf(e) in after.users
  {
    NextSongsAppend(events, [e]);
    assert NextSongs([e]) == [];
    assert NextSongs(events + [e]) == NextSongs(events);
    assert e in events + [e];
  }
}
