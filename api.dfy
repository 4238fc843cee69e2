/**
  The bot's HTTP API: the song-request listing and the current-song query of
  the RPC service, the registry of update streams that subscribers hold open,
  the websocket path check and broadcast filter, and the mapping of table
  rows to the wire messages.  RPC errors are the status codes the service
  returns; the wire messages keep the fields the rows fill.
*/
module Api {
  import opened Wrappers
  import opened Text
  import opened Sorting
  import opened SongStore
  import opened Scheduler

  datatype Code = Internal | NotFound

  // ---------------------------------------------------------------- wire messages

  datatype SongProto = SongProto(
    songName: string, url: string, isStream: bool, artist: string, track: string, album: string,
    thumbnailUrl: string, durationInSeconds: nat, description: string, platform: string, id: string)

  datatype SongRequestProto = SongRequestProto(
    songName: string, requestedByUserId: string, usernameAtTime: string, guildNameAtTime: string,
    requestedAt: int, played: bool, playedAt: int, id: nat, song: Option<SongProto>)

  /** A null string column reads as its empty .String value. */
  function NullString(s: Option<string>): (r: string)
    ensures s.Some? ==> r == s.value
    ensures s.None? ==> r == ""
  {
    s.GetOr("")
  }

  /** uint32 of an int64: the value modulo 2^32. */
  function Uint32(n: int): (r: nat)
    ensures r < 0x1_0000_0000
    ensures 0 <= n < 0x1_0000_0000 ==> r == n
    ensures (r - n) % 0x1_0000_0000 == 0
  {
    n % 0x1_0000_0000
  }

  /** int32 of an int64: the value wrapped into [-2^31, 2^31). */
  function Int32(n: int): (r: int)
    ensures -0x8000_0000 <= r < 0x8000_0000
    ensures -0x8000_0000 <= n < 0x8000_0000 ==> r == n
    ensures (r - n) % 0x1_0000_0000 == 0
  {
    (n + 0x8000_0000) % 0x1_0000_0000 - 0x8000_0000
  }

  /**
    songRequestModelToProto: the columns copied; a null played_at becomes the
    zero time (timestamppb of the zero time.Time); the song is filled in apart.
  */
  function RequestToProto(r: SongRequest): SongRequestProto
  {
    SongRequestProto(r.songName, r.requestedByUserId, r.usernameAtTime, r.guildNameAtTime,
      r.requestedAt, r.played, if r.playedAt.Some? then r.playedAt.value else ZeroTime, r.id, None)
  }

  /** songModelToProto: null optional columns become "", the duration is cut to 32 bits. */
  function SongToProto(s: Song): SongProto
  {
    SongProto(s.songName, s.url, s.isStream, NullString(s.artist), NullString(s.track), NullString(s.album),
      NullString(s.thumbnailUrl), Uint32(s.durationInSeconds.GetOr(0)), NullString(s.description),
      NullString(s.platform), s.id)
  }

  /** The row a request message stands for, given the columns it does not carry. */
  function RequestFromProto(p: SongRequestProto, songId: Option<string>, guildId: string): SongRequest
  {
    SongRequest(p.id, songId, p.songName, p.requestedByUserId, p.usernameAtTime, guildId, p.guildNameAtTime,
      p.requestedAt, p.played, if p.playedAt == ZeroTime then None else Some(p.playedAt))
  }

  function EmptyIsNull(s: string): Option<string>
  {
    if s == "" then None else Some(s)
  }

  /** The song row a song message stands for, reading "" and 0 as null. */
  function SongFromProto(p: SongProto): Song
  {
    Song(p.id, EmptyIsNull(p.platform), p.songName, EmptyIsNull(p.description), p.url,
      if p.durationInSeconds == 0 then None else Some(p.durationInSeconds),
      p.isStream, EmptyIsNull(p.thumbnailUrl), EmptyIsNull(p.artist), EmptyIsNull(p.album), EmptyIsNull(p.track))
  }

  /**
    The request mapping loses nothing but the song and guild ids, which the
    message does not carry, as long as a played_at is not the zero time itself.
  */
  lemma RequestProtoRoundTrip(r: SongRequest)
    requires r.playedAt != Some(ZeroTime)
    ensures RequestFromProto(RequestToProto(r), r.songId, r.guildId) == r
    ensures RequestToProto(r).played == r.played && RequestToProto(r).requestedAt == r.requestedAt
    ensures r.playedAt.None? <==> RequestToProto(r).playedAt == ZeroTime
  {
  }

  /** So null and the empty value are indistinguishable on the wire, and a duration is kept only below 2^32. */
  predicate WireFaithful(s: Song)
  {
    && s.platform != Some("") && s.description != Some("") && s.thumbnailUrl != Some("")
    && s.artist != Some("") && s.album != Some("") && s.track != Some("")
    && (s.durationInSeconds.Some? ==> 0 < s.durationInSeconds.value < 0x1_0000_0000)
  }

  /** A song whose optional columns are null or non-empty, with a duration that fits, survives the mapping. */
  lemma SongProtoRoundTrip(s: Song)
    requires WireFaithful(s)
    ensures SongFromProto(SongToProto(s)) == s
  {
  }

  /** A null column and an empty one give the same message: the mapping cannot tell them apart. */
  lemma NullAndEmptyCollide(s: Song)
    requires s.artist == None
    ensures SongToProto(s) == SongToProto(s.(artist := Some("")))
  {
  }

  // ---------------------------------------------------------------- GetSongRequests

  datatype PageRequest = PageRequest(guildId: string, limit: int, orderBy: string, orderDesc: bool, offset: int)

  datatype PageResponse = PageResponse(songRequests: seq<SongRequestProto>, total: int)

  /** The page size: 25 unless the request asks for 1 to 250. */
  function Limit(requested: int): (l: nat)
    ensures 1 <= l <= 250
    ensures 1 <= requested <= 250 ==> l == requested
    ensures !(1 <= requested <= 250) ==> l == 25
  {
    if requested > 0 && requested <= 250 then requested else 25
  }

  /** The rows skipped: the requested offset when positive, else none. */
  function Offset(requested: int): (o: nat)
    ensures requested > 0 ==> o == requested
    ensures requested <= 0 ==> o == 0
  {
    if requested > 0 then requested else 0
  }

  /**
    The ORDER BY clauses: "requested_at asc" unless a column is named, then
    that column with asc or desc; always followed by "id asc".  The column
    name goes into the query as given.
  */
  function OrderClauses(orderBy: string, desc: bool): (c: seq<string>)
    ensures |c| == 2 && c[1] == "id asc"
    ensures orderBy == "" ==> c[0] == "requested_at asc"
    ensures orderBy != "" ==> c[0] == orderBy + " " + (if desc then "desc" else "asc")
  {
    var first := if orderBy != "" then orderBy + " " + (if desc then "desc" else "asc") else "requested_at asc";
    [first, "id asc"]
  }

  lemma KeyLeIsTotalPreorder()
    ensures TotalPreorder((a: SongRequest, b: SongRequest) => KeyLe(a, b))
  {
  }

  /** The guild's unplayed requests in the default order, requested_at then id. */
  function DefaultOrder(rows: seq<SongRequest>, g: string): (r: seq<SongRequest>)
    ensures multiset(r) == multiset(Unplayed(rows, g))
    ensures forall i, j :: 0 <= i < j < |r| ==> KeyLe(r[i], r[j])
  {
    KeyLeIsTotalPreorder();
    SortBy(Unplayed(rows, g), (a: SongRequest, b: SongRequest) => KeyLe(a, b))
  }

  /** LIMIT and OFFSET on an ordered result. */
  function Page<T>(s: seq<T>, limit: nat, offset: nat): (p: seq<T>)
    ensures |p| <= limit
    ensures offset >= |s| ==> p == []
    ensures offset < |s| ==> |p| == if |s| - offset < limit then |s| - offset else limit
    ensures forall i :: 0 <= i < |p| ==> offset + i < |s| && p[i] == s[offset + i]
  {
    var a := if offset < |s| then offset else |s|;
    var b := if offset + limit < |s| then offset + limit else |s|;
    s[a..b]
  }

  /** The listed row with its song. */
  function ListedProto(st: Store, r: SongRequest): SongRequestProto
    requires HasSong(st, r)
  {
    RequestToProto(r).(song := Some(SongToProto(SongOf(st, r))))
  }

  /** The messages for a page, one per row in page order. */
  function Listing(st: Store, page: seq<SongRequest>): (l: seq<SongRequestProto>)
    requires forall i :: 0 <= i < |page| ==> HasSong(st, page[i])
    ensures |l| == |page|
    ensures forall i :: 0 <= i < |page| ==> l[i] == ListedProto(st, page[i])
  {
    seq(|page|, i requires 0 <= i < |page| => ListedProto(st, page[i]))
  }

  /** The rows the query orders: the default order, or the order the database gives for a named column. */
  function Ordered(st: Store, req: PageRequest, columnOrder: seq<SongRequest>): seq<SongRequest>
  {
    if req.orderBy == "" then DefaultOrder(st.requests, req.guildId) else columnOrder
  }

  /** The rows of the requested page. */
  function PageOf(st: Store, req: PageRequest, columnOrder: seq<SongRequest>): seq<SongRequest>
  {
    Page(Ordered(st, req, columnOrder), Limit(req.limit), Offset(req.offset))
  }

  /**
    GetSongRequests: one page of the guild's unplayed requests, each with its
    song, and the total number of them whatever the page.  For a named column
    the database's order is the parameter columnOrder, some arrangement of the
    guild's unplayed rows.  Either query failing gives an Internal error.
  */
  method GetSongRequests(st: Store, req: PageRequest, columnOrder: seq<SongRequest>, queryFails: bool, countFails: bool)
    returns (r: Result<PageResponse, Code>)
    requires StoreValid(st)
    requires req.orderBy != "" ==> multiset(columnOrder) == multiset(Unplayed(st.requests, req.guildId))
    ensures queryFails || countFails ==> r == Err(Internal)
    ensures !queryFails && !countFails ==>
      && (forall i :: 0 <= i < |PageOf(st, req, columnOrder)| ==> HasSong(st, PageOf(st, req, columnOrder)[i]))
      && r == Ok(PageResponse(Listing(st, PageOf(st, req, columnOrder)), Int32(CountUnplayed(st.requests, req.guildId))))
  {
    if queryFails {
      return Err(Internal);
    }
    var page := PageOf(st, req, columnOrder);
    PageHasSongs(st, req, columnOrder);
    var protos := BuildListing(st, page);
    if countFails {
      return Err(Internal);
    }
    var total := CountUnplayed(st.requests, req.guildId);
    r := Ok(PageResponse(protos, Int32(total)));
  }

  /** The loop over the page's rows, appending each row's message. */
  method BuildListing(st: Store, page: seq<SongRequest>) returns (protos: seq<SongRequestProto>)
    requires forall i :: 0 <= i < |page| ==> HasSong(st, page[i])
    ensures protos == Listing(st, page)
  {
    protos := [];
    for i := 0 to |page|
      invariant |protos| == i
      invariant forall k :: 0 <= k < i ==> protos[k] == ListedProto(st, page[k])
    {
      var p := RequestToProto(page[i]);
      p := p.(song := Some(SongToProto(SongOf(st, page[i]))));
      protos := protos + [p];
    }
  }

  /** Every row of the page is one of the guild's waiting requests, with its song row present. */
  lemma PageHasSongs(st: Store, req: PageRequest, columnOrder: seq<SongRequest>)
    requires StoreValid(st)
    requires req.orderBy != "" ==> multiset(columnOrder) == multiset(Unplayed(st.requests, req.guildId))
    ensures forall x :: x in PageOf(st, req, columnOrder) ==> x in st.requests && Queued(x, req.guildId) && HasSong(st, x)
  {
    OrderedHasSongs(st, req, columnOrder);
    var o := Ordered(st, req, columnOrder);
    var p := PageOf(st, req, columnOrder);
    forall x | x in p ensures x in o {
      var i :| 0 <= i < |p| && p[i] == x;
      assert o[Offset(req.offset) + i] == x;
    }
  }

  /** Every ordered row is one of the guild's waiting requests, with its song row present. */
  lemma OrderedHasSongs(st: Store, req: PageRequest, columnOrder: seq<SongRequest>)
    requires StoreValid(st)
    requires req.orderBy != "" ==> multiset(columnOrder) == multiset(Unplayed(st.requests, req.guildId))
    ensures forall x :: x in Ordered(st, req, columnOrder) ==> x in st.requests && Queued(x, req.guildId) && HasSong(st, x)
  {
    var o := Ordered(st, req, columnOrder);
    forall x | x in o ensures x in st.requests && Queued(x, req.guildId) && HasSong(st, x) {
      assert x in multiset(o);
      assert x in Unplayed(st.requests, req.guildId);
      var k :| 0 <= k < |st.requests| && st.requests[k] == x;
    }
  }

  /** The default order starts with the request the drain loop plays next, and is empty when there is none. */
  lemma DefaultOrderHead(rows: seq<SongRequest>, g: string)
    requires UniqueIds(rows)
    ensures DefaultOrder(rows, g) == [] <==> NextUnplayed(rows, g).None?
    ensures DefaultOrder(rows, g) != [] ==> Some(DefaultOrder(rows, g)[0]) == NextUnplayed(rows, g)
  {
    var o := DefaultOrder(rows, g);
    var u := Unplayed(rows, g);
    assert |o| == |u| by {
      assert |multiset(o)| == |multiset(u)|;
    }
    CountUnplayedZero(rows, g);
    if o != [] {
      var x := o[0];
      assert x in multiset(o);
      assert x in u;
      var k :| 0 <= k < |rows| && rows[k] == x;
      forall i | 0 <= i < |rows| && Queued(rows[i], g) ensures KeyLe(x, rows[i]) {
        var y := rows[i];
        assert y in u;
        assert y in multiset(o);
        var j :| 0 <= j < |o| && o[j] == y;
        if j > 0 {
          assert KeyLe(o[0], o[j]);
        }
      }
      NextUnplayedIsTheMinimum(rows, g, k);
    }
  }

  /**
    With the default order and no offset, the page starts with the request the
    drain loop plays next, and is empty only when nothing is waiting.
  */
  lemma DefaultPageLeadsWithNext(st: Store, req: PageRequest)
    requires StoreValid(st) && req.orderBy == "" && req.offset <= 0
    ensures PageOf(st, req, []) == [] <==> NextUnplayed(st.requests, req.guildId).None?
    ensures PageOf(st, req, []) != [] ==> Some(PageOf(st, req, [])[0]) == NextUnplayed(st.requests, req.guildId)
  {
    var o := DefaultOrder(st.requests, req.guildId);
    DefaultOrderHead(st.requests, req.guildId);
    assert Ordered(st, req, []) == o;
    var p := PageOf(st, req, []);
    if o != [] {
      assert p[0] == o[0];
    }
  }

  // ---------------------------------------------------------------- GetCurrentSongPlaying

  datatype CurrentSong = CurrentSong(requestedAt: int, startedAt: int, song: SongProto, requestedBy: string, request: SongRequestProto)

  /**
    GetCurrentSongPlaying: NotFound for a guild without an instance or with
    nothing playing; otherwise the current request and song as the instance
    holds them, with the time the song started.
  */
  function GetCurrentSongPlaying(instances: map<string, MusicOpts>, g: string): (r: Result<CurrentSong, Code>)
    requires g in instances ==> MusicValid(instances[g])
    ensures r.Err? <==> g !in instances || !instances[g].songPlaying
    ensures r.Err? ==> r.error == NotFound
    ensures r.Ok? ==>
      var m := instances[g];
      && r.value.request == RequestToProto(m.currentRequest.value).(song := Some(SongToProto(m.currentSong.value)))
      && r.value.song == SongToProto(m.currentSong.value)
      && r.value.startedAt == m.songStarted
      && r.value.requestedBy == m.currentRequest.value.usernameAtTime
      && r.value.requestedAt == m.currentRequest.value.requestedAt
  {
    if g !in instances then Err(NotFound)
    else
      var m := instances[g];
      if !m.songPlaying then Err(NotFound)
      else
        var song := SongToProto(m.currentSong.value);
        var p := RequestToProto(m.currentRequest.value).(song := Some(song));
        Ok(CurrentSong(p.requestedAt, m.songStarted, song, p.usernameAtTime, p))
  }

  // ---------------------------------------------------------------- update streams

  /**
    The API's songQueueUpdateStreams: per guild, the open streams by id.  A
    subscription stays registered from when it opens until its own context or
    the shard's ends; the stream objects stand for themselves here as their ids.
  */
  class StreamRegistry {
    var streams: map<string, set<string>>

    constructor ()
      ensures streams == map[]
    {
      streams := map[];
    }

    /**
      The registration half of SongRequestsUpdateStream: a guild without a map
      of streams and without a server instance gets NotFound and nothing is
      registered; otherwise the guild's map is created if needed and the id added.
      A guild that already has a map is not checked against the instances.
    */
    method Open(g: string, id: string, guilds: set<string>) returns (ok: bool)
      modifies this
      ensures ok <==> g in old(streams) || g in guilds
      ensures !ok ==> streams == old(streams)
      ensures ok ==> streams == old(streams)[g := (if g in old(streams) then old(streams)[g] else {}) + {id}]
    {
      if g !in streams {
        if g !in guilds {
          return false;
        }
        streams := streams[g := {}];
      }
      streams := streams[g := streams[g] + {id}];
      ok := true;
    }

    /** After the stream's context or the shard's ends: only that id leaves the guild's map, which itself stays. */
    method Close(g: string, id: string)
      modifies this
      ensures g in old(streams) ==> streams == old(streams)[g := old(streams)[g] - {id}]
      ensures g !in old(streams) ==> streams == old(streams)
    {
      if g in streams {
        streams := streams[g := streams[g] - {id}];
      }
    }

    /** A whole subscription: open, wait for an end, close; what it returns. */
    method Subscribe(g: string, id: string, guilds: set<string>) returns (r: Result<(), Code>)
      modifies this
      ensures r.Err? <==> g !in old(streams) && g !in guilds
      ensures r.Err? ==> r.error == NotFound && streams == old(streams)
      ensures r.Ok? ==> streams == old(streams)[g := (if g in old(streams) then old(streams)[g] else {}) - {id}]
    {
      var ok := Open(g, id, guilds);
      if !ok {
        return Err(NotFound);
      }
      ghost var before := if g in old(streams) then old(streams)[g] else {};
      assert streams == old(streams)[g := before + {id}];
      Close(g, id);
      assert before + {id} - {id} == before - {id};
      r := Ok(());
    }
  }

  // ---------------------------------------------------------------- websocket

  datatype WsOutcome = BadRequest | GuildNotFound | Accept(guildId: string)

  /** handleWebsocketRequest's checks: exactly four "/"-parts, then segment 2 must be a known guild. */
  function WsCheck(path: string, guilds: set<string>): (r: WsOutcome)
    ensures r == BadRequest <==> |Split(path, '/')| != 4
    ensures r.Accept? ==> r.guildId == Split(path, '/')[2] && r.guildId in guilds
    ensures r == GuildNotFound ==> Split(path, '/')[2] !in guilds
  {
    var parts := Split(path, '/');
    if |parts| != 4 then BadRequest
    else if parts[2] !in guilds then GuildNotFound
    else Accept(parts[2])
  }

  /** SongQueueEventUpdate's filter: the session's path is the guild's event path. */
  predicate Reaches(sessionPath: string, g: string)
  {
    sessionPath == "/ws/" + g + "/song_request_events"
  }

  /**
    A session the broadcast for guild g reaches passed the path check for g
    (g holding no "/"): the event path splits into "", "ws", g and the last part.
  */
  lemma BroadcastPathPassesCheck(path: string, g: string, guilds: set<string>)
    requires '/' !in g && Reaches(path, g)
    ensures Split(path, '/') == ["", "ws", g, "song_request_events"]
    ensures WsCheck(path, guilds) == if g in guilds then Accept(g) else GuildNotFound
  {
    assert path == "" + "/" + "ws" + "/" + g + "/" + "song_request_events";
    SplitFour("", "ws", g, "song_request_events");
  }

  /** Four parts without "/" joined by "/" split back into those four. */
  lemma SplitFour(a: string, b: string, c: string, d: string)
    requires '/' !in a && '/' !in b && '/' !in c && '/' !in d
    ensures Split(a + "/" + b + "/" + c + "/" + d, '/') == [a, b, c, d]
  {
    var cd := c + "/" + d;
    var bcd := b + "/" + cd;
    var abcd := a + "/" + bcd;
    SplitNoSep(d, '/');
    SplitAfterPart(c, d, '/');
    SplitAfterPart(b, cd, '/');
    SplitAfterPart(a, bcd, '/');
    assert Split(abcd, '/') == [a, b, c, d];
    SlashAssoc(a, b, c, d);
  }

  /** The left-nested and right-nested joins of four parts are the same string. */
  lemma SlashAssoc(a: string, b: string, c: string, d: string)
    ensures a + "/" + b + "/" + c + "/" + d == a + "/" + (b + "/" + (c + "/" + d))
  {
    var ab := a + "/" + b;
    assert ab + "/" + c == a + "/" + (b + "/" + c);
    assert ab + "/" + c + "/" + d == a + "/" + (b + "/" + c + "/" + d);
    assert b + "/" + c + "/" + d == b + "/" + (c + "/" + d);
  }

  /** The broadcasts for two guilds without "/" in their ids reach disjoint sessions. */
  lemma BroadcastsDisjoint(path: string, g: string, h: string)
    requires '/' !in g && '/' !in h && Reaches(path, g) && Reaches(path, h)
    ensures g == h
  {
    BroadcastPathPassesCheck(path, g, {});
    BroadcastPathPassesCheck(path, h, {});
  }
}
