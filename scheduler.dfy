/**
  The per-guild song queue: a ServerInstance holds the song tables, the music
  state (musicOpts) and the trigger channel, and its methods are the music
  commands and the drain loop of pkg/commands/music and pkg/discord/common.go.

  Each operation is one atomic step.  The server context and the two cancel
  functions become flags: serverDone for the server context, trackCancelled
  for the context of the track being streamed (a child of the server context),
  and a numbered skip-all token with the set of numbers already cancelled.
  What happens while a track streams is an input: the commands and the
  shutdown that arrive meanwhile, run through the same methods.
*/
module Scheduler {
  import opened Wrappers
  import opened Text
  import opened SongStore
  import opened Chat
  import NowPlaying

  /** time.Time{} (year 1, January 1, UTC) in Unix seconds. */
  const ZeroTime: int := -62135596800

  datatype EventType = SongPlaying | SongFinished | SongSkipped | SongSkippedAll

  /** music.SongQueueEvent, as SendSongQueueEvent hands it to the update callback. */
  datatype QueueEvent = QueueEvent(kind: EventType, request: Option<SongRequest>, song: Option<Song>)

  /** The replies the music commands and the drain loop post to the channel. */
  datatype Reply =
    | NotPlaying
    | SkipDbError
    | Skipping(songName: string, author: string)
    | SkipAllDbError
    | SkippedAll(skipped: nat, author: string)
    | SongInfoError(error: string)
    | AddSongDbError
    | SongAdded(title: string, username: string)
    | PlayPrompt
    | Attempting(username: string)
    | NowPlayingNotice(song: Song, request: SongRequest)

  /** What the bot does that other parties see, in order. */
  datatype Effect = Send(reply: Reply) | Publish(event: QueueEvent) | DeleteCommandMessage

  /** The Discord message each reply is posted as. */
  function ReplyMessage(r: Reply): Message
  {
    match r
    case NotPlaying => ErrorMessage("Error skipping song.", "No song is currently playing.")
    case SkipDbError => ErrorMessage("Error skipping song.", "Got an issue with the database.")
    case Skipping(songName, author) =>
      EmbedMessage(FieldsEmbed([Field("Skipping current song...", songName, false), Field("Requested By", author, false)]))
    case SkipAllDbError => ErrorMessage("Error skipping all songs.", "Got an issue with the database.")
    case SkippedAll(skipped, author) =>
      EmbedMessage(FieldsEmbed([
        Field("Skipping all song requests.", "Number skipped: " + NatToDecimal(skipped), false),
        Field("Requested By", author, false)]))
    case SongInfoError(error) => ErrorMessage("Error getting song information:", error)
    case AddSongDbError => ErrorMessage("Unable to add song request.", "Database error.")
    case SongAdded(title, username) =>
      EmbedMessage(FieldsEmbed([Field("Song has been added to the queue", title, false), Field("Requested By", username, false)]))
    case PlayPrompt => TextMessage("You must specify a URL to a song, video, or stream.")
    case Attempting(username) =>
      TextMessage("\U{1F3B5} Attempting to parse a song and add it to the queue that was requested by " + username + ". \U{1F3B5}")
    case NowPlayingNotice(song, request) => EmbedMessage(NowPlaying.NowPlayingEmbed(song, request))
  }

  /** musicOpts, with CurrentSongRequest and CurrentSong from the revision that uses them. */
  datatype MusicOpts = MusicOpts(
    songPlaying: bool,
    songStarted: int,
    songDurationSeconds: int,
    isStream: bool,
    trackCancelled: bool,
    skipAllToken: nat,
    cancelledSkipAll: set<nat>,
    currentRequest: Option<SongRequest>,
    currentSong: Option<Song>)

  /** The MusicData a new guild instance starts with; CurrentSongRequest and CurrentSong are nil pointers. */
  function InitialMusic(): MusicOpts
  {
    MusicOpts(false, ZeroTime, 0, false, false, 0, {}, None, None)
  }

  /** A playing song has a current request and song; the installed skip-all token has not been cancelled. */
  ghost predicate MusicValid(m: MusicOpts)
  {
    && (m.songPlaying ==> m.currentRequest.Some? && m.currentSong.Some?)
    && m.skipAllToken !in m.cancelledSkipAll
    && (forall t :: t in m.cancelledSkipAll ==> t < m.skipAllToken)
  }

  lemma InitialMusicValid()
    ensures MusicValid(InitialMusic())
    ensures !InitialMusic().songPlaying && InitialMusic().songDurationSeconds == 0
  {
  }

  /** No row that was there has had its played_at changed. */
  ghost predicate KeepsPlayedAt(a: seq<SongRequest>, b: seq<SongRequest>)
  {
    |a| <= |b| && forall i :: 0 <= i < |a| ==> b[i].playedAt == a[i].playedAt
  }

  /** t extends t0: everything recorded before is still there, in order. */
  ghost predicate Extends<T>(t0: seq<T>, t: seq<T>)
  {
    |t0| <= |t| && t[..|t0|] == t0
  }

  lemma ExtendsAppend<T>(t0: seq<T>, more: seq<T>)
    ensures Extends(t0, t0 + more)
  {
    assert (t0 + more)[..|t0|] == t0;
  }

  lemma ExtendsTrans<T>(a: seq<T>, b: seq<T>, c: seq<T>)
    requires Extends(a, b) && Extends(b, c)
    ensures Extends(a, c)
  {
    assert c[..|a|] == c[..|b|][..|a|];
  }

  /** The same track, as far as the music state says: the commands change only the cancel flag and the skip-all tokens. */
  ghost predicate SameTrack(a: MusicOpts, b: MusicOpts)
  {
    && a.songPlaying == b.songPlaying && a.songStarted == b.songStarted
    && a.songDurationSeconds == b.songDurationSeconds && a.isStream == b.isStream
    && a.currentRequest == b.currentRequest && a.currentSong == b.currentSong
  }

  // ---------------------------------------------------------------- skip

  /** What skipSong goes on to do after reading the music state. */
  datatype SkipPlan = NothingPlaying | SkipCurrent(requestId: nat, songName: string) | NilDereference

  /**
    skipSong as written: it reads CurrentSongRequest.ID and CurrentSong.SongName
    before it looks at SongPlaying, so with no request ever played the read
    dereferences a nil pointer.
  */
  function SkipPlanAsWritten(m: MusicOpts): SkipPlan
  {
    if m.currentRequest.None? || m.currentSong.None? then NilDereference
    else if !m.songPlaying then NothingPlaying
    else SkipCurrent(m.currentRequest.value.id, m.currentSong.value.songName)
  }

  /** skipSong with the SongPlaying check first: nothing is read from an absent request. */
  function SkipPlanFor(m: MusicOpts): (p: SkipPlan)
    requires MusicValid(m)
    ensures !p.NilDereference?
    ensures p.NothingPlaying? <==> !m.songPlaying
    ensures p.SkipCurrent? ==> p.requestId == m.currentRequest.value.id && p.songName == m.currentSong.value.songName
  {
    if !m.songPlaying then NothingPlaying
    else SkipCurrent(m.currentRequest.value.id, m.currentSong.value.songName)
  }

  /** Once a request has been played the two agree: the fix changes only the first-skip case. */
  lemma SkipPlanAgreesAfterFirstSong(m: MusicOpts)
    requires MusicValid(m) && m.currentRequest.Some? && m.currentSong.Some?
    ensures SkipPlanAsWritten(m) == SkipPlanFor(m)
  {
  }

  /** On a fresh instance the skip command as written dereferences nil; the corrected one reports that nothing plays. */
  lemma SkipOnFreshInstance()
    ensures SkipPlanAsWritten(InitialMusic()) == NilDereference
    ensures SkipPlanFor(InitialMusic()) == NothingPlaying
  {
  }

  /**
    skipAllSongs as written reads CurrentSongRequest.ID unconditionally to build
    `id != $2`; None stands for the nil dereference.
  */
  function SkipAllExclusionAsWritten(m: MusicOpts): Option<Option<nat>>
  {
    if m.currentRequest.None? then None else Some(Some(m.currentRequest.value.id))
  }

  /**
    The corrected exclusion: the current request whenever there is one, played
    or not (a pass whose update failed leaves it queued, and it stays queued);
    a fresh instance has none and excludes nothing.
  */
  function SkipAllExclusion(m: MusicOpts): (e: Option<nat>)
    ensures e.Some? <==> m.currentRequest.Some?
    ensures e.Some? ==> e.value == m.currentRequest.value.id
  {
    if m.currentRequest.Some? then Some(m.currentRequest.value.id) else None
  }

  /** Once a request has been current, the corrected exclusion is the one the source builds. */
  lemma SkipAllExclusionAgreesAfterFirstSong(m: MusicOpts)
    requires m.currentRequest.Some?
    ensures SkipAllExclusionAsWritten(m) == Some(SkipAllExclusion(m))
  {
  }

  /** On a fresh instance skip-all as written dereferences nil; the corrected one excludes nothing. */
  lemma SkipAllOnFreshInstance()
    ensures SkipAllExclusionAsWritten(InitialMusic()).None?
    ensures SkipAllExclusion(InitialMusic()).None?
  {
  }

  /** After the corrected bulk update, the only request of the guild left in the queue is the current one. */
  lemma SkipAllLeavesOnlyCurrent(rows: seq<SongRequest>, g: string, m: MusicOpts)
    ensures forall i :: 0 <= i < |rows| && Queued(BulkMarkPlayed(rows, g, SkipAllExclusion(m))[i], g) ==>
      m.currentRequest.Some? && rows[i].id == m.currentRequest.value.id
  {
    BulkMarkPlayedLeavesOnlyExcluded(rows, g, SkipAllExclusion(m));
  }

  /** The table after a skip: the current request marked played, unless nothing plays or the update fails. */
  function SkipRows(rows: seq<SongRequest>, m: MusicOpts, updateFails: bool): seq<SongRequest>
    requires MusicValid(m)
  {
    match SkipPlanFor(m)
    case SkipCurrent(id, _) => if updateFails then rows else MarkPlayedById(rows, id)
    case _ => rows
  }

  /** The music state after a skip: the track token cancelled when a song plays. */
  function SkipMusic(m: MusicOpts): MusicOpts
  {
    if m.songPlaying then m.(trackCancelled := true) else m
  }

  /** The messages a skip sends. */
  function SkipEffects(m: MusicOpts, updateFails: bool, author: string): seq<Effect>
    requires MusicValid(m)
  {
    match SkipPlanFor(m)
    case SkipCurrent(_, name) =>
      (if updateFails then [Send(SkipDbError)] else []) + [Send(Skipping(name, author))]
    case _ => [Send(NotPlaying)]
  }

  // ---------------------------------------------------------------- enqueue

  /** The fields of music.GetSongInfo's result that handleSongInfo reads. */
  datatype SongInfo = SongInfo(
    id: string,
    extractorKey: string,
    title: string,
    description: string,
    duration: int,
    thumbnail: string,
    artist: JsonValue,
    album: JsonValue,
    track: JsonValue)

  /** The author of a command message. */
  datatype Author = Author(id: string, username: string)

  /**
    What an enqueue depends on besides the URL: the requester, the guild of the
    command message, what resolving the URL returned, the clock, and whether the
    song upsert and the request insert fail.
  */
  datatype Enqueue = Enqueue(requester: Author, messageGuildId: string, info: Result<SongInfo, string>, now: int,
                             upsertFails: bool, insertFails: bool)

  /** The song row handleSongInfo upserts for a resolved URL. */
  function SongFromInfo(info: SongInfo, url: string): (s: Song)
    ensures s.id == info.id && s.url == url && s.songName == info.title && !s.isStream
    ensures s.durationInSeconds == Some(info.duration)
    ensures s.artist.Some? <==> info.artist.JString?
  {
    Song(info.id, Some(info.extractorKey), info.title, Some(info.description), url, Some(info.duration), false,
      Some(info.thumbnail), InterfaceToNullString(info.artist), InterfaceToNullString(info.album),
      InterfaceToNullString(info.track))
  }

  /** The request row handleSongInfo inserts; GuildNameAtTime receives the guild id. */
  function NewRequest(id: nat, info: SongInfo, author: Author, messageGuildId: string, guildId: string, now: int): (r: SongRequest)
    ensures r.id == id && r.songId == Some(info.id) && !r.played && r.playedAt.None?
    ensures r.requestedByUserId == author.id && r.usernameAtTime == author.username
    ensures r.guildId == messageGuildId && r.guildNameAtTime == guildId && r.requestedAt == now
  {
    SongRequest(id, Some(info.id), info.title, author.id, author.username, messageGuildId, guildId, now, false, None)
  }

  /** The tables after handleSongInfo: the song upserted by id, then one request inserted, each unless its write fails. */
  function EnqueueStore(st: Store, guildId: string, url: string, e: Enqueue): Store
  {
    if e.info.Err? || e.upsertFails then st
    else
      var withSong := st.(songs := st.songs[e.info.value.id := SongFromInfo(e.info.value, url)]);
      if e.insertFails then withSong
      else withSong.(requests := st.requests + [NewRequest(st.nextId, e.info.value, e.requester, e.messageGuildId, guildId, e.now)],
                     nextId := st.nextId + 1)
  }

  /** The messages handleSongInfo sends. */
  function EnqueueEffects(e: Enqueue): seq<Effect>
  {
    if e.info.Err? then [Send(SongInfoError(e.info.error))]
    else if e.upsertFails || e.insertFails then [Send(AddSongDbError)]
    else [Send(SongAdded(e.info.value.title, e.requester.username))]
  }

  /** An enqueue keeps the tables valid, only grows them, and touches no played_at. */
  lemma EnqueueStoreValid(st: Store, guildId: string, url: string, e: Enqueue)
    requires StoreValid(st)
    ensures var r := EnqueueStore(st, guildId, url, e);
      && StoreValid(r)
      && Evolves(st.requests, r.requests) && KeepsPlayedAt(st.requests, r.requests)
      && |r.requests| <= |st.requests| + 1
  {
    if e.info.Err? || e.upsertFails {
      EvolvesRefl(st.requests);
    } else {
      var song := SongFromInfo(e.info.value, url);
      var st1 := st.(songs := st.songs[song.id := song]);
      UpsertSongValid(st, song);
      if e.insertFails {
        EvolvesRefl(st.requests);
      } else {
        var req := NewRequest(st.nextId, e.info.value, e.requester, e.messageGuildId, guildId, e.now);
        assert HasSong(st1, req);
        InsertRequestValid(st1, req);
        AppendEvolves(st.requests, [req]);
        var rows := st.requests + [req];
        assert forall i :: 0 <= i < |st.requests| ==> rows[i] == st.requests[i];
      }
    }
  }

  /**
    An enqueue writes nothing when the URL does not resolve or the upsert fails,
    writes only the song row when the insert fails, and otherwise adds exactly
    one unplayed request to the message's guild; a song requested again keeps
    one song row.
  */
  lemma EnqueueStoreEffect(st: Store, guildId: string, url: string, e: Enqueue)
    ensures var r := EnqueueStore(st, guildId, url, e);
      && (e.info.Err? || e.upsertFails ==> r == st)
      && (e.info.Ok? && !e.upsertFails ==> r.songs == st.songs[e.info.value.id := SongFromInfo(e.info.value, url)])
      && (e.info.Ok? && !e.upsertFails && e.info.value.id in st.songs ==> r.songs.Keys == st.songs.Keys)
      && (e.info.Ok? && !e.upsertFails && e.insertFails ==> r.requests == st.requests)
      && (e.info.Ok? && !e.upsertFails && !e.insertFails ==>
            && r.requests == st.requests + [NewRequest(st.nextId, e.info.value, e.requester, e.messageGuildId, guildId, e.now)]
            && CountUnplayed(r.requests, e.messageGuildId) == CountUnplayed(st.requests, e.messageGuildId) + 1)
  {
    if e.info.Ok? && !e.upsertFails && !e.insertFails {
      var req := NewRequest(st.nextId, e.info.value, e.requester, e.messageGuildId, guildId, e.now);
      UnplayedAppend(st.requests, req, e.messageGuildId);
    }
  }

  /** The messages play sends: the command message is deleted first, then a prompt or the attempt and the enqueue's reply. */
  function PlayEffects(args: seq<string>, e: Enqueue): (t: seq<Effect>)
    ensures |t| >= 2 && t[0] == DeleteCommandMessage
  {
    if |args| == 0 then [DeleteCommandMessage, Send(PlayPrompt)]
    else [DeleteCommandMessage, Send(Attempting(e.requester.username))] + EnqueueEffects(e)
  }

  // ---------------------------------------------------------------- what may happen while a track streams

  datatype Action =
    | SkipCommand(author: string, updateFails: bool)
    | SkipAllCommand(author: string, bulkFails: bool, markFails: bool)
    | PlayCommand(args: seq<string>, enqueue: Enqueue)
    | Shutdown

  /** Whether the action fires the track's cancel function while a song plays. */
  predicate CancelsTrack(a: Action)
  {
    a.SkipCommand? || (a.SkipAllCommand? && !a.bulkFails)
  }

  function AnyCancel(acts: seq<Action>): bool
  {
    if |acts| == 0 then false else AnyCancel(acts[..|acts| - 1]) || CancelsTrack(acts[|acts| - 1])
  }

  function AnyShutdown(acts: seq<Action>): bool
  {
    if |acts| == 0 then false else AnyShutdown(acts[..|acts| - 1]) || acts[|acts| - 1].Shutdown?
  }

  /** The most request rows the actions can add. */
  function Enqueues(acts: seq<Action>): nat
  {
    if |acts| == 0 then 0 else Enqueues(acts[..|acts| - 1]) + (if acts[|acts| - 1].PlayCommand? then 1 else 0)
  }

  // ---------------------------------------------------------------- the drain loop's inputs

  /** The state of the guild's voice connection in Session.VoiceConnections. */
  datatype Voice = NoConnection | NotReady | Ready

  /** One pass of the drain loop: does the query fail, the voice state, the clock, what happens while streaming, does the update fail. */
  datatype Step = Step(queryFails: bool, voice: Voice, now: int, during: seq<Action>, updateFails: bool)

  /** Steps beyond the given ones are uneventful. */
  function StepAt(env: seq<Step>, k: nat): Step
  {
    if k < |env| then env[k] else Step(false, Ready, if |env| == 0 then 0 else env[|env| - 1].now, [], false)
  }

  function EnqueuesFrom(env: seq<Step>, k: nat): nat
    decreases |env| - k
  {
    if k >= |env| then 0 else Enqueues(env[k].during) + EnqueuesFrom(env, k + 1)
  }

  lemma EnqueuesFromStep(env: seq<Step>, k: nat)
    ensures EnqueuesFrom(env, k) == Enqueues(StepAt(env, k).during) + EnqueuesFrom(env, k + 1)
  {
  }

  /** Why a drain pass returned. */
  datatype StopReason = ServerDone | QueryFailed | QueueEmpty | PlayFailed(error: string)

  /** One select outcome of handleSongQueue, or a change to the trigger channel made elsewhere. */
  datatype Wake = Tick(env: seq<Step>) | Signal(env: seq<Step>) | Arrive(count: nat) | CloseTriggers

  function PlayingEvent(req: SongRequest, song: Song): Effect
  {
    Publish(QueueEvent(SongPlaying, Some(req), Some(song)))
  }

  /** The event after streaming: skipped when the track's context ended, by a cancel or by shutdown. */
  function EndEvent(ctxEnded: bool, req: SongRequest, song: Song): Effect
  {
    Publish(QueueEvent(if ctxEnded then SongSkipped else SongFinished, Some(req), Some(song)))
  }

  /** The requests announced as now playing in a trace, in the order of the announcements. */
  function Announced(t: seq<Effect>): seq<SongRequest>
  {
    if |t| == 0 then []
    else
      var e := t[|t| - 1];
      Announced(t[..|t| - 1]) + (if e.Send? && e.reply.NowPlayingNotice? then [e.reply.request] else [])
  }

  lemma {:induction false} AnnouncedAppend(t: seq<Effect>, more: seq<Effect>)
    ensures Announced(t + more) == Announced(t) + Announced(more)
    decreases |more|
  {
    if |more| == 0 {
      assert t + more == t;
    } else {
      var last := more[|more| - 1];
      assert (t + more)[..|t + more| - 1] == t + more[..|more| - 1];
      AnnouncedAppend(t, more[..|more| - 1]);
    }
  }

  /** Posting the now-playing notice for a request announces just that request. */
  lemma AnnouncedNotice(t: seq<Effect>, song: Song, req: SongRequest)
    ensures Announced(t + [Send(NowPlayingNotice(song, req))]) == Announced(t) + [req]
  {
    var t1 := t + [Send(NowPlayingNotice(song, req))];
    assert t1[..|t1| - 1] == t;
  }

  /** A pass that announces its request and publishes two events announces just that request. */
  lemma AnnouncedPass(t: seq<Effect>, song: Song, req: SongRequest, e1: Effect, e2: Effect)
    requires e1.Publish? && e2.Publish?
    ensures Announced(t + [Send(NowPlayingNotice(song, req)), e1, e2]) == Announced(t) + [req]
  {
    var more := [Send(NowPlayingNotice(song, req)), e1, e2];
    AnnouncedAppend(t, more);
    assert more[..2][..1] == [Send(NowPlayingNotice(song, req))];
    assert Announced([Send(NowPlayingNotice(song, req))]) == [req];
  }

  /** A pass in which nothing goes wrong and nothing happens while the track streams. */
  predicate Calm(s: Step)
  {
    !s.queryFails && s.voice == Ready && s.during == [] && !s.updateFails
  }

  predicate AllCalm(env: seq<Step>)
  {
    forall k :: 0 <= k < |env| ==> Calm(env[k])
  }

  lemma CalmAt(env: seq<Step>, k: nat)
    requires AllCalm(env)
    ensures Calm(StepAt(env, k))
  {
  }

  /** Every drain pass the wakes can start is calm. */
  predicate CalmWakes(wakes: seq<Wake>)
  {
    forall i :: 0 <= i < |wakes| && (wakes[i].Tick? || wakes[i].Signal?) ==> AllCalm(wakes[i].env)
  }

  /** A pass that announces the head and leaves the rest of the order keeps announced-plus-to-come. */
  lemma PassKeepsOrder(a0: seq<SongRequest>, a1: seq<SongRequest>, d0: seq<SongRequest>, d1: seq<SongRequest>, x: SongRequest)
    requires a1 == a0 + [x] && d0 == [x] + d1
    ensures a1 + d1 == a0 + d0
  {
  }

  /** Once the queue is empty nothing is left to come in the drain order. */
  lemma DrainedRest(a: seq<SongRequest>, rows: seq<SongRequest>, g: string)
    requires NextUnplayed(rows, g).None?
    ensures a + DrainOrder(rows, g) == a
  {
    assert DrainOrder(rows, g) == [];
    assert a + [] == a;
  }

  class ServerInstance {
    const guildId: string
    var store: Store
    var music: MusicOpts
    var serverDone: bool
    var triggers: nat
    var triggersClosed: bool
    var trace: seq<Effect>
    /** The number of drain passes run so far. */
    ghost var passes: nat

    ghost predicate Valid()
      reads this
    {
      StoreValid(store) && MusicValid(music)
    }

    /** createDiscordGuildInstance's MusicData: nothing playing, duration 0, fresh tokens. */
    constructor (guildId: string, store: Store)
      requires StoreValid(store)
      ensures Valid()
      ensures this.guildId == guildId && this.store == store && music == InitialMusic()
      ensures !serverDone && triggers == 0 && !triggersClosed && trace == [] && passes == 0
    {
      this.guildId := guildId;
      this.store := store;
      music := InitialMusic();
      serverDone := false;
      triggers := 0;
      triggersClosed := false;
      trace := [];
      passes := 0;
    }

    /** skip: marks the current request played and cancels its track; with nothing playing it only reports that. */
    method SkipSong(author: string, updateFails: bool)
      requires Valid()
      modifies this
      ensures Valid()
      ensures store == old(store).(requests := SkipRows(old(store.requests), old(music), updateFails))
      ensures music == SkipMusic(old(music))
      ensures trace == old(trace) + SkipEffects(old(music), updateFails, author)
      ensures !old(music.songPlaying) ==> store == old(store) && music == old(music)
      ensures SameTrack(old(music), music) && music.trackCancelled == (old(music.trackCancelled) || old(music.songPlaying))
      ensures Extends(old(trace), trace)
      ensures Evolves(old(store.requests), store.requests) && KeepsPlayedAt(old(store.requests), store.requests)
      ensures serverDone == old(serverDone) && triggers == old(triggers) && triggersClosed == old(triggersClosed)
      ensures passes == old(passes)
    {
      EvolvesRefl(store.requests);
      ExtendsAppend(trace, SkipEffects(music, updateFails, author));
      var plan := SkipPlanFor(music);
      if plan.NothingPlaying? {
        trace := trace + [Send(NotPlaying)];
        return;
      }
      if updateFails {
        trace := trace + [Send(SkipDbError)];
      } else {
        MarkPlayedEvolves(store.requests, plan.requestId);
        StoreValidRewrite(store, MarkPlayedById(store.requests, plan.requestId));
        store := store.(requests := MarkPlayedById(store.requests, plan.requestId));
      }
      trace := trace + [Send(Skipping(plan.songName, author))];
      music := music.(trackCancelled := true);
    }

    /**
      skipall: cancels the old skip-all token and installs a fresh one, marks
      every unplayed request of the guild played except the one playing, then
      skips the current song and publishes SkippedAll.  A failed bulk update
      ends the command after its error message.
    */
    method SkipAllSongs(author: string, bulkFails: bool, markFails: bool)
      requires Valid()
      modifies this
      ensures Valid()
      ensures music.skipAllToken == old(music.skipAllToken) + 1
      ensures music.cancelledSkipAll == old(music.cancelledSkipAll) + {old(music.skipAllToken)}
      ensures music.skipAllToken !in music.cancelledSkipAll
      ensures bulkFails ==>
        && store == old(store)
        && music == old(music).(skipAllToken := music.skipAllToken, cancelledSkipAll := music.cancelledSkipAll)
        && trace == old(trace) + [Send(SkipAllDbError)]
      ensures !bulkFails ==>
        var except := SkipAllExclusion(old(music));
        var marked := BulkMarkPlayed(old(store.requests), guildId, except);
        var tokens := old(music).(skipAllToken := music.skipAllToken, cancelledSkipAll := music.cancelledSkipAll);
        && store == old(store).(requests := SkipRows(marked, tokens, markFails))
        && music == SkipMusic(tokens)
        && trace == old(trace)
          + [Send(SkippedAll(CountSkippable(old(store.requests), guildId, except), author))]
          + SkipEffects(tokens, markFails, author)
          + [Publish(QueueEvent(SongSkippedAll, None, None))]
      ensures SameTrack(old(music), music)
      ensures music.trackCancelled == (old(music.trackCancelled) || (!bulkFails && old(music.songPlaying)))
      ensures Extends(old(trace), trace)
      ensures Evolves(old(store.requests), store.requests) && KeepsPlayedAt(old(store.requests), store.requests)
      ensures serverDone == old(serverDone) && triggers == old(triggers) && triggersClosed == old(triggersClosed)
      ensures passes == old(passes)
    {
      EvolvesRefl(store.requests);
      ghost var t0 := trace;
      var except := SkipAllExclusion(music);
      music := music.(cancelledSkipAll := music.cancelledSkipAll + {music.skipAllToken},
                      skipAllToken := music.skipAllToken + 1);
      if bulkFails {
        trace := trace + [Send(SkipAllDbError)];
        ExtendsAppend(t0, [Send(SkipAllDbError)]);
        return;
      }
      MarkAllPlayed(author, except);
      ghost var mid := store.requests;
      ghost var t1 := trace;
      SkipSong(author, markFails);
      EvolvesTrans(old(store.requests), mid, store.requests);
      ExtendsTrans(t0, t1, trace);
      ghost var t2 := trace;
      trace := trace + [Publish(QueueEvent(SongSkippedAll, None, None))];
      ExtendsAppend(t2, [Publish(QueueEvent(SongSkippedAll, None, None))]);
      ExtendsTrans(t0, t2, trace);
    }

    /** The bulk update of skipall and its report of how many requests it marked played. */
    method MarkAllPlayed(author: string, except: Option<nat>)
      requires Valid()
      modifies this
      ensures Valid()
      ensures store == old(store).(requests := BulkMarkPlayed(old(store.requests), guildId, except))
      ensures trace == old(trace) + [Send(SkippedAll(CountSkippable(old(store.requests), guildId, except), author))]
      ensures Extends(old(trace), trace)
      ensures Evolves(old(store.requests), store.requests) && KeepsPlayedAt(old(store.requests), store.requests)
      ensures music == old(music) && serverDone == old(serverDone)
      ensures triggers == old(triggers) && triggersClosed == old(triggersClosed) && passes == old(passes)
    {
      var skipped := CountSkippable(store.requests, guildId, except);
      BulkMarkPlayedEvolves(store.requests, guildId, except);
      StoreValidRewrite(store, BulkMarkPlayed(store.requests, guildId, except));
      store := store.(requests := BulkMarkPlayed(store.requests, guildId, except));
      ExtendsAppend(trace, [Send(SkippedAll(skipped, author))]);
      trace := trace + [Send(SkippedAll(skipped, author))];
    }

    /**
      handleSongInfo: resolving the URL failed, or the song is upserted by id and
      an unplayed request inserted for the requester, each database failure
      ending the command after its error message.
    */
    method HandleSongInfo(url: string, e: Enqueue)
      requires Valid()
      modifies this
      ensures Valid()
      ensures store == EnqueueStore(old(store), guildId, url, e)
      ensures trace == old(trace) + EnqueueEffects(e)
      ensures Evolves(old(store.requests), store.requests) && KeepsPlayedAt(old(store.requests), store.requests)
      ensures |store.requests| <= |old(store.requests)| + 1
      ensures music == old(music) && serverDone == old(serverDone)
      ensures triggers == old(triggers) && triggersClosed == old(triggersClosed) && passes == old(passes)
    {
      EnqueueStoreValid(store, guildId, url, e);
      if e.info.Err? {
        trace := trace + [Send(SongInfoError(e.info.error))];
        return;
      }
      var song := SongFromInfo(e.info.value, url);
      if e.upsertFails {
        trace := trace + [Send(AddSongDbError)];
        return;
      }
      store := store.(songs := store.songs[song.id := song]);
      var req := NewRequest(store.nextId, e.info.value, e.requester, e.messageGuildId, guildId, e.now);
      if e.insertFails {
        trace := trace + [Send(AddSongDbError)];
        return;
      }
      store := store.(requests := store.requests + [req], nextId := store.nextId + 1);
      trace := trace + [Send(SongAdded(e.info.value.title, e.requester.username))];
    }

    /**
      play: deletes the command message; without arguments it only prompts;
      otherwise it announces the attempt, enqueues args[0], and asks for the
      drain to start when no song is playing.
    */
    method PlaySong(args: seq<string>, e: Enqueue) returns (startDrain: bool)
      requires Valid()
      modifies this
      ensures Valid()
      ensures store == if |args| == 0 then old(store) else EnqueueStore(old(store), guildId, args[0], e)
      ensures trace == old(trace) + PlayEffects(args, e)
      ensures startDrain == (|args| > 0 && !old(music.songPlaying))
      ensures Extends(old(trace), trace)
      ensures Evolves(old(store.requests), store.requests) && KeepsPlayedAt(old(store.requests), store.requests)
      ensures |store.requests| <= |old(store.requests)| + 1
      ensures music == old(music) && serverDone == old(serverDone)
      ensures triggers == old(triggers) && triggersClosed == old(triggersClosed) && passes == old(passes)
    {
      ghost var t0 := trace;
      ExtendsAppend(t0, PlayEffects(args, e));
      if |args| == 0 {
        EvolvesRefl(store.requests);
        trace := trace + [DeleteCommandMessage, Send(PlayPrompt)];
        return false;
      }
      trace := trace + [DeleteCommandMessage, Send(Attempting(e.requester.username))];
      HandleSongInfo(args[0], e);
      assert trace == t0 + PlayEffects(args, e);
      startDrain := !music.songPlaying;
    }

    /** One action that arrives while a track streams, run through its command method. */
    method Apply(a: Action)
      requires Valid() && music.songPlaying
      modifies this
      ensures Valid() && SameTrack(old(music), music)
      ensures music.trackCancelled == (old(music.trackCancelled) || CancelsTrack(a))
      ensures serverDone == (old(serverDone) || a.Shutdown?)
      ensures Evolves(old(store.requests), store.requests) && KeepsPlayedAt(old(store.requests), store.requests)
      ensures |store.requests| <= |old(store.requests)| + (if a.PlayCommand? then 1 else 0)
      ensures Extends(old(trace), trace)
      ensures triggers == old(triggers) && triggersClosed == old(triggersClosed) && passes == old(passes)
    {
      match a
      case SkipCommand(author, fails) =>
        SkipSong(author, fails);
      case SkipAllCommand(author, bulkFails, markFails) =>
        SkipAllSongs(author, bulkFails, markFails);
      case PlayCommand(args, e) =>
        var _ := PlaySong(args, e);
      case Shutdown =>
        EvolvesRefl(store.requests);
        ExtendsAppend(trace, []);
        assert trace + [] == trace;
        serverDone := true;
    }

    /** Streaming: the actions that arrive while the track plays, in order. */
    method Stream(during: seq<Action>)
      requires Valid() && music.songPlaying
      modifies this
      ensures Valid() && SameTrack(old(music), music)
      ensures music.trackCancelled == (old(music.trackCancelled) || AnyCancel(during))
      ensures serverDone == (old(serverDone) || AnyShutdown(during))
      ensures Evolves(old(store.requests), store.requests) && KeepsPlayedAt(old(store.requests), store.requests)
      ensures |store.requests| <= |old(store.requests)| + Enqueues(during)
      ensures Extends(old(trace), trace)
      ensures during == [] ==> store == old(store) && trace == old(trace)
      ensures triggers == old(triggers) && triggersClosed == old(triggersClosed) && passes == old(passes)
    {
      EvolvesRefl(store.requests);
      assert trace[..|trace|] == trace;
      for i := 0 to |during|
        invariant |during| == 0 ==> store == old(store) && trace == old(trace)
        invariant Valid() && SameTrack(old(music), music)
        invariant music.trackCancelled == (old(music.trackCancelled) || AnyCancel(during[..i]))
        invariant serverDone == (old(serverDone) || AnyShutdown(during[..i]))
        invariant Evolves(old(store.requests), store.requests) && KeepsPlayedAt(old(store.requests), store.requests)
        invariant |store.requests| <= |old(store.requests)| + Enqueues(during[..i])
        invariant Extends(old(trace), trace)
        invariant triggers == old(triggers) && triggersClosed == old(triggersClosed) && passes == old(passes)
      {
        assert during[..i + 1][..i] == during[..i];
        ghost var before := store.requests;
        ghost var t := trace;
        Apply(during[i]);
        EvolvesTrans(old(store.requests), before, store.requests);
        ExtendsTrans(old(trace), t, trace);
      }
      assert during[..|during|] == during;
    }

    /**
      The ready branch of handleSongRequest up to the database update: the music
      state set for the request and SongPlaying published, the track streamed,
      then SongPlaying cleared and Skipped published when the track's context
      ended (cancelled, or the server's context done), Finished otherwise.
    */
    method PlayTrack(req: SongRequest, song: Song, now: int, during: seq<Action>)
      requires Valid()
      modifies this
      ensures Valid()
      ensures var started := req.(playedAt := Some(now));
        && |trace| > |old(trace)| + 1
        && trace[|old(trace)|] == PlayingEvent(started, song)
        && trace[|trace| - 1] == EndEvent(AnyCancel(during) || serverDone, started, song)
        && music.currentRequest == Some(started)
      ensures !music.songPlaying && music.songStarted == now
      ensures music.songDurationSeconds == song.durationInSeconds.GetOr(0)
      ensures music.currentSong == Some(song) && music.trackCancelled == AnyCancel(during)
      ensures Extends(old(trace), trace)
      ensures serverDone == (old(serverDone) || AnyShutdown(during))
      ensures Evolves(old(store.requests), store.requests) && KeepsPlayedAt(old(store.requests), store.requests)
      ensures |store.requests| <= |old(store.requests)| + Enqueues(during)
      ensures during == [] ==>
        && store == old(store)
        && trace == old(trace) + [PlayingEvent(req.(playedAt := Some(now)), song), EndEvent(old(serverDone), req.(playedAt := Some(now)), song)]
      ensures triggers == old(triggers) && triggersClosed == old(triggersClosed) && passes == old(passes)
    {
      var started := req.(playedAt := Some(now));
      music := music.(songDurationSeconds := song.durationInSeconds.GetOr(0), songStarted := now, songPlaying := true,
                      trackCancelled := false, currentRequest := Some(started), currentSong := Some(song));
      ghost var t0 := trace;
      trace := trace + [PlayingEvent(started, song)];
      ExtendsAppend(t0, [PlayingEvent(started, song)]);
      ghost var t1 := trace;
      Stream(during);
      ExtendsTrans(t0, t1, trace);
      assert trace[|t0|] == t1[|t0|];
      music := music.(songPlaying := false);
      var ctxEnded := music.trackCancelled || serverDone;
      ghost var t2 := trace;
      trace := trace + [EndEvent(ctxEnded, started, song)];
      ExtendsAppend(t2, [EndEvent(ctxEnded, started, song)]);
      ExtendsTrans(t0, t2, trace);
    }

    /**
      Marks the streamed request played in its row and in the music state,
      as songRequest.Played = true followed by songRequest.Update does.
    */
    method MarkRequestPlayed(rec: SongRequest, ghost k: nat)
      requires Valid() && rec.played
      requires k < |store.requests| && SameRequest(store.requests[k], rec) && store.requests[k].id == rec.id
      modifies this
      ensures Valid()
      ensures store == old(store).(requests := UpdateRow(old(store.requests), rec))
      ensures music == old(music).(currentRequest := Some(rec))
      ensures Evolves(old(store.requests), store.requests)
      ensures forall i :: 0 <= i < |store.requests| && store.requests[i].id == rec.id ==> store.requests[i] == rec
      ensures serverDone == old(serverDone) && trace == old(trace)
      ensures triggers == old(triggers) && triggersClosed == old(triggersClosed) && passes == old(passes)
    {
      forall i | 0 <= i < |store.requests| && store.requests[i].id == rec.id
        ensures SameRequest(store.requests[i], rec)
      {
        assert store.requests[i].id == store.requests[k].id;
      }
      UpdatePlayedEvolves(store.requests, rec);
      StoreValidRewrite(store, UpdateRow(store.requests, rec));
      store := store.(requests := UpdateRow(store.requests, rec));
      music := music.(currentRequest := Some(rec));
    }

    /**
      handleSongRequest: announces the request, then needs a ready voice
      connection, and with one plays the request.
    */
    method HandleSongRequest(req: SongRequest, voice: Voice, now: int, during: seq<Action>, updateFails: bool)
      returns (err: Option<string>)
      requires Valid() && req in store.requests && HasSong(store, req)
      modifies this
      ensures Valid()
      ensures |trace| > |old(trace)|
      ensures trace[|old(trace)|] == Send(NowPlayingNotice(SongOf(old(store), req), req))
      ensures voice != Ready ==>
        && err == Some(if voice == NoConnection then "unable to find voice connection" else "voice not ready")
        && store == old(store) && music == old(music) && serverDone == old(serverDone)
        && trace == old(trace) + [Send(NowPlayingNotice(SongOf(old(store), req), req))]
      ensures Evolves(old(store.requests), store.requests)
      ensures |store.requests| <= |old(store.requests)| + Enqueues(during)
      ensures voice == Ready ==>
        var song := SongOf(old(store), req);
        var started := req.(playedAt := Some(now));
        && |trace| > |old(trace)| + 2
        && trace[|old(trace)| + 1] == PlayingEvent(started, song)
        && trace[|trace| - 1] == EndEvent(AnyCancel(during) || serverDone, started, song)
        && Played(req, song, now, during, updateFails, err, old(serverDone), old(store.requests))
      ensures voice == Ready && during == [] && !updateFails && !old(serverDone) ==>
        var song := SongOf(old(store), req);
        var started := req.(playedAt := Some(now));
        && err.None? && !serverDone
        && store.requests == UpdateRow(old(store.requests), started.(played := true))
        && trace == old(trace) + [Send(NowPlayingNotice(song, req)), PlayingEvent(started, song), EndEvent(false, started, song)]
      ensures triggers == old(triggers) && triggersClosed == old(triggersClosed) && passes == old(passes)
    {
      var song := SongOf(store, req);
      ghost var t0 := trace;
      trace := trace + [Send(NowPlayingNotice(song, req))];
      if voice == NoConnection {
        EvolvesRefl(store.requests);
        return Some("unable to find voice connection");
      }
      if voice == NotReady {
        EvolvesRefl(store.requests);
        return Some("voice not ready");
      }
      ghost var t1 := trace;
      err := PlayRequest(req, song, now, during, updateFails);
      assert trace[|t0|] == t1[|t0|];
    }

    /**
      What playing a request leaves behind: the music state for the streamed
      song, SongPlaying cleared; unless the server is shutting down the request
      is marked played, in memory always and in its row unless the update fails.
    */
    ghost predicate Played(req: SongRequest, song: Song, now: int, during: seq<Action>, updateFails: bool,
                           err: Option<string>, serverDone0: bool, rows0: seq<SongRequest>)
      reads this
    {
      var started := req.(playedAt := Some(now));
      && !music.songPlaying && music.songStarted == now
      && music.songDurationSeconds == song.durationInSeconds.GetOr(0)
      && music.currentSong == Some(song) && music.trackCancelled == AnyCancel(during)
      && serverDone == (serverDone0 || AnyShutdown(during))
      && (serverDone ==> err.None? && music.currentRequest == Some(started))
      && (!serverDone ==> music.currentRequest == Some(started.(played := true)))
      && (serverDone || updateFails ==> KeepsPlayedAt(rows0, store.requests))
      && (!serverDone && updateFails ==> err == Some("unable to update song"))
      && (!serverDone && !updateFails ==>
            err.None? && forall i :: 0 <= i < |store.requests| && store.requests[i].id == req.id ==> store.requests[i] == started.(played := true))
    }

    /**
      The ready branch of handleSongRequest: stream the request and, unless the
      server is shutting down, mark it played; the in-memory current request is
      the same object, so it reads played even when the update fails.
    */
    method PlayRequest(req: SongRequest, song: Song, now: int, during: seq<Action>, updateFails: bool)
      returns (err: Option<string>)
      requires Valid() && req in store.requests
      modifies this
      ensures Valid()
      ensures Extends(old(trace), trace)
      ensures Evolves(old(store.requests), store.requests)
      ensures |store.requests| <= |old(store.requests)| + Enqueues(during)
      ensures var started := req.(playedAt := Some(now));
        && |trace| > |old(trace)| + 1
        && trace[|old(trace)|] == PlayingEvent(started, song)
        && trace[|trace| - 1] == EndEvent(AnyCancel(during) || serverDone, started, song)
      ensures Played(req, song, now, during, updateFails, err, old(serverDone), old(store.requests))
      ensures during == [] && !updateFails && !old(serverDone) ==>
        && err.None? && !serverDone
        && store.requests == UpdateRow(old(store.requests), req.(playedAt := Some(now), played := true))
        && trace == old(trace) + [PlayingEvent(req.(playedAt := Some(now)), song), EndEvent(false, req.(playedAt := Some(now)), song)]
      ensures triggers == old(triggers) && triggersClosed == old(triggersClosed) && passes == old(passes)
    {
      ghost var k :| 0 <= k < |store.requests| && store.requests[k] == req;
      ghost var rows0 := store.requests;
      var started := req.(playedAt := Some(now));
      PlayTrack(req, song, now, during);
      if serverDone {
        return None;
      }
      var rec := started.(played := true);
      if updateFails {
        music := music.(currentRequest := Some(rec));
        return Some("unable to update song");
      }
      assert SameRequest(rows0[k], store.requests[k]);
      ghost var rows1 := store.requests;
      MarkRequestPlayed(rec, k);
      EvolvesTrans(rows0, rows1, store.requests);
      return None;
    }

    /** The body of one loopNextSongs iteration after the context check: query the queue's head and play it. */
    method PlayNext(step: Step) returns (stop: Option<StopReason>)
      requires Valid() && !serverDone
      modifies this
      ensures Valid()
      ensures Evolves(old(store.requests), store.requests)
      ensures triggers == old(triggers) && triggersClosed == old(triggersClosed) && passes == old(passes)
      ensures step.queryFails || NextUnplayed(old(store.requests), guildId).None? ==>
        && stop == Some(if step.queryFails then QueryFailed else QueueEmpty)
        && store == old(store) && music == old(music) && trace == old(trace) && !serverDone
      ensures stop == Some(QueueEmpty) ==> NextUnplayed(store.requests, guildId).None?
      ensures stop != Some(ServerDone)
      ensures stop.None? && serverDone ==>
        CountUnplayed(store.requests, guildId) <= CountUnplayed(old(store.requests), guildId) + Enqueues(step.during)
      ensures stop.None? && !serverDone ==>
        CountUnplayed(store.requests, guildId) + 1 <= CountUnplayed(old(store.requests), guildId) + Enqueues(step.during)
      ensures !step.queryFails && NextUnplayed(old(store.requests), guildId).Some? ==>
        var head := NextUnplayed(old(store.requests), guildId).value;
        && |trace| > |old(trace)| && trace[|old(trace)|] == Send(NowPlayingNotice(SongOf(old(store), head), head))
        && (step.voice == Ready ==>
              |trace| > |old(trace)| + 1 && trace[|old(trace)| + 1] == PlayingEvent(head.(playedAt := Some(step.now)), SongOf(old(store), head)))
      ensures Calm(step) ==>
        && !serverDone && (stop.Some? ==> stop == Some(QueueEmpty))
        && Announced(trace) + DrainOrder(store.requests, guildId) == Announced(old(trace)) + DrainOrder(old(store.requests), guildId)
    {
      if step.queryFails {
        EvolvesRefl(store.requests);
        return Some(QueryFailed);
      }
      var next := NextUnplayed(store.requests, guildId);
      if next.None? {
        EvolvesRefl(store.requests);
        return Some(QueueEmpty);
      }
      var req := next.value;
      ghost var rows0 := store.requests;
      ghost var i :| 0 <= i < |rows0| && rows0[i] == req;
      ghost var t0 := trace;
      var e := HandleSongRequest(req, step.voice, step.now, step.during, step.updateFails);
      if Calm(step) {
        var started := req.(playedAt := Some(step.now));
        var song := SongOf(old(store), req);
        AnnouncedPass(t0, song, req, PlayingEvent(started, song), EndEvent(false, started, song));
        DrainOrderAfterPlay(rows0, guildId, started.(played := true));
        PassKeepsOrder(Announced(t0), Announced(trace), DrainOrder(rows0, guildId), DrainOrder(store.requests, guildId), req);
      }
      if e.Some? {
        return Some(PlayFailed(e.value));
      }
      if serverDone {
        EvolvesCount(rows0, store.requests, guildId);
      } else {
        assert SameRequest(rows0[i], store.requests[i]);
        EvolvesCountStrict(rows0, store.requests, guildId, i);
      }
      return None;
    }

    /**
      loopNextSongs: plays the guild's queue request by request until the server
      context is done, the query fails, the queue is empty, or a request fails
      to play.  It always returns nil: after a failed request it returns the
      query's error, which is nil at that point.
    */
    method LoopNextSongs(env: seq<Step>) returns (err: Option<string>, ghost why: StopReason)
      requires Valid()
      modifies this
      ensures Valid() && err.None?
      ensures Evolves(old(store.requests), store.requests)
      ensures passes == old(passes) + 1
      ensures why.ServerDone? ==> serverDone
      ensures why.QueueEmpty? ==> NextUnplayed(store.requests, guildId).None?
      ensures old(serverDone) ==> why.ServerDone? && store == old(store) && music == old(music) && trace == old(trace)
      ensures !old(serverDone) && (StepAt(env, 0).queryFails || NextUnplayed(old(store.requests), guildId).None?) ==>
        store == old(store) && music == old(music) && trace == old(trace) && serverDone == old(serverDone)
      ensures !old(serverDone) && AllCalm(env) ==>
        && why.QueueEmpty? && !serverDone
        && Announced(trace) == Announced(old(trace)) + DrainOrder(old(store.requests), guildId)
      ensures triggers == old(triggers) && triggersClosed == old(triggersClosed)
    {
      passes := passes + 1;
      EvolvesRefl(store.requests);
      // The first pass, whose early returns leave everything as it was.
      if serverDone {
        return None, ServerDone;
      }
      ghost var goal := Announced(trace) + DrainOrder(store.requests, guildId);
      ghost var calm := AllCalm(env);
      if calm {
        CalmAt(env, 0);
      }
      var stop := PlayNext(StepAt(env, 0));
      if stop.Some? {
        if calm {
          DrainedRest(Announced(trace), store.requests, guildId);
        }
        return None, stop.value;
      }
      EnqueuesFromStep(env, 0);
      var k := 1;
      while true
        invariant Valid()
        invariant Evolves(old(store.requests), store.requests)
        invariant passes == old(passes) + 1
        invariant triggers == old(triggers) && triggersClosed == old(triggersClosed)
        invariant calm ==> !serverDone && Announced(trace) + DrainOrder(store.requests, guildId) == goal
        decreases CountUnplayed(store.requests, guildId) + EnqueuesFrom(env, k), if serverDone then 0 else 1
      {
        if serverDone {
          return None, ServerDone;
        }
        ghost var before := store.requests;
        if calm {
          CalmAt(env, k);
        }
        stop := PlayNext(StepAt(env, k));
        EvolvesTrans(old(store.requests), before, store.requests);
        if stop.Some? {
          if calm {
            DrainedRest(Announced(trace), store.requests, guildId);
          }
          return None, stop.value;
        }
        EnqueuesFromStep(env, k);
        k := k + 1;
      }
    }

    /** drainSongRequestTriggers: takes every pending signal off the channel without blocking. */
    method DrainSongRequestTriggers()
      modifies this
      ensures triggers == 0
      ensures store == old(store) && music == old(music) && trace == old(trace) && serverDone == old(serverDone)
      ensures triggersClosed == old(triggersClosed) && passes == old(passes)
    {
      while true
        invariant store == old(store) && music == old(music) && trace == old(trace) && serverDone == old(serverDone)
        invariant triggersClosed == old(triggersClosed) && passes == old(passes)
        decreases triggers
      {
        if triggers > 0 {
          triggers := triggers - 1;
        } else {
          break;
        }
      }
    }

    /**
      The trigger case of handleSongQueue: one signal is received, the rest are
      drained, and exactly one drain pass runs however many were pending.
    */
    method OnTrigger(env: seq<Step>)
      requires Valid() && (triggers > 0 || triggersClosed)
      modifies this
      ensures Valid()
      ensures triggers == 0 && passes == old(passes) + 1
      ensures Evolves(old(store.requests), store.requests)
      ensures triggersClosed == old(triggersClosed)
      ensures !old(serverDone) && AllCalm(env) ==>
        && !serverDone && NextUnplayed(store.requests, guildId).None?
        && Announced(trace) == Announced(old(trace)) + DrainOrder(old(store.requests), guildId)
    {
      if triggers > 0 {
        triggers := triggers - 1;
      }
      DrainSongRequestTriggers();
      var _, _ := LoopNextSongs(env);
    }

    /**
      handleSongQueue: until the server context is done, runs a drain pass on
      each tick and on each trigger.  A trigger can only be taken when a signal
      is pending or the channel is closed; sends on a closed channel are not made.
    */
    method HandleSongQueue(wakes: seq<Wake>) returns (err: Option<string>)
      requires Valid()
      modifies this
      ensures Valid() && err.None?
      ensures Evolves(old(store.requests), store.requests)
      ensures passes <= old(passes) + |wakes|
      ensures old(serverDone) ==> store == old(store) && music == old(music) && trace == old(trace) && passes == old(passes)
      ensures !old(serverDone) && CalmWakes(wakes) ==>
        && Announced(trace) + DrainOrder(store.requests, guildId) == Announced(old(trace)) + DrainOrder(old(store.requests), guildId)
        && (passes > old(passes) ==>
              NextUnplayed(store.requests, guildId).None?
              && Announced(trace) == Announced(old(trace)) + DrainOrder(old(store.requests), guildId))
    {
      EvolvesRefl(store.requests);
      ghost var goal := Announced(trace) + DrainOrder(store.requests, guildId);
      ghost var calm := !serverDone && CalmWakes(wakes);
      for i := 0 to |wakes|
        invariant Valid()
        invariant Evolves(old(store.requests), store.requests)
        invariant passes <= old(passes) + i
        invariant old(serverDone) ==> serverDone && store == old(store) && music == old(music) && trace == old(trace) && passes == old(passes)
        invariant calm ==>
          && !serverDone && Announced(trace) + DrainOrder(store.requests, guildId) == goal
          && (passes > old(passes) ==> NextUnplayed(store.requests, guildId).None?)
      {
        if serverDone {
          return None;
        }
        ghost var before := store.requests;
        ghost var p := passes;
        ghost var ad := Announced(trace) + DrainOrder(store.requests, guildId);
        if calm {
          assert (wakes[i].Tick? || wakes[i].Signal?) ==> AllCalm(wakes[i].env);
        }
        OnWake(wakes[i]);
        EvolvesTrans(old(store.requests), before, store.requests);
        if calm && passes > p {
          DrainedRest(Announced(trace), store.requests, guildId);
          assert Announced(trace) + DrainOrder(store.requests, guildId) == ad;
        }

      }
      if calm && passes > old(passes) {
        DrainedRest(Announced(trace), store.requests, guildId);
      }
      return None;
    }

    /** One select case of handleSongQueue, or a change to the trigger channel. */
    method OnWake(w: Wake)
      requires Valid() && !serverDone
      modifies this
      ensures Valid()
      ensures Evolves(old(store.requests), store.requests)
      ensures old(passes) <= passes <= old(passes) + 1
      ensures passes == old(passes) ==> store == old(store) && trace == old(trace) && serverDone == old(serverDone)
      ensures ((w.Tick? || w.Signal?) ==> AllCalm(w.env)) ==>
        && !serverDone
        && (passes > old(passes) ==>
              && NextUnplayed(store.requests, guildId).None?
              && Announced(trace) == Announced(old(trace)) + DrainOrder(old(store.requests), guildId))
    {
      match w
      case Tick(env) =>
        var _, _ := LoopNextSongs(env);
      case Signal(env) =>
        if triggers > 0 || triggersClosed {
          OnTrigger(env);
        } else {
          EvolvesRefl(store.requests);
        }
      case Arrive(n) =>
        EvolvesRefl(store.requests);
        if !triggersClosed {
          triggers := triggers + n;
        }
      case CloseTriggers =>
        EvolvesRefl(store.requests);
        triggersClosed := true;
    }
  }
}
