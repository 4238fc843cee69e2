/**
  The older playback path of pkg/discord/commands.go, which the current drain
  loop replaced but which still ships.  It differs from the current loop in
  four ways: its query orders by requested_at only; it marks a streamed request
  played whatever ended the track, shutdown included; a missing or unready
  voice connection ends the whole loop; and skip-all deletes the other waiting
  rows instead of marking them played.  Its skip does not look at whether a
  song is playing.
*/
module LegacyMusic {
  import opened Wrappers
  import opened Chat
  import opened SongStore
  import opened Scheduler
  import NowPlaying

  // ---------------------------------------------------------------- counting the queue around one id

  /** The guild's queued rows with the given id. */
  function CountQueuedId(rows: seq<SongRequest>, g: string, id: nat): nat
  {
    if |rows| == 0 then 0
    else (if Queued(rows[0], g) && rows[0].id == id then 1 else 0) + CountQueuedId(rows[1..], g, id)
  }

  /** The queue splits into the rows with a given id and the rest. */
  lemma {:induction false} CountUnplayedSplit(rows: seq<SongRequest>, g: string, id: nat)
    ensures CountUnplayed(rows, g) == CountSkippable(rows, g, Some(id)) + CountQueuedId(rows, g, id)
  {
    if |rows| > 0 {
      CountUnplayedSplit(rows[1..], g, id);
      assert |Unplayed(rows, g)| == (if Queued(rows[0], g) then 1 else 0) + |Unplayed(rows[1..], g)|;
    }
  }

  lemma {:induction false} CountQueuedIdPositive(rows: seq<SongRequest>, g: string, k: nat)
    requires k < |rows| && Queued(rows[k], g)
    ensures CountQueuedId(rows, g, rows[k].id) >= 1
  {
    if k > 0 {
      assert rows[1..][k - 1] == rows[k];
      CountQueuedIdPositive(rows[1..], g, k - 1);
    }
  }

  lemma {:induction false} CountQueuedIdNone(rows: seq<SongRequest>, g: string, id: nat)
    requires forall i :: 0 <= i < |rows| ==> !(Queued(rows[i], g) && rows[i].id == id)
    ensures CountQueuedId(rows, g, id) == 0
  {
    if |rows| > 0 {
      assert forall i :: 0 <= i < |rows[1..]| ==> rows[1..][i] == rows[i + 1];
      CountQueuedIdNone(rows[1..], g, id);
    }
  }

  /** A table whose selected rows were all selected before, row for row, selects no more. */
  lemma {:induction false} CountSkippablePointwise(a: seq<SongRequest>, b: seq<SongRequest>, g: string, ex: Option<nat>)
    requires |a| == |b|
    requires forall i :: 0 <= i < |b| && Skippable(b[i], g, ex) ==> Skippable(a[i], g, ex)
    ensures CountSkippable(b, g, ex) <= CountSkippable(a, g, ex)
  {
    if |a| > 0 {
      assert forall i :: 0 <= i < |b[1..]| ==> b[1..][i] == b[i + 1] && a[1..][i] == a[i + 1];
      CountSkippablePointwise(a[1..], b[1..], g, ex);
    }
  }

  lemma {:induction false} CountSkippableAppend(rows: seq<SongRequest>, r: SongRequest, g: string, ex: Option<nat>)
    ensures CountSkippable(rows + [r], g, ex) == CountSkippable(rows, g, ex) + (if Skippable(r, g, ex) then 1 else 0)
  {
    if |rows| == 0 {
      assert rows + [r] == [r];
      assert [r][1..] == [];
    } else {
      assert (rows + [r])[0] == rows[0];
      assert (rows + [r])[1..] == rows[1..] + [r];
      CountSkippableAppend(rows[1..], r, g, ex);
    }
  }

  /** After the delete no row is left that the same delete would select. */
  lemma {:induction false} CountSkippableDelete(rows: seq<SongRequest>, g: string, e: nat)
    ensures CountSkippable(DeleteSkippable(rows, g, e), g, Some(e)) == 0
  {
    if |rows| > 0 {
      CountSkippableDelete(rows[1..], g, e);
      var rest := DeleteSkippable(rows[1..], g, e);
      var d := DeleteSkippable(rows, g, e);
      if !Skippable(rows[0], g, Some(e)) {
        assert d == [rows[0]] + rest;
        assert d[0] == rows[0] && d[1..] == rest;
      } else {
        assert d == rest;
      }
    }
  }

  /** Deleting keeps the ids unique. */
  lemma {:induction false} DeleteKeepsUnique(rows: seq<SongRequest>, g: string, e: nat)
    requires UniqueIds(rows)
    ensures UniqueIds(DeleteSkippable(rows, g, e))
  {
    if |rows| > 0 {
      assert UniqueIds(rows[1..]) by {
        assert forall i :: 0 <= i < |rows[1..]| ==> rows[1..][i] == rows[i + 1];
      }
      DeleteKeepsUnique(rows[1..], g, e);
      var rest := DeleteSkippable(rows[1..], g, e);
      if !Skippable(rows[0], g, Some(e)) {
        var r := [rows[0]] + rest;
        assert DeleteSkippable(rows, g, e) == r;
        forall j | 0 <= j < |rest| ensures rest[j].id != rows[0].id {
          assert rest[j] in rows[1..];
          var m :| 0 <= m < |rows[1..]| && rows[1..][m] == rest[j];
          assert rows[m + 1] == rest[j];
        }
        forall i, j | 0 <= i < |r| && 0 <= j < |r| && i != j ensures r[i].id != r[j].id {
          if i > 0 && j > 0 {
            assert r[i] == rest[i - 1] && r[j] == rest[j - 1];
          } else if i == 0 {
            assert r[j] == rest[j - 1];
          } else {
            assert r[i] == rest[i - 1];
          }
        }
      }
    }
  }

  /** The legacy skip-all and the current one leave the same queue behind; only the table length differs. */
  lemma {:induction false} DeleteAndMarkLeaveSameQueue(rows: seq<SongRequest>, g: string, e: nat)
    ensures Unplayed(DeleteSkippable(rows, g, e), g) == Unplayed(BulkMarkPlayed(rows, g, Some(e)), g)
    ensures |DeleteSkippable(rows, g, e)| == |rows| - CountSkippable(rows, g, Some(e))
    ensures |BulkMarkPlayed(rows, g, Some(e))| == |rows|
  {
    if |rows| > 0 {
      DeleteAndMarkLeaveSameQueue(rows[1..], g, e);
      var b := BulkMarkPlayed(rows, g, Some(e));
      assert b[1..] == BulkMarkPlayed(rows[1..], g, Some(e));
      assert Unplayed(b, g) == (if Queued(b[0], g) then [b[0]] else []) + Unplayed(b[1..], g);
      var d := DeleteSkippable(rows, g, e);
      var rest := DeleteSkippable(rows[1..], g, e);
      if !Skippable(rows[0], g, Some(e)) {
        assert d == [rows[0]] + rest;
        assert d[1..] == rest && d[0] == rows[0];
      } else {
        assert d == rest;
      }
    }
  }

  // ---------------------------------------------------------------- the legacy instance

  /** What may happen while a legacy track streams. */
  datatype LegacyAction =
    | LegacySkip(author: string, updateFails: bool)
    | LegacySkipAll(author: string, deleteFails: bool, markFails: bool)
    | LegacyPlay(args: seq<string>, enqueue: Enqueue)
    | LegacyShutdown

  predicate LegacyCancels(a: LegacyAction)
  {
    a.LegacySkip? || (a.LegacySkipAll? && !a.deleteFails)
  }

  function LegacyAnyCancel(acts: seq<LegacyAction>): bool
  {
    if |acts| == 0 then false else LegacyAnyCancel(acts[..|acts| - 1]) || LegacyCancels(acts[|acts| - 1])
  }

  function LegacyEnqueues(acts: seq<LegacyAction>): nat
  {
    if |acts| == 0 then 0 else LegacyEnqueues(acts[..|acts| - 1]) + (if acts[|acts| - 1].LegacyPlay? then 1 else 0)
  }

  /** One pass of the legacy loop: does the query fail, the voice state, the clock, what happens while streaming, does the update fail. */
  datatype LegacyStep = LegacyStep(queryFails: bool, voice: Voice, now: int, during: seq<LegacyAction>, updateFails: bool)

  function LegacyStepAt(env: seq<LegacyStep>, k: nat): LegacyStep
  {
    if k < |env| then env[k] else LegacyStep(false, Ready, if |env| == 0 then 0 else env[|env| - 1].now, [], false)
  }

  function LegacyEnqueuesFrom(env: seq<LegacyStep>, k: nat): nat
    decreases |env| - k
  {
    if k >= |env| then 0 else LegacyEnqueues(env[k].during) + LegacyEnqueuesFrom(env, k + 1)
  }

  lemma LegacyEnqueuesFromStep(env: seq<LegacyStep>, k: nat)
    ensures LegacyEnqueuesFrom(env, k) == LegacyEnqueues(LegacyStepAt(env, k).during) + LegacyEnqueuesFrom(env, k + 1)
  {
  }

  /** A legacy pass in which nothing goes wrong and nothing happens while the track streams. */
  predicate LegacyCalm(s: LegacyStep)
  {
    !s.queryFails && s.voice == Ready && s.during == [] && !s.updateFails
  }

  predicate LegacyAllCalm(env: seq<LegacyStep>)
  {
    forall k :: 0 <= k < |env| ==> LegacyCalm(env[k])
  }

  lemma LegacyCalmAt(env: seq<LegacyStep>, k: nat)
    requires LegacyAllCalm(env)
    ensures LegacyCalm(LegacyStepAt(env, k))
  {
  }

  /** Once the older query finds nothing, nothing is left to come in its order. */
  lemma LegacyDrainedRest(a: seq<SongRequest>, rows: seq<SongRequest>, g: string)
    requires LegacyNext(rows, g).None?
    ensures a + LegacyDrainOrder(rows, g) == a
  {
    assert LegacyDrainOrder(rows, g) == [];
    assert a + [] == a;
  }

  /** Why handleSong returned. */
  datatype LegacyExit = ExitServerDone | ExitQueryError | ExitNoRows | ExitNoVoice | ExitVoiceNotReady | ExitUpdateFailed

  /** The rows with the request's id hold that request, up to the playback columns. */
  ghost predicate RowAgrees(rows: seq<SongRequest>, req: SongRequest)
  {
    forall i :: 0 <= i < |rows| && rows[i].id == req.id ==> SameRequest(rows[i], req)
  }

  class LegacyInstance {
    const guildId: string
    const guildName: string
    var store: Store
    var songPlaying: bool
    var songStarted: int
    var songDurationSeconds: int
    /** CurrentSongRequestID and CurrentSongName: plain values, 0 and "" before any song. */
    var currentRequestId: nat
    var currentSongName: string
    var trackCancelled: bool
    var skipAllToken: nat
    var cancelledSkipAll: set<nat>
    var serverDone: bool
    var trace: seq<Effect>
    /** The request being streamed, while one is. */
    ghost var streaming: Option<SongRequest>

    ghost predicate Valid()
      reads this
    {
      && StoreValid(store)
      && skipAllToken !in cancelledSkipAll
      && (forall t :: t in cancelledSkipAll ==> t < skipAllToken)
      && (streaming.Some? ==>
            && streaming.value.id == currentRequestId && currentRequestId < store.nextId
            && RowAgrees(store.requests, streaming.value))
    }

    constructor (guildId: string, guildName: string, store: Store)
      requires StoreValid(store)
      ensures Valid()
      ensures this.guildId == guildId && this.guildName == guildName && this.store == store
      ensures !songPlaying && currentRequestId == 0 && currentSongName == "" && !trackCancelled
      ensures !serverDone && trace == [] && streaming.None?
    {
      this.guildId := guildId;
      this.guildName := guildName;
      this.store := store;
      songPlaying := false;
      songStarted := ZeroTime;
      songDurationSeconds := 0;
      currentRequestId := 0;
      currentSongName := "";
      trackCancelled := false;
      skipAllToken := 0;
      cancelledSkipAll := {};
      serverDone := false;
      trace := [];
      streaming := None;
    }

    /**
      The legacy skip: marks CurrentSongRequestID played (a failed update only
      adds an error message), announces the skip and cancels the track, whether
      or not a song is playing.
    */
    method SkipSong(author: string, updateFails: bool)
      requires Valid()
      modifies this
      ensures Valid()
      ensures store == old(store).(requests := if updateFails then old(store.requests) else MarkPlayedById(old(store.requests), currentRequestId))
      ensures trace == old(trace) + (if updateFails then [Send(SkipDbError)] else [])
        + [Send(Skipping(currentSongName, author))]
      ensures trackCancelled
      ensures CountSkippable(store.requests, guildId, Some(currentRequestId)) <= CountSkippable(old(store.requests), guildId, Some(currentRequestId))
      ensures Extends(old(trace), trace)
      ensures songPlaying == old(songPlaying) && currentRequestId == old(currentRequestId) && currentSongName == old(currentSongName)
      ensures songStarted == old(songStarted) && songDurationSeconds == old(songDurationSeconds)
      ensures skipAllToken == old(skipAllToken) && cancelledSkipAll == old(cancelledSkipAll)
      ensures serverDone == old(serverDone) && streaming == old(streaming)
    {
      var t0 := trace;
      if updateFails {
        trace := trace + [Send(SkipDbError)];
      } else {
        var rows := MarkPlayedById(store.requests, currentRequestId);
        MarkPlayedEvolves(store.requests, currentRequestId);
        StoreValidRewrite(store, rows);
        CountSkippablePointwise(store.requests, rows, guildId, Some(currentRequestId));
        store := store.(requests := rows);
      }
      trace := trace + [Send(Skipping(currentSongName, author))];
      ExtendsAppend(t0, (if updateFails then [Send(SkipDbError)] else []) + [Send(Skipping(currentSongName, author))]);
      trackCancelled := true;
    }

    /**
      The legacy skip-all: cancels the old skip-all token and installs a fresh
      one tied to no other context, deletes the guild's other waiting rows,
      reports how many, then skips.  No event is published.  A failed delete
      ends the command after its error message.
    */
    method SkipAllSongs(author: string, deleteFails: bool, markFails: bool)
      requires Valid()
      modifies this
      ensures Valid()
      ensures skipAllToken == old(skipAllToken) + 1 && cancelledSkipAll == old(cancelledSkipAll) + {old(skipAllToken)}
      ensures deleteFails ==>
        store == old(store) && trace == old(trace) + [Send(SkipAllDbError)] && trackCancelled == old(trackCancelled)
      ensures !deleteFails ==>
        var deleted := DeleteSkippable(old(store.requests), guildId, currentRequestId);
        && store == old(store).(requests := if markFails then deleted else MarkPlayedById(deleted, currentRequestId))
        && trace == old(trace) + [Send(SkippedAll(CountSkippable(old(store.requests), guildId, Some(currentRequestId)), author))]
          + (if markFails then [Send(SkipDbError)] else []) + [Send(Skipping(currentSongName, author))]
      ensures trackCancelled == (old(trackCancelled) || !deleteFails)
      ensures CountSkippable(store.requests, guildId, Some(currentRequestId)) <= CountSkippable(old(store.requests), guildId, Some(currentRequestId))
      ensures Extends(old(trace), trace)
      ensures songPlaying == old(songPlaying) && currentRequestId == old(currentRequestId) && currentSongName == old(currentSongName)
      ensures songStarted == old(songStarted) && songDurationSeconds == old(songDurationSeconds)
      ensures serverDone == old(serverDone) && streaming == old(streaming)
    {
      cancelledSkipAll := cancelledSkipAll + {skipAllToken};
      skipAllToken := skipAllToken + 1;
      var t0 := trace;
      if deleteFails {
        trace := trace + [Send(SkipAllDbError)];
        ExtendsAppend(t0, [Send(SkipAllDbError)]);
        return;
      }
      DeleteWaiting(author);
      ghost var t1 := trace;
      SkipSong(author, markFails);
      ExtendsTrans(t0, t1, trace);
    }

    /** The delete of skipAllSongs and its report of how many rows it removed. */
    method DeleteWaiting(author: string)
      requires Valid()
      modifies this
      ensures Valid()
      ensures store == old(store).(requests := DeleteSkippable(old(store.requests), guildId, currentRequestId))
      ensures trace == old(trace) + [Send(SkippedAll(CountSkippable(old(store.requests), guildId, Some(currentRequestId)), author))]
      ensures CountSkippable(store.requests, guildId, Some(currentRequestId)) == 0
      ensures Extends(old(trace), trace)
      ensures songPlaying == old(songPlaying) && currentRequestId == old(currentRequestId) && currentSongName == old(currentSongName)
      ensures songStarted == old(songStarted) && songDurationSeconds == old(songDurationSeconds) && trackCancelled == old(trackCancelled)
      ensures skipAllToken == old(skipAllToken) && cancelledSkipAll == old(cancelledSkipAll)
        && serverDone == old(serverDone) && streaming == old(streaming)
    {
      var skipped := CountSkippable(store.requests, guildId, Some(currentRequestId));
      DeleteWaitingKeeps(store, guildId, currentRequestId, streaming);
      store := store.(requests := DeleteSkippable(store.requests, guildId, currentRequestId));
      var sent := [Send(SkippedAll(skipped, author))];
      ExtendsAppend(trace, sent);
      trace := trace + sent;
    }

    /**
      playSong and handleSongInfo of the legacy file, which match the current
      ones except that GuildNameAtTime receives the guild's name; the caller
      starts handleSong when startDrain is set.
    */
    method PlayEnqueue(args: seq<string>, e: Enqueue) returns (startDrain: bool)
      requires Valid()
      modifies this
      ensures Valid()
      ensures store == if |args| == 0 then old(store) else EnqueueStore(old(store), guildName, args[0], e)
      ensures trace == old(trace) + PlayEffects(args, e)
      ensures startDrain == (|args| > 0 && !songPlaying)
      ensures CountSkippable(store.requests, guildId, Some(currentRequestId)) <= CountSkippable(old(store.requests), guildId, Some(currentRequestId)) + 1
      ensures CountUnplayed(store.requests, guildId) <= CountUnplayed(old(store.requests), guildId) + 1
      ensures Extends(old(trace), trace)
      ensures songPlaying == old(songPlaying) && currentRequestId == old(currentRequestId) && currentSongName == old(currentSongName)
      ensures songStarted == old(songStarted) && songDurationSeconds == old(songDurationSeconds) && trackCancelled == old(trackCancelled)
      ensures skipAllToken == old(skipAllToken) && cancelledSkipAll == old(cancelledSkipAll)
      ensures serverDone == old(serverDone) && streaming == old(streaming)
    {
      ExtendsAppend(trace, PlayEffects(args, e));
      trace := trace + PlayEffects(args, e);
      if |args| == 0 {
        return false;
      }
      var st := EnqueueStore(store, guildName, args[0], e);
      LegacyEnqueueKeeps(store, guildName, args[0], e, currentRequestId, guildId, streaming);
      store := st;
      startDrain := !songPlaying;
    }

    /** One action during a legacy stream. */
    method Apply(a: LegacyAction)
      requires Valid()
      modifies this
      ensures Valid()
      ensures trackCancelled == (old(trackCancelled) || LegacyCancels(a))
      ensures serverDone == (old(serverDone) || a.LegacyShutdown?)
      ensures CountSkippable(store.requests, guildId, Some(currentRequestId))
        <= CountSkippable(old(store.requests), guildId, Some(currentRequestId)) + (if a.LegacyPlay? then 1 else 0)
      ensures Extends(old(trace), trace)
      ensures songPlaying == old(songPlaying) && currentRequestId == old(currentRequestId) && currentSongName == old(currentSongName)
      ensures songStarted == old(songStarted) && songDurationSeconds == old(songDurationSeconds)
      ensures streaming == old(streaming)
    {
      match a
      case LegacySkip(author, fails) =>
        SkipSong(author, fails);
      case LegacySkipAll(author, deleteFails, markFails) =>
        SkipAllSongs(author, deleteFails, markFails);
      case LegacyPlay(args, e) =>
        var _ := PlayEnqueue(args, e);
      case LegacyShutdown =>
        assert trace[..|trace|] == trace;
        serverDone := true;
    }

    /** The actions that arrive while a legacy track streams, in order. */
    method Stream(during: seq<LegacyAction>)
      requires Valid()
      modifies this
      ensures Valid()
      ensures trackCancelled == (old(trackCancelled) || LegacyAnyCancel(during))
      ensures CountSkippable(store.requests, guildId, Some(currentRequestId))
        <= CountSkippable(old(store.requests), guildId, Some(currentRequestId)) + LegacyEnqueues(during)
      ensures Extends(old(trace), trace)
      ensures songPlaying == old(songPlaying) && currentRequestId == old(currentRequestId) && currentSongName == old(currentSongName)
      ensures songStarted == old(songStarted) && songDurationSeconds == old(songDurationSeconds)
      ensures streaming == old(streaming)
      ensures during == [] ==> store == old(store) && trace == old(trace) && serverDone == old(serverDone)
    {
      assert trace[..|trace|] == trace;
      for i := 0 to |during|
        invariant |during| == 0 ==> store == old(store) && trace == old(trace) && serverDone == old(serverDone)
        invariant Valid()
        invariant trackCancelled == (old(trackCancelled) || LegacyAnyCancel(during[..i]))
        invariant CountSkippable(store.requests, guildId, Some(currentRequestId))
          <= CountSkippable(old(store.requests), guildId, Some(currentRequestId)) + LegacyEnqueues(during[..i])
        invariant Extends(old(trace), trace)
        invariant songPlaying == old(songPlaying) && currentRequestId == old(currentRequestId) && currentSongName == old(currentSongName)
        invariant songStarted == old(songStarted) && songDurationSeconds == old(songDurationSeconds)
        invariant streaming == old(streaming)
      {
        assert during[..i + 1][..i] == during[..i];
        ghost var t := trace;
        Apply(during[i]);
        ExtendsTrans(old(trace), t, trace);
      }
      assert during[..|during|] == during;
    }

    /**
      The streamed part of a pass: record the request as current, stream it,
      then write it back played whatever ended the track (a cancel, the end of
      the song or a shutdown alike).
    */
    method PlayTrack(req: SongRequest, song: Song, now: int, during: seq<LegacyAction>, updateFails: bool)
      returns (exit: Option<LegacyExit>)
      requires Valid() && streaming.None?
      requires req in store.requests && req.id < store.nextId
      modifies this
      ensures Valid() && streaming.None?
      ensures currentRequestId == req.id && currentSongName == req.songName
      ensures songStarted == now && songDurationSeconds == song.durationInSeconds.GetOr(0)
      ensures trackCancelled == LegacyAnyCancel(during)
      ensures songPlaying == old(songPlaying)
      ensures Extends(old(trace), trace)
      ensures exit == (if updateFails then Some(ExitUpdateFailed) else None)
      ensures !updateFails ==> forall i :: 0 <= i < |store.requests| && store.requests[i].id == req.id ==>
        store.requests[i] == req.(playedAt := Some(now), played := true)
      ensures CountSkippable(store.requests, guildId, Some(req.id))
        <= CountSkippable(old(store.requests), guildId, Some(req.id)) + LegacyEnqueues(during)
      ensures !updateFails ==> CountQueuedId(store.requests, guildId, req.id) == 0
      ensures during == [] && !updateFails ==>
        && store.requests == UpdateRow(old(store.requests), req.(playedAt := Some(now), played := true))
        && trace == old(trace) && serverDone == old(serverDone)
    {
      StartTrack(req, song, now);
      Stream(during);
      var rec := req.(playedAt := Some(now), played := true);
      assert RowAgrees(store.requests, rec) by {
        assert rec.(played := false, playedAt := None) == req.(played := false, playedAt := None);
      }
      streaming := None;
      if updateFails {
        return Some(ExitUpdateFailed);
      }
      WriteBack(rec);
      return None;
    }

    /** The music state set for the request about to stream; it becomes the streamed request. */
    method StartTrack(req: SongRequest, song: Song, now: int)
      requires Valid() && streaming.None?
      requires req in store.requests && req.id < store.nextId
      modifies this
      ensures Valid() && streaming == Some(req)
      ensures currentRequestId == req.id && currentSongName == req.songName
      ensures songStarted == now && songDurationSeconds == song.durationInSeconds.GetOr(0) && !trackCancelled
      ensures store == old(store) && trace == old(trace) && songPlaying == old(songPlaying) && serverDone == old(serverDone)
    {
      ghost var k :| 0 <= k < |store.requests| && store.requests[k] == req;
      songDurationSeconds := song.durationInSeconds.GetOr(0);
      songStarted := now;
      trackCancelled := false;
      currentRequestId := req.id;
      currentSongName := req.songName;
      streaming := Some(req);
      assert RowAgrees(store.requests, req) by {
        forall i | 0 <= i < |store.requests| && store.requests[i].id == req.id ensures SameRequest(store.requests[i], req) {
          assert store.requests[i].id == store.requests[k].id;
        }
      }
    }

    /** The update after streaming: every row with the request's id becomes the played record. */
    method WriteBack(rec: SongRequest)
      requires Valid() && streaming.None? && rec.played && RowAgrees(store.requests, rec)
      modifies this
      ensures Valid() && streaming.None?
      ensures store == old(store).(requests := UpdateRow(old(store.requests), rec))
      ensures forall i :: 0 <= i < |store.requests| && store.requests[i].id == rec.id ==> store.requests[i] == rec
      ensures CountSkippable(store.requests, guildId, Some(rec.id)) <= CountSkippable(old(store.requests), guildId, Some(rec.id))
      ensures CountQueuedId(store.requests, guildId, rec.id) == 0
      ensures songPlaying == old(songPlaying) && currentRequestId == old(currentRequestId) && currentSongName == old(currentSongName)
      ensures songStarted == old(songStarted) && songDurationSeconds == old(songDurationSeconds) && trackCancelled == old(trackCancelled)
      ensures skipAllToken == old(skipAllToken) && cancelledSkipAll == old(cancelledSkipAll)
      ensures serverDone == old(serverDone) && trace == old(trace)
    {
      var rows := UpdateRow(store.requests, rec);
      StoreValidRewrite(store, rows);
      CountSkippablePointwise(store.requests, rows, guildId, Some(rec.id));
      CountQueuedIdNone(rows, guildId, rec.id);
      store := store.(requests := rows);
    }

    /**
      One pass of the legacy loop after the context check: query the earliest
      request by requested_at, announce it, need a ready voice connection, then
      play it.  A missing or unready connection ends the loop.
    */
    method PlayOne(step: LegacyStep) returns (exit: Option<LegacyExit>)
      requires Valid() && streaming.None?
      modifies this
      ensures Valid() && streaming.None? && songPlaying == old(songPlaying)
      ensures Extends(old(trace), trace)
      ensures exit != Some(ExitServerDone)
      ensures step.queryFails ==> exit == Some(ExitQueryError) && store == old(store) && trace == old(trace)
      ensures !step.queryFails && LegacyNext(old(store.requests), guildId).None? ==>
        exit == Some(ExitNoRows) && store == old(store) && trace == old(trace)
      ensures exit == Some(ExitNoRows) ==> LegacyNext(store.requests, guildId).None?
      ensures !step.queryFails && LegacyNext(old(store.requests), guildId).Some? ==>
        var req := LegacyNext(old(store.requests), guildId).value;
        && Extends(old(trace) + [Send(NowPlayingNotice(SongOf(old(store), req), req))], trace)
        && (step.voice != Ready ==>
              && exit == Some(if step.voice == NoConnection then ExitNoVoice else ExitVoiceNotReady)
              && store == old(store) && currentRequestId == old(currentRequestId))
        && (step.voice == Ready ==> currentRequestId == req.id && exit == (if step.updateFails then Some(ExitUpdateFailed) else None))
      ensures exit.None? ==> CountUnplayed(store.requests, guildId) + 1 <= CountUnplayed(old(store.requests), guildId) + LegacyEnqueues(step.during)
      ensures LegacyCalm(step) ==>
        && (exit.Some? ==> exit == Some(ExitNoRows)) && serverDone == old(serverDone)
        && Announced(trace) + LegacyDrainOrder(store.requests, guildId) == Announced(old(trace)) + LegacyDrainOrder(old(store.requests), guildId)
    {
      if step.queryFails {
        return Some(ExitQueryError);
      }
      var next := LegacyNext(store.requests, guildId);
      if next.None? {
        return Some(ExitNoRows);
      }
      var req := next.value;
      var song := SongOf(store, req);
      ghost var t1 := trace + [Send(NowPlayingNotice(song, req))];
      ExtendsAppend(trace, [Send(NowPlayingNotice(song, req))]);
      trace := trace + [Send(NowPlayingNotice(song, req))];
      if step.voice == NoConnection {
        return Some(ExitNoVoice);
      }
      if step.voice == NotReady {
        return Some(ExitVoiceNotReady);
      }
      ghost var rows0 := store.requests;
      ghost var k :| 0 <= k < |rows0| && rows0[k] == req;
      exit := PlayTrack(req, song, step.now, step.during, step.updateFails);
      ExtendsTrans(old(trace), t1, trace);
      if LegacyCalm(step) {
        AnnouncedNotice(old(trace), song, req);
        LegacyDrainOrderAfterPlay(rows0, guildId, req.(playedAt := Some(step.now), played := true));
        PassKeepsOrder(Announced(old(trace)), Announced(trace), LegacyDrainOrder(rows0, guildId),
                       LegacyDrainOrder(store.requests, guildId), req);
      }
      if exit.None? {
        TrackAccounting(rows0, store.requests, guildId, k, LegacyEnqueues(step.during));
      }
    }

    /**
      handleSong: SongPlaying is set on entry and cleared on every way out; the
      loop plays request after request until the server context is done, the
      query fails or finds no rows, or a pass fails.
    */
    method HandleSong(env: seq<LegacyStep>) returns (ghost why: LegacyExit)
      requires Valid() && streaming.None?
      modifies this
      ensures Valid() && !songPlaying && streaming.None?
      ensures why == ExitServerDone ==> serverDone
      ensures why == ExitNoRows ==> LegacyNext(store.requests, guildId).None?
      ensures old(serverDone) ==> why == ExitServerDone && store == old(store) && trace == old(trace)
      ensures !old(serverDone) && LegacyAllCalm(env) ==>
        && why == ExitNoRows
        && Announced(trace) == Announced(old(trace)) + LegacyDrainOrder(old(store.requests), guildId)
    {
      songPlaying := true;
      ghost var goal := Announced(trace) + LegacyDrainOrder(store.requests, guildId);
      ghost var calm := !serverDone && LegacyAllCalm(env);
      var k := 0;
      while true
        invariant Valid() && songPlaying && streaming.None?
        invariant old(serverDone) ==> serverDone && store == old(store) && trace == old(trace)
        invariant calm ==> !serverDone && Announced(trace) + LegacyDrainOrder(store.requests, guildId) == goal
        decreases CountUnplayed(store.requests, guildId) + LegacyEnqueuesFrom(env, k)
      {
        if serverDone {
          songPlaying := false;
          return ExitServerDone;
        }
        var step := LegacyStepAt(env, k);
        LegacyEnqueuesFromStep(env, k);
        if calm {
          LegacyCalmAt(env, k);
        }
        var exit := PlayOne(step);
        if exit.Some? {
          if calm {
            LegacyDrainedRest(Announced(trace), store.requests, guildId);
          }
          songPlaying := false;
          return exit.value;
        }
        k := k + 1;
      }
    }

    /** The legacy play command: enqueue, then run handleSong when nothing is playing. */
    method PlaySong(args: seq<string>, e: Enqueue, env: seq<LegacyStep>)
      requires Valid() && streaming.None?
      modifies this
      ensures Valid() && streaming.None?
      ensures |args| == 0 ==>
        store == old(store) && trace == old(trace) + PlayEffects(args, e) && songPlaying == old(songPlaying)
      ensures |args| > 0 && !old(songPlaying) ==> !songPlaying
      ensures |args| > 0 && !old(songPlaying) && !old(serverDone) && LegacyAllCalm(env) ==>
        && LegacyNext(store.requests, guildId).None?
        && Announced(trace) == Announced(old(trace) + PlayEffects(args, e))
             + LegacyDrainOrder(EnqueueStore(old(store), guildName, args[0], e).requests, guildId)
    {
      var start := PlayEnqueue(args, e);
      if start {
        var _ := HandleSong(env);
      }
    }
  }

  /** Deleting rows keeps the tables valid and the streamed request's rows agreeing. */
  lemma DeleteKeepsValid(st: Store, rows: seq<SongRequest>, streaming: Option<SongRequest>)
    requires StoreValid(st) && UniqueIds(rows)
    requires forall x :: x in rows ==> x in st.requests
    requires streaming.Some? ==> RowAgrees(st.requests, streaming.value)
    ensures StoreValid(st.(requests := rows))
    ensures streaming.Some? ==> RowAgrees(rows, streaming.value)
  {
    forall i | 0 <= i < |rows| ensures rows[i].id < st.nextId && HasSong(st, rows[i]) {
      assert rows[i] in st.requests;
      var j :| 0 <= j < |st.requests| && st.requests[j] == rows[i];
    }
    if streaming.Some? {
      forall i | 0 <= i < |rows| && rows[i].id == streaming.value.id ensures SameRequest(rows[i], streaming.value) {
        assert rows[i] in st.requests;
        var j :| 0 <= j < |st.requests| && st.requests[j] == rows[i];
      }
    }
  }

  /** The skip-all delete keeps the tables valid and leaves nothing it would delete again. */
  lemma DeleteWaitingKeeps(st: Store, g: string, e: nat, streaming: Option<SongRequest>)
    requires StoreValid(st)
    requires streaming.Some? ==> RowAgrees(st.requests, streaming.value)
    ensures StoreValid(st.(requests := DeleteSkippable(st.requests, g, e)))
    ensures streaming.Some? ==> RowAgrees(DeleteSkippable(st.requests, g, e), streaming.value)
    ensures CountSkippable(DeleteSkippable(st.requests, g, e), g, Some(e)) == 0
  {
    DeleteKeepsUnique(st.requests, g, e);
    CountSkippableDelete(st.requests, g, e);
    DeleteKeepsValid(st, DeleteSkippable(st.requests, g, e), streaming);
  }

  /** A legacy enqueue adds at most one row, with a fresh id, so the streamed request's rows still agree. */
  lemma LegacyEnqueueKeeps(st: Store, name: string, url: string, e: Enqueue, cur: nat, g: string, streaming: Option<SongRequest>)
    requires StoreValid(st)
    requires streaming.Some? ==> streaming.value.id == cur && cur < st.nextId && RowAgrees(st.requests, streaming.value)
    ensures var r := EnqueueStore(st, name, url, e);
      && StoreValid(r) && r.nextId >= st.nextId
      && CountSkippable(r.requests, g, Some(cur)) <= CountSkippable(st.requests, g, Some(cur)) + 1
      && CountUnplayed(r.requests, g) <= CountUnplayed(st.requests, g) + 1
      && (streaming.Some? ==> RowAgrees(r.requests, streaming.value))
  {
    EnqueueStoreValid(st, name, url, e);
    EnqueueStoreEffect(st, name, url, e);
    var r := EnqueueStore(st, name, url, e);
    if r.requests != st.requests {
      var n := NewRequest(st.nextId, e.info.value, e.requester, e.messageGuildId, name, e.now);
      CountSkippableAppend(st.requests, n, g, Some(cur));
      UnplayedAppend(st.requests, n, g);
      if streaming.Some? {
        assert forall i :: 0 <= i < |st.requests| ==> r.requests[i] == st.requests[i];
      }
    }
  }

  /**
    The accounting of one played pass: its request was queued before; after it
    no row with that id is queued, and the other queued rows grew by at most the
    number of enqueues, so the queue shrank by one net of those.
  */
  lemma TrackAccounting(rows0: seq<SongRequest>, rows2: seq<SongRequest>, g: string, k: nat, enq: nat)
    requires k < |rows0| && Queued(rows0[k], g)
    requires CountSkippable(rows2, g, Some(rows0[k].id)) <= CountSkippable(rows0, g, Some(rows0[k].id)) + enq
    requires CountQueuedId(rows2, g, rows0[k].id) == 0
    ensures CountUnplayed(rows2, g) + 1 <= CountUnplayed(rows0, g) + enq
  {
    CountUnplayedSplit(rows0, g, rows0[k].id);
    CountQueuedIdPositive(rows0, g, k);
    CountUnplayedSplit(rows2, g, rows0[k].id);
  }
}
