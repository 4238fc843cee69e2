/**
  The song and song_request tables, held in memory.  A store is the song rows
  keyed by id, the request rows in insertion order, and the next value of the
  request id sequence.  The queries the music commands run against the tables
  are functions here; the commands that run them are in other modules.
  Times are whole seconds.
*/
module SongStore {
  import opened Wrappers
  import Sorting

  /** A value decoded from the untyped JSON the song extractor prints. */
  datatype JsonValue = JString(str: string) | JNumber(num: int) | JBool(b: bool) | JNull

  /** utils.InterfaceToNullString (and its copy in pkg/discord/commands.go): a string stays, anything else is null. */
  function InterfaceToNullString(v: JsonValue): (r: Option<string>)
    ensures r.Some? <==> v.JString?
    ensures v.JString? ==> r == Some(v.str)
  {
    match v
    case JString(s) => Some(s)
    case _ => None
  }

  /** A row of the song table. */
  datatype Song = Song(
    id: string,
    platform: Option<string>,
    songName: string,
    description: Option<string>,
    url: string,
    durationInSeconds: Option<int>,
    isStream: bool,
    thumbnailUrl: Option<string>,
    artist: Option<string>,
    album: Option<string>,
    track: Option<string>)

  /** A row of the song_request table. */
  datatype SongRequest = SongRequest(
    id: nat,
    songId: Option<string>,
    songName: string,
    requestedByUserId: string,
    usernameAtTime: string,
    guildId: string,
    guildNameAtTime: string,
    requestedAt: int,
    played: bool,
    playedAt: Option<int>)

  datatype Store = Store(songs: map<string, Song>, requests: seq<SongRequest>, nextId: nat)

  /** Request ids are unique. */
  ghost predicate UniqueIds(rows: seq<SongRequest>)
  {
    forall i, j :: 0 <= i < |rows| && 0 <= j < |rows| && i != j ==> rows[i].id != rows[j].id
  }

  /** What the database keeps true: unique ids below the sequence value, and every request's song row exists. */
  ghost predicate StoreValid(st: Store)
  {
    && UniqueIds(st.requests)
    && (forall i :: 0 <= i < |st.requests| ==> st.requests[i].id < st.nextId)
    && (forall i :: 0 <= i < |st.requests| ==> HasSong(st, st.requests[i]))
  }

  predicate HasSong(st: Store, r: SongRequest)
  {
    r.songId.Some? && r.songId.value in st.songs
  }

  /** The song a request refers to, as qm.Load(SongRequestRels.Song) loads it. */
  function SongOf(st: Store, r: SongRequest): Song
    requires HasSong(st, r)
  {
    st.songs[r.songId.value]
  }

  // ---------------------------------------------------------------- the queue query

  /** A row the queue queries select: guild_id = g and played = false. */
  predicate Queued(r: SongRequest, g: string)
  {
    r.guildId == g && !r.played
  }

  /** The order of getNextSongInQueue: requested_at ascending, then id ascending. */
  predicate KeyLe(a: SongRequest, b: SongRequest)
  {
    a.requestedAt < b.requestedAt || (a.requestedAt == b.requestedAt && a.id <= b.id)
  }

  /** Strictly earlier in the queue order. */
  predicate Before(a: SongRequest, b: SongRequest)
  {
    a.requestedAt < b.requestedAt || (a.requestedAt == b.requestedAt && a.id < b.id)
  }

  /**
    getNextSongInQueue: the guild's unplayed request that comes first by
    (requested_at, id); None when the guild has none.
  */
  function NextUnplayed(rows: seq<SongRequest>, g: string): (r: Option<SongRequest>)
    ensures r.None? <==> forall i :: 0 <= i < |rows| ==> !Queued(rows[i], g)
    ensures r.Some? ==> r.value in rows && Queued(r.value, g)
    ensures r.Some? ==> forall i :: 0 <= i < |rows| && Queued(rows[i], g) ==> KeyLe(r.value, rows[i])
  {
    if |rows| == 0 then None
    else
      var rest := NextUnplayed(rows[1..], g);
      assert forall i :: 1 <= i < |rows| ==> rows[i] == rows[1..][i - 1];
      if !Queued(rows[0], g) then rest
      else if rest.None? || KeyLe(rows[0], rest.value) then Some(rows[0])
      else rest
  }

  /** With unique ids the first request is unique: any queued row that is first by the key is the one returned. */
  lemma NextUnplayedIsTheMinimum(rows: seq<SongRequest>, g: string, k: nat)
    requires UniqueIds(rows)
    requires k < |rows| && Queued(rows[k], g)
    requires forall i :: 0 <= i < |rows| && Queued(rows[i], g) ==> KeyLe(rows[k], rows[i])
    ensures NextUnplayed(rows, g) == Some(rows[k])
  {
    var x := NextUnplayed(rows, g).value;
    var j :| 0 <= j < |rows| && rows[j] == x;
    assert KeyLe(x, rows[k]) && KeyLe(rows[k], x);
    assert rows[j].id == rows[k].id;
  }

  /** The unplayed requests of guild g, in table order. */
  function Unplayed(rows: seq<SongRequest>, g: string): (u: seq<SongRequest>)
    ensures |u| <= |rows|
    ensures forall x :: x in u <==> x in rows && Queued(x, g)
  {
    if |rows| == 0 then []
    else
      assert rows == [rows[0]] + rows[1..];
      (if Queued(rows[0], g) then [rows[0]] else []) + Unplayed(rows[1..], g)
  }

  /** Appending a row adds it to the queue exactly when it is queued. */
  lemma {:induction false} UnplayedAppend(rows: seq<SongRequest>, r: SongRequest, g: string)
    ensures Unplayed(rows + [r], g) == Unplayed(rows, g) + (if Queued(r, g) then [r] else [])
  {
    if |rows| == 0 {
      assert rows + [r] == [r];
      assert [r][1..] == [];
    } else {
      assert (rows + [r])[0] == rows[0];
      assert (rows + [r])[1..] == rows[1..] + [r];
      UnplayedAppend(rows[1..], r, g);
    }
  }

  /** The number songCount and the API's total report. */
  function CountUnplayed(rows: seq<SongRequest>, g: string): nat
  {
    |Unplayed(rows, g)|
  }

  lemma CountUnplayedZero(rows: seq<SongRequest>, g: string)
    ensures CountUnplayed(rows, g) == 0 <==> NextUnplayed(rows, g).None?
  {
    if CountUnplayed(rows, g) != 0 {
      assert Unplayed(rows, g)[0] in Unplayed(rows, g);
    }
  }

  // ---------------------------------------------------------------- updates

  /** `update song_request set played = true where id = $1`. */
  function MarkPlayedById(rows: seq<SongRequest>, id: nat): (r: seq<SongRequest>)
    ensures |r| == |rows|
    ensures forall i :: 0 <= i < |rows| && rows[i].id == id ==> r[i] == rows[i].(played := true)
    ensures forall i :: 0 <= i < |rows| && rows[i].id != id ==> r[i] == rows[i]
  {
    seq(|rows|, i requires 0 <= i < |rows| => if rows[i].id == id then rows[i].(played := true) else rows[i])
  }

  /** songRequest.Update: writes every column of the record over the row with the same id. */
  function UpdateRow(rows: seq<SongRequest>, rec: SongRequest): (r: seq<SongRequest>)
    ensures |r| == |rows|
    ensures forall i :: 0 <= i < |rows| && rows[i].id == rec.id ==> r[i] == rec
    ensures forall i :: 0 <= i < |rows| && rows[i].id != rec.id ==> r[i] == rows[i]
  {
    seq(|rows|, i requires 0 <= i < |rows| => if rows[i].id == rec.id then rec else rows[i])
  }

  /** The rows skip-all selects: `guild_id = $1 and played = false and id != $2`; no current id excludes nothing. */
  predicate Skippable(r: SongRequest, g: string, except: Option<nat>)
  {
    Queued(r, g) && (except.None? || r.id != except.value)
  }

  function CountSkippable(rows: seq<SongRequest>, g: string, except: Option<nat>): nat
  {
    if |rows| == 0 then 0
    else (if Skippable(rows[0], g, except) then 1 else 0) + CountSkippable(rows[1..], g, except)
  }

  /** The bulk update of skipAllSongs: every selected row becomes played, nothing else changes. */
  function BulkMarkPlayed(rows: seq<SongRequest>, g: string, except: Option<nat>): (r: seq<SongRequest>)
    ensures |r| == |rows|
    ensures forall i :: 0 <= i < |rows| && Skippable(rows[i], g, except) ==> r[i] == rows[i].(played := true)
    ensures forall i :: 0 <= i < |rows| && !Skippable(rows[i], g, except) ==> r[i] == rows[i]
  {
    seq(|rows|, i requires 0 <= i < |rows| => if Skippable(rows[i], g, except) then rows[i].(played := true) else rows[i])
  }

  /** Running the bulk update a second time changes nothing. */
  lemma BulkMarkPlayedIdempotent(rows: seq<SongRequest>, g: string, except: Option<nat>)
    ensures BulkMarkPlayed(BulkMarkPlayed(rows, g, except), g, except) == BulkMarkPlayed(rows, g, except)
  {
  }

  /** After the bulk update the guild's only unplayed row, if any, is the excluded one. */
  lemma BulkMarkPlayedLeavesOnlyExcluded(rows: seq<SongRequest>, g: string, except: Option<nat>)
    ensures forall i :: 0 <= i < |rows| && Queued(BulkMarkPlayed(rows, g, except)[i], g) ==>
      except.Some? && rows[i].id == except.value
  {
  }

  /** The legacy skip-all: `delete from song_request where guild_id = $1 and played = false and id != $2`. */
  function DeleteSkippable(rows: seq<SongRequest>, g: string, except: nat): (r: seq<SongRequest>)
    ensures forall x :: x in r <==> x in rows && !Skippable(x, g, Some(except))
    ensures |r| + CountSkippable(rows, g, Some(except)) == |rows|
  {
    if |rows| == 0 then []
    else
      assert rows == [rows[0]] + rows[1..];
      (if Skippable(rows[0], g, Some(except)) then [] else [rows[0]]) + DeleteSkippable(rows[1..], g, except)
  }

  // ---------------------------------------------------------------- how the table evolves

  /** The same request, ignoring the two columns playback writes. */
  predicate SameRequest(a: SongRequest, b: SongRequest)
  {
    a.(played := false, playedAt := None) == b.(played := false, playedAt := None)
  }

  /**
    b is a later state of the table a: rows are only appended, no row changes
    except in played and played_at, and played only goes from false to true.
  */
  ghost predicate Evolves(a: seq<SongRequest>, b: seq<SongRequest>)
  {
    && |a| <= |b|
    && (forall i :: 0 <= i < |a| ==> SameRequest(a[i], b[i]))
    && (forall i :: 0 <= i < |a| ==> a[i].played ==> b[i].played)
  }

  lemma EvolvesRefl(a: seq<SongRequest>)
    ensures Evolves(a, a)
  {
  }

  lemma EvolvesTrans(a: seq<SongRequest>, b: seq<SongRequest>, c: seq<SongRequest>)
    requires Evolves(a, b) && Evolves(b, c)
    ensures Evolves(a, c)
  {
  }

  lemma MarkPlayedEvolves(rows: seq<SongRequest>, id: nat)
    ensures Evolves(rows, MarkPlayedById(rows, id))
  {
  }

  lemma BulkMarkPlayedEvolves(rows: seq<SongRequest>, g: string, except: Option<nat>)
    ensures Evolves(rows, BulkMarkPlayed(rows, g, except))
  {
  }

  /** Writing back a played copy of a row is an evolution of the table. */
  lemma UpdatePlayedEvolves(rows: seq<SongRequest>, rec: SongRequest)
    requires rec.played
    requires forall i :: 0 <= i < |rows| && rows[i].id == rec.id ==> SameRequest(rows[i], rec)
    ensures Evolves(rows, UpdateRow(rows, rec))
  {
  }

  /** Rewriting rows in place, keeping every column playback does not write, keeps the store valid. */
  lemma StoreValidRewrite(st: Store, rows: seq<SongRequest>)
    requires StoreValid(st)
    requires |rows| == |st.requests|
    requires forall i :: 0 <= i < |rows| ==> SameRequest(st.requests[i], rows[i])
    ensures StoreValid(st.(requests := rows))
  {
    forall i | 0 <= i < |rows| ensures rows[i].id == st.requests[i].id && rows[i].songId == st.requests[i].songId {
      assert SameRequest(st.requests[i], rows[i]);
    }
  }

  /** Upserting a song row keeps the tables valid: songs are only added or replaced. */
  lemma UpsertSongValid(st: Store, s: Song)
    requires StoreValid(st)
    ensures StoreValid(st.(songs := st.songs[s.id := s]))
  {
    var st' := st.(songs := st.songs[s.id := s]);
    forall i | 0 <= i < |st.requests| ensures HasSong(st', st.requests[i]) {
      assert HasSong(st, st.requests[i]);
    }
  }

  /** Inserting a request with the next sequence value, for a song that exists, keeps the tables valid. */
  lemma InsertRequestValid(st: Store, r: SongRequest)
    requires StoreValid(st)
    requires r.id == st.nextId && HasSong(st, r)
    ensures StoreValid(st.(requests := st.requests + [r], nextId := st.nextId + 1))
  {
    var rows := st.requests + [r];
    assert forall i :: 0 <= i < |st.requests| ==> rows[i] == st.requests[i];
    assert rows[|st.requests|] == r;
  }

  /** Appending rows is an evolution of the table. */
  lemma AppendEvolves(rows: seq<SongRequest>, more: seq<SongRequest>)
    ensures Evolves(rows, rows + more)
  {
  }

  /** As the table evolves, the queue grows by at most the rows appended. */
  lemma {:induction false} EvolvesCount(a: seq<SongRequest>, b: seq<SongRequest>, g: string)
    requires Evolves(a, b)
    ensures CountUnplayed(b, g) <= CountUnplayed(a, g) + (|b| - |a|)
  {
    if |a| == 0 {
    } else {
      assert Evolves(a[1..], b[1..]) by {
        forall i | 0 <= i < |a[1..]| ensures SameRequest(a[1..][i], b[1..][i]) {
          assert a[1..][i] == a[i + 1] && b[1..][i] == b[i + 1];
        }
      }
      EvolvesCount(a[1..], b[1..], g);
      assert SameRequest(a[0], b[0]);
    }
  }

  /** ... and it shrinks by one more when a queued row of g has become played. */
  lemma {:induction false} EvolvesCountStrict(a: seq<SongRequest>, b: seq<SongRequest>, g: string, k: nat)
    requires Evolves(a, b)
    requires k < |a| && Queued(a[k], g) && b[k].played
    ensures CountUnplayed(b, g) + 1 <= CountUnplayed(a, g) + (|b| - |a|)
  {
    assert Evolves(a[1..], b[1..]) by {
      forall i | 0 <= i < |a[1..]| ensures SameRequest(a[1..][i], b[1..][i]) {
        assert a[1..][i] == a[i + 1] && b[1..][i] == b[i + 1];
      }
    }
    assert SameRequest(a[0], b[0]);
    if k == 0 {
      EvolvesCount(a[1..], b[1..], g);
    } else {
      assert a[1..][k - 1] == a[k] && b[1..][k - 1] == b[k];
      EvolvesCountStrict(a[1..], b[1..], g, k - 1);
    }
  }

  // ---------------------------------------------------------------- FIFO

  /**
    Once the request at the head of the queue has been played, the new head comes
    strictly after it, provided every request appended meanwhile carries a later
    time and a larger id.
  */
  lemma NextAfterPlayed(a: seq<SongRequest>, b: seq<SongRequest>, g: string)
    requires UniqueIds(a) && Evolves(a, b)
    requires NextUnplayed(a, g).Some?
    requires forall i :: 0 <= i < |a| && a[i] == NextUnplayed(a, g).value ==> b[i].played
    requires forall i :: |a| <= i < |b| ==>
      NextUnplayed(a, g).value.requestedAt <= b[i].requestedAt && NextUnplayed(a, g).value.id < b[i].id
    ensures NextUnplayed(b, g).Some? ==> Before(NextUnplayed(a, g).value, NextUnplayed(b, g).value)
  {
    var x := NextUnplayed(a, g).value;
    if NextUnplayed(b, g).Some? {
      var y := NextUnplayed(b, g).value;
      var i :| 0 <= i < |b| && b[i] == y;
      if i < |a| {
        assert SameRequest(a[i], b[i]);
        assert Queued(a[i], g);
        assert KeyLe(x, a[i]);
        var j :| 0 <= j < |a| && a[j] == x;
        assert i != j;
        assert a[i].id != a[j].id;
      }
    }
  }

  /**
    The order the drain loop plays the queue in when nothing else touches the
    table: take the next request, mark it played, repeat.
  */
  function DrainOrder(rows: seq<SongRequest>, g: string): seq<SongRequest>
    decreases CountUnplayed(rows, g)
  {
    match NextUnplayed(rows, g)
    case None => []
    case Some(x) =>
      var i :| 0 <= i < |rows| && rows[i] == x;
      MarkPlayedEvolves(rows, x.id);
      EvolvesCountStrict(rows, MarkPlayedById(rows, x.id), g, i);
      [x] + DrainOrder(MarkPlayedById(rows, x.id), g)
  }

  /** Marking row x's id played keeps the ids unique and removes exactly x from the queue. */
  lemma MarkPlayedUnplayed(rows: seq<SongRequest>, g: string, x: SongRequest, y: SongRequest)
    requires UniqueIds(rows) && x in rows
    ensures UniqueIds(MarkPlayedById(rows, x.id))
    ensures y in Unplayed(MarkPlayedById(rows, x.id), g) <==> y in Unplayed(rows, g) && y != x
  {
    MarkPlayedKeepsUnique(rows, x.id);
    var r := MarkPlayedById(rows, x.id);
    var j :| 0 <= j < |rows| && rows[j] == x;
    if y in Unplayed(r, g) {
      var i :| 0 <= i < |r| && r[i] == y;
      assert rows[i].id != x.id;
      assert rows[i] == y;
    }
    if y in Unplayed(rows, g) && y != x {
      var i :| 0 <= i < |rows| && rows[i] == y;
      assert i != j;
      assert r[i] == y;
    }
  }

  lemma MarkPlayedKeepsUnique(rows: seq<SongRequest>, id: nat)
    requires UniqueIds(rows)
    ensures UniqueIds(MarkPlayedById(rows, id))
  {
  }

  /** One drain step: marking the head played removes exactly it, and what stays queued comes strictly after it. */
  lemma DrainStep(rows: seq<SongRequest>, g: string, x: SongRequest)
    requires UniqueIds(rows) && NextUnplayed(rows, g) == Some(x)
    ensures UniqueIds(MarkPlayedById(rows, x.id))
    ensures forall y :: y in Unplayed(MarkPlayedById(rows, x.id), g) <==> y in Unplayed(rows, g) && y != x
    ensures forall y :: y in Unplayed(MarkPlayedById(rows, x.id), g) ==> Before(x, y)
  {
    var r := MarkPlayedById(rows, x.id);
    var i :| 0 <= i < |rows| && rows[i] == x;
    forall y ensures y in Unplayed(r, g) <==> y in Unplayed(rows, g) && y != x {
      MarkPlayedUnplayed(rows, g, x, y);
    }
    MarkPlayedUnplayed(rows, g, x, x);
    forall y | y in Unplayed(r, g) ensures Before(x, y) {
      var m :| 0 <= m < |rows| && rows[m] == y;
      assert KeyLe(x, rows[m]);
      assert m != i;
    }
  }

  /** Strictly increasing by (requested_at, id). */
  predicate FifoOrder(d: seq<SongRequest>)
  {
    forall i, j :: 0 <= i < j < |d| ==> Before(d[i], d[j])
  }

  /**
    The drain order is first-in first-out: strictly increasing by (requested_at,
    id), and it plays exactly the requests queued for the guild.
  */
  lemma DrainOrderIsFifo(rows: seq<SongRequest>, g: string)
    requires UniqueIds(rows)
    ensures FifoOrder(DrainOrder(rows, g))
    ensures forall y :: y in DrainOrder(rows, g) <==> y in Unplayed(rows, g)
  {
    DrainOrderMembers(rows, g);
    DrainOrderSorted(rows, g);
  }

  lemma {:induction false} DrainOrderMembers(rows: seq<SongRequest>, g: string)
    requires UniqueIds(rows)
    ensures forall y :: y in DrainOrder(rows, g) <==> y in Unplayed(rows, g)
    decreases CountUnplayed(rows, g)
  {
    match NextUnplayed(rows, g)
    case None =>
      CountUnplayedZero(rows, g);
    case Some(x) =>
      var r := MarkPlayedById(rows, x.id);
      var i :| 0 <= i < |rows| && rows[i] == x;
      MarkPlayedEvolves(rows, x.id);
      EvolvesCountStrict(rows, r, g, i);
      DrainStep(rows, g, x);
      DrainOrderMembers(r, g);
      assert DrainOrder(rows, g) == [x] + DrainOrder(r, g);
  }

  lemma {:induction false} DrainOrderSorted(rows: seq<SongRequest>, g: string)
    requires UniqueIds(rows)
    ensures FifoOrder(DrainOrder(rows, g))
    decreases CountUnplayed(rows, g)
  {
    match NextUnplayed(rows, g)
    case None =>
    case Some(x) =>
      var r := MarkPlayedById(rows, x.id);
      var i :| 0 <= i < |rows| && rows[i] == x;
      MarkPlayedEvolves(rows, x.id);
      EvolvesCountStrict(rows, r, g, i);
      DrainStep(rows, g, x);
      DrainOrderSorted(r, g);
      DrainOrderMembers(r, g);
      ConsFifo(x, DrainOrder(r, g));
      assert DrainOrder(rows, g) == [x] + DrainOrder(r, g);
  }

  /** A request before everything in an ordered sequence keeps it ordered when put in front. */
  lemma ConsFifo(x: SongRequest, rest: seq<SongRequest>)
    requires FifoOrder(rest) && forall y :: y in rest ==> Before(x, y)
    ensures FifoOrder([x] + rest)
  {
    var d := [x] + rest;
    forall a, b | 0 <= a < b < |d| ensures Before(d[a], d[b]) {
      assert d[b] == rest[b - 1];
      if a > 0 {
        assert d[a] == rest[a - 1];
      }
    }
  }

  // ---------------------------------------------------------------- the drain order depends only on the queue

  /** The queue query looks at the queued rows only: its head is the head of the queue alone. */
  lemma {:induction false} NextFromQueue(rows: seq<SongRequest>, g: string)
    ensures NextUnplayed(rows, g) == NextUnplayed(Unplayed(rows, g), g)
  {
    if |rows| > 0 {
      NextFromQueue(rows[1..], g);
      var u1 := Unplayed(rows[1..], g);
      if Queued(rows[0], g) {
        assert Unplayed(rows, g) == [rows[0]] + u1;
        assert ([rows[0]] + u1)[1..] == u1;
      } else {
        assert Unplayed(rows, g) == u1;
      }
    }
  }

  /** The queue without the rows of one id. */
  function DropId(u: seq<SongRequest>, id: nat): seq<SongRequest>
  {
    if |u| == 0 then [] else (if u[0].id == id then [] else [u[0]]) + DropId(u[1..], id)
  }

  /** Marking an id played takes exactly the rows of that id out of the queue. */
  lemma {:induction false} UnplayedMark(rows: seq<SongRequest>, id: nat, g: string)
    ensures Unplayed(MarkPlayedById(rows, id), g) == DropId(Unplayed(rows, g), id)
  {
    var m := MarkPlayedById(rows, id);
    if |rows| > 0 {
      assert m[1..] == MarkPlayedById(rows[1..], id);
      UnplayedMark(rows[1..], id, g);
      var u1 := Unplayed(rows[1..], g);
      if Queued(rows[0], g) {
        assert Unplayed(rows, g) == [rows[0]] + u1;
        assert ([rows[0]] + u1)[1..] == u1;
      } else {
        assert Unplayed(rows, g) == u1;
      }
    } else {
      assert Unplayed(m, g) == [];
    }
  }

  /** Two tables whose queued rows are the same rows, position by position, have the same queue. */
  lemma {:induction false} UnplayedAgree(a: seq<SongRequest>, b: seq<SongRequest>, g: string)
    requires |a| == |b|
    requires forall i :: 0 <= i < |a| && (Queued(a[i], g) || Queued(b[i], g)) ==> a[i] == b[i]
    ensures Unplayed(a, g) == Unplayed(b, g)
  {
    if |a| > 0 {
      assert forall i :: 0 <= i < |a[1..]| ==> a[1..][i] == a[i + 1] && b[1..][i] == b[i + 1];
      UnplayedAgree(a[1..], b[1..], g);
    }
  }

  /** The drain order is a function of the queue: tables with the same queue drain alike. */
  lemma {:induction false} DrainOrderFromQueue(a: seq<SongRequest>, b: seq<SongRequest>, g: string)
    requires Unplayed(a, g) == Unplayed(b, g)
    ensures DrainOrder(a, g) == DrainOrder(b, g)
    decreases CountUnplayed(a, g)
  {
    NextFromQueue(a, g);
    NextFromQueue(b, g);
    match NextUnplayed(a, g)
    case None =>
    case Some(x) =>
      var i :| 0 <= i < |a| && a[i] == x;
      MarkPlayedEvolves(a, x.id);
      EvolvesCountStrict(a, MarkPlayedById(a, x.id), g, i);
      UnplayedMark(a, x.id, g);
      UnplayedMark(b, x.id, g);
      DrainOrderFromQueue(MarkPlayedById(a, x.id), MarkPlayedById(b, x.id), g);
  }

  /**
    Playing the head and writing it back as a played record (played_at set, as
    the drain loop's update does) leaves the rest of the drain order to come.
  */
  lemma DrainOrderAfterPlay(rows: seq<SongRequest>, g: string, rec: SongRequest)
    requires NextUnplayed(rows, g).Some? && rec.id == NextUnplayed(rows, g).value.id && rec.played
    ensures DrainOrder(rows, g) == [NextUnplayed(rows, g).value] + DrainOrder(UpdateRow(rows, rec), g)
  {
    var x := NextUnplayed(rows, g).value;
    UnplayedAgree(UpdateRow(rows, rec), MarkPlayedById(rows, x.id), g);
    DrainOrderFromQueue(MarkPlayedById(rows, x.id), UpdateRow(rows, rec), g);
  }

  // ---------------------------------------------------------------- the older ordering

  /**
    The older drain loop's query orders by requested_at only; among requests
    with the same time the table order decides here.
  */
  function LegacyNext(rows: seq<SongRequest>, g: string): (r: Option<SongRequest>)
    ensures r.None? <==> forall i :: 0 <= i < |rows| ==> !Queued(rows[i], g)
    ensures r.Some? ==> r.value in rows && Queued(r.value, g)
    ensures r.Some? ==> forall i :: 0 <= i < |rows| && Queued(rows[i], g) ==> r.value.requestedAt <= rows[i].requestedAt
  {
    if |rows| == 0 then None
    else
      var rest := LegacyNext(rows[1..], g);
      assert forall i :: 1 <= i < |rows| ==> rows[i] == rows[1..][i - 1];
      if !Queued(rows[0], g) then rest
      else if rest.None? || rows[0].requestedAt <= rest.value.requestedAt then Some(rows[0])
      else rest
  }

  /** No two queued requests of g share a requested_at. */
  ghost predicate DistinctQueuedTimes(rows: seq<SongRequest>, g: string)
  {
    forall i, j :: 0 <= i < |rows| && 0 <= j < |rows| && i != j && Queued(rows[i], g) && Queued(rows[j], g) ==>
      rows[i].requestedAt != rows[j].requestedAt
  }

  /** When no two queued requests share a time, both orderings pick the same request. */
  lemma LegacyNextAgrees(rows: seq<SongRequest>, g: string)
    requires DistinctQueuedTimes(rows, g)
    ensures LegacyNext(rows, g) == NextUnplayed(rows, g)
  {
    if NextUnplayed(rows, g).Some? {
      var x := NextUnplayed(rows, g).value;
      var y := LegacyNext(rows, g).value;
      var i :| 0 <= i < |rows| && rows[i] == x;
      var j :| 0 <= j < |rows| && rows[j] == y;
      assert KeyLe(x, y);
      assert y.requestedAt <= x.requestedAt;
    }
  }

  /** Two requests at the same time: the current loop plays the lower id first, the older one can play the other. */
  lemma LegacyNextDiffersOnTies()
    ensures var a := SongRequest(2, Some("s"), "a", "u", "u", "g", "g", 5, false, None);
            var b := SongRequest(1, Some("s"), "b", "u", "u", "g", "g", 5, false, None);
            NextUnplayed([a, b], "g") == Some(b) && LegacyNext([a, b], "g") == Some(a)
  {
    var a := SongRequest(2, Some("s"), "a", "u", "u", "g", "g", 5, false, None);
    var b := SongRequest(1, Some("s"), "b", "u", "u", "g", "g", 5, false, None);
    assert [a, b][1..] == [b];
  }

  /**
    The order the older loop plays the queue in when nothing else touches the
    table: its earliest request by requested_at, marked played, and so on.
  */
  function LegacyDrainOrder(rows: seq<SongRequest>, g: string): seq<SongRequest>
    decreases CountUnplayed(rows, g)
  {
    match LegacyNext(rows, g)
    case None => []
    case Some(x) =>
      var i :| 0 <= i < |rows| && rows[i] == x;
      MarkPlayedEvolves(rows, x.id);
      EvolvesCountStrict(rows, MarkPlayedById(rows, x.id), g, i);
      [x] + LegacyDrainOrder(MarkPlayedById(rows, x.id), g)
  }

  /** The older query also looks at the queued rows only. */
  lemma {:induction false} LegacyNextFromQueue(rows: seq<SongRequest>, g: string)
    ensures LegacyNext(rows, g) == LegacyNext(Unplayed(rows, g), g)
  {
    if |rows| > 0 {
      LegacyNextFromQueue(rows[1..], g);
      var u1 := Unplayed(rows[1..], g);
      if Queued(rows[0], g) {
        assert Unplayed(rows, g) == [rows[0]] + u1;
        assert ([rows[0]] + u1)[1..] == u1;
      } else {
        assert Unplayed(rows, g) == u1;
      }
    }
  }

  lemma {:induction false} LegacyDrainOrderFromQueue(a: seq<SongRequest>, b: seq<SongRequest>, g: string)
    requires Unplayed(a, g) == Unplayed(b, g)
    ensures LegacyDrainOrder(a, g) == LegacyDrainOrder(b, g)
    decreases CountUnplayed(a, g)
  {
    LegacyNextFromQueue(a, g);
    LegacyNextFromQueue(b, g);
    match LegacyNext(a, g)
    case None =>
    case Some(x) =>
      var i :| 0 <= i < |a| && a[i] == x;
      MarkPlayedEvolves(a, x.id);
      EvolvesCountStrict(a, MarkPlayedById(a, x.id), g, i);
      UnplayedMark(a, x.id, g);
      UnplayedMark(b, x.id, g);
      LegacyDrainOrderFromQueue(MarkPlayedById(a, x.id), MarkPlayedById(b, x.id), g);
  }

  /** Writing the older loop's head back as a played record leaves the rest of its order to come. */
  lemma LegacyDrainOrderAfterPlay(rows: seq<SongRequest>, g: string, rec: SongRequest)
    requires LegacyNext(rows, g).Some? && rec.id == LegacyNext(rows, g).value.id && rec.played
    ensures LegacyDrainOrder(rows, g) == [LegacyNext(rows, g).value] + LegacyDrainOrder(UpdateRow(rows, rec), g)
  {
    var x := LegacyNext(rows, g).value;
    UnplayedAgree(UpdateRow(rows, rec), MarkPlayedById(rows, x.id), g);
    LegacyDrainOrderFromQueue(MarkPlayedById(rows, x.id), UpdateRow(rows, rec), g);
  }

  /** Marking rows played keeps the queued times distinct. */
  lemma MarkPlayedKeepsDistinct(rows: seq<SongRequest>, g: string, id: nat)
    requires DistinctQueuedTimes(rows, g)
    ensures DistinctQueuedTimes(MarkPlayedById(rows, id), g)
  {
    var m := MarkPlayedById(rows, id);
    forall i, j | 0 <= i < |m| && 0 <= j < |m| && i != j && Queued(m[i], g) && Queued(m[j], g)
      ensures m[i].requestedAt != m[j].requestedAt
    {
      assert m[i] == rows[i] && m[j] == rows[j];
    }
  }

  /**
    When no two queued requests share a time the older loop drains the queue
    in the same order as the current one, and so first-in first-out.
  */
  lemma {:induction false} LegacyDrainOrderAgrees(rows: seq<SongRequest>, g: string)
    requires DistinctQueuedTimes(rows, g)
    ensures LegacyDrainOrder(rows, g) == DrainOrder(rows, g)
    decreases CountUnplayed(rows, g)
  {
    LegacyNextAgrees(rows, g);
    match NextUnplayed(rows, g)
    case None =>
    case Some(x) =>
      var i :| 0 <= i < |rows| && rows[i] == x;
      MarkPlayedEvolves(rows, x.id);
      EvolvesCountStrict(rows, MarkPlayedById(rows, x.id), g, i);
      MarkPlayedKeepsDistinct(rows, g, x.id);
      LegacyDrainOrderAgrees(MarkPlayedById(rows, x.id), g);
  }

  // ---------------------------------------------------------------- peek

  /** The order of the `next` command's query: requested_at ascending, no tie-break. */
  predicate TimeLe(a: SongRequest, b: SongRequest)
  {
    a.requestedAt <= b.requestedAt
  }

  lemma TimeLeIsTotalPreorder()
    ensures Sorting.TotalPreorder((a: SongRequest, b: SongRequest) => TimeLe(a, b))
  {
  }

  /**
   * The guild's unplayed requests sorted by time: the `next` command's query before its limit.
   * The query names no tie-break, so how rows with equal requested_at are ordered is the
   * database's choice; this sort is one such choice, and the contract below says nothing about it.
   */
  function ByTime(rows: seq<SongRequest>, g: string): (s: seq<SongRequest>)
    ensures |s| == CountUnplayed(rows, g)
    ensures forall x :: x in s <==> x in rows && Queued(x, g)
    ensures multiset(s) == multiset(Unplayed(rows, g))
    ensures forall i, j :: 0 <= i < j < |s| ==> s[i].requestedAt <= s[j].requestedAt
  {
    TimeLeIsTotalPreorder();
    var u := Unplayed(rows, g);
    var sorted := Sorting.SortBy(u, (a: SongRequest, b: SongRequest) => TimeLe(a, b));
    assert forall x :: x in sorted <==> x in multiset(u);
    sorted
  }

  /** The `next` command's query: the guild's unplayed requests by time, at most 10 of them. */
  function PeekQueue(rows: seq<SongRequest>, g: string): (p: seq<SongRequest>)
  {
    var sorted := ByTime(rows, g);
    if |sorted| <= 10 then sorted else sorted[..10]
  }

  /** The peek returns min(10, n) queued requests in time order, and none it leaves out comes earlier. */
  lemma PeekQueueProperties(rows: seq<SongRequest>, g: string)
    ensures |PeekQueue(rows, g)| == if CountUnplayed(rows, g) <= 10 then CountUnplayed(rows, g) else 10
    ensures forall i :: 0 <= i < |PeekQueue(rows, g)| ==> PeekQueue(rows, g)[i] in rows && Queued(PeekQueue(rows, g)[i], g)
    ensures forall i, j :: 0 <= i < j < |PeekQueue(rows, g)| ==> PeekQueue(rows, g)[i].requestedAt <= PeekQueue(rows, g)[j].requestedAt
    ensures forall x, y :: x in PeekQueue(rows, g) && y in rows && Queued(y, g) && y !in PeekQueue(rows, g) ==>
      x.requestedAt <= y.requestedAt
  {
    var sorted := ByTime(rows, g);
    var p := PeekQueue(rows, g);
    assert forall i :: 0 <= i < |p| ==> p[i] == sorted[i];
    assert forall i :: 0 <= i < |p| ==> p[i] in sorted;
    forall x, y | x in p && y in sorted && y !in p ensures x.requestedAt <= y.requestedAt {
      var j :| 0 <= j < |sorted| && sorted[j] == y;
      var i :| 0 <= i < |p| && p[i] == x;
      assert j >= |p|;
    }
  }
}
