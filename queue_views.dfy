/**
  The two read-only queue commands: `next`, which shows the next ten requests
  of the guild, and `songcount`, which reports how many requests are waiting.
  Both work on a snapshot of the tables and return the message they send.
*/
module QueueViews {
  import opened Text
  import opened Chat
  import opened SongStore

  // ---------------------------------------------------------------- next

  /** The name of the entry at position i: "%d." of i + 1, which reads back as that position. */
  function EntryName(i: nat): (n: string)
    ensures |n| >= 2 && n[|n| - 1] == '.'
    ensures IsDigits(n[..|n| - 1]) && DecimalValue(n[..|n| - 1]) == i + 1
  {
    DecimalRoundTrip(i + 1);
    var n := NatToDecimal(i + 1) + ".";
    assert n[..|n| - 1] == NatToDecimal(i + 1);
    n
  }

  /** The field for one request: its position, and a link to its song. */
  function EntryField(i: nat, r: SongRequest, songs: map<string, Song>): Field
    requires r.songId.Some? && r.songId.value in songs
  {
    Field(EntryName(i), Link(r.songName, songs[r.songId.value].url), false)
  }

  /** The description: a sentence with the count, overwritten for zero and one requests. */
  function NextDescription(n: nat): string
  {
    if n == 0 then "There are no songs in the queue."
    else if n == 1 then "Showing the next song in the queue."
    else "Showing the next " + NatToDecimal(n) + " songs in the queue."
  }

  /** The title of the `next` embed. */
  const NextTitle := "Songs on the deck."

  /** The embed `next` sends for a page of requests. */
  function NextEmbed(page: seq<SongRequest>, songs: map<string, Song>): (e: Embed)
    requires forall i :: 0 <= i < |page| ==> page[i].songId.Some? && page[i].songId.value in songs
    ensures e.title == NextTitle && e.description == NextDescription(|page|)
    ensures |e.fields| == |page|
    ensures forall i :: 0 <= i < |page| ==> e.fields[i] == EntryField(i, page[i], songs)
  {
    Embed(NextTitle, NextDescription(|page|),
      seq(|page|, i requires 0 <= i < |page| => EntryField(i, page[i], songs)), "")
  }

  function NextQueryErrorMessage(): Message
  {
    ErrorMessage("Unable to get next songs in queue.", "Database error.")
  }

  /**
    next: queries at most ten of the guild's unplayed requests by request time,
    then appends one numbered field per request, in result order.
  */
  method Next(st: Store, guildId: string, queryFails: bool) returns (m: Message)
    requires StoreValid(st)
    ensures queryFails ==> m == NextQueryErrorMessage()
    ensures !queryFails ==>
      PeekQueueHasSongs(st, guildId) && m == EmbedMessage(NextEmbed(PeekQueue(st.requests, guildId), st.songs))
  {
    if queryFails {
      return NextQueryErrorMessage();
    }
    var page := PeekQueue(st.requests, guildId);
    PeekQueueHasSongsHolds(st, guildId);
    var fields := EntryFields(page, st.songs);
    m := EmbedMessage(Embed(NextTitle, NextDescription(|page|), fields, ""));
  }

  /** The loop over the page: one numbered field per request, in page order. */
  method EntryFields(page: seq<SongRequest>, songs: map<string, Song>) returns (fields: seq<Field>)
    requires forall i :: 0 <= i < |page| ==> page[i].songId.Some? && page[i].songId.value in songs
    ensures |fields| == |page|
    ensures forall i :: 0 <= i < |page| ==> fields[i] == EntryField(i, page[i], songs)
  {
    fields := [];
    for index := 0 to |page|
      invariant |fields| == index
      invariant forall i :: 0 <= i < index ==> fields[i] == EntryField(i, page[i], songs)
    {
      fields := fields + [EntryField(index, page[index], songs)];
    }
  }

  /** Every request on the page has its song row, so the links can be built. */
  ghost predicate PeekQueueHasSongs(st: Store, g: string)
  {
    forall i :: 0 <= i < |PeekQueue(st.requests, g)| ==> HasSong(st, PeekQueue(st.requests, g)[i])
  }

  lemma PeekQueueHasSongsHolds(st: Store, g: string)
    requires StoreValid(st)
    ensures PeekQueueHasSongs(st, g)
  {
    PeekQueueProperties(st.requests, g);
    forall i | 0 <= i < |PeekQueue(st.requests, g)| ensures HasSong(st, PeekQueue(st.requests, g)[i]) {
      var x := PeekQueue(st.requests, g)[i];
      assert x in st.requests;
      var k :| 0 <= k < |st.requests| && st.requests[k] == x;
    }
  }

  /** The description tells the page size apart: different sizes give different descriptions. */
  lemma NextDescriptionDetermines(a: nat, b: nat)
    requires NextDescription(a) == NextDescription(b)
    ensures a == b
  {
    var pre := "Showing the next ";
    var post := " songs in the queue.";
    if a >= 2 && b >= 2 {
      var d := NextDescription(a);
      assert d == pre + NatToDecimal(a) + post;
      assert d[|pre|..|d| - |post|] == NatToDecimal(a);
      assert NextDescription(b)[|pre|..|d| - |post|] == NatToDecimal(b);
      DecimalRoundTrip(a);
      DecimalRoundTrip(b);
    }
  }

  /**
    The page `next` shows: at most ten fields; field i is named i + 1 and links
    the i-th of the guild's waiting requests by request time; no waiting request
    left off the page was requested earlier than one on it.
  */
  lemma NextEmbedShowsTheQueue(st: Store, g: string)
    requires StoreValid(st)
    ensures PeekQueueHasSongs(st, g)
    ensures var page := PeekQueue(st.requests, g);
      var e := NextEmbed(page, st.songs);
      && |e.fields| == (if CountUnplayed(st.requests, g) <= 10 then CountUnplayed(st.requests, g) else 10)
      && e.description == NextDescription(|e.fields|)
      && (forall i :: 0 <= i < |e.fields| ==>
            && DecimalValue(e.fields[i].name[..|e.fields[i].name| - 1]) == i + 1
            && page[i] in st.requests && Queued(page[i], g)
            && e.fields[i].value == Link(page[i].songName, SongOf(st, page[i]).url))
      && (forall i, j :: 0 <= i < j < |page| ==> page[i].requestedAt <= page[j].requestedAt)
      && (forall i, y :: 0 <= i < |page| && y in st.requests && Queued(y, g) && y !in page ==>
            page[i].requestedAt <= y.requestedAt)
  {
    PeekQueueHasSongsHolds(st, g);
    PeekQueueProperties(st.requests, g);
    var page := PeekQueue(st.requests, g);
    PageFields(st, g, page);
  }

  /** The fields of a page of the guild's waiting requests: numbered from one, each linking its request's song. */
  lemma PageFields(st: Store, g: string, page: seq<SongRequest>)
    requires forall i :: 0 <= i < |page| ==>
      page[i].songId.Some? && page[i].songId.value in st.songs && page[i] in st.requests && Queued(page[i], g)
    ensures var e := NextEmbed(page, st.songs);
      forall i :: 0 <= i < |e.fields| ==>
        && DecimalValue(e.fields[i].name[..|e.fields[i].name| - 1]) == i + 1
        && page[i] in st.requests && Queued(page[i], g)
        && e.fields[i].value == Link(page[i].songName, SongOf(st, page[i]).url)
  {
    var e := NextEmbed(page, st.songs);
    forall i | 0 <= i < |e.fields|
      ensures DecimalValue(e.fields[i].name[..|e.fields[i].name| - 1]) == i + 1
    {
      assert e.fields[i] == EntryField(i, page[i], st.songs);
    }
  }

  // ---------------------------------------------------------------- songcount

  function CountQueryErrorMessage(): Message
  {
    ErrorMessage("Unable to get number of songs in queue.", "Database error.")
  }

  /**
    songCount's reply: on a query error only the error embed; otherwise one
    field whose value is the decimal text of the number of the guild's unplayed
    requests, which reads back as that number.
  */
  function SongCountReply(rows: seq<SongRequest>, g: string, queryFails: bool): (m: Message)
    ensures queryFails ==> m == CountQueryErrorMessage()
    ensures !queryFails ==>
      && m.EmbedMessage? && |m.embed.fields| == 1
      && m.embed.fields[0].name == "Number of songs in queue"
      && IsDigits(m.embed.fields[0].value)
      && DecimalValue(m.embed.fields[0].value) == |Unplayed(rows, g)|
  {
    if queryFails then CountQueryErrorMessage()
    else
      DecimalRoundTrip(CountUnplayed(rows, g));
      EmbedMessage(FieldsEmbed([Field("Number of songs in queue", NatToDecimal(CountUnplayed(rows, g)), false)]))
  }

  /** The reported number is zero exactly when the drain loop would find nothing to play. */
  lemma SongCountZeroIffQueueEmpty(rows: seq<SongRequest>, g: string)
    ensures DecimalValue(SongCountReply(rows, g, false).embed.fields[0].value) == 0 <==> NextUnplayed(rows, g).None?
  {
    CountUnplayedZero(rows, g);
  }
}
