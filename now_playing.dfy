/**
  The "Now Playing" announcement that both drain loops post before they stream
  a request (pkg/discord/common.go and the older loop in pkg/discord/commands.go
  build it identically), including the human-readable duration.
*/
module NowPlaying {
  import opened Wrappers
  import opened Text
  import opened Chat
  import opened SongStore

  /** The unit word: plural only when the amount is greater than one, so 0 and 1 take the singular. */
  function Unit(n: int, singular: string): string
  {
    if n > 1 then singular + "s" else singular
  }

  /**
    The duration text: m = d / 60 and s = d % 60 with Go's truncating operators;
    "m minute(s), s second(s)" when both are positive, "m minute(s)" when s is 0,
    and "s second(s)" otherwise.
  */
  function DurationText(d: int): string
  {
    var minutes := GoDiv(d, 60);
    var seconds := GoMod(d, 60);
    if minutes > 0 then
      if seconds > 0 then
        IntToDecimal(minutes) + " " + Unit(minutes, "minute") + ", " + IntToDecimal(seconds) + " " + Unit(seconds, "second")
      else
        IntToDecimal(minutes) + " " + Unit(minutes, "minute")
    else
      IntToDecimal(seconds) + " " + Unit(seconds, "second")
  }

  /** The words a duration text uses for its units. */
  predicate MinuteWord(w: string) { w == "minute" || w == "minutes" }
  predicate MinuteCommaWord(w: string) { w == "minute," || w == "minutes," }
  predicate SecondWord(w: string) { w == "second" || w == "seconds" }

  /** Reads a duration text back into seconds; the inverse of DurationText on non-negative durations. */
  function ParseDuration(t: string): Option<int>
  {
    var w := Split(t, ' ');
    if |w| == 2 && IsDigits(w[0]) then
      if MinuteWord(w[1]) then Some(60 * DecimalValue(w[0]))
      else if SecondWord(w[1]) then Some(DecimalValue(w[0]))
      else None
    else if |w| == 4 && IsDigits(w[0]) && IsDigits(w[2]) && MinuteCommaWord(w[1]) && SecondWord(w[3]) then
      Some(60 * DecimalValue(w[0]) + DecimalValue(w[2]))
    else None
  }

  /** The unit words DurationText writes are the ones ParseDuration reads. */
  lemma UnitWords(k: int, j: int)
    ensures MinuteWord(Unit(k, "minute")) && MinuteCommaWord(Unit(k, "minute") + ",")
    ensures SecondWord(Unit(j, "second")) && ' ' !in Unit(k, "minute") + "," && ' ' !in Unit(j, "second")
  {
  }

  lemma DigitsHaveNoSpace(s: string)
    requires IsDigits(s)
    ensures ' ' !in s
  {
    assert forall i :: 0 <= i < |s| ==> s[i] != ' ';
  }

  /** Reading back a two-word text "<digits> <unit>". */
  lemma ParseTwoWords(a: string, u: string)
    requires IsDigits(a)
    ensures ' ' !in u ==> Split(a + " " + u, ' ') == [a, u]
  {
    if ' ' !in u {
      DigitsHaveNoSpace(a);
      var parts := [a, u];
      assert parts[1..] == [u];
      assert Join(parts, " ") == a + " " + u;
      SplitJoin(parts, ' ');
    }
  }

  /** Reading back a four-word text "<digits> <unit>, <digits> <unit>". */
  lemma SplitFourWords(a: string, b: string, c: string, u: string)
    requires IsDigits(a) && IsDigits(c) && ' ' !in b && ' ' !in u
    ensures Split(a + " " + b + " " + c + " " + u, ' ') == [a, b, c, u]
  {
    DigitsHaveNoSpace(a);
    DigitsHaveNoSpace(c);
    assert Join([u], " ") == u;
    assert [c] + [u] == [c, u];
    JoinCons(c, [u], " ");
    assert [b] + [c, u] == [b, c, u];
    JoinCons(b, [c, u], " ");
    assert [a] + [b, c, u] == [a, b, c, u];
    JoinCons(a, [b, c, u], " ");
    var t := Join([a, b, c, u], " ");
    assert t == a + " " + (b + " " + (c + " " + u));
    assert t == a + " " + b + " " + c + " " + u;
    SplitJoin([a, b, c, u], ' ');
  }

  /** Under a minute: only the seconds, with Go's operators agreeing with Dafny's on non-negative values. */
  lemma SecondsOnlyText(d: nat)
    requires d < 60
    ensures DurationText(d) == NatToDecimal(d) + " " + Unit(d, "second")
  {
    assert GoDiv(d, 60) == 0;
    assert GoMod(d, 60) == d;
  }

  /** Both parts present: the minutes, a comma, then the seconds. */
  lemma MixedText(d: nat)
    requires d / 60 > 0 && d % 60 > 0
    ensures DurationText(d) == NatToDecimal(d / 60) + " " + Unit(d / 60, "minute") + ", " + NatToDecimal(d % 60) + " " + Unit(d % 60, "second")
  {
    assert GoDiv(d, 60) == d / 60;
    assert GoMod(d, 60) == d % 60;
  }

  /** Whole minutes: only the minutes. */
  lemma MinutesOnlyText(d: nat)
    requires d / 60 > 0 && d % 60 == 0
    ensures DurationText(d) == NatToDecimal(d / 60) + " " + Unit(d / 60, "minute")
  {
    assert GoDiv(d, 60) == d / 60;
    assert GoMod(d, 60) == 0;
  }

  lemma DurationRoundTripMinutesSeconds(d: nat)
    requires d / 60 > 0 && d % 60 > 0
    ensures ParseDuration(DurationText(d)) == Some(d)
  {
    var a, m, c, u := NatToDecimal(d / 60), Unit(d / 60, "minute"), NatToDecimal(d % 60), Unit(d % 60, "second");
    MixedText(d);
    assert a + " " + m + ", " + c + " " + u == a + " " + (m + ",") + " " + c + " " + u;
    UnitWords(d / 60, d % 60);
    ParseMixed(a, m + ",", c, u);
    DecimalRoundTrip(d / 60);
    DecimalRoundTrip(d % 60);
  }

  lemma DurationRoundTripMinutes(d: nat)
    requires d / 60 > 0 && d % 60 == 0
    ensures ParseDuration(DurationText(d)) == Some(d)
  {
    MinutesOnlyText(d);
    ParseMinutes(NatToDecimal(d / 60), d / 60);
    DecimalRoundTrip(d / 60);
  }

  lemma DurationRoundTripSeconds(d: nat)
    requires d / 60 == 0
    ensures ParseDuration(DurationText(d)) == Some(d)
  {
    SecondsOnlyText(d);
    ParseSeconds(NatToDecimal(d), d);
    DecimalRoundTrip(d);
  }

  /** Minutes, a comma, then seconds read back as their total in seconds. */
  lemma ParseMixed(a: string, b: string, c: string, u: string)
    requires IsDigits(a) && IsDigits(c) && MinuteCommaWord(b) && SecondWord(u) && ' ' !in b && ' ' !in u
    ensures ParseDuration(a + " " + b + " " + c + " " + u) == Some(60 * DecimalValue(a) + DecimalValue(c))
  {
    SplitFourWords(a, b, c, u);
    ParseSplitMixed(a, b, c, u);
  }

  lemma ParseSplitMixed(a: string, b: string, c: string, u: string)
    requires IsDigits(a) && IsDigits(c) && MinuteCommaWord(b) && SecondWord(u)
    requires Split(a + " " + b + " " + c + " " + u, ' ') == [a, b, c, u]
    ensures ParseDuration(a + " " + b + " " + c + " " + u) == Some(60 * DecimalValue(a) + DecimalValue(c))
  {
    ParseFourWords(a + " " + b + " " + c + " " + u, [a, b, c, u]);
  }

  /** Reading the four words of a text, whatever the text is. */
  lemma ParseFourWords(t: string, w: seq<string>)
    requires Split(t, ' ') == w && |w| == 4 && IsDigits(w[0]) && IsDigits(w[2]) && MinuteCommaWord(w[1]) && SecondWord(w[3])
    ensures ParseDuration(t) == Some(60 * DecimalValue(w[0]) + DecimalValue(w[2]))
  {
  }

  /** A count followed by a minute word reads back as that many minutes. */
  lemma ParseMinutes(a: string, k: int)
    requires IsDigits(a)
    ensures ParseDuration(a + " " + Unit(k, "minute")) == Some(60 * DecimalValue(a))
  {
    UnitWords(k, 0);
    ParseTwoWords(a, Unit(k, "minute"));
  }

  /** A count followed by a second word reads back as that many seconds. */
  lemma ParseSeconds(a: string, j: int)
    requires IsDigits(a)
    ensures ParseDuration(a + " " + Unit(j, "second")) == Some(DecimalValue(a))
  {
    UnitWords(0, j);
    assert !MinuteWord(Unit(j, "second"));
    ParseTwoWords(a, Unit(j, "second"));
  }

  /** The duration text of a non-negative duration determines it: parsing it back gives the duration. */
  lemma DurationRoundTrip(d: nat)
    ensures ParseDuration(DurationText(d)) == Some(d)
  {
    if d / 60 > 0 && d % 60 > 0 {
      DurationRoundTripMinutesSeconds(d);
    } else if d / 60 > 0 {
      DurationRoundTripMinutes(d);
    } else {
      DurationRoundTripSeconds(d);
    }
  }

  /** Zero takes the singular. */
  lemma DurationTextZero()
    ensures DurationText(0) == "0 second"
  {
  }

  /** An optional song detail as an inline field: present only when the detail is set. */
  function DetailField(detail: Option<string>, name: string): (fs: seq<Field>)
    ensures |fs| <= 1
    ensures HasFieldNamed(fs, name) <==> detail.Some?
    ensures forall i :: 0 <= i < |fs| ==> fs[i].name == name
  {
    if detail.Some? then
      var fs := [Field(name, detail.value, true)];
      assert fs[0].name == name;
      fs
    else []
  }

  /** The duration field, present only when the song's duration is known. */
  function DurationField(song: Song): (fs: seq<Field>)
  {
    if song.durationInSeconds.Some? then [Field("Duration", DurationText(song.durationInSeconds.value), false)] else []
  }

  /** Some field carries the name. */
  ghost predicate HasFieldNamed(fs: seq<Field>, name: string)
  {
    exists i :: 0 <= i < |fs| && fs[i].name == name
  }

  lemma {:induction false} HasFieldNamedAppend(a: seq<Field>, b: seq<Field>, name: string)
    ensures HasFieldNamed(a + b, name) <==> HasFieldNamed(a, name) || HasFieldNamed(b, name)
  {
    if HasFieldNamed(a + b, name) {
      var i :| 0 <= i < |a + b| && (a + b)[i].name == name;
      if i >= |a| {
        assert b[i - |a|] == (a + b)[i];
      }
    }
    if HasFieldNamed(a, name) {
      var i :| 0 <= i < |a| && a[i].name == name;
      assert (a + b)[i] == a[i];
    }
    if HasFieldNamed(b, name) {
      var i :| 0 <= i < |b| && b[i].name == name;
      assert (a + b)[|a| + i] == b[i];
    }
  }

  /** The announcement embed for a request and its song. */
  function NowPlayingEmbed(song: Song, req: SongRequest): (e: Embed)
    ensures |e.fields| >= 2
    ensures e.fields[0] == Field("Now Playing", Link(song.songName, song.url), false)
    ensures e.fields[|e.fields| - 1] == Field("Requested By", req.usernameAtTime, false)
    ensures e.image == song.thumbnailUrl.GetOr("")
  {
    var fields := [Field("Now Playing", Link(song.songName, song.url), false)]
      + DetailField(song.artist, "Artist") + DetailField(song.album, "Album") + DetailField(song.track, "Track")
      + DurationField(song)
      + [Field("Requested By", req.usernameAtTime, false)];
    Embed("", "", fields, song.thumbnailUrl.GetOr(""))
  }

  /**
    The optional fields of the announcement: an Artist field appears exactly when
    the artist is set, a Duration field exactly when the duration is, and it then
    holds the duration text.
  */
  lemma NowPlayingOptionalFields(song: Song, req: SongRequest)
    ensures HasFieldNamed(NowPlayingEmbed(song, req).fields, "Artist") <==> song.artist.Some?
    ensures HasFieldNamed(NowPlayingEmbed(song, req).fields, "Duration") <==> song.durationInSeconds.Some?
    ensures song.durationInSeconds.Some? ==>
      Field("Duration", DurationText(song.durationInSeconds.value), false) in NowPlayingEmbed(song, req).fields
  {
    var first := [Field("Now Playing", Link(song.songName, song.url), false)];
    var artist, album, track := DetailField(song.artist, "Artist"), DetailField(song.album, "Album"), DetailField(song.track, "Track");
    var dur := DurationField(song);
    var last := [Field("Requested By", req.usernameAtTime, false)];
    var fields := NowPlayingEmbed(song, req).fields;
    assert fields == first + artist + album + track + dur + last;
    FieldNamesAppend(first, artist, album, track, dur, last, "Artist");
    FieldNamesAppend(first, artist, album, track, dur, last, "Duration");
    if song.durationInSeconds.Some? {
      assert fields[|first + artist + album + track|] == dur[0];
    }
  }

  /** A name is among six runs of fields exactly when it is in one of them. */
  lemma FieldNamesAppend(a: seq<Field>, b: seq<Field>, c: seq<Field>, d: seq<Field>, e: seq<Field>, f: seq<Field>, name: string)
    ensures HasFieldNamed(a + b + c + d + e + f, name) <==>
      HasFieldNamed(a, name) || HasFieldNamed(b, name) || HasFieldNamed(c, name) || HasFieldNamed(d, name)
      || HasFieldNamed(e, name) || HasFieldNamed(f, name)
  {
    HasFieldNamedAppend(a, b, name);
    HasFieldNamedAppend(a + b, c, name);
    HasFieldNamedAppend(a + b + c, d, name);
    HasFieldNamedAppend(a + b + c + d, e, name);
    HasFieldNamedAppend(a + b + c + d + e, f, name);
  }
}
