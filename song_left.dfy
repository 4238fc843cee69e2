/**
  The `songleft` command: how long the current song has left, as "1 hour, 2
  minutes and 3 seconds left in the current song."  Time is kept in whole
  seconds; the hour, minute and second counts truncate toward zero as Go's
  int64 conversions and % do.
*/
module SongLeft {
  import opened Text
  import opened Scheduler
  import NowPlaying

  /** The estimated end (start plus duration) minus now, in seconds. */
  function Remaining(m: MusicOpts, now: int): int
  {
    m.songStarted + m.songDurationSeconds - now
  }

  /** Whole hours, then whole minutes and seconds modulo 60, each truncated toward zero. */
  function Hours(left: int): int { GoDiv(left, 3600) }
  function Minutes(left: int): int { GoMod(GoDiv(left, 60), 60) }
  function Seconds(left: int): int { GoMod(left, 60) }

  /** english.Plural: "1 hour", otherwise "n hours". */
  function Plural(n: int, singular: string, plural: string): string
  {
    IntToDecimal(n) + " " + (if n == 1 then singular else plural)
  }

  /** The listed components: only those greater than zero, hours first. */
  function Words(left: int): (w: seq<string>)
    ensures |w| <= 3
    ensures |w| == (if Hours(left) > 0 then 1 else 0) + (if Minutes(left) > 0 then 1 else 0) + (if Seconds(left) > 0 then 1 else 0)
  {
    Listed(Hours(left), "hour", "hours") + Listed(Minutes(left), "minute", "minutes")
    + Listed(Seconds(left), "second", "seconds")
  }

  /** english.WordSeries with a conjunction: "", "a", "a and b", "a, b and c". */
  function WordSeries(words: seq<string>, conjunction: string): string
  {
    if |words| == 0 then ""
    else if |words| == 1 then words[0]
    else Join(words[..|words| - 1], ", ") + " " + conjunction + " " + words[|words| - 1]
  }

  /** songLeft's reply to the channel. */
  function SongLeftText(m: MusicOpts, now: int): string
  {
    if !m.songPlaying then "No song is currently playing."
    else WordSeries(Words(Remaining(m, now)), "and") + " left in the current song."
  }

  /** For time still to go, the three counts are a mixed-radix decomposition of it. */
  lemma ComponentsRecompose(left: int)
    requires left >= 0
    ensures Hours(left) * 3600 + Minutes(left) * 60 + Seconds(left) == left
    ensures 0 <= Minutes(left) < 60 && 0 <= Seconds(left) < 60 && Hours(left) >= 0
  {
    var q := left / 60;
    assert GoDiv(left, 60) == q;
    assert Seconds(left) == left % 60;
    assert Minutes(left) == q % 60;
    assert left / 3600 == q / 60 by {
      DivDiv(left);
    }
    assert Hours(left) == q / 60;
  }

  lemma DivDiv(a: nat)
    ensures a / 60 / 60 == a / 3600
  {
    var q := a / 60;
    var r := a % 60;
    var q2 := q / 60;
    var r2 := q % 60;
    assert a == q2 * 3600 + (r2 * 60 + r);
    assert 0 <= r2 * 60 + r < 3600;
  }

  /** A song that has overrun its estimate lists nothing: every count is zero or negative. */
  lemma OverrunListsNothing(left: int)
    requires left <= 0
    ensures Words(left) == []
    ensures WordSeries(Words(left), "and") + " left in the current song." == " left in the current song."
  {
  }

  /** Nothing playing: only the fixed sentence, whatever the clock says. */
  lemma NothingPlayingReply(m: MusicOpts, now: int, now': int)
    requires !m.songPlaying
    ensures SongLeftText(m, now) == SongLeftText(m, now') == "No song is currently playing."
  {
  }

  /** Reads a listed component "n unit" back into seconds. */
  function WordSeconds(w: string): int
  {
    var p := Split(w, ' ');
    if |p| != 2 || !IsDigits(p[0]) then 0
    else
      var n := DecimalValue(p[0]);
      if p[1] == "hour" || p[1] == "hours" then n * 3600
      else if p[1] == "minute" || p[1] == "minutes" then n * 60
      else if p[1] == "second" || p[1] == "seconds" then n
      else 0
  }

  function WordsSeconds(ws: seq<string>): int
  {
    if |ws| == 0 then 0 else WordSeconds(ws[0]) + WordsSeconds(ws[1..])
  }

  lemma PluralSeconds(n: nat, singular: string, plural: string, unit: int)
    requires n > 0 && ' ' !in singular && ' ' !in plural
    requires singular in ["hour", "minute", "second"] && plural == singular + "s"
    requires unit == (if singular == "hour" then 3600 else if singular == "minute" then 60 else 1)
    ensures WordSeconds(Plural(n, singular, plural)) == n * unit
  {
    var u := if n == 1 then singular else plural;
    NowPlaying.ParseTwoWords(NatToDecimal(n), u);
    DecimalRoundTrip(n);
  }

  /** The listed components add back up to the time left, so nothing is lost or double-counted. */
  lemma WordsAddUp(left: int)
    requires left >= 0
    ensures WordsSeconds(Words(left)) == left
  {
    ComponentsRecompose(left);
    var h, m, s := Hours(left), Minutes(left), Seconds(left);
    var hw, mw, sw := Listed(h, "hour", "hours"), Listed(m, "minute", "minutes"), Listed(s, "second", "seconds");
    ListedSeconds(h, "hour", "hours", 3600);
    ListedSeconds(m, "minute", "minutes", 60);
    ListedSeconds(s, "second", "seconds", 1);
    WordsSecondsAppend(mw, sw);
    WordsSecondsAppend(hw, mw + sw);
    assert hw + (mw + sw) == Words(left);
  }

  /** One component as Words lists it: present only when greater than zero. */
  function Listed(n: int, singular: string, plural: string): seq<string>
  {
    if n > 0 then [Plural(n, singular, plural)] else []
  }

  lemma ListedSeconds(n: int, singular: string, plural: string, unit: int)
    requires n >= 0 && ' ' !in singular && ' ' !in plural
    requires singular in ["hour", "minute", "second"] && plural == singular + "s"
    requires unit == (if singular == "hour" then 3600 else if singular == "minute" then 60 else 1)
    ensures WordsSeconds(Listed(n, singular, plural)) == n * unit
  {
    if n > 0 {
      PluralSeconds(n, singular, plural, unit);
      assert Listed(n, singular, plural)[1..] == [];
    }
  }

  lemma {:induction false} WordsSecondsAppend(a: seq<string>, b: seq<string>)
    ensures WordsSeconds(a + b) == WordsSeconds(a) + WordsSeconds(b)
  {
    if |a| > 0 {
      assert (a + b)[1..] == a[1..] + b;
      WordsSecondsAppend(a[1..], b);
    } else {
      assert a + b == b;
    }
  }
}
