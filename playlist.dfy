/**
  The part of the music package that is not subprocess or codec work: turning
  yt-dlp's flat-playlist output (one JSON object per line) into playlist
  entries, and the rule for when a finished subprocess's error is logged.
  The JSON decoding of one line is a parameter: a function that gives the
  entry, or None when the line does not decode.
*/
module Playlist {
  import opened Wrappers
  import opened Text

  /** One line of flat-playlist output: its id, url, _type, ie_key and title. */
  datatype PlaylistSong = PlaylistSong(id: string, url: string, kind: string, ieKey: string, title: string)

  /** A flat YouTube entry carries only the video id as its url; it becomes a youtu.be link. */
  function Rewrite(s: PlaylistSong): (r: PlaylistSong)
    ensures r == s.(url := r.url)
    ensures s.kind == "url" && s.ieKey == "Youtube" ==> r.url == "https://youtu.be/" + s.url
    ensures !(s.kind == "url" && s.ieKey == "Youtube") ==> r == s
  {
    if s.kind == "url" && s.ieKey == "Youtube" then s.(url := "https://youtu.be/" + s.url) else s
  }

  /** The entry a line contributes: nothing for an empty or undecodable line, else its rewritten decoding. */
  function LineEntry(line: string, decode: string -> Option<PlaylistSong>): seq<PlaylistSong>
  {
    if line == "" then []
    else match decode(line)
      case None => []
      case Some(s) => [Rewrite(s)]
  }

  /** The entries of the lines, in line order. */
  function Entries(lines: seq<string>, decode: string -> Option<PlaylistSong>): (r: seq<PlaylistSong>)
    ensures |r| <= |lines|
  {
    if |lines| == 0 then [] else Entries(lines[..|lines| - 1], decode) + LineEntry(lines[|lines| - 1], decode)
  }

  /**
    GetPlaylistInfo after the subprocess: its error is passed on and no list
    is made; otherwise the output is split on line breaks and each line taken
    in turn.
  */
  method GetPlaylistInfo(output: Result<string, string>, decode: string -> Option<PlaylistSong>)
    returns (r: Result<seq<PlaylistSong>, string>)
    ensures output.Err? ==> r == Err(output.error)
    ensures output.Ok? ==> r == Ok(Entries(Split(output.value, '\n'), decode))
  {
    if output.Err? {
      return Err(output.error);
    }
    var lines := Split(output.value, '\n');
    var songs: seq<PlaylistSong> := [];
    for i := 0 to |lines|
      invariant songs == Entries(lines[..i], decode)
    {
      var line := lines[i];
      if line != "" {
        var decoded := decode(line);
        if decoded.Some? {
          var song := decoded.value;
          if song.kind == "url" {
            if song.ieKey == "Youtube" {
              song := song.(url := "https://youtu.be/" + song.url);
            }
          }
          songs := songs + [song];
        }
      }
      assert lines[..i + 1][..i] == lines[..i];
    }
    assert lines[..|lines|] == lines;
    return Ok(songs);
  }

  /** The entries of two runs of lines are the entries of the first, then those of the second. */
  lemma {:induction false} EntriesAppend(a: seq<string>, b: seq<string>, decode: string -> Option<PlaylistSong>)
    ensures Entries(a + b, decode) == Entries(a, decode) + Entries(b, decode)
    decreases |b|
  {
    if |b| > 0 {
      var b' := b[..|b| - 1];
      assert (a + b)[..|a + b| - 1] == a + b';
      assert (a + b)[|a + b| - 1] == b[|b| - 1];
      EntriesAppend(a, b', decode);
    } else {
      assert a + b == a;
    }
  }

  /**
    An entry is in the list exactly when some non-empty line decodes to it
    before the rewrite: nothing is invented and no decodable line is lost.
  */
  lemma {:induction false} EntriesMembership(lines: seq<string>, decode: string -> Option<PlaylistSong>, x: PlaylistSong)
    ensures x in Entries(lines, decode) <==>
      exists j :: 0 <= j < |lines| && lines[j] != "" && decode(lines[j]).Some? && x == Rewrite(decode(lines[j]).value)
  {
    if |lines| > 0 {
      var init := lines[..|lines| - 1];
      EntriesMembership(init, decode, x);
      var last := lines[|lines| - 1];
      if exists j :: 0 <= j < |lines| && lines[j] != "" && decode(lines[j]).Some? && x == Rewrite(decode(lines[j]).value) {
        var j :| 0 <= j < |lines| && lines[j] != "" && decode(lines[j]).Some? && x == Rewrite(decode(lines[j]).value);
        if j < |lines| - 1 {
          assert init[j] == lines[j];
        }
      }
      if x in Entries(init, decode) {
        var j :| 0 <= j < |init| && init[j] != "" && decode(init[j]).Some? && x == Rewrite(decode(init[j]).value);
        assert lines[j] == init[j];
      }
    }
  }

  /** Empty lines, such as the one after the final line break, contribute nothing. */
  lemma EmptyLinesSkipped(lines: seq<string>, decode: string -> Option<PlaylistSong>)
    ensures Entries(lines + [""], decode) == Entries(lines, decode)
  {
    assert (lines + [""])[..|lines|] == lines;
  }

  // ---------------------------------------------------------------- cleanup

  /**
    handleSongProcessCleanup: the process is always waited for; its error is
    logged only when the context was not yet done when the cleanup began.
  */
  function CleanupLogsError(ctxDoneAtStart: bool, waitFails: bool): (logged: bool)
    ensures logged <==> !ctxDoneAtStart && waitFails
  {
    if ctxDoneAtStart then false else waitFails
  }

  /**
    The context is looked at once, before the wait: a skip or shutdown that
    happens while waiting still has its exit error logged.
  */
  lemma CancelDuringWaitIsLogged()
    ensures CleanupLogsError(false, true)
    ensures !CleanupLogsError(true, true)
  {
  }
}
