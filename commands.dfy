/**
  Reading a chat message as a command: the prefix test and split of
  parseMessageForCommand (in pkg/discord/parsers.go and, identically, in the
  older pkg/discord/commands.go), the mention-to-user-id extractor, and the
  shard's table of built-in commands that registerCommand fills and the older
  parser dispatches through.
*/
module Commands {
  import opened Wrappers
  import opened Text

  // ---------------------------------------------------------------- parsing

  /** What parseMessageForCommand returns: was a command found, its name, its arguments. */
  datatype Parsed = Parsed(found: bool, name: string, args: seq<string>)

  /**
    A message is a command when its first byte, as a one-character string,
    equals the server's prefix (so a prefix of any other length never
    matches).  The name is the lower-cased first space-separated token
    without its first byte; the arguments are the other tokens, empty ones
    included.  A prefix of one space would leave an empty first token, which
    the Go slice commandName[1:] does not accept.
  */
  function ParseCommand(content: string, prefix: string): (r: Parsed)
    requires prefix != " "
    ensures r.found <==> |content| > 0 && [content[0]] == prefix
    ensures !r.found ==> r == Parsed(false, "", [])
    ensures r.found ==> ' ' !in r.name && forall i :: 0 <= i < |r.args| ==> ' ' !in r.args[i]
  {
    if |content| > 0 && [content[0]] == prefix then
      var parts := Split(content, ' ');
      assert parts[0] != [] by { SplitFirstStarts(content, ' '); }
      var name := Lower(parts[0])[1..];
      assert forall c :: c in name ==> c in Lower(parts[0]);
      Parsed(true, name, parts[1..])
    else Parsed(false, "", [])
  }

  /** The first part of a split starts with the string's first character when that is not the separator. */
  lemma SplitFirstStarts(s: string, sep: char)
    requires |s| > 0 && s[0] != sep
    ensures |Split(s, sep)[0]| > 0 && Split(s, sep)[0][0] == s[0]
  {
  }

  /**
    Parsing gives back the pieces a command line is written from: a prefix
    character that is its own lower case, a lower-case name without spaces and
    arguments without spaces, joined by single spaces.
  */
  lemma ParseRoundTrip(p: char, name: string, args: seq<string>)
    requires p != ' ' && LowerChar(p) == p
    requires ' ' !in name && Lower(name) == name
    requires forall i :: 0 <= i < |args| ==> ' ' !in args[i]
    ensures ParseCommand(Join([[p] + name] + args, " "), [p]) == Parsed(true, name, args)
  {
    var parts := [[p] + name] + args;
    var line := Join(parts, " ");
    assert forall i :: 0 <= i < |parts| ==> ' ' !in parts[i] by {
      forall i | 0 <= i < |parts| ensures ' ' !in parts[i] {
        if i > 0 { assert parts[i] == args[i - 1]; }
      }
    }
    SplitJoin(parts, ' ');
    assert Split(line, ' ') == parts;
    assert |line| > 0 && line[0] == p by {
      if |parts| > 1 {
        JoinCons(parts[0], parts[1..], " ");
        assert parts == [parts[0]] + parts[1..];
      }
    }
    assert Lower([p] + name) == [p] + name by {
      assert forall i :: 0 <= i < |[p] + name| ==> Lower([p] + name)[i] == ([p] + name)[i] by {
        forall i | 0 <= i < |[p] + name| ensures Lower([p] + name)[i] == ([p] + name)[i] {
          if i > 0 { assert LowerChar(name[i - 1]) == Lower(name)[i - 1]; }
        }
      }
    }
    assert ([p] + name)[1..] == name;
    assert parts[1..] == args;
  }

  /** Splitting and re-joining the arguments gives back what follows the first token. */
  lemma ParseKeepsArguments(content: string, prefix: string)
    requires prefix != " " && ParseCommand(content, prefix).found
    ensures Join([Split(content, ' ')[0]] + ParseCommand(content, prefix).args, " ") == content
    ensures Lower(Split(content, ' ')[0]) == [LowerChar(content[0])] + ParseCommand(content, prefix).name
  {
    var parts := Split(content, ' ');
    JoinSplit(content, ' ');
    assert [parts[0]] + parts[1..] == parts;
    SplitFirstStarts(content, ' ');
    var l := Lower(parts[0]);
    assert l == [l[0]] + l[1..];
  }

  // ---------------------------------------------------------------- mentions

  /** "<@" starts at p. */
  predicate OpenAt(s: string, p: nat)
  {
    p + 1 < |s| && s[p] == '<' && s[p + 1] == '@'
  }

  /** No line break in s[a..b]: the regular expression's "." does not match one. */
  predicate NoBreak(s: string, a: nat, b: nat)
    requires a <= b <= |s|
  {
    forall k :: a <= k < b ==> s[k] != '\n'
  }

  /** A ">" at e closes a match of "<@(.+)>" opened at p: at least one character between, none a line break. */
  predicate CloseAt(s: string, p: nat, e: nat)
  {
    p + 3 <= e < |s| && s[e] == '>' && NoBreak(s, p + 2, e)
  }

  /**
    The match Go's regexp reports for "<@(.+)>": the leftmost opening that has
    a closing at all, and with it the last closing the greedy ".+" can reach.
  */
  ghost predicate IsMatch(s: string, p: nat, e: nat)
  {
    && OpenAt(s, p) && CloseAt(s, p, e)
    && (forall e': nat :: CloseAt(s, p, e') ==> e' <= e)
    && (forall p': nat, e': nat :: p' < p && OpenAt(s, p') ==> !CloseAt(s, p', e'))
  }

  /** The last closing for the opening at p at or after j, scanning while no line break intervenes. */
  function LastClose(s: string, p: nat, j: nat): (r: Option<nat>)
    requires p + 3 <= j && j - 1 <= |s|
    requires NoBreak(s, p + 2, j - 1)
    ensures r.Some? ==> r.value >= j && CloseAt(s, p, r.value)
    ensures forall e: nat :: j <= e && CloseAt(s, p, e) ==> r.Some? && e <= r.value
    decreases |s| - j
  {
    if j >= |s| || s[j - 1] == '\n' then
      None
    else
      var rest := LastClose(s, p, j + 1);
      if rest.Some? then rest
      else if s[j] == '>' then Some(j)
      else None
  }

  /** The leftmost opening at or after i that has a closing, with its last closing. */
  function FindMatch(s: string, i: nat): (r: Option<(nat, nat)>)
    ensures r.Some? ==> r.value.0 >= i && OpenAt(s, r.value.0) && CloseAt(s, r.value.0, r.value.1)
    ensures r.Some? ==> forall e: nat :: CloseAt(s, r.value.0, e) ==> e <= r.value.1
    ensures forall p: nat, e: nat :: i <= p && OpenAt(s, p) && CloseAt(s, p, e) ==> r.Some? && r.value.0 <= p
    decreases |s| - i
  {
    if i + 1 >= |s| then None
    else
      var close := if OpenAt(s, i) then LastClose(s, i, i + 3) else None;
      if OpenAt(s, i) && close.Some? then Some((i, close.value))
      else FindMatch(s, i + 1)
  }

  /**
    getDiscordUserIDFromString: the text captured by "<@(.+)>" with every "!"
    removed, and true; or "" and false when the text holds no match.
  */
  function UserIdFromMention(mention: string): (r: (string, bool))
    ensures r.1 <==> exists p: nat, e: nat :: OpenAt(mention, p) && CloseAt(mention, p, e)
    ensures r.1 ==> exists p: nat, e: nat :: IsMatch(mention, p, e) && r.0 == RemoveChar(mention[p + 2..e], '!')
    ensures !r.1 ==> r.0 == ""
    ensures '!' !in r.0
  {
    var m := FindMatch(mention, 0);
    if m.Some? then
      var p, e := m.value.0, m.value.1;
      assert IsMatch(mention, p, e);
      (RemoveChar(mention[p + 2..e], '!'), true)
    else ("", false)
  }

  /** A text that opens at its start and closes at its end is one whole match. */
  lemma WholeMatch(s: string)
    requires OpenAt(s, 0) && CloseAt(s, 0, |s| - 1)
    ensures UserIdFromMention(s) == (RemoveChar(s[2..|s| - 1], '!'), true)
  {
    var r := UserIdFromMention(s);
    var p: nat, e: nat :| IsMatch(s, p, e) && r.0 == RemoveChar(s[p + 2..e], '!');
    assert p == 0;
    assert e == |s| - 1 by {
      assert |s| - 1 <= e;
    }
  }

  /** A mention of a user id, plain or in the nickname form "<@!id>", gives back the id. */
  lemma MentionRoundTrip(id: string)
    requires |id| > 0 && '\n' !in id && '!' !in id
    ensures UserIdFromMention("<@" + id + ">") == (id, true)
    ensures UserIdFromMention("<@!" + id + ">") == (id, true)
  {
    WrappedMention(id);
    NicknameMention(id);
  }

  /** The nickname form: the "!" is dropped with the rest of the markup. */
  lemma NicknameMention(id: string)
    requires |id| > 0 && '\n' !in id && '!' !in id
    ensures UserIdFromMention("<@!" + id + ">") == (id, true)
  {
    NicknameForm(id);
    WrappedMention("!" + id);
  }

  /** The nickname markup is the plain markup around "!" and the id. */
  lemma NicknameForm(id: string)
    requires '\n' !in id && '!' !in id
    ensures "<@!" + id + ">" == "<@" + ("!" + id) + ">"
    ensures '\n' !in "!" + id
    ensures RemoveChar("!" + id, '!') == id
  {
    var n := "!" + id;
    assert forall k :: 1 <= k < |n| ==> n[k] == id[k - 1];
    assert "<@!" == "<@" + "!";
    assert n[0] == '!' && n[1..] == id;
  }

  /** "<@", a body without line breaks and ">" make one whole match of that body. */
  lemma WrappedMention(body: string)
    requires |body| > 0 && '\n' !in body
    ensures UserIdFromMention("<@" + body + ">") == (RemoveChar(body, '!'), true)
  {
    var s := "<@" + body + ">";
    assert s[2..|s| - 1] == body;
    assert NoBreak(s, 2, |s| - 1) by {
      assert forall k :: 2 <= k < |s| - 1 ==> s[k] == body[k - 2];
    }
    WholeMatch(s);
  }

  // ---------------------------------------------------------------- the command table

  /** A built-in command as the table keeps it: its name and help text (its handler is not modelled). */
  datatype Command = Command(name: string, helpText: string)

  /** The shard's Commands map, keyed by lower-cased command name. */
  class CommandTable {
    var commands: map<string, Command>

    constructor ()
      ensures commands == map[]
    {
      commands := map[];
    }

    /** registerCommand: the entry under the lower-cased name becomes this command, replacing any other. */
    method Register(c: Command)
      modifies this
      ensures commands == old(commands)[Lower(c.name) := c]
    {
      commands := commands[Lower(c.name) := c];
    }

    /** The command the older parser would run for a message, if any. */
    function Dispatch(content: string, prefix: string): Option<(Command, seq<string>)>
      requires prefix != " "
      reads this
    {
      LegacyDispatch(commands, content, prefix)
    }
  }

  /**
    The older parseMessageForCommand: parse, then run the command stored under
    the parsed name with the parsed arguments; nothing when there is none.
  */
  function LegacyDispatch(commands: map<string, Command>, content: string, prefix: string): (r: Option<(Command, seq<string>)>)
    requires prefix != " "
    ensures r.Some? <==> ParseCommand(content, prefix).found && ParseCommand(content, prefix).name in commands
    ensures r.Some? ==> r.value == (commands[ParseCommand(content, prefix).name], ParseCommand(content, prefix).args)
  {
    var p := ParseCommand(content, prefix);
    if p.found && p.name in commands then Some((commands[p.name], p.args)) else None
  }

  /** Keys are lower case, so a registered command answers to its name typed in any letter case. */
  lemma RegisteredCommandAnswers(commands: map<string, Command>, c: Command, p: char, typed: string, args: seq<string>)
    requires p != ' ' && LowerChar(p) == p
    requires ' ' !in typed && Lower(typed) == Lower(c.name)
    requires forall i :: 0 <= i < |args| ==> ' ' !in args[i]
    ensures LegacyDispatch(commands[Lower(c.name) := c], Join([[p] + Lower(typed)] + args, " "), [p]) == Some((c, args))
  {
    LowerIdempotent(typed);
    ParseRoundTrip(p, Lower(typed), args);
  }

  /** Registering one command leaves every other name's entry as it was. */
  lemma RegisterKeepsOthers(commands: map<string, Command>, c: Command, k: string)
    requires k != Lower(c.name)
    ensures k in commands[Lower(c.name) := c] <==> k in commands
    ensures k in commands ==> commands[Lower(c.name) := c][k] == commands[k]
  {
  }
}
