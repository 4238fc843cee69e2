/**
  A guild's custom commands: the reply a custom command sends
  (handleCustomCommand) and the create and delete commands that keep the
  custom_command table and the server instance's in-memory map of them.
*/
module CustomCommands {
  import opened Wrappers
  import opened Text
  import opened Chat
  import Commands

  // ---------------------------------------------------------------- the reply

  /** The text before the escape replacement: the arguments, a space and the stored text; or the stored text alone. */
  function Composed(stored: string, args: seq<string>): string
  {
    if |args| != 0 then Join(args, " ") + " " + stored else stored
  }

  /**
    handleCustomCommand's answer: None (not a custom command, nothing sent)
    when the name has no entry; otherwise the text sent, with every
    backslash-'n' pair turned into a line break.  A known command counts as
    handled whether or not the send then fails, so the caller gets Some either way.
  */
  function CustomReply(custom: map<string, string>, name: string, args: seq<string>): (r: Option<string>)
    ensures r.Some? <==> name in custom
    ensures r.Some? ==> !HasEscape(r.value)
  {
    if name !in custom then None
    else
      var msg := Composed(custom[name], args);
      var sent := if HasEscape(msg) then ReplaceEscapes(msg) else msg;
      ReplaceEscapesRemovesAll(msg);
      Some(sent)
  }

  /** The escape test before the replacement changes nothing: the reply is the replacement of the composed text. */
  lemma CustomReplyReplaces(custom: map<string, string>, name: string, args: seq<string>)
    requires name in custom
    ensures CustomReply(custom, name, args) == Some(ReplaceEscapes(Composed(custom[name], args)))
  {
    var msg := Composed(custom[name], args);
    if !HasEscape(msg) {
      ReplaceEscapesNoop(msg);
    }
  }

  /**
    The reply, stated piecewise: without arguments the stored text with its
    escapes replaced; with arguments the joined arguments and the stored text,
    each with its escapes replaced, separated by one space.
  */
  lemma CustomReplyText(custom: map<string, string>, name: string, args: seq<string>)
    requires name in custom
    ensures |args| == 0 ==> CustomReply(custom, name, args) == Some(ReplaceEscapes(custom[name]))
    ensures |args| != 0 ==>
      CustomReply(custom, name, args) == Some(ReplaceEscapes(Join(args, " ")) + " " + ReplaceEscapes(custom[name]))
  {
    CustomReplyReplaces(custom, name, args);
    if |args| != 0 {
      ReplaceEscapesAroundSpace(Join(args, " "), custom[name]);
    }
  }

  /** A space between two texts keeps the replacement apart on each side. */
  lemma ReplaceEscapesAroundSpace(a: string, b: string)
    ensures ReplaceEscapes(a + " " + b) == ReplaceEscapes(a) + " " + ReplaceEscapes(b)
  {
    ReplaceEscapesAppend(a, " " + b);
    ReplaceEscapesAppend(" ", b);
    assert a + " " + b == a + (" " + b);
    assert ReplaceEscapes(" ") == " ";
  }

  /** The replacement works piece by piece unless the pieces meet in a backslash and an 'n'. */
  lemma {:induction false} ReplaceEscapesAppend(a: string, b: string)
    requires |a| == 0 || a[|a| - 1] != '\\' || |b| == 0 || b[0] != 'n'
    ensures ReplaceEscapes(a + b) == ReplaceEscapes(a) + ReplaceEscapes(b)
  {
    if |a| == 0 {
      assert a + b == b;
    } else if |a| >= 2 && a[0] == '\\' && a[1] == 'n' {
      assert (a + b)[2..] == a[2..] + b;
      ReplaceEscapesAppend(a[2..], b);
    } else {
      assert (a + b)[1..] == a[1..] + b;
      if |a| == 1 && a[0] == '\\' && |b| > 0 {
        assert (a + b)[1] == b[0];
      }
      ReplaceEscapesAppend(a[1..], b);
    }
  }

  /**
    Names typed after the prefix are lower-cased before the lookup, so a
    custom command stored under a name with a capital letter is never found
    by a chat message.
  */
  lemma CapitalisedNameUnreachable(custom: map<string, string>, stored: string, content: string, prefix: string)
    requires prefix != " " && Lower(stored) != stored
    ensures Commands.ParseCommand(content, prefix).name != stored
  {
    var p := Commands.ParseCommand(content, prefix);
    if p.found {
      var first := Split(content, ' ')[0];
      Commands.SplitFirstStarts(content, ' ');
      assert p.name == Lower(first)[1..];
      assert Lower(p.name) == p.name;
    }
  }

  // ---------------------------------------------------------------- the table and the map

  /** A custom_command row; the table is keyed by (guild_id, command_name). */
  datatype CustomCommandRow = CustomCommandRow(
    addedByUserId: string, guildId: string, commandName: string, message: string,
    createdAt: int, updatedAt: Option<int>)

  /**
    Upsert on the key (guild_id, command_name): a new key gets the whole row;
    an existing one has only its message and updated_at replaced.
  */
  function UpsertCommand(table: map<(string, string), CustomCommandRow>, row: CustomCommandRow): (t: map<(string, string), CustomCommandRow>)
    ensures t.Keys == table.Keys + {(row.guildId, row.commandName)}
    ensures t[(row.guildId, row.commandName)].message == row.message
    ensures forall k :: k in table && k != (row.guildId, row.commandName) ==> t[k] == table[k]
  {
    var key := (row.guildId, row.commandName);
    if key in table then table[key := table[key].(message := row.message, updatedAt := row.updatedAt)]
    else table[key := row]
  }

  /** Creating a command twice keeps one row, with the second message and the first author and creation time. */
  lemma RecreateOverwrites(table: map<(string, string), CustomCommandRow>, r1: CustomCommandRow, r2: CustomCommandRow)
    requires (r1.guildId, r1.commandName) == (r2.guildId, r2.commandName)
    requires (r1.guildId, r1.commandName) !in table
    ensures var t := UpsertCommand(UpsertCommand(table, r1), r2);
      && t.Keys == table.Keys + {(r1.guildId, r1.commandName)}
      && t[(r1.guildId, r1.commandName)] == r1.(message := r2.message, updatedAt := r2.updatedAt)
  {
  }

  function InvalidCreateMessage(): Message
  {
    ErrorMessage("Invalid command arguments.", "You must provide a command name and a message.")
  }

  function InvalidDeleteMessage(): Message
  {
    ErrorMessage("Invalid command arguments.", "You must provide a command name")
  }

  function CreateDbErrorMessage(e: string): Message
  {
    ErrorMessage("Database error trying to create custom command.", e)
  }

  function DeleteDbErrorMessage(e: string): Message
  {
    ErrorMessage("Database error trying to delete custom command.", e)
  }

  function MissingCommandMessage(name: string): Message
  {
    ErrorMessage("Custom command doesn't exist.", "The custom command " + name + " doesn't exist.")
  }

  /** The in-memory map holds exactly the guild's command names, each with its stored message. */
  ghost predicate MapAgrees(commands: map<string, string>, table: map<(string, string), CustomCommandRow>, g: string)
  {
    && (forall n :: n in commands <==> (g, n) in table)
    && (forall n :: n in commands ==> commands[n] == table[(g, n)].message)
  }

  /** How a lookup of the row to delete goes: as the table says, or a database error other than no rows. */
  datatype DeleteOutcome = AsTable | LookupError(lookupError: string) | DeleteError(deleteError: string)

  /**
    One guild's custom commands: the shared table (all guilds' rows) and the
    server instance's map from command name to message.
  */
  class GuildCustomCommands {
    const guildId: string
    var table: map<(string, string), CustomCommandRow>
    var commands: map<string, string>

    /** The map agrees with the guild's rows of the table. */
    ghost predicate Valid()
      reads this
    {
      MapAgrees(commands, table, guildId)
    }

    constructor (g: string, t: map<(string, string), CustomCommandRow>, c: map<string, string>)
      ensures guildId == g && table == t && commands == c
      ensures MapAgrees(c, t, g) ==> Valid()
    {
      guildId := g;
      table := t;
      commands := c;
    }

    /**
      createCustomCommand: needs a name and at least one word of message; the
      row is upserted and, only once that succeeds, the map entry set.  On an
      error nothing changes.
    */
    method Create(args: seq<string>, authorId: string, now: int, upsertError: Option<string>) returns (m: Message)
      modifies this
      ensures |args| <= 1 ==> m == InvalidCreateMessage() && table == old(table) && commands == old(commands)
      ensures |args| > 1 && upsertError.Some? ==>
        m == CreateDbErrorMessage(upsertError.value) && table == old(table) && commands == old(commands)
      ensures |args| > 1 && upsertError.None? ==>
        && table == UpsertCommand(old(table), CustomCommandRow(authorId, guildId, args[0], Join(args[1..], " "), now, Some(now)))
        && commands == old(commands)[args[0] := Join(args[1..], " ")]
        && m == EmbedMessage(FieldsEmbed([Field("Successfully added custom command", args[0], false)]))
      ensures old(Valid()) ==> Valid()
    {
      if |args| > 1 {
        var name := args[0];
        var text := Join(args[1..], " ");
        if upsertError.Some? {
          return CreateDbErrorMessage(upsertError.value);
        }
        table := UpsertCommand(table, CustomCommandRow(authorId, guildId, name, text, now, Some(now)));
        commands := commands[name := text];
        m := EmbedMessage(FieldsEmbed([Field("Successfully added custom command", args[0], false)]));
      } else {
        m := InvalidCreateMessage();
      }
    }

    /**
      deleteCustomCommand: needs a name; a database error on the lookup or the
      delete reports it, a missing row reports that the command does not
      exist, and in each of these cases nothing changes.  Otherwise the row
      goes and, after it, the map entry.
    */
    method Delete(args: seq<string>, outcome: DeleteOutcome) returns (m: Message)
      modifies this
      ensures |args| == 0 ==> m == InvalidDeleteMessage() && table == old(table) && commands == old(commands)
      ensures |args| > 0 && outcome.LookupError? ==>
        m == DeleteDbErrorMessage(outcome.lookupError) && table == old(table) && commands == old(commands)
      ensures |args| > 0 && !outcome.LookupError? && (guildId, args[0]) !in old(table) ==>
        m == MissingCommandMessage(args[0]) && table == old(table) && commands == old(commands)
      ensures |args| > 0 && outcome.DeleteError? && (guildId, args[0]) in old(table) ==>
        m == DeleteDbErrorMessage(outcome.deleteError) && table == old(table) && commands == old(commands)
      ensures |args| > 0 && outcome.AsTable? && (guildId, args[0]) in old(table) ==>
        && table == old(table) - {(guildId, args[0])}
        && commands == old(commands) - {args[0]}
        && m == EmbedMessage(FieldsEmbed([Field("Successfully deleted custom command", args[0], false)]))
      ensures old(Valid()) ==> Valid()
    {
      if |args| > 0 {
        var name := args[0];
        if outcome.LookupError? {
          return DeleteDbErrorMessage(outcome.lookupError);
        }
        if (guildId, name) !in table {
          return MissingCommandMessage(name);
        }
        if outcome.DeleteError? {
          return DeleteDbErrorMessage(outcome.deleteError);
        }
        table := table - {(guildId, name)};
        commands := commands - {name};
        m := EmbedMessage(FieldsEmbed([Field("Successfully deleted custom command", args[0], false)]));
      } else {
        m := InvalidDeleteMessage();
      }
    }
  }

  /** A command created in the map is answered with its message, after any arguments. */
  lemma CreatedCommandAnswers(commands: map<string, string>, args: seq<string>, callArgs: seq<string>)
    requires |args| > 1
    ensures CustomReply(commands[args[0] := Join(args[1..], " ")], args[0], callArgs).Some?
    ensures CustomReply(commands[args[0] := Join(args[1..], " ")], args[0], []) == Some(ReplaceEscapes(Join(args[1..], " ")))
  {
    CustomReplyText(commands[args[0] := Join(args[1..], " ")], args[0], []);
  }

  /** A deleted command is no longer answered: the message goes on to the built-in commands. */
  lemma DeletedCommandSilent(commands: map<string, string>, name: string, callArgs: seq<string>)
    ensures CustomReply(commands - {name}, name, callArgs) == None
  {
  }
}
