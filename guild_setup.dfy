/**
  What the bot does when a guild becomes available (pkg/discord/handler_functions.go):
  load or create the guild's server row, make sure the @everyone role has a
  permission row, build the server instance's maps and initial state, decide
  whether music starts, and re-mute a returning member.  Database reads are
  parameters that give the row, no rows, or an error.
*/
module GuildSetup {
  import opened Wrappers
  import opened Sorting
  import opened Permissions
  import opened Scheduler
  import CustomCommands

  /** How a one-row lookup went. */
  datatype Lookup<T> = Found(row: T) | NoRows | LookupFailed(error: string)

  // ---------------------------------------------------------------- the server row

  /** The discord_server row. */
  datatype DiscordServer = DiscordServer(
    guildId: string, guildName: string, linkRemovalEnabled: bool, musicEnabled: bool,
    customCommandsEnabled: bool, diceRollEnabled: bool, prefixCommand: string,
    musicTextChannelId: Option<string>, musicVoiceChannelId: Option<string>, musicVolume: real,
    announceSongs: bool, throttleCommandsEnabled: bool, throttleCommandsSeconds: Option<int>,
    welcomeMessageEnabled: bool, welcomeMessage: Option<string>,
    moderationMuteEnabled: bool, notifyMeRoleEnabled: bool)

  /** The row a guild without one gets; the two flags the literal leaves out take Go's zero value. */
  function DefaultServer(guildId: string, guildName: string): DiscordServer
  {
    DiscordServer(guildId, guildName, false, false, true, true, "~", None, None, 0.5, true, false, None, false, None,
      false, false)
  }

  /**
    loadOrCreateDiscordGuildFromDatabase: the stored row when the lookup finds
    one; after any lookup error, no rows or another, a default row is inserted
    and returned, unless the insert fails.
  */
  function LoadOrCreate(lookup: Lookup<DiscordServer>, guildId: string, guildName: string, insertError: Option<string>)
    : (r: Result<DiscordServer, string>)
    ensures lookup.Found? ==> r == Ok(lookup.row)
    ensures !lookup.Found? && insertError.Some? ==> r == Err(insertError.value)
    ensures !lookup.Found? && insertError.None? ==>
      && r.Ok? && r.value.guildId == guildId && r.value.guildName == guildName
      && !r.value.musicEnabled && r.value.prefixCommand == "~" && r.value.musicVolume == 0.5
      && r.value.customCommandsEnabled && r.value.diceRollEnabled && r.value.announceSongs
      && !r.value.linkRemovalEnabled && !r.value.throttleCommandsEnabled && !r.value.welcomeMessageEnabled
      && r.value.musicTextChannelId.None? && r.value.musicVoiceChannelId.None?
  {
    if lookup.Found? then Ok(lookup.row)
    else if insertError.Some? then Err(insertError.value)
    else Ok(DefaultServer(guildId, guildName))
  }

  /** A failing lookup is not told apart from a missing row: both lead to the same default. */
  lemma LookupErrorCreatesDefault(e: string, guildId: string, guildName: string)
    ensures LoadOrCreate(LookupFailed(e), guildId, guildName, None) == LoadOrCreate(NoRows, guildId, guildName, None)
    ensures LoadOrCreate(NoRows, guildId, guildName, None) == Ok(DefaultServer(guildId, guildName))
  {
  }

  // ---------------------------------------------------------------- the @everyone permissions

  /** The permissions the @everyone role starts with. */
  function EveryoneDefaults(roleId: string): (p: RolePermission)
    ensures p.roleId == roleId
    ensures Has(p, PlaySongs) && Has(p, PlayLists) && Has(p, PostLinks) && Has(p, RollDice)
    ensures Has(p, FlipCoin) && Has(p, RandomImage) && Has(p, UseCustomCommand)
    ensures !Has(p, SkipSongs) && !Has(p, ModerationMuteMember) && !Has(p, ManageCustomCommand)
    ensures !Has(p, IgnoreCommandThrottle)
  {
    RolePermission(roleId, true, false, true, true, true, true, false, false, true, true, false)
  }

  /**
    createEveryoneRolePermissionsIfNotExist: the row it inserts, if any.  Only
    when the @everyone role is found and the lookup reports no rows; a lookup
    error, like an existing row, inserts nothing.
  */
  function EveryoneRow(everyoneRole: Option<string>, existing: Lookup<RolePermission>): (r: Option<RolePermission>)
    ensures r.Some? <==> everyoneRole.Some? && existing.NoRows?
    ensures r.Some? ==> r.value == EveryoneDefaults(everyoneRole.value)
  {
    if everyoneRole.None? then None
    else if !existing.NoRows? then None
    else Some(EveryoneDefaults(everyoneRole.value))
  }

  // ---------------------------------------------------------------- maps built from rows

  /** A map filled row by row: each row sets its key, so the last row with a key wins. */
  function LastWins<R, V>(rows: seq<R>, key: R -> string, value: R -> V): map<string, V>
  {
    if |rows| == 0 then map[]
    else LastWins(rows[..|rows| - 1], key, value)[key(rows[|rows| - 1]) := value(rows[|rows| - 1])]
  }

  /**
    The keys are the rows' keys, and a key's value is that of the last row
    with it: some row k has the key and no later row has it.
  */
  lemma {:induction false} LastWinsMeaning<R, V>(rows: seq<R>, key: R -> string, value: R -> V, n: string)
    ensures n in LastWins(rows, key, value) <==> exists k :: 0 <= k < |rows| && key(rows[k]) == n
    ensures n in LastWins(rows, key, value) ==>
      exists k :: 0 <= k < |rows| && key(rows[k]) == n && LastWins(rows, key, value)[n] == value(rows[k])
        && forall j :: k < j < |rows| ==> key(rows[j]) != n
  {
    if |rows| > 0 {
      var last := |rows| - 1;
      var init := rows[..last];
      LastWinsMeaning(init, key, value, n);
      assert forall k :: 0 <= k < last ==> rows[k] == init[k];
      if key(rows[last]) != n {
        if exists k :: 0 <= k < |rows| && key(rows[k]) == n {
          var k :| 0 <= k < |rows| && key(rows[k]) == n;
          assert key(init[k]) == n;
        }
        if n in LastWins(init, key, value) {
          var k :| 0 <= k < |init| && key(init[k]) == n && LastWins(init, key, value)[n] == value(init[k])
            && forall j :: k < j < |init| ==> key(init[j]) != n;
          assert key(rows[k]) == n;
        }
      }
    }
  }

  /** The custom-command loop: command name to message. */
  method CustomCommandsMap(rows: seq<CustomCommands.CustomCommandRow>) returns (m: map<string, string>)
    ensures m == LastWins(rows, (c: CustomCommands.CustomCommandRow) => c.commandName, (c: CustomCommands.CustomCommandRow) => c.message)
  {
    m := map[];
    for i := 0 to |rows|
      invariant m == LastWins(rows[..i], (c: CustomCommands.CustomCommandRow) => c.commandName, (c: CustomCommands.CustomCommandRow) => c.message)
    {
      assert rows[..i + 1][..i] == rows[..i];
      m := m[rows[i].commandName := rows[i].message];
    }
    assert rows[..|rows|] == rows;
  }

  /** The role-permission loop: role id to that role's permissions, every flag copied from the row. */
  method RolePermissionsMap(rows: seq<RolePermission>) returns (m: map<string, RolePermission>)
    ensures m == LastWins(rows, (p: RolePermission) => p.roleId, (p: RolePermission) => p)
  {
    m := map[];
    for i := 0 to |rows|
      invariant m == LastWins(rows[..i], (p: RolePermission) => p.roleId, (p: RolePermission) => p)
    {
      assert rows[..i + 1][..i] == rows[..i];
      m := m[rows[i].roleId := rows[i]];
    }
    assert rows[..|rows|] == rows;
  }

  /**
    Loaded from the table, the custom-command map agrees with it: given the
    guild's rows, each (guild, name) key once, the map holds exactly those
    names with their messages.
  */
  lemma LoadedCommandsAgree(rows: seq<CustomCommands.CustomCommandRow>, table: map<(string, string), CustomCommands.CustomCommandRow>, g: string)
    requires forall k :: 0 <= k < |rows| ==> rows[k].guildId == g && (g, rows[k].commandName) in table && table[(g, rows[k].commandName)] == rows[k]
    requires forall n :: (g, n) in table ==> exists k :: 0 <= k < |rows| && rows[k].commandName == n
    ensures CustomCommands.MapAgrees(
      LastWins(rows, (c: CustomCommands.CustomCommandRow) => c.commandName, (c: CustomCommands.CustomCommandRow) => c.message), table, g)
  {
    var key := (c: CustomCommands.CustomCommandRow) => c.commandName;
    var value := (c: CustomCommands.CustomCommandRow) => c.message;
    var m := LastWins(rows, key, value);
    forall n ensures n in m <==> (g, n) in table {
      LastWinsMeaning(rows, key, value, n);
    }
    forall n | n in m ensures m[n] == table[(g, n)].message {
      LastWinsMeaning(rows, key, value, n);
    }
  }

  // ---------------------------------------------------------------- the role-permission dialogue

  /** A bot permission as the set-role-permissions dialogue shows it. */
  datatype PermissionInfo = PermissionInfo(permission: string, friendlyName: string)

  datatype SetRolePermsAnswer = SetRolePermsAnswer(permissionName: string, permission: string, answered: bool)

  predicate FriendlyLe(a: PermissionInfo, b: PermissionInfo)
  {
    StrLe(a.friendlyName, b.friendlyName)
  }

  lemma FriendlyLeIsTotalPreorder()
    ensures TotalPreorder(FriendlyLe)
  {
    forall a: PermissionInfo, b: PermissionInfo ensures FriendlyLe(a, b) || FriendlyLe(b, a) {
      StrLeTotal(a.friendlyName, b.friendlyName);
    }
    forall a: PermissionInfo, b: PermissionInfo, c: PermissionInfo | FriendlyLe(a, b) && FriendlyLe(b, c)
      ensures FriendlyLe(a, c)
    {
      StrLeTrans(a.friendlyName, b.friendlyName, c.friendlyName);
    }
  }

  /** The permissions in the order the dialogue asks them: by friendly name. */
  function SortedPermissions(all: seq<PermissionInfo>): (r: seq<PermissionInfo>)
    ensures multiset(r) == multiset(all)
    ensures forall i, j :: 0 <= i < j < |r| ==> StrLe(r[i].friendlyName, r[j].friendlyName)
  {
    FriendlyLeIsTotalPreorder();
    SortBy(all, FriendlyLe)
  }

  /** The answers loop: one unanswered entry per permission. */
  method PermissionAnswers(all: seq<PermissionInfo>) returns (m: map<string, SetRolePermsAnswer>)
    ensures m == LastWins(all, (p: PermissionInfo) => p.permission,
                          (p: PermissionInfo) => SetRolePermsAnswer(p.friendlyName, p.permission, false))
  {
    m := map[];
    for i := 0 to |all|
      invariant m == LastWins(all[..i], (p: PermissionInfo) => p.permission,
                              (p: PermissionInfo) => SetRolePermsAnswer(p.friendlyName, p.permission, false))
    {
      assert all[..i + 1][..i] == all[..i];
      m := m[all[i].permission := SetRolePermsAnswer(all[i].friendlyName, all[i].permission, false)];
    }
    assert all[..|all|] == all;
  }

  /** Every permission has an entry under its own key, unanswered and carrying that key. */
  lemma AnswersCoverEveryPermission(all: seq<PermissionInfo>, p: string)
    ensures var m := LastWins(all, (q: PermissionInfo) => q.permission,
                              (q: PermissionInfo) => SetRolePermsAnswer(q.friendlyName, q.permission, false));
      && (p in m <==> exists k :: 0 <= k < |all| && all[k].permission == p)
      && (p in m ==> !m[p].answered && m[p].permission == p)
  {
    var key := (q: PermissionInfo) => q.permission;
    var value := (q: PermissionInfo) => SetRolePermsAnswer(q.friendlyName, q.permission, false);
    LastWinsMeaning(all, key, value, p);
  }

  // ---------------------------------------------------------------- the server instance

  datatype Features = Features(
    linkRemoval: bool, music: bool, customCommands: bool, diceRoll: bool, throttleCommands: bool,
    welcomeMessage: bool, moderationMuteRole: bool, notifyMeRole: bool)

  datatype SetRolePerms = SetRolePerms(
    userId: string, roleIdBeingSet: string, inProgress: bool, sortedPermissions: seq<PermissionInfo>,
    answers: map<string, SetRolePermsAnswer>, timeout: int)

  /** The new ServerInstance, its locks, contexts, session and clients apart. */
  datatype GuildInstance = GuildInstance(
    guildId: string, configuration: DiscordServer, features: Features,
    rolePermissions: map<string, RolePermission>, customCommands: map<string, string>,
    music: MusicOpts, setRolePerms: SetRolePerms)

  function FeaturesOf(s: DiscordServer): Features
  {
    Features(s.linkRemovalEnabled, s.musicEnabled, s.customCommandsEnabled, s.diceRollEnabled,
      s.throttleCommandsEnabled, s.welcomeMessageEnabled, s.moderationMuteEnabled, s.notifyMeRoleEnabled)
  }

  /**
    createDiscordGuildInstance: the maps are built from the loaded rows (a load
    error logs and leaves the map empty), the features copied from the server
    row, the music state starts with nothing playing and no tokens cancelled,
    and the permission dialogue starts idle.
  */
  method CreateGuildInstance(guildId: string, server: DiscordServer,
                             commandRows: Result<seq<CustomCommands.CustomCommandRow>, string>,
                             permissionRows: Result<seq<RolePermission>, string>,
                             all: seq<PermissionInfo>) returns (inst: GuildInstance)
    ensures inst.guildId == guildId && inst.configuration == server && inst.features == FeaturesOf(server)
    ensures inst.customCommands == LastWins(if commandRows.Ok? then commandRows.value else [],
      (c: CustomCommands.CustomCommandRow) => c.commandName, (c: CustomCommands.CustomCommandRow) => c.message)
    ensures inst.rolePermissions == LastWins(if permissionRows.Ok? then permissionRows.value else [],
      (p: RolePermission) => p.roleId, (p: RolePermission) => p)
    ensures inst.music == InitialMusic() && MusicValid(inst.music)
    ensures inst.setRolePerms.sortedPermissions == SortedPermissions(all)
    ensures inst.setRolePerms.answers == LastWins(all, (p: PermissionInfo) => p.permission,
      (p: PermissionInfo) => SetRolePermsAnswer(p.friendlyName, p.permission, false))
    ensures !inst.setRolePerms.inProgress && inst.setRolePerms.timeout == ZeroTime
  {
    var commands := CustomCommandsMap(if commandRows.Ok? then commandRows.value else []);
    var roles := RolePermissionsMap(if permissionRows.Ok? then permissionRows.value else []);
    var answers := PermissionAnswers(all);
    var sorted := SortedPermissions(all);
    InitialMusicValid();
    inst := GuildInstance(guildId, server, FeaturesOf(server), roles, commands, InitialMusic(),
      SetRolePerms("", "", false, sorted, answers, ZeroTime));
  }

  /** A new instance is idle: nothing playing, no duration, no current request or song, no skip pending. */
  lemma NewInstanceIsIdle()
    ensures !InitialMusic().songPlaying && InitialMusic().songDurationSeconds == 0
    ensures InitialMusic().currentRequest.None? && InitialMusic().currentSong.None?
    ensures !InitialMusic().trackCancelled && InitialMusic().skipAllToken !in InitialMusic().cancelledSkipAll
  {
  }

  // ---------------------------------------------------------------- music on guild create

  /** startMusicBot: the queue is started only with music on, the voice join done and nothing playing. */
  function StartsMusic(musicEnabled: bool, joinFails: bool, songPlaying: bool): (start: bool)
    ensures start ==> musicEnabled && !joinFails && !songPlaying
    ensures musicEnabled && !joinFails && !songPlaying ==> start
  {
    if !musicEnabled then false
    else if joinFails then false
    else !songPlaying
  }

  // ---------------------------------------------------------------- re-muting a returning member

  datatype MutedMember = MutedMember(expiresAt: Option<int>)

  /** The calls the check makes, in order. */
  datatype MuteCall = DeleteMuteRecord | MuteMember

  predicate Expired(m: MutedMember, now: int)
  {
    m.expiresAt.Some? && m.expiresAt.value < now
  }

  /**
    checkNewUserForMute as written: with the mute feature on and a record
    found, an expired record is deleted (a failed delete ends the check), and
    then the member is muted whether or not the record had expired.
  */
  function MuteCheckAsWritten(enabled: bool, lookup: Lookup<MutedMember>, now: int, deleteFails: bool): (calls: seq<MuteCall>)
    ensures !enabled || !lookup.Found? ==> calls == []
    ensures enabled && lookup.Found? && !Expired(lookup.row, now) ==> calls == [MuteMember]
    ensures enabled && lookup.Found? && Expired(lookup.row, now) ==>
      calls == if deleteFails then [DeleteMuteRecord] else [DeleteMuteRecord, MuteMember]
  {
    if !enabled then []
    else match lookup
      case LookupFailed(_) => []
      case NoRows => []
      case Found(m) =>
        if Expired(m, now) then (if deleteFails then [DeleteMuteRecord] else [DeleteMuteRecord, MuteMember])
        else [MuteMember]
  }

  /** A member whose mute has run out is muted again as they rejoin, though the record is gone. */
  lemma ExpiredMuteReapplied()
    ensures MuteCheckAsWritten(true, Found(MutedMember(Some(0))), 1, false) == [DeleteMuteRecord, MuteMember]
  {
  }

  /** The check as intended: an expired record is removed and the member left unmuted. */
  function MuteCheck(enabled: bool, lookup: Lookup<MutedMember>, now: int, deleteFails: bool): (calls: seq<MuteCall>)
  {
    if !enabled then []
    else match lookup
      case LookupFailed(_) => []
      case NoRows => []
      case Found(m) => if Expired(m, now) then [DeleteMuteRecord] else [MuteMember]
  }

  /**
    The member is muted exactly when the feature is on and an unexpired mute
    record is found; the record is deleted exactly when it has expired.
  */
  lemma MuteCheckMeaning(enabled: bool, lookup: Lookup<MutedMember>, now: int, deleteFails: bool)
    ensures MuteMember in MuteCheck(enabled, lookup, now, deleteFails) <==>
      enabled && lookup.Found? && !Expired(lookup.row, now)
    ensures DeleteMuteRecord in MuteCheck(enabled, lookup, now, deleteFails) <==>
      enabled && lookup.Found? && Expired(lookup.row, now)
    ensures lookup.Found? && !Expired(lookup.row, now) ==>
      MuteCheck(enabled, lookup, now, deleteFails) == MuteCheckAsWritten(enabled, lookup, now, deleteFails)
  {
  }
}
