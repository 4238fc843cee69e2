/**
  getUserPermissions (pkg/discord/parsers.go): the permissions a message's
  author has.  A scan over the member's roles decides administrator status;
  otherwise the configured permissions of the member's roles are merged into
  an all-false record, each role granting one flag.  The guild's role table
  and the member's roles, as the Discord state returns them, are parameters.
*/
module Permissions {
  import opened Wrappers

  /** rolePermission: the bot's own permission flags for one role. */
  datatype RolePermission = RolePermission(
    roleId: string,
    postLinks: bool,
    moderationMuteMember: bool,
    rollDice: bool,
    flipCoin: bool,
    randomImage: bool,
    useCustomCommand: bool,
    manageCustomCommand: bool,
    ignoreCommandThrottle: bool,
    playSongs: bool,
    playLists: bool,
    skipSongs: bool)

  /** The flags, in the order of the merge's switch. */
  datatype Flag =
    | PostLinks | ModerationMuteMember | RollDice | FlipCoin | RandomImage | UseCustomCommand
    | ManageCustomCommand | IgnoreCommandThrottle | PlaySongs | PlayLists | SkipSongs

  function Has(p: RolePermission, f: Flag): bool
  {
    match f
    case PostLinks => p.postLinks
    case ModerationMuteMember => p.moderationMuteMember
    case RollDice => p.rollDice
    case FlipCoin => p.flipCoin
    case RandomImage => p.randomImage
    case UseCustomCommand => p.useCustomCommand
    case ManageCustomCommand => p.manageCustomCommand
    case IgnoreCommandThrottle => p.ignoreCommandThrottle
    case PlaySongs => p.playSongs
    case PlayLists => p.playLists
    case SkipSongs => p.skipSongs
  }

  /** Sets one flag to true. */
  function Grant(p: RolePermission, f: Flag): RolePermission
  {
    match f
    case PostLinks => p.(postLinks := true)
    case ModerationMuteMember => p.(moderationMuteMember := true)
    case RollDice => p.(rollDice := true)
    case FlipCoin => p.(flipCoin := true)
    case RandomImage => p.(randomImage := true)
    case UseCustomCommand => p.(useCustomCommand := true)
    case ManageCustomCommand => p.(manageCustomCommand := true)
    case IgnoreCommandThrottle => p.(ignoreCommandThrottle := true)
    case PlaySongs => p.(playSongs := true)
    case PlayLists => p.(playLists := true)
    case SkipSongs => p.(skipSongs := true)
  }

  /** Granting sets exactly the one flag and keeps the role id. */
  lemma GrantHas(p: RolePermission, f: Flag, g: Flag)
    ensures Has(Grant(p, f), g) == (g == f || Has(p, g))
    ensures Grant(p, f).roleId == p.roleId
  {
  }

  /** The case the switch takes for a role: its first true flag in switch order, if any. */
  function FirstFlag(role: RolePermission): (r: Option<Flag>)
    ensures r.Some? ==> Has(role, r.value)
    ensures r.None? ==> forall f :: !Has(role, f)
  {
    if role.postLinks then Some(PostLinks)
    else if role.moderationMuteMember then Some(ModerationMuteMember)
    else if role.rollDice then Some(RollDice)
    else if role.flipCoin then Some(FlipCoin)
    else if role.randomImage then Some(RandomImage)
    else if role.useCustomCommand then Some(UseCustomCommand)
    else if role.manageCustomCommand then Some(ManageCustomCommand)
    else if role.ignoreCommandThrottle then Some(IgnoreCommandThrottle)
    else if role.playSongs then Some(PlaySongs)
    else if role.playLists then Some(PlayLists)
    else if role.skipSongs then Some(SkipSongs)
    else None
  }

  /** The record an administrator gets. */
  function AllGranted(): (p: RolePermission)
    ensures p.roleId == "User" && forall f :: Has(p, f)
  {
    RolePermission("User", true, true, true, true, true, true, true, true, true, true, true)
  }

  /** The record a non-administrator's merge starts from. */
  function NoneGranted(): (p: RolePermission)
    ensures p.roleId == "User" && forall f :: !Has(p, f)
  {
    RolePermission("User", false, false, false, false, false, false, false, false, false, false, false)
  }

  /** discordgo.PermissionAdministrator, 1 << 3. */
  const PermissionAdministrator: bv64 := 8

  predicate IsAdministratorRole(permissions: bv64)
  {
    permissions & PermissionAdministrator == PermissionAdministrator
  }

  // ---------------------------------------------------------------- the administrator scan

  /**
    The scan as a function: walk the member's roles in order; a role the
    guild state does not know ends the scan with no; an administrator role,
    or any known role when the author owns the guild, ends it with yes.
  */
  function AdminScan(roles: seq<string>, guildRoles: map<string, bv64>, isOwner: bool): bool
  {
    if |roles| == 0 then false
    else if roles[0] !in guildRoles then false
    else if IsAdministratorRole(guildRoles[roles[0]]) || isOwner then true
    else AdminScan(roles[1..], guildRoles, isOwner)
  }

  /** The scan says yes exactly when some role is known, as are all before it, and is an administrator role or the author is the owner. */
  lemma {:induction false} AdminScanMeaning(roles: seq<string>, guildRoles: map<string, bv64>, isOwner: bool)
    ensures AdminScan(roles, guildRoles, isOwner) <==>
      exists k :: 0 <= k < |roles| && (forall j :: 0 <= j <= k ==> roles[j] in guildRoles)
        && (IsAdministratorRole(guildRoles[roles[k]]) || isOwner)
  {
    if |roles| > 0 {
      AdminScanMeaning(roles[1..], guildRoles, isOwner);
      if AdminScan(roles, guildRoles, isOwner) {
        if roles[0] in guildRoles && (IsAdministratorRole(guildRoles[roles[0]]) || isOwner) {
          assert forall j :: 0 <= j <= 0 ==> roles[j] in guildRoles;
        } else {
          var k :| 0 <= k < |roles[1..]| && (forall j :: 0 <= j <= k ==> roles[1..][j] in guildRoles)
            && (IsAdministratorRole(guildRoles[roles[1..][k]]) || isOwner);
          assert forall j :: 0 <= j <= k + 1 ==> roles[j] in guildRoles by {
            forall j | 0 <= j <= k + 1 ensures roles[j] in guildRoles {
              if j > 0 { assert roles[j] == roles[1..][j - 1]; }
            }
          }
          assert roles[k + 1] == roles[1..][k];
        }
      } else {
        forall k | 0 <= k < |roles| && (forall j :: 0 <= j <= k ==> roles[j] in guildRoles)
          ensures !(IsAdministratorRole(guildRoles[roles[k]]) || isOwner)
        {
          if k > 0 {
            assert roles[0] in guildRoles;
            assert forall j :: 0 <= j <= k - 1 ==> roles[1..][j] == roles[j + 1];
            assert roles[1..][k - 1] == roles[k];
          }
        }
      }
    }
  }

  /** Owning the guild counts only inside the loop: an owner without roles is no administrator. */
  lemma OwnerWithoutRolesIsNotAdministrator(guildRoles: map<string, bv64>)
    ensures !AdminScan([], guildRoles, true)
  {
  }

  /** An owner whose first role is known is an administrator, whatever that role's permissions. */
  lemma OwnerWithKnownRoleIsAdministrator(roles: seq<string>, guildRoles: map<string, bv64>)
    requires |roles| > 0 && roles[0] in guildRoles
    ensures AdminScan(roles, guildRoles, true)
  {
  }

  /** A lookup error stops the scan: an administrator role after an unknown one is never reached. */
  lemma UnknownRoleHidesLaterAdministrator(unknown: string, later: string, guildRoles: map<string, bv64>)
    requires unknown !in guildRoles && later in guildRoles && IsAdministratorRole(guildRoles[later])
    ensures !AdminScan([unknown, later], guildRoles, false)
    ensures AdminScan([later, unknown], guildRoles, false)
  {
  }

  // ---------------------------------------------------------------- the merge

  /** One role in the merge: a configured role grants its first flag; an unconfigured one changes nothing. */
  function MergeRole(p: RolePermission, r: string, rolePerms: map<string, RolePermission>): RolePermission
  {
    if r in rolePerms && FirstFlag(rolePerms[r]).Some? then Grant(p, FirstFlag(rolePerms[r]).value) else p
  }

  function MergeRoles(roles: seq<string>, rolePerms: map<string, RolePermission>): RolePermission
  {
    if |roles| == 0 then NoneGranted()
    else MergeRole(MergeRoles(roles[..|roles| - 1], rolePerms), roles[|roles| - 1], rolePerms)
  }

  /** The role among the member's that grants f: a configured role whose first flag is f. */
  ghost predicate Grants(roles: seq<string>, rolePerms: map<string, RolePermission>, k: int, f: Flag)
  {
    0 <= k < |roles| && roles[k] in rolePerms && FirstFlag(rolePerms[roles[k]]) == Some(f)
  }

  /**
    A merged flag is set exactly when one of the member's configured roles has
    it as its first flag; so the merge depends only on which roles the member
    has, not on their order, and a flag that is not some role's first is never
    set.
  */
  lemma {:induction false} MergeMeaning(roles: seq<string>, rolePerms: map<string, RolePermission>, f: Flag)
    ensures Has(MergeRoles(roles, rolePerms), f) <==> exists k :: Grants(roles, rolePerms, k, f)
    ensures MergeRoles(roles, rolePerms).roleId == "User"
  {
    if |roles| > 0 {
      var init := roles[..|roles| - 1];
      MergeMeaning(init, rolePerms, f);
      MergeLastRole(roles, rolePerms, f);
      GrantsSplit(roles, rolePerms, f);
    }
  }

  /** The last role adds its own first flag, if it has one, to what the others merged. */
  lemma MergeLastRole(roles: seq<string>, rolePerms: map<string, RolePermission>, f: Flag)
    requires |roles| > 0
    ensures var last := |roles| - 1;
      Has(MergeRoles(roles, rolePerms), f) == (Has(MergeRoles(roles[..last], rolePerms), f) || Grants(roles, rolePerms, last, f))
    ensures MergeRoles(roles, rolePerms).roleId == MergeRoles(roles[..|roles| - 1], rolePerms).roleId
  {
    var last := |roles| - 1;
    var prev := MergeRoles(roles[..last], rolePerms);
    var r := roles[last];
    if r in rolePerms && FirstFlag(rolePerms[r]).Some? {
      GrantHas(prev, FirstFlag(rolePerms[r]).value, f);
    }
  }

  /** A granting role is the last one or one of those before it. */
  lemma GrantsSplit(roles: seq<string>, rolePerms: map<string, RolePermission>, f: Flag)
    requires |roles| > 0
    ensures var last := |roles| - 1;
      (exists k :: Grants(roles, rolePerms, k, f)) <==> (exists k :: Grants(roles[..last], rolePerms, k, f)) || Grants(roles, rolePerms, last, f)
  {
    var last := |roles| - 1;
    var init := roles[..last];
    if exists k :: Grants(init, rolePerms, k, f) {
      var k :| Grants(init, rolePerms, k, f);
      assert roles[k] == init[k];
      assert Grants(roles, rolePerms, k, f);
    }
    if exists k :: Grants(roles, rolePerms, k, f) {
      var k :| Grants(roles, rolePerms, k, f);
      if k != last {
        assert roles[k] == init[k];
        assert Grants(init, rolePerms, k, f);
      }
    }
  }

  /** Adding roles never takes a flag away. */
  lemma MergeNeverRevokes(roles: seq<string>, more: seq<string>, rolePerms: map<string, RolePermission>, f: Flag)
    requires Has(MergeRoles(roles, rolePerms), f)
    ensures Has(MergeRoles(roles + more, rolePerms), f)
  {
    MergeMeaning(roles, rolePerms, f);
    MergeMeaning(roles + more, rolePerms, f);
    var k :| Grants(roles, rolePerms, k, f);
    assert (roles + more)[k] == roles[k];
    assert Grants(roles + more, rolePerms, k, f);
  }

  /** A role configured with several flags grants only the first of them. */
  lemma OnlyTheFirstFlagIsGranted(r: string, role: RolePermission)
    requires role.playSongs && role.skipSongs && !role.postLinks && !role.moderationMuteMember && !role.rollDice
    requires !role.flipCoin && !role.randomImage && !role.useCustomCommand && !role.manageCustomCommand
    requires !role.ignoreCommandThrottle
    ensures var p := MergeRoles([r], map[r := role]);
      p.playSongs && !p.skipSongs && !p.playLists
  {
    assert [r][..0] == [];
  }

  // ---------------------------------------------------------------- getUserPermissions

  /**
    getUserPermissions: None when the member cannot be found (the two lookups
    it tries both fail).  Otherwise the administrator scan runs over the
    member's roles and, if it says no, the merge loop over them; the inner
    loop over the configured roles, which stops at the key equal to the
    member's role, is a map lookup here.
  */
  method GetUserPermissions(member: Option<seq<string>>, guildRoles: map<string, bv64>, isOwner: bool,
                            rolePerms: map<string, RolePermission>) returns (r: Option<RolePermission>)
    ensures member.None? ==> r.None?
    ensures member.Some? ==> r == Some(if AdminScan(member.value, guildRoles, isOwner) then AllGranted()
                                       else MergeRoles(member.value, rolePerms))
  {
    if member.None? {
      return None;
    }
    var roles := member.value;
    var admin := IsAdministrator(roles, guildRoles, isOwner);
    if admin {
      return Some(AllGranted());
    }
    var p := NoneGranted();
    for j := 0 to |roles|
      invariant p == MergeRoles(roles[..j], rolePerms)
    {
      assert roles[..j + 1][..j] == roles[..j];
      if roles[j] in rolePerms {
        p := ApplyRole(p, rolePerms[roles[j]]);
      }
    }
    assert roles[..|roles|] == roles;
    return Some(p);
  }

  /** The administrator scan: stops at the first role the guild state does not know, or at the first administrator role or, for the owner, the first known role. */
  method IsAdministrator(roles: seq<string>, guildRoles: map<string, bv64>, isOwner: bool) returns (admin: bool)
    ensures admin == AdminScan(roles, guildRoles, isOwner)
  {
    admin := false;
    var i := 0;
    while i < |roles|
      invariant 0 <= i <= |roles|
      invariant AdminScan(roles, guildRoles, isOwner) == AdminScan(roles[i..], guildRoles, isOwner)
    {
      assert roles[i..][1..] == roles[i + 1..];
      if roles[i] !in guildRoles {
        break;
      }
      if IsAdministratorRole(guildRoles[roles[i]]) {
        admin := true;
        break;
      }
      if isOwner {
        admin := true;
        break;
      }
      i := i + 1;
    }
  }

  /** The switch for one configured role: the first of its flags that is set is set in the record. */
  method ApplyRole(p: RolePermission, role: RolePermission) returns (q: RolePermission)
    ensures q == if FirstFlag(role).Some? then Grant(p, FirstFlag(role).value) else p
  {
    q := p;
    if role.postLinks { q := q.(postLinks := true); }
    else if role.moderationMuteMember { q := q.(moderationMuteMember := true); }
    else if role.rollDice { q := q.(rollDice := true); }
    else if role.flipCoin { q := q.(flipCoin := true); }
    else if role.randomImage { q := q.(randomImage := true); }
    else if role.useCustomCommand { q := q.(useCustomCommand := true); }
    else if role.manageCustomCommand { q := q.(manageCustomCommand := true); }
    else if role.ignoreCommandThrottle { q := q.(ignoreCommandThrottle := true); }
    else if role.playSongs { q := q.(playSongs := true); }
    else if role.playLists { q := q.(playLists := true); }
    else if role.skipSongs { q := q.(skipSongs := true); }
  }
}
