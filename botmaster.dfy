/** pkg/botmaster: whether the invoking member is a bot master of the guild,
    and the command restriction built on it. A member is a bot master if the
    guild lists their user id or one of their roles, and otherwise if they
    have the Administrator permission. */
module BotMaster {
  import opened Wrappers
  import opened Discord
  import opened Settings
  import Confgetter

  /** The term of the error returned to a member who is not a bot master. */
  const NotMasterTerm: string := "bot_master.error.not_master"

  /** The member is listed: their user id is a bot-master user id, or they
      hold a bot-master role. */
  predicate Listed(m: Member, userIds: seq<UserId>, roleIds: seq<RoleId>) {
    m.userId in userIds || exists r :: r in roleIds && r in m.roleIds
  }

  /** The decision `Is` makes. `guild` is what `ctx.Guild()` returns and
      `permissions` is `permutil.MemberPermissions`; neither is consulted for a
      listed member. */
  function Decide<G>(m: Member, bag: Confgetter.Bag, guild: Result<G, Error>,
                     permissions: (G, Member) -> Permissions): Result<bool, Error>
  {
    if Listed(m, Confgetter.BotMasterUserIDs(bag), Confgetter.BotMasterRoleIDs(bag)) then Ok(true)
    else if guild.Err? then Err(guild.error)
    else Ok(Has(permissions(guild.value, m), PermissionAdministrator))
  }

  /** `Is`: the search over the bot-master user ids, then over the pairs of
      bot-master role and member role, then the permission check. */
  method Is<G>(m: Member, bag: Confgetter.Bag, guild: Result<G, Error>,
               permissions: (G, Member) -> Permissions) returns (r: Result<bool, Error>)
    ensures r == Decide(m, bag, guild, permissions)
  {
    var userIds := Confgetter.BotMasterUserIDs(bag);
    for i := 0 to |userIds|
      invariant m.userId !in userIds[..i]
    {
      if m.userId == userIds[i] {
        return Ok(true);
      }
    }
    assert userIds[..|userIds|] == userIds;

    var roleIds := Confgetter.BotMasterRoleIDs(bag);
    for i := 0 to |roleIds|
      invariant forall k :: 0 <= k < i ==> roleIds[k] !in m.roleIds
    {
      var targetId := roleIds[i];
      for j := 0 to |m.roleIds|
        invariant targetId !in m.roleIds[..j]
      {
        if targetId == m.roleIds[j] {
          assert roleIds[i] in roleIds && m.roleIds[j] in m.roleIds;
          return Ok(true);
        }
      }
      assert m.roleIds[..|m.roleIds|] == m.roleIds;
    }

    if guild.Err? {
      return Err(guild.error);
    }
    var perms := permissions(guild.value, m);
    return Ok(Has(perms, PermissionAdministrator));
  }

  /** A listed member is a bot master whatever the guild lookup and the
      permissions say; an unlisted one is a bot master exactly when they
      have Administrator, and a failed guild lookup is returned as the error
      only then. */
  lemma DecideCases<G>(m: Member, bag: Confgetter.Bag, guild: Result<G, Error>,
                       permissions: (G, Member) -> Permissions)
    ensures Listed(m, Confgetter.BotMasterUserIDs(bag), Confgetter.BotMasterRoleIDs(bag))
            ==> Decide(m, bag, guild, permissions) == Ok(true)
    ensures Decide(m, bag, guild, permissions).Err? <==>
            !Listed(m, Confgetter.BotMasterUserIDs(bag), Confgetter.BotMasterRoleIDs(bag)) && guild.Err?
    ensures Decide(m, bag, guild, permissions) == Ok(true) <==>
            Listed(m, Confgetter.BotMasterUserIDs(bag), Confgetter.BotMasterRoleIDs(bag))
            || (guild.Ok? && Has(permissions(guild.value, m), PermissionAdministrator))
  {
  }

  /** Whether a member is listed depends only on which ids the lists hold,
      not on their order or repetitions. */
  lemma ListedIgnoresOrder(m: Member, m2: Member, userIds: seq<UserId>, userIds2: seq<UserId>,
                           roleIds: seq<RoleId>, roleIds2: seq<RoleId>)
    requires m.userId == m2.userId
    requires multiset(userIds) == multiset(userIds2)
    requires multiset(roleIds) == multiset(roleIds2)
    requires multiset(m.roleIds) == multiset(m2.roleIds)
    ensures Listed(m, userIds, roleIds) <==> Listed(m2, userIds2, roleIds2)
  {
    assert forall u :: u in userIds <==> u in multiset(userIds);
    assert forall u :: u in userIds2 <==> u in multiset(userIds2);
    assert forall r :: r in roleIds <==> r in multiset(roleIds);
    assert forall r :: r in roleIds2 <==> r in multiset(roleIds2);
    assert forall r :: r in m.roleIds <==> r in multiset(m.roleIds);
    assert forall r :: r in m2.roleIds <==> r in multiset(m2.roleIds);
  }

  /** `Restriction`: the guild-channel check first, then `Is`. */
  method Restriction<G>(channelCheck: Option<Error>, m: Member, bag: Confgetter.Bag,
                        guild: Result<G, Error>, permissions: (G, Member) -> Permissions)
    returns (err: Option<Error>)
    ensures channelCheck.Some? ==> err == channelCheck
    ensures channelCheck.None? ==>
      err == match Decide(m, bag, guild, permissions)
             case Ok(true) => None
             case Ok(false) => Some(FatalRestriction(NotMasterTerm))
             case Err(e) => Some(e)
    ensures err.None? <==> channelCheck.None? && Decide(m, bag, guild, permissions) == Ok(true)
  {
    if channelCheck.Some? {
      return channelCheck;
    }
    var master := Is(m, bag, guild, permissions);
    if master.Err? {
      return Some(master.error);
    }
    if master.value {
      return None;
    }
    return Some(FatalRestriction(NotMasterTerm));
  }
}
