/** pkg/repository/cache: the cache in front of the database, and its
    in-memory implementation (pkg/repository/cache/memory).

    The `cache.Cache` interface promises: a get returns nil for an id whose
    settings are not cached, and a set replaces the settings cached for an
    id. The in-memory cache below keeps those promises and in addition clones
    on read and on write, so that no caller ever holds a record the cache
    stores. */
module Cache {
  import opened Wrappers
  import opened Discord
  import opened Settings
  import Records
  import opened Clone

  class Cache {
    var guildSettings: map<GuildId, Records.GuildSettings?>
    var userSettings: map<UserId, Records.UserSettings?>

    /** The guild settings a get would return, by id. A nil entry, which a
        set with a nil record leaves behind, reads as not cached. */
    ghost var Guilds: map<GuildId, GuildRecord>
    /** The user settings a get would return, by id. */
    ghost var Users: map<UserId, UserRecord>
    /** The stored guild records and their id arrays. */
    ghost var GuildRepr: set<object>
    /** The stored user records. */
    ghost var UserRepr: set<object>

    /** Every object the cache uses. */
    ghost function Repr(): set<object>
      reads this
    {
      {this} + GuildRepr + UserRepr
    }

    ghost predicate GuildsValid()
      reads this`guildSettings, this`Guilds, this`GuildRepr, GuildRepr
    {
      forall g :: (g in Guilds <==> g in guildSettings && guildSettings[g] != null) &&
        (g in Guilds ==>
          && guildSettings[g] in GuildRepr
          && guildSettings[g].botMasterUserIds in GuildRepr
          && guildSettings[g].botMasterRoleIds in GuildRepr
          && guildSettings[g].Value() == Guilds[g])
    }

    ghost predicate UsersValid()
      reads this`userSettings, this`Users, this`UserRepr, UserRepr
    {
      forall u :: (u in Users <==> u in userSettings && userSettings[u] != null) &&
        (u in Users ==> userSettings[u] in UserRepr && userSettings[u].Value() == Users[u])
    }

    ghost predicate Valid()
      reads this, GuildRepr, UserRepr
    {
      this !in GuildRepr && this !in UserRepr && GuildsValid() && UsersValid()
    }

    /** `New`: an empty cache. */
    constructor ()
      ensures Valid() && fresh(Repr())
      ensures Guilds == map[] && Users == map[]
    {
      guildSettings := map[];
      userSettings := map[];
      Guilds, Users := map[], map[];
      GuildRepr, UserRepr := {}, {};
    }

    /** A copy of the cached settings of guild g, or nil if there are none. */
    method GuildSettings(g: GuildId) returns (r: Records.GuildSettings?)
      requires Valid()
      ensures r == null <==> g !in Guilds
      ensures r != null ==> fresh(r) && fresh(r.botMasterUserIds) && fresh(r.botMasterRoleIds)
      ensures r != null ==> r.Value() == Guilds[g]
    {
      var stored := if g in guildSettings then guildSettings[g] else null;
      r := CloneGuild(stored);
    }

    /** Caches a copy of s for guild g; every other entry stays as it was. */
    method SetGuildSettings(g: GuildId, s: Records.GuildSettings?)
      requires Valid()
      modifies this
      ensures Valid() && fresh(Repr() - old(Repr()))
      ensures s == null ==> Guilds == old(Guilds) - {g}
      ensures s != null ==> Guilds == old(Guilds)[g := s.Value()]
      ensures Users == old(Users)
    {
      var c := CloneGuild(s);
      guildSettings := guildSettings[g := c];
      if c != null {
        GuildRepr := GuildRepr + {c, c.botMasterUserIds, c.botMasterRoleIds};
        Guilds := Guilds[g := c.Value()];
      } else {
        Guilds := Guilds - {g};
      }
    }

    /** A copy of the cached settings of user u, or nil if there are none. */
    method UserSettings(u: UserId) returns (r: Records.UserSettings?)
      requires Valid()
      ensures r == null <==> u !in Users
      ensures r != null ==> fresh(r) && r.Value() == Users[u]
    {
      var stored := if u in userSettings then userSettings[u] else null;
      r := CloneUser(stored);
    }

    /** Caches a copy of s for user u; every other entry stays as it was. */
    method SetUserSettings(u: UserId, s: Records.UserSettings?)
      requires Valid()
      modifies this
      ensures Valid() && fresh(Repr() - old(Repr()))
      ensures s == null ==> Users == old(Users) - {u}
      ensures s != null ==> Users == old(Users)[u := s.Value()]
      ensures Guilds == old(Guilds)
    {
      var c := CloneUser(s);
      userSettings := userSettings[u := c];
      if c != null {
        UserRepr := UserRepr + {c};
        Users := Users[u := c.Value()];
      } else {
        Users := Users - {u};
      }
    }
  }

  /** Changing the record a get returned does not change what the next get
      returns: gets hand out copies. */
  method ReadMutateRead(c: Cache, g: GuildId, prefix: string, id: UserId)
    returns (before: Option<GuildRecord>, after: Option<GuildRecord>)
    requires c.Valid()
    ensures before == after
    ensures before == (if g in c.Guilds then Some(c.Guilds[g]) else None)
  {
    var first := c.GuildSettings(g);
    before := if first == null then None else Some(first.Value());
    if first != null {
      first.prefix := prefix;
      if first.botMasterUserIds.Length > 0 {
        first.botMasterUserIds[0] := id;
      }
    }
    var second := c.GuildSettings(g);
    after := if second == null then None else Some(second.Value());
  }

  /** Changing a record after caching it does not change the cache: sets
      store copies. */
  method WriteMutateRead(c: Cache, g: GuildId, s: Records.GuildSettings, prefix: string, id: UserId)
    returns (cached: Option<GuildRecord>)
    requires c.Valid()
    requires s !in c.Repr() && s.botMasterUserIds !in c.Repr()
    modifies c, s, s.botMasterUserIds
    ensures cached == Some(old(s.Value()))
  {
    c.SetGuildSettings(g, s);
    s.prefix := prefix;
    if s.botMasterUserIds.Length > 0 {
      s.botMasterUserIds[0] := id;
    }
    var r := c.GuildSettings(g);
    cached := if r == null then None else Some(r.Value());
  }
}
