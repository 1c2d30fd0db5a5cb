/** pkg/confgetter: the settings provider that runs before every command
    (settings_provider.go) and the getters that read the settings it stored
    back out of the command context (confgetter.go). */
module Confgetter {
  import opened Wrappers
  import opened Discord
  import opened Settings

  // The keys under which the provider stores the settings, all below the
  // base key "settings".
  const LanguageTagKey: string := "settings.language_tag"
  const BotMasterUserIdsKey: string := "settings.bot_master_user_ids"
  const BotMasterRoleIdsKey: string := "settings.bot_master_role_ids"
  /** `arg.LocationKey`, which `NewSettingsProvider` sets to this name. */
  const LocationKey: string := "settings.time_zone"

  /** A value stored in the context, by its dynamic type. `OtherValue` is a
      value of any type the getters do not expect. */
  datatype Value =
    | TagValue(tag: LanguageTag)
    | LocationValue(zone: Zone)
    | UserIdsValue(userIds: seq<UserId>)
    | RoleIdsValue(roleIds: seq<RoleId>)
    | OtherValue

  /** The key/value store of a command context. */
  type Bag = map<string, Value>

  /** The language of the guild or user: the stored tag, or `und` when no
      tag is stored. */
  function Language(bag: Bag): (r: LanguageTag)
    ensures r == Und || (LanguageTagKey in bag && bag[LanguageTagKey] == TagValue(r))
    ensures LanguageTagKey in bag && bag[LanguageTagKey].TagValue? ==> r == bag[LanguageTagKey].tag
  {
    if LanguageTagKey in bag && bag[LanguageTagKey].TagValue? then bag[LanguageTagKey].tag else Und
  }

  /** The time zone of the guild or user: never nil; UTC unless a non-nil
      location is stored. */
  function TimeZone(bag: Bag): (r: Zone)
    ensures r != NilZone
    ensures r == UTC || (LocationKey in bag && bag[LocationKey] == LocationValue(r))
    ensures LocationKey in bag && bag[LocationKey].LocationValue? && bag[LocationKey].zone != NilZone
            ==> r == bag[LocationKey].zone
  {
    if LocationKey in bag && bag[LocationKey].LocationValue? && bag[LocationKey].zone != NilZone then
      bag[LocationKey].zone
    else
      UTC
  }

  /** The bot-master user ids of the guild: the stored list, or none. */
  function BotMasterUserIDs(bag: Bag): (r: seq<UserId>)
    ensures r == [] || (BotMasterUserIdsKey in bag && bag[BotMasterUserIdsKey] == UserIdsValue(r))
    ensures BotMasterUserIdsKey in bag && bag[BotMasterUserIdsKey].UserIdsValue? ==> r == bag[BotMasterUserIdsKey].userIds
  {
    if BotMasterUserIdsKey in bag && bag[BotMasterUserIdsKey].UserIdsValue? then bag[BotMasterUserIdsKey].userIds else []
  }

  /** The bot-master role ids of the guild: the stored list, or none. */
  function BotMasterRoleIDs(bag: Bag): (r: seq<RoleId>)
    ensures r == [] || (BotMasterRoleIdsKey in bag && bag[BotMasterRoleIdsKey] == RoleIdsValue(r))
    ensures BotMasterRoleIdsKey in bag && bag[BotMasterRoleIdsKey].RoleIdsValue? ==> r == bag[BotMasterRoleIdsKey].roleIds
  {
    if BotMasterRoleIdsKey in bag && bag[BotMasterRoleIdsKey].RoleIdsValue? then bag[BotMasterRoleIdsKey].roleIds else []
  }

  /** The result of the settings provider: the prefixes to accept besides
      mentions, the localizer (nil on failure), whether processing may go
      on, and the error reported to Sentry, if any. */
  datatype Provision = Provision(prefixes: seq<string>, localizer: Option<Localizer>, ok: bool, reported: Option<Error>)

  /** What the provider returns and the context afterwards, for message `m`
      with the repository answering `users` and `guilds`. */
  function Provide(bag: Bag, m: Message, users: UserId -> Result<UserRecord, Error>,
                   guilds: GuildId -> Result<GuildRecord, Error>): (Provision, Bag)
  {
    if m.guildId == 0 then
      match users(m.authorId)
      case Err(e) => (Provision([], None, false, Some(e)), bag)
      case Ok(s) =>
        (Provision([], Some(Localizer(s.language)), true, None),
         bag[LanguageTagKey := TagValue(s.language)][LocationKey := LocationValue(s.timeZone)])
    else
      match guilds(m.guildId)
      case Err(e) => (Provision([], None, false, Some(e)), bag)
      case Ok(s) =>
        (Provision(if |s.prefix| > 0 then [s.prefix] else [], Some(Localizer(s.language)), true, None),
         bag[LanguageTagKey := TagValue(s.language)][LocationKey := LocationValue(s.timeZone)]
            [BotMasterUserIdsKey := UserIdsValue(s.botMasterUserIds)]
            [BotMasterRoleIdsKey := RoleIdsValue(s.botMasterRoleIds)])
  }

  /** The base state of an event, which carries the context's values. */
  class Base {
    var values: Bag

    constructor (values: Bag)
      ensures this.values == values
    {
      this.values := values;
    }

    method Set(key: string, v: Value)
      modifies this
      ensures values == old(values)[key := v]
    {
      values := values[key := v];
    }
  }

  /** The provider returned by `NewSettingsProvider`, run on message `m`. */
  method SettingsProvider(b: Base, m: Message, users: UserId -> Result<UserRecord, Error>,
                          guilds: GuildId -> Result<GuildRecord, Error>)
    returns (prefixes: seq<string>, localizer: Option<Localizer>, ok: bool, reported: Option<Error>)
    modifies b
    ensures (Provision(prefixes, localizer, ok, reported), b.values) == Provide(old(b.values), m, users, guilds)
  {
    prefixes := [];
    if m.guildId == 0 {
      var settings := users(m.authorId);
      if settings.Err? {
        return [], None, false, Some(settings.error);
      }
      localizer := Some(Localizer(settings.value.language));
      b.Set(LanguageTagKey, TagValue(settings.value.language));
      b.Set(LocationKey, LocationValue(settings.value.timeZone));
    } else {
      var settings := guilds(m.guildId);
      if settings.Err? {
        return [], None, false, Some(settings.error);
      }
      localizer := Some(Localizer(settings.value.language));
      if |settings.value.prefix| > 0 {
        prefixes := [settings.value.prefix];
      }
      b.Set(LanguageTagKey, TagValue(settings.value.language));
      b.Set(LocationKey, LocationValue(settings.value.timeZone));
      b.Set(BotMasterUserIdsKey, UserIdsValue(settings.value.botMasterUserIds));
      b.Set(BotMasterRoleIdsKey, RoleIdsValue(settings.value.botMasterRoleIds));
    }
    ok := true;
    reported := None;
  }

  /** A failed repository read stops processing: no prefixes, no localizer,
      the error reported, the context untouched. */
  lemma ProvideFailure(bag: Bag, m: Message, users: UserId -> Result<UserRecord, Error>,
                       guilds: GuildId -> Result<GuildRecord, Error>)
    requires if m.guildId == 0 then users(m.authorId).Err? else guilds(m.guildId).Err?
    ensures var e := if m.guildId == 0 then users(m.authorId).error else guilds(m.guildId).error;
      Provide(bag, m, users, guilds) == (Provision([], None, false, Some(e)), bag)
  {
  }

  /** In a DM only the author's user settings are read: the outcome does not
      depend on what the repository would say about any guild, no prefixes
      are returned, and the getters then yield the user's language and time
      zone (UTC for a nil one). The bot-master entries are not touched. */
  lemma ProvideDirectMessage(bag: Bag, m: Message, users: UserId -> Result<UserRecord, Error>,
                             guilds: GuildId -> Result<GuildRecord, Error>,
                             guilds2: GuildId -> Result<GuildRecord, Error>)
    requires m.guildId == 0 && users(m.authorId).Ok?
    ensures Provide(bag, m, users, guilds) == Provide(bag, m, users, guilds2)
    ensures var s := users(m.authorId).value;
      var (p, bag') := Provide(bag, m, users, guilds);
      && p == Provision([], Some(Localizer(s.language)), true, None)
      && Language(bag') == s.language
      && TimeZone(bag') == (if s.timeZone == NilZone then UTC else s.timeZone)
      && BotMasterUserIDs(bag') == BotMasterUserIDs(bag)
      && BotMasterRoleIDs(bag') == BotMasterRoleIDs(bag)
  {
  }

  /** For a guild message the prefix list is the guild's prefix alone, or
      empty for a mentions-only guild, and the getters then yield exactly the
      guild's settings (UTC for a nil time zone). */
  lemma ProvideGuildMessage(bag: Bag, m: Message, users: UserId -> Result<UserRecord, Error>,
                            users2: UserId -> Result<UserRecord, Error>,
                            guilds: GuildId -> Result<GuildRecord, Error>)
    requires m.guildId != 0 && guilds(m.guildId).Ok?
    ensures Provide(bag, m, users, guilds) == Provide(bag, m, users2, guilds)
    ensures var s := guilds(m.guildId).value;
      var (p, bag') := Provide(bag, m, users, guilds);
      && p.ok && p.reported == None && p.localizer == Some(Localizer(s.language))
      && (p.prefixes == [] <==> s.prefix == "")
      && (p.prefixes != [] ==> p.prefixes == [s.prefix])
      && Language(bag') == s.language
      && TimeZone(bag') == (if s.timeZone == NilZone then UTC else s.timeZone)
      && BotMasterUserIDs(bag') == s.botMasterUserIds
      && BotMasterRoleIDs(bag') == s.botMasterRoleIds
  {
  }

  /** The provider writes only the settings keys: every other context entry
      keeps its value. */
  lemma ProvideKeepsOtherKeys(bag: Bag, m: Message, users: UserId -> Result<UserRecord, Error>,
                              guilds: GuildId -> Result<GuildRecord, Error>, key: string)
    requires key !in {LanguageTagKey, LocationKey, BotMasterUserIdsKey, BotMasterRoleIdsKey}
    ensures var bag' := Provide(bag, m, users, guilds).1;
      (key in bag' <==> key in bag) && (key in bag ==> bag'[key] == bag[key])
  {
  }
}
