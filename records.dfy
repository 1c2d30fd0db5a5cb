/** `*confgetter.GuildSettings` and `*confgetter.UserSettings` as heap
    objects: the cache and the clone functions work on pointers to these
    records, whose fields callers may change afterwards. Go slices of ids
    are arrays here; a nil slice is an empty array. */
module Records {
  import opened Discord
  import opened Settings

  class GuildSettings {
    var prefix: string
    var language: LanguageTag
    var timeZone: Zone
    var botMasterUserIds: array<UserId>
    var botMasterRoleIds: array<RoleId>

    /** The record's current contents. */
    function Value(): GuildRecord
      reads this, botMasterUserIds, botMasterRoleIds
    {
      GuildRecord(prefix, language, timeZone, botMasterUserIds[..], botMasterRoleIds[..])
    }

    /** A record with the given contents, in fresh id arrays. */
    constructor FromValue(v: GuildRecord)
      ensures Value() == v
      ensures fresh(botMasterUserIds) && fresh(botMasterRoleIds)
    {
      prefix := v.prefix;
      language := v.language;
      timeZone := v.timeZone;
      botMasterUserIds := new UserId[|v.botMasterUserIds|](i requires 0 <= i < |v.botMasterUserIds| => v.botMasterUserIds[i]);
      botMasterRoleIds := new RoleId[|v.botMasterRoleIds|](i requires 0 <= i < |v.botMasterRoleIds| => v.botMasterRoleIds[i]);
    }

    /** `cl := *s`: a record whose fields are those of `s`, sharing its id
        arrays. */
    constructor ShallowCopy(s: GuildSettings)
      ensures prefix == s.prefix && language == s.language && timeZone == s.timeZone
      ensures botMasterUserIds == s.botMasterUserIds && botMasterRoleIds == s.botMasterRoleIds
    {
      prefix := s.prefix;
      language := s.language;
      timeZone := s.timeZone;
      botMasterUserIds := s.botMasterUserIds;
      botMasterRoleIds := s.botMasterRoleIds;
    }
  }

  class UserSettings {
    var language: LanguageTag
    var timeZone: Zone

    function Value(): UserRecord
      reads this
    {
      UserRecord(language, timeZone)
    }

    constructor FromValue(v: UserRecord)
      ensures Value() == v
    {
      language := v.language;
      timeZone := v.timeZone;
    }
  }
}
