/** plugins/conf: the older settings provider, which reads the prefixes and
    the language through a narrower repository interface. The package holds
    two versions of `NewSettingsProvider`: one that returns from inside each
    branch (conf.go) and one that first picks the language source and then
    handles the result once (settings_provider.go). Both are modelled, and
    proved to agree. */
module ConfPlugin {
  import opened Wrappers
  import opened Discord
  import opened Settings

  /** The `Repository` interface of the plugin, as the answers it gives. */
  datatype Repository = Repository(
    prefixes: GuildId -> Result<seq<string>, Error>,
    guildLanguage: GuildId -> Result<LanguageTag, Error>,
    userLanguage: UserId -> Result<LanguageTag, Error>)

  /** The provider's result: the prefixes, the localizer (never nil) and the
      errors reported to Sentry, in order. */
  datatype Resolution = Resolution(prefixes: seq<string>, localizer: Localizer, reported: seq<Error>)

  /** The guild's prefixes; none in a DM or when the lookup fails. */
  function PrefixStep(m: Message, r: Repository): (seq<string>, seq<Error>) {
    if m.guildId > 0 then
      match r.prefixes(m.guildId)
      case Ok(p) => (p, [])
      case Err(e) => ([], [e])
    else ([], [])
  }

  /** The branch-per-case variant (conf.go). */
  function ResolveByBranch(m: Message, r: Repository): (res: Resolution)
    ensures m.guildId == 0 ==> res.prefixes == []
    ensures m.guildId != 0 && r.prefixes(m.guildId).Ok? ==> res.prefixes == r.prefixes(m.guildId).value
    ensures m.guildId != 0 && r.prefixes(m.guildId).Err? ==> res.prefixes == []
    ensures var lang := if m.guildId == 0 then r.userLanguage(m.authorId) else r.guildLanguage(m.guildId);
      && (lang.Ok? ==> res.localizer == Localizer(lang.value))
      && (lang.Err? ==> res.localizer == FallbackLocalizer)
      && res.reported == (if m.guildId != 0 && r.prefixes(m.guildId).Err? then [r.prefixes(m.guildId).error] else [])
                         + (if lang.Err? then [lang.error] else [])
  {
    var (prefixes, reported) := PrefixStep(m, r);
    if m.guildId == 0 then
      match r.userLanguage(m.authorId)
      case Err(e) => Resolution(prefixes, FallbackLocalizer, reported + [e])
      case Ok(lang) => Resolution(prefixes, Localizer(lang), reported)
    else
      match r.guildLanguage(m.guildId)
      case Err(e) => Resolution(prefixes, FallbackLocalizer, reported + [e])
      case Ok(lang) => Resolution(prefixes, Localizer(lang), reported)
  }

  /** The deduplicated variant (settings_provider.go). */
  function ResolveMerged(m: Message, r: Repository): Resolution {
    var (prefixes, reported) := PrefixStep(m, r);
    var lang := if m.guildId == 0 then r.userLanguage(m.authorId) else r.guildLanguage(m.guildId);
    if lang.Err? then Resolution(prefixes, FallbackLocalizer, reported + [lang.error])
    else Resolution(prefixes, Localizer(lang.value), reported)
  }

  /** The two variants return the same prefixes and localizer and report the
      same errors, for every message and every repository. */
  lemma VariantsAgree(m: Message, r: Repository)
    ensures ResolveMerged(m, r) == ResolveByBranch(m, r)
  {
  }

  /** A DM reads neither the guild prefixes nor the guild language. */
  lemma DirectMessageIgnoresGuild(m: Message, r: Repository, r2: Repository)
    requires m.guildId == 0 && r.userLanguage == r2.userLanguage
    ensures ResolveMerged(m, r) == ResolveMerged(m, r2)
  {
  }

  /** A guild message does not read the author's user language. */
  lemma GuildMessageIgnoresUser(m: Message, r: Repository, r2: Repository)
    requires m.guildId != 0 && r.prefixes == r2.prefixes && r.guildLanguage == r2.guildLanguage
    ensures ResolveMerged(m, r) == ResolveMerged(m, r2)
  {
  }
}
