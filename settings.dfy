/** The settings records of pkg/confgetter and the vocabulary shared by the
    repository implementations: time zones, language tags, localizers, errors. */
module Settings {
  import opened Wrappers
  import opened Discord

  /** A `*time.Location`, which may be nil. */
  datatype Zone = NilZone | Location(name: string)

  const UTC: Zone := Location("UTC")

  /** A BCP 47 language tag, represented by its string form ("en", "de-DE").
      The model never interprets a tag. */
  type LanguageTag = string

  /** `language.Parse`: the tag it returns, and its error, if any. When it
      fails it still returns a tag, which a caller may go on to use. */
  type Parser = string -> (LanguageTag, Option<Error>)

  /** `language.Und`, the zero tag. */
  const Und: LanguageTag := "und"

  /** `language.English`. */
  const English: LanguageTag := "en"

  /** `confgetter.GuildSettings` as a value. An empty prefix means the guild
      uses mentions only. */
  datatype GuildRecord = GuildRecord(
    prefix: string,
    language: LanguageTag,
    timeZone: Zone,
    botMasterUserIds: seq<UserId>,
    botMasterRoleIds: seq<RoleId>)

  /** `confgetter.UserSettings` as a value. */
  datatype UserRecord = UserRecord(language: LanguageTag, timeZone: Zone)

  /** An `i18n.Localizer`: either one built for a language from the
      translation bundle, or the fallback localizer. */
  datatype Localizer = Localizer(language: LanguageTag) | FallbackLocalizer

  /** The errors the model distinguishes. `External` stands for an error
      produced by code outside the model (the database driver, Discord state,
      a foreign parser); the code tells two such errors apart. */
  datatype Error =
    | Invalid(message: string)
    | External(code: nat)
    | ArgumentError(raw: string, languageInvoke: string)
    | FatalRestriction(term: string)
    | NoPluralRule(tag: LanguageTag)
}
