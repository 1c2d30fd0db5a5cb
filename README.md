# levin settings layer, modelled in Dafny

levin is a Discord bot. Every message it sees is first given to a *settings
provider*, which looks up the guild's (or, in a direct message, the user's)
settings — command prefix, language, time zone and bot-master lists — and
stores them in the command context, where commands read them back. The
settings come from a *repository*: an in-memory one, or a MongoDB-backed one
that reads through an in-memory *cache* which clones records on the way in
and out. Around this sit small rules: who counts as a bot master, how the
`language` command validates its argument, how configuration values are
normalised, and how translation files are loaded.

This project models that core and proves properties of it. One module per
source package:

| module | file | models |
|---|---|---|
| `Discord` | discord.dfy | snowflake ids and their validity, permission bits, message and member |
| `Settings` | settings.dfy | the guild and user settings records, time zones, localizers, errors |
| `Defaults` | defaults.dfy | `repository.Defaults` and `FillZeros` |
| `MemoryRepository` | memory_repository.dfy | the in-memory repository |
| `Records` | records.dfy | settings records as heap objects, for the cache |
| `Clone` | clone.dfy | the clone functions |
| `Cache` | cache.dfy | the cache contract and the in-memory cache |
| `Mongo` | mongo.dfy | the read-through logic of the MongoDB repository |
| `Confgetter` | confgetter.dfy | the settings provider and the context getters |
| `ConfPlugin` | conf_plugin.dfy | the older settings provider, in its two variants |
| `BotMaster` | botmaster.dfy | the bot-master decision and restriction |
| `Config` | config.dfy | status, activity, environment bindings, parse fallbacks |
| `I18nLoad` | i18n_load.dfy | translation filtering and file-name rules |
| `LanguageCommand` | language_command.dfy | the `language` command |

The source is in the middle of a refactor and does not compile as a whole;
the model picks one consistent reading of it:

- `Defaults` has a single `prefix` string, which is what every user of it
  reads (pkg/repository/defaults.go declares a `Prefixes` list instead).
- Settings records have the shape of `confgetter.GuildSettings` and
  `confgetter.UserSettings`. Language tags are represented by their string
  form and never interpreted. A time zone is `NilZone` or a named location.
- The in-memory repository's maps start empty. Go's `New` leaves them nil, so
  the first write would panic; the methods use map fields that the struct
  does not declare.
- The MongoDB repository reads `cache.GuildSettings`. The model takes this to
  be the confgetter record that the cache contract uses.

State that the source changes in place is modelled as classes. The in-memory
repository keeps maps of settings values. The defaults object is updated by
`FillZeros`. The cache keeps maps of heap records whose bot-master id lists
are arrays, so cloning can be shown to share nothing. MongoDB collections are
maps of documents. The context bag, Viper's environment bindings and the
translation bundle are classes too. Each method is proved equal to a pure
function of the old state, and the properties are lemmas about those
functions. Calls into code outside the repository become parameters: the
database driver's outcomes, `language.Parse`, `time.LoadLocation`,
`strcase.ToSnake`, `permutil.MemberPermissions`, `ctx.Guild()`, the
channel-type restriction and the repository setters. Errors reported to
Sentry become an output.

## Model

| member | source | states |
|---|---|---|
| `Defaults.Filled` | pkg/repository/defaults.go:20-28 | the filled defaults always have a language and a time zone; an empty language becomes "en" and a nil zone UTC; a set language, a set zone and the prefix are kept |
| `Defaults.FilledKeepsNormalised` | pkg/repository/defaults.go:20-28 | defaults that already have a language and a zone are left unchanged |
| `Defaults.FilledIdempotent` | pkg/repository/defaults.go:20-28 | filling twice changes nothing beyond filling once |
| `Defaults.Defaults.FillZeros` | pkg/repository/defaults.go:20-28 | the object's new value is the filled form of its old value |
| `MemoryRepository.Repository.New` | pkg/repository/memory/memory.go:18-21 | the passed defaults are filled in place and shared; the repository has no guild and no user entries |
| `MemoryRepository.Repository.GuildSettings` | pkg/repository/memory/conf.go:13-33 | new maps and result follow `GuildRead`; every stored time zone stays non-nil |
| `MemoryRepository.Repository.SetPrefix` | pkg/repository/memory/conf.go:35-58 | new maps and error follow `PrefixSet`; time zones stay non-nil |
| `MemoryRepository.Repository.SetGuildLanguage` | pkg/repository/memory/conf.go:60-83 | new maps and error follow `GuildLanguageSet`; time zones stay non-nil |
| `MemoryRepository.Repository.UserSettings` | pkg/repository/memory/conf.go:85-104 | new maps and result follow `UserRead`; time zones stay non-nil |
| `MemoryRepository.Repository.SetUserLanguage` | pkg/repository/memory/conf.go:106-128 | new maps and error follow `UserLanguageSet`; time zones stay non-nil |
| `MemoryRepository.InvalidGuildIdRejected` | pkg/repository/memory/conf.go:14-16 | every guild operation rejects an invalid id with "repository: invalid guild id" and leaves both maps unchanged |
| `MemoryRepository.InvalidUserIdRejected` | pkg/repository/memory/conf.go:86-88 | every user operation rejects an invalid id with "repository: invalid user id" and leaves both maps unchanged |
| `MemoryRepository.ReadUnseenGuild` | pkg/repository/memory/conf.go:21-30 | reading an unseen guild stores and returns a record with the defaults' prefix, language and time zone; the user map is untouched |
| `MemoryRepository.ReadUnseenUser` | pkg/repository/memory/conf.go:92-101 | reading an unseen user stores and returns a record with the defaults' language and time zone |
| `MemoryRepository.ReadGuildStable` | pkg/repository/memory/conf.go:21-32 | a stored guild is returned as stored without change, so two consecutive reads agree |
| `MemoryRepository.ReadUserStable` | pkg/repository/memory/conf.go:92-103 | the same for users |
| `MemoryRepository.SetPrefixThenRead` | pkg/repository/memory/conf.go:43-55 | after setting prefix p, a read returns p with the previous language and zone, or the defaults' for a new guild |
| `MemoryRepository.SetGuildLanguageThenRead` | pkg/repository/memory/conf.go:68-80 | after setting language l, a read returns l with everything else as before, or from the defaults for a new guild |
| `MemoryRepository.SetUserLanguageThenRead` | pkg/repository/memory/conf.go:114-125 | after setting language l, a read returns l with the previous time zone, or the default zone for a new user |
| `MemoryRepository.GuildOperationsAreLocal` | pkg/repository/memory/conf.go:13-83 | guild operations leave every other guild's entry and the whole user map unchanged |
| `MemoryRepository.UserOperationsAreLocal` | pkg/repository/memory/conf.go:85-128 | user operations leave every other user's entry and the whole guild map unchanged |
| `MemoryRepository.OperationsKeepMaterialised` | pkg/repository/memory/memory.go:19-20 | with filled defaults, no operation stores or returns a record with a nil time zone |
| `MemoryRepository.PrefixScenario` | pkg/repository/memory/conf.go:13-58 | with defaults ("!", "en"), guild 42 reads as "!", and as "?" after its prefix is set to "?" |
| `Clone.CloneUser` | pkg/repository/clone/clone.go:10-18 | nil clones to nil; otherwise a new record with the same language and time zone |
| `Clone.CloneGuild` | pkg/repository/clone/clone.go:20-34 | nil clones to nil; otherwise a new record with equal fields and newly allocated bot-master id lists with the same elements |
| `Cache.Cache.constructor` | pkg/repository/cache/memory/memory.go:24-30 | a new cache holds no guild and no user settings |
| `Cache.Cache.GuildSettings` | pkg/repository/cache/cache.go:12-14 | nil exactly for a guild without cached settings; otherwise a newly allocated record, with new id lists, equal to the cached settings |
| `Cache.Cache.SetGuildSettings` | pkg/repository/cache/memory/memory.go:39-44 | the guild's entry becomes the passed settings (removed for nil); every other guild and all users are unchanged; only new objects are added to the cache |
| `Cache.Cache.UserSettings` | pkg/repository/cache/cache.go:18-20 | nil exactly for a user without cached settings; otherwise a newly allocated record equal to the cached one |
| `Cache.Cache.SetUserSettings` | pkg/repository/cache/memory/memory.go:53-58 | the user's entry becomes the passed settings (removed for nil); every other user and all guilds are unchanged |
| `Cache.ReadMutateRead` | pkg/repository/cache/memory/memory.go:32-37 | changing a record returned by a get does not change what the next get returns |
| `Cache.WriteMutateRead` | pkg/repository/cache/memory/memory.go:39-44 | changing a record after caching it does not change the cache: the get returns the value as it was set |
| `Mongo.ConversionsRoundTrip` | pkg/repository/mongo/conf.go:40-83 | for the conversions `GuildDocFromCache`, `GuildCacheType`, `UserDocFromCache` and `UserCacheType`: document to cache form and back keeps prefix, language and time zone; cache form to document and back drops only the bot-master lists |
| `Mongo.InvalidIdFailsFirst` | pkg/repository/mongo/conf.go:134-137 | an invalid id fails with its error whatever the cache, the documents and the driver hold |
| `Mongo.CacheHitSkipsDatabase` | pkg/repository/mongo/conf.go:139-141 | on a cache hit the result is built from the cached record; the documents are unchanged and the outcome does not depend on the driver |
| `Mongo.ReadOnlyInserts` | pkg/repository/mongo/conf.go:143-152 | a read never changes an existing document: it at most inserts one for an id that had none |
| `Mongo.CacheFilledOnlyByDecode` | pkg/repository/mongo/conf.go:143-160 | a failed insert returns its error with documents and cache unchanged; a failed decode returns its error without a cache write; a decoded document is returned and its cache form cached |
| `Mongo.GuildMissInsertsDefaults` | pkg/repository/mongo/conf.go:143-147 | a guild without a document gets `NewDefaultGuildDoc` under its id: a document with its id and the defaults' prefix, language and time zone |
| `Mongo.DecodeKeepsFindError` | pkg/repository/mongo/conf.go:142-157 | when decoding hands back the error the find reported: a failed find returns that error with documents and cache unchanged, and a find without a document inserts the new document and then returns the decode's error without caching |
| `Mongo.ReadKeepsConsistent` | pkg/repository/mongo/conf.go:138-160 | with a faithful decode (`FaithfulDecode`: a found document decodes to itself or fails, a missing or failed find never decodes to a document), a read keeps every cached entry equal to the cache form of its stored document |
| `Mongo.StoredReadsBack` | pkg/repository/mongo/conf.go:138-160 | with a consistent cache and a faithful decode, a stored id reads back through the cache as the cache form of its document, or from the database as the document itself or an error, with the documents unchanged |
| `Mongo.StoredGuildReadsBack` | pkg/repository/mongo/conf.go:134-161 | a guild with a stored document reads back as that document, except for the id, which a cache hit does not carry |
| `Mongo.StoredUserReadsBack` | pkg/repository/mongo/conf.go:163-190 | a user with a stored document reads back as that document, except for the id on a cache hit |
| `Mongo.UserMissInsertsDefaults` | pkg/repository/mongo/conf.go:172-176 | a user without a document gets `NewDefaultUserDoc` under its id: a document with its id and the defaults' language and time zone |
| `Mongo.Repository.New` | pkg/repository/mongo/mongo.go:32-52 | once connected, the defaults are filled in place and shared; the cache starts empty, so it matches the stored documents; the collections hold the database's documents |
| `Mongo.Repository.GetGuildSettings` | pkg/repository/mongo/conf.go:134-161 | result, documents and cache follow `GetGuild`; users are untouched; with a faithful decode, a cache that matched the stored documents (`CacheMatchesStore`: each cached entry is the cache form of its document) still matches them |
| `Mongo.Repository.ReadGuildMiss` | pkg/repository/mongo/conf.go:142-160 | the find, insert, decode and cache fill of a guild read on a cache miss follow `GetGuild`, and keep the cache matching the documents under a faithful decode |
| `Mongo.Repository.GetUserSettings` | pkg/repository/mongo/conf.go:163-190 | result, documents and cache follow `GetUser`; guilds are untouched; with a faithful decode the cache keeps matching the stored documents |
| `Mongo.Repository.ReadUserMiss` | pkg/repository/mongo/conf.go:171-189 | the find, insert, decode and cache fill of a user read on a cache miss follow `GetUser`, and keep the cache matching the documents under a faithful decode |
| `Mongo.Repository.Prefix` | pkg/repository/mongo/conf.go:89-96 | the read's prefix, or "" together with the read's error; the cache keeps matching the documents under a faithful decode |
| `Mongo.Repository.GuildLanguage` | pkg/repository/mongo/conf.go:98-105 | the read's language, or "" together with the read's error; the cache keeps matching the documents under a faithful decode |
| `Mongo.Repository.GuildTimeZone` | pkg/repository/mongo/conf.go:107-114 | the read's time zone, or nil together with the read's error; the cache keeps matching the documents under a faithful decode |
| `Mongo.Repository.UserLanguage` | pkg/repository/mongo/conf.go:116-123 | the user read's language, or "" together with its error; the cache keeps matching the documents under a faithful decode |
| `Mongo.Repository.UserTimeZone` | pkg/repository/mongo/conf.go:125-132 | the user read's time zone, or nil together with its error; the cache keeps matching the documents under a faithful decode |
| `Confgetter.Language` | pkg/confgetter/confgetter.go:20-28 | the stored tag when a tag is stored under the language key, otherwise `und` |
| `Confgetter.TimeZone` | pkg/confgetter/confgetter.go:32-40 | never nil: the stored location when it is a non-nil location, otherwise UTC |
| `Confgetter.BotMasterUserIDs` | pkg/confgetter/confgetter.go:48-56 | the stored list when it has the user-id list type, otherwise empty |
| `Confgetter.BotMasterRoleIDs` | pkg/confgetter/confgetter.go:60-68 | the stored list when it has the role-id list type, otherwise empty |
| `Confgetter.SettingsProvider` | pkg/confgetter/settings_provider.go:63-102 | returned values and new context follow `Provide` |
| `Confgetter.ProvideFailure` | pkg/confgetter/settings_provider.go:68-73 | a failed repository read gives no prefixes, no localizer, not ok, the error reported and the context untouched |
| `Confgetter.ProvideDirectMessage` | pkg/confgetter/settings_provider.go:68-79 | a DM reads only the author's settings and returns no prefixes; the getters then yield the user's language and zone; the bot-master entries are untouched |
| `Confgetter.ProvideGuildMessage` | pkg/confgetter/settings_provider.go:80-100 | a guild message returns [prefix], or none for an empty prefix; the getters then yield exactly the guild's language, zone and bot-master lists |
| `Confgetter.ProvideKeepsOtherKeys` | pkg/confgetter/settings_provider.go:78-97 | only the four settings keys are written |
| `ConfPlugin.ResolveByBranch` | plugins/conf/conf.go:30-63 | DMs get no prefixes; a prefix error gives none and is reported first; the localizer is for the user's (DM) or guild's language, or the fallback on error, which is reported last |
| `ConfPlugin.VariantsAgree` | plugins/conf/settings_provider.go:16-47 | `ResolveMerged`, the deduplicated provider, returns and reports exactly what the branch-per-case one does |
| `ConfPlugin.DirectMessageIgnoresGuild` | plugins/conf/settings_provider.go:20-37 | a DM's outcome depends only on the user language |
| `ConfPlugin.GuildMessageIgnoresUser` | plugins/conf/settings_provider.go:20-37 | a guild message's outcome depends only on the guild prefixes and language |
| `BotMaster.Is` | pkg/botmaster/botmaster.go:15-38 | the search loops return `Decide`: true for a listed member, else the guild error, else whether the permissions include Administrator |
| `BotMaster.DecideCases` | pkg/botmaster/botmaster.go:15-38 | a listed member is a master with no guild lookup; an error occurs exactly for an unlisted member with a failed guild lookup; true exactly when listed or an administrator |
| `BotMaster.ListedIgnoresOrder` | pkg/botmaster/botmaster.go:16-28 | whether a member is listed does not depend on the order of the id lists |
| `BotMaster.Restriction` | pkg/botmaster/botmaster.go:42-58 | a failed channel check is returned first; otherwise nil exactly when the member is a bot master, else the lookup error or the fatal not-master error |
| `Config.ValidateStatus` | internal/config/config.go:163-177 | the result is always a status a bot may set; settable statuses are kept, offline becomes invisible, anything else online |
| `Config.ValidateStatusIdempotent` | internal/config/config.go:163-177 | validating twice equals validating once |
| `Config.AtMostOneWordMatches` | internal/config/config.go:197-202 | no two activity words start the same string |
| `Config.ActivityOf` | internal/config/config.go:205-206 | finds the activity word that starts the string, or reports that none does |
| `Config.ActivityCases` | internal/config/config.go:206-211 | for the word that starts the string: its type and the text after word plus one character if longer, else (0, "") |
| `Config.ParseActivity` | internal/config/config.go:204-216 | for every visiting order of the map the result is `Activity`, so it does not depend on map order |
| `Config.ParseLanguage` | internal/config/config.go:179-186 | the tag `language.Parse` returns, or English when it also returns an error |
| `Config.ParseTimeZone` | internal/config/config.go:188-195 | the loaded location, or UTC on a load error |
| `Config.EnvName` | internal/config/config.go:132-134 | "LEVIN_" followed by one character per key character: '.' becomes '_', each lower-case ASCII letter its upper case, every other character is kept; so no dot and no lower-case ASCII letter remains |
| `Config.EnvNameMongoUri` | internal/config/config.go:48-50 | the key `mongo.uri` is bound to `LEVIN_MONGO_URI` |
| `Config.EnvNameMongoDatabaseName` | internal/config/config.go:48-51 | the key `mongo.database_name` is bound to `LEVIN_MONGO_DATABASE_NAME` |
| `Config.BindingsShape` | internal/config/config.go:109-142 | every registered pair binds a key below the base to that key's environment name |
| `Config.FieldBindingsShape` | internal/config/config.go:112-130 | a struct field's keys all start with its own key and a dot |
| `Config.BindEnvs` | internal/config/config.go:109-142 | the loop and recursion register exactly `Bindings`, in order: embedded and "-"-tagged fields skipped, untagged names snake-cased |
| `I18nLoad.IsEmptyMeansNoForms` | internal/i18nwrapper/load.go:51-54 | a definition is empty exactly when all six forms are empty |
| `I18nLoad.Decode` | internal/i18nwrapper/load.go:146-154 | a bare string fills only the `other` form; an object keeps its forms; unmarshal errors pass through |
| `I18nLoad.LoadedMessages` | internal/i18nwrapper/load.go:143-172 | when all entries decode and the language has a plural rule, loading succeeds and a message is added exactly for an entry with a term and a non-empty definition, with that term and those forms |
| `I18nLoad.LoadedInFileOrder` | internal/i18nwrapper/load.go:143-172 | with a plural rule, the added messages are, in file order, one per entry with a term and a non-empty definition before the first entry that fails to unmarshal, each with that entry's term and forms; loading stops with that entry's error, or none |
| `I18nLoad.LoadRefusedWithoutRule` | internal/i18nwrapper/load.go:143-172 | without a plural rule nothing is added; the error is the missing rule when a wanted entry comes before the first entry that fails to unmarshal, else that entry's error, else none |
| `I18nLoad.LoadedAreWanted` | internal/i18nwrapper/load.go:156-158 | every added message has a term and a form |
| `I18nLoad.LoadTranslation` | internal/i18nwrapper/load.go:136-175 | a decode failure is returned with nothing added; otherwise the loop adds `LoadMessages` in file order and returns its error |
| `I18nLoad.DefaultFileLanguageMatches` | internal/i18nwrapper/load.go:57 | the language `DefaultFileLanguage` extracts is one the embedded-file regexp's group can match |
| `I18nLoad.DefaultFileLanguageIsShortest` | internal/i18nwrapper/load.go:57 | whenever the regexp matches, `DefaultFileLanguage` extracts a language, and it is the shortest possible match (the group is lazy) |
| `I18nLoad.DefaultFileNames` | internal/i18nwrapper/load.go:57 | `L.json`, `L_adam.json` and `L_levin.json` all yield `L` |
| `I18nLoad.CustomFileLanguageIsMatch` | internal/i18nwrapper/load.go:58 | under `CustomFileLanguage`, a custom file yields exactly its name before `.json` |
| `I18nLoad.CustomEntryAction` | internal/i18nwrapper/load.go:108-121 | an entry is loaded exactly when it is a file whose name matches and whose language parses, under the parsed tag; never a panic |
| `I18nLoad.EmbeddedLoaderDoesNotSkip` | internal/i18nwrapper/load.go:67-82 | `EmbeddedEntryActionAsWritten`, the embedded loader as written, panics on `README.md` and loads a file whose language does not parse |
| `I18nLoad.EmbeddedEntryAction` | internal/i18nwrapper/load.go:67-82 | with the skips its warnings announce: loaded exactly when a file matches and its language parses; never a panic |
| `I18nLoad.EmbeddedFixAgreesOnGoodFiles` | internal/i18nwrapper/load.go:67-82 | the corrected loader differs from the written one only on entries the written one panics on or loads despite a parse error |
| `LanguageCommand.JoinTagsShowsEveryTag` | plugins/conf/language/language.go:70-78 | every bundle tag appears in the list, in backticks |
| `LanguageCommand.BuildList` | plugins/conf/language/language.go:67-78 | the builder loop produces `JoinTags`: the quoted tags in bundle order, separated by ", " |
| `LanguageCommand.HasTag` | plugins/conf/language/language.go:95-102 | true exactly when the tag is among the bundle's tags |
| `LanguageCommand.Invoke` | plugins/conf/language/language.go:63-126 | the response, error and setter call are those of `InvokeOutcome` |
| `LanguageCommand.InvokeCases` | plugins/conf/language/language.go:63-126 | a setter is called exactly for a non-empty argument that parses to a bundle tag: the user's language in a DM, the guild's otherwise; rejected arguments give an argument error; the setter's error is returned; an empty argument gives the list |

## Left out

- Mutexes and read/write locks: every operation is modelled as atomic. This includes the wrong mutex taken in `SetUserLanguage` (pkg/repository/memory/conf.go:111), which is a concurrency bug.
- MemoryRepository.Repository.GuildSettings: the Go method returns a pointer to the stored record, so a caller can change the repository through it. The model returns the record's value and does not capture this aliasing.
- MemoryRepository.Repository.UserSettings: the same for user records.
- The MongoDB driver (connect and its failure in `New`, ping, contexts, timeouts, `FindOne`, `InsertOne`) and BSON marshalling (pkg/repository/mongo/aux_types.go). Each read takes the driver's behaviour as a value: whether the find fails, whether the insert fails, and what decoding the find result yields.
- Mongo.Repository.GetGuildSettings: the model does not claim that the first read of a new guild succeeds. It decodes the original find result, which reported no document, and what that yields is driver behaviour. For a driver whose decode hands back the find's error, `Mongo.DecodeKeepsFindError` shows that such a read inserts the document and fails.
- Mongo.ReadThrough: decoding is a parameter of the driver and is not required to be faithful. The lemmas about a single read hold for every decode. Cache consistency and read-back (`Mongo.ReadKeepsConsistent`, `Mongo.StoredReadsBack`) are proved for a decode that satisfies `Mongo.FaithfulDecode`, and `Mongo.DecodeKeepsFindError` states the outcome when decode returns the find's error.
- Mongo.Repository.GetUserSettings: the same for users.
- `errors.WithStack` and `errors.NewWithStack` attach a stack trace. Errors are modelled without it.
- `language.Parse`, `time.LoadLocation`, `strcase.ToSnake`, `permutil.MemberPermissions`, `ctx.Guild()`, the channel-type restriction and `i18nwrapper.FuncForBundle` are parameters or opaque values. Localizers are tagged with their language only.
- Sentry reporting and logging: a reported error is an output of the provider; warnings are not modelled.
- Config.BindEnvs: Viper's `BindEnv` fails only when given no key, which `bindEnvs` never does, so the model's binding never fails and the error return is left out.
- Config.EnvName: `strings.ToUpper` is modelled for ASCII letters only. Lengths in `parseActivity` count characters, where Go counts bytes; the two agree for ASCII.
- Viper loading in `Load` and `unmarshal`, the `SampleRate` float and the `EditAge` duration (internal/config/config.go:45, 156).
- File-system iteration, the embedded file system, opening files and JSON decoding in the translation loaders. The model covers what is decided for one directory entry and the loop over one decoded file.
- I18nLoad.Bundle.AddMessage: go-i18n's `Bundle.AddMessages` is not part of this model. It is reduced to its refusal of a language without a plural rule, and messages are recorded in the order they are added.
- Command metadata, constant term tables, `assets` and the startup wiring in cmd/levin have no behaviour to model.

## Findings

| source | as written | input that shows it | evidently intended | confidence | as-written member | corrected member |
|---|---|---|---|---|---|---|
| internal/i18nwrapper/load.go:73-82 | after warning about a non-translation file and after warning about an unparseable language, the embedded loader carries on: it reads the language group of a failed match, and it loads the file under the tag `language.Parse` returned | an embedded file named `README.md` (index out of range on the nil match); a file `xx.json` whose language does not parse (loaded anyway) | skip the entry, as both warnings say and as the custom loader does (load.go:113-121) | not executed | `I18nLoad.EmbeddedLoaderDoesNotSkip` | `I18nLoad.EmbeddedEntryAction` |
