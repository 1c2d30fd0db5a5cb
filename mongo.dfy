/** pkg/repository/mongo (conf.go): the database-backed repository. A read
    goes through the cache, then the database; a guild or user without a
    document gets one built from the defaults. The database is two maps of
    documents; what the driver does (a failed find or insert, decoding a
    find result) is given by a `Driver` value for each call. */
module Mongo {
  import opened Wrappers
  import opened Discord
  import opened Settings
  import opened Defaults
  import Records
  import Cache

  /** A document of the guild_settings collection. */
  datatype GuildDoc = GuildDoc(guildId: GuildId, prefix: string, language: LanguageTag, timeZone: Zone)

  /** A document of the user_settings collection. */
  datatype UserDoc = UserDoc(userId: UserId, language: LanguageTag, timeZone: Zone)

  const InvalidGuildId: Error := Invalid("invalid guild id")
  const InvalidUserId: Error := Invalid("invalid user id")

  // Conversions between documents, defaults and cached records.

  function NewDefaultGuildDoc(d: DefaultsValue): GuildDoc {
    GuildDoc(0, d.prefix, d.language, d.timeZone)
  }

  function GuildDocFromCache(s: GuildRecord): GuildDoc {
    GuildDoc(0, s.prefix, s.language, s.timeZone)
  }

  function GuildCacheType(s: GuildDoc): GuildRecord {
    GuildRecord(s.prefix, s.language, s.timeZone, [], [])
  }

  function NewDefaultUserDoc(d: DefaultsValue): UserDoc {
    UserDoc(0, d.language, d.timeZone)
  }

  function UserDocFromCache(s: UserRecord): UserDoc {
    UserDoc(0, s.language, s.timeZone)
  }

  function UserCacheType(s: UserDoc): UserRecord {
    UserRecord(s.language, s.timeZone)
  }

  /** Converting a document to the cache type and back keeps prefix,
      language and time zone (the id is not carried by the cache type);
      converting a cached record to a document and back keeps them too and
      drops the bot-master ids, which documents do not carry. */
  lemma ConversionsRoundTrip(doc: GuildDoc, rec: GuildRecord, udoc: UserDoc, urec: UserRecord)
    ensures GuildDocFromCache(GuildCacheType(doc)) == doc.(guildId := 0)
    ensures GuildCacheType(GuildDocFromCache(rec)) == rec.(botMasterUserIds := [], botMasterRoleIds := [])
    ensures UserDocFromCache(UserCacheType(udoc)) == udoc.(userId := 0)
    ensures UserCacheType(UserDocFromCache(urec)) == urec
  {
  }

  /** What `FindOne` reports. */
  datatype FindResult<D> = Found(doc: D) | NoDocuments | FindFailed(error: Error)

  /** The driver's behaviour during one read: whether the find fails (the
      database is unreachable, a timeout), whether the insert fails, and what
      decoding a find result yields. */
  datatype Driver<!D> = Driver(
    findFailure: Option<Error>,
    insertFailure: Option<Error>,
    decode: FindResult<D> -> Result<D, Error>)

  function Find<K, D>(docs: map<K, D>, id: K, driver: Driver<D>): FindResult<D> {
    if driver.findFailure.Some? then FindFailed(driver.findFailure.value)
    else if id in docs then Found(docs[id])
    else NoDocuments
  }

  /** The outcome of a read: the value returned, the documents afterwards,
      and the record written to the cache, if any. */
  datatype Step<K, D, C> = Step(result: Result<D, Error>, docs: map<K, D>, cacheWrite: Option<C>)

  /** `getGuildSettings` and `getUserSettings`: the id check, the cache
      lookup, the find, the insert of `inserted` when there is no document,
      the decode, the cache fill. */
  function ReadThrough<K, D, C>(
    docs: map<K, D>, cached: map<K, C>, id: K, valid: bool, invalid: Error, inserted: D,
    fromCache: C -> D, toCache: D -> C, driver: Driver<D>): Step<K, D, C>
  {
    if !valid then Step(Err(invalid), docs, None)
    else if id in cached then Step(Ok(fromCache(cached[id])), docs, None)
    else
      var found := Find(docs, id, driver);
      if found.NoDocuments? && driver.insertFailure.Some? then
        Step(Err(driver.insertFailure.value), docs, None)
      else
        var docs' := if found.NoDocuments? then docs[id := inserted] else docs;
        match driver.decode(found)
        case Err(e) => Step(Err(e), docs', None)
        case Ok(doc) => Step(Ok(doc), docs', Some(toCache(doc)))
  }

  /** The cache after a read: the cache write, if the read made one. */
  function CacheAfter<K, D, C>(cached: map<K, C>, id: K, step: Step<K, D, C>): map<K, C> {
    if step.cacheWrite.Some? then cached[id := step.cacheWrite.value] else cached
  }

  function GetGuild(docs: map<GuildId, GuildDoc>, cached: map<GuildId, GuildRecord>, d: DefaultsValue,
                    id: GuildId, driver: Driver<GuildDoc>): Step<GuildId, GuildDoc, GuildRecord>
  {
    ReadThrough(docs, cached, id, IsValid(id), InvalidGuildId, NewDefaultGuildDoc(d).(guildId := id),
      GuildDocFromCache, GuildCacheType, driver)
  }

  function GetUser(docs: map<UserId, UserDoc>, cached: map<UserId, UserRecord>, d: DefaultsValue,
                   id: UserId, driver: Driver<UserDoc>): Step<UserId, UserDoc, UserRecord>
  {
    ReadThrough(docs, cached, id, IsValid(id), InvalidUserId, NewDefaultUserDoc(d).(userId := id),
      UserDocFromCache, UserCacheType, driver)
  }

  /** An invalid id fails before the cache or the database is consulted:
      the outcome does not depend on either. */
  lemma InvalidIdFailsFirst<K, D, C>(docs: map<K, D>, docs2: map<K, D>, cached: map<K, C>, cached2: map<K, C>,
    id: K, invalid: Error, inserted: D, fromCache: C -> D, toCache: D -> C, driver: Driver<D>, driver2: Driver<D>)
    ensures ReadThrough(docs, cached, id, false, invalid, inserted, fromCache, toCache, driver)
         == Step(Err(invalid), docs, None)
    ensures ReadThrough(docs2, cached2, id, false, invalid, inserted, fromCache, toCache, driver2).result
         == Err(invalid)
  {
  }

  /** On a cache hit the result is built from the cached record and the
      database is neither queried nor changed: the outcome does not depend
      on the documents or on the driver. */
  lemma CacheHitSkipsDatabase<K, D, C>(docs: map<K, D>, docs2: map<K, D>, cached: map<K, C>,
    id: K, invalid: Error, inserted: D, fromCache: C -> D, toCache: D -> C, driver: Driver<D>, driver2: Driver<D>)
    requires id in cached
    ensures ReadThrough(docs, cached, id, true, invalid, inserted, fromCache, toCache, driver)
         == Step(Ok(fromCache(cached[id])), docs, None)
    ensures ReadThrough(docs2, cached, id, true, invalid, inserted, fromCache, toCache, driver2).result
         == Ok(fromCache(cached[id]))
  {
  }

  /** A read never changes an existing document: the documents afterwards
      are the same, or gain exactly the inserted one for an id that had
      none. */
  lemma ReadOnlyInserts<K, D, C>(docs: map<K, D>, cached: map<K, C>, id: K, valid: bool, invalid: Error,
    inserted: D, fromCache: C -> D, toCache: D -> C, driver: Driver<D>)
    ensures var step := ReadThrough(docs, cached, id, valid, invalid, inserted, fromCache, toCache, driver);
      step.docs == docs || (id !in docs && step.docs == docs[id := inserted])
  {
  }

  /** The cache is written exactly when a document was decoded, with that
      document's cache form, and that document is returned. A failed insert
      or decode returns its error and leaves the cache alone. */
  lemma CacheFilledOnlyByDecode<K, D, C>(docs: map<K, D>, cached: map<K, C>, id: K, valid: bool, invalid: Error,
    inserted: D, fromCache: C -> D, toCache: D -> C, driver: Driver<D>)
    requires valid && id !in cached
    ensures var step := ReadThrough(docs, cached, id, valid, invalid, inserted, fromCache, toCache, driver);
      var found := Find(docs, id, driver);
      && (found.NoDocuments? && driver.insertFailure.Some? ==>
            step == Step(Err(driver.insertFailure.value), docs, None))
      && (!(found.NoDocuments? && driver.insertFailure.Some?) && driver.decode(found).Err? ==>
            step.result == Err(driver.decode(found).error) && step.cacheWrite == None)
      && (!(found.NoDocuments? && driver.insertFailure.Some?) && driver.decode(found).Ok? ==>
            step.result == Ok(driver.decode(found).value)
            && step.cacheWrite == Some(toCache(driver.decode(found).value)))
  {
  }

  /** With a driver whose decode hands back the error the find reported,
      as the driver's `SingleResult.Decode` does, a failed find returns its
      error and changes nothing, and a find without a document inserts the
      new document, then returns the decode's error without caching. */
  lemma DecodeKeepsFindError<K, D, C>(docs: map<K, D>, cached: map<K, C>, id: K, invalid: Error,
    inserted: D, fromCache: C -> D, toCache: D -> C, driver: Driver<D>, noDocuments: Error)
    requires id !in cached
    requires forall e :: driver.decode(FindFailed(e)) == Err(e)
    requires driver.decode(NoDocuments) == Err(noDocuments)
    ensures var step := ReadThrough(docs, cached, id, true, invalid, inserted, fromCache, toCache, driver);
      && (driver.findFailure.Some? ==> step == Step(Err(driver.findFailure.value), docs, None))
      && (driver.findFailure.None? && id !in docs && driver.insertFailure.None? ==>
            step == Step(Err(noDocuments), docs[id := inserted], None))
  {
  }

  /** The driver decodes as the database answered: a found document decodes
      to itself or fails, and a find that reported no document or an error
      never decodes to a document. */
  ghost predicate FaithfulDecode<D(!new)>(driver: Driver<D>) {
    && (forall doc :: driver.decode(Found(doc)).Ok? ==> driver.decode(Found(doc)).value == doc)
    && driver.decode(NoDocuments).Err?
    && (forall e :: driver.decode(FindFailed(e)).Err?)
  }

  /** Every cached entry is the cache form of the stored document. */
  ghost predicate Consistent<K, D, C>(docs: map<K, D>, cached: map<K, C>, toCache: D -> C) {
    forall k :: k in cached ==> k in docs && cached[k] == toCache(docs[k])
  }

  /** A read keeps the cache consistent with the documents. */
  lemma ReadKeepsConsistent<K, D(!new), C>(docs: map<K, D>, cached: map<K, C>, id: K, valid: bool, invalid: Error,
    inserted: D, fromCache: C -> D, toCache: D -> C, driver: Driver<D>)
    ensures var step := ReadThrough(docs, cached, id, valid, invalid, inserted, fromCache, toCache, driver);
      Consistent(docs, cached, toCache) && FaithfulDecode(driver) ==>
        Consistent(step.docs, CacheAfter(cached, id, step), toCache)
  {
    var step := ReadThrough(docs, cached, id, valid, invalid, inserted, fromCache, toCache, driver);
    if Consistent(docs, cached, toCache) && FaithfulDecode(driver) && step.cacheWrite.Some? {
      var found := Find(docs, id, driver);
      assert found.Found? && id in docs && found.doc == docs[id];
      assert step.docs == docs;
    }
  }

  /** A stored document reads back as stored: through the cache as the
      cache form of that document, else from the database as the document
      itself or an error, and the documents do not change. */
  lemma StoredReadsBack<K, D(!new), C>(docs: map<K, D>, cached: map<K, C>, id: K, invalid: Error,
    inserted: D, fromCache: C -> D, toCache: D -> C, driver: Driver<D>)
    requires id in docs && Consistent(docs, cached, toCache) && FaithfulDecode(driver)
    ensures var step := ReadThrough(docs, cached, id, true, invalid, inserted, fromCache, toCache, driver);
      && step.docs == docs
      && (id in cached ==> step.result == Ok(fromCache(toCache(docs[id]))))
      && (id !in cached ==> step.result == Ok(docs[id]) || step.result.Err?)
  {
    if id !in cached && driver.findFailure.None? {
      assert Find(docs, id, driver) == Found(docs[id]);
    }
  }

  /** A guild with a stored document reads back as that document; a read
      through the cache does not carry the id, as the cache type has none. */
  lemma StoredGuildReadsBack(docs: map<GuildId, GuildDoc>, cached: map<GuildId, GuildRecord>,
    d: DefaultsValue, id: GuildId, driver: Driver<GuildDoc>)
    requires IsValid(id) && id in docs
    requires Consistent(docs, cached, GuildCacheType) && FaithfulDecode(driver)
    ensures var step := GetGuild(docs, cached, d, id, driver);
      && step.docs == docs
      && (id in cached ==> step.result == Ok(docs[id].(guildId := 0)))
      && (step.result.Ok? ==> step.result.value.(guildId := 0) == docs[id].(guildId := 0))
  {
    StoredReadsBack(docs, cached, id, InvalidGuildId, NewDefaultGuildDoc(d).(guildId := id),
      GuildDocFromCache, GuildCacheType, driver);
  }

  /** A user with a stored document reads back as that document, without
      the id when read through the cache. */
  lemma StoredUserReadsBack(docs: map<UserId, UserDoc>, cached: map<UserId, UserRecord>,
    d: DefaultsValue, id: UserId, driver: Driver<UserDoc>)
    requires IsValid(id) && id in docs
    requires Consistent(docs, cached, UserCacheType) && FaithfulDecode(driver)
    ensures var step := GetUser(docs, cached, d, id, driver);
      && step.docs == docs
      && (id in cached ==> step.result == Ok(docs[id].(userId := 0)))
      && (step.result.Ok? ==> step.result.value.(userId := 0) == docs[id].(userId := 0))
  {
    StoredReadsBack(docs, cached, id, InvalidUserId, NewDefaultUserDoc(d).(userId := id),
      UserDocFromCache, UserCacheType, driver);
  }

  /** On a cache miss for a guild without a document, the inserted document
      carries the guild's id and the defaults' prefix, language and time
      zone, whatever decoding then does. */
  lemma GuildMissInsertsDefaults(docs: map<GuildId, GuildDoc>, cached: map<GuildId, GuildRecord>,
    d: DefaultsValue, id: GuildId, driver: Driver<GuildDoc>)
    requires IsValid(id) && id !in cached && id !in docs
    requires driver.findFailure == None && driver.insertFailure == None
    ensures var step := GetGuild(docs, cached, d, id, driver);
      step.docs == docs[id := GuildDoc(id, d.prefix, d.language, d.timeZone)]
  {
  }

  /** On a cache miss for a user without a document, the inserted document
      carries the user's id and the defaults' language and time zone. */
  lemma UserMissInsertsDefaults(docs: map<UserId, UserDoc>, cached: map<UserId, UserRecord>,
    d: DefaultsValue, id: UserId, driver: Driver<UserDoc>)
    requires IsValid(id) && id !in cached && id !in docs
    requires driver.findFailure == None && driver.insertFailure == None
    ensures var step := GetUser(docs, cached, d, id, driver);
      step.docs == docs[id := UserDoc(id, d.language, d.timeZone)]
  {
  }

  /** `mongo.Repository`: the two collections, the cache and the defaults. */
  class Repository {
    var guildDocs: map<GuildId, GuildDoc>
    var userDocs: map<UserId, UserDoc>
    const cache: Cache.Cache
    const defaults: Defaults

    ghost predicate Valid()
      reads cache, cache.GuildRepr, cache.UserRepr, defaults
    {
      cache.Valid() && Normalised(defaults.Value())
    }

    /** Every cached guild and user is the cache form of its document. */
    ghost predicate CacheMatchesStore()
      reads this, cache
    {
      Consistent(guildDocs, cache.Guilds, GuildCacheType) && Consistent(userDocs, cache.Users, UserCacheType)
    }

    /** `New`, once connected to a database holding the given documents:
        normalises the defaults in place and starts with an empty cache. */
    constructor New(d: Defaults, guildDocs: map<GuildId, GuildDoc>, userDocs: map<UserId, UserDoc>)
      modifies d
      ensures Valid() && fresh(cache) && fresh(cache.Repr())
      ensures defaults == d && d.Value() == Filled(old(d.Value()))
      ensures this.guildDocs == guildDocs && this.userDocs == userDocs
      ensures cache.Guilds == map[] && cache.Users == map[]
      ensures CacheMatchesStore()
    {
      d.FillZeros();
      defaults := d;
      this.guildDocs := guildDocs;
      this.userDocs := userDocs;
      cache := new Cache.Cache();
    }

    /** The effect of reading guild `id`: result, documents and cache as
        `GetGuild` says; users untouched. */
    twostate predicate GuildReadEffect(id: GuildId, driver: Driver<GuildDoc>, new r: Result<GuildDoc, Error>)
      reads this, cache, defaults
    {
      var step := GetGuild(old(guildDocs), old(cache.Guilds), defaults.Value(), id, driver);
      && r == step.result
      && guildDocs == step.docs
      && cache.Guilds == CacheAfter(old(cache.Guilds), id, step)
      && userDocs == old(userDocs) && cache.Users == old(cache.Users)
    }

    /** The effect of reading user `id`: result, documents and cache as
        `GetUser` says; guilds untouched. */
    twostate predicate UserReadEffect(id: UserId, driver: Driver<UserDoc>, new r: Result<UserDoc, Error>)
      reads this, cache, defaults
    {
      var step := GetUser(old(userDocs), old(cache.Users), defaults.Value(), id, driver);
      && r == step.result
      && userDocs == step.docs
      && cache.Users == CacheAfter(old(cache.Users), id, step)
      && guildDocs == old(guildDocs) && cache.Guilds == old(cache.Guilds)
    }

    method GetGuildSettings(id: GuildId, driver: Driver<GuildDoc>) returns (r: Result<GuildDoc, Error>)
      requires Valid()
      modifies this, cache
      ensures Valid() && fresh(cache.Repr() - old(cache.Repr()))
      ensures GuildReadEffect(id, driver, r)
      ensures old(CacheMatchesStore()) && FaithfulDecode(driver) ==> CacheMatchesStore()
    {
      if !IsValid(id) {
        return Err(InvalidGuildId);
      }
      var cached := CachedGuild(id);
      if cached.Some? {
        return Ok(cached.value);
      }
      r := ReadGuildMiss(id, driver);
    }

    /** The rest of a read once the cache has no entry for `id`: the find,
        the insert of a new document, the decode and the cache fill. */
    method ReadGuildMiss(id: GuildId, driver: Driver<GuildDoc>) returns (r: Result<GuildDoc, Error>)
      requires Valid() && IsValid(id) && id !in cache.Guilds
      modifies this, cache
      ensures Valid() && fresh(cache.Repr() - old(cache.Repr()))
      ensures GuildReadEffect(id, driver, r)
      ensures old(CacheMatchesStore()) && FaithfulDecode(driver) ==> CacheMatchesStore()
    {
      ghost var step := GetGuild(guildDocs, cache.Guilds, defaults.Value(), id, driver);
      ReadKeepsConsistent(guildDocs, cache.Guilds, id, true, InvalidGuildId,
        NewDefaultGuildDoc(defaults.Value()).(guildId := id), GuildDocFromCache, GuildCacheType, driver);
      var res := Find(guildDocs, id, driver);
      if res.NoDocuments? {
        var s := NewDefaultGuildDoc(defaults.Value()).(guildId := id);
        if driver.insertFailure.Some? {
          return Err(driver.insertFailure.value);
        }
        guildDocs := guildDocs[id := s];
      }
      var decoded := driver.decode(res);
      if decoded.Err? {
        return Err(decoded.error);
      }
      assert step.cacheWrite == Some(GuildCacheType(decoded.value));
      CacheGuild(id, decoded.value);
      r := Ok(decoded.value);
    }

    /** The document form of the cached settings of `id`, if any. */
    method CachedGuild(id: GuildId) returns (r: Option<GuildDoc>)
      requires Valid()
      ensures r == if id in cache.Guilds then Some(GuildDocFromCache(cache.Guilds[id])) else None
    {
      var cached := cache.GuildSettings(id);
      r := if cached == null then None else Some(GuildDocFromCache(cached.Value()));
    }

    /** Caches the cache form of a decoded document. */
    method CacheGuild(id: GuildId, doc: GuildDoc)
      requires Valid()
      modifies cache
      ensures Valid() && fresh(cache.Repr() - old(cache.Repr()))
      ensures cache.Guilds == old(cache.Guilds)[id := GuildCacheType(doc)]
      ensures cache.Users == old(cache.Users)
    {
      var c := new Records.GuildSettings.FromValue(GuildCacheType(doc));
      cache.SetGuildSettings(id, c);
    }

    method GetUserSettings(id: UserId, driver: Driver<UserDoc>) returns (r: Result<UserDoc, Error>)
      requires Valid()
      modifies this, cache
      ensures Valid() && fresh(cache.Repr() - old(cache.Repr()))
      ensures UserReadEffect(id, driver, r)
      ensures old(CacheMatchesStore()) && FaithfulDecode(driver) ==> CacheMatchesStore()
    {
      if !IsValid(id) {
        return Err(InvalidUserId);
      }
      var cached := CachedUser(id);
      if cached.Some? {
        return Ok(cached.value);
      }
      r := ReadUserMiss(id, driver);
    }

    /** The rest of a read once the cache has no entry for `id`: the find,
        the insert of a new document, the decode and the cache fill. */
    method ReadUserMiss(id: UserId, driver: Driver<UserDoc>) returns (r: Result<UserDoc, Error>)
      requires Valid() && IsValid(id) && id !in cache.Users
      modifies this, cache
      ensures Valid() && fresh(cache.Repr() - old(cache.Repr()))
      ensures UserReadEffect(id, driver, r)
      ensures old(CacheMatchesStore()) && FaithfulDecode(driver) ==> CacheMatchesStore()
    {
      ghost var step := GetUser(userDocs, cache.Users, defaults.Value(), id, driver);
      ReadKeepsConsistent(userDocs, cache.Users, id, true, InvalidUserId,
        NewDefaultUserDoc(defaults.Value()).(userId := id), UserDocFromCache, UserCacheType, driver);
      var res := Find(userDocs, id, driver);
      if res.NoDocuments? {
        var s := NewDefaultUserDoc(defaults.Value()).(userId := id);
        if driver.insertFailure.Some? {
          return Err(driver.insertFailure.value);
        }
        userDocs := userDocs[id := s];
      }
      var decoded := driver.decode(res);
      if decoded.Err? {
        return Err(decoded.error);
      }
      assert step.cacheWrite == Some(UserCacheType(decoded.value));
      CacheUser(id, decoded.value);
      r := Ok(decoded.value);
    }

    /** The document form of the cached settings of `id`, if any. */
    method CachedUser(id: UserId) returns (r: Option<UserDoc>)
      requires Valid()
      ensures r == if id in cache.Users then Some(UserDocFromCache(cache.Users[id])) else None
    {
      var cached := cache.UserSettings(id);
      r := if cached == null then None else Some(UserDocFromCache(cached.Value()));
    }

    /** Caches the cache form of a decoded document. */
    method CacheUser(id: UserId, doc: UserDoc)
      requires Valid()
      modifies cache
      ensures Valid() && fresh(cache.Repr() - old(cache.Repr()))
      ensures cache.Users == old(cache.Users)[id := UserCacheType(doc)]
      ensures cache.Guilds == old(cache.Guilds)
    {
      var c := new Records.UserSettings.FromValue(UserCacheType(doc));
      cache.SetUserSettings(id, c);
    }

    /** The guild's prefix, or "" and the read's error. */
    method Prefix(id: GuildId, driver: Driver<GuildDoc>) returns (prefix: string, err: Option<Error>)
      requires Valid()
      modifies this, cache
      ensures Valid() && fresh(cache.Repr() - old(cache.Repr()))
      ensures old(CacheMatchesStore()) && FaithfulDecode(driver) ==> CacheMatchesStore()
      ensures exists r :: (GuildReadEffect(id, driver, r)
          && prefix == (if r.Ok? then r.value.prefix else "")
          && err == (if r.Ok? then None else Some(r.error)))
    {
      var s := GetGuildSettings(id, driver);
      if s.Err? {
        return "", Some(s.error);
      }
      return s.value.prefix, None;
    }

    /** The guild's language, or "" and the read's error. */
    method GuildLanguage(id: GuildId, driver: Driver<GuildDoc>) returns (lang: LanguageTag, err: Option<Error>)
      requires Valid()
      modifies this, cache
      ensures Valid() && fresh(cache.Repr() - old(cache.Repr()))
      ensures old(CacheMatchesStore()) && FaithfulDecode(driver) ==> CacheMatchesStore()
      ensures exists r :: (GuildReadEffect(id, driver, r)
          && lang == (if r.Ok? then r.value.language else "")
          && err == (if r.Ok? then None else Some(r.error)))
    {
      var s := GetGuildSettings(id, driver);
      if s.Err? {
        return "", Some(s.error);
      }
      return s.value.language, None;
    }

    /** The guild's time zone, or nil and the read's error. */
    method GuildTimeZone(id: GuildId, driver: Driver<GuildDoc>) returns (tz: Zone, err: Option<Error>)
      requires Valid()
      modifies this, cache
      ensures Valid() && fresh(cache.Repr() - old(cache.Repr()))
      ensures old(CacheMatchesStore()) && FaithfulDecode(driver) ==> CacheMatchesStore()
      ensures exists r :: (GuildReadEffect(id, driver, r)
          && tz == (if r.Ok? then r.value.timeZone else NilZone)
          && err == (if r.Ok? then None else Some(r.error)))
    {
      var s := GetGuildSettings(id, driver);
      if s.Err? {
        return NilZone, Some(s.error);
      }
      return s.value.timeZone, None;
    }

    /** The user's language, or "" and the read's error. */
    method UserLanguage(id: UserId, driver: Driver<UserDoc>) returns (lang: LanguageTag, err: Option<Error>)
      requires Valid()
      modifies this, cache
      ensures Valid() && fresh(cache.Repr() - old(cache.Repr()))
      ensures old(CacheMatchesStore()) && FaithfulDecode(driver) ==> CacheMatchesStore()
      ensures exists r :: (UserReadEffect(id, driver, r)
          && lang == (if r.Ok? then r.value.language else "")
          && err == (if r.Ok? then None else Some(r.error)))
    {
      var s := GetUserSettings(id, driver);
      if s.Err? {
        return "", Some(s.error);
      }
      return s.value.language, None;
    }

    /** The user's time zone, or nil and the read's error. */
    method UserTimeZone(id: UserId, driver: Driver<UserDoc>) returns (tz: Zone, err: Option<Error>)
      requires Valid()
      modifies this, cache
      ensures Valid() && fresh(cache.Repr() - old(cache.Repr()))
      ensures old(CacheMatchesStore()) && FaithfulDecode(driver) ==> CacheMatchesStore()
      ensures exists r :: (UserReadEffect(id, driver, r)
          && tz == (if r.Ok? then r.value.timeZone else NilZone)
          && err == (if r.Ok? then None else Some(r.error)))
    {
      var s := GetUserSettings(id, driver);
      if s.Err? {
        return NilZone, Some(s.error);
      }
      return s.value.timeZone, None;
    }
  }
}
