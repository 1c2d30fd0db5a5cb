/** pkg/repository/memory (conf.go, memory.go): the in-memory repository used
    when no database is configured. It keeps one settings record per guild
    and per user, creating a record from the defaults the first time an id is
    read or written. */
module MemoryRepository {
  import opened Wrappers
  import opened Discord
  import opened Settings
  import opened Defaults

  const InvalidGuildId: Error := Invalid("repository: invalid guild id")
  const InvalidUserId: Error := Invalid("repository: invalid user id")

  /** What the repository holds: the guild map and the user map. */
  datatype Store = Store(guilds: map<GuildId, GuildRecord>, users: map<UserId, UserRecord>)

  const Empty := Store(map[], map[])

  /** The record of a guild that is seen for the first time. */
  function NewGuild(d: DefaultsValue): GuildRecord {
    GuildRecord(d.prefix, d.language, d.timeZone, [], [])
  }

  /** The record of a user that is seen for the first time. */
  function NewUser(d: DefaultsValue): UserRecord {
    UserRecord(d.language, d.timeZone)
  }

  /** The record an operation on a valid guild id starts from. */
  function GuildEntry(s: Store, d: DefaultsValue, g: GuildId): GuildRecord {
    if g in s.guilds then s.guilds[g] else NewGuild(d)
  }

  /** The record an operation on a valid user id starts from. */
  function UserEntry(s: Store, d: DefaultsValue, u: UserId): UserRecord {
    if u in s.users then s.users[u] else NewUser(d)
  }

  // Each operation of the repository, as a function from the store before
  // the call to the store after it and the value returned.

  function GuildRead(s: Store, d: DefaultsValue, g: GuildId): (Store, Result<GuildRecord, Error>) {
    if !IsValid(g) then (s, Err(InvalidGuildId))
    else if g in s.guilds then (s, Ok(s.guilds[g]))
    else (s.(guilds := s.guilds[g := NewGuild(d)]), Ok(NewGuild(d)))
  }

  function PrefixSet(s: Store, d: DefaultsValue, g: GuildId, prefix: string): (Store, Option<Error>) {
    if !IsValid(g) then (s, Some(InvalidGuildId))
    else (s.(guilds := s.guilds[g := GuildEntry(s, d, g).(prefix := prefix)]), None)
  }

  function GuildLanguageSet(s: Store, d: DefaultsValue, g: GuildId, lang: LanguageTag): (Store, Option<Error>) {
    if !IsValid(g) then (s, Some(InvalidGuildId))
    else (s.(guilds := s.guilds[g := GuildEntry(s, d, g).(language := lang)]), None)
  }

  function UserRead(s: Store, d: DefaultsValue, u: UserId): (Store, Result<UserRecord, Error>) {
    if !IsValid(u) then (s, Err(InvalidUserId))
    else if u in s.users then (s, Ok(s.users[u]))
    else (s.(users := s.users[u := NewUser(d)]), Ok(NewUser(d)))
  }

  function UserLanguageSet(s: Store, d: DefaultsValue, u: UserId, lang: LanguageTag): (Store, Option<Error>) {
    if !IsValid(u) then (s, Some(InvalidUserId))
    else (s.(users := s.users[u := UserEntry(s, d, u).(language := lang)]), None)
  }

  /** Every stored record has a time zone: a record read from the repository
      is never seen with a nil time zone. */
  ghost predicate Materialised(s: Store) {
    (forall g :: g in s.guilds ==> s.guilds[g].timeZone != NilZone) &&
    (forall u :: u in s.users ==> s.users[u].timeZone != NilZone)
  }

  /** An invalid guild id is rejected by every guild operation, and the store
      is left as it was. */
  lemma InvalidGuildIdRejected(s: Store, d: DefaultsValue, g: GuildId, prefix: string, lang: LanguageTag)
    requires !IsValid(g)
    ensures GuildRead(s, d, g) == (s, Err(InvalidGuildId))
    ensures PrefixSet(s, d, g, prefix) == (s, Some(InvalidGuildId))
    ensures GuildLanguageSet(s, d, g, lang) == (s, Some(InvalidGuildId))
  {
  }

  /** An invalid user id is rejected by every user operation, and the store
      is left as it was. */
  lemma InvalidUserIdRejected(s: Store, d: DefaultsValue, u: UserId, lang: LanguageTag)
    requires !IsValid(u)
    ensures UserRead(s, d, u) == (s, Err(InvalidUserId))
    ensures UserLanguageSet(s, d, u, lang) == (s, Some(InvalidUserId))
  {
  }

  /** Reading an unseen guild stores and returns a record carrying the
      defaults' prefix, language and time zone. */
  lemma ReadUnseenGuild(s: Store, d: DefaultsValue, g: GuildId)
    requires IsValid(g) && g !in s.guilds
    ensures var (s', r) := GuildRead(s, d, g);
      && r.Ok?
      && r.value.prefix == d.prefix && r.value.language == d.language && r.value.timeZone == d.timeZone
      && s'.guilds == s.guilds[g := r.value] && s'.users == s.users
  {
  }

  /** Reading an unseen user stores and returns a record carrying the
      defaults' language and time zone. */
  lemma ReadUnseenUser(s: Store, d: DefaultsValue, u: UserId)
    requires IsValid(u) && u !in s.users
    ensures var (s', r) := UserRead(s, d, u);
      && r.Ok?
      && r.value.language == d.language && r.value.timeZone == d.timeZone
      && s'.users == s.users[u := r.value] && s'.guilds == s.guilds
  {
  }

  /** Reading a stored guild returns its record and changes nothing, so two
      consecutive reads agree and the second leaves the store alone. */
  lemma ReadGuildStable(s: Store, d: DefaultsValue, g: GuildId)
    requires IsValid(g)
    ensures g in s.guilds ==> GuildRead(s, d, g) == (s, Ok(s.guilds[g]))
    ensures var (s1, r1) := GuildRead(s, d, g);
      GuildRead(s1, d, g) == (s1, r1)
  {
  }

  /** The same for users. */
  lemma ReadUserStable(s: Store, d: DefaultsValue, u: UserId)
    requires IsValid(u)
    ensures u in s.users ==> UserRead(s, d, u) == (s, Ok(s.users[u]))
    ensures var (s1, r1) := UserRead(s, d, u);
      UserRead(s1, d, u) == (s1, r1)
  {
  }

  /** After `SetPrefix(g, p)` a read of g returns prefix p; the language and
      time zone are the previous ones, or the defaults' if g was new. */
  lemma SetPrefixThenRead(s: Store, d: DefaultsValue, g: GuildId, p: string)
    requires IsValid(g)
    ensures var (s1, err) := PrefixSet(s, d, g, p);
      var r := GuildRead(s1, d, g).1;
      && err == None && r.Ok?
      && r.value.prefix == p
      && (g in s.guilds ==> r.value == s.guilds[g].(prefix := p))
      && (g !in s.guilds ==> r.value.language == d.language && r.value.timeZone == d.timeZone)
  {
  }

  /** After `SetGuildLanguage(g, l)` a read of g returns language l and
      everything else as before (or from the defaults if g was new). */
  lemma SetGuildLanguageThenRead(s: Store, d: DefaultsValue, g: GuildId, l: LanguageTag)
    requires IsValid(g)
    ensures var (s1, err) := GuildLanguageSet(s, d, g, l);
      var r := GuildRead(s1, d, g).1;
      && err == None && r.Ok?
      && r.value.language == l
      && (g in s.guilds ==> r.value == s.guilds[g].(language := l))
      && (g !in s.guilds ==> r.value.prefix == d.prefix && r.value.timeZone == d.timeZone)
  {
  }

  /** After `SetUserLanguage(u, l)` a read of u returns language l and the
      previous time zone, or the default time zone if u was new. */
  lemma SetUserLanguageThenRead(s: Store, d: DefaultsValue, u: UserId, l: LanguageTag)
    requires IsValid(u)
    ensures var (s1, err) := UserLanguageSet(s, d, u, l);
      var r := UserRead(s1, d, u).1;
      && err == None && r.Ok?
      && r.value.language == l
      && r.value.timeZone == (if u in s.users then s.users[u].timeZone else d.timeZone)
  {
  }

  /** Guild operations touch only the entry of their own guild and never the
      user map. */
  lemma GuildOperationsAreLocal(s: Store, d: DefaultsValue, g: GuildId, other: GuildId, p: string, l: LanguageTag)
    requires other != g
    ensures var s1 := GuildRead(s, d, g).0;
      s1.users == s.users && (other in s1.guilds <==> other in s.guilds)
      && (other in s.guilds ==> s1.guilds[other] == s.guilds[other])
    ensures var s2 := PrefixSet(s, d, g, p).0;
      s2.users == s.users && (other in s2.guilds <==> other in s.guilds)
      && (other in s.guilds ==> s2.guilds[other] == s.guilds[other])
    ensures var s3 := GuildLanguageSet(s, d, g, l).0;
      s3.users == s.users && (other in s3.guilds <==> other in s.guilds)
      && (other in s.guilds ==> s3.guilds[other] == s.guilds[other])
  {
  }

  /** User operations touch only the entry of their own user and never the
      guild map. */
  lemma UserOperationsAreLocal(s: Store, d: DefaultsValue, u: UserId, other: UserId, l: LanguageTag)
    requires other != u
    ensures var s1 := UserRead(s, d, u).0;
      s1.guilds == s.guilds && (other in s1.users <==> other in s.users)
      && (other in s.users ==> s1.users[other] == s.users[other])
    ensures var s2 := UserLanguageSet(s, d, u, l).0;
      s2.guilds == s.guilds && (other in s2.users <==> other in s.users)
      && (other in s.users ==> s2.users[other] == s.users[other])
  {
  }

  /** With normalised defaults every operation keeps all stored time zones
      non-nil, so no record is ever read back with a nil time zone. */
  lemma OperationsKeepMaterialised(s: Store, d: DefaultsValue, g: GuildId, u: UserId, p: string, l: LanguageTag)
    requires Materialised(s) && Normalised(d)
    ensures Materialised(GuildRead(s, d, g).0)
    ensures Materialised(PrefixSet(s, d, g, p).0)
    ensures Materialised(GuildLanguageSet(s, d, g, l).0)
    ensures Materialised(UserRead(s, d, u).0)
    ensures Materialised(UserLanguageSet(s, d, u, l).0)
    ensures GuildRead(s, d, g).1.Ok? ==> GuildRead(s, d, g).1.value.timeZone != NilZone
    ensures UserRead(s, d, u).1.Ok? ==> UserRead(s, d, u).1.value.timeZone != NilZone
  {
  }

  /** A fresh repository with prefix "!" and language "en": guild 42 reads as
      ("!", "en"); after setting its prefix to "?" it reads as ("?", "en"). */
  lemma PrefixScenario(tz: Zone)
    ensures var d := DefaultsValue("!", "en", tz);
      var (s1, r1) := GuildRead(Empty, d, 42);
      var (s2, e2) := PrefixSet(s1, d, 42, "?");
      var (s3, r3) := GuildRead(s2, d, 42);
      && r1 == Ok(GuildRecord("!", "en", tz, [], []))
      && e2 == None
      && r3 == Ok(GuildRecord("?", "en", tz, [], []))
  {
  }

  /** `memory.Repository`: two maps of settings records and the defaults,
      shared by pointer with whoever created the repository. */
  class Repository {
    var guilds: map<GuildId, GuildRecord>
    var users: map<UserId, UserRecord>
    const defaults: Defaults

    function Contents(): Store
      reads this
    {
      Store(guilds, users)
    }

    ghost predicate Valid()
      reads this, defaults
    {
      Normalised(defaults.Value()) && Materialised(Contents())
    }

    /** `New`: normalises the passed defaults in place and starts with no
        guild and no user entries. */
    constructor New(d: Defaults)
      modifies d
      ensures defaults == d && d.Value() == Filled(old(d.Value()))
      ensures Contents() == Empty
      ensures Valid()
    {
      d.FillZeros();
      defaults := d;
      guilds := map[];
      users := map[];
    }

    method GuildSettings(g: GuildId) returns (r: Result<GuildRecord, Error>)
      requires Valid()
      modifies this
      ensures Valid()
      ensures (Contents(), r) == GuildRead(old(Contents()), defaults.Value(), g)
    {
      if !IsValid(g) {
        return Err(InvalidGuildId);
      }
      var settings: GuildRecord;
      if g in guilds {
        settings := guilds[g];
      } else {
        settings := GuildRecord(defaults.prefix, defaults.language, defaults.timeZone, [], []);
        guilds := guilds[g := settings];
      }
      r := Ok(settings);
    }

    method SetPrefix(g: GuildId, prefix: string) returns (err: Option<Error>)
      requires Valid()
      modifies this
      ensures Valid()
      ensures (Contents(), err) == PrefixSet(old(Contents()), defaults.Value(), g, prefix)
    {
      if !IsValid(g) {
        return Some(InvalidGuildId);
      }
      var settings: GuildRecord;
      if g in guilds {
        settings := guilds[g].(prefix := prefix);
      } else {
        settings := GuildRecord(prefix, defaults.language, defaults.timeZone, [], []);
      }
      guilds := guilds[g := settings];
      err := None;
    }

    method SetGuildLanguage(g: GuildId, lang: LanguageTag) returns (err: Option<Error>)
      requires Valid()
      modifies this
      ensures Valid()
      ensures (Contents(), err) == GuildLanguageSet(old(Contents()), defaults.Value(), g, lang)
    {
      if !IsValid(g) {
        return Some(InvalidGuildId);
      }
      var settings: GuildRecord;
      if g in guilds {
        settings := guilds[g].(language := lang);
      } else {
        settings := GuildRecord(defaults.prefix, lang, defaults.timeZone, [], []);
      }
      guilds := guilds[g := settings];
      err := None;
    }

    method UserSettings(u: UserId) returns (r: Result<UserRecord, Error>)
      requires Valid()
      modifies this
      ensures Valid()
      ensures (Contents(), r) == UserRead(old(Contents()), defaults.Value(), u)
    {
      if !IsValid(u) {
        return Err(InvalidUserId);
      }
      var settings: UserRecord;
      if u in users {
        settings := users[u];
      } else {
        settings := UserRecord(defaults.language, defaults.timeZone);
        users := users[u := settings];
      }
      r := Ok(settings);
    }

    method SetUserLanguage(u: UserId, lang: LanguageTag) returns (err: Option<Error>)
      requires Valid()
      modifies this
      ensures Valid()
      ensures (Contents(), err) == UserLanguageSet(old(Contents()), defaults.Value(), u, lang)
    {
      if !IsValid(u) {
        return Some(InvalidUserId);
      }
      var settings: UserRecord;
      if u in users {
        settings := users[u].(language := lang);
      } else {
        settings := UserRecord(lang, defaults.timeZone);
      }
      users := users[u := settings];
      err := None;
    }
  }
}
