/** internal/config: the rules that turn raw configuration values into the
    bot's settings: the presence status, the activity, the environment
    variable bound to each configuration key, and the fallbacks for the
    default language and time zone. Reading files and unmarshalling with
    Viper are not part of this model. */
module Config {
  import opened Wrappers
  import opened Settings

  // ---------------------------------------------------------------------
  // Presence status

  /** The `gateway.Status` values. */
  const UnknownStatus: string := ""
  const OnlineStatus: string := "online"
  const DoNotDisturbStatus: string := "dnd"
  const IdleStatus: string := "idle"
  const InvisibleStatus: string := "invisible"
  const OfflineStatus: string := "offline"

  /** The statuses a bot may set. */
  predicate Settable(status: string) {
    status == UnknownStatus || status == OnlineStatus || status == DoNotDisturbStatus
    || status == IdleStatus || status == InvisibleStatus
  }

  /** `validateStatus`: a bot cannot be offline, so offline becomes
      invisible; an unknown string becomes online. */
  function ValidateStatus(status: string): (r: string)
    ensures Settable(r)
    ensures Settable(status) ==> r == status
    ensures status == OfflineStatus ==> r == InvisibleStatus
    ensures !Settable(status) && status != OfflineStatus ==> r == OnlineStatus
  {
    if status == UnknownStatus || status == OnlineStatus || status == DoNotDisturbStatus || status == IdleStatus then
      status
    else if status == OfflineStatus then
      InvisibleStatus
    else if status == InvisibleStatus then
      status
    else
      OnlineStatus
  }

  /** Validating a validated status changes nothing. */
  lemma ValidateStatusIdempotent(status: string)
    ensures ValidateStatus(ValidateStatus(status)) == ValidateStatus(status)
  {
  }

  // ---------------------------------------------------------------------
  // Activity

  /** A `discord.ActivityType`, an unsigned 8-bit number. */
  type ActivityType = x: int | 0 <= x < 256

  /** `activityTypes`: the word that introduces each activity type. */
  const ActivityTypes: map<ActivityType, string> :=
    map[0 := "Playing", 1 := "Streaming", 2 := "Listening to", 3 := "Watching"]

  /** `strings.HasPrefix`. */
  predicate HasPrefix(s: string, prefix: string) {
    |prefix| <= |s| && s[..|prefix|] == prefix
  }

  /** No activity word is a prefix of another: their first letters differ.
      So at most one of them starts any string. */
  lemma AtMostOneWordMatches(activity: string, t: ActivityType, u: ActivityType)
    requires t in ActivityTypes && u in ActivityTypes
    requires HasPrefix(activity, ActivityTypes[t]) && HasPrefix(activity, ActivityTypes[u])
    ensures t == u
  {
    assert activity[0] == ActivityTypes[t][0] == ActivityTypes[u][0];
  }

  /** The activity type whose word starts the string, if any. */
  function ActivityOf(activity: string): (r: Option<ActivityType>)
    ensures r.Some? ==> r.value in ActivityTypes && HasPrefix(activity, ActivityTypes[r.value])
    ensures r.None? ==> forall t :: t in ActivityTypes ==> !HasPrefix(activity, ActivityTypes[t])
  {
    if HasPrefix(activity, "Playing") then Some(0)
    else if HasPrefix(activity, "Streaming") then Some(1)
    else if HasPrefix(activity, "Listening to") then Some(2)
    else if HasPrefix(activity, "Watching") then Some(3)
    else None
  }

  /** What `parseActivity` returns: the type whose word starts the string
      and the text after the word and one more character; (0, "") when no
      word starts the string or nothing follows that character. */
  function Activity(activity: string): (ActivityType, string) {
    match ActivityOf(activity)
    case None => (0, "")
    case Some(t) =>
      var word := ActivityTypes[t];
      if |activity| > |word| + 1 then (t, activity[|word| + 1..]) else (0, "")
  }

  /** The cases of `Activity`, stated per activity word. */
  lemma ActivityCases(activity: string, t: ActivityType)
    requires t in ActivityTypes && HasPrefix(activity, ActivityTypes[t])
    ensures var word := ActivityTypes[t];
      Activity(activity) == if |activity| > |word| + 1 then (t, activity[|word| + 1..]) else (0, "")
  {
    AtMostOneWordMatches(activity, t, ActivityOf(activity).value);
  }

  /** `parseActivity`. Go visits the entries of `activityTypes` in an
      unspecified order, given here as `order`, which lists each key of the
      map. The result is the same for every order. */
  method ParseActivity(activity: string, order: seq<ActivityType>) returns (t: ActivityType, name: string)
    requires forall k :: 0 <= k < |order| ==> order[k] in ActivityTypes
    requires forall u :: u in ActivityTypes ==> u in order
    ensures (t, name) == Activity(activity)
  {
    for k := 0 to |order|
      invariant forall j :: 0 <= j < k ==> !HasPrefix(activity, ActivityTypes[order[j]])
    {
      var tstr := ActivityTypes[order[k]];
      if HasPrefix(activity, tstr) {
        ActivityCases(activity, order[k]);
        if |activity| > |tstr| + 1 {
          return order[k], activity[|tstr| + 1..];
        }
        return 0, "";
      }
    }
    assert forall u :: u in ActivityTypes ==> !HasPrefix(activity, ActivityTypes[u]);
    return 0, "";
  }

  // ---------------------------------------------------------------------
  // Default language and time zone

  /** `parseLanguage`: the parsed tag, or English when `language.Parse`
      (the parameter `parse`) rejects the string. */
  function ParseLanguage(lang: string, parse: Parser): (r: LanguageTag)
    ensures parse(lang).1.None? ==> r == parse(lang).0
    ensures parse(lang).1.Some? ==> r == English
  {
    var (tag, err) := parse(lang);
    if err.Some? then English else tag
  }

  /** `parseTimeZone`: the loaded location, or UTC when `time.LoadLocation`
      (the parameter `load`) fails. */
  function ParseTimeZone(tz: string, load: string -> Result<Zone, Error>): (r: Zone)
    ensures load(tz).Ok? ==> r == load(tz).value
    ensures load(tz).Err? ==> r == UTC
  {
    match load(tz)
    case Ok(z) => z
    case Err(_) => UTC
  }

  // ---------------------------------------------------------------------
  // Environment bindings

  /** A field of the configuration struct type, as reflection shows it: its
      name, its `mapstructure` tag ("" when absent), whether it is embedded,
      and whether it is itself a struct. */
  datatype Field = Field(name: string, tag: string, anonymous: bool, kind: Kind)
  datatype Kind = Scalar | Struct(fields: seq<Field>)

  /** One character of an environment variable name: ASCII upper case, with
      '.' replaced by '_'. */
  function EnvChar(c: char): char {
    if c == '.' then '_' else if 'a' <= c <= 'z' then (c as int - 32) as char else c
  }

  /** The environment variable bound to a configuration key. */
  function EnvName(key: string): (r: string)
    ensures |r| == 6 + |key| && r[..6] == "LEVIN_"
    ensures forall i :: 6 <= i < |r| ==> r[i] != '.' && !('a' <= r[i] <= 'z')
    ensures forall i :: 0 <= i < |key| ==>
      && (key[i] == '.' ==> r[6 + i] == '_')
      && ('a' <= key[i] <= 'z' ==> r[6 + i] as int == key[i] as int - 32)
      && (key[i] != '.' && !('a' <= key[i] <= 'z') ==> r[6 + i] == key[i])
  {
    "LEVIN_" + seq(|key|, i requires 0 <= i < |key| => EnvChar(key[i]))
  }

  /** The variable of the database address key. */
  lemma EnvNameMongoUri()
    ensures EnvName("mongo.uri") == "LEVIN_MONGO_URI"
  {
    EnvNameIs("mongo.uri", "LEVIN_MONGO_URI");
  }

  /** The variable of the database name key: its '.' and its '_' both
      become '_'. */
  lemma EnvNameMongoDatabaseName()
    ensures EnvName("mongo.database_name") == "LEVIN_MONGO_DATABASE_NAME"
  {
    EnvNameIs("mongo.database_name", "LEVIN_MONGO_DATABASE_NAME");
  }

  lemma EnvNameIs(key: string, env: string)
    requires |env| == 6 + |key| && env[..6] == "LEVIN_"
    requires forall i :: 0 <= i < |key| ==> env[6 + i] == EnvChar(key[i])
    ensures EnvName(key) == env
  {
    var r := EnvName(key);
    forall i | 0 <= i < |r|
      ensures r[i] == env[i]
    {
      if i >= 6 {
        assert env[6 + (i - 6)] == EnvChar(key[i - 6]);
      } else {
        assert r[i] == r[..6][i];
      }
    }
  }

  /** The key a field is bound under, below `base`. `toSnake` is
      `strcase.ToSnake`, used for a field without a tag. */
  function Key(f: Field, base: string, toSnake: string -> string): string {
    base + (if |f.tag| == 0 then toSnake(f.name) else f.tag)
  }

  /** The (key, environment variable) pairs `bindEnvs` registers, in order. */
  function Bindings(fields: seq<Field>, base: string, toSnake: string -> string): seq<(string, string)>
    decreases fields
  {
    if fields == [] then [] else FieldBindings(fields[0], base, toSnake) + Bindings(fields[1..], base, toSnake)
  }

  /** The pairs registered for one field: none for an embedded field or one
      tagged "-", the fields of a struct under the key and a dot, else the
      key itself. */
  function FieldBindings(f: Field, base: string, toSnake: string -> string): seq<(string, string)>
    decreases f
  {
    if f.anonymous || f.tag == "-" then []
    else
      match f.kind
      case Scalar => [(Key(f, base, toSnake), EnvName(Key(f, base, toSnake)))]
      case Struct(sub) => Bindings(sub, Key(f, base, toSnake) + ".", toSnake)
  }

  lemma {:induction false} BindingsAppend(fields: seq<Field>, f: Field, base: string, toSnake: string -> string)
    ensures Bindings(fields + [f], base, toSnake) == Bindings(fields, base, toSnake) + FieldBindings(f, base, toSnake)
  {
    if fields == [] {
      assert [f][1..] == [];
    } else {
      assert (fields + [f])[1..] == fields[1..] + [f];
      BindingsAppend(fields[1..], f, base, toSnake);
    }
  }

  /** Every registered pair binds a key below `base` to that key's
      environment variable name. */
  lemma {:induction false} BindingsShape(fields: seq<Field>, base: string, toSnake: string -> string)
    ensures forall b :: b in Bindings(fields, base, toSnake) ==> HasPrefix(b.0, base) && b.1 == EnvName(b.0)
    decreases fields
  {
    if fields != [] {
      FieldBindingsShape(fields[0], base, toSnake);
      BindingsShape(fields[1..], base, toSnake);
    }
  }

  lemma {:induction false} FieldBindingsShape(f: Field, base: string, toSnake: string -> string)
    ensures forall b :: b in FieldBindings(f, base, toSnake) ==> HasPrefix(b.0, base) && b.1 == EnvName(b.0)
    ensures f.kind.Struct? ==>
      forall b :: b in FieldBindings(f, base, toSnake) ==> HasPrefix(b.0, Key(f, base, toSnake) + ".")
    decreases f
  {
    if !(f.anonymous || f.tag == "-") && f.kind.Struct? {
      var key := Key(f, base, toSnake) + ".";
      BindingsShape(f.kind.fields, key, toSnake);
      forall b | b in FieldBindings(f, base, toSnake)
        ensures HasPrefix(b.0, base)
      {
        assert HasPrefix(b.0, key);
        assert b.0[..|base|] == key[..|base|];
      }
    }
  }

  /** Viper, as far as `bindEnvs` uses it: the environment bindings it was
      given, in order. */
  class Viper {
    var envBindings: seq<(string, string)>

    constructor ()
      ensures envBindings == []
    {
      envBindings := [];
    }

    method BindEnv(key: string, env: string)
      modifies this
      ensures envBindings == old(envBindings) + [(key, env)]
    {
      envBindings := envBindings + [(key, env)];
    }
  }

  /** `bindEnvs`: binds every field of the struct, recursing into struct
      fields. */
  method BindEnvs(v: Viper, fields: seq<Field>, base: string, toSnake: string -> string)
    modifies v
    ensures v.envBindings == old(v.envBindings) + Bindings(fields, base, toSnake)
    decreases fields
  {
    for i := 0 to |fields|
      invariant v.envBindings == old(v.envBindings) + Bindings(fields[..i], base, toSnake)
    {
      var f := fields[i];
      BindingsAppend(fields[..i], f, base, toSnake);
      assert fields[..i + 1] == fields[..i] + [f];
      if f.anonymous {
        continue;
      }
      var name := f.tag;
      if name == "-" {
        continue;
      }
      if |name| == 0 {
        name := toSnake(f.name);
      }
      name := base + name;
      if f.kind.Struct? {
        BindEnvs(v, f.kind.fields, name + ".", toSnake);
      } else {
        var envName := EnvName(name);
        v.BindEnv(name, envName);
      }
    }
    assert fields[..|fields|] == fields;
  }
}
