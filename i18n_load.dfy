/** internal/i18nwrapper (load.go): loading translation files into the
    translation bundle. Reading directories and files and decoding JSON are
    not part of this model; what a file decodes to is given as a value. */
module I18nLoad {
  import opened Wrappers
  import opened Settings

  /** The six plural forms of a translation. */
  datatype Definition = Definition(zero: string, one: string, two: string, few: string, many: string, other: string)

  const NoForms: Definition := Definition("", "", "", "", "", "")

  /** `definition.isEmpty`. */
  predicate IsEmpty(d: Definition) {
    |d.zero| == 0 && |d.one| == 0 && |d.two| == 0 && |d.few| == 0 && |d.many| == 0 && |d.other| == 0
  }

  /** A definition is empty exactly when it has no form at all. */
  lemma IsEmptyMeansNoForms(d: Definition)
    ensures IsEmpty(d) <==> d == NoForms
  {
  }

  /** The raw JSON of a definition: a string (it starts with a quote) or an
      object, each with the outcome of unmarshalling it. */
  datatype RawDefinition =
    | Quoted(text: Result<string, Error>)
    | Composite(definition: Result<Definition, Error>)

  /** One entry of a translation file. */
  datatype Translation = Translation(term: string, definition: RawDefinition)

  /** An `i18n.Message`: the term as id, with its forms. */
  datatype Message = Message(id: string, forms: Definition)

  /** The definition an entry unmarshals to. A bare string fills only the
      `other` form. */
  function Decode(raw: RawDefinition): (r: Result<Definition, Error>)
    ensures raw.Quoted? && raw.text.Ok? ==> r == Ok(NoForms.(other := raw.text.value))
    ensures raw.Composite? ==> r == raw.definition
    ensures raw.Quoted? && raw.text.Err? ==> r == Err(raw.text.error)
  {
    match raw
    case Quoted(text) => (match text case Ok(s) => Ok(NoForms.(other := s)) case Err(e) => Err(e))
    case Composite(d) => d
  }

  /** The entry is added to the bundle: it has a term and a non-empty
      definition. */
  predicate Wanted(t: Translation, d: Definition) {
    |t.term| > 0 && !IsEmpty(d)
  }

  /** The messages `loadTranslation` adds, in file order, and the error it
      stops with, if any. `accepted` says whether the bundle has a plural
      rule for the file's language, which `AddMessages` requires. */
  function LoadMessages(tag: LanguageTag, ts: seq<Translation>, accepted: bool): (seq<Message>, Option<Error>) {
    if ts == [] then ([], None)
    else
      match Decode(ts[0].definition)
      case Err(e) => ([], Some(e))
      case Ok(d) =>
        if !Wanted(ts[0], d) then LoadMessages(tag, ts[1..], accepted)
        else if !accepted then ([], Some(NoPluralRule(tag)))
        else
          var (rest, err) := LoadMessages(tag, ts[1..], accepted);
          ([Message(ts[0].term, d)] + rest, err)
  }

  /** Every entry unmarshals. */
  predicate AllDecode(ts: seq<Translation>) {
    forall k :: 0 <= k < |ts| ==> Decode(ts[k].definition).Ok?
  }

  /** When every entry unmarshals and the language has a plural rule,
      loading succeeds, and a message is added exactly when some entry with a
      term and a non-empty definition has that term as id and that
      definition as forms. */
  lemma {:induction false} LoadedMessages(tag: LanguageTag, ts: seq<Translation>, m: Message)
    requires AllDecode(ts)
    ensures LoadMessages(tag, ts, true).1 == None
    ensures m in LoadMessages(tag, ts, true).0 <==>
      exists k :: 0 <= k < |ts| && Wanted(ts[k], Decode(ts[k].definition).value)
                  && m == Message(ts[k].term, Decode(ts[k].definition).value)
  {
    if ts != [] {
      assert AllDecode(ts[1..]) by {
        forall k | 0 <= k < |ts[1..]| ensures Decode(ts[1..][k].definition).Ok? {
          assert ts[1..][k] == ts[k + 1];
        }
      }
      LoadedMessages(tag, ts[1..], m);
      var d := Decode(ts[0].definition).value;
      if exists k :: 0 <= k < |ts| && Wanted(ts[k], Decode(ts[k].definition).value)
                     && m == Message(ts[k].term, Decode(ts[k].definition).value) {
        var k :| 0 <= k < |ts| && Wanted(ts[k], Decode(ts[k].definition).value)
                 && m == Message(ts[k].term, Decode(ts[k].definition).value);
        if k > 0 {
          assert ts[1..][k - 1] == ts[k];
        }
      }
      if exists k :: 0 <= k < |ts[1..]| && Wanted(ts[1..][k], Decode(ts[1..][k].definition).value)
                     && m == Message(ts[1..][k].term, Decode(ts[1..][k].definition).value) {
        var k :| 0 <= k < |ts[1..]| && Wanted(ts[1..][k], Decode(ts[1..][k].definition).value)
                 && m == Message(ts[1..][k].term, Decode(ts[1..][k].definition).value);
        assert ts[1..][k] == ts[k + 1];
      }
    }
  }

  /** The index of the first entry that does not unmarshal, or the number
      of entries when all do. */
  function FirstFailure(ts: seq<Translation>): (f: nat)
    ensures f <= |ts|
    ensures forall k :: 0 <= k < f ==> Decode(ts[k].definition).Ok?
    ensures f < |ts| ==> Decode(ts[f].definition).Err?
  {
    if ts == [] || Decode(ts[0].definition).Err? then 0 else 1 + FirstFailure(ts[1..])
  }

  /** `ks` are the indices of the entries the messages `ms` come from: in
      increasing order, one message per index, each with that entry's term
      and forms, and exactly the wanted entries before `f`. */
  predicate Enumerates(ts: seq<Translation>, f: nat, ks: seq<nat>, ms: seq<Message>)
    requires f <= |ts| && forall k :: 0 <= k < f ==> Decode(ts[k].definition).Ok?
  {
    && |ks| == |ms|
    && Increasing(ks)
    && (forall i :: 0 <= i < |ks| ==> ks[i] < f)
    && (forall i :: 0 <= i < |ks| ==> ms[i] == Message(ts[ks[i]].term, Decode(ts[ks[i]].definition).value))
    && (forall k :: 0 <= k < f ==> (k in ks <==> Wanted(ts[k], Decode(ts[k].definition).value)))
  }

  predicate Increasing(ks: seq<nat>) {
    forall i, j :: 0 <= i < j < |ks| ==> ks[i] < ks[j]
  }

  function Shift(ks: seq<nat>): (r: seq<nat>)
    ensures |r| == |ks| && forall i :: 0 <= i < |ks| ==> r[i] == ks[i] + 1
  {
    seq(|ks|, i requires 0 <= i < |ks| => ks[i] + 1)
  }

  lemma ShiftMembership(ks: seq<nat>, k: nat)
    ensures 0 !in Shift(ks)
    ensures k + 1 in Shift(ks) <==> k in ks
  {
    if k in ks {
      var i :| 0 <= i < |ks| && ks[i] == k;
      assert Shift(ks)[i] == k + 1;
    }
  }

  /** An enumeration of the entries after the first, moved one entry on,
      takes its messages from the same entries of the whole file. */
  lemma ShiftedMessages(ts: seq<Translation>, ks: seq<nat>, ms: seq<Message>)
    requires ts != [] && Decode(ts[0].definition).Ok?
    requires Enumerates(ts[1..], FirstFailure(ts[1..]), ks, ms)
    ensures FirstFailure(ts) == 1 + FirstFailure(ts[1..])
    ensures forall i :: 0 <= i < |ks| ==>
      1 <= Shift(ks)[i] < FirstFailure(ts)
      && ms[i] == Message(ts[Shift(ks)[i]].term, Decode(ts[Shift(ks)[i]].definition).value)
  {
    var tail := ts[1..];
    forall i | 0 <= i < |ks|
      ensures ms[i] == Message(ts[Shift(ks)[i]].term, Decode(ts[Shift(ks)[i]].definition).value)
    {
      assert tail[ks[i]] == ts[ks[i] + 1];
    }
  }

  /** An enumeration of the entries after the first, moved one entry on,
      holds the wanted entries of the whole file after the first. */
  lemma ShiftedIndices(ts: seq<Translation>, ks: seq<nat>, ms: seq<Message>)
    requires ts != [] && Decode(ts[0].definition).Ok?
    requires Enumerates(ts[1..], FirstFailure(ts[1..]), ks, ms)
    ensures FirstFailure(ts) == 1 + FirstFailure(ts[1..])
    ensures forall k :: 1 <= k < FirstFailure(ts) ==>
      (k in Shift(ks) <==> Wanted(ts[k], Decode(ts[k].definition).value))
    ensures 0 !in Shift(ks)
  {
    var tail := ts[1..];
    forall k | 1 <= k < FirstFailure(ts)
      ensures k in Shift(ks) <==> Wanted(ts[k], Decode(ts[k].definition).value)
    {
      ShiftMembership(ks, k - 1);
      assert tail[k - 1] == ts[k];
    }
    ShiftMembership(ks, 0);
  }

  lemma ShiftIncreasing(ks: seq<nat>)
    requires Increasing(ks)
    ensures Increasing(Shift(ks)) && Increasing([0] + Shift(ks))
  {
    var ks' := [0] + Shift(ks);
    forall i, j | 0 <= i < j < |ks'|
      ensures ks'[i] < ks'[j]
    {
      assert ks'[j] == ks[j - 1] + 1;
      if i > 0 {
        assert ks'[i] == ks[i - 1] + 1;
      }
    }
  }

  lemma EnumeratesSkip(ts: seq<Translation>, ks: seq<nat>, ms: seq<Message>)
    requires ts != [] && Decode(ts[0].definition).Ok? && !Wanted(ts[0], Decode(ts[0].definition).value)
    requires Enumerates(ts[1..], FirstFailure(ts[1..]), ks, ms)
    ensures Enumerates(ts, FirstFailure(ts), Shift(ks), ms)
  {
    ShiftedMessages(ts, ks, ms);
    ShiftedIndices(ts, ks, ms);
    ShiftIncreasing(ks);
  }

  /** Putting the first entry's message in front of messages taken from
      entries at indices `sh` takes them from the indices with 0 in front. */
  lemma ConsMessages(ts: seq<Translation>, f: nat, sh: seq<nat>, ms: seq<Message>)
    requires 0 < f <= |ts| && forall k :: 0 <= k < f ==> Decode(ts[k].definition).Ok?
    requires |sh| == |ms|
    requires forall i :: 0 <= i < |sh| ==>
      sh[i] < f && ms[i] == Message(ts[sh[i]].term, Decode(ts[sh[i]].definition).value)
    ensures var ks', ms' := [0] + sh, [Message(ts[0].term, Decode(ts[0].definition).value)] + ms;
      forall i :: 0 <= i < |ks'| ==>
        ks'[i] < f && ms'[i] == Message(ts[ks'[i]].term, Decode(ts[ks'[i]].definition).value)
  {
    var ks', ms' := [0] + sh, [Message(ts[0].term, Decode(ts[0].definition).value)] + ms;
    forall i | 1 <= i < |ks'|
      ensures ks'[i] < f && ms'[i] == Message(ts[ks'[i]].term, Decode(ts[ks'[i]].definition).value)
    {
      assert ks'[i] == sh[i - 1] && ms'[i] == ms[i - 1];
    }
  }

  /** A wanted first entry joins the indices. */
  lemma KeepIndices(ts: seq<Translation>, ks: seq<nat>, ms: seq<Message>)
    requires ts != [] && Decode(ts[0].definition).Ok? && Wanted(ts[0], Decode(ts[0].definition).value)
    requires Enumerates(ts[1..], FirstFailure(ts[1..]), ks, ms)
    ensures forall k :: 0 <= k < FirstFailure(ts) ==>
      (k in [0] + Shift(ks) <==> Wanted(ts[k], Decode(ts[k].definition).value))
  {
    ShiftedIndices(ts, ks, ms);
    forall k | 1 <= k < FirstFailure(ts)
      ensures k in [0] + Shift(ks) <==> k in Shift(ks)
    {
    }
  }

  lemma EnumeratesKeep(ts: seq<Translation>, ks: seq<nat>, ms: seq<Message>)
    requires ts != [] && Decode(ts[0].definition).Ok? && Wanted(ts[0], Decode(ts[0].definition).value)
    requires Enumerates(ts[1..], FirstFailure(ts[1..]), ks, ms)
    ensures Enumerates(ts, FirstFailure(ts), [0] + Shift(ks),
                       [Message(ts[0].term, Decode(ts[0].definition).value)] + ms)
  {
    ShiftIncreasing(ks);
    ShiftedMessages(ts, ks, ms);
    ConsMessages(ts, FirstFailure(ts), Shift(ks), ms);
    KeepIndices(ts, ks, ms);
  }

  /** With a plural rule for the language, loading adds one message per
      wanted entry before the first entry that fails to unmarshal, in file
      order, and stops with that entry's error, if there is one. A later
      message with the same id overrides an earlier one in the bundle, so
      the order decides which definition of a repeated term is kept. */
  lemma {:induction false} LoadedInFileOrder(tag: LanguageTag, ts: seq<Translation>)
    ensures exists ks :: Enumerates(ts, FirstFailure(ts), ks, LoadMessages(tag, ts, true).0)
    ensures LoadMessages(tag, ts, true).1 ==
      if FirstFailure(ts) < |ts| then Some(Decode(ts[FirstFailure(ts)].definition).error) else None
  {
    if ts != [] && Decode(ts[0].definition).Ok? {
      var tail := ts[1..];
      LoadedInFileOrder(tag, tail);
      var ms := LoadMessages(tag, tail, true).0;
      var ks :| Enumerates(tail, FirstFailure(tail), ks, ms);
      var d := Decode(ts[0].definition).value;
      if Wanted(ts[0], d) {
        EnumeratesKeep(ts, ks, ms);
        assert LoadMessages(tag, ts, true).0 == [Message(ts[0].term, d)] + ms;
        assert Enumerates(ts, FirstFailure(ts), [0] + Shift(ks), LoadMessages(tag, ts, true).0);
      } else {
        EnumeratesSkip(ts, ks, ms);
        assert LoadMessages(tag, ts, true).0 == ms;
        assert Enumerates(ts, FirstFailure(ts), Shift(ks), LoadMessages(tag, ts, true).0);
      }
    } else {
      assert Enumerates(ts, FirstFailure(ts), [], LoadMessages(tag, ts, true).0);
    }
  }

  /** Without a plural rule for the language, nothing is added; loading
      stops at the first wanted entry with the missing-rule error, or
      earlier at an entry that fails to unmarshal. */
  lemma {:induction false} LoadRefusedWithoutRule(tag: LanguageTag, ts: seq<Translation>)
    ensures LoadMessages(tag, ts, false).0 == []
    ensures var f := FirstFailure(ts);
      LoadMessages(tag, ts, false).1 ==
        if exists k :: 0 <= k < f && Wanted(ts[k], Decode(ts[k].definition).value) then Some(NoPluralRule(tag))
        else if f < |ts| then Some(Decode(ts[f].definition).error)
        else None
  {
    if ts != [] && Decode(ts[0].definition).Ok? {
      var tail := ts[1..];
      LoadRefusedWithoutRule(tag, tail);
      var f := FirstFailure(ts);
      assert forall k :: 0 <= k < f - 1 ==> tail[k] == ts[k + 1];
      if exists k :: 0 <= k < f && Wanted(ts[k], Decode(ts[k].definition).value) {
        var k :| 0 <= k < f && Wanted(ts[k], Decode(ts[k].definition).value);
        if k > 0 {
          assert tail[k - 1] == ts[k];
        }
      }
    }
  }

  /** Whatever happens, every added message has a term and at least one
      form, and no more messages are added than the file has entries. */
  lemma {:induction false} LoadedAreWanted(tag: LanguageTag, ts: seq<Translation>, accepted: bool)
    ensures |LoadMessages(tag, ts, accepted).0| <= |ts|
    ensures forall m :: m in LoadMessages(tag, ts, accepted).0 ==> |m.id| > 0 && !IsEmpty(m.forms)
  {
    if ts != [] {
      LoadedAreWanted(tag, ts[1..], accepted);
    }
  }

  /** The translation bundle, as far as loading uses it: the languages it has
      a plural rule for, and the messages added, with their language, in
      order. */
  class Bundle {
    const pluralRules: set<LanguageTag>
    var added: seq<(LanguageTag, Message)>

    constructor (pluralRules: set<LanguageTag>)
      ensures this.pluralRules == pluralRules && added == []
    {
      this.pluralRules := pluralRules;
      added := [];
    }

    /** `AddMessages` for one message: refused for a language without a
        plural rule. */
    method AddMessage(tag: LanguageTag, m: Message) returns (err: Option<Error>)
      modifies this
      ensures tag in pluralRules ==> err == None && added == old(added) + [(tag, m)]
      ensures tag !in pluralRules ==> err == Some(NoPluralRule(tag)) && added == old(added)
    {
      if tag !in pluralRules {
        return Some(NoPluralRule(tag));
      }
      added := added + [(tag, m)];
      return None;
    }
  }

  /** The messages with their language. */
  function Tagged(tag: LanguageTag, ms: seq<Message>): (r: seq<(LanguageTag, Message)>)
    ensures |r| == |ms| && forall k :: 0 <= k < |ms| ==> r[k] == (tag, ms[k])
  {
    seq(|ms|, k requires 0 <= k < |ms| => (tag, ms[k]))
  }

  /** `loadTranslation`: `file` is the outcome of decoding the file into its
      list of entries. */
  method LoadTranslation(b: Bundle, tag: LanguageTag, file: Result<seq<Translation>, Error>)
    returns (err: Option<Error>)
    modifies b
    ensures file.Err? ==> err == Some(file.error) && b.added == old(b.added)
    ensures file.Ok? ==>
      var (ms, e) := LoadMessages(tag, file.value, tag in b.pluralRules);
      b.added == old(b.added) + Tagged(tag, ms) && err == e
  {
    if file.Err? {
      return Some(file.error);
    }
    var ts := file.value;
    ghost var accepted := tag in b.pluralRules;
    ghost var done: seq<Message> := [];
    assert ts[0..] == ts;
    for i := 0 to |ts|
      invariant b.added == old(b.added) + Tagged(tag, done)
      invariant LoadMessages(tag, ts, accepted).0 == done + LoadMessages(tag, ts[i..], accepted).0
      invariant LoadMessages(tag, ts, accepted).1 == LoadMessages(tag, ts[i..], accepted).1
    {
      assert ts[i..][0] == ts[i] && ts[i..][1..] == ts[i + 1..];
      var def := Decode(ts[i].definition);
      if def.Err? {
        return Some(def.error);
      }
      if |ts[i].term| == 0 || IsEmpty(def.value) {
        continue;
      }
      var m := Message(ts[i].term, def.value);
      err := b.AddMessage(tag, m);
      if err.Some? {
        return err;
      }
      assert Tagged(tag, done + [m]) == Tagged(tag, done) + [(tag, m)];
      assert LoadMessages(tag, ts[i..], accepted).0 == [m] + LoadMessages(tag, ts[i + 1..], accepted).0;
      assert done + LoadMessages(tag, ts[i..], accepted).0 == (done + [m]) + LoadMessages(tag, ts[i + 1..], accepted).0;
      done := done + [m];
    }
    return None;
  }

  // ---------------------------------------------------------------------
  // File names

  predicate EndsWith(s: string, suffix: string) {
    |suffix| <= |s| && s[|s| - |suffix|..] == suffix
  }

  /** The regexps' `lang` group can hold `l`: one or more characters, none
      a line break. */
  predicate LangText(l: string) {
    |l| > 0 && '\n' !in l
  }

  /** `defaultFileRegexp` matches `name` with `lang` holding `l`. */
  predicate DefaultMatch(name: string, l: string) {
    LangText(l) && (name == l + ".json" || name == l + "_adam.json" || name == l + "_levin.json")
  }

  /** `customFileRegexp` matches `name` with `lang` holding `l`. */
  predicate CustomMatch(name: string, l: string) {
    LangText(l) && name == l + ".json"
  }

  /** The language `defaultFileRegexp` extracts from an embedded file name.
      The `lang` group is lazy, so it takes the shortest text that lets the
      rest match: an `_adam` or `_levin` before `.json` is stripped. */
  function DefaultFileLanguage(name: string): Option<string> {
    if !EndsWith(name, ".json") then None
    else
      var base := name[..|name| - 5];
      var l := if EndsWith(base, "_adam") && |base| > 5 then base[..|base| - 5]
               else if EndsWith(base, "_levin") && |base| > 6 then base[..|base| - 6]
               else base;
      if LangText(l) then Some(l) else None
  }

  /** The language `customFileRegexp` extracts from a custom file name:
      everything before `.json`. */
  function CustomFileLanguage(name: string): Option<string> {
    if EndsWith(name, ".json") && LangText(name[..|name| - 5]) then Some(name[..|name| - 5]) else None
  }

  /** Appending a suffix: the original is the prefix, the suffix the end. */
  lemma Appended(l: string, suffix: string)
    ensures EndsWith(l + suffix, suffix) && (l + suffix)[..|l|] == l
  {
    assert (l + suffix)[|l|..] == suffix;
  }

  /** The extracted language is a text the `lang` group can match. */
  lemma DefaultFileLanguageMatches(name: string)
    requires DefaultFileLanguage(name).Some?
    ensures DefaultMatch(name, DefaultFileLanguage(name).value)
  {
    var l := DefaultFileLanguage(name).value;
    var base := name[..|name| - 5];
    assert name == base + ".json";
    if EndsWith(base, "_adam") && |base| > 5 {
      assert base == l + "_adam";
    } else if EndsWith(base, "_levin") && |base| > 6 {
      assert base == l + "_levin";
    }
  }

  /** The extracted language is the shortest text the `lang` group can
      match (the group is lazy), and something is extracted whenever the
      regexp matches. */
  lemma DefaultFileLanguageIsShortest(name: string, l: string)
    requires DefaultMatch(name, l)
    ensures DefaultFileLanguage(name).Some? && |DefaultFileLanguage(name).value| <= |l|
  {
    var base := name[..|name| - 5];
    if name == l + ".json" {
      Appended(l, ".json");
      ShortestOfBase(base);
    } else if name == l + "_adam.json" {
      assert name == (l + "_adam") + ".json";
      Appended(l + "_adam", ".json");
      Appended(l, "_adam");
    } else {
      assert name == (l + "_levin") + ".json";
      Appended(l + "_levin", ".json");
      Appended(l, "_levin");
      assert !EndsWith(l + "_levin", "_adam") by {
        assert (l + "_levin")[|l| + 5] == 'n';
      }
    }
  }

  /** Stripping a suffix from a valid language text leaves a valid one, if
      anything is left. */
  lemma ShortestOfBase(base: string)
    requires LangText(base)
    ensures EndsWith(base, "_adam") && |base| > 5 ==> LangText(base[..|base| - 5])
    ensures EndsWith(base, "_levin") && |base| > 6 ==> LangText(base[..|base| - 6])
  {
    forall k | 0 <= k <= |base| ensures '\n' !in base[..k] {
      assert forall c :: c in base[..k] ==> c in base;
    }
  }

  /** A language name that does not itself end in `_adam` or `_levin` is
      extracted alike from `l.json`, `l_adam.json` and `l_levin.json`. */
  lemma DefaultFileNames(l: string)
    requires LangText(l) && !EndsWith(l, "_adam") && !EndsWith(l, "_levin")
    ensures DefaultFileLanguage(l + ".json") == Some(l)
    ensures DefaultFileLanguage(l + "_adam.json") == Some(l)
    ensures DefaultFileLanguage(l + "_levin.json") == Some(l)
  {
    Appended(l, ".json");
    assert l + "_adam.json" == (l + "_adam") + ".json";
    Appended(l + "_adam", ".json");
    Appended(l, "_adam");
    assert l + "_levin.json" == (l + "_levin") + ".json";
    Appended(l + "_levin", ".json");
    Appended(l, "_levin");
    assert !EndsWith(l + "_levin", "_adam") by {
      assert (l + "_levin")[|l| + 5] == 'n';
    }
  }

  /** The custom regexp extracts exactly the text before `.json`. */
  lemma CustomFileLanguageIsMatch(name: string, l: string)
    ensures CustomFileLanguage(name) == Some(l) <==> CustomMatch(name, l)
  {
    if CustomMatch(name, l) {
      assert name[..|name| - 5] == l;
    }
    if CustomFileLanguage(name) == Some(l) {
      assert name == name[..|name| - 5] + ".json";
    }
  }

  // ---------------------------------------------------------------------
  // Directory entries

  /** A directory entry: its name and whether it is a directory. */
  datatype Entry = Entry(name: string, isDir: bool)

  /** What a loader does with one directory entry: skip it, load it as a
      translation file for a language, or fail with a run-time panic. */
  datatype EntryAction = Skip | LoadAs(tag: LanguageTag) | Panic

  /** `loadCustomTranslations` for one entry: directories, names that do not
      match and languages that do not parse are skipped. */
  function CustomEntryAction(e: Entry, parse: Parser): (r: EntryAction)
    ensures r != Panic
    ensures r.LoadAs? <==> !e.isDir && CustomFileLanguage(e.name).Some?
                           && parse(CustomFileLanguage(e.name).value).1 == None
    ensures r.LoadAs? ==> r.tag == parse(CustomFileLanguage(e.name).value).0
  {
    if e.isDir then Skip
    else match CustomFileLanguage(e.name)
      case None => Skip
      case Some(l) =>
        var (tag, err) := parse(l);
        if err.Some? then Skip else LoadAs(tag)
  }

  /** `loadEmbeddedTranslations` for one entry, as written: after the
      warning about a name that does not match it still reads the language
      group of the missing match, and after the warning about a language
      that does not parse it still loads the file. */
  function EmbeddedEntryActionAsWritten(e: Entry, parse: Parser): EntryAction {
    if e.isDir then Skip
    else match DefaultFileLanguage(e.name)
      case None => Panic
      case Some(l) => LoadAs(parse(l).0)
  }

  /** An embedded file that is not a translation file makes the loader
      panic, and one whose language does not parse is loaded, although the
      warnings say both are skipped. */
  lemma EmbeddedLoaderDoesNotSkip(parse: Parser)
    requires parse("xx").1.Some?
    ensures EmbeddedEntryActionAsWritten(Entry("README.md", false), parse) == Panic
    ensures EmbeddedEntryActionAsWritten(Entry("xx.json", false), parse) == LoadAs(parse("xx").0)
  {
    assert !EndsWith("README.md", ".json") by {
      assert "README.md"[4..] != ".json";
    }
    assert "xx.json"[..2] == "xx";
  }

  /** `loadEmbeddedTranslations` for one entry, skipping what its warnings
      say it skips. */
  function EmbeddedEntryAction(e: Entry, parse: Parser): (r: EntryAction)
    ensures r != Panic
    ensures r.LoadAs? <==> !e.isDir && DefaultFileLanguage(e.name).Some?
                           && parse(DefaultFileLanguage(e.name).value).1 == None
    ensures r.LoadAs? ==> r.tag == parse(DefaultFileLanguage(e.name).value).0
  {
    if e.isDir then Skip
    else match DefaultFileLanguage(e.name)
      case None => Skip
      case Some(l) =>
        var (tag, err) := parse(l);
        if err.Some? then Skip else LoadAs(tag)
  }

  /** The corrected loader differs from the written one only where the
      written one panics or loads a file whose language did not parse. */
  lemma EmbeddedFixAgreesOnGoodFiles(e: Entry, parse: Parser)
    ensures EmbeddedEntryActionAsWritten(e, parse) != Panic
            && (EmbeddedEntryActionAsWritten(e, parse).LoadAs? ==> parse(DefaultFileLanguage(e.name).value).1 == None)
            ==> EmbeddedEntryAction(e, parse) == EmbeddedEntryActionAsWritten(e, parse)
  {
  }
}
