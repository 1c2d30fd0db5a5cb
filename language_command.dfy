/** plugins/conf/language: the `language` command, which lists the languages
    the bot has translations for, or sets the language of the guild (in a
    guild) or of the invoking user (in a DM). */
module LanguageCommand {
  import opened Wrappers
  import opened Discord
  import opened Settings

  /** A language tag as the list shows it: in backticks. */
  function Quoted(tag: LanguageTag): string {
    "`" + tag + "`"
  }

  /** The language list: the quoted tags, in bundle order, separated by ", ". */
  function JoinTags(tags: seq<LanguageTag>): string {
    if |tags| == 0 then ""
    else if |tags| == 1 then Quoted(tags[0])
    else Quoted(tags[0]) + ", " + JoinTags(tags[1..])
  }

  /** Adding a tag at the end adds the separator and the quoted tag. */
  lemma {:induction false} JoinTagsAppend(tags: seq<LanguageTag>, tag: LanguageTag)
    ensures JoinTags(tags + [tag]) == JoinTags(tags) + (if |tags| == 0 then "" else ", ") + Quoted(tag)
  {
    if |tags| == 0 {
      assert tags + [tag] == [tag];
    } else if |tags| == 1 {
      assert (tags + [tag])[1..] == [tag];
    } else {
      assert (tags + [tag])[1..] == tags[1..] + [tag];
      JoinTagsAppend(tags[1..], tag);
    }
  }

  /** Every tag of the bundle shows up in the list, quoted. */
  lemma {:induction false} JoinTagsShowsEveryTag(tags: seq<LanguageTag>, k: nat)
    requires k < |tags|
    ensures exists i, j :: 0 <= i <= j <= |JoinTags(tags)| && JoinTags(tags)[i..j] == Quoted(tags[k])
  {
    var list := JoinTags(tags);
    if k == 0 {
      var q := Quoted(tags[0]);
      if |tags| == 1 {
        assert list[0..|q|] == q;
      } else {
        assert list == q + (", " + JoinTags(tags[1..]));
        assert list[0..|q|] == q;
      }
    } else {
      JoinTagsShowsEveryTag(tags[1..], k - 1);
      var rest := JoinTags(tags[1..]);
      var i, j :| 0 <= i <= j <= |rest| && rest[i..j] == Quoted(tags[1..][k - 1]);
      var head := Quoted(tags[0]) + ", ";
      assert list == head + rest;
      assert list[|head| + i..|head| + j] == rest[i..j];
    }
  }

  /** The list built tag by tag, as the string builder does. */
  method BuildList(tags: seq<LanguageTag>) returns (list: string)
    ensures list == JoinTags(tags)
  {
    list := "";
    for i := 0 to |tags|
      invariant list == JoinTags(tags[..i])
    {
      JoinTagsAppend(tags[..i], tags[i]);
      assert tags[..i + 1] == tags[..i] + [tags[i]];
      if i > 0 {
        list := list + ", ";
      }
      list := list + "`" + tags[i] + "`";
    }
    assert tags[..|tags|] == tags;
  }

  /** The search for the parsed tag among the bundle's tags. */
  method HasTag(tags: seq<LanguageTag>, tag: LanguageTag) returns (has: bool)
    ensures has <==> tag in tags
  {
    has := false;
    for i := 0 to |tags|
      invariant !has && tag !in tags[..i]
    {
      if tags[i] == tag {
        has := true;
        break;
      }
    }
    assert has || tags[..|tags|] == tags;
  }

  /** The repository setter the command calls. */
  datatype SetterCall =
    | SetUserLanguage(userId: UserId, tag: LanguageTag)
    | SetGuildLanguage(guildId: GuildId, tag: LanguageTag)

  /** The command's reply. */
  datatype Response = LanguageList(languages: string) | LanguageChanged

  /** What `Invoke` returns, and the setter call it makes, if any. `arg` is
      the optional argument, `tags` the bundle's languages, `parse` is
      `language.Parse`, `invoke` how the command was invoked (for the error
      message), `setter` the error the repository's setter returns, if any. */
  datatype Outcome = Outcome(response: Option<Response>, err: Option<Error>, call: Option<SetterCall>)

  function InvokeOutcome(arg: string, tags: seq<LanguageTag>, parse: Parser,
                         invoke: string, m: Message, setter: SetterCall -> Option<Error>): Outcome
  {
    if |arg| == 0 then Outcome(Some(LanguageList(JoinTags(tags))), None, None)
    else if parse(arg).1.Some? || parse(arg).0 !in tags then Outcome(None, Some(ArgumentError(arg, invoke)), None)
    else
      var tag := parse(arg).0;
      var call := if m.guildId == 0 then SetUserLanguage(m.authorId, tag) else SetGuildLanguage(m.guildId, tag);
      if setter(call).Some? then Outcome(None, setter(call), Some(call))
      else Outcome(Some(LanguageChanged), None, Some(call))
  }

  /** `Language.Invoke`. */
  method Invoke(arg: string, tags: seq<LanguageTag>, parse: Parser,
                invoke: string, m: Message, setter: SetterCall -> Option<Error>)
    returns (response: Option<Response>, err: Option<Error>, call: Option<SetterCall>)
    ensures Outcome(response, err, call) == InvokeOutcome(arg, tags, parse, invoke, m, setter)
  {
    if |arg| == 0 {
      var list := BuildList(tags);
      return Some(LanguageList(list)), None, None;
    }
    var (tag, parseErr) := parse(arg);
    if parseErr.Some? {
      return None, Some(ArgumentError(arg, invoke)), None;
    }
    var has := HasTag(tags, tag);
    if !has {
      return None, Some(ArgumentError(arg, invoke)), None;
    }
    if m.guildId == 0 {
      call := Some(SetUserLanguage(m.authorId, tag));
    } else {
      call := Some(SetGuildLanguage(m.guildId, tag));
    }
    err := setter(call.value);
    if err.Some? {
      return None, err, call;
    }
    response := Some(LanguageChanged);
  }

  /** The repository is written only for a tag that parses and that the
      bundle has; a DM sets the author's language and a guild message the
      guild's, with exactly that tag. An error is returned exactly when the
      argument is rejected or the setter fails; otherwise the reply is the
      list (empty argument) or the confirmation. */
  lemma InvokeCases(arg: string, tags: seq<LanguageTag>, parse: Parser,
                    invoke: string, m: Message, setter: SetterCall -> Option<Error>)
    ensures var o := InvokeOutcome(arg, tags, parse, invoke, m, setter);
      && (o.call.Some? <==> |arg| > 0 && parse(arg).1.None? && parse(arg).0 in tags)
      && (o.call.Some? && m.guildId == 0 ==> o.call.value == SetUserLanguage(m.authorId, parse(arg).0))
      && (o.call.Some? && m.guildId != 0 ==> o.call.value == SetGuildLanguage(m.guildId, parse(arg).0))
      && (o.err.Some? <==> o.response.None?)
      && (|arg| > 0 && o.call.None? ==> o.err == Some(ArgumentError(arg, invoke)))
      && (o.call.Some? ==> o.err == setter(o.call.value))
      && (|arg| == 0 ==> o.response == Some(LanguageList(JoinTags(tags))))
  {
  }
}
