/** pkg/repository/defaults.go: the values a repository gives a guild or user
    it has no record of, and their normalisation. */
module Defaults {
  import opened Settings

  /** The value held by a `Defaults` object. */
  datatype DefaultsValue = DefaultsValue(prefix: string, language: string, timeZone: Zone)

  /** Normalised defaults: a non-empty language and a non-nil time zone. */
  predicate Normalised(d: DefaultsValue) {
    |d.language| > 0 && d.timeZone != NilZone
  }

  /** What `FillZeros` makes of a defaults value. */
  function Filled(d: DefaultsValue): (r: DefaultsValue)
    ensures Normalised(r)
    ensures r.prefix == d.prefix
    ensures |d.language| == 0 ==> r.language == English
    ensures |d.language| > 0 ==> r.language == d.language
    ensures d.timeZone == NilZone ==> r.timeZone == UTC
    ensures d.timeZone != NilZone ==> r.timeZone == d.timeZone
  {
    DefaultsValue(
      d.prefix,
      if |d.language| == 0 then English else d.language,
      if d.timeZone == NilZone then UTC else d.timeZone)
  }

  /** Normalised defaults are a fixed point of `Filled`. */
  lemma FilledKeepsNormalised(d: DefaultsValue)
    requires Normalised(d)
    ensures Filled(d) == d
  {
  }

  /** `FillZeros` is idempotent. */
  lemma FilledIdempotent(d: DefaultsValue)
    ensures Filled(Filled(d)) == Filled(d)
  {
    FilledKeepsNormalised(Filled(d));
  }

  /** `repository.Defaults`, shared by pointer between the caller and the
      repository built from it. */
  class Defaults {
    var prefix: string
    var language: string
    var timeZone: Zone

    function Value(): DefaultsValue
      reads this
    {
      DefaultsValue(prefix, language, timeZone)
    }

    constructor (prefix: string, language: string, timeZone: Zone)
      ensures Value() == DefaultsValue(prefix, language, timeZone)
    {
      this.prefix := prefix;
      this.language := language;
      this.timeZone := timeZone;
    }

    /** Replaces an empty language by English and a nil time zone by UTC. */
    method FillZeros()
      modifies this
      ensures Value() == Filled(old(Value()))
    {
      if |language| == 0 {
        language := English;
      }
      if timeZone == NilZone {
        timeZone := UTC;
      }
    }
  }
}
