/** `LanguageMap<TValue>` and the default-element extension methods that live
    beside it (the Natural Language Values part of Activity Streams 2.0 Core).

    The process-wide `Settings.DefaultLanguage` becomes the explicit `lang`
    parameter; its shipped value is `ShippedDefaultLanguage`. The C#
    `default(TValue)` is `null` for both instantiations the library uses
    (`string` and `Entity`), so it is `None` here. */
module LanguageMaps {
  import opened Wrappers

  /** The shipped value of `Settings.DefaultLanguage`. */
  const ShippedDefaultLanguage: string := "en"

  /** A read-only mapping from language tag to value. */
  datatype LanguageMap<T> = LanguageMap(entries: map<string, T>)

  /** `new LanguageMap(values)`: a copy of the given dictionary. With value
      semantics a later change to `d` cannot reach the map. */
  function FromDictionary<T>(d: map<string, T>): (m: LanguageMap<T>)
    ensures m.entries.Keys == d.Keys
    ensures forall k :: k in d ==> m.entries[k] == d[k]
  {
    LanguageMap(d)
  }

  /** `new LanguageMap()`. */
  function EmptyMap<T>(): (m: LanguageMap<T>)
    ensures |m.entries| == 0
  {
    LanguageMap(map[])
  }

  /** `TryGetValue`: whether the key is present, and its value if so. */
  function TryGetValue<T>(m: LanguageMap<T>, key: string): (r: (bool, Option<T>))
    ensures r.0 <==> key in m.entries
    ensures r.0 ==> r.1 == Some(m.entries[key])
    ensures !r.0 ==> r.1 == None
  {
    if key in m.entries then (true, Some(m.entries[key])) else (false, None)
  }

  /** The indexer `this[key]`: throws on a missing key. */
  function Lookup<T>(m: LanguageMap<T>, key: string): (r: Result<T>)
    ensures r.Success? <==> key in m.entries
    ensures r.Success? ==> r.value == m.entries[key]
    ensures r.Failure? ==> r.error == KeyNotFoundException
  {
    if key in m.entries then Success(m.entries[key]) else Failure(KeyNotFoundException)
  }

  /** `Default`: the value under the default-language key, or `default(T)`;
      it never fails. */
  function Default<T>(m: LanguageMap<T>, lang: string): (r: Option<T>)
    ensures r.Some? <==> lang in m.entries
    ensures r.Some? ==> r.value == m.entries[lang]
  {
    var (found, v) := TryGetValue(m, lang);
    if found then v else None
  }

  /** The indexer and `TryGetValue` agree wherever the indexer succeeds, and
      the indexer fails exactly where `TryGetValue` reports false. */
  lemma LookupAgreesWithTryGetValue<T>(m: LanguageMap<T>, key: string)
    ensures Lookup(m, key).Success? <==> TryGetValue(m, key).0
    ensures Lookup(m, key).Success? ==> TryGetValue(m, key).1 == Some(Lookup(m, key).value)
  {
  }

  /** What `GetDefault` can be called on: a language map, or any other sequence. */
  datatype Values<T> = Localized(langMap: LanguageMap<T>) | Listed(items: seq<T>)

  /** `GetDefault`: a language map's `Default`, otherwise the first element
      (`FirstOrDefault`). */
  function GetDefault<T>(vs: Values<T>, lang: string): (r: Option<T>)
    ensures vs.Localized? ==> r == Default(vs.langMap, lang)
    ensures vs.Listed? ==> (r.Some? <==> |vs.items| > 0)
    ensures vs.Listed? && r.Some? ==> r.value == vs.items[0]
  {
    match vs
    case Localized(m) => Default(m, lang)
    case Listed(items) => if |items| == 0 then None else Some(items[0])
  }

  /** `SetForDefaultLanguage`: insert or overwrite the default-language key,
      leaving every other entry as it was. */
  function SetForDefaultLanguage<T>(d: map<string, T>, lang: string, v: T): (r: map<string, T>)
    ensures r.Keys == d.Keys + {lang}
    ensures r[lang] == v
    ensures forall k :: k in d && k != lang ==> r[k] == d[k]
  {
    d[lang := v]
  }

  /** `SetDefault` on a `List<T>`: `Insert(0, value)` through the plain list
      methods, so no restriction of a derived list applies. */
  function SetDefault<T>(xs: seq<T>, v: T): (r: seq<T>)
    ensures |r| == |xs| + 1
    ensures r[0] == v
    ensures r[1..] == xs
  {
    [v] + xs
  }

  /** Writing the default language and then wrapping the dictionary in a
      `LanguageMap` reads the written value back as `Default`. */
  lemma DefaultAfterSetForDefaultLanguage<T>(d: map<string, T>, lang: string, v: T)
    ensures Default(FromDictionary(SetForDefaultLanguage(d, lang, v)), lang) == Some(v)
  {
  }

  /** `SetDefault` followed by `GetDefault` reads the inserted value back. */
  lemma GetDefaultAfterSetDefault<T>(xs: seq<T>, v: T, lang: string)
    ensures GetDefault(Listed(SetDefault(xs, v)), lang) == Some(v)
  {
  }
}
